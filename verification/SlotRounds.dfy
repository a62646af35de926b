/** The rounds of the slot book told from the marks alone: when a round turns, and how fresh the aggregate then is. */
module SlotRounds {
  import opened Numbers
  import opened Wrappers
  import opened Sums
  import opened SlotBook

  /** The rounds so far: valuations counted in this one, those of the last complete one, and when this one began. */
  datatype Log = Log(current: seq<u64>, complete: Option<seq<u64>>, started: u64, turns: nat)

  const NO_ROUND := Log([], None, 0, 0)

  predicate CountedIn(m: SlotMark, round: int) { m.state.Priced? && m.round == round }

  /** Some slot is live and every live slot has a valuation that counts in this round. */
  ghost predicate RoundComplete(ms: seq<SlotMark>, round: int) {
    && (exists m :: m in ms && !m.state.Final?)
    && (forall m :: m in ms && !m.state.Final? ==> CountedIn(m, round))
  }

  ghost predicate NoneLive(ms: seq<SlotMark>) {
    forall m :: m in ms ==> m.state.Final?
  }

  /** A complete round ends at once and the next begins. */
  ghost function Turned(g: Log, ms: seq<SlotMark>, now: u64): Log {
    if RoundComplete(ms, g.turns) then Log([], Some(g.current), now, g.turns + 1) else g
  }

  ghost function Logged(g: Log, s: State, a: Action, s': State): Log {
    match a
    case OpenSlot(now) => if NoneLive(s.marks) then Log([], g.complete, now, g.turns + 1) else g
    case InvalidateSlot(_) => g
    case RecordSlot(i, _, _, valuedTs, exact, now) =>
      if !exact && g.complete.Some? && valuedTs < Oldest(g.complete.value) then g
      else Turned(if !exact && valuedTs >= g.started then g.(current := g.current + [valuedTs]) else g, s'.marks, now)
    case CloseSlot(_, now) => Turned(g, s'.marks, now)
  }

  function Oldest(ts: seq<u64>): u64 {
    if ts == [] then U64_MAX else Min(Oldest(ts[..|ts| - 1]), ts[|ts| - 1])
  }

  ghost function LogOf(actions: seq<Action>): Log {
    if actions == [] then NO_ROUND
    else
      var (front, a) := (actions[..|actions| - 1], actions[|actions| - 1]);
      var s := Run(State(EMPTY_BOOK, []), front);
      if Step(s, a).Ok? then Logged(LogOf(front), s, a, Step(s, a).value) else LogOf(front)
  }

  /** The book's round fields are those of the log, and no complete round is left standing. */
  ghost predicate RoundsAgree(b: Book, ms: seq<SlotMark>, g: Log) {
    && b.round == g.turns && b.roundStartTs == g.started
    && (0 < g.turns ==> b.roundMinTs == Oldest(g.current))
    && b.freshSinceTs == (if g.complete.None? then 0 else Oldest(g.complete.value))
    && !RoundComplete(ms, g.turns)
  }

  lemma OldestSnoc(ts: seq<u64>, t: u64)
    ensures Oldest(ts + [t]) == Min(Oldest(ts), t)
  {
    assert (ts + [t])[..|ts|] == ts;
  }

  /** The counters decide completeness. */
  lemma CompleteIff(b: Book, ms: seq<SlotMark>)
    requires Agrees(b, ms)
    ensures RoundComplete(ms, b.round) <==> b.live != 0 && b.counted == b.live
    ensures NoneLive(ms) <==> b.live == 0
  {
    hide Sum;
    if NoneLive(ms) { SumZero(ms, IsLive()); }
    if b.live == 0 {
      forall m | m in ms ensures m.state.Final? {
        var i :| 0 <= i < |ms| && ms[i] == m;
        SumHas(ms, i, IsLive());
      }
    }
    if b.live != 0 && b.counted == b.live {
      forall m | m in ms && !m.state.Final? ensures CountedIn(m, b.round) { AllCount(b, ms, m); }
    }
    if RoundComplete(ms, b.round) { SumSame(ms, IsLive(), CountsIn(b.round)); }
  }

  lemma AdvanceAgrees(b: Book, ms: seq<SlotMark>, g: Log, now: u64)
    requires Agrees(b, ms) && b.round == g.turns < U64_MAX && b.roundStartTs == g.started
    requires 0 < g.turns ==> b.roundMinTs == Oldest(g.current)
    requires b.live != 0 ==> 0 < g.turns
    requires b.freshSinceTs == (if g.complete.None? then 0 else Oldest(g.complete.value))
    requires forall m :: m in ms ==> m.round <= g.turns
    ensures RoundsAgree(Advance(b, now), ms, Turned(g, ms, now))
  {
    CompleteIff(b, ms);
    hide Agrees;
    if RoundComplete(ms, g.turns) {
      assert !RoundComplete(ms, g.turns + 1);
    }
  }

  lemma OpenAgrees(b: Book, ms: seq<SlotMark>, g: Log, now: u64)
    requires BookInv(b, ms) && RoundsAgree(b, ms, g) && b.round < U64_MAX
    ensures RoundsAgree(Open(b, now), ms + [NEW_MARK],
                        if NoneLive(ms) then Log([], g.complete, now, g.turns + 1) else g)
  {
    CompleteIff(b, ms);
    assert NEW_MARK in ms + [NEW_MARK];
    hide Agrees;
  }

  lemma InvalidateAgrees(b: Book, ms: seq<SlotMark>, g: Log, i: nat)
    requires BookInv(b, ms) && RoundsAgree(b, ms, g) && i < |ms|
    ensures var (b', m') := Invalidate(b, ms[i]); RoundsAgree(b', ms[i := m'], g)
  {
    var (b', m') := Invalidate(b, ms[i]);
    var ms' := ms[i := m'];
    assert ms'[i] == m' && m' in ms' && ms[i] in ms;
    if RoundComplete(ms', g.turns) {
      var x :| x in ms' && !x.state.Final?;
      assert m'.state.Final?;
      assert x in ms;
      forall m | m in ms && !m.state.Final? ensures CountedIn(m, g.turns) {
        var k :| 0 <= k < |ms| && ms[k] == m;
        assert ms'[k] == m;
      }
      assert RoundComplete(ms, g.turns);
    }
  }

  /** The book before it may turn, after a valuation was accepted. */
  lemma RecordAgrees(b: Book, ms: seq<SlotMark>, g: Log, a: Action)
    requires a.RecordSlot? && BookInv(b, ms) && RoundsAgree(b, ms, g) && b.round < U64_MAX && a.i < |ms|
    requires Record(b, ms[a.i], a.lower, a.upper, a.valuedTs, a.exact, a.now).Ok?
    ensures var (b', m', _) := Record(b, ms[a.i], a.lower, a.upper, a.valuedTs, a.exact, a.now).value;
            RoundsAgree(b', ms[a.i := m'], Logged(g, State(b, ms), a, State(b', ms[a.i := m'])))
  {
    assert MarkOk(b, ms[a.i]);
    var (b', m', accepted) := Record(b, ms[a.i], a.lower, a.upper, a.valuedTs, a.exact, a.now).value;
    if !a.exact && a.valuedTs < b.freshSinceTs {
      InvalidateAgrees(b, ms, g, a.i);
    } else {
      var removed := Tally(b, ms[a.i], -1).value;
      var counts := !a.exact && a.valuedTs >= b.roundStartTs;
      var added := Tally(removed.(roundMinTs := if counts then Min(b.roundMinTs, a.valuedTs) else b.roundMinTs), m',
                         1).value;
      Replace(b, ms, a.i, m', added);
      OldestSnoc(g.current, a.valuedTs);
      var g' := if counts then g.(current := g.current + [a.valuedTs]) else g;
      RoundsRun(b, ms, a.i, m', added);
      hide Agrees, RoundComplete;
      forall m | m in ms[a.i := m'] ensures m.round <= g.turns { assert m == m' || MarkOk(b, m); }
      AdvanceAgrees(added, ms[a.i := m'], g', a.now);
    }
  }

  /** A live slot means a round is running, before and after a valuation. */
  lemma RoundsRun(b: Book, ms: seq<SlotMark>, i: nat, m': SlotMark, added: Book)
    requires BookInv(b, ms) && i < |ms| && added.round == b.round && Agrees(added, ms[i := m'])
    requires m'.state.Final? || !ms[i].state.Final?
    ensures added.live != 0 ==> b.round != 0
  {
    if b.round == 0 {
      forall m | m in ms[i := m'] ensures IsLive()(m) == 0 {
        assert ms[i] in ms && MarkOk(b, ms[i]);
        assert m == m' || MarkOk(b, m);
      }
      SumZero(ms[i := m'], IsLive());
    }
  }

  lemma CloseAgrees(b: Book, ms: seq<SlotMark>, g: Log, i: nat, now: u64)
    requires BookInv(b, ms) && RoundsAgree(b, ms, g) && b.round < U64_MAX && i < |ms| && Close(b, ms[i], now).Ok?
    ensures var left := ms[..i] + ms[i + 1..];
            RoundsAgree(Close(b, ms[i], now).value, left, Turned(g, left, now))
  {
    var left := ms[..i] + ms[i + 1..];
    RemoveSum(ms, i, IsLive());
    RemoveSum(ms, i, IsUnpriced());
    RemoveSum(ms, i, CountsIn(b.round));
    RemoveSum(ms, i, LowerOf());
    RemoveSum(ms, i, UpperOf());
    var removed := Tally(b, ms[i], -1).value.(slots := b.slots - 1);
    forall m | m in left ensures MarkOk(b, m) { assert m in ms; }
    if b.live != 0 { NoLiveNoRound(b, ms); }
    SumNonNegative(ms, IsLive());
    SumHas(ms, i, IsLive());
    hide RoundComplete;
    AdvanceAgrees(removed, left, g, now);
  }

  /**
   * After every run the round, its start, the oldest valuation counted in it and the oldest of the last complete round
   * are what the marks and actions say; a round never stays complete.
   */
  lemma {:induction false} EveryRunTurnsRounds(actions: seq<Action>)
    requires |actions| < U64_MAX
    ensures var s := Run(State(EMPTY_BOOK, []), actions);
            RoundsAgree(s.book, s.marks, LogOf(actions))
  {
    if actions != [] {
      var (front, a) := (actions[..|actions| - 1], actions[|actions| - 1]);
      EveryRunTurnsRounds(front);
      EveryRunAgrees(front);
      var s := Run(State(EMPTY_BOOK, []), front);
      hide RoundsAgree, BookInv;
      if Step(s, a).Ok? { StepAgrees(s, a, LogOf(front)); }
    }
  }

  lemma StepAgrees(s: State, a: Action, g: Log)
    requires BookInv(s.book, s.marks) && RoundsAgree(s.book, s.marks, g) && s.book.round < U64_MAX && Step(s, a).Ok?
    ensures var s' := Step(s, a).value; RoundsAgree(s'.book, s'.marks, Logged(g, s, a, s'))
  {
    hide RoundsAgree, BookInv, Turned, Record, Close, Invalidate, Open, NoneLive;
    match a
    case OpenSlot(now) => OpenAgrees(s.book, s.marks, g, now);
    case InvalidateSlot(i) => InvalidateAgrees(s.book, s.marks, g, i);
    case RecordSlot(_, _, _, _, _, _) => RecordAgrees(s.book, s.marks, g, a);
    case CloseSlot(i, now) => CloseAgrees(s.book, s.marks, g, i, now);
  }

  /** The aggregate is usable exactly when every live slot is priced and the last complete round is young enough. */
  lemma UsableIff(actions: seq<Action>, now: u64, maxAge: u64)
    requires |actions| < U64_MAX
    ensures var (s, g) := (Run(State(EMPTY_BOOK, []), actions), LogOf(actions));
            var since := if g.complete.None? then 0 else Oldest(g.complete.value);
            Usable(s.book, now, maxAge).Ok? <==>
              && (forall m :: m in s.marks ==> !m.state.Unpriced?)
              && (NoneLive(s.marks) || now - since <= maxAge)
  {
    hide Run, LogOf, RoundComplete, NoneLive, Sum, Oldest;
    EveryRunAgrees(actions);
    EveryRunTurnsRounds(actions);
    var s := Run(State(EMPTY_BOOK, []), actions);
    CompleteIff(s.book, s.marks);
    if s.book.unpriced == 0 {
      forall m | m in s.marks ensures !m.state.Unpriced? {
        var i :| 0 <= i < |s.marks| && s.marks[i] == m;
        SumHas(s.marks, i, IsUnpriced());
      }
    }
    if forall m :: m in s.marks ==> !m.state.Unpriced? { SumZero(s.marks, IsUnpriced()); }
  }

  /** The mark a valuation leaves, given the round it may count in and the freshness it must reach. */
  predicate Writes(m: SlotMark, a: Action, started: int, round: int, since: int, m': SlotMark)
    requires a.RecordSlot?
  {
    if !a.exact && a.valuedTs < since then m' == m.(state := Unpriced, round := 0)
    else
      && m'.state == (if a.exact then Final else Priced) && m'.valuedTs == a.valuedTs
      && m'.round == (if !a.exact && a.valuedTs >= started then round else 0)
      && m'.lower == a.lower && m'.upper == Max(a.lower, a.upper)
  }

  lemma RecordMarkIs(b: Book, m: SlotMark, a: Action)
    requires a.RecordSlot? && Record(b, m, a.lower, a.upper, a.valuedTs, a.exact, a.now).Ok?
    ensures var m' := Record(b, m, a.lower, a.upper, a.valuedTs, a.exact, a.now).value.1;
            Writes(m, a, b.roundStartTs, b.round, b.freshSinceTs, m')
  {
    hide Tally, Advance;
  }

  /** What a valuation writes: the mark it replaces and no other, or an older price that loses its standing. */
  lemma RecordWrites(actions: seq<Action>, a: Action)
    requires |actions| < U64_MAX && a.RecordSlot? && Step(Run(State(EMPTY_BOOK, []), actions), a).Ok?
    ensures var (s, g) := (Run(State(EMPTY_BOOK, []), actions), LogOf(actions));
            var s' := Step(s, a).value;
            && a.i < |s.marks| == |s'.marks| && s'.marks == s.marks[a.i := s'.marks[a.i]]
            && Writes(s.marks[a.i], a, g.started, g.turns,
                      if g.complete.None? then 0 else Oldest(g.complete.value), s'.marks[a.i])
  {
    hide Run, LogOf, RoundComplete, Record, Writes, Oldest;
    EveryRunTurnsRounds(actions);
    var s := Run(State(EMPTY_BOOK, []), actions);
    RecordMarkIs(s.book, s.marks[a.i], a);
  }
}
