/** The O(1) aggregate over the fund's open slots, and why it speaks for every slot it summarises. */
module SlotBook {
  import opened Numbers
  import opened Sums

  datatype SlotState = Unpriced | Priced | Final

  /** One open slot's recorded valuation; `round` is 0 when it counts in none. */
  datatype SlotMark = SlotMark(state: SlotState, round: u64, lower: u64, upper: u64, valuedTs: u64)

  const NEW_MARK := SlotMark(Unpriced, 0, 0, 0, 0)

  /** The aggregate. Counters are integers, so an underflow would be visible as a negative count. */
  datatype Book = Book(
    slots: int,
    live: int,
    unpriced: int,
    counted: int,
    sumLower: u64,
    sumUpper: u64,
    round: u64,
    roundStartTs: u64,
    roundMinTs: u64,
    freshSinceTs: u64)

  const EMPTY_BOOK := Book(0, 0, 0, 0, 0, 0, 0, 0, 0, 0)

  datatype Outcome<+T> = Ok(value: T) | InvalidState {
    predicate IsFailure() { InvalidState? }
    function PropagateFailure<U>(): Outcome<U>
      requires InvalidState?
    {
      InvalidState
    }
    function Extract(): T
      requires Ok?
    {
      value
    }
  }

  /** Add (`sign == 1`) or remove (`sign == -1`) one slot's share of the counters and sums. */
  function Tally(b: Book, m: SlotMark, sign: int): Outcome<Book> {
    var lower := b.sumLower + sign * m.lower;
    var upper := b.sumUpper + sign * m.upper;
    if !(0 <= lower <= U64_MAX && 0 <= upper <= U64_MAX) then InvalidState
    else
      var c := b.(sumLower := lower, sumUpper := upper);
      if m.state.Final? then Ok(c)
      else
        var d := c.(live := c.live + sign);
        if m.state.Unpriced? then Ok(d.(unpriced := d.unpriced + sign))
        else if m.round == b.round then Ok(d.(counted := d.counted + sign))
        else Ok(d)
  }

  function StartRound(b: Book, now: u64): Book {
    b.(round := Min(b.round + 1, U64_MAX), roundStartTs := now, roundMinTs := U64_MAX, counted := 0)
  }

  function Advance(b: Book, now: u64): Book {
    if b.live != 0 && b.counted == b.live then StartRound(b.(freshSinceTs := b.roundMinTs), now) else b
  }

  function Open(b: Book, now: u64): Book {
    var s := if b.live == 0 then StartRound(b, now) else b;
    s.(slots := s.slots + 1, live := s.live + 1, unpriced := s.unpriced + 1)
  }

  function Invalidate(b: Book, m: SlotMark): (Book, SlotMark) {
    if m.state.Priced? then
      (b.(unpriced := b.unpriced + 1, counted := if m.round == b.round then b.counted - 1 else b.counted),
       m.(state := Unpriced, round := 0))
    else (b, m.(round := 0))
  }

  /** Record a valuation; the flag says whether it was accepted. */
  function Record(b: Book, m: SlotMark, lower: u64, upper: u64, valuedTs: u64, exact: bool, now: u64)
    : Outcome<(Book, SlotMark, bool)>
  {
    if m.state.Final? && !exact then InvalidState
    else if !exact && valuedTs < b.freshSinceTs then
      var (b', m') := Invalidate(b, m);
      Ok((b', m', false))
    else
      var removed :- Tally(b, m, -1);
      var counts := !exact && valuedTs >= b.roundStartTs;
      var m' := SlotMark(if exact then Final else Priced, if counts then b.round else 0, lower, Max(upper, lower),
                         valuedTs);
      var added :- Tally(removed.(roundMinTs := if counts then Min(b.roundMinTs, valuedTs) else b.roundMinTs), m', 1);
      Ok((Advance(added, now), m', true))
  }

  function Close(b: Book, m: SlotMark, now: u64): Outcome<Book> {
    var removed :- Tally(b, m, -1);
    if b.slots < 1 then InvalidState else Ok(Advance(removed.(slots := b.slots - 1), now))
  }

  /** `(sum of lower, sum of upper)` when every live value is known and at most `maxAge` old. */
  function Usable(b: Book, now: u64, maxAge: u64): Outcome<(u64, u64)> {
    if b.unpriced == 0 && (b.live == 0 || SatSub(now, b.freshSinceTs) <= maxAge) then Ok((b.sumLower, b.sumUpper))
        else InvalidState
  }

  // ---- The book against the full list of marks ------------------------------------------------

  function One(b: bool): int { if b then 1 else 0 }

  function IsLive(): SlotMark -> int { (m: SlotMark) => One(!m.state.Final?) }

  function IsUnpriced(): SlotMark -> int { (m: SlotMark) => One(m.state.Unpriced?) }

  function CountsIn(round: int): SlotMark -> int { (m: SlotMark) => One(m.state.Priced? && m.round == round) }

  function LowerOf(): SlotMark -> int { (m: SlotMark) => m.lower }

  function UpperOf(): SlotMark -> int { (m: SlotMark) => m.upper }

  /** All four counters and both sums are those of the slots. */
  predicate Agrees(b: Book, ms: seq<SlotMark>) {
    && b.slots == |ms|
    && b.live == Sum(ms, IsLive())
    && b.unpriced == Sum(ms, IsUnpriced())
    && b.counted == Sum(ms, CountsIn(b.round))
    && b.sumLower == Sum(ms, LowerOf())
    && b.sumUpper == Sum(ms, UpperOf())
  }

  /** A mark no older than the book claims. */
  predicate MarkOk(b: Book, m: SlotMark) {
    && m.lower <= m.upper
    && m.round <= b.round
    && (m.state.Priced? ==> b.freshSinceTs <= m.valuedTs)
    && (m.state.Priced? && m.round == b.round ==> b.roundMinTs <= m.valuedTs)
    && (!m.state.Final? ==> b.round != 0)
  }

  ghost predicate BookInv(b: Book, ms: seq<SlotMark>) {
    Agrees(b, ms) && forall m :: m in ms ==> MarkOk(b, m)
  }

  datatype Action =
    | OpenSlot(now: u64)
    | InvalidateSlot(i: nat)
    | RecordSlot(i: nat, lower: u64, upper: u64, valuedTs: u64, exact: bool, now: u64)
    | CloseSlot(i: nat, now: u64)

  datatype State = State(book: Book, marks: seq<SlotMark>)

  function Step(s: State, a: Action): Outcome<State> {
    match a
    case OpenSlot(now) => Ok(State(Open(s.book, now), s.marks + [NEW_MARK]))
    case InvalidateSlot(i) =>
      if i >= |s.marks| then InvalidState
      else
        var (b, m) := Invalidate(s.book, s.marks[i]);
        Ok(State(b, s.marks[i := m]))
    case RecordSlot(i, lower, upper, valuedTs, exact, now) =>
      if i >= |s.marks| then InvalidState
      else
        var (b, m, _) :- Record(s.book, s.marks[i], lower, upper, valuedTs, exact, now);
        Ok(State(b, s.marks[i := m]))
    case CloseSlot(i, now) =>
      if i >= |s.marks| then InvalidState
      else
        var b :- Close(s.book, s.marks[i], now);
        Ok(State(b, s.marks[..i] + s.marks[i + 1..]))
  }

  function Run(s: State, actions: seq<Action>): State {
    if actions == [] then s
    else
      var before := Run(s, actions[..|actions| - 1]);
      var r := Step(before, actions[|actions| - 1]);
      if r.Ok? then r.value else before
  }

  /** Replacing a slot's mark moves the counters and sums by the difference of the two marks. */
  lemma Replace(b: Book, ms: seq<SlotMark>, i: nat, m: SlotMark, b': Book)
    requires Agrees(b, ms) && i < |ms| && b'.round == b.round && b'.slots == b.slots
    requires b'.live - b.live == IsLive()(m) - IsLive()(ms[i])
    requires b'.unpriced - b.unpriced == IsUnpriced()(m) - IsUnpriced()(ms[i])
    requires b'.counted - b.counted == CountsIn(b.round)(m) - CountsIn(b.round)(ms[i])
    requires b'.sumLower - b.sumLower == m.lower - ms[i].lower && b'.sumUpper - b.sumUpper == m.upper - ms[i].upper
    ensures Agrees(b', ms[i := m])
  {
    SumUpdate(ms, i, m, IsLive());
    SumUpdate(ms, i, m, IsUnpriced());
    SumUpdate(ms, i, m, CountsIn(b.round));
    SumUpdate(ms, i, m, LowerOf());
    SumUpdate(ms, i, m, UpperOf());
  }

  lemma RemoveSum(ms: seq<SlotMark>, i: nat, f: SlotMark -> int)
    requires i < |ms|
    ensures Sum(ms[..i] + ms[i + 1..], f) == Sum(ms, f) - f(ms[i])
  {
    hide Sum;
    SumConcat(ms[..i], ms[i + 1..], f);
    SumSnoc(ms[..i], ms[i], f);
    SumConcat(ms[..i] + [ms[i]], ms[i + 1..], f);
    assert ms == (ms[..i] + [ms[i]]) + ms[i + 1..];
  }

  /** When every live slot counts, the oldest counted head bounds every live value and the round may turn. */
  lemma AdvanceKeeps(b: Book, ms: seq<SlotMark>, now: u64)
    requires BookInv(b, ms) && b.round < U64_MAX
    ensures BookInv(Advance(b, now), ms)
  {
    if b.live != 0 && b.counted == b.live {
      var b' := Advance(b, now);
      forall m | m in ms ensures MarkOk(b', m) && CountsIn(b'.round)(m) == 0 {
        AllCount(b, ms, m);
      }
      SumZero(ms, CountsIn(b'.round));
    }
  }

  /** If as many slots count as are live, every live slot is priced and counts. */
  lemma AllCount(b: Book, ms: seq<SlotMark>, m: SlotMark)
    requires Agrees(b, ms) && b.counted == b.live && m in ms
    ensures m.state.Final? || (m.state.Priced? && m.round == b.round)
  {
    var i :| 0 <= i < |ms| && ms[i] == m;
    if !m.state.Final? && !(m.state.Priced? && m.round == b.round) {
      RemoveSum(ms, i, IsLive());
      RemoveSum(ms, i, CountsIn(b.round));
      SumLe(ms[..i] + ms[i + 1..], CountsIn(b.round), IsLive());
    }
  }

  lemma OpenKeeps(b: Book, ms: seq<SlotMark>, now: u64)
    requires BookInv(b, ms) && b.round < U64_MAX
    ensures BookInv(Open(b, now), ms + [NEW_MARK])
  {
    var b' := Open(b, now);
    SumSnoc(ms, NEW_MARK, IsLive());
    SumSnoc(ms, NEW_MARK, IsUnpriced());
    SumSnoc(ms, NEW_MARK, CountsIn(b'.round));
    SumSnoc(ms, NEW_MARK, LowerOf());
    SumSnoc(ms, NEW_MARK, UpperOf());
    if b.live == 0 {
      forall m | m in ms ensures MarkOk(b', m) && CountsIn(b'.round)(m) == 0 {
        assert MarkOk(b, m);
      }
      SumZero(ms, CountsIn(b'.round));
    } else {
      NoLiveNoRound(b, ms);
    }
  }

  /** A live slot means a round is running. */
  lemma NoLiveNoRound(b: Book, ms: seq<SlotMark>)
    requires BookInv(b, ms) && b.live != 0
    ensures b.round != 0
  {
    if b.round == 0 {
      forall m | m in ms ensures IsLive()(m) == 0 {
        assert MarkOk(b, m);
      }
      SumZero(ms, IsLive());
    }
  }

  lemma InvalidateKeeps(b: Book, ms: seq<SlotMark>, i: nat)
    requires BookInv(b, ms) && i < |ms|
    ensures var (b', m') := Invalidate(b, ms[i]); BookInv(b', ms[i := m'])
  {
    var (b', m') := Invalidate(b, ms[i]);
    assert MarkOk(b, ms[i]);
    Replace(b, ms, i, m', b');
    MarksFrame(b, b', ms, i, m');
  }

  /** Marks other than the changed one stay within the book's claims. */
  lemma MarksFrame(b: Book, b': Book, ms: seq<SlotMark>, i: nat, m: SlotMark)
    requires (forall x :: x in ms ==> MarkOk(b, x)) && i < |ms| && MarkOk(b', m)
    requires b'.round == b.round && b'.freshSinceTs == b.freshSinceTs && b'.roundMinTs <= b.roundMinTs
    ensures forall x :: x in ms[i := m] ==> MarkOk(b', x)
  {
    forall x | x in ms[i := m] ensures MarkOk(b', x) {
      assert x == m || x in ms;
    }
  }

  lemma RecordKeeps(b: Book, ms: seq<SlotMark>, i: nat, lower: u64, upper: u64, valuedTs: u64, exact: bool, now: u64)
    requires BookInv(b, ms) && b.round < U64_MAX && i < |ms| && Record(b, ms[i], lower, upper, valuedTs, exact, now).Ok?
    ensures var (b', m', _) := Record(b, ms[i], lower, upper, valuedTs, exact, now).value; BookInv(b', ms[i := m'])
  {
    assert MarkOk(b, ms[i]);
    if !exact && valuedTs < b.freshSinceTs {
      InvalidateKeeps(b, ms, i);
    } else {
      var removed := Tally(b, ms[i], -1).value;
      var counts := !exact && valuedTs >= b.roundStartTs;
      var m' := SlotMark(if exact then Final else Priced, if counts then b.round else 0, lower, Max(upper, lower),
                         valuedTs);
      var added := Tally(removed.(roundMinTs := if counts then Min(b.roundMinTs, valuedTs) else b.roundMinTs), m',
                         1).value;
      assert exact || b.round != 0;
      Replace(b, ms, i, m', added);
      MarksFrame(b, added, ms, i, m');
      AdvanceKeeps(added, ms[i := m'], now);
    }
  }

  lemma CloseKeeps(b: Book, ms: seq<SlotMark>, i: nat, now: u64)
    requires BookInv(b, ms) && b.round < U64_MAX && i < |ms| && Close(b, ms[i], now).Ok?
    ensures BookInv(Close(b, ms[i], now).value, ms[..i] + ms[i + 1..])
  {
    var left := ms[..i] + ms[i + 1..];
    RemoveSum(ms, i, IsLive());
    RemoveSum(ms, i, IsUnpriced());
    RemoveSum(ms, i, CountsIn(b.round));
    RemoveSum(ms, i, LowerOf());
    RemoveSum(ms, i, UpperOf());
    var removed := Tally(b, ms[i], -1).value.(slots := b.slots - 1);
    forall m | m in left ensures MarkOk(removed, m) {
      assert m in ms;
    }
    AdvanceKeeps(removed, left, now);
  }

  // ---- Main results -------------------------------------------------------------------------

  lemma StepKeeps(s: State, a: Action)
    requires BookInv(s.book, s.marks) && s.book.round < U64_MAX && Step(s, a).Ok?
    ensures BookInv(Step(s, a).value.book, Step(s, a).value.marks)
    ensures Step(s, a).value.book.round <= s.book.round + 1
  {
    match a
    case OpenSlot(now) => OpenKeeps(s.book, s.marks, now);
    case InvalidateSlot(i) => InvalidateKeeps(s.book, s.marks, i);
    case RecordSlot(i, lower, upper, valuedTs, exact, now) => RecordKeeps(s.book, s.marks, i, lower, upper, valuedTs,
        exact, now);
    case CloseSlot(i, now) => CloseKeeps(s.book, s.marks, i, now);
  }

  /** After every run the book agrees with the full list of marks and every mark is as fresh as it claims. */
  lemma {:induction false} EveryRunAgrees(actions: seq<Action>)
    requires |actions| < U64_MAX
    ensures var s := Run(State(EMPTY_BOOK, []), actions);
            BookInv(s.book, s.marks) && s.book.round <= |actions|
  {
    if actions != [] {
      var front := actions[..|actions| - 1];
      EveryRunAgrees(front);
      var before := Run(State(EMPTY_BOOK, []), front);
      if Step(before, actions[|actions| - 1]).Ok? {
        StepKeeps(before, actions[|actions| - 1]);
      }
    }
  }

  /** A usable aggregate: every live slot is priced, no value is older than `maxAge`, and the sums are exact. */
  lemma UsableIsFresh(actions: seq<Action>, now: u64, maxAge: u64)
    requires |actions| < U64_MAX && Usable(Run(State(EMPTY_BOOK, []), actions).book, now, maxAge).Ok?
    ensures var s := Run(State(EMPTY_BOOK, []), actions);
            var (lower, upper) := Usable(s.book, now, maxAge).value;
            && (forall m :: m in s.marks && !m.state.Final? ==> m.state.Priced? && now - m.valuedTs <= maxAge)
            && lower == Sum(s.marks, LowerOf()) && upper == Sum(s.marks, UpperOf()) && lower <= upper
  {
    EveryRunAgrees(actions);
    var s := Run(State(EMPTY_BOOK, []), actions);
    forall m | m in s.marks && !m.state.Final? ensures m.state.Priced? && now - m.valuedTs <= maxAge {
      assert MarkOk(s.book, m);
      var i :| 0 <= i < |s.marks| && s.marks[i] == m;
      SumHas(s.marks, i, IsUnpriced());
      SumHas(s.marks, i, IsLive());
    }
    SumLe(s.marks, LowerOf(), UpperOf());
  }

  /** Removing a recorded slot never fails; a valuation is refused only when final, or when a sum leaves u64. */
  lemma RecordFailsOnlyByOverflow(actions: seq<Action>, i: nat, lower: u64, upper: u64, valuedTs: u64, exact: bool,
                                  now: u64)
    requires |actions| < U64_MAX && i < |Run(State(EMPTY_BOOK, []), actions).marks|
    ensures var s := Run(State(EMPTY_BOOK, []), actions);
            var m := s.marks[i];
            && Close(s.book, m, now).Ok?
            && (Record(s.book, m, lower, upper, valuedTs, exact, now).InvalidState? <==>
                  || (m.state.Final? && !exact)
                  || ((exact || valuedTs >= s.book.freshSinceTs)
                      && Sum(s.marks, UpperOf()) - m.upper + Max(upper, lower) > U64_MAX))
  {
    EveryRunAgrees(actions);
    var s := Run(State(EMPTY_BOOK, []), actions);
    var m := s.marks[i];
    SumHas(s.marks, i, LowerOf());
    SumHas(s.marks, i, UpperOf());
    SumLe(s.marks, LowerOf(), UpperOf());
    RemoveSum(s.marks, i, LowerOf());
    RemoveSum(s.marks, i, UpperOf());
    var left := s.marks[..i] + s.marks[i + 1..];
    forall x | x in left ensures LowerOf()(x) <= UpperOf()(x) {
      assert x in s.marks;
      assert MarkOk(s.book, x);
    }
    SumLe(left, LowerOf(), UpperOf());
  }

  /** The aggregate as the program's mutable object. */
  class SlotBookObject {
    var slots: int
    var live: int
    var unpriced: int
    var counted: int
    var sumLower: u64
    var sumUpper: u64
    var round: u64
    var roundStartTs: u64
    var roundMinTs: u64
    var freshSinceTs: u64

    constructor ()
      ensures View() == EMPTY_BOOK
    {
      slots, live, unpriced, counted, sumLower, sumUpper := 0, 0, 0, 0, 0, 0;
      round, roundStartTs, roundMinTs, freshSinceTs := 0, 0, 0, 0;
    }

    function View(): Book
      reads this
    {
      Book(slots, live, unpriced, counted, sumLower, sumUpper, round, roundStartTs, roundMinTs, freshSinceTs)
    }

    /** On failure the object may be half updated: every caller aborts its transaction. */
    method TallyMark(m: SlotMark, add: bool) returns (ok: bool)
      modifies this
      ensures ok == Tally(old(View()), m, if add then 1 else -1).Ok?
      ensures ok ==> View() == Tally(old(View()), m, if add then 1 else -1).value
    {
      var lower := if add then sumLower + m.lower else sumLower - m.lower;
      if !(0 <= lower <= U64_MAX) { return false; }
      sumLower := lower;
      var upper := if add then sumUpper + m.upper else sumUpper - m.upper;
      if !(0 <= upper <= U64_MAX) { return false; }
      sumUpper := upper;
      var step := if add then 1 else -1;
      if !m.state.Final? {
        live := live + step;
        if m.state.Unpriced? {
          unpriced := unpriced + step;
        } else if m.round == round {
          counted := counted + step;
        }
      }
      return true;
    }

    method BeginRound(now: u64)
      modifies this
      ensures View() == StartRound(old(View()), now)
    {
      round, roundStartTs, roundMinTs, counted := Min(round + 1, U64_MAX), now, U64_MAX, 0;
    }

    method AdvanceRound(now: u64)
      modifies this
      ensures View() == Advance(old(View()), now)
    {
      if live != 0 && counted == live {
        freshSinceTs := roundMinTs;
        BeginRound(now);
      }
    }

    method OpenSlot(now: u64) returns (m: SlotMark)
      modifies this
      ensures View() == Open(old(View()), now) && m == NEW_MARK
    {
      if live == 0 { BeginRound(now); }
      slots, live, unpriced := slots + 1, live + 1, unpriced + 1;
      return NEW_MARK;
    }

    method InvalidateMark(m: SlotMark) returns (m': SlotMark)
      modifies this
      ensures (View(), m') == Invalidate(old(View()), m)
    {
      m' := m;
      if m.state.Priced? {
        m' := m'.(state := Unpriced);
        unpriced := unpriced + 1;
        if m.round == round { counted := counted - 1; }
      }
      m' := m'.(round := 0);
    }

    method RecordMark(m: SlotMark, lower: u64, upper: u64, valuedTs: u64, exact: bool, now: u64)
        returns (r: Outcome<bool>, m': SlotMark)
      modifies this
      ensures r.Ok? == Record(old(View()), m, lower, upper, valuedTs, exact, now).Ok?
      ensures r.Ok? ==> (View(), m', r.value) == Record(old(View()), m, lower, upper, valuedTs, exact, now).value
    {
      if m.state.Final? && !exact { return InvalidState, m; }
      if !exact && valuedTs < freshSinceTs {
        m' := InvalidateMark(m);
        return Ok(false), m';
      }
      var removed := TallyMark(m, false);
      if !removed { return InvalidState, m; }
      var counts := !exact && valuedTs >= roundStartTs;
      m' := SlotMark(if exact then Final else Priced, if counts then round else 0, lower, Max(upper, lower), valuedTs);
      if counts { roundMinTs := Min(roundMinTs, valuedTs); }
      var added := TallyMark(m', true);
      if !added { return InvalidState, m'; }
      AdvanceRound(now);
      return Ok(true), m';
    }

    method CloseSlot(m: SlotMark, now: u64) returns (ok: bool)
      modifies this
      ensures ok == Close(old(View()), m, now).Ok?
      ensures ok ==> View() == Close(old(View()), m, now).value
    {
      ok := TallyMark(m, false);
      if !ok || slots < 1 { return false; }
      slots := slots - 1;
      AdvanceRound(now);
    }
  }
}
