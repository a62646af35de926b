/** The exact reserve: worst-case liability of a book over every settlement price, and over its two tails. */
module WriterReserve {
  import opened Numbers
  import opened Sums
  import opened WriterSeries
  import opened WriterCandidates

  datatype ReserveSummary = ReserveSummary(
    reserve: int, reserveAt: int, lowerReserve: int, lowerAt: int, upperReserve: int, upperAt: int, candidateCount: int)

  function LiabilityOf(book: seq<Series>): u64 -> int { (x: u64) => Liability(book, x) }

  function AtMost(bound: u64): u64 -> bool { (x: u64) => x <= bound }

  function AtLeast(bound: u64): u64 -> bool { (x: u64) => x >= bound }

  /** The earliest point with the largest value. */
  function FirstMax(cs: seq<u64>, f: u64 -> int): u64 {
    if cs == [] then 0
    else if |cs| == 1 then cs[0]
    else
      var m := FirstMax(cs[..|cs| - 1], f);
      if f(cs[|cs| - 1]) > f(m) then cs[|cs| - 1] else m
  }

  lemma {:induction false} FirstMaxFacts(cs: seq<u64>, f: u64 -> int)
    requires cs != []
    ensures FirstMax(cs, f) in cs
    ensures forall c :: c in cs ==> f(c) <= f(FirstMax(cs, f))
  {
    if |cs| > 1 {
      var n := |cs| - 1;
      FirstMaxFacts(cs[..n], f);
      assert cs == cs[..n] + [cs[n]];
    }
  }

  /** Maximum and earliest witness over all candidates and over each inclusive tail. */
  function SummaryOf(cs: seq<u64>, f: u64 -> int, lower: u64, upper: u64): ReserveSummary {
    var (m, l, u) := (FirstMax(cs, f), FirstMax(Filter(cs, AtMost(lower)), f), FirstMax(Filter(cs, AtLeast(upper)), f));
    ReserveSummary(f(m), m, f(l), l, f(u), u, |cs|)
  }

  predicate Overflows(cs: seq<u64>, book: seq<Series>) {
    exists c :: c in cs && Liability(book, c) > U64_MAX
  }

  /** Full-book and tail reserves with their earliest worst candidates (`exact_reserve`). */
  function ExactReserve(book: seq<Series>, lower: u64, upper: u64): Result<ReserveSummary> {
    var cs :- CandidateSet(book, lower, upper);
    if Overflows(cs, book) then Err(ArithmeticOverflow) else Ok(SummaryOf(cs, LiabilityOf(book), lower, upper))
  }

  lemma ValidBookFacts(book: seq<Series>, lower: u64, upper: u64)
    requires ValidateBook(book).Ok?
    ensures AllValid(book) && Holds(Candidates(book, lower, upper), book)
    ensures lower in Candidates(book, lower, upper) && upper in Candidates(book, lower, upper)
  {
    CandidatesFacts(book, lower, upper);
  }

  /** The value at any price is at most the value at a candidate of the same tail. */
  lemma LiabilityBounded(book: seq<Series>, lower: u64, upper: u64, x: u64) returns (c: u64)
    requires ValidateBook(book).Ok?
    ensures c in Candidates(book, lower, upper) && Liability(book, x) <= Liability(book, c)
    ensures x <= lower ==> c <= lower
    ensures x >= upper ==> c >= upper
  {
    ValidBookFacts(book, lower, upper);
    c := CandidateBounds(Candidates(book, lower, upper), book, OpenInterests(book), x, lower, upper);
    CeilMono(Numerator(book, x), Numerator(book, c), SCALE);
  }

  lemma TailsNonEmpty(cs: seq<u64>, lower: u64, upper: u64)
    requires lower in cs && upper in cs
    ensures Filter(cs, AtMost(lower)) != [] && Filter(cs, AtLeast(upper)) != []
  {
    FilterMembers(cs, AtMost(lower));
    FilterMembers(cs, AtLeast(upper));
  }

  /**
   * The three reserves bound the rounded liability at every u64 price of their range, and each is attained
   * there: none is too small and none is larger than needed.
   */
  lemma ReserveIsExact(book: seq<Series>, lower: u64, upper: u64, x: u64)
    requires ExactReserve(book, lower, upper).Ok?
    ensures var s := ExactReserve(book, lower, upper).value;
            && Liability(book, x) <= s.reserve
            && (x <= lower ==> Liability(book, x) <= s.lowerReserve)
            && (x >= upper ==> Liability(book, x) <= s.upperReserve)
            && s.reserve == Liability(book, s.reserveAt) && 0 <= s.reserveAt <= U64_MAX && 0 <= s.reserve <= U64_MAX
            && s.lowerReserve == Liability(book, s.lowerAt) && 0 <= s.lowerAt <= lower
               && 0 <= s.lowerReserve <= s.reserve
            && s.upperReserve == Liability(book, s.upperAt) && upper <= s.upperAt <= U64_MAX
               && 0 <= s.upperReserve <= s.reserve
  {
    var cs := Candidates(book, lower, upper);
    var f := LiabilityOf(book);
    var (lows, highs) := (Filter(cs, AtMost(lower)), Filter(cs, AtLeast(upper)));
    ValidBookFacts(book, lower, upper);
    TailsNonEmpty(cs, lower, upper);
    FilterMembers(cs, AtMost(lower));
    FilterMembers(cs, AtLeast(upper));
    FirstMaxFacts(cs, f);
    FirstMaxFacts(lows, f);
    FirstMaxFacts(highs, f);
    var c := LiabilityBounded(book, lower, upper, x);
    assert f(c) <= f(FirstMax(cs, f));
    LiabilityNonNegative(book, FirstMax(lows, f));
    LiabilityNonNegative(book, FirstMax(highs, f));
  }

  /** No point before the first maximum of an increasing sequence reaches its value. */
  lemma {:induction false} FirstMaxEarliest(cs: seq<u64>, f: u64 -> int, c: u64)
    requires Rising(cs) && c in cs && c < FirstMax(cs, f)
    ensures f(c) < f(FirstMax(cs, f))
  {
    var n := |cs| - 1;
    if n > 0 {
      FirstMaxFacts(cs[..n], f);
      assert cs == cs[..n] + [cs[n]];
      if c in cs[..n] && f(cs[n]) <= f(FirstMax(cs[..n], f)) { FirstMaxEarliest(cs[..n], f, c); }
    }
  }

  lemma {:induction false} FilterRising(cs: seq<u64>, keep: u64 -> bool)
    requires Rising(cs)
    ensures Rising(Filter(cs, keep))
  {
    if cs != [] {
      var n := |cs| - 1;
      FilterRising(cs[..n], keep);
      FilterMembers(cs[..n], keep);
      var kept := Filter(cs[..n], keep);
      forall i | 0 <= i < |kept| ensures kept[i] < cs[n] {
        assert kept[i] in cs[..n];
        var k :| 0 <= k < n && cs[k] == kept[i];
      }
    }
  }

  /** The three witnesses are the earliest candidates of their ranges that reach the reserve. */
  lemma WitnessIsEarliest(book: seq<Series>, lower: u64, upper: u64, c: u64)
    requires ExactReserve(book, lower, upper).Ok? && c in Candidates(book, lower, upper)
    ensures var s := ExactReserve(book, lower, upper).value;
            && s.candidateCount == |Candidates(book, lower, upper)|
            && (c < s.reserveAt ==> Liability(book, c) < s.reserve)
            && (c <= lower && c < s.lowerAt ==> Liability(book, c) < s.lowerReserve)
            && (upper <= c < s.upperAt ==> Liability(book, c) < s.upperReserve)
  {
    var (cs, f) := (Candidates(book, lower, upper), LiabilityOf(book));
    CandidatesFacts(book, lower, upper);
    FilterMembers(cs, AtMost(lower));
    FilterMembers(cs, AtLeast(upper));
    FilterRising(cs, AtMost(lower));
    FilterRising(cs, AtLeast(upper));
    hide FirstMax, Filter, Liability, Candidates;
    var s := ExactReserve(book, lower, upper).value;
    if c < s.reserveAt { FirstMaxEarliest(cs, f, c); }
    if c <= lower && c < s.lowerAt { FirstMaxEarliest(Filter(cs, AtMost(lower)), f, c); }
    if upper <= c < s.upperAt { FirstMaxEarliest(Filter(cs, AtLeast(upper)), f, c); }
  }

  /** A valid book fails only when its liability leaves u64 at some settlement price. */
  lemma ReserveFailsOnlyByOverflow(book: seq<Series>, lower: u64, upper: u64)
    requires ValidateBook(book).Ok? && lower < upper
    ensures ExactReserve(book, lower, upper).Err? <==> exists x: u64 :: Liability(book, x) > U64_MAX
    ensures ExactReserve(book, lower, upper).Err? ==> ExactReserve(book, lower, upper).error == ArithmeticOverflow
  {
    if x: u64 :| Liability(book, x) > U64_MAX {
      var c := LiabilityBounded(book, lower, upper, x);
      assert Overflows(Candidates(book, lower, upper), book);
    }
  }

  // ---- The program's walk -----------------------------------------------------------------------

  lemma {:induction false} FirstMaxSnoc(cs: seq<u64>, c: u64, f: u64 -> int)
    ensures FirstMax(cs + [c], f) == if cs == [] || f(c) > f(FirstMax(cs, f)) then c else FirstMax(cs, f)
  {
    assert (cs + [c])[..|cs|] == cs;
  }

  /** A tail maximum while it is being collected. */
  datatype Tail = Tail(saw: bool, reserve: int, at: int)

  predicate TailOf(t: Tail, cs: seq<u64>, f: u64 -> int) {
    t.saw == (cs != []) && (t.saw ==> t.at == FirstMax(cs, f) && t.reserve == f(FirstMax(cs, f)))
  }

  /** One candidate of a tail. */
  function Collect(t: Tail, inside: bool, c: u64, liability: int): Tail {
    if inside && (!t.saw || liability > t.reserve) then Tail(true, liability, c) else t
  }

  lemma CollectStep(t: Tail, cs: seq<u64>, keep: u64 -> bool, f: u64 -> int, c: u64)
    requires TailOf(t, Filter(cs, keep), f)
    ensures TailOf(Collect(t, keep(c), c, f(c)), Filter(cs + [c], keep), f)
  {
    FilterSnoc(cs, c, keep);
    FirstMaxSnoc(Filter(cs, keep), c, f);
  }

  /** The running full-book maximum, from zero at price zero. */
  predicate RunningMax(reserve: int, at: int, cs: seq<u64>, f: u64 -> int) {
    if cs == [] then reserve == 0 && at == 0 else at == FirstMax(cs, f) && reserve == f(FirstMax(cs, f))
  }

  lemma RunningStep(reserve: int, at: int, cs: seq<u64>, f: u64 -> int, c: u64)
    requires RunningMax(reserve, at, cs, f) && f(c) >= 0 && (cs == [] ==> c == 0)
    ensures if f(c) > reserve then RunningMax(f(c), c, cs + [c], f) else RunningMax(reserve, at, cs + [c], f)
  {
    FirstMaxSnoc(cs, c, f);
  }

  /** One pass over the candidates: the full maximum and both tail maxima, or the first overflow. */
  method WalkCandidates(book: seq<Series>, cs: seq<u64>, lower: u64, upper: u64) returns (r: Result<ReserveSummary>)
    requires AllValid(book) && cs != [] && cs[0] == 0 && lower in cs && upper in cs
    ensures r == if Overflows(cs, book) then Err(ArithmeticOverflow)
            else Ok(SummaryOf(cs, LiabilityOf(book), lower, upper))
  {
    ghost var f := LiabilityOf(book);
    var reserve, reserveAt := 0, 0;
    var low, high := Tail(false, 0, 0), Tail(false, 0, 0);
    for i := 0 to |cs|
      invariant forall j :: 0 <= j < i ==> Liability(book, cs[j]) <= U64_MAX
      invariant RunningMax(reserve, reserveAt, cs[..i], f)
      invariant TailOf(low, Filter(cs[..i], AtMost(lower)), f)
      invariant TailOf(high, Filter(cs[..i], AtLeast(upper)), f)
    {
      hide Liability, TailOf, RunningMax;
      var c := cs[i];
      var liability := LiabilityAt(book, c);
      if liability.Err? {
        assert c in cs;
        return Err(ArithmeticOverflow);
      }
      assert cs[..i + 1] == cs[..i] + [c];
      RunningStep(reserve, reserveAt, cs[..i], f, c);
      CollectStep(low, cs[..i], AtMost(lower), f, c);
      CollectStep(high, cs[..i], AtLeast(upper), f, c);
      if liability.value > reserve {
        reserve, reserveAt := liability.value, c;
      }
      low := Collect(low, c <= lower, c, liability.value);
      high := Collect(high, c >= upper, c, liability.value);
    }
    hide Liability;
    assert cs[..|cs|] == cs;
    TailsNonEmpty(cs, lower, upper);
    return Ok(ReserveSummary(reserve, reserveAt, low.reserve, low.at, high.reserve, high.at, |cs|));
  }

  /** The program's reserve computation is exactly the summary of the model. */
  method ReserveWalk(book: seq<Series>, lower: u64, upper: u64) returns (r: Result<ReserveSummary>)
    ensures r == ExactReserve(book, lower, upper)
  {
    var built := BuildCandidates(book, lower, upper);
    if built.Err? { return Err(built.error); }
    ValidBookFacts(book, lower, upper);
    RisingFirst(built.value);
    r := WalkCandidates(book, built.value, lower, upper);
  }

  /** The checked liability of the whole book at one price. */
  method LiabilityAt(book: seq<Series>, x: u64) returns (r: Result<u64>)
    requires AllValid(book)
    ensures r == if Liability(book, x) <= U64_MAX then Ok(Liability(book, x)) else Err(ArithmeticOverflow)
    ensures Liability(book, x) >= 0
  {
    LiabilityNonNegative(book, x);
    var n := NumeratorAt(book, x);
    if n.Err? {
      CeilMono(U128_MAX, Numerator(book, x), SCALE);
      return Err(ArithmeticOverflow);
    }
    return LiabilityAtoms(n.value);
  }

  /**
   * `aggregate_liability`: an invalid book is refused with the validation error, a valid one only when it overflows.
   */
  method AggregateLiability(book: seq<Series>, x: u64) returns (r: Result<u64>)
    ensures ValidateBook(book).Err? ==> r == Err(ValidateBook(book).error)
    ensures ValidateBook(book).Ok? ==>
              && Liability(book, x) >= 0
              && r == if Liability(book, x) <= U64_MAX then Ok(Liability(book, x)) else Err(ArithmeticOverflow)
  {
    var valid := CheckBook(book);
    if valid.Err? { return Err(valid.error); }
    r := LiabilityAt(book, x);
  }
}
