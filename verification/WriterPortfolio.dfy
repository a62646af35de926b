/** Owner portfolios: signed payoffs, the reserve against every price, and the state machine that stays payable. */
module WriterPortfolio {
  import opened Numbers
  import opened WriterSeries
  import opened WriterCandidates
  import opened WriterReserve

  const PORTFOLIO_SERIES: nat := 20

  /** Twenty quantities, one per series slot. */
  type Quantities = q: seq<u64> | |q| == PORTFOLIO_SERIES witness NONE

  const NONE: seq<u64> := [0, 0, 0, 0, 0, 0, 0, 0, 0, 0, 0, 0, 0, 0, 0, 0, 0, 0, 0, 0]

  // ---- Signed rounding -------------------------------------------------------------------------

  /** Division truncating toward zero. */
  function TruncDiv(n: int, d: int): int
    requires d > 0
  {
    if n >= 0 then n / d else -((-n) / d)
  }

  function TruncRem(n: int, d: int): int
    requires d > 0
  {
    n - TruncDiv(n, d) * d
  }

  /** `signed_liability_ceil`: the program's truncating formula. */
  function SignedCeil(n: int): int {
    TruncDiv(n, SCALE) + if TruncRem(n, SCALE) > 0 then 1 else 0
  }

  /** Truncation plus one for a positive remainder is the mathematical ceiling, also below zero. */
  lemma SignedCeilIsCeil(n: int)
    ensures SignedCeil(n) == CeilDiv(n, SCALE)
  {
    if n < 0 {
      FloorBounds(-n, SCALE);
      var t := (-n) / SCALE;
      CeilLeast(n, SCALE, -t);
      CeilBounds(n, SCALE);
      var c := CeilDiv(n, SCALE);
      FloorGreatest(-n, SCALE, -c);
    }
  }

  // ---- Signed payoff -----------------------------------------------------------------------------

  function ValidateQuantities(book: seq<Series>, short: Quantities, long: Quantities): Result<()> {
    if book == [] then Err(EmptySeriesBook)
    else if |book| > MAX_SERIES || |book| > PORTFOLIO_SERIES then Err(TooManySeries)
    else if exists i :: |book| <= i < PORTFOLIO_SERIES && (short[i] != 0 || long[i] != 0) then Err(InvalidSeries)
    else Ok(())
  }

  /** Net short contracts of each series of the book. */
  function Net(book: seq<Series>, short: Quantities, long: Quantities): (w: seq<int>)
    requires |book| <= PORTFOLIO_SERIES
    ensures |w| == |book| && forall i :: 0 <= i < |book| ==> w[i] == Minus(short[i], long[i])
  {
    seq(|book|, i requires 0 <= i < |book| => Minus(short[i], long[i]))
  }

  /** The checked fold over the series (`numerator_at`): every product and partial sum must fit i128. */
  function CheckedSum(book: seq<Series>, w: seq<int>, x: int): Result<int>
    requires |w| == |book|
  {
    if book == [] then Ok(0)
    else
      var n := |book| - 1;
      var sum :- CheckedSum(book[..n], w[..n], x);
      var term := w[n] * Payout(book[n], x);
      if !(I128_MIN <= term <= I128_MAX)
          || !(I128_MIN <= sum + term <= I128_MAX) then Err(ArithmeticOverflow) else Ok(sum + term)
  }

  lemma {:induction false} CheckedIsWeighted(book: seq<Series>, w: seq<int>, x: int)
    requires |w| == |book|
    ensures CheckedSum(book, w, x).Ok? ==> CheckedSum(book, w, x).value == Weighted(book, w, x)
    ensures CheckedSum(book, w, x).Err? ==> CheckedSum(book, w, x).error == ArithmeticOverflow
  {
    if book != [] {
      CheckedIsWeighted(book[..|book| - 1], w[..|book| - 1], x);
    }
  }

  /** The signed liability of a portfolio at a price, rounded up. */
  function SignedLiability(book: seq<Series>, short: Quantities, long: Quantities, x: int): int
    requires |book| <= PORTFOLIO_SERIES
  {
    CeilDiv(Weighted(book, Net(book, short, long), x), SCALE)
  }

  /** `portfolio_liability_numerator`. */
  function PortfolioNumerator(book: seq<Series>, short: Quantities, long: Quantities, price: u64): Result<int> {
    var _ :- ValidateQuantities(book, short, long);
    var _ :- CandidateSet(book, 0, U64_MAX);
    CheckedSum(book, Net(book, short, long), price)
  }

  function RoundedAt(book: seq<Series>, w: seq<int>): u64 -> int
    requires |w| == |book|
  {
    (x: u64) => CeilDiv(Weighted(book, w, x), SCALE)
  }

  predicate SomeOverflow(book: seq<Series>, w: seq<int>, cs: seq<u64>)
    requires |w| == |book|
  {
    exists c :: c in cs && CheckedSum(book, w, c).Err?
  }

  /** Exact minimum cash against every settlement price (`portfolio_reserve`). */
  function PortfolioReserve(book: seq<Series>, committed: Quantities, locked: Quantities): Result<u64> {
    var _ :- ValidateQuantities(book, committed, locked);
    var cs :- CandidateSet(book, 0, U64_MAX);
    var w := Net(book, committed, locked);
    if SomeOverflow(book, w, cs) then Err(ArithmeticOverflow)
    else
      var m := Best(cs, RoundedAt(book, w));
      if m <= U64_MAX then Ok(m) else Err(ArithmeticOverflow)
  }

  /** The largest value, never below zero. */
  function Best(cs: seq<u64>, f: u64 -> int): (m: int)
    ensures m >= 0
  {
    if cs == [] then 0 else Max(0, f(FirstMax(cs, f)))
  }

  lemma BestSnoc(cs: seq<u64>, c: u64, f: u64 -> int)
    ensures Best(cs + [c], f) == Max(Best(cs, f), f(c))
  {
    FirstMaxSnoc(cs, c, f);
  }

  /** The loop over the candidates computes that reserve. */
  method ReserveLoop(book: seq<Series>, committed: Quantities, locked: Quantities) returns (r: Result<u64>)
    ensures r == PortfolioReserve(book, committed, locked)
  {
    var valid := ValidateQuantities(book, committed, locked);
    if valid.Err? { return Err(valid.error); }
    var cs := BuildCandidates(book, 0, U64_MAX);
    if cs.Err? { return Err(cs.error); }
    var w := Net(book, committed, locked);
    CandidatesFacts(book, 0, U64_MAX);
    r := MaxLoop(book, w, cs.value);
  }

  method MaxLoop(book: seq<Series>, w: seq<int>, cs: seq<u64>) returns (r: Result<u64>)
    requires |w| == |book| && cs != []
    ensures r == if SomeOverflow(book, w, cs) || Best(cs, RoundedAt(book, w)) > U64_MAX then Err(ArithmeticOverflow)
                 else Ok(Best(cs, RoundedAt(book, w)))
  {
    ghost var f := RoundedAt(book, w);
    var reserve: int := 0;
    for i := 0 to |cs|
      invariant reserve == Best(cs[..i], f)
      invariant forall j :: 0 <= j < i ==> CheckedSum(book, w, cs[j]).Ok?
    {
      hide CheckedSum, Weighted, CeilDiv, Best;
      var n := CheckedSum(book, w, cs[i]);
      CheckedIsWeighted(book, w, cs[i]);
      if n.Err? {
        assert cs[i] in cs;
        return Err(ArithmeticOverflow);
      }
      assert cs[..i + 1] == cs[..i] + [cs[i]];
      BestSnoc(cs[..i], cs[i], f);
      SignedCeilIsCeil(n.value);
      reserve := Max(reserve, SignedCeil(n.value));
    }
    assert cs[..|cs|] == cs;
    if reserve > U64_MAX { return Err(ArithmeticOverflow); }
    return Ok(reserve);
  }

  // ---- The reserve covers every price ------------------------------------------------------------

  /** The reserve bounds the signed rounded liability at every u64 settlement price. */
  lemma ReserveCovers(book: seq<Series>, committed: Quantities, locked: Quantities, x: u64)
    requires PortfolioReserve(book, committed, locked).Ok?
    ensures SignedLiability(book, committed, locked, x) <= PortfolioReserve(book, committed, locked).value
  {
    var cs := Candidates(book, 0, U64_MAX);
    var w := Net(book, committed, locked);
    var f := RoundedAt(book, w);
    ValidBookFacts(book, 0, U64_MAX);
    var c := CandidateBounds(cs, book, w, x, 0, U64_MAX);
    CeilMono(Weighted(book, w, x), Weighted(book, w, c), SCALE);
    FirstMaxFacts(cs, f);
    assert f(c) <= f(FirstMax(cs, f));
  }

  /** The reserve is the exact minimum: it is zero, or the liability at some u64 price is exactly that much. */
  lemma ReserveAttained(book: seq<Series>, committed: Quantities, locked: Quantities) returns (x: u64)
    requires PortfolioReserve(book, committed, locked).Ok?
    ensures PortfolioReserve(book, committed, locked).value
         == Max(0, SignedLiability(book, committed, locked, x))
  {
    hide Candidates, ValidateQuantities, SomeOverflow, SignedLiability, FirstMax, Net;
    ValidBookFacts(book, 0, U64_MAX);
    CandidatesFacts(book, 0, U64_MAX);
    x := FirstMax(Candidates(book, 0, U64_MAX), RoundedAt(book, Net(book, committed, locked)));
    SignedIs(book, committed, locked, x);
    hide RoundedAt;
  }

  /** Any cash that covers every settlement price is at least the reserve. */
  lemma ReserveIsLeast(book: seq<Series>, committed: Quantities, locked: Quantities, cash: nat)
    requires PortfolioReserve(book, committed, locked).Ok?
    ensures PortfolioReserve(book, committed, locked).value <= cash
       <==> forall x: u64 :: SignedLiability(book, committed, locked, x) <= cash
  {
    var at := ReserveAttained(book, committed, locked);
    hide PortfolioReserve, SignedLiability;
    forall x: u64 ensures SignedLiability(book, committed, locked, x)
        <= PortfolioReserve(book, committed, locked).value {
      ReserveCovers(book, committed, locked, x);
    }
  }

  /** Fewer net shorts never pay more. */
  lemma {:induction false} WeightedMonotone(book: seq<Series>, w: seq<int>, v: seq<int>, x: int)
    requires |w| == |book| == |v| && AllValid(book) && forall i :: 0 <= i < |w| ==> w[i] <= v[i]
    ensures Weighted(book, w, x) <= Weighted(book, v, x)
  {
    if book != [] {
      var n := |book| - 1;
      WeightedMonotone(book[..n], w[..n], v[..n], x);
      PayoutRange(book[n], x);
      MulMono(w[n], v[n], Payout(book[n], x));
    }
  }

  predicate AtMostEach(a: Quantities, b: Quantities) {
    forall i :: 0 <= i < PORTFOLIO_SERIES ==> a[i] <= b[i]
  }

  lemma LiabilityMonotone(book: seq<Series>, short: Quantities, long: Quantities, short': Quantities, long': Quantities,
                          x: int)
    requires AllValid(book) && |book| <= PORTFOLIO_SERIES && AtMostEach(short', short) && AtMostEach(long, long')
    ensures SignedLiability(book, short', long', x) <= SignedLiability(book, short, long, x)
  {
    var (w, v) := (Net(book, short', long'), Net(book, short, long));
    WeightedMonotone(book, w, v, x);
    CeilMono(Weighted(book, w, x), Weighted(book, v, x), SCALE);
  }

  lemma SignedIs(book: seq<Series>, short: Quantities, long: Quantities, x: u64)
    requires |book| <= PORTFOLIO_SERIES
    ensures SignedLiability(book, short, long, x) == RoundedAt(book, Net(book, short, long))(x)
  {}

  /** Cancelling shorts or locking longs never raises the reserve. */
  lemma ReserveMonotone(book: seq<Series>, short: Quantities, long: Quantities, short': Quantities, long': Quantities)
    requires AtMostEach(short', short) && AtMostEach(long, long')
    requires PortfolioReserve(book, short, long).Ok? && PortfolioReserve(book, short', long').Ok?
    ensures PortfolioReserve(book, short', long').value <= PortfolioReserve(book, short, long).value
  {
    hide Candidates, ValidateQuantities, SomeOverflow, SignedLiability, AtMostEach;
    var cs := Candidates(book, 0, U64_MAX);
    var f := RoundedAt(book, Net(book, short', long'));
    ValidBookFacts(book, 0, U64_MAX);
    CandidatesFacts(book, 0, U64_MAX);
    FirstMaxFacts(cs, f);
    var x := FirstMax(cs, f);
    LiabilityMonotone(book, short, long, short', long', x);
    ReserveCovers(book, short, long, x);
    SignedIs(book, short', long', x);
  }
}
