/** Capped calls and puts: validation, exact payouts, and the piecewise-affine liability of a book. */
module WriterSeries {
  import opened Numbers

  const SCALE: u64 := 1_000_000
  const MAX_SERIES: nat := 20
  const MAX_CANDIDATE_POINTS: nat := 128
  const RATIO_SCALE_PPM: u64 := 1_000_000

  datatype WriterError =
    | ArithmeticOverflow | EmptySeriesBook | TooManySeries | TooManyCandidatePoints | InvalidSeries
    | InvalidTailBoundaries | InvalidRiskLimit | InvalidClaimAmount | Insolvent

  datatype Result<+T> = Ok(value: T) | Err(error: WriterError) {
    predicate IsFailure() { Err? }
    function PropagateFailure<U>(): Result<U>
      requires Err?
    {
      Err(error)
    }
    function Extract(): T
      requires Ok?
    {
      value
    }
  }

  datatype OptionKind = CallSpread | PutSpread

  /** `cap` is the call's cap or the put's floor. */
  datatype Series = Series(kind: OptionKind, strike: u64, cap: u64, contractSize: u64, maxPayout: u64, oi: u64)

  predicate SameInstrument(a: Series, b: Series) {
    a.(oi := 0) == b.(oi := 0)
  }

  predicate ValidSeries(s: Series) {
    && s.contractSize == SCALE
    && s.maxPayout != 0
    && s.maxPayout == if s.kind.CallSpread? then s.cap - s.strike else s.strike - s.cap
  }

  predicate Distinct(book: seq<Series>) {
    forall i, j :: 0 <= i < j < |book| ==> !SameInstrument(book[i], book[j])
  }

  /** `validate_series_book`. */
  function ValidateBook(book: seq<Series>): Result<()> {
    if book == [] then Err(EmptySeriesBook)
    else if |book| > MAX_SERIES then Err(TooManySeries)
    else if (forall i :: 0 <= i < |book| ==> ValidSeries(book[i])) && Distinct(book) then Ok(())
    else Err(InvalidSeries)
  }

  /** The program's pairwise walk over the book decides exactly that validation. */
  method CheckBook(book: seq<Series>) returns (r: Result<()>)
    ensures r == ValidateBook(book)
  {
    if book == [] { return Err(EmptySeriesBook); }
    if |book| > MAX_SERIES { return Err(TooManySeries); }
    for index := 0 to |book|
      invariant forall i :: 0 <= i < index ==> ValidSeries(book[i])
      invariant forall i, j :: 0 <= i < j < index ==> !SameInstrument(book[i], book[j])
    {
      if !ValidSeries(book[index]) { return Err(InvalidSeries); }
      for previous := 0 to index
        invariant forall i :: 0 <= i < previous ==> !SameInstrument(book[i], book[index])
      {
        if SameInstrument(book[index], book[previous]) {
          assert SameInstrument(book[previous], book[index]);
          return Err(InvalidSeries);
        }
      }
    }
    return Ok(());
  }

  /** Exact payout of one whole contract at settlement price `x`. */
  function Payout(s: Series, x: int): int {
    if s.kind.CallSpread? then SatSub(Min(x, s.cap), s.strike) else SatSub(s.strike, Max(x, s.cap))
  }

  lemma PayoutRange(s: Series, x: int)
    requires ValidSeries(s)
    ensures 0 <= Payout(s, x) <= s.maxPayout
  {}

  /**
   * A valid call spread pays nothing up to its strike, the price above it between strike and cap, and its full width
   * from the cap on; a valid put spread mirrors that below its strike.
   */
  lemma PayoutMeans(s: Series, x: int)
    requires ValidSeries(s)
    ensures s.kind.CallSpread? ==>
              && s.strike < s.cap && s.maxPayout == s.cap - s.strike
              && (x <= s.strike ==> Payout(s, x) == 0) && (s.cap <= x ==> Payout(s, x) == s.maxPayout)
              && (s.strike <= x <= s.cap ==> Payout(s, x) == x - s.strike)
    ensures s.kind.PutSpread? ==>
              && s.cap < s.strike && s.maxPayout == s.strike - s.cap
              && (s.strike <= x ==> Payout(s, x) == 0) && (x <= s.cap ==> Payout(s, x) == s.maxPayout)
              && (s.cap <= x <= s.strike ==> Payout(s, x) == s.strike - x)
  {}

  // ---- A weighted book is affine between breakpoints ------------------------------------------

  /** The signed payoff of `w[i]` contracts of each series at price `x`, before the contract scale. */
  function Weighted(book: seq<Series>, w: seq<int>, x: int): int
    requires |w| == |book|
  {
    if book == [] then 0
    else Weighted(book[..|book| - 1], w[..|book| - 1], x) + w[|book| - 1] * Payout(book[|book| - 1], x)
  }

  predicate AllValid(book: seq<Series>) {
    forall i :: 0 <= i < |book| ==> ValidSeries(book[i])
  }

  /** No strike and no cap lies strictly inside `(a, b)`. */
  predicate NoBreakInside(book: seq<Series>, a: int, b: int) {
    forall i :: 0 <= i < |book| ==> !(a < book[i].strike < b) && !(a < book[i].cap < b)
  }

  lemma LinearIdentity(a: int, x: int, b: int, s: int)
    ensures (b - a) * (x - s) == (b - x) * (a - s) + (x - a) * (b - s)
    ensures (b - a) * (s - x) == (b - x) * (s - a) + (x - a) * (s - b)
  {}

  lemma ConstantIdentity(a: int, x: int, b: int, c: int)
    ensures (b - a) * c == (b - x) * c + (x - a) * c
  {}

  /** `d * p == u * q + v * r`: with `d == u + v`, `p` lies between `q` and `r`. */
  predicate Mixes(d: int, p: int, u: int, q: int, v: int, r: int) {
    d * p == u * q + v * r
  }

  lemma PayoutAffine(s: Series, a: int, x: int, b: int)
    requires ValidSeries(s) && a <= x <= b && !(a < s.strike < b) && !(a < s.cap < b)
    ensures Mixes(b - a, Payout(s, x), b - x, Payout(s, a), x - a, Payout(s, b))
  {
    if a == b {
    } else if s.kind.CallSpread? {
      if b <= s.strike {
      } else if a >= s.cap {
        ConstantIdentity(a, x, b, s.cap - s.strike);
      } else {
        LinearIdentity(a, x, b, s.strike);
      }
    } else {
      if b <= s.cap {
        ConstantIdentity(a, x, b, s.strike - s.cap);
      } else if a >= s.strike {
      } else {
        LinearIdentity(a, x, b, s.strike);
      }
    }
  }

  lemma MixesScaled(w: int, d: int, p: int, u: int, q: int, v: int, r: int)
    requires Mixes(d, p, u, q, v, r)
    ensures Mixes(d, w * p, u, w * q, v, w * r)
  {
    assert d * (w * p) == w * (d * p);
    assert u * (w * q) == w * (u * q);
    assert v * (w * r) == w * (v * r);
  }

  lemma MixesSum(d: int, p: int, p': int, u: int, q: int, q': int, v: int, r: int, r': int)
    requires Mixes(d, p, u, q, v, r) && Mixes(d, p', u, q', v, r')
    ensures Mixes(d, p + p', u, q + q', v, r + r')
  {}

  lemma {:induction false} WeightedAffine(book: seq<Series>, w: seq<int>, a: int, x: int, b: int)
    requires |w| == |book| && AllValid(book) && a <= x <= b && NoBreakInside(book, a, b)
    ensures Mixes(b - a, Weighted(book, w, x), b - x, Weighted(book, w, a), x - a, Weighted(book, w, b))
  {
    if book != [] {
      hide Mixes, Payout;
      var n := |book| - 1;
      var s := book[n];
      WeightedAffine(book[..n], w[..n], a, x, b);
      PayoutAffine(s, a, x, b);
      MixesScaled(w[n], b - a, Payout(s, x), b - x, Payout(s, a), x - a, Payout(s, b));
      MixesSum(b - a, Weighted(book[..n], w[..n], x), w[n] * Payout(s, x),
               b - x, Weighted(book[..n], w[..n], a), w[n] * Payout(s, a),
               x - a, Weighted(book[..n], w[..n], b), w[n] * Payout(s, b));
    }
  }

  /** An affine value never exceeds both ends of its interval. */
  lemma MixesAtMostEnds(d: int, p: int, u: int, q: int, v: int, r: int)
    requires 0 < d == u + v && 0 <= u && 0 <= v && Mixes(d, p, u, q, v, r)
    ensures p <= q || p <= r
  {
    if p > q && p > r {
      MulMono(q, p - 1, u);
      MulMono(r, p - 1, v);
    }
  }

  lemma WeightedAtMostEnds(book: seq<Series>, w: seq<int>, a: int, x: int, b: int)
    requires |w| == |book| && AllValid(book) && a <= x <= b && a < b && NoBreakInside(book, a, b)
    ensures Weighted(book, w, x) <= Weighted(book, w, a) || Weighted(book, w, x) <= Weighted(book, w, b)
  {
    WeightedAffine(book, w, a, x, b);
    MixesAtMostEnds(b - a, Weighted(book, w, x), b - x, Weighted(book, w, a), x - a, Weighted(book, w, b));
  }

  /** Past every strike and cap the book pays a constant. */
  lemma {:induction false} WeightedFlat(book: seq<Series>, w: seq<int>, a: int, x: int)
    requires |w| == |book| && AllValid(book) && a <= x
    requires forall i :: 0 <= i < |book| ==> book[i].strike <= a && book[i].cap <= a
    ensures Weighted(book, w, x) == Weighted(book, w, a)
  {
    if book != [] {
      var n := |book| - 1;
      WeightedFlat(book[..n], w[..n], a, x);
      assert Payout(book[n], x) == Payout(book[n], a);
    }
  }

  // ---- The external book ----------------------------------------------------------------------

  function OpenInterests(book: seq<Series>): (w: seq<int>)
    ensures |w| == |book| && forall i :: 0 <= i < |book| ==> w[i] == book[i].oi
  {
    seq(|book|, i requires 0 <= i < |book| => book[i].oi)
  }

  /** Complete-book liability before the single division by the contract scale. */
  function Numerator(book: seq<Series>, x: int): int {
    Weighted(book, OpenInterests(book), x)
  }

  /** Complete-book liability in atoms, rounded up once. */
  function Liability(book: seq<Series>, x: int): int {
    CeilDiv(Numerator(book, x), SCALE)
  }

  lemma {:induction false} WeightedNonNegative(book: seq<Series>, w: seq<int>, x: int)
    requires |w| == |book| && forall i :: 0 <= i < |w| ==> w[i] >= 0
    ensures Weighted(book, w, x) >= 0
  {
    if book != [] {
      WeightedNonNegative(book[..|book| - 1], w[..|book| - 1], x);
    }
  }

  lemma LiabilityNonNegative(book: seq<Series>, x: int)
    ensures Numerator(book, x) >= 0 && Liability(book, x) >= 0
  {
    WeightedNonNegative(book, OpenInterests(book), x);
    CeilMono(0, Numerator(book, x), SCALE);
  }

  /** `liability_atoms_from_numerator`: the fast u64 path and the wide path give one checked ceiling. */
  function LiabilityAtoms(n: u128): (r: Result<u64>)
    ensures r == if CeilDiv(n, SCALE) <= U64_MAX then Ok(CeilDiv(n, SCALE)) else Err(ArithmeticOverflow)
  {
    if n <= U64_MAX then
      AtomsFit(n);
      Ok(n / SCALE + if n % SCALE != 0 then 1 else 0)
    else
      var rounded := n / SCALE + if n % SCALE != 0 then 1 else 0;
      if 0 <= rounded <= U64_MAX then Ok(rounded) else Err(ArithmeticOverflow)
  }

  lemma AtomsFit(n: int)
    requires 0 <= n <= U64_MAX
    ensures 0 <= CeilDiv(n, SCALE) <= U64_MAX
  {}

  /** The checked walk over the book: a u128 overflow anywhere means the rounded liability left u64. */
  method NumeratorAt(book: seq<Series>, x: u64) returns (r: Result<u128>)
    requires AllValid(book)
    ensures r == if Numerator(book, x) <= U128_MAX then Ok(Numerator(book, x)) else Err(ArithmeticOverflow)
  {
    ghost var w := OpenInterests(book);
    var n: u128 := 0;
    for i := 0 to |book|
      invariant n == Weighted(book[..i], w[..i], x)
    {
      hide Weighted, Payout;
      WeightedStep(book, w, i, x);
      var term: int := book[i].oi * Payout(book[i], x);
      if n + term > U128_MAX {
        PrefixAtMost(book, w, i + 1, x);
        return Err(ArithmeticOverflow);
      }
      n := n + term;
    }
    assert book[..|book|] == book && w[..|book|] == w;
    return Ok(n);
  }

  lemma WeightedStep(book: seq<Series>, w: seq<int>, i: nat, x: int)
    requires |w| == |book| && i < |book|
    ensures Weighted(book[..i + 1], w[..i + 1], x) == Weighted(book[..i], w[..i], x) + w[i] * Payout(book[i], x)
    ensures 0 <= w[i] ==> 0 <= w[i] * Payout(book[i], x)
  {
    assert book[..i + 1][..i] == book[..i] && w[..i + 1][..i] == w[..i];
  }

  lemma {:induction false} PrefixAtMost(book: seq<Series>, w: seq<int>, k: nat, x: int)
    requires |w| == |book| && k <= |book| && forall i :: 0 <= i < |w| ==> w[i] >= 0
    ensures Weighted(book[..k], w[..k], x) <= Weighted(book, w, x)
  {
    var n := |book| - 1;
    if k == |book| {
      assert book[..k] == book && w[..k] == w;
    } else {
      PrefixAtMost(book[..n], w[..n], k, x);
      assert book[..n][..k] == book[..k] && w[..n][..k] == w[..k];
    }
  }
}
