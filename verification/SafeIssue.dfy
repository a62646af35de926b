/** The largest safe primary issue: one linear walk over the candidates, exact at every settlement price. */
module SafeIssue {
  import opened Numbers
  import opened WriterSeries
  import opened WriterCandidates
  import opened WriterReserve
  import opened PreparedReserve

  datatype Limits = Limits(
    accountedAssets: u64, lockedPremium: u64, principal: u64, buffer: u64,
    worstDrawdown: u64, lowerDrawdown: u64, upperDrawdown: u64, lowerTailMax: u64, upperTailMin: u64)

  /** What each gate has to fund the liability with, before any new premium. */
  datatype Funding = Funding(solvent: int, full: int, low: int, high: int)

  // ---- The gates -------------------------------------------------------------------------------

  /** Liability after `k` new contracts paying `pay` each, against funding growing by `bid` each. */
  predicate Fits(liability: int, pay: int, fund: int, bid: int, k: int) {
    liability + k * pay <= fund + k * bid
  }

  /** Every gate that applies at price `x` holds after issuing `k` contracts. */
  predicate GatesAt(liability: int, pay: int, f: Funding, bid: int, x: int, lower: int, upper: int, k: int) {
    && Fits(liability, pay, f.solvent, bid, k)
    && Fits(liability, pay, f.full, bid, k)
    && (x <= lower ==> Fits(liability, pay, f.low, bid, k))
    && (x >= upper ==> Fits(liability, pay, f.high, bid, k))
  }

  /** The gates at price `x` for a book and a target series. */
  predicate Safe(book: seq<Series>, target: nat, f: Funding, bid: int, lower: int, upper: int, k: int, x: int)
    requires target < |book|
  {
    GatesAt(Liability(book, x), Payout(book[target], x), f, bid, x, lower, upper, k)
  }

  ghost predicate SafeEverywhere(book: seq<Series>, target: nat, f: Funding, bid: int, lower: int, upper: int, k: int)
    requires target < |book|
  {
    forall x: u64 :: Safe(book, target, f, bid, lower, upper, k, x)
  }

  // ---- One linear restriction ------------------------------------------------------------------

  function Restrict(m: int, liability: int, pay: int, fund: int, bid: int): int {
    if liability > fund then 0
    else if pay > bid then Min(m, (fund - liability) / (pay - bid))
    else m
  }

  /** Restricting keeps exactly the sizes that still fit. */
  lemma RestrictExact(m: nat, liability: int, pay: int, fund: int, bid: int, k: nat)
    requires k <= m
    ensures 0 <= Restrict(m, liability, pay, fund, bid) <= m
    ensures liability <= fund ==> (k <= Restrict(m, liability, pay, fund, bid) <==> Fits(liability, pay, fund, bid, k))
  {
    if liability <= fund {
      if pay > bid {
        var d := pay - bid;
        FloorBounds(fund - liability, d);
        AddScaled(pay, -bid, k);
        FloorMono(0, fund - liability, d);
        var q := (fund - liability) / d;
        if k <= q {
          MulMono(k, q, d);
        } else {
          MulMono(q + 1, k, d);
        }
      } else {
        MulMono(pay, bid, k);
      }
    }
  }

  /** The four restrictions of one candidate, in program order. */
  function Visit(m: int, liability: int, pay: int, f: Funding, bid: int, x: int, lower: int, upper: int): int {
    var a := Restrict(m, liability, pay, f.solvent, bid);
    var b := Restrict(a, liability, pay, f.full, bid);
    var c := if x <= lower then Restrict(b, liability, pay, f.low, bid) else b;
    if x >= upper then Restrict(c, liability, pay, f.high, bid) else c
  }

  lemma VisitExact(m: nat, liability: int, pay: int, f: Funding, bid: int, x: int, lower: int, upper: int, k: nat)
    requires k <= m
    ensures var v := Visit(m, liability, pay, f, bid, x, lower, upper);
            && 0 <= v <= m
            && (GatesAt(liability, pay, f, bid, x, lower, upper, 0) ==>
                  (k <= v <==> GatesAt(liability, pay, f, bid, x, lower, upper, k)))
            && (!GatesAt(liability, pay, f, bid, x, lower, upper, 0) ==> v == 0)
  {
    RestrictExact(m, liability, pay, f.solvent, bid, k);
    var a := Restrict(m, liability, pay, f.solvent, bid);
    var k1 := if k <= a then k else 0;
    RestrictExact(a, liability, pay, f.full, bid, k1);
    var b := Restrict(a, liability, pay, f.full, bid);
    var k2 := if k <= b then k else 0;
    RestrictExact(b, liability, pay, f.low, bid, k2);
    var c := if x <= lower then Restrict(b, liability, pay, f.low, bid) else b;
    RestrictExact(c, liability, pay, f.high, bid, if k <= c then k else 0);
  }

  // ---- Candidates decide every price -------------------------------------------------------------

  /** Issuing `k` whole contracts adds `k` times the payout after the single rounding. */
  lemma IssueIsLinear(book: seq<Series>, target: nat, k: nat, x: int)
    requires target < |book|
    ensures var w := OpenInterests(book);
            CeilDiv(Weighted(book, w[target := w[target] + k * SCALE], x), SCALE) == Liability(book, x)
                + k * Payout(book[target], x)
  {
    hide CeilDiv, Weighted, Payout;
    var w := OpenInterests(book);
    var p: int := Payout(book[target], x);
    WeightedReplace(book, w, target, w[target] + k * SCALE, x);
    ScaleMoves(k, p);
    CeilShift(Numerator(book, x), k * p, SCALE);
  }

  lemma ScaleMoves(k: int, p: int)
    ensures (k * SCALE) * p == (k * p) * SCALE
  {}

  lemma FitsCarries(l: int, p: int, l': int, p': int, fund: int, bid: int, k: int)
    requires l + k * p <= l' + k * p' && Fits(l', p', fund, bid, k)
    ensures Fits(l, p, fund, bid, k)
  {}

  /** If the gates hold at every candidate, they hold at every settlement price. */
  lemma CandidatesDecide(book: seq<Series>, target: nat, f: Funding, bid: int, lower: u64, upper: u64, k: nat, x: u64)
    requires ValidateBook(book).Ok? && target < |book|
    requires forall c :: c in Candidates(book, lower, upper) ==> Safe(book, target, f, bid, lower, upper, k, c)
    ensures Safe(book, target, f, bid, lower, upper, k, x)
  {
    hide Candidates, ValidateBook, Liability, Payout, Fits;
    ValidBookFacts(book, lower, upper);
    var w := OpenInterests(book);
    var issued := w[target := w[target] + k * SCALE];
    var c := CandidateBounds(Candidates(book, lower, upper), book, issued, x, lower, upper);
    CeilMono(Weighted(book, issued, x), Weighted(book, issued, c), SCALE);
    IssueIsLinear(book, target, k, x);
    IssueIsLinear(book, target, k, c);
    var (l, p, l', p') := (Liability(book, x), Payout(book[target], x), Liability(book, c), Payout(book[target], c));
    assert GatesAt(l', p', f, bid, c, lower, upper, k);
    FitsCarries(l, p, l', p', f.solvent, bid, k);
    FitsCarries(l, p, l', p', f.full, bid, k);
    if x <= lower {
      FitsCarries(l, p, l', p', f.low, bid, k);
    }
    if x >= upper {
      FitsCarries(l, p, l', p', f.high, bid, k);
    }
  }

  lemma CandidatesDecideAll(book: seq<Series>, target: nat, f: Funding, bid: int, lower: u64, upper: u64, k: nat)
    requires ValidateBook(book).Ok? && target < |book|
    ensures (forall c :: c in Candidates(book, lower, upper) ==> Safe(book, target, f, bid, lower, upper, k, c))
            <==> SafeEverywhere(book, target, f, bid, lower, upper, k)
  {
    if forall c :: c in Candidates(book, lower, upper) ==> Safe(book, target, f, bid, lower, upper, k, c) {
      forall x: u64 ensures Safe(book, target, f, bid, lower, upper, k, x) {
        CandidatesDecide(book, target, f, bid, lower, upper, k, x);
      }
    }
  }

  // ---- The program -------------------------------------------------------------------------------

  /** Loss the principal may bear under a limit in parts per million, rounded down. */
  function DrawdownAllowance(principal: u64, limit: u64): Result<u64> {
    if limit > RATIO_SCALE_PPM then Err(InvalidRiskLimit)
    else
      AllowanceFits(principal, limit);
      Ok(principal * limit / RATIO_SCALE_PPM)
  }

  lemma AllowanceFits(principal: u64, limit: u64)
    requires limit <= RATIO_SCALE_PPM
    ensures 0 <= principal * limit / RATIO_SCALE_PPM <= principal
  {
    MulMono(limit, RATIO_SCALE_PPM, principal);
    FloorMono(principal * limit, principal * RATIO_SCALE_PPM, RATIO_SCALE_PPM);
    FloorIs(principal * RATIO_SCALE_PPM, RATIO_SCALE_PPM, principal);
    FloorMono(0, principal * limit, RATIO_SCALE_PPM);
  }

  function GateFunding(premium: u64, principal: u64, limit: u64): Result<u64> {
    var allowance :- DrawdownAllowance(principal, limit);
    if premium + allowance > U64_MAX then Err(ArithmeticOverflow) else Ok(premium + allowance)
  }

  function FundingOf(l: Limits): Result<Funding>
    requires l.buffer <= l.accountedAssets
  {
    var full :- GateFunding(l.lockedPremium, l.principal, l.worstDrawdown);
    var low :- GateFunding(l.lockedPremium, l.principal, l.lowerDrawdown);
    var high :- GateFunding(l.lockedPremium, l.principal, l.upperDrawdown);
    Ok(Funding(l.accountedAssets - l.buffer, full, low, high))
  }

  /** A request the program accepts for computation. */
  predicate Wellformed(book: seq<Series>, target: nat, maxQuantity: u64, l: Limits) {
    && ValidateBook(book).Ok? && target < |book| && maxQuantity % SCALE == 0 && l.principal != 0
    && l.lowerTailMax < l.upperTailMin
  }

  /** `k` contracts pass every gate visited so far. */
  predicate PassedAll(book: seq<Series>, target: nat, f: Funding, bid: int, l: Limits, cs: seq<u64>, k: int)
    requires target < |book|
  {
    forall c :: c in cs ==> Safe(book, target, f, bid, l.lowerTailMax, l.upperTailMin, k, c)
  }

  /** `m` is exact for the gates visited so far. */
  ghost predicate ExactSoFar(book: seq<Series>, target: nat, f: Funding, bid: int, l: Limits, cs: seq<u64>, n: nat,
                             m: int)
    requires target < |book|
  {
    && 0 <= m <= n
    && (PassedAll(book, target, f, bid, l, cs, 0) ==>
          forall k: nat :: k <= n ==> (k <= m <==> PassedAll(book, target, f, bid, l, cs, k)))
    && (!PassedAll(book, target, f, bid, l, cs, 0) ==> m == 0)
  }

  lemma ExactStep(book: seq<Series>, target: nat, f: Funding, bid: int, l: Limits, cs: seq<u64>, n: nat, m: nat, c: u64)
    requires target < |book| && ExactSoFar(book, target, f, bid, l, cs, n, m)
    ensures ExactSoFar(book, target, f, bid, l, cs + [c], n,
                       Visit(m, Liability(book, c), Payout(book[target], c), f, bid, c, l.lowerTailMax, l.upperTailMin))
  {
    var (lia, pay) := (Liability(book, c), Payout(book[target], c));
    var v := Visit(m, lia, pay, f, bid, c, l.lowerTailMax, l.upperTailMin);
    hide Liability, Payout, Visit, GatesAt;
    VisitExact(m, lia, pay, f, bid, c, l.lowerTailMax, l.upperTailMin, 0);
    forall k: nat ensures PassedAll(book, target, f, bid, l, cs + [c], k) <==>
                          PassedAll(book, target, f, bid, l, cs, k)
                              && Safe(book, target, f, bid, l.lowerTailMax, l.upperTailMin, k, c) {
      PassedSnoc(book, target, f, bid, l, cs, c, k);
    }
    if PassedAll(book, target, f, bid, l, cs + [c], 0) {
      forall k: nat | k <= n ensures k <= v <==> PassedAll(book, target, f, bid, l, cs + [c], k) {
        if k <= m {
          VisitExact(m, lia, pay, f, bid, c, l.lowerTailMax, l.upperTailMin, k);
        }
      }
    }
  }

  lemma PassedSnoc(book: seq<Series>, target: nat, f: Funding, bid: int, l: Limits, cs: seq<u64>, c: u64, k: int)
    requires target < |book|
    ensures PassedAll(book, target, f, bid, l, cs + [c], k) <==>
            PassedAll(book, target, f, bid, l, cs, k)
                && Safe(book, target, f, bid, l.lowerTailMax, l.upperTailMin, k, c)
  {
    hide Safe;
    assert (cs + [c])[|cs|] == c && c in cs + [c];
    assert forall x :: x in cs ==> x in cs + [c];
  }

  /** The candidate walk of the program. */
  method WalkIssue(book: seq<Series>, target: nat, f: Funding, bid: u64, l: Limits, cs: seq<u64>, n: nat)
      returns (r: Result<nat>)
    requires target < |book| && AllValid(book)
    ensures r.Ok? ==> ExactSoFar(book, target, f, bid, l, cs, n, r.value)
    ensures r.Err? <==> Overflows(cs, book)
    ensures r.Err? ==> r.error == ArithmeticOverflow
  {
    var m: nat := n;
    for i := 0 to |cs|
      invariant ExactSoFar(book, target, f, bid, l, cs[..i], n, m)
      invariant forall j :: 0 <= j < i ==> Liability(book, cs[j]) <= U64_MAX
    {
      hide ExactSoFar, Liability, Visit;
      var liability := LiabilityAt(book, cs[i]);
      if liability.Err? {
        assert cs[i] in cs;
        return Err(ArithmeticOverflow);
      }
      var pay := Payout(book[target], cs[i]);
      ExactStep(book, target, f, bid, l, cs[..i], n, m, cs[i]);
      assert cs[..i] + [cs[i]] == cs[..i + 1];
      VisitExact(m, liability.value, pay, f, bid, cs[i], l.lowerTailMax, l.upperTailMin, 0);
      m := Visit(m, liability.value, pay, f, bid, cs[i], l.lowerTailMax, l.upperTailMin);
    }
    assert cs[..|cs|] == cs;
    return Ok(m);
  }

  /** The result is exact: within the request, exactly the sizes up to it pass every gate at every settlement price. */
  ghost predicate LargestSafe(book: seq<Series>, target: nat, f: Funding, bid: int, l: Limits, maxQuantity: u64,
                              quantity: int)
    requires target < |book|
  {
    && 0 <= quantity <= maxQuantity && quantity % SCALE == 0
    && (SafeEverywhere(book, target, f, bid, l.lowerTailMax, l.upperTailMin, 0) ==>
          forall k: nat :: k <= maxQuantity / SCALE ==>
            (k <= quantity / SCALE <==> SafeEverywhere(book, target, f, bid, l.lowerTailMax, l.upperTailMin, k)))
    && (!SafeEverywhere(book, target, f, bid, l.lowerTailMax, l.upperTailMin, 0) ==> quantity == 0)
  }

  lemma ExactIsLargest(book: seq<Series>, target: nat, f: Funding, bid: int, l: Limits, maxQuantity: u64, m: nat)
    requires Wellformed(book, target, maxQuantity, l)
    requires ExactSoFar(book, target, f, bid, l, Candidates(book, l.lowerTailMax, l.upperTailMin), maxQuantity / SCALE,
                        m)
    ensures LargestSafe(book, target, f, bid, l, maxQuantity, m * SCALE)
  {
    hide Candidates, SafeEverywhere;
    var cs := Candidates(book, l.lowerTailMax, l.upperTailMin);
    forall k: nat ensures PassedAll(book, target, f, bid, l, cs, k) <==>
        SafeEverywhere(book, target, f, bid, l.lowerTailMax, l.upperTailMin, k) {
      CandidatesDecideAll(book, target, f, bid, l.lowerTailMax, l.upperTailMin, k);
    }
    MulMono(m, maxQuantity / SCALE, SCALE);
    FloorIs(m * SCALE, SCALE, m);
  }

  /**
   * The largest whole-contract issue within the request that keeps solvency and all three drawdown gates at
   * every settlement price; zero when the present book already fails one.
   */
  method MaximumSafeIssue(book: seq<Series>, target: nat, bid: u64, maxQuantity: u64, l: Limits)
      returns (r: Result<u64>)
    ensures r.Ok? ==> Wellformed(book, target, maxQuantity, l)
    ensures Wellformed(book, target, maxQuantity, l) && l.accountedAssets < l.buffer ==> r == Ok(0)
    ensures r.Ok? && l.buffer <= l.accountedAssets ==>
              FundingOf(l).Ok? && LargestSafe(book, target, FundingOf(l).value, bid, l, maxQuantity, r.value)
    ensures Wellformed(book, target, maxQuantity, l) && l.buffer <= l.accountedAssets && FundingOf(l).Ok? ==>
              (r.Err? <==> Overflows(Candidates(book, l.lowerTailMax, l.upperTailMin), book))
  {
    hide Overflows, LargestSafe, ExactSoFar, Candidates;
    var valid := CheckBook(book);
    if valid.Err? { return Err(valid.error); }
    if target >= |book| || maxQuantity % SCALE != 0 || l.principal == 0 { return Err(InvalidSeries); }
    var cs := BuildCandidates(book, l.lowerTailMax, l.upperTailMin);
    if cs.Err? { return Err(cs.error); }
    if l.accountedAssets < l.buffer { return Ok(0); }
    var f := FundingOf(l);
    if f.Err? { return Err(f.error); }
    var m := WalkIssue(book, target, f.value, bid, l, cs.value, maxQuantity / SCALE);
    if m.Err? { return Err(m.error); }
    ExactIsLargest(book, target, f.value, bid, l, maxQuantity, m.value);
    IssueFits(m.value, maxQuantity, book, target, f.value, bid, l);
    return Ok(m.value * SCALE);
  }

  lemma IssueFits(m: nat, maxQuantity: u64, book: seq<Series>, target: nat, f: Funding, bid: int, l: Limits)
    requires target < |book| && LargestSafe(book, target, f, bid, l, maxQuantity, m * SCALE)
    ensures 0 <= m * SCALE <= U64_MAX
  {}

  // ---- The gates are the full recomputation ------------------------------------------------------

  /** Exposure beyond the locked premium, against the principal's limit (`drawdown_gate`). */
  predicate DrawdownGate(reserve: int, premium: int, principal: int, limit: int) {
    SatSub(reserve, premium) * RATIO_SCALE_PPM <= principal * limit
  }

  lemma GateIsAllowance(reserve: int, premium: int, principal: u64, limit: u64)
    requires limit <= RATIO_SCALE_PPM && 0 <= premium
    ensures DrawdownGate(reserve, premium, principal, limit) <==>
            reserve <= premium + principal * limit / RATIO_SCALE_PPM
  {
    AllowanceFits(principal, limit);
    var exposed := SatSub(reserve, premium);
    if DrawdownGate(reserve, premium, principal, limit) {
      FloorGreatest(principal * limit, RATIO_SCALE_PPM, exposed);
    }
    FloorBounds(principal * limit, RATIO_SCALE_PPM);
    if exposed <= principal * limit / RATIO_SCALE_PPM {
      MulMono(exposed, principal * limit / RATIO_SCALE_PPM, RATIO_SCALE_PPM);
    }
  }

  /** Recomputing the whole reserve of the book after the issue and testing its three values; an overflow fails. */
  ghost predicate RecomputedSafe(book: seq<Series>, target: nat, bid: int, l: Limits, k: nat)
    requires target < |book|
  {
    && book[target].oi + k * SCALE <= U64_MAX
    && var after := ExactReserve(WithOi(book, target, book[target].oi + k * SCALE), l.lowerTailMax, l.upperTailMin);
       after.Ok? && ReservePasses(after.value, l, k * bid)
  }

  /** The three reserves against the assets and limits, with the new premium. */
  predicate ReservePasses(s: ReserveSummary, l: Limits, premium: int) {
    && s.reserve + l.buffer <= l.accountedAssets + premium
    && DrawdownGate(s.reserve, l.lockedPremium + premium, l.principal, l.worstDrawdown)
    && DrawdownGate(s.lowerReserve, l.lockedPremium + premium, l.principal, l.lowerDrawdown)
    && DrawdownGate(s.upperReserve, l.lockedPremium + premium, l.principal, l.upperDrawdown)
  }

  /** After `k` more contracts the open interest and the liability at every price still fit a u64. */
  ghost predicate Representable(book: seq<Series>, target: nat, k: nat)
    requires target < |book|
  {
    && book[target].oi + k * SCALE <= U64_MAX
    && forall x: u64 :: Liability(book, x) + k * Payout(book[target], x) <= U64_MAX
  }

  /** Where the recomputation succeeds, the linear gates at every price say what it says. */
  lemma GatesMatchReserve(book: seq<Series>, target: nat, bid: u64, l: Limits, k: nat)
    requires target < |book| && l.buffer <= l.accountedAssets && FundingOf(l).Ok?
    requires book[target].oi + k * SCALE <= U64_MAX
    requires ExactReserve(WithOi(book, target, book[target].oi + k * SCALE), l.lowerTailMax, l.upperTailMin).Ok?
    ensures SafeEverywhere(book, target, FundingOf(l).value, bid, l.lowerTailMax, l.upperTailMin, k)
       <==> RecomputedSafe(book, target, bid, l, k)
  {
    hide ExactReserve, Liability, Payout, DrawdownGate;
    var oi := book[target].oi + k * SCALE;
    var after := ExactReserve(WithOi(book, target, oi), l.lowerTailMax, l.upperTailMin).value;
    var f := FundingOf(l).value;
    FundingIs(l, f, after, k * bid);
    forall x: u64 ensures Liability(book, x) + k * Payout(book[target], x) == Liability(WithOi(book, target, oi), x) {
      IssuedLiability(book, target, k, x);
    }
    if RecomputedSafe(book, target, bid, l, k) {
      forall x: u64 ensures Safe(book, target, f, bid, l.lowerTailMax, l.upperTailMin, k, x) {
        ReserveIsExact(WithOi(book, target, oi), l.lowerTailMax, l.upperTailMin, x);
      }
    }
    if SafeEverywhere(book, target, f, bid, l.lowerTailMax, l.upperTailMin, k) {
      ReserveIsExact(WithOi(book, target, oi), l.lowerTailMax, l.upperTailMin, 0);
      assert Safe(book, target, f, bid, l.lowerTailMax, l.upperTailMin, k, after.reserveAt);
      assert Safe(book, target, f, bid, l.lowerTailMax, l.upperTailMin, k, after.lowerAt);
      assert Safe(book, target, f, bid, l.lowerTailMax, l.upperTailMin, k, after.upperAt);
    }
  }

  /** The recomputation succeeds exactly on representable issues. */
  lemma RecomputationSucceeds(book: seq<Series>, target: nat, l: Limits, k: nat)
    requires ValidateBook(book).Ok? && target < |book| && l.lowerTailMax < l.upperTailMin
    requires book[target].oi + k * SCALE <= U64_MAX
    ensures ExactReserve(WithOi(book, target, book[target].oi + k * SCALE), l.lowerTailMax, l.upperTailMin).Ok?
       <==> Representable(book, target, k)
  {
    hide ExactReserve, Liability, Payout;
    var issued := WithOi(book, target, book[target].oi + k * SCALE);
    ValidationIgnoresOi(book, target, book[target].oi + k * SCALE);
    ReserveFailsOnlyByOverflow(issued, l.lowerTailMax, l.upperTailMin);
    forall x: u64 ensures Liability(book, x) + k * Payout(book[target], x) == Liability(issued, x) {
      IssuedLiability(book, target, k, x);
    }
  }

  /**
   * For every size, recomputing the complete reserve accepts exactly when the linear gates hold at every price
   * and the issued book is representable: the walk and the recomputation differ only where the latter overflows.
   */
  lemma GatesAreRecomputation(book: seq<Series>, target: nat, bid: u64, maxQuantity: u64, l: Limits, k: nat)
    requires Wellformed(book, target, maxQuantity, l) && l.buffer <= l.accountedAssets && FundingOf(l).Ok?
    ensures RecomputedSafe(book, target, bid, l, k)
       <==> SafeEverywhere(book, target, FundingOf(l).value, bid, l.lowerTailMax, l.upperTailMin, k)
            && Representable(book, target, k)
  {
    hide ExactReserve, SafeEverywhere, FundingOf;
    if book[target].oi + k * SCALE <= U64_MAX {
      RecomputationSucceeds(book, target, l, k);
      if Representable(book, target, k) {
        GatesMatchReserve(book, target, bid, l, k);
      }
    }
  }

  /** A bound on assets and premium alone makes the walk and the recomputation agree. */
  lemma GatesAgreeWithinWord(book: seq<Series>, target: nat, bid: u64, maxQuantity: u64, l: Limits, k: nat)
    requires Wellformed(book, target, maxQuantity, l) && l.buffer <= l.accountedAssets && FundingOf(l).Ok?
    requires book[target].oi + k * SCALE <= U64_MAX && l.accountedAssets - l.buffer + k * bid <= U64_MAX
    ensures RecomputedSafe(book, target, bid, l, k)
       <==> SafeEverywhere(book, target, FundingOf(l).value, bid, l.lowerTailMax, l.upperTailMin, k)
  {
    GatesAreRecomputation(book, target, bid, maxQuantity, l, k);
    var f := FundingOf(l).value;
    if SafeEverywhere(book, target, f, bid, l.lowerTailMax, l.upperTailMin, k) {
      forall x: u64 ensures Liability(book, x) + k * Payout(book[target], x) <= U64_MAX {
        assert Safe(book, target, f, bid, l.lowerTailMax, l.upperTailMin, k, x);
        hide Liability, Payout;
      }
    }
    hide RecomputedSafe, SafeEverywhere;
  }

  const WIDE_BOOK: seq<Series> := [Series(CallSpread, 0, 2_000_000, 1_000_000, 2_000_000, 0)]
  const WIDE_LIMITS: Limits := Limits(0, 0, 1, 0, 0, 0, 0, 0, 1)
  const WIDE_ISSUE: nat := 18_000_000_000_000

  /** One wide call sold at the largest bid: every gate holds at every price, and the recomputed reserve overflows. */
  lemma RecomputationCanOverflow()
    ensures Wellformed(WIDE_BOOK, 0, WIDE_ISSUE * SCALE, WIDE_LIMITS) && FundingOf(WIDE_LIMITS).Ok?
    ensures var f := FundingOf(WIDE_LIMITS).value;
            && SafeEverywhere(WIDE_BOOK, 0, f, U64_MAX, 0, 1, 0)
            && SafeEverywhere(WIDE_BOOK, 0, f, U64_MAX, 0, 1, WIDE_ISSUE)
            && !RecomputedSafe(WIDE_BOOK, 0, U64_MAX, WIDE_LIMITS, WIDE_ISSUE)
  {
    var f := FundingOf(WIDE_LIMITS).value;
    forall x: u64 ensures Liability(WIDE_BOOK, x) == 0 && 0 <= Payout(WIDE_BOOK[0], x) <= 2_000_000 {
      WideLiability(x);
    }
    assert Payout(WIDE_BOOK[0], 2_000_000) == 2_000_000;
    hide Liability, Payout, ExactReserve;
    forall x: u64 ensures Safe(WIDE_BOOK, 0, f, U64_MAX, 0, 1, 0, x)
        && Safe(WIDE_BOOK, 0, f, U64_MAX, 0, 1, WIDE_ISSUE, x) {}
    GatesAreRecomputation(WIDE_BOOK, 0, U64_MAX, WIDE_ISSUE * SCALE, WIDE_LIMITS, WIDE_ISSUE);
    assert !Representable(WIDE_BOOK, 0, WIDE_ISSUE);
  }

  lemma WideLiability(x: u64)
    ensures Liability(WIDE_BOOK, x) == 0 && 0 <= Payout(WIDE_BOOK[0], x) <= 2_000_000
  {
    PayoutRange(WIDE_BOOK[0], x);
    var w := OpenInterests(WIDE_BOOK);
    assert Weighted(WIDE_BOOK[..0], w[..0], x) == 0;
    assert w[0] * Payout(WIDE_BOOK[0], x) == 0;
    assert Numerator(WIDE_BOOK, x) == 0;
  }

  lemma IssuedLiability(book: seq<Series>, target: nat, k: nat, x: u64)
    requires target < |book| && book[target].oi + k * SCALE <= U64_MAX
    ensures Liability(book, x) + k * Payout(book[target], x)
            == Liability(WithOi(book, target, book[target].oi + k * SCALE), x)
  {
    var w := OpenInterests(book);
    var book' := WithOi(book, target, book[target].oi + k * SCALE);
    IssueIsLinear(book, target, k, x);
    assert OpenInterests(book') == w[target := w[target] + k * SCALE];
    WeightedTerms(book, book', OpenInterests(book'), x);
  }

  lemma FundingIs(l: Limits, f: Funding, s: ReserveSummary, premium: int)
    requires l.buffer <= l.accountedAssets && FundingOf(l) == Ok(f) && 0 <= premium
    ensures s.reserve + l.buffer <= l.accountedAssets + premium <==> s.reserve <= f.solvent + premium
    ensures DrawdownGate(s.reserve, l.lockedPremium + premium, l.principal, l.worstDrawdown) <==>
            s.reserve <= f.full + premium
    ensures DrawdownGate(s.lowerReserve, l.lockedPremium + premium, l.principal, l.lowerDrawdown) <==>
            s.lowerReserve <= f.low + premium
    ensures DrawdownGate(s.upperReserve, l.lockedPremium + premium, l.principal, l.upperDrawdown) <==>
            s.upperReserve <= f.high + premium
  {
    GateIsAllowance(s.reserve, l.lockedPremium + premium, l.principal, l.worstDrawdown);
    GateIsAllowance(s.lowerReserve, l.lockedPremium + premium, l.principal, l.lowerDrawdown);
    GateIsAllowance(s.upperReserve, l.lockedPremium + premium, l.principal, l.upperDrawdown);
  }
}
