/** The stages of the loop take exactly what their independent descriptions say. */
module RouteWitness {
  import opened Numbers
  import opened Wrappers
  import opened DlmmMath
  import Orders
  import OrderRuns
  import opened RouteAdmission
  import opened RouteModel
  import opened RouteTrace
  import opened RouteSteps
  import opened RouteLoop

  // ---- Ordinary and orders --------------------------------------------------------------------------------

  lemma OrdinaryExact(j: Job, s: State, b: u16, price: u64)
    requires OrdinaryStep(j, s, b, price).Ok?
    ensures OrdinaryTook(j, s, b, price, OrdinaryStep(j, s, b, price).value.0)
  {
    var w := OrdinaryStep(j, s, b, price).value.0;
    if s.ordinaryIndex < |j.src.ordinary| && j.src.ordinary[s.ordinaryIndex].id == b {
      var bin := j.src.ordinary[s.ordinaryIndex];
      var f := FillBin(j.c.direction, s.remaining, price, OrdinaryOffer(j, s, bin)).value;
      FillFacts(j.c.direction, s.remaining, price, OrdinaryOffer(j, s, bin));
      hide FillBin;
      assert OrdinaryTakes(j, s, b, price, w, f);
    }
  }

  /** The quantity taken from an order is the greatest both sides can trade, and zero only when nothing can be. */
  lemma QuantityExact(j: Job, w: Work, e: Orders.Balance, price: u64)
    requires price > 0 && w.s.remaining > 0 && (Up(j.c) ==> w.s.amountOut + w.output <= j.limits.maximumOut)
    ensures var q := OrderQuantity(j.c, j.limits, w, e, price);
            && (q > 0 ==> GreatestTake(j, w, e, price, q))
            && (q == 0 ==> || e.quantity == 0
                           || (Up(j.c) && (w.s.remaining * PRICE_SCALE < price
                                           || w.s.amountOut + w.output >= j.limits.maximumOut))
                           || (!Up(j.c) && e.input * PRICE_SCALE < price))
  {
    var q := OrderQuantity(j.c, j.limits, w, e, price);
    var money: u64 := if Up(j.c) then w.s.remaining else e.input;
    AffordableIs(money, price, q);
    hide Orders.Affordable;
  }

  lemma AffordableIs(money: u64, price: u64, q: u64)
    requires price > 0
    ensures q <= Orders.Affordable(money, price) ==> q * price <= money * PRICE_SCALE
    ensures q == Orders.Affordable(money, price) && q < U64_MAX ==> money * PRICE_SCALE < (q + 1) * price
    ensures Orders.Affordable(money, price) == 0 ==> money * PRICE_SCALE < price
  {
    var a := money * PRICE_SCALE / price;
    FloorBounds(money * PRICE_SCALE, price);
    if q <= Orders.Affordable(money, price) { MulMono(q, a, price); }
    MulSucc(q, price);
  }

  lemma OrderExact(j: Job, w: Work, b: u16, price: u64)
    requires OrderHere(j, w.s, b) && price > 0 && w.s.remaining > 0 && TakeOrder(j, w, b, price).Ok?
    requires Up(j.c) ==> w.s.amountOut + w.output <= j.limits.maximumOut
    ensures var (n, hit) := TakeOrder(j, w, b, price).value;
            && (hit ==> OrderStops(j, w, b, price))
            && (!hit ==> OrderTook(j, w, b, price, n))
            && (!hit && Up(j.c) ==> n.s.amountOut + n.output <= j.limits.maximumOut)
  {
    if |w.s.orderFills| != j.limits.maximumOrders {
      var o := j.src.orders[w.s.orderCursor];
      var e := BalanceOf(o, j.c.tick).value;
      var q := OrderQuantity(j.c, j.limits, w, e, price);
      QuantityExact(j, w, e, price);
      hide OrderQuantity, Orders.Filled;
      var (n, hit) := TakeOrder(j, w, b, price).value;
      if !hit {
        var r := Orders.Filled(e, q, price).value;
        var f := OrderFill(o.sequence, q, r.1, r.0);
        assert OrderTakes(j, w, b, price, n, e, f);
      }
    }
  }

  /** The orders of one price, as a chain of works. */
  lemma {:induction false} OrdersExact(j: Job, w: Work, b: u16, price: u64) returns (chain: seq<Work>)
    requires price > 0 && TakeOrders(j, w, b, price).Ok?
    requires Up(j.c) ==> w.s.amountOut + w.output <= j.limits.maximumOut
    ensures var (n, hit) := TakeOrders(j, w, b, price).value;
            OrdersTook(j, b, price, chain, hit) && chain[0] == w && chain[|chain| - 1] == n
    decreases |j.src.orders| - w.s.orderCursor
  {
    if w.s.remaining == 0 || !OrderHere(j, w.s, b) {
      chain := [w];
    } else {
      OrderExact(j, w, b, price);
      hide TakeOrder, OrderTook, OrderStops;
      var (n, hit) := TakeOrder(j, w, b, price).value;
      if hit {
        chain := [w];
      } else {
        var rest := OrdersExact(j, n, b, price);
        chain := [w] + rest;
        assert forall i :: 0 < i < |chain| ==> chain[i] == rest[i - 1];
      }
    }
  }

  // ---- The writer -------------------------------------------------------------------------------------------

  lemma OfferIs(j: Job, p: Policy, w: Work, bin: Bin)
    requires p.index < |p.limits|
    ensures WriterOffer(j.c, j.limits, p, w, bin) == WriterMay(j, p, w, bin)
  {}

  lemma WillingIs(j: Job, p: Policy, w: Work, price: u64, bin: Bin)
    requires p.index < |p.limits|
    ensures WriterWilling(j, p, w, price, bin) <==> WriterAsked(j, p, w, price, WriterMay(j, p, w, bin))
  {
    OfferIs(j, p, w, bin);
    MulMono(0, j.c.tick, p.buyback.separation);
    hide WriterOffer, WriterMay;
  }

  /** One probe is the fill of its input, accepted or refused. */
  lemma ProbeExact(j: Job, p: Policy, w: Work, b: u16, price: u64, offer: u64, input: u64)
    requires OneProbe(j, p, w, b, price, offer, input).Ok?
    ensures var r := OneProbe(j, p, w, b, price, offer, input).value;
            && (r.None? && 1 <= input ==> Refused(j, p, w, b, price, offer, input))
            && (r.Some? ==> FillAt(j, b, price, offer, input, r.value.fill)
                            && Accepted(j, p, w, r.value.fill, r.value.totals)
                            && AdmitTotals(j.c.direction, p, r.value.totals, j.sleeveCash) == Some(r.value.evidence))
  {
    hide FillBin, AdmitTotals;
    var r := OneProbe(j, p, w, b, price, offer, input).value;
    var f := FillBin(j.c.direction, input, price, OfferBin(j.c, b, offer)).value;
    var t := TotalsWith(j.c, w.s.totals, f).value;
    assert TotalsPlus(j.c, w.s.totals, f, t);
    if r.None? && 1 <= input {
      assert RefusedFill(j, p, w, b, price, offer, input, f, t);
    }
  }

  /** Halving a floored half is flooring the quarter. */
  lemma HalfOf(full: nat, k: nat)
    ensures Pow2(k) > 0 && full / Pow2(k + 1) == full / Pow2(k) / 2
  {
    Pow2Positive(k);
    var (d, q) := (Pow2(k), full / Pow2(k));
    FloorBounds(full, d);
    FloorBounds(q, 2);
    var h := q / 2;
    assert h * (2 * d) == (h * 2) * d;
    MulMono(h * 2, q, d);
    MulMono(q + 1, h * 2 + 2, d);
    MulSucc(q, d);
    assert (h * 2 + 2) * d == h * (2 * d) + 2 * d;
    FloorIs(full, 2 * d, h);
  }

  lemma {:induction false} HalvesFall(full: nat, m: nat, k: nat)
    requires m <= k
    ensures Pow2(m) > 0 && Pow2(k) > 0 && 0 <= full / Pow2(k) <= full / Pow2(m)
    decreases k
  {
    Pow2Positive(m);
    Pow2Positive(k);
    FloorGreatest(full, Pow2(k), 0);
    if m < k {
      HalvesFall(full, m, k - 1);
      HalfOf(full, k - 1);
    }
  }

  /** Every candidate from `k` on that is at least one atom was refused. */
  ghost predicate RefusedFrom(j: Job, p: Policy, w: Work, b: u16, price: u64, offer: u64, full: u64, k: nat) {
    forall m :: k <= m < CANDIDATES && 1 <= Candidate(full, m) ==>
                  Refused(j, p, w, b, price, offer, Candidate(full, m))
  }

  /** The search from candidate `k` on accepted `probe`, after refusing the ones before it. */
  ghost predicate AcceptedFrom(j: Job, p: Policy, w: Work, b: u16, price: u64, offer: u64, full: u64, k: nat, at: nat,
                               probe: Probe) {
    && k <= at < CANDIDATES && 1 <= Candidate(full, at) <= U64_MAX
    && FillAt(j, b, price, offer, Candidate(full, at), probe.fill)
    && Accepted(j, p, w, probe.fill, probe.totals)
    && AdmitTotals(j.c.direction, p, probe.totals, j.sleeveCash) == Some(probe.evidence)
    && forall m :: k <= m < at ==> Refused(j, p, w, b, price, offer, Candidate(full, m))
  }

  /** The last candidate tried is one atom: every later one would be the same. */
  lemma OneIsLast(j: Job, p: Policy, w: Work, b: u16, price: u64, offer: u64, full: u64, k: nat)
    requires k < CANDIDATES && Candidate(full, k) <= 1 && Refused(j, p, w, b, price, offer, 1)
    ensures RefusedFrom(j, p, w, b, price, offer, full, k)
  {
    hide Refused;
    forall m | k <= m < CANDIDATES && 1 <= Candidate(full, m)
        ensures Refused(j, p, w, b, price, offer, Candidate(full, m)) {
      if m < CANDIDATES - 1 { HalvesFall(full, k, m); }
    }
  }

  lemma {:induction false} SearchExact(j: Job, p: Policy, w: Work, b: u16, price: u64, offer: u64, full: u64, k: nat,
                                       candidate: u64) returns (at: nat)
    requires k < CANDIDATES && (k < CANDIDATES - 1 ==> candidate == Candidate(full, k) >= 1)
    requires ProbeFrom(j, p, w, b, price, offer, k, candidate).Ok?
    ensures var r := ProbeFrom(j, p, w, b, price, offer, k, candidate).value;
            && (r.None? ==> RefusedFrom(j, p, w, b, price, offer, full, k))
            && (r.Some? ==> AcceptedFrom(j, p, w, b, price, offer, full, k, at, r.value))
    decreases CANDIDATES - k
  {
    hide OneProbe, Refused, FillAt, Accepted, AdmitTotals;
    at := k;
    var input: u64 := if k == PROBES - 1 then 1 else candidate;
    assert input == Candidate(full, k);
    ProbeExact(j, p, w, b, price, offer, input);
    var found := OneProbe(j, p, w, b, price, offer, input).value;
    if found.None? {
      if input <= 1 {
        OneIsLast(j, p, w, b, price, offer, full, k);
      } else {
        HalfOf(full, k);
        at := SearchExact(j, p, w, b, price, offer, full, k + 1, input / 2);
      }
    }
  }

  /** The writer stage answers as described. */
  lemma WriterExact(j: Job, w: Work, b: u16, price: u64, bin: Bin)
    requires PolicyFits(j.src, j.policy) && w.s.remaining > 0 && WriterStep(j, w, b, price, bin).Ok?
    ensures WriterTook(j, w, b, price, bin, WriterStep(j, w, b, price, bin).value.0)
  {
    hide WriterMay, WriterAsked, WriterWilling, WriterOffer, ProbeAll, Answered, TakeProbe;
    if j.policy.Some? {
      var p := j.policy.value;
      OfferIs(j, p, w, bin);
      WillingIs(j, p, w, price, bin);
      var offer := WriterOffer(j.c, j.limits, p, w, bin);
      if WriterWilling(j, p, w, price, bin) {
        AnswerExact(j, p, w, b, price, bin, offer);
      }
    }
  }

  lemma AnswerExact(j: Job, p: Policy, w: Work, b: u16, price: u64, bin: Bin, offer: u64)
    requires w.s.remaining > 0 && ProbeAll(j, p, w, b, price, offer).Ok?
    requires var probe := ProbeAll(j, p, w, b, price, offer).value;
             probe.Some? ==> TakeProbe(j, w, bin, probe.value).Ok?
    ensures var probe := ProbeAll(j, p, w, b, price, offer).value;
            var n := if probe.None? then w else TakeProbe(j, w, bin, probe.value).value.0;
            exists full :: Answered(j, p, w, b, price, bin, offer, n, full)
  {
    hide ProbeFrom, FillBin, Refused, Accepted, AdmitTotals, TakeProbe, WriterTakes;
    var full := FillBin(j.c.direction, w.s.remaining, price, OfferBin(j.c, b, offer)).value;
    FillFacts(j.c.direction, w.s.remaining, price, OfferBin(j.c, b, offer));
    assert FillAt(j, b, price, offer, w.s.remaining, full);
    assert Candidate(full.input, 0) == full.input;
    var at := SearchExact(j, p, w, b, price, offer, full.input, 0, full.input);
    var probe := ProbeAll(j, p, w, b, price, offer).value;
    if probe.None? {
      assert NoneAccepted(j, p, w, b, price, offer, full.input);
      assert Answered(j, p, w, b, price, bin, offer, w, full);
    } else {
      var n := TakeProbe(j, w, bin, probe.value).value.0;
      var (f, t) := (probe.value.fill, probe.value.totals);
      TakeExact(j, p, w, bin, probe.value);
      assert FirstAccepted(j, p, w, b, price, offer, full.input, at, f, t);
      assert TookFirst(j, p, w, b, price, bin, offer, n, full.input);
      assert Answered(j, p, w, b, price, bin, offer, n, full);
    }
  }

  lemma TakeExact(j: Job, p: Policy, w: Work, bin: Bin, probe: Probe)
    requires TakeProbe(j, w, bin, probe).Ok?
    requires AdmitTotals(j.c.direction, p, probe.totals, j.sleeveCash) == Some(probe.evidence)
    ensures WriterTakes(j, p, w, bin, probe.fill, probe.totals, TakeProbe(j, w, bin, probe).value.0)
  {
    hide AdmitTotals;
  }

  // ---- Errors -------------------------------------------------------------------------------------------------

  /** No stage reports a lack of liquidity or of output: only the closing checks do. */
  predicate StageError(e: Error) { e != InsufficientLiquidity && e != MinimumOutputNotMet }

  lemma OrdinaryErrors(j: Job, s: State, b: u16, price: u64)
    requires OrdinaryStep(j, s, b, price).Err?
    ensures StageError(OrdinaryStep(j, s, b, price).error)
  {
    hide FloorMulDiv, CeilMulDiv;
  }

  lemma {:induction false} OrdersErrors(j: Job, w: Work, b: u16, price: u64)
    requires price > 0 && TakeOrders(j, w, b, price).Err?
    ensures StageError(TakeOrders(j, w, b, price).error)
    decreases |j.src.orders| - w.s.orderCursor
  {
    OrderErrors(j, w, b, price);
    hide TakeOrder;
    var r := TakeOrder(j, w, b, price);
    if r.Ok? && !r.value.1 { OrdersErrors(j, r.value.0, b, price); }
  }

  lemma OrderErrors(j: Job, w: Work, b: u16, price: u64)
    requires OrderHere(j, w.s, b) && price > 0
    ensures TakeOrder(j, w, b, price).Err? ==> StageError(TakeOrder(j, w, b, price).error)
  {
    hide OrderQuantity, Orders.Filled;
  }

  lemma ProbeErrors(j: Job, p: Policy, w: Work, b: u16, price: u64, offer: u64, input: u64)
    ensures var r := OneProbe(j, p, w, b, price, offer, input); r.Err? ==> StageError(r.error)
    ensures var r := FillBin(j.c.direction, input, price, OfferBin(j.c, b, offer)); r.Err? ==> StageError(r.error)
  {
    hide FloorMulDiv, CeilMulDiv, AdmitTotals;
  }

  lemma {:induction false} SearchErrors(j: Job, p: Policy, w: Work, b: u16, price: u64, offer: u64, k: nat,
                                        candidate: u64)
    ensures var r := ProbeFrom(j, p, w, b, price, offer, k, candidate); r.Err? ==> StageError(r.error)
    decreases PROBES - k
  {
    hide OneProbe;
    if k < PROBES {
      var input: u64 := if k == PROBES - 1 then 1 else candidate;
      ProbeErrors(j, p, w, b, price, offer, input);
      SearchErrors(j, p, w, b, price, offer, k + 1, input / 2);
    }
  }

  lemma WriterErrors(j: Job, w: Work, b: u16, price: u64, bin: Bin)
    requires PolicyFits(j.src, j.policy) && WriterStep(j, w, b, price, bin).Err?
    ensures StageError(WriterStep(j, w, b, price, bin).error)
  {
    hide WriterWilling, WriterOffer, ProbeFrom, FillBin, OfferBin;
    var p := j.policy.value;
    var offer := WriterOffer(j.c, j.limits, p, w, bin);
    ProbeErrors(j, p, w, b, price, offer, w.s.remaining);
    var full := FillBin(j.c.direction, w.s.remaining, price, OfferBin(j.c, b, offer));
    if full.Ok? { SearchErrors(j, p, w, b, price, offer, 0, full.value.input); }
  }
}
