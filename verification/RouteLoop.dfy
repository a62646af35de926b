/** The routing loop: one visit per price, each stage of a bin, and the finished quote. */
module RouteLoop {
  import opened Numbers
  import opened Wrappers
  import opened DlmmMath
  import Orders
  import opened RouteAdmission
  import opened RouteModel
  import opened RouteSteps
  import opened RoutePriority
  import PreparedReserve

  type Prepared = PreparedReserve.Prepared

  predicate Kept(j: Job, w: Work) { Accounts(j.c, j.limits, j.src, j.policy, j.sleeveCash, w) }

  predicate In(j: Job, s0: State, w: Work, b: u16) { Inside(j.c, j.limits, j.src, s0, w, b) }

  predicate CanBuy(j: Job, s: State) { s.remaining > 0 && !(Up(j.c) && s.amountOut == j.limits.maximumOut) }

  lemma KeptFacts(j: Job, w: Work)
    requires Kept(j, w)
    ensures Up(j.c) ==> w.s.amountOut + w.output <= j.limits.maximumOut
    ensures Shape(j.c, j.src, w.s)
  {
    hide Flow, TotalsOk, EvidenceOk;
  }

  // ---- Ordinary stage ---------------------------------------------------------------------------------

  /** The ordinary head of this price, if any, and its reserves afterwards. */
  function OrdinaryStep(j: Job, s: State, b: u16, price: u64): Result<(Work, u64, u64)> {
    if s.ordinaryIndex >= |j.src.ordinary| || j.src.ordinary[s.ordinaryIndex].id != b then Ok((Work(s, 0, 0), 0, 0))
    else
      var f :- OrdinaryFill(j.c, j.limits, s, j.src.ordinary[s.ordinaryIndex], price);
      if f.input > s.remaining then Err(ArithmeticOverflow) else Ok((AfterOrdinary(s, f), f.optionsAfter, f.quoteAfter))
  }

  method OrdinaryStage(j: Job, s: State, b: u16, price: u64) returns (r: Result<(Work, u64, u64)>)
    requires Kept(j, Work(s, 0, 0)) && In(j, s, Work(s, 0, 0), b) && CanBuy(j, s) && price == j.c.tick * b
    requires OrdinarySorted(j.c, j.src.ordinary)
    requires s.ordinaryIndex < |j.src.ordinary| ==> !Better(j.c, j.src.ordinary[s.ordinaryIndex].id, b)
    ensures r == OrdinaryStep(j, s, b, price)
    ensures r.Ok? ==>
              var w := r.value.0;
              && Kept(j, w) && In(j, s, w, b) && w.s.orderCursor == s.orderCursor
                 && w.s.ordinaryIndex >= s.ordinaryIndex
              && (w.s.ordinaryIndex < |j.src.ordinary| ==> Better(j.c, b, j.src.ordinary[w.s.ordinaryIndex].id))
              && (w.s.ordinaryIndex == s.ordinaryIndex ==> w.s == s)
  {
    KeptFacts(j, Work(s, 0, 0));
    if s.ordinaryIndex >= |j.src.ordinary| || j.src.ordinary[s.ordinaryIndex].id != b {
      return Ok((Work(s, 0, 0), 0, 0));
    }
    var bin := j.src.ordinary[s.ordinaryIndex];
    var fill := OrdinaryFill(j.c, j.limits, s, bin, price);
    if fill.Err? { return Err(fill.error); }
    OrdinaryFacts(j.c, j.limits, s, bin, price);
    hide Accounts, Inside, OrdinaryFill, Drained, Dust;
    assert fill.value.input >= 1;
    OrdinaryAccounts(j.c, j.limits, j.src, j.policy, j.sleeveCash, s, fill.value);
    OrdinaryInside(j.c, j.limits, j.src, s, fill.value, b);
    var w := AfterOrdinary(s, fill.value);
    if w.s.ordinaryIndex < |j.src.ordinary| { OrdinaryPairs(j.c, j.src.ordinary, s.ordinaryIndex, w.s.ordinaryIndex); }
    return Ok((w, fill.value.optionsAfter, fill.value.quoteAfter));
  }

  // ---- Order stage --------------------------------------------------------------------------------------

  predicate OrderHere(j: Job, s: State, b: u16) {
    s.orderCursor < |j.src.orders| && j.src.orders[s.orderCursor].limitBin == b
  }

  /** One order of this price; true means that a bound stops the route here. */
  function TakeOrder(j: Job, w: Work, b: u16, price: u64): (r: Result<(Work, bool)>)
    requires OrderHere(j, w.s, b) && price > 0
    ensures r.Ok? && !r.value.1 ==> r.value.0.s.orderCursor == w.s.orderCursor + 1
  {
    if |w.s.orderFills| == j.limits.maximumOrders then Ok((w, true))
    else
      var order := j.src.orders[w.s.orderCursor];
      var balance :- BalanceOf(order, j.c.tick);
      var quantity := OrderQuantity(j.c, j.limits, w, balance, price);
      if quantity == 0 then Ok((w, true))
      else
        var filled := Orders.Filled(balance, quantity, price);
        if filled.Err? then Err(InvalidRoute)
        else
          var next :- AfterOrder(j.c, w, order, quantity, filled.value.1, filled.value.0);
          Ok((next, false))
  }

  method OneOrder(j: Job, ghost s0: State, w: Work, b: u16, price: u64) returns (r: Result<(Work, bool)>)
    requires Kept(j, w) && In(j, s0, w, b) && w.s.remaining > 0 && OrderHere(j, w.s, b) && price > 0
             && price == j.c.tick * b
    requires forall i :: 0 <= i < |j.src.orders| ==> OrderUsable(j.c, j.src.orders[i])
    ensures r == TakeOrder(j, w, b, price)
    ensures r.Ok? ==>
              var n := r.value.0;
              && Kept(j, n) && In(j, s0, n, b) && n.s.ordinaryIndex == w.s.ordinaryIndex
              && (if r.value.1 then n == w else n.s.orderCursor == w.s.orderCursor + 1)
  {
    KeptFacts(j, w);
    hide Kept, In, OrderUsable, Orders.Filled, OrderQuantity, BalanceOf, AfterOrder;
    if |w.s.orderFills| == j.limits.maximumOrders { return Ok((w, true)); }
    var order := j.src.orders[w.s.orderCursor];
    var balance := BalanceOf(order, j.c.tick);
    if balance.Err? { return Err(balance.error); }
    var quantity := OrderQuantity(j.c, j.limits, w, balance.value, price);
    if quantity == 0 { return Ok((w, true)); }
    var filled := Orders.Filled(balance.value, quantity, price);
    if filled.Err? { return Err(InvalidRoute); }
    var (after, quote) := filled.value;
    var next := AfterOrder(j.c, w, order, quantity, quote, after);
    if next.Err? { return Err(next.error); }
    OrderStep(j, s0, w, b, price);
    return Ok((next.value, false));
  }

  /** Taking an order keeps the accounts and the order of service. */
  lemma OrderStep(j: Job, s0: State, w: Work, b: u16, price: u64)
    requires Kept(j, w) && In(j, s0, w, b) && w.s.remaining > 0 && OrderHere(j, w.s, b) && price > 0
             && price == j.c.tick * b
    requires |w.s.orderFills| != j.limits.maximumOrders && OrderUsable(j.c, j.src.orders[w.s.orderCursor])
    requires Up(j.c) ==> w.s.amountOut + w.output <= j.limits.maximumOut
    requires var balance := BalanceOf(j.src.orders[w.s.orderCursor], j.c.tick);
             && balance.Ok?
             && var q := OrderQuantity(j.c, j.limits, w, balance.value, price);
                && q > 0 && Orders.Filled(balance.value, q, price).Ok?
                && var (after, quote) := Orders.Filled(balance.value, q, price).value;
                   AfterOrder(j.c, w, j.src.orders[w.s.orderCursor], q, quote, after).Ok?
    ensures var balance := BalanceOf(j.src.orders[w.s.orderCursor], j.c.tick).value;
            var q := OrderQuantity(j.c, j.limits, w, balance, price);
            var (after, quote) := Orders.Filled(balance, q, price).value;
            var n := AfterOrder(j.c, w, j.src.orders[w.s.orderCursor], q, quote, after).value;
            Kept(j, n) && In(j, s0, n, b) && n.s.ordinaryIndex == w.s.ordinaryIndex
                && n.s.orderCursor == w.s.orderCursor + 1
  {
    OrdersLeft(j, w);
    hide Accounts, Inside, Dust, Orders.Filled, OrderQuantity, OrderKept, BalanceOf, OrderUsable;
    var order := j.src.orders[w.s.orderCursor];
    var balance := BalanceOf(order, j.c.tick).value;
    var q := OrderQuantity(j.c, j.limits, w, balance, price);
    var (after, quote) := Orders.Filled(balance, q, price).value;
    OrderFacts(j.c, j.limits, w, order, price);
    QuotePositive(balance, q, price);
    NotFull(j.c, j.limits, w, balance, price);
    OrderAccounts(j.c, j.limits, j.src, j.policy, j.sleeveCash, w, q, quote, after);
    OrderInside(j.c, j.limits, j.src, s0, w, order, q, quote, after, b);
  }

  lemma NotFull(c: Config, limits: Limits, w: Work, b: Orders.Balance, price: u64)
    requires price > 0 && (Up(c) ==> w.s.amountOut + w.output <= limits.maximumOut)
             && OrderQuantity(c, limits, w, b, price) > 0
    ensures !(Up(c) && w.s.amountOut + w.output == limits.maximumOut)
  {}

  lemma OrdersLeft(j: Job, w: Work)
    requires Kept(j, w) && |w.s.orderFills| != j.limits.maximumOrders
    ensures |w.s.orderFills| < j.limits.maximumOrders
  {
    hide Flow, TotalsOk, EvidenceOk, SourcesKept;
  }

  lemma QuotePositive(b: Orders.Balance, quantity: u64, price: u64)
    requires Orders.Filled(b, quantity, price).Ok?
    ensures quantity > 0 && Orders.Filled(b, quantity, price).value.1 > 0
  {
    Orders.QuoteBounds(quantity, price);
    hide Orders.QuoteOf, Orders.Released;
  }

  /** All orders of this price, until the trader has nothing left or a bound is hit. */
  function TakeOrders(j: Job, w: Work, b: u16, price: u64): Result<(Work, bool)>
    requires price > 0
    decreases |j.src.orders| - w.s.orderCursor
  {
    if w.s.remaining == 0 || !OrderHere(j, w.s, b) then Ok((w, false))
    else
      var (n, hit) :- TakeOrder(j, w, b, price);
      if hit then Ok((w, true)) else TakeOrders(j, n, b, price)
  }

  method OrderStage(j: Job, ghost s0: State, w0: Work, b: u16, price: u64) returns (r: Result<(Work, bool)>)
    requires Kept(j, w0) && In(j, s0, w0, b) && price > 0 && price == j.c.tick * b && SourcesSorted(j.c, j.src)
    requires w0.s.orderCursor < |j.src.orders| ==> !Better(j.c, j.src.orders[w0.s.orderCursor].limitBin, b)
    ensures r == TakeOrders(j, w0, b, price)
    ensures r.Ok? ==>
              var w := r.value.0;
              && Kept(j, w) && In(j, s0, w, b) && w.s.ordinaryIndex == w0.s.ordinaryIndex
                 && w.s.orderCursor >= w0.s.orderCursor
              && (!r.value.1 && w.s.remaining > 0 && w.s.orderCursor < |j.src.orders| ==>
                  Better(j.c, b, j.src.orders[w.s.orderCursor].limitBin))
              && (!r.value.1 && w0.s.remaining > 0 && OrderHere(j, w0.s, b) ==> w.s.orderCursor > w0.s.orderCursor)
  {
    hide Kept, In, TakeOrder;
    var w := w0;
    while w.s.remaining > 0 && OrderHere(j, w.s, b)
      invariant TakeOrders(j, w, b, price) == TakeOrders(j, w0, b, price)
      invariant Kept(j, w) && In(j, s0, w, b) && w.s.ordinaryIndex == w0.s.ordinaryIndex
                && w0.s.orderCursor <= w.s.orderCursor
      invariant w.s.orderCursor == w0.s.orderCursor ==> w == w0
      invariant w.s.orderCursor < |j.src.orders| ==> !Better(j.c, j.src.orders[w.s.orderCursor].limitBin, b)
      decreases |j.src.orders| - w.s.orderCursor
    {
      var step := OneOrder(j, s0, w, b, price);
      if step.Err? { return Err(step.error); }
      if step.value.1 { return Ok((w, true)); }
      if w.s.orderCursor + 1 < |j.src.orders| { OrderPairs(j.c, j.src.orders, w.s.orderCursor, w.s.orderCursor + 1); }
      w := step.value.0;
    }
    return Ok((w, false));
  }

  // ---- Writer stage ---------------------------------------------------------------------------------------

  const PROBES: int := 8

  datatype Probe = Probe(fill: BinFill, totals: FillTotals, evidence: Evidence)

  /** A probe that was admitted: a real fill of the offer, with its own full-book admission. */
  predicate Admissible(j: Job, p: Policy, w: Work, b: u16, offer: u64, probe: Probe) {
    && probe.fill.id == b && 1 <= probe.fill.input <= w.s.remaining && 0 < probe.fill.output <= offer
    && TotalsWith(j.c, w.s.totals, probe.fill) == Ok(probe.totals)
    && AdmitTotals(j.c.direction, p, probe.totals, j.sleeveCash) == Some(probe.evidence)
    && !Dust(j.c, w.s.remaining, b)
  }

  lemma ProbeFacts(c: Config, b: u16, price: u64, offer: u64, remaining: u64, input: u64)
    requires price == c.tick * b && 1 <= input <= remaining
             && FillBin(c.direction, input, price, OfferBin(c, b, offer)).Ok?
    ensures var f := FillBin(c.direction, input, price, OfferBin(c, b, offer)).value;
            && f.id == b && 1 <= f.input <= input && f.output <= offer && (f.output > 0 ==> !Dust(c, remaining, b))
  {
    FillFacts(c.direction, input, price, OfferBin(c, b, offer));
    if Dust(c, remaining, b) {
      DustStays(c, remaining, input, b);
      DustBuysNothing(c.direction, input, price, OfferBin(c, b, offer));
    }
    hide FillBin;
  }

  /** One candidate input: its fill, the totals with it, and their full-book admission. */
  function OneProbe(j: Job, p: Policy, w: Work, b: u16, price: u64, offer: u64, input: u64): Result<Option<Probe>> {
    var fill :- FillBin(j.c.direction, input, price, OfferBin(j.c, b, offer));
    var totals :- TotalsWith(j.c, w.s.totals, fill);
    var evidence := if fill.output > 0 then AdmitTotals(j.c.direction, p, totals, j.sleeveCash) else None;
    Ok(if evidence.Some? then Some(Probe(fill, totals, evidence.value)) else None)
  }

  /** The bounded search: a candidate, geometric reductions, then the smallest input. */
  function ProbeFrom(j: Job, p: Policy, w: Work, b: u16, price: u64, offer: u64, probe: nat,
                     candidate: u64): Result<Option<Probe>>
    decreases PROBES - probe
  {
    if probe >= PROBES then Ok(None)
    else
      var input := if probe == PROBES - 1 then 1 else candidate;
      var found :- OneProbe(j, p, w, b, price, offer, input);
      if found.Some? || input <= 1 then Ok(found)
      else ProbeFrom(j, p, w, b, price, offer, probe + 1, input / 2)
  }

  function ProbeAll(j: Job, p: Policy, w: Work, b: u16, price: u64, offer: u64): Result<Option<Probe>> {
    var full :- FillBin(j.c.direction, w.s.remaining, price, OfferBin(j.c, b, offer));
    ProbeFrom(j, p, w, b, price, offer, 0, full.input)
  }

  method ProbeOnce(j: Job, p: Policy, w: Work, b: u16, price: u64, offer: u64, input: u64, prepared: Option<Prepared>)
      returns (r: Result<Option<Probe>>)
    requires price == j.c.tick * b && 1 <= input <= w.s.remaining && (prepared.Some? ==> CacheFor(prepared.value, p))
    ensures r == OneProbe(j, p, w, b, price, offer, input)
    ensures r.Ok? && r.value.Some? ==> Admissible(j, p, w, b, offer, r.value.value)
  {
    hide CacheFor, AdmitTotals, TotalsWith, Dust, FillBin;
    var fill := FillBin(j.c.direction, input, price, OfferBin(j.c, b, offer));
    if fill.Err? { return Err(fill.error); }
    ProbeFacts(j.c, b, price, offer, w.s.remaining, input);
    var totals := TotalsWith(j.c, w.s.totals, fill.value);
    if totals.Err? { return Err(totals.error); }
    if fill.value.output > 0 {
      var evidence := AdmitTotalsWith(j.c.direction, p, totals.value, prepared, j.sleeveCash);
      if evidence.Some? { return Ok(Some(Probe(fill.value, totals.value, evidence.value))); }
    }
    return Ok(None);
  }

  /** The same search through a cache of the policy's book. */
  method ProbeWriter(j: Job, p: Policy, w: Work, b: u16, price: u64, offer: u64, prepared: Option<Prepared>)
      returns (r: Result<Option<Probe>>)
    requires price == j.c.tick * b && w.s.remaining > 0 && (prepared.Some? ==> CacheFor(prepared.value, p))
    ensures r == ProbeAll(j, p, w, b, price, offer)
    ensures r.Ok? && r.value.Some? ==> Admissible(j, p, w, b, offer, r.value.value)
  {
    hide CacheFor, FillBin, OneProbe, Admissible, OfferBin;
    var full := FillBin(j.c.direction, w.s.remaining, price, OfferBin(j.c, b, offer));
    if full.Err? { return Err(full.error); }
    ProbeFacts(j.c, b, price, offer, w.s.remaining, w.s.remaining);
    var input: u64 := full.value.input;
    var probe := 0;
    while probe < PROBES
      invariant 0 <= probe <= PROBES && 1 <= input <= w.s.remaining
      invariant ProbeFrom(j, p, w, b, price, offer, probe, input) == ProbeAll(j, p, w, b, price, offer)
    {
      if probe == PROBES - 1 { input := 1; }
      var found := ProbeOnce(j, p, w, b, price, offer, input, prepared);
      if found.Err? { return Err(found.error); }
      if found.value.Some? || input <= 1 { return found; }
      input := input / 2;
      probe := probe + 1;
    }
    return Ok(None);
  }

  /** Whether the writer is asked at all. */
  predicate WriterWilling(j: Job, p: Policy, w: Work, price: u64, bin: Bin)
    requires p.index < |p.limits|
  {
    WriterOffer(j.c, j.limits, p, w, bin) > 0 && p.eligible && (w.input > 0 || |w.s.fills| < j.c.maximumBins)
        && PriceEligible(j.c, p, price)
  }

  /** The writer head of this price, after everything else at this price, and its reserves afterwards. */
  function WriterStep(j: Job, w: Work, b: u16, price: u64, bin: Bin): Result<(Work, u64, u64)>
    requires PolicyFits(j.src, j.policy)
  {
    if j.policy.None? || !WriterWilling(j, j.policy.value, w, price, bin) then Ok((w, bin.options, bin.quote))
    else
      var probe :- ProbeAll(j, j.policy.value, w, b, price, WriterOffer(j.c, j.limits, j.policy.value, w, bin));
      if probe.None? then Ok((w, bin.options, bin.quote)) else TakeProbe(j, w, bin, probe.value)
  }

  /** Recording an admitted probe. */
  function TakeProbe(j: Job, w: Work, bin: Bin, probe: Probe): Result<(Work, u64, u64)> {
    if probe.fill.output > (if Up(j.c) then bin.options else bin.quote) then Err(ArithmeticOverflow)
    else
      var fill := WriterFill(j.c, bin, probe.fill);
      var next :- AfterWriter(w, fill, probe.totals.(net := probe.totals.gross), probe.evidence);
      Ok((next, fill.optionsAfter, fill.quoteAfter))
  }

  method WriterStage(j: Job, ghost s0: State, w: Work, b: u16, price: u64, bin: Bin, prepared: Option<Prepared>)
      returns (r: Result<(Work, u64, u64)>)
    requires Kept(j, w) && In(j, s0, w, b) && w.s.remaining > 0 && price == j.c.tick * b && bin.id == b
    requires SourcesSorted(j.c, j.src) && PastBin(j.c, j.src, w.s, b) && PolicyFits(j.src, j.policy)
    requires prepared.Some? ==> j.policy.Some? && CacheFor(prepared.value, j.policy.value)
    ensures r == WriterStep(j, w, b, price, bin)
    ensures r.Ok? ==>
              var n := r.value.0;
              Kept(j, n) && In(j, s0, n, b) && n.s.ordinaryIndex == w.s.ordinaryIndex
                  && n.s.orderCursor == w.s.orderCursor
  {
    KeptFacts(j, w);
    hide Accounts, Inside, CacheFor, Budget;
    if j.policy.None? { return Ok((w, bin.options, bin.quote)); }
    var p := j.policy.value;
    var offer := WriterOffer(j.c, j.limits, p, w, bin);
    if offer == 0 || !p.eligible || !(w.input > 0 || |w.s.fills| < j.c.maximumBins) || !PriceEligible(j.c, p, price) {
      return Ok((w, bin.options, bin.quote));
    }
    hide ProbeAll, TakeProbe, Admissible, PriceEligible;
    var probe := ProbeWriter(j, p, w, b, price, offer, prepared);
    if probe.Err? { return Err(probe.error); }
    if probe.value.None? { return Ok((w, bin.options, bin.quote)); }
    OfferBounds(j.c, j.limits, p, w, bin);
    r := AdmitWriter(j, s0, w, b, bin, probe.value.value, offer);
  }

  lemma OfferBounds(c: Config, limits: Limits, p: Policy, w: Work, bin: Bin)
    requires p.index < |p.limits| && (Up(c) ==> w.s.amountOut + w.output <= limits.maximumOut)
             && WriterOffer(c, limits, p, w, bin) > 0
    ensures var offer := WriterOffer(c, limits, p, w, bin);
            && offer <= (if Up(c) then bin.options else bin.quote)
            && (Up(c) ==> w.s.amountOut + w.output + offer <= limits.maximumOut)
            && !(Up(c) && w.s.amountOut + w.output == limits.maximumOut)
  {}

  method AdmitWriter(j: Job, ghost s0: State, w: Work, b: u16, bin: Bin, probe: Probe, offer: u64)
      returns (r: Result<(Work, u64, u64)>)
    requires Kept(j, w) && In(j, s0, w, b) && w.s.remaining > 0 && j.policy.Some? && Shape(j.c, j.src, w.s)
    requires SourcesSorted(j.c, j.src) && PastBin(j.c, j.src, w.s, b)
    requires Admissible(j, j.policy.value, w, b, offer, probe) && offer <= (if Up(j.c) then bin.options else bin.quote)
    requires Up(j.c) ==> w.s.amountOut + w.output + offer <= j.limits.maximumOut
    requires !(Up(j.c) && w.s.amountOut + w.output == j.limits.maximumOut)
    ensures r == TakeProbe(j, w, bin, probe)
    ensures r.Ok? ==>
              var n := r.value.0;
              Kept(j, n) && In(j, s0, n, b) && n.s.ordinaryIndex == w.s.ordinaryIndex
                  && n.s.orderCursor == w.s.orderCursor
  {
    hide Accounts, Inside, Shape, SourcesSorted, PastBin, AdmitTotals, Dust;
    var fill := WriterFill(j.c, bin, probe.fill);
    SameTotals(j.c, w.s.totals, probe.fill, fill);
    hide TotalsWith;
    var totals := probe.totals.(net := probe.totals.gross);
    var next := AfterWriter(w, fill, totals, probe.evidence);
    if next.Err? { return Err(next.error); }
    WriterAccounts(j.c, j.limits, j.src, j.policy, j.sleeveCash, w, fill, probe.evidence);
    WriterInside(j.c, j.limits, j.src, s0, w, fill, totals, probe.evidence, b);
    return Ok((next.value, fill.optionsAfter, fill.quoteAfter));
  }

  lemma SameTotals(c: Config, t: FillTotals, f: BinFill, g: BinFill)
    requires f.input == g.input && f.output == g.output
    ensures TotalsWith(c, t, f) == TotalsWith(c, t, g)
  {}
}
