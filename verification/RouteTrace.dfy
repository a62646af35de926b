/** What each stage of a visit takes, stated without the search or the loop that finds it. */
module RouteTrace {
  import opened Numbers
  import opened Wrappers
  import opened DlmmMath
  import Orders
  import opened RouteAdmission
  import opened RouteModel

  // ---- Ordinary liquidity -----------------------------------------------------------------------------

  /** What an ordinary bin may give: its reserve, and on a buy no more than the route may still output. */
  function OrdinaryOffer(j: Job, s: State, bin: Bin): Bin {
    if Up(j.c) then bin.(options := Min(bin.options, Max(0, j.limits.maximumOut - s.amountOut))) else bin
  }

  /** The ordinary bin of this price, if there is one, was filled with all that remains. */
  ghost predicate OrdinaryTook(j: Job, s: State, b: u16, price: u64, w: Work) {
    if s.ordinaryIndex >= |j.src.ordinary| || j.src.ordinary[s.ordinaryIndex].id != b then w == Work(s, 0, 0)
    else exists f :: OrdinaryTakes(j, s, b, price, w, f)
  }

  ghost predicate OrdinaryTakes(j: Job, s: State, b: u16, price: u64, w: Work, f: BinFill)
    requires s.ordinaryIndex < |j.src.ordinary|
  {
    var bin := j.src.ordinary[s.ordinaryIndex];
    && FillBin(j.c.direction, s.remaining, price, OrdinaryOffer(j, s, bin)) == Ok(f)
    && f.input <= s.remaining && f.output <= Offer(j.c.direction, bin)
    && w.input == f.input && w.output == f.output
    && w.s == s.(remaining := s.remaining - f.input, ordinaryIndex := s.ordinaryIndex + 1,
                 ordinaryFills := w.s.ordinaryFills)
    && w.s.ordinaryFills
       == s.ordinaryFills + [f.(optionsAfter := if Up(j.c) then bin.options - f.output else f.optionsAfter)]
  }

  // ---- Resting orders ----------------------------------------------------------------------------------

  predicate OrderAt(j: Job, s: State, b: u16) {
    s.orderCursor < |j.src.orders| && j.src.orders[s.orderCursor].limitBin == b
  }

  /** The escrow of a witnessed order at its grid price. */
  predicate EscrowOf(o: RestingOrder, tick: u64, b: Orders.Balance) {
    && b.side == o.side && b.limit == tick * o.limitBin && b.original == o.original && b.quantity == o.quantity
    && b.input == o.input && b.claimableOption == o.claimableOption && b.claimableQuote == o.claimableQuote
  }

  /** The most both sides can trade: one more atom would exceed the order, the output cap, or the money that pays. */
  predicate GreatestTake(j: Job, w: Work, b: Orders.Balance, price: u64, q: int) {
    && 1 <= q <= b.quantity
    && (Up(j.c) ==>
          && w.s.amountOut + w.output + q <= j.limits.maximumOut && q * price <= w.s.remaining * PRICE_SCALE
          && (q == b.quantity || w.s.amountOut + w.output + q == j.limits.maximumOut
              || w.s.remaining * PRICE_SCALE < (q + 1) * price))
    && (!Up(j.c) ==>
          && q <= w.s.remaining && q * price <= b.input * PRICE_SCALE
          && (q == b.quantity || q == w.s.remaining || b.input * PRICE_SCALE < (q + 1) * price))
  }

  /** One order gave the most it could and the route moved on to the next. */
  ghost predicate OrderTakes(j: Job, w: Work, b: u16, price: u64, n: Work, e: Orders.Balance, f: OrderFill) {
    && OrderAt(j, w.s, b) && |w.s.orderFills| != j.limits.maximumOrders
    && EscrowOf(j.src.orders[w.s.orderCursor], j.c.tick, e) && f.sequence == j.src.orders[w.s.orderCursor].sequence
    && GreatestTake(j, w, e, price, f.quantity)
    && Orders.Filled(e, f.quantity, price) == Orders.Ok((f.after, f.quote))
    && n.input == w.input + (if Up(j.c) then f.quote else f.quantity)
    && n.output == w.output + (if Up(j.c) then f.quantity else f.quote)
    && n.s == w.s.(remaining := n.s.remaining, orderCursor := w.s.orderCursor + 1, orderFills := w.s.orderFills + [f])
    && n.s.remaining == w.s.remaining - (if Up(j.c) then f.quote else f.quantity)
  }

  ghost predicate OrderTook(j: Job, w: Work, b: u16, price: u64, n: Work) {
    exists e, f :: OrderTakes(j, w, b, price, n, e, f)
  }

  /** The route stops at an order: the order bound is reached, or not one atom can be traded with it. */
  ghost predicate OrderStops(j: Job, w: Work, b: u16, price: u64) {
    && w.s.remaining > 0 && OrderAt(j, w.s, b)
    && (|| |w.s.orderFills| == j.limits.maximumOrders
        || var o := j.src.orders[w.s.orderCursor];
           || o.quantity == 0
           || (Up(j.c) && (w.s.remaining * PRICE_SCALE < price || w.s.amountOut + w.output >= j.limits.maximumOut))
           || (!Up(j.c) && o.input * PRICE_SCALE < price))
  }

  /** All orders of this price in turn, until nothing remains, none is left, or one stops the route. */
  ghost predicate OrdersTook(j: Job, b: u16, price: u64, chain: seq<Work>, stopped: bool) {
    && chain != []
    && (forall i :: 0 <= i < |chain| - 1 ==> chain[i].s.remaining > 0 && OrderTook(j, chain[i], b, price, chain[i + 1]))
    && var w := chain[|chain| - 1];
       if stopped then OrderStops(j, w, b, price) else w.s.remaining == 0 || !OrderAt(j, w.s, b)
  }

  // ---- Writers ------------------------------------------------------------------------------------------

  /** What a writer bin may give: options within the output cap, or quote within all four buy-back caps. */
  function WriterMay(j: Job, p: Policy, w: Work, bin: Bin): int
    requires p.index < |p.limits|
  {
    if Up(j.c) then Min(bin.options, Max(0, j.limits.maximumOut - w.s.amountOut - w.output))
    else
      var (l, spent) := (p.limits[p.index], w.s.totals.spent);
      Min(bin.quote,
          Max(0, Min(Min(Minus(p.buyback.transactionCap, spent), Minus(l.transactionCap, spent)),
                     Min(p.buyback.monthlyCap - p.monthSpent - spent, l.monthlyCap - p.seriesMonthSpent - spent))))
  }

  /**
   * The writer is asked: it is eligible, has something to give, may still open a bin, and the price is at or above the
   * seller floor on a sale, at or below the floor less the separation on a purchase.
   */
  predicate WriterAsked(j: Job, p: Policy, w: Work, price: int, offer: int)
    requires p.index < |p.limits|
  {
    var (floor, gap) := (p.limits[p.index].sellerFloor, j.c.tick * p.buyback.separation);
    && p.eligible && offer > 0 && (w.input > 0 || |w.s.fills| < j.c.maximumBins)
    && 0 < j.c.tick && 0 < p.buyback.separation && 0 < floor && gap <= floor
    && (if Up(j.c) then floor <= price else price <= floor - gap)
  }

  /** The writer bin, offering `offer`, filled with `input`. */
  predicate FillAt(j: Job, b: u16, price: u64, offer: u64, input: u64, f: BinFill) {
    FillBin(j.c.direction, input, price, if Up(j.c) then Bin(b, offer, 0) else Bin(b, 0, offer)) == Ok(f)
  }

  predicate TotalsPlus(c: Config, t: FillTotals, f: BinFill, n: FillTotals) {
    && n.net == t.net
    && n.gross == t.gross + (if Up(c) then f.input else 0) && n.sold == t.sold + (if Up(c) then f.output else 0)
    && n.retired == t.retired + (if Up(c) then 0 else f.input) && n.spent == t.spent + (if Up(c) then 0 else f.output)
  }

  /** The fill pays something and the writer's totals with it are admitted on the full book. */
  ghost predicate Accepted(j: Job, p: Policy, w: Work, f: BinFill, t: FillTotals) {
    f.output > 0 && TotalsPlus(j.c, w.s.totals, f, t) && AdmitTotals(j.c.direction, p, t, j.sleeveCash).Some?
  }

  /** The fill of this input pays nothing, or is not admitted. */
  ghost predicate Refused(j: Job, p: Policy, w: Work, b: u16, price: u64, offer: u64, input: int) {
    && 1 <= input <= U64_MAX
    && exists f, t :: RefusedFill(j, p, w, b, price, offer, input, f, t)
  }

  ghost predicate RefusedFill(j: Job, p: Policy, w: Work, b: u16, price: u64, offer: u64, input: u64, f: BinFill,
                              t: FillTotals) {
    FillAt(j, b, price, offer, input, f) && TotalsPlus(j.c, w.s.totals, f, t) && !Accepted(j, p, w, f, t)
  }

  function Pow2(k: nat): int { if k == 0 then 1 else 2 * Pow2(k - 1) }

  const CANDIDATES: int := 8

  /** The inputs tried: all, a half, a quarter, down to a sixty-fourth, and at last one atom. */
  function Candidate(full: int, k: nat): int {
    Pow2Positive(k);
    if k == CANDIDATES - 1 then 1 else full / Pow2(k)
  }

  lemma {:induction false} Pow2Positive(k: nat)
    ensures Pow2(k) > 0
  {
    if k > 0 { Pow2Positive(k - 1); }
  }

  /** The first candidate that is accepted; all larger ones were refused. */
  ghost predicate FirstAccepted(j: Job, p: Policy, w: Work, b: u16, price: u64, offer: u64, full: u64, k: nat,
                                f: BinFill, t: FillTotals) {
    && k < CANDIDATES && 1 <= Candidate(full, k) <= U64_MAX && FillAt(j, b, price, offer, Candidate(full, k), f)
    && Accepted(j, p, w, f, t)
    && forall m :: 0 <= m < k ==> Refused(j, p, w, b, price, offer, Candidate(full, m))
  }

  ghost predicate NoneAccepted(j: Job, p: Policy, w: Work, b: u16, price: u64, offer: u64, full: u64) {
    forall k :: 0 <= k < CANDIDATES && 1 <= Candidate(full, k) ==>
                  Refused(j, p, w, b, price, offer, Candidate(full, k))
  }

  /** The accepted fill is booked: the bin gives what was paid, the evidence is the admission of the new totals. */
  ghost predicate WriterTakes(j: Job, p: Policy, w: Work, bin: Bin, f: BinFill, t: FillTotals, n: Work) {
    && f.input <= w.s.remaining && f.output <= Offer(j.c.direction, bin)
    && n.input == w.input + f.input && n.output == w.output + f.output
    && n.s == w.s.(remaining := w.s.remaining - f.input, totals := t.(net := t.gross),
                   evidence := AdmitTotals(j.c.direction, p, t, j.sleeveCash),
                   writerFills := n.s.writerFills)
    && n.s.writerFills == w.s.writerFills + [BinFill(f.id, f.input, f.output,
                                                     bin.options - (if Up(j.c) then f.output else 0),
                                                     bin.quote - (if Up(j.c) then 0 else f.output))]
  }

  /** The writer's answer: the fill of the first candidate accepted, or none when every one was refused. */
  ghost predicate Answered(j: Job, p: Policy, w: Work, b: u16, price: u64, bin: Bin, offer: u64, n: Work,
                           full: BinFill) {
    && FillAt(j, b, price, offer, w.s.remaining, full)
    && (|| (n == w && NoneAccepted(j, p, w, b, price, offer, full.input))
        || TookFirst(j, p, w, b, price, bin, offer, n, full.input))
  }

  ghost predicate TookFirst(j: Job, p: Policy, w: Work, b: u16, price: u64, bin: Bin, offer: u64, n: Work, full: u64) {
    exists k, f, t :: FirstAccepted(j, p, w, b, price, offer, full, k, f, t) && WriterTakes(j, p, w, bin, f, t, n)
  }

  /** The writer stage of a visit. */
  ghost predicate WriterTook(j: Job, w: Work, b: u16, price: u64, bin: Bin, n: Work) {
    if j.policy.None? || j.policy.value.index >= |j.policy.value.limits| then n == w
    else
      var (p, offer) := (j.policy.value, WriterMay(j, j.policy.value, w, bin));
      if !WriterAsked(j, p, w, price, offer) then n == w
      else 0 <= offer <= U64_MAX && exists full :: Answered(j, p, w, b, price, bin, offer, n, full)
  }

  /** If all that the writer may give, or all that remains, is accepted, the writer takes exactly that. */
  lemma WholeOfferTaken(j: Job, p: Policy, w: Work, b: u16, price: u64, bin: Bin, offer: u64, n: Work, full: BinFill,
                        t: FillTotals)
    requires Answered(j, p, w, b, price, bin, offer, n, full) && Accepted(j, p, w, full, t)
    ensures WriterTakes(j, p, w, bin, full, t, n)
  {
    hide FillBin, AdmitTotals, WriterTakes;
    FillAgain(j.c.direction, w.s.remaining, price, if Up(j.c) then Bin(b, offer, 0) else Bin(b, 0, offer));
    FillFacts(j.c.direction, w.s.remaining, price, if Up(j.c) then Bin(b, offer, 0) else Bin(b, 0, offer));
    assert Candidate(full.input, 0) == full.input;
    assert !Refused(j, p, w, b, price, offer, full.input);
    assert !NoneAccepted(j, p, w, b, price, offer, full.input);
    var k, f, u :| FirstAccepted(j, p, w, b, price, offer, full.input, k, f, u) && WriterTakes(j, p, w, bin, f, u, n);
    assert k == 0 && f == full && u == t;
  }

  // ---- Visits ---------------------------------------------------------------------------------------------

  /** The best price any source still has. */
  predicate BestHead(j: Job, s: State, b: int) {
    var (c, src) := (j.c, j.src);
    && (s.ordinaryIndex < |src.ordinary| ==> !Better(c, src.ordinary[s.ordinaryIndex].id, b))
    && (s.writerCursor < |src.writer| ==> !Better(c, WriterAt(c, src, s.writerCursor).id, b))
    && (s.orderCursor < |src.orders| ==> !Better(c, src.orders[s.orderCursor].limitBin, b))
    && (|| (s.ordinaryIndex < |src.ordinary| && src.ordinary[s.ordinaryIndex].id == b)
        || (s.writerCursor < |src.writer| && WriterAt(c, src, s.writerCursor).id == b)
        || (s.orderCursor < |src.orders| && src.orders[s.orderCursor].limitBin == b))
  }

  predicate WriterBinHere(j: Job, s: State, b: int) {
    s.writerCursor < |j.src.writer| && WriterAt(j.c, j.src, s.writerCursor).id == b
  }

  /** One visit: where it started, the works after the ordinary bin and each order, after the writer, and the end. */
  datatype Visited = Visited(start: State, bin: u16, price: u64, chain: seq<Work>, stopped: bool, served: Work,
                             end: State)

  /** The visit's combined fill joins the route, and the writer bin is passed. */
  ghost predicate VisitEnds(j: Job, v: Visited) {
    var (w, passed) := (v.served, if WriterBinHere(j, v.start, v.bin) then 1 else 0);
    && v.end == w.s.(writerCursor := w.s.writerCursor + passed, amountOut := v.end.amountOut, fills := v.end.fills)
    && (w.input == 0 ==> v.end.amountOut == w.s.amountOut && v.end.fills == w.s.fills)
    && (w.input > 0 ==>
          && v.end.amountOut == w.s.amountOut + w.output
          && |v.end.fills| == |w.s.fills| + 1 && v.end.fills[..|w.s.fills|] == w.s.fills
          && var f := v.end.fills[|w.s.fills|]; f.id == v.bin && f.input == w.input && f.output == w.output)
  }

  /** A visit at the best price: the ordinary bin, then the orders, then the writer unless nothing more is wanted. */
  ghost predicate VisitOk(j: Job, v: Visited) {
    && BestHead(j, v.start, v.bin) && v.price == j.c.tick * v.bin > 0
    && OrdersTook(j, v.bin, v.price, v.chain, v.stopped)
    && OrdinaryTook(j, v.start, v.bin, v.price, v.chain[0])
    && (var w := v.chain[|v.chain| - 1];
        if w.s.remaining == 0 || v.stopped || !WriterBinHere(j, v.start, v.bin) then v.served == w
        else WriterTook(j, w, v.bin, v.price, WriterAt(j.c, j.src, v.start.writerCursor), v.served))
    && VisitEnds(j, v)
  }

  // ---- Routes ---------------------------------------------------------------------------------------------

  /** The route may visit another price. */
  predicate GoesOn(j: Job, s: State, b: int) {
    && s.remaining > 0 && |s.fills| < j.c.maximumBins && !(Up(j.c) && s.amountOut == j.limits.maximumOut)
    && !Better(j.c, j.c.limitBin, b) && (j.c.unloaded.None? || Better(j.c, b, j.c.unloaded.value))
  }

  /** Nothing remains, no source is left, a bound is reached, or the best price is past the limit. */
  ghost predicate RouteEnds(j: Job, s: State) {
    || s.remaining == 0 || !HasHead(j.src, s) || |s.fills| == j.c.maximumBins
    || (Up(j.c) && s.amountOut == j.limits.maximumOut)
    || exists b: int :: BestHead(j, s, b) && Better(j.c, j.c.limitBin, b)
  }

  /** Consecutive visits from the empty state, each allowed and none but the last stopped by an order. */
  ghost predicate Linked(j: Job, trace: seq<Visited>, s: State) {
    && (if trace == [] then s == State(j.c.amountIn, 0, 0, 0, [], [], [], [], 0, NOTHING, None)
        else trace[0].start == State(j.c.amountIn, 0, 0, 0, [], [], [], [], 0, NOTHING, None)
             && trace[|trace| - 1].end == s)
    && (forall i :: 0 <= i < |trace| - 1 ==> trace[i].end == trace[i + 1].start && !trace[i].stopped)
    && (forall i :: 0 <= i < |trace| ==> VisitOk(j, trace[i]) && GoesOn(j, trace[i].start, trace[i].bin))
  }

  /** The state of a finished loop: visits to the end, and a reason to end. */
  ghost predicate Traced(j: Job, s: State) {
    exists trace: seq<Visited> :: Linked(j, trace, s)
                                  && (RouteEnds(j, s) || (trace != [] && trace[|trace| - 1].stopped))
  }
}
