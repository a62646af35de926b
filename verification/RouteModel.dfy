/** One price-ordered route over ordinary bins, resting orders and writer bins: inputs, state and what it must keep. */
module RouteModel {
  import opened Numbers
  import opened Wrappers
  import opened Sums
  import opened DlmmMath
  import Orders
  import opened RouteAdmission

  datatype Config = Config(
    direction: Direction, amountIn: u64, minimumOut: u64, limitBin: u16, tick: u64, maximumBin: u16, maximumBins: u8,
    unloaded: Option<u16>)

  datatype Limits = Limits(allowPartial: bool, maximumOut: u64, maximumOrders: nat)

  datatype RestingOrder = RestingOrder(sequence: u64, limitBin: u16, side: Orders.Side, original: u64, quantity: u64,
                                       input: u64, claimableOption: u64, claimableQuote: u64)

  /** The three liquidity sources; ordinary bins and orders in traversal order, writer bins ascending. */
  datatype Sources = Sources(ordinary: seq<Bin>, writer: seq<Bin>, orders: seq<RestingOrder>)

  datatype OrderFill = OrderFill(sequence: u64, quantity: u64, quote: u64, after: Orders.Balance)

  datatype State = State(
    remaining: u64, ordinaryIndex: nat, writerCursor: nat, orderCursor: nat,
    ordinaryFills: seq<BinFill>, orderFills: seq<OrderFill>, writerFills: seq<BinFill>, fills: seq<BinFill>,
    amountOut: u64, totals: FillTotals, evidence: Option<Evidence>)

  /** The state inside one bin, with what that bin has taken and paid so far. */
  datatype Work = Work(s: State, input: u64, output: u64)

  /** Everything a route works on besides its own state. */
  datatype Job = Job(c: Config, limits: Limits, src: Sources, policy: Option<Policy>, sleeveCash: bool)

  /** A finished route: what it took, and the final state with every fill. */
  datatype Route = Route(amountIn: u64, s: State)

  /** Buying options climbs the bins. */
  predicate Up(c: Config) { c.direction.QuoteForOption? }

  /** A strictly better price for the trader. */
  predicate Better(c: Config, a: int, b: int) { if Up(c) then a < b else b < a }

  function BestOf(c: Config, a: u16, b: u16): u16 { if Up(c) then Min(a, b) else Max(a, b) }

  /** `DlmmOrder::balance`. */
  function BalanceOf(o: RestingOrder, tick: u64): Result<Orders.Balance> {
    if tick * o.limitBin > U64_MAX then Err(InvalidRoute)
    else
      MulMono(0, tick, o.limitBin);
      Ok(Orders.Balance(o.side, tick * o.limitBin, o.original, o.quantity, o.input, o.claimableOption,
                        o.claimableQuote))
  }

  // ---- Validation ------------------------------------------------------------------------------------

  const MAXIMUM_BINS: int := 8
  const WRITER_BINS: int := 32
  const ORDINARY_BINS: int := 256
  const ORDER_WITNESSES: int := 24
  const MAX_ORDER_FILLS: int := 8

  predicate OrdersSorted(c: Config, orders: seq<RestingOrder>) {
    forall i :: 0 <= i < |orders| - 1 ==>
                  && !Better(c, orders[i + 1].limitBin, orders[i].limitBin)
                  && (orders[i].limitBin == orders[i + 1].limitBin ==> orders[i].sequence < orders[i + 1].sequence)
  }

  predicate OrderUsable(c: Config, o: RestingOrder) {
    o.side == (if Up(c) then Orders.Ask else Orders.Bid) && o.input != 0 && o.quantity != 0
  }

  predicate OrdinarySorted(c: Config, bins: seq<Bin>) {
    forall i :: 0 <= i < |bins| - 1 ==> Better(c, bins[i].id, bins[i + 1].id)
  }

  predicate WriterSorted(bins: seq<Bin>) {
    forall i :: 0 <= i < |bins| - 1 ==> bins[i].id < bins[i + 1].id
  }

  predicate PolicyFits(src: Sources, policy: Option<Policy>) {
    if policy.None? then src.writer == []
    else policy.value.index < |policy.value.book| && |policy.value.book| == |policy.value.limits|
  }

  predicate SourcesSorted(c: Config, src: Sources) {
    && OrdersSorted(c, src.orders) && (forall i :: 0 <= i < |src.orders| ==> OrderUsable(c, src.orders[i]))
    && OrdinarySorted(c, src.ordinary) && WriterSorted(src.writer)
  }

  predicate SizesOk(c: Config, src: Sources, limits: Limits) {
    && 0 < c.maximumBins <= MAXIMUM_BINS && (limits.allowPartial || c.minimumOut != 0)
    && |src.writer| <= WRITER_BINS && |src.ordinary| <= ORDINARY_BINS && |src.orders| <= ORDER_WITNESSES
    && 0 < limits.maximumOrders <= MAX_ORDER_FILLS
  }

  /** `validate_route_sources`. */
  predicate Validated(c: Config, src: Sources, policy: Option<Policy>, limits: Limits) {
    SizesOk(c, src, limits) && PolicyFits(src, policy) && SourcesSorted(c, src)
  }

  // ---- Sums over the fills ----------------------------------------------------------------------------

  function InputOf(): BinFill -> int { (f: BinFill) => f.input }

  function OutputOf(): BinFill -> int { (f: BinFill) => f.output }

  function OrderInput(c: Config): OrderFill -> int { (f: OrderFill) => if Up(c) then f.quote else f.quantity }

  function OrderOutput(c: Config): OrderFill -> int { (f: OrderFill) => if Up(c) then f.quantity else f.quote }

  /** Everything taken from and paid to the trader, source by source. */
  function SourceIn(c: Config, s: State): int {
    Sum(s.ordinaryFills, InputOf()) + Sum(s.orderFills, OrderInput(c)) + Sum(s.writerFills, InputOf())
  }

  function SourceOut(c: Config, s: State): int {
    Sum(s.ordinaryFills, OutputOf()) + Sum(s.orderFills, OrderOutput(c)) + Sum(s.writerFills, OutputOf())
  }

  // ---- What the route keeps ----------------------------------------------------------------------------

  /** Conservation: the trader's input is what remains plus what the bins took, and the bins are their sources. */
  predicate Flow(c: Config, w: Work) {
    var s := w.s;
    && s.remaining + Sum(s.fills, InputOf()) + w.input == c.amountIn
    && s.amountOut == Sum(s.fills, OutputOf())
    && Sum(s.fills, InputOf()) + w.input == SourceIn(c, s)
    && s.amountOut + w.output == SourceOut(c, s)
  }

  /** The writer's running totals are the sums over its fills. */
  predicate TotalsOk(c: Config, s: State) {
    && s.totals.net == s.totals.gross
    && (Up(c) ==> s.totals.gross == Sum(s.writerFills, InputOf()) && s.totals.sold == Sum(s.writerFills, OutputOf())
                  && s.totals.retired == 0 && s.totals.spent == 0)
    && (!Up(c) ==> s.totals.retired == Sum(s.writerFills, InputOf()) && s.totals.spent == Sum(s.writerFills, OutputOf())
                   && s.totals.gross == 0 && s.totals.sold == 0)
  }

  /** The evidence exists exactly when the writer filled, and admits exactly the totals so far. */
  predicate EvidenceOk(c: Config, policy: Option<Policy>, sleeveCash: bool, s: State) {
    && (s.evidence.Some? <==> s.writerFills != [])
    && (s.evidence.Some? ==> policy.Some? && AdmitTotals(c.direction, policy.value, s.totals, sleeveCash) == s.evidence)
  }

  /** An ordinary bin after its fill: reserves moved by the exchange, value at its own price not lower. */
  predicate OrdinaryKept(c: Config, bin: Bin, f: BinFill) {
    && f.id == bin.id && f.input >= 1
    && (Up(c) ==> f.optionsAfter == bin.options - f.output && f.quoteAfter == bin.quote + f.input)
    && (!Up(c) ==> f.optionsAfter == bin.options + f.input && f.quoteAfter == bin.quote - f.output)
    && BinValue(bin.options, bin.quote, c.tick * bin.id) <= BinValue(f.optionsAfter, f.quoteAfter, c.tick * bin.id)
  }

  /** An order fill is the order's own escrow step at its limit price. */
  predicate OrderKept(c: Config, o: RestingOrder, f: OrderFill) {
    && f.sequence == o.sequence && f.quantity >= 1 && BalanceOf(o, c.tick).Ok?
    && Orders.Filled(BalanceOf(o, c.tick).value, f.quantity, BalanceOf(o, c.tick).value.limit)
       == Orders.Ok((f.after, f.quote))
  }

  predicate Shape(c: Config, src: Sources, s: State) {
    && s.ordinaryIndex == |s.ordinaryFills| <= |src.ordinary|
    && s.orderCursor == |s.orderFills| <= |src.orders|
    && s.writerCursor <= |src.writer|
  }

  predicate SourcesKept(c: Config, src: Sources, s: State) {
    && Shape(c, src, s)
    && (forall i :: 0 <= i < |s.ordinaryFills| ==> OrdinaryKept(c, src.ordinary[i], s.ordinaryFills[i]))
    && (forall j :: 0 <= j < |s.orderFills| ==> OrderKept(c, src.orders[j], s.orderFills[j]))
  }

  predicate MaximumOk(c: Config, limits: Limits, w: Work) {
    && (Up(c) ==> w.s.amountOut + w.output <= limits.maximumOut)
    && |w.s.orderFills| <= limits.maximumOrders
  }

  /** The accounting part of the invariant. */
  predicate Accounts(c: Config, limits: Limits, src: Sources, policy: Option<Policy>, sleeveCash: bool, w: Work) {
    && Flow(c, w) && TotalsOk(c, w.s) && EvidenceOk(c, policy, sleeveCash, w.s) && SourcesKept(c, src, w.s)
       && MaximumOk(c, limits, w)
  }

  // ---- Price priority ------------------------------------------------------------------------------------

  predicate Drained(c: Config, f: BinFill) { if Up(c) then f.optionsAfter == 0 else f.quoteAfter == 0 }

  predicate Exhausted(f: OrderFill) { f.after.quantity == 0 }

  /** Ordinary bins and orders strictly better than `b` have nothing left. */
  predicate ClearBefore(c: Config, src: Sources, s: State, b: int) {
    && (forall i :: 0 <= i < |src.ordinary| && Better(c, src.ordinary[i].id, b) ==>
                    i < |s.ordinaryFills| && Drained(c, s.ordinaryFills[i]))
    && (forall j :: 0 <= j < |src.orders| && Better(c, src.orders[j].limitBin, b) ==>
                    j < |s.orderFills| && Exhausted(s.orderFills[j]))
  }

  /** Ordinary bins and orders at `b` or better have nothing left. */
  predicate ClearThrough(c: Config, src: Sources, s: State, b: int) {
    && (forall i :: 0 <= i < |src.ordinary| && !Better(c, b, src.ordinary[i].id) ==>
                    i < |s.ordinaryFills| && Drained(c, s.ordinaryFills[i]))
    && (forall j :: 0 <= j < |src.orders| && !Better(c, b, src.orders[j].limitBin) ==>
                    j < |s.orderFills| && Exhausted(s.orderFills[j]))
  }

  /** No output at a price while a strictly better one has quantity left; writers come last even at equal prices. */
  predicate Priority(c: Config, src: Sources, s: State) {
    && (forall k :: 0 <= k < |s.fills| && s.fills[k].output > 0 ==> ClearBefore(c, src, s, s.fills[k].id))
    && (forall k :: 0 <= k < |s.writerFills| ==>
                    s.writerFills[k].output > 0 && ClearThrough(c, src, s, s.writerFills[k].id))
  }

  /** Bins are visited in price order, each once, none past the limit. */
  predicate BinsOrdered(c: Config, s: State) {
    && (forall k :: 0 <= k < |s.fills| - 1 ==> Better(c, s.fills[k].id, s.fills[k + 1].id))
    && (forall k :: 0 <= k < |s.fills| ==> !Better(c, c.limitBin, s.fills[k].id))
    && |s.fills| <= c.maximumBins
  }

  // ---- Heads ---------------------------------------------------------------------------------------------

  function WriterAt(c: Config, src: Sources, cursor: nat): Bin
    requires cursor < |src.writer|
  {
    if Up(c) then src.writer[cursor] else src.writer[|src.writer| - (cursor + 1)]
  }

  predicate HasHead(src: Sources, s: State) {
    s.ordinaryIndex < |src.ordinary| || s.writerCursor < |src.writer| || s.orderCursor < |src.orders|
  }

  /** The best price among the three heads. */
  function NextBin(c: Config, src: Sources, s: State): u16
    requires HasHead(src, s)
  {
    var (o, w, r) := (s.ordinaryIndex < |src.ordinary|, s.writerCursor < |src.writer|, s.orderCursor < |src.orders|);
    var b := if o && w then BestOf(c, src.ordinary[s.ordinaryIndex].id, WriterAt(c, src, s.writerCursor).id)
             else if o then src.ordinary[s.ordinaryIndex].id
             else if w then WriterAt(c, src, s.writerCursor).id
             else src.orders[s.orderCursor].limitBin;
    if r then BestOf(c, b, src.orders[s.orderCursor].limitBin) else b
  }

  lemma NextBinIsBest(c: Config, src: Sources, s: State)
    requires HasHead(src, s)
    ensures var b := NextBin(c, src, s);
            && (s.ordinaryIndex < |src.ordinary| ==> !Better(c, src.ordinary[s.ordinaryIndex].id, b))
            && (s.writerCursor < |src.writer| ==> !Better(c, WriterAt(c, src, s.writerCursor).id, b))
            && (s.orderCursor < |src.orders| ==> !Better(c, src.orders[s.orderCursor].limitBin, b))
            && (|| (s.ordinaryIndex < |src.ordinary| && src.ordinary[s.ordinaryIndex].id == b)
                || (s.writerCursor < |src.writer| && WriterAt(c, src, s.writerCursor).id == b)
                || (s.orderCursor < |src.orders| && src.orders[s.orderCursor].limitBin == b))
  {}

  /** Every head is strictly worse than the last visited bin. */
  predicate HeadsBehind(c: Config, src: Sources, s: State, last: Option<u16>) {
    last.Some? ==>
      && (s.ordinaryIndex < |src.ordinary| ==> Better(c, last.value, src.ordinary[s.ordinaryIndex].id))
      && (s.writerCursor < |src.writer| ==> Better(c, last.value, WriterAt(c, src, s.writerCursor).id))
      && (s.orderCursor < |src.orders| ==> Better(c, last.value, src.orders[s.orderCursor].limitBin))
  }

  predicate AllDrained(c: Config, s: State) {
    && (forall i :: 0 <= i < |s.ordinaryFills| ==> Drained(c, s.ordinaryFills[i]))
    && (forall j :: 0 <= j < |s.orderFills| ==> Exhausted(s.orderFills[j]))
  }

  /** What is left cannot buy one atom at the price of bin `b`, nor at any worse one. */
  predicate Dust(c: Config, remaining: int, b: int) {
    Up(c) && remaining * PRICE_SCALE < c.tick * b
  }

  /** Nothing more can be bought at bin `b` or worse. */
  predicate Finished(c: Config, limits: Limits, w: Work, b: int) {
    w.s.remaining == 0 || (Up(c) && w.s.amountOut + w.output == limits.maximumOut) || Dust(c, w.s.remaining, b)
  }

  /** Every bin and order met so far is empty, unless nothing more can be bought anyway. */
  predicate Served(c: Config, limits: Limits, w: Work, b: Option<u16>) {
    AllDrained(c, w.s) || (b.Some? && Finished(c, limits, w, b.value))
  }
}
