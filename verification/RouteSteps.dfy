/** What each stage of one bin contributes: ordinary liquidity, then resting orders, then writers. */
module RouteSteps {
  import opened Numbers
  import opened Wrappers
  import opened Sums
  import opened DlmmMath
  import Orders
  import OrderRuns
  import opened RouteAdmission
  import WriterAdmission
  import WriterRetirement
  import opened RouteModel

  // ---- Ordinary liquidity ------------------------------------------------------------------------------

  /** The fill of an ordinary bin; a buy is offered no more than the route may still output. */
  function OrdinaryFill(c: Config, limits: Limits, s: State, bin: Bin, price: u64): Result<BinFill> {
    if Up(c) then
      var f :- FillBin(c.direction, s.remaining, price,
                       bin.(options := Min(bin.options, SatSub(limits.maximumOut, s.amountOut))));
      var options :- Checked(bin.options - f.output);
      Ok(f.(optionsAfter := options))
    else FillBin(c.direction, s.remaining, price, bin)
  }

  function AfterOrdinary(s: State, f: BinFill): Work
    requires f.input <= s.remaining
  {
    Work(s.(remaining := s.remaining - f.input, ordinaryIndex := s.ordinaryIndex + 1,
            ordinaryFills := s.ordinaryFills + [f]), f.input, f.output)
  }

  lemma OrdinaryFacts(c: Config, limits: Limits, s: State, bin: Bin, price: u64)
    requires Up(c) ==> s.amountOut <= limits.maximumOut
    requires price == c.tick * bin.id && OrdinaryFill(c, limits, s, bin, price).Ok?
    ensures var f := OrdinaryFill(c, limits, s, bin, price).value;
            && OrdinaryKept(c, bin, f) && f.input <= s.remaining
            && (Up(c) ==> s.amountOut + f.output <= limits.maximumOut)
            && (f.input == s.remaining || Drained(c, f) || (Up(c) && s.amountOut + f.output == limits.maximumOut))
            && (Dust(c, s.remaining, bin.id) ==> f.output == 0)
  {
    var offered := if Up(c) then bin.(options := Min(bin.options, limits.maximumOut - s.amountOut)) else bin;
    var g := FillBin(c.direction, s.remaining, price, offered).value;
    FillFacts(c.direction, s.remaining, price, offered);
    ExchangeKeepsValue(c.direction, bin.options, bin.quote, g.input, g.output, price);
    if Dust(c, s.remaining, bin.id) { DustBuysNothing(c.direction, s.remaining, price, offered); }
    hide FillBin;
  }

  lemma OrdinaryAccounts(c: Config, limits: Limits, src: Sources, policy: Option<Policy>, sleeveCash: bool, s: State,
                         f: BinFill)
    requires Accounts(c, limits, src, policy, sleeveCash, Work(s, 0, 0))
    requires s.ordinaryIndex < |src.ordinary| && OrdinaryKept(c, src.ordinary[s.ordinaryIndex], f)
             && f.input <= s.remaining
    requires Up(c) ==> s.amountOut + f.output <= limits.maximumOut
    ensures Accounts(c, limits, src, policy, sleeveCash, AfterOrdinary(s, f))
  {
    SumSnoc(s.ordinaryFills, f, InputOf());
    SumSnoc(s.ordinaryFills, f, OutputOf());
    hide OrdinaryKept, OrderKept, AdmitTotals, Sum;
  }

  // ---- Resting orders -------------------------------------------------------------------------------------

  /** How much of an order the trader takes. */
  function OrderQuantity(c: Config, limits: Limits, w: Work, b: Orders.Balance, price: u64): u64
    requires price > 0
  {
    if Up(c) then
      Min(Min(Orders.Affordable(w.s.remaining, price), b.quantity), SatSub(limits.maximumOut, w.s.amountOut + w.output))
    else Min(Min(w.s.remaining, b.quantity), Orders.Affordable(b.input, price))
  }

  function AfterOrder(c: Config, w: Work, o: RestingOrder, quantity: u64, quote: u64,
                      after: Orders.Balance): Result<Work> {
    var (input, output) := if Up(c) then (quote, quantity) else (quantity, quote);
    var remaining :- Checked(Minus(w.s.remaining, input));
    var total :- Checked(w.input + input);
    var paid :- Checked(w.output + output);
    Ok(Work(w.s.(remaining := remaining, orderCursor := w.s.orderCursor + 1,
                 orderFills := w.s.orderFills + [OrderFill(o.sequence, quantity, quote, after)]), total, paid))
  }

  /** An order fill stays within what remains, and leaves the order empty or the trader finished at this price. */
  lemma OrderFacts(c: Config, limits: Limits, w: Work, o: RestingOrder, price: u64)
    requires Up(c) ==> w.s.amountOut + w.output <= limits.maximumOut
    requires OrderUsable(c, o) && BalanceOf(o, c.tick).Ok? && price > 0 && price == c.tick * o.limitBin
    requires var q := OrderQuantity(c, limits, w, BalanceOf(o, c.tick).value, price);
             q > 0 && Orders.Filled(BalanceOf(o, c.tick).value, q, price).Ok?
    ensures var q := OrderQuantity(c, limits, w, BalanceOf(o, c.tick).value, price);
            var (after, quote) := Orders.Filled(BalanceOf(o, c.tick).value, q, price).value;
            && (if Up(c) then quote else q) <= w.s.remaining
            && (Up(c) ==> w.s.amountOut + w.output + q <= limits.maximumOut)
            && OrderKept(c, o, OrderFill(o.sequence, q, quote, after))
            && (|| after.quantity == 0 || (!Up(c) && q == w.s.remaining)
                || (Up(c) && w.s.amountOut + w.output + q == limits.maximumOut)
                || Dust(c, w.s.remaining - (if Up(c) then quote else q), o.limitBin))
            && !Dust(c, w.s.remaining, o.limitBin)
  {
    var b := BalanceOf(o, c.tick).value;
    var q := OrderQuantity(c, limits, w, b, price);
    if Up(c) {
      AskTaken(b, w.s.remaining, q, price);
    } else {
      BidTaken(b, q, price);
    }
    hide Orders.Filled, Orders.Affordable, Orders.QuoteOf;
  }

  /** Taking from an ask what the cash affords: within the cash, and the change buys no further atom. */
  lemma AskTaken(b: Orders.Balance, cash: u64, q: u64, price: u64)
    requires b.side.Ask? && price > 0 && 0 < q <= Orders.Affordable(cash, price) && q <= b.quantity
    requires Orders.Filled(b, q, price).Ok?
    ensures var (after, quote) := Orders.Filled(b, q, price).value;
            && quote <= cash && after.quantity == b.quantity - q
            && (q == Orders.Affordable(cash, price) && q < b.quantity ==> (cash - quote) * PRICE_SCALE < price)
    ensures cash * PRICE_SCALE >= price
  {
    OrderRuns.AffordableExact(cash, price, q);
    Orders.QuoteBounds(q, price);
    var quote := Orders.Filled(b, q, price).value.1;
    FloorBounds(cash * PRICE_SCALE, price);
    MulMono(1, cash * PRICE_SCALE / price, price);
    MulSucc(q, price);
    AddScaled(cash - quote, quote, PRICE_SCALE);
    hide Orders.QuoteOf;
  }

  /** Selling into a bid all it affords at its limit leaves it released. */
  lemma BidTaken(b: Orders.Balance, q: u64, price: u64)
    requires b.side.Bid? && price > 0 && price == b.limit && 0 < q <= b.quantity
             && q <= Orders.Affordable(b.input, price)
    requires Orders.Filled(b, q, price).Ok?
    ensures q == b.quantity || q == Orders.Affordable(b.input, price) ==>
            Orders.Filled(b, q, price).value.0.quantity == 0
  {
    if q < b.quantity && q == Orders.Affordable(b.input, price) {
      var quote := Orders.QuoteOf(q, price);
      OrderRuns.AffordableExact(b.input, price, q);
      Orders.QuoteBounds(q, price);
      Orders.QuoteBounds(1, b.limit);
      MulSucc(q, price);
      OrderRuns.NothingLeft(b.input, quote, q * price, price, Orders.QuoteOf(1, b.limit));
      hide Orders.QuoteOf;
    }
  }

  lemma OrderAccounts(c: Config, limits: Limits, src: Sources, policy: Option<Policy>, sleeveCash: bool, w: Work,
                      q: u64, quote: u64, after: Orders.Balance)
    requires Accounts(c, limits, src, policy, sleeveCash, w) && w.s.orderCursor < |src.orders|
             && |w.s.orderFills| < limits.maximumOrders
    requires OrderKept(c, src.orders[w.s.orderCursor], OrderFill(src.orders[w.s.orderCursor].sequence, q, quote, after))
    requires AfterOrder(c, w, src.orders[w.s.orderCursor], q, quote, after).Ok?
    requires Up(c) ==> w.s.amountOut + w.output + q <= limits.maximumOut
    ensures Accounts(c, limits, src, policy, sleeveCash,
                     AfterOrder(c, w, src.orders[w.s.orderCursor], q, quote, after).value)
  {
    hide OrdinaryKept, OrderKept, AdmitTotals, Sum, SourcesKept;
    var f := OrderFill(src.orders[w.s.orderCursor].sequence, q, quote, after);
    var next := AfterOrder(c, w, src.orders[w.s.orderCursor], q, quote, after).value;
    SumSnoc(w.s.orderFills, f, OrderInput(c));
    SumSnoc(w.s.orderFills, f, OrderOutput(c));
    OrderJoins(c, src, w.s, f, next.s);
    assert Flow(c, next);
  }

  lemma OrderJoins(c: Config, src: Sources, s: State, f: OrderFill, n: State)
    requires SourcesKept(c, src, s) && s.orderCursor < |src.orders| && OrderKept(c, src.orders[s.orderCursor], f)
    requires n.ordinaryIndex == s.ordinaryIndex && n.ordinaryFills == s.ordinaryFills
             && n.writerCursor == s.writerCursor
    requires n.orderCursor == s.orderCursor + 1 && n.orderFills == s.orderFills + [f]
    ensures SourcesKept(c, src, n) && |n.orderFills| == |s.orderFills| + 1
  {
    hide OrdinaryKept, OrderKept;
  }

  // ---- Writers --------------------------------------------------------------------------------------------

  /** What a writer bin may still give: options within the output cap, or quote within the buy-back budgets. */
  function WriterOffer(c: Config, limits: Limits, p: Policy, w: Work, bin: Bin): u64
    requires p.index < |p.limits|
  {
    if Up(c) then Min(bin.options, SatSub(limits.maximumOut, w.s.amountOut + w.output))
        else Min(bin.quote, Budget(p, w.s.totals))
  }

  function OfferBin(c: Config, id: u16, offer: u64): Bin {
    if Up(c) then Bin(id, offer, 0) else Bin(id, 0, offer)
  }

  /** Ask at the seller floor, bid a separation below it. */
  predicate PriceEligible(c: Config, p: Policy, price: u64)
    requires p.index < |p.limits|
  {
    var (floor, gap) := (p.limits[p.index].sellerFloor, c.tick * p.buyback.separation);
    floor != 0 && c.tick != 0 && p.buyback.separation != 0 && gap <= U64_MAX && gap <= floor
    && if Up(c) then price >= floor else price <= floor - gap
  }

  function TotalsWith(c: Config, t: FillTotals, f: BinFill): Result<FillTotals> {
    if Up(c) then
      var gross :- Checked(t.gross + f.input);
      var sold :- Checked(t.sold + f.output);
      Ok(t.(gross := gross, sold := sold))
    else
      var retired :- Checked(t.retired + f.input);
      var spent :- Checked(t.spent + f.output);
      Ok(t.(retired := retired, spent := spent))
  }

  /** The writer bin after its fill: only what was given leaves it; premium and retired claims go elsewhere. */
  function WriterFill(c: Config, bin: Bin, f: BinFill): BinFill
    requires f.output <= if Up(c) then bin.options else bin.quote
  {
    if Up(c) then f.(optionsAfter := bin.options - f.output, quoteAfter := bin.quote)
    else f.(optionsAfter := bin.options, quoteAfter := bin.quote - f.output)
  }

  function AfterWriter(w: Work, f: BinFill, t: FillTotals, e: Evidence): Result<Work> {
    var remaining :- Checked(Minus(w.s.remaining, f.input));
    var total :- Checked(w.input + f.input);
    var paid :- Checked(w.output + f.output);
    Ok(Work(w.s.(remaining := remaining, totals := t, evidence := Some(e), writerFills := w.s.writerFills + [f]), total,
            paid))
  }

  /** Admission does not look at the net premium it records. */
  lemma NetIgnored(d: Direction, p: Policy, t: FillTotals, net: u64, sleeveCash: bool)
    ensures AdmitTotals(d, p, t.(net := net), sleeveCash) == AdmitTotals(d, p, t, sleeveCash)
  {
    hide WriterRetirement.AdmitRetirement, Participates, AdmitSale, AdmitBuyback;
    if Eligible(p) {
      SaleIgnoresNet(p, t, net);
      BuybackIgnoresNet(p, t, net, sleeveCash);
    }
  }

  lemma SaleIgnoresNet(p: Policy, t: FillTotals, net: u64)
    requires Eligible(p)
    ensures AdmitSale(p, t.(net := net)) == AdmitSale(p, t)
  {
    hide WriterAdmission.AdmitCash, Participates, FloorPasses;
  }

  lemma BuybackIgnoresNet(p: Policy, t: FillTotals, net: u64, sleeveCash: bool)
    requires Eligible(p)
    ensures AdmitBuyback(p, t.(net := net), sleeveCash) == AdmitBuyback(p, t, sleeveCash)
  {
    hide WriterRetirement.AdmitRetirement, Participates, Retired;
    SameRetirement(p, t, net);
  }

  lemma SameRetirement(p: Policy, t: FillTotals, net: u64)
    ensures Retired(p, t.(net := net)) == Retired(p, t)
  {}

  lemma WriterAccounts(c: Config, limits: Limits, src: Sources, policy: Option<Policy>, sleeveCash: bool, w: Work,
                       f: BinFill, e: Evidence)
    requires Accounts(c, limits, src, policy, sleeveCash, w) && policy.Some? && TotalsWith(c, w.s.totals, f).Ok?
    requires Up(c) ==> w.s.amountOut + w.output + f.output <= limits.maximumOut
    requires var t := TotalsWith(c, w.s.totals, f).value;
             && AdmitTotals(c.direction, policy.value, t, sleeveCash) == Some(e)
             && AfterWriter(w, f, t.(net := t.gross), e).Ok?
    ensures var t := TotalsWith(c, w.s.totals, f).value;
            Accounts(c, limits, src, policy, sleeveCash, AfterWriter(w, f, t.(net := t.gross), e).value)
  {
    hide OrdinaryKept, OrderKept, AdmitTotals, Sum, SourcesKept;
    var t := TotalsWith(c, w.s.totals, f).value;
    var next := AfterWriter(w, f, t.(net := t.gross), e).value;
    SumSnoc(w.s.writerFills, f, InputOf());
    SumSnoc(w.s.writerFills, f, OutputOf());
    NetIgnored(c.direction, policy.value, t, t.gross, sleeveCash);
    SourcesUntouched(c, src, w.s, next.s);
    assert Flow(c, next);
    assert TotalsOk(c, next.s);
  }

  lemma SourcesUntouched(c: Config, src: Sources, s: State, n: State)
    requires SourcesKept(c, src, s) && n.ordinaryIndex == s.ordinaryIndex && n.orderCursor == s.orderCursor
             && n.writerCursor == s.writerCursor
    requires n.ordinaryFills == s.ordinaryFills && n.orderFills == s.orderFills
    ensures SourcesKept(c, src, n)
  {}

  // ---- Closing a bin ---------------------------------------------------------------------------------------

  /** The combined fill of the bin joins the route. */
  function Closed(w: Work, f: BinFill): Result<State> {
    if f.input == 0 then Ok(w.s)
    else
      var out :- Checked(w.s.amountOut + f.output);
      Ok(w.s.(amountOut := out, fills := w.s.fills + [f]))
  }

  lemma ClosedAccounts(c: Config, limits: Limits, src: Sources, policy: Option<Policy>, sleeveCash: bool, w: Work,
                       f: BinFill)
    requires Accounts(c, limits, src, policy, sleeveCash, w) && f.input == w.input && f.output == w.output
             && Closed(w, f).Ok?
    requires w.input == 0 ==> w.output == 0
    ensures Accounts(c, limits, src, policy, sleeveCash, Work(Closed(w, f).value, 0, 0))
  {
    SumSnoc(w.s.fills, f, InputOf());
    SumSnoc(w.s.fills, f, OutputOf());
    hide OrdinaryKept, OrderKept, AdmitTotals, Sum;
  }
}
