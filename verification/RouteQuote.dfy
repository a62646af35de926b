/** The complete quote: every successful route conserves, respects priority, and carries fresh admission evidence. */
module RouteQuote {
  import opened Numbers
  import opened Wrappers
  import opened Sums
  import opened DlmmMath
  import opened RouteAdmission
  import opened RouteModel
  import opened RouteSteps
  import opened RoutePriority
  import opened RouteLoop
  import opened RouteTrace
  import opened RouteWitness
  import WriterAdmission
  import WriterSeries
  import PreparedReserve
  import PreparedStrip

  // ---- One bin -------------------------------------------------------------------------------------------

  /** The invariant of the outer loop. */
  predicate Ready(j: Job, s: State, last: Option<u16>) {
    Kept(j, Work(s, 0, 0)) && Ordering(j.c, j.limits, j.src, s, last)
  }

  function Heads(j: Job, s: State): int {
    |j.src.ordinary| - s.ordinaryIndex + |j.src.writer| - s.writerCursor + |j.src.orders| - s.orderCursor
  }

  predicate WriterHere(j: Job, s: State, b: u16) {
    s.writerCursor < |j.src.writer| && WriterAt(j.c, j.src, s.writerCursor).id == b
  }

  /** What remains to be known once the stages of a bin are over. */
  predicate BinDone(j: Job, s0: State, w: Work, b: u16, stop: bool) {
    && Kept(j, w) && In(j, s0, w, b)
    && (!stop && w.s.remaining > 0 ==> PastBin(j.c, j.src, w.s, b))
    && (!stop ==> Heads(j, w.s) < Heads(j, s0) || WriterHere(j, s0, b)) && Heads(j, w.s) <= Heads(j, s0)
  }

  /** Ordinary liquidity, then resting orders, at one price. */
  function PublicStep(j: Job, s: State, b: u16, price: u64): Result<(Work, bool, u64, u64)>
    requires price > 0
  {
    var (w, options, quote) :- OrdinaryStep(j, s, b, price);
    var (n, hit) :- TakeOrders(j, w, b, price);
    Ok((n, hit, options, quote))
  }

  method PublicStages(j: Job, s: State, b: u16, price: u64) returns (r: Result<(Work, bool, u64, u64)>)
    requires Kept(j, Work(s, 0, 0)) && In(j, s, Work(s, 0, 0), b) && CanBuy(j, s) && price > 0 && price == j.c.tick * b
    requires SourcesSorted(j.c, j.src) && HasHead(j.src, s) && b == NextBin(j.c, j.src, s)
    ensures r == PublicStep(j, s, b, price)
    ensures r.Ok? ==> BinDone(j, s, r.value.0, b, r.value.1)
  {
    NextBinIsBest(j.c, j.src, s);
    hide Kept, In, NextBin, WriterAt, OrdinaryStep, TakeOrders, BinDone;
    var ordinary := OrdinaryStage(j, s, b, price);
    if ordinary.Err? { return Err(ordinary.error); }
    var (w1, options, quote) := ordinary.value;
    hide SourcesSorted;
    var orders := OrderStage(j, s, w1, b, price);
    if orders.Err? { return Err(orders.error); }
    var (w2, hit) := orders.value;
    hide Better;
    PublicDone(j, s, w1, w2, b, hit);
    return Ok((w2, hit, options, quote));
  }

  lemma PublicDone(j: Job, s: State, w1: Work, w2: Work, b: u16, hit: bool)
    requires HasHead(j.src, s) && b == NextBin(j.c, j.src, s) && s.remaining > 0 && Kept(j, w2) && In(j, s, w2, b)
    requires w1.s.orderCursor == s.orderCursor && w1.s.ordinaryIndex >= s.ordinaryIndex
    requires w1.s.ordinaryIndex < |j.src.ordinary| ==> Better(j.c, b, j.src.ordinary[w1.s.ordinaryIndex].id)
    requires w1.s.ordinaryIndex == s.ordinaryIndex ==> w1.s == s
    requires w2.s.ordinaryIndex == w1.s.ordinaryIndex && w2.s.orderCursor >= w1.s.orderCursor
    requires !hit && w2.s.remaining > 0 && w2.s.orderCursor < |j.src.orders| ==>
             Better(j.c, b, j.src.orders[w2.s.orderCursor].limitBin)
    requires !hit && w1.s.remaining > 0 && OrderHere(j, w1.s, b) ==> w2.s.orderCursor > w1.s.orderCursor
    ensures BinDone(j, s, w2, b, hit)
  {
    NextBinIsBest(j.c, j.src, s);
    InCursor(j, s, w2, b);
    hide Kept, In, NextBin;
  }

  /** Everything at one price: the public sources, then the writer. */
  function StageStep(j: Job, s: State, b: u16, price: u64): Result<(Work, bool, u64, u64)>
    requires price > 0 && PolicyFits(j.src, j.policy)
  {
    var (w, hit, options, quote) :- PublicStep(j, s, b, price);
    if w.s.remaining == 0 || hit || !WriterHere(j, s, b) then
      Combine(w, hit, options, quote, if WriterHere(j, s, b) then WriterAt(j.c, j.src, s.writerCursor)
              else Bin(b, 0, 0))
    else
      var (n, writerOptions, writerQuote) :- WriterStep(j, w, b, price, WriterAt(j.c, j.src, s.writerCursor));
      Combine(n, hit, options, quote, Bin(b, writerOptions, writerQuote))
  }

  method Stages(j: Job, s: State, b: u16, price: u64, prepared: Option<Prepared>)
      returns (r: Result<(Work, bool, u64, u64)>)
    requires Kept(j, Work(s, 0, 0)) && In(j, s, Work(s, 0, 0), b) && CanBuy(j, s) && price > 0 && price == j.c.tick * b
    requires SourcesSorted(j.c, j.src) && PolicyFits(j.src, j.policy) && HasHead(j.src, s)
             && b == NextBin(j.c, j.src, s)
    requires prepared.Some? ==> j.policy.Some? && CacheFor(prepared.value, j.policy.value)
    ensures r == StageStep(j, s, b, price)
    ensures r.Ok? ==> BinDone(j, s, r.value.0, b, r.value.1)
  {
    hide Kept, In, NextBin, CacheFor, PolicyFits, PublicStep, WriterStep, SourcesSorted, Better, WriterAt, PastBin;
    var public := PublicStages(j, s, b, price);
    if public.Err? { return Err(public.error); }
    var (w2, hit, options, quote) := public.value;
    if w2.s.remaining == 0 || hit || !WriterHere(j, s, b) {
      r := Combine(w2, hit, options, quote, if WriterHere(j, s, b) then WriterAt(j.c, j.src, s.writerCursor)
                   else Bin(b, 0, 0));
      return;
    }
    var writer := WriterStage(j, s, w2, b, price, WriterAt(j.c, j.src, s.writerCursor), prepared);
    if writer.Err? { return Err(writer.error); }
    var (w3, writerOptions, writerQuote) := writer.value;
    InCursor(j, s, w3, b);
    InCursor(j, s, w2, b);
    SamePast(j, w2.s, w3.s, b);
    r := Combine(w3, hit, options, quote, Bin(b, writerOptions, writerQuote));
  }

  lemma SamePast(j: Job, s: State, n: State, b: u16)
    requires PastBin(j.c, j.src, s, b) && n.ordinaryIndex == s.ordinaryIndex && n.orderCursor == s.orderCursor
    ensures PastBin(j.c, j.src, n, b)
  {}

  /** The combined reserves of the bin are checked when it took anything. */
  function Combine(w: Work, hit: bool, options: u64, quote: u64, writer: Bin): Result<(Work, bool, u64, u64)> {
    if w.input == 0 then Ok((w, hit, 0, 0))
    else
      var o :- Checked(options + writer.options);
      var q :- Checked(quote + writer.quote);
      Ok((w, hit, o, q))
  }

  lemma InCursor(j: Job, s0: State, w: Work, b: u16)
    requires In(j, s0, w, b)
    ensures w.s.writerCursor == s0.writerCursor
  {
    hide Served, WritersLast, AllDrained, Dust, Extends;
  }

  function Advance(j: Job, s0: State, s: State, b: u16): State {
    if WriterHere(j, s0, b) then s.(writerCursor := s.writerCursor + 1) else s
  }

  /** One visit: all stages, the combined fill, and the cursors moved past this price. */
  function Visit(j: Job, s: State, b: u16, price: u64): Result<(State, bool)>
    requires price > 0 && PolicyFits(j.src, j.policy)
  {
    var (w, stop, options, quote) :- StageStep(j, s, b, price);
    var closed :- Closed(w, BinFill(b, w.input, w.output, options, quote));
    Ok((Advance(j, s, closed, b), stop))
  }

  method VisitBin(j: Job, s: State, ghost last: Option<u16>, b: u16, price: u64, prepared: Option<Prepared>)
      returns (r: Result<(State, bool)>)
    requires Ready(j, s, last) && CanBuy(j, s) && price > 0 && price == j.c.tick * b && |s.fills| < j.c.maximumBins
    requires SourcesSorted(j.c, j.src) && PolicyFits(j.src, j.policy) && HasHead(j.src, s)
             && b == NextBin(j.c, j.src, s)
    requires !Better(j.c, j.c.limitBin, b)
    requires prepared.Some? ==> j.policy.Some? && CacheFor(prepared.value, j.policy.value)
    ensures r == Visit(j, s, b, price)
    ensures r.Ok? && r.value.1 ==>
            Kept(j, Work(r.value.0, 0, 0)) && Priority(j.c, j.src, r.value.0) && BinsOrdered(j.c, r.value.0)
    ensures r.Ok? && !r.value.1 ==> Ready(j, r.value.0, Some(b)) && Heads(j, r.value.0) < Heads(j, s)
  {
    Entering(j, s, last, b);
    hide Ready, Kept, In, CacheFor, PolicyFits, NextBin, SourcesSorted, BinDone, StageStep;
    var stages := Stages(j, s, b, price, prepared);
    if stages.Err? { return Err(stages.error); }
    var (w, stop, options, quote) := stages.value;
    var fill := BinFill(b, w.input, w.output, options, quote);
    var closed := Closed(w, fill);
    if closed.Err? { return Err(closed.error); }
    var n := Advance(j, s, closed.value, b);
    Leaving(j, s, last, b, w, stop, fill);
    return Ok((n, stop));
  }

  /** Before a bin: it is strictly worse than the last one, and nothing was taken from it yet. */
  lemma Entering(j: Job, s: State, last: Option<u16>, b: u16)
    requires Ready(j, s, last) && CanBuy(j, s) && HasHead(j.src, s) && b == NextBin(j.c, j.src, s)
    ensures Kept(j, Work(s, 0, 0)) && In(j, s, Work(s, 0, 0), b)
    ensures last.Some? ==> Better(j.c, last.value, b)
  {
    NextBinIsBest(j.c, j.src, s);
    hide Kept, NextBin, Served, ClearBefore, ClearThrough, BinsOrdered;
    EnterBin(j.c, j.limits, j.src, s, last, b);
  }

  lemma Leaving(j: Job, s: State, last: Option<u16>, b: u16, w: Work, stop: bool, f: BinFill)
    requires Ready(j, s, last) && CanBuy(j, s) && |s.fills| < j.c.maximumBins && SourcesSorted(j.c, j.src)
    requires HasHead(j.src, s) && b == NextBin(j.c, j.src, s) && !Better(j.c, j.c.limitBin, b)
    requires BinDone(j, s, w, b, stop) && f.id == b && f.input == w.input && f.output == w.output && Closed(w, f).Ok?
    ensures var n := Advance(j, s, Closed(w, f).value, b);
            && Kept(j, Work(n, 0, 0)) && Priority(j.c, j.src, n) && BinsOrdered(j.c, n)
            && (!stop ==> Ready(j, n, Some(b)) && Heads(j, n) < Heads(j, s))
  {
    hide Kept, In, NextBin, SourcesSorted, Priority, BinsOrdered, Served, FillsBehind, HeadsBehind, PastBin, Better,
        WriterAt;
    Entering(j, s, last, b);
    LeavingKept(j, s, b, w, f);
    LeavingOrdered(j, s, last, b, w, f);
    if !stop && w.s.remaining > 0 { LeavingHeads(j, s, b, w, f); }
  }

  lemma LeavingKept(j: Job, s: State, b: u16, w: Work, f: BinFill)
    requires Kept(j, w) && In(j, s, w, b) && f.input == w.input && f.output == w.output && Closed(w, f).Ok?
    ensures Kept(j, Work(Advance(j, s, Closed(w, f).value, b), 0, 0))
  {
    var n := Closed(w, f).value;
    ClosedAccounts(j.c, j.limits, j.src, j.policy, j.sleeveCash, w, f);
    AdvanceKept(j, s, n, b);
  }

  lemma AdvanceKept(j: Job, s: State, n: State, b: u16)
    requires Kept(j, Work(n, 0, 0)) && n.writerCursor == s.writerCursor
    ensures Kept(j, Work(Advance(j, s, n, b), 0, 0))
  {
    hide OrdinaryKept, OrderKept, AdmitTotals, Sum;
  }

  lemma LeavingOrdered(j: Job, s: State, last: Option<u16>, b: u16, w: Work, f: BinFill)
    requires Ordering(j.c, j.limits, j.src, s, last) && Kept(j, Work(s, 0, 0)) && In(j, s, w, b)
             && SourcesSorted(j.c, j.src)
    requires HasHead(j.src, s) && b == NextBin(j.c, j.src, s) && !Better(j.c, j.c.limitBin, b)
             && |s.fills| < j.c.maximumBins
    requires last.Some? ==> Better(j.c, last.value, b)
    requires f.id == b && f.input == w.input && f.output == w.output && Closed(w, f).Ok?
    ensures var n := Advance(j, s, Closed(w, f).value, b);
            && Priority(j.c, j.src, n) && BinsOrdered(j.c, n) && FillsBehind(j.c, n, Some(b))
            && Served(j.c, j.limits, Work(n, 0, 0), Some(b))
  {
    NextBinIsBest(j.c, j.src, s);
    KeptFacts(j, Work(s, 0, 0));
    if AllDrained(j.c, s) { ClearAt(j.c, j.src, s, b); }
    PriorityCloses(j.c, j.limits, j.src, s, w, f, b);
    BinsClose(j.c, s, w, f, last, b);
    ServedCloses(j.c, j.limits, j.src, s, w, f, b);
    AdvanceOrdered(j, s, Closed(w, f).value, b);
  }

  lemma AdvanceOrdered(j: Job, s: State, n: State, b: u16)
    ensures var m := Advance(j, s, n, b);
            && (Priority(j.c, j.src, n) ==> Priority(j.c, j.src, m)) && (BinsOrdered(j.c, n) ==> BinsOrdered(j.c, m))
            && (FillsBehind(j.c, n, Some(b)) ==> FillsBehind(j.c, m, Some(b)))
            && (Served(j.c, j.limits, Work(n, 0, 0), Some(b)) ==> Served(j.c, j.limits, Work(m, 0, 0), Some(b)))
  {
    var m := Advance(j, s, n, b);
    assert Extends(n, m);
    forall x: int ensures ClearBefore(j.c, j.src, n, x) ==> ClearBefore(j.c, j.src, m, x) {
      ClearStays(j.c, j.src, n, m, x);
    }
    forall x: int ensures ClearThrough(j.c, j.src, n, x) ==> ClearThrough(j.c, j.src, m, x) {
      ClearStays(j.c, j.src, n, m, x);
    }
    hide ClearBefore, ClearThrough;
  }

  lemma LeavingHeads(j: Job, s: State, b: u16, w: Work, f: BinFill)
    requires In(j, s, w, b) && PastBin(j.c, j.src, w.s, b) && SourcesSorted(j.c, j.src) && Closed(w, f).Ok?
    requires HasHead(j.src, s) && b == NextBin(j.c, j.src, s)
    ensures HeadsBehind(j.c, j.src, Advance(j, s, Closed(w, f).value, b), Some(b))
  {
    NextBinIsBest(j.c, j.src, s);
    if WriterHere(j, s, b) && s.writerCursor + 1 < |j.src.writer| { WriterNext(j.c, j.src, s.writerCursor); }
    hide Served, WritersLast, AllDrained, Dust, Extends, NextBin;
  }

  // ---- Visits, described --------------------------------------------------------------------------------------

  /** A visit of the loop, with the works between its stages, is a visit as described. */
  lemma VisitExact(j: Job, s: State, b: u16, price: u64) returns (v: Visited)
    requires PolicyFits(j.src, j.policy) && HasHead(j.src, s) && b == NextBin(j.c, j.src, s)
             && price == j.c.tick * b > 0
    requires CanBuy(j, s) && (Up(j.c) ==> s.amountOut <= j.limits.maximumOut) && Visit(j, s, b, price).Ok?
    ensures VisitOk(j, v) && v.start == s && v.bin == b && (v.end, v.stopped) == Visit(j, s, b, price).value
  {
    hide OrdinaryStep, TakeOrders, WriterStep, OrdersTook, OrdinaryTook, WriterTook, NextBin, BestHead, PolicyFits,
         HasHead;
    var (w1, options, quote) := OrdinaryStep(j, s, b, price).value;
    OrdinaryExact(j, s, b, price);
    OrdinaryWithin(j, s, b, price);
    var (w2, hit) := TakeOrders(j, w1, b, price).value;
    var chain := OrdersExact(j, w1, b, price);
    OrdersShape(j, b, price, chain, hit);
    BestIs(j, s, b);
    var (served, _, _, _) := StageStep(j, s, b, price).value;
    var here := WriterHere(j, s, b);
    if here && w2.s.remaining > 0 && !hit {
      WriterExact(j, w2, b, price, WriterAt(j.c, j.src, s.writerCursor));
    }
    var (end, stop) := Visit(j, s, b, price).value;
    v := Visited(s, b, price, chain, hit, served, end);
  }

  lemma OrdersShape(j: Job, b: u16, price: u64, chain: seq<Work>, stopped: bool)
    requires OrdersTook(j, b, price, chain, stopped)
    ensures chain != []
  {}

  lemma BestIs(j: Job, s: State, b: u16)
    requires HasHead(j.src, s) && b == NextBin(j.c, j.src, s)
    ensures BestHead(j, s, b)
  {
    NextBinIsBest(j.c, j.src, s);
  }

  lemma OrdinaryWithin(j: Job, s: State, b: u16, price: u64)
    requires OrdinaryStep(j, s, b, price).Ok? && (Up(j.c) ==> s.amountOut <= j.limits.maximumOut)
    ensures var w := OrdinaryStep(j, s, b, price).value.0;
            Up(j.c) ==> w.s.amountOut + w.output <= j.limits.maximumOut
  {
    if s.ordinaryIndex < |j.src.ordinary| && j.src.ordinary[s.ordinaryIndex].id == b && Up(j.c) {
      var bin := j.src.ordinary[s.ordinaryIndex];
      FillFacts(j.c.direction, s.remaining, price,
                bin.(options := Min(bin.options, SatSub(j.limits.maximumOut, s.amountOut))));
      hide FillBin;
    }
  }

  lemma VisitErrors(j: Job, s: State, b: u16, price: u64)
    requires price > 0 && PolicyFits(j.src, j.policy) && Visit(j, s, b, price).Err?
    ensures StageError(Visit(j, s, b, price).error)
  {
    hide OrdinaryStep, TakeOrders, WriterStep, PolicyFits;
    var o := OrdinaryStep(j, s, b, price);
    if o.Err? {
      OrdinaryErrors(j, s, b, price);
    } else {
      var t := TakeOrders(j, o.value.0, b, price);
      if t.Err? {
        OrdersErrors(j, o.value.0, b, price);
      } else if WriterHere(j, s, b) && WriterStep(j, t.value.0, b, price, WriterAt(j.c, j.src, s.writerCursor)).Err? {
        WriterErrors(j, t.value.0, b, price, WriterAt(j.c, j.src, s.writerCursor));
      }
    }
  }

  // ---- The whole route --------------------------------------------------------------------------------------

  /** What every successful route guarantees. */
  ghost predicate RouteOk(j: Job, r: Route) {
    var s := r.s;
    && r.amountIn == Sum(s.fills, InputOf()) == SourceIn(j.c, s) <= j.c.amountIn
    && (!j.limits.allowPartial ==> r.amountIn == j.c.amountIn)
    && j.c.minimumOut <= s.amountOut == Sum(s.fills, OutputOf()) == SourceOut(j.c, s)
    && (Up(j.c) ==> s.amountOut <= j.limits.maximumOut) && |s.orderFills| <= j.limits.maximumOrders
    && SourcesKept(j.c, j.src, s) && TotalsOk(j.c, s)
    && Priority(j.c, j.src, s) && BinsOrdered(j.c, s)
    && EvidenceFresh(j, s)
    && TracedBut(j, s)
    && !PageMissing(j, s)
  }

  /** More could be bought, no bound was reached, and a page within the limit was never loaded. */
  predicate PageMissing(j: Job, s: State) {
    && 0 < s.remaining && s.amountOut < j.limits.maximumOut && |s.fills| < j.c.maximumBins
    && |s.orderFills| < j.limits.maximumOrders
    && j.c.unloaded.Some?
       && (if Up(j.c) then j.c.unloaded.value <= j.c.limitBin else j.c.limitBin <= j.c.unloaded.value)
  }

  /** The loop came to this state by visits as described, before the evidence got its final book. */
  ghost predicate TracedBut(j: Job, s: State) {
    exists e: Option<Evidence> :: Traced(j, s.(evidence := e))
  }

  /**
   * Evidence exists exactly when the writer filled; it is the fresh admission of the final book and of the
   * sleeve's cash after the fills, under the policy's own limits.
   */
  ghost predicate EvidenceFresh(j: Job, s: State) {
    && (s.evidence.Some? <==> s.writerFills != [])
    && (s.evidence.Some? ==>
          && j.policy.Some? && j.policy.value.index < |j.policy.value.book|
          && SeriesAfter(j.c.direction, j.policy.value, s.totals) == Some(s.evidence.value.series)
          && CashAfterFills(j.c.direction, j.policy.value, s.totals, j.sleeveCash) == Some(s.evidence.value.cash)
          && s.evidence.value.risk == j.policy.value.risk
          && Fresh(s.evidence.value, s.evidence.value.series))
  }

  predicate Complete(j: Job, s: State) {
    Kept(j, Work(s, 0, 0)) && Priority(j.c, j.src, s) && BinsOrdered(j.c, s)
  }

  const FRESH_START: State := State(0, 0, 0, 0, [], [], [], [], 0, NOTHING, None)

  lemma StartReady(j: Job)
    ensures Ready(j, FRESH_START.(remaining := j.c.amountIn), None)
  {
    var s := FRESH_START.(remaining := j.c.amountIn);
    assert Sum(s.fills, InputOf()) == 0 && Sum(s.fills, OutputOf()) == 0;
    assert Sum(s.orderFills, OrderInput(j.c)) == 0 && Sum(s.orderFills, OrderOutput(j.c)) == 0;
  }

  lemma ReadyComplete(j: Job, s: State, last: Option<u16>)
    requires Ready(j, s, last)
    ensures Complete(j, s) && (Up(j.c) ==> s.amountOut <= j.limits.maximumOut)
  {
    KeptFacts(j, Work(s, 0, 0));
    hide Kept, Priority, BinsOrdered, Served, HeadsBehind, FillsBehind;
  }

  /** The cache the route uses: the supplied one, or for eligible buys one built here when that succeeds. */
  method ChooseCache(j: Job, supplied: Option<Prepared>) returns (q: Option<Prepared>)
    requires supplied.Some? ==> j.policy.Some? && CacheFor(supplied.value, j.policy.value)
    ensures q.Some? ==> j.policy.Some? && CacheFor(q.value, j.policy.value)
    ensures supplied.Some? ==> q == supplied
  {
    if supplied.Some? { return supplied; }
    if j.policy.None? || !j.policy.value.eligible || !Up(j.c) { return None; }
    var p := j.policy.value;
    var built := PreparedStrip.BuildPrepared(p.book, p.index, p.risk.lowerTail, p.risk.upperTail);
    if built.Err? { return None; }
    BuiltFor(p, built.value);
    return Some(built.value);
  }

  lemma BuiltFor(p: Policy, q: Prepared)
    requires PreparedReserve.Prepare(p.book, p.index, p.risk.lowerTail, p.risk.upperTail) == WriterSeries.Ok(q)
    ensures CacheFor(q, p)
  {}

  /** The next bin to visit and its price; None when the route ends here. */
  function NextPrice(j: Job, s: State): (r: Result<Option<(u16, u64)>>)
    ensures r.Ok? && r.value.Some? ==> r.value.value.1 == j.c.tick * r.value.value.0 > 0
  {
    if s.remaining == 0 || !HasHead(j.src, s) then Ok(None)
    else if |s.fills| == j.c.maximumBins || (Up(j.c) && s.amountOut == j.limits.maximumOut) then Ok(None)
    else
      var b := NextBin(j.c, j.src, s);
      if Better(j.c, j.c.limitBin, b) then Ok(None)
      else if j.c.unloaded.Some? && !Better(j.c, b, j.c.unloaded.value) then Err(InvalidRoute)
      else
        var price :- PriceFromBin(j.c.tick, j.c.maximumBin, b);
        PricePositive(j.c, b);
        Ok(Some((b, price)))
  }

  /** One round of the loop: the state afterwards, and whether the route ends there. */
  function RoundOf(j: Job): State -> Result<(State, bool)>
    requires PolicyFits(j.src, j.policy)
  {
    (s: State) =>
      var at := NextPrice(j, s);
      if at.Err? then Err(at.error)
      else if at.value.None? then Ok((s, true))
      else Visit(j, s, at.value.value.0, at.value.value.1)
  }

  /** At most `n` rounds, until one ends the route. */
  function Rounds(round: State -> Result<(State, bool)>, s: State, n: nat): Result<State>
    decreases n
  {
    if n == 0 then Ok(s)
    else
      var (next, stop) :- round(s);
      if stop then Ok(next) else Rounds(round, next, n - 1)
  }

  /**
   * The whole loop: one visit per price until the input, the sources or a bound is exhausted; every writer
   * candidate is admitted on the full book. There are no more visits than there are sources.
   */
  function RouteFrom(j: Job, s: State, n: nat): Result<State>
    requires PolicyFits(j.src, j.policy)
  {
    Rounds(RoundOf(j), s, n)
  }

  function AllHeads(j: Job): nat { |j.src.ordinary| + |j.src.writer| + |j.src.orders| }

  /** The routing loop, with an optional cache of the policy's book. */
  method RouteAll(j: Job, prepared: Option<Prepared>) returns (r: Result<State>)
    requires SourcesSorted(j.c, j.src) && PolicyFits(j.src, j.policy)
    requires prepared.Some? ==> j.policy.Some? && CacheFor(prepared.value, j.policy.value)
    ensures r == RouteFrom(j, FRESH_START.(remaining := j.c.amountIn), AllHeads(j))
    ensures r.Ok? ==> Complete(j, r.value) && Traced(j, r.value)
    ensures r.Err? ==> StageError(r.error)
  {
    var s := FRESH_START.(remaining := j.c.amountIn);
    ghost var last: Option<u16> := None;
    ghost var trace: seq<Visited> := [];
    StartReady(j);
    hide Ready, SourcesSorted, PolicyFits, CacheFor, Complete, Visit, VisitOk, Linked, Better, NextBin, HasHead;
    StartLinked(j);
    ghost var n := AllHeads(j);
    while s.remaining > 0 && HasHead(j.src, s)
      invariant Ready(j, s, last) && 0 <= Heads(j, s) <= n
      invariant Linked(j, trace, s) && (trace != [] ==> !trace[|trace| - 1].stopped)
      invariant RouteFrom(j, s, n) == RouteFrom(j, FRESH_START.(remaining := j.c.amountIn), AllHeads(j))
      decreases Heads(j, s)
    {
      ManyHeads(j, s, last);
      ReadyComplete(j, s, last);
      if |s.fills| == j.c.maximumBins || (Up(j.c) && s.amountOut == j.limits.maximumOut) {
        EndsHere(j, trace, s);
        return Ok(s);
      }
      var b := NextBin(j.c, j.src, s);
      BestIs(j, s, b);
      if Better(j.c, j.c.limitBin, b) {
        EndsHere(j, trace, s);
        return Ok(s);
      }
      if j.c.unloaded.Some? && !Better(j.c, b, j.c.unloaded.value) { return Err(InvalidRoute); }
      var price := PriceFromBin(j.c.tick, j.c.maximumBin, b);
      if price.Err? { return Err(price.error); }
      PricePositive(j.c, b);
      FewFills(j, s);
      HeadsBounded(j, s, last);
      var visit := VisitBin(j, s, last, b, price.value, prepared);
      if visit.Err? {
        VisitErrors(j, s, b, price.value);
        return Err(visit.error);
      }
      ghost var v := VisitExact(j, s, b, price.value);
      LinkVisit(j, trace, s, v);
      trace := trace + [v];
      if visit.value.1 {
        VisitComplete(j, visit.value.0);
        EndsHere(j, trace, visit.value.0);
        return Ok(visit.value.0);
      }
      s := visit.value.0;
      last := Some(b);
      n := n - 1;
      HeadsBounded(j, s, last);
    }
    ReadyComplete(j, s, last);
    EndsHere(j, trace, s);
    return Ok(s);
  }

  lemma StartLinked(j: Job)
    ensures Linked(j, [], FRESH_START.(remaining := j.c.amountIn))
  {}

  lemma LinkVisit(j: Job, trace: seq<Visited>, s: State, v: Visited)
    requires Linked(j, trace, s) && (trace != [] ==> !trace[|trace| - 1].stopped)
    requires VisitOk(j, v) && GoesOn(j, s, v.bin) && v.start == s
    ensures Linked(j, trace + [v], v.end)
  {
    hide VisitOk, GoesOn;
  }

  lemma EndsHere(j: Job, trace: seq<Visited>, s: State)
    requires Linked(j, trace, s) && (RouteEnds(j, s) || (trace != [] && trace[|trace| - 1].stopped))
    ensures Traced(j, s)
  {}

  lemma VisitComplete(j: Job, s: State)
    requires Kept(j, Work(s, 0, 0)) && Priority(j.c, j.src, s) && BinsOrdered(j.c, s)
    ensures Complete(j, s)
  {}

  lemma PricePositive(c: Config, b: u16)
    requires PriceFromBin(c.tick, c.maximumBin, b).Ok?
    ensures PriceFromBin(c.tick, c.maximumBin, b).value == c.tick * b > 0
  {
    MulMono(1, c.tick, b);
  }

  lemma FewFills(j: Job, s: State)
    requires Complete(j, s) && |s.fills| != j.c.maximumBins
    ensures |s.fills| < j.c.maximumBins
  {
    hide Kept, Priority;
  }

  lemma HeadsBounded(j: Job, s: State, last: Option<u16>)
    requires Ready(j, s, last)
    ensures Heads(j, s) >= 0
  {
    KeptFacts(j, Work(s, 0, 0));
    hide Kept, Ordering;
  }

  lemma ManyHeads(j: Job, s: State, last: Option<u16>)
    requires Ready(j, s, last) && HasHead(j.src, s)
    ensures Heads(j, s) >= 1
  {
    KeptFacts(j, Work(s, 0, 0));
    hide Kept, Ordering;
  }

  // ---- Finishing --------------------------------------------------------------------------------------------

  lemma {:induction false} OutputsPositive(fills: seq<BinFill>)
    requires forall k :: 0 <= k < |fills| ==> fills[k].output > 0
    ensures Sum(fills, OutputOf()) >= |fills|
  {
    if fills != [] { OutputsPositive(fills[..|fills| - 1]); }
  }

  /** A route without fills has no writer fill either. */
  lemma NoFillsNoWriter(j: Job, s: State)
    requires Complete(j, s) && s.fills == []
    ensures s.writerFills == [] && s.evidence.None?
  {
    OutputsPositive(s.writerFills);
    SumNonNegative(s.ordinaryFills, OutputOf());
    SumNonNegative(s.orderFills, OrderOutput(j.c));
    hide OrdinaryKept, OrderKept, AdmitTotals, ClearBefore, ClearThrough;
  }

  /** The evidence gets the final book: the policy's, with the target's open interest after the route. */
  function Settled(j: Job, s: State): Result<State> {
    if s.evidence.None? then Ok(s)
    else if j.policy.None? || j.policy.value.index >= |j.policy.value.book| then Err(InvalidRoute)
    else
      var after := SeriesAfter(j.c.direction, j.policy.value, s.totals);
      if after.None? then Err(ArithmeticOverflow)
      else Ok(s.(evidence := Some(s.evidence.value.(series := after.value))))
  }

  lemma SettledErrors(j: Job, s: State)
    requires Settled(j, s).Err?
    ensures StageError(Settled(j, s).error)
  {
    hide SeriesAfter;
  }

  lemma SettledFresh(j: Job, s: State)
    requires Complete(j, s) && Settled(j, s).Ok?
    ensures var n := Settled(j, s).value;
            && EvidenceFresh(j, n) && n == s.(evidence := n.evidence)
  {
    var n := Settled(j, s).value;
    if s.evidence.Some? {
      EvidenceSound(j, s);
      EvidenceIsFresh(j.c.direction, j.policy.value, s.totals, j.sleeveCash);
      FreshIgnoresSeries(s.evidence.value, n.evidence.value, n.evidence.value.series);
    } else {
      EvidenceSound(j, s);
    }
    hide Fresh, AdmitTotals, Complete, SeriesAfter, CashAfterFills;
  }

  lemma FreshIgnoresSeries(e: Evidence, f: Evidence, series: seq<WriterSeries.Series>)
    requires Fresh(e, series) && f == e.(series := f.series)
    ensures Fresh(f, series)
  {
    hide WriterAdmission.AdmitCash, WriterAdmission.SafeEverywhere;
  }

  lemma EvidenceSound(j: Job, s: State)
    requires Complete(j, s)
    ensures EvidenceOk(j.c, j.policy, j.sleeveCash, s)
  {
    hide Flow, TotalsOk, SourcesKept, EvidenceOk, Priority, BinsOrdered;
  }

  lemma FinishOk(j: Job, s: State, n: State)
    requires Complete(j, s) && EvidenceFresh(j, n) && n == s.(evidence := n.evidence) && Traced(j, s)
             && !PageMissing(j, s)
    requires j.c.minimumOut <= s.amountOut && (s.remaining == 0 || j.limits.allowPartial)
             && 0 <= j.c.amountIn - s.remaining <= U64_MAX
    ensures RouteOk(j, Route(j.c.amountIn - s.remaining, n))
  {
    hide OrdinaryKept, OrderKept, AdmitTotals, EvidenceFresh, Priority, BinsOrdered, Sum, SourcesKept, Traced;
    assert n.(evidence := s.evidence) == s;
    SameOrder(j, s, n);
    SourcesUntouched(j.c, j.src, s, n);
  }

  lemma SameOrder(j: Job, s: State, n: State)
    requires Priority(j.c, j.src, s) && BinsOrdered(j.c, s) && n == s.(evidence := n.evidence)
    ensures Priority(j.c, j.src, n) && BinsOrdered(j.c, n)
  {
    assert forall x: int :: ClearBefore(j.c, j.src, s, x) ==> ClearBefore(j.c, j.src, n, x);
    assert forall x: int :: ClearThrough(j.c, j.src, s, x) ==> ClearThrough(j.c, j.src, n, x);
  }

  lemma AmountTaken(j: Job, s: State)
    requires Complete(j, s)
    ensures 0 <= j.c.amountIn - s.remaining <= U64_MAX && (s.fills == [] ==> s.remaining == j.c.amountIn)
  {
    SumNonNegative(s.fills, InputOf());
    hide OrdinaryKept, OrderKept, AdmitTotals, TotalsOk, EvidenceOk, SourcesKept, Priority, BinsOrdered;
  }

  /** The closing checks, and the quote. */
  function FinishedRoute(j: Job, s: State): Result<Route> {
    if s.remaining > 0 && s.amountOut < j.limits.maximumOut && |s.fills| < j.c.maximumBins
        && |s.orderFills| < j.limits.maximumOrders
       && j.c.unloaded.Some? && !Better(j.c, j.c.limitBin, j.c.unloaded.value) then Err(InvalidRoute)
    else if s.remaining != 0 && !j.limits.allowPartial then Err(InsufficientLiquidity)
    else if s.amountOut < j.c.minimumOut then Err(MinimumOutputNotMet)
    else if s.fills == [] then (if j.limits.allowPartial then Ok(Route(0, s)) else Err(InvalidRoute))
    else
      var settled :- Settled(j, s);
      var taken :- Checked(Minus(j.c.amountIn, s.remaining));
      Ok(Route(taken, settled))
  }

  /** The whole quote without any cache. */
  function RouteSpec(j: Job): Result<Route>
    requires PolicyFits(j.src, j.policy)
  {
    if j.c.amountIn == 0 then Err(InvalidAmount)
    else
      var s :- RouteFrom(j, FRESH_START.(remaining := j.c.amountIn), AllHeads(j));
      FinishedRoute(j, s)
  }

  lemma EmptyRouteOk(j: Job, s: State)
    requires !PageMissing(j, s) && Complete(j, s) && Traced(j, s) && s.fills == [] && j.limits.allowPartial
             && j.c.minimumOut <= s.amountOut
    ensures RouteOk(j, Route(0, s))
  {
    AmountTaken(j, s);
    NoFillsNoWriter(j, s);
    SettledFresh(j, s);
    hide Complete, RouteOk, EvidenceFresh, Traced;
    FinishOk(j, s, s);
  }

  lemma SettledRouteOk(j: Job, s: State)
    requires !PageMissing(j, s) && Complete(j, s) && Traced(j, s) && Settled(j, s).Ok? && j.c.minimumOut <= s.amountOut
             && (s.remaining == 0 || j.limits.allowPartial)
    ensures 0 <= j.c.amountIn - s.remaining <= U64_MAX
    ensures RouteOk(j, Route(j.c.amountIn - s.remaining, Settled(j, s).value))
  {
    hide Complete, RouteOk, EvidenceFresh, Settled, Traced;
    AmountTaken(j, s);
    SettledFresh(j, s);
    FinishOk(j, s, Settled(j, s).value);
  }

  /** A route refused for want of liquidity or output really ended, by visits as described, with too little. */
  ghost predicate Explained(j: Job, r: Result<Route>) {
    && (r == Err(InsufficientLiquidity) ==>
          !j.limits.allowPartial && exists s :: Traced(j, s) && s.remaining > 0)
    && (r == Err(MinimumOutputNotMet) ==> exists s :: Traced(j, s) && s.amountOut < j.c.minimumOut)
  }

  /** The state a loop ends in becomes a route exactly when no page is missing and it took and gave enough. */
  lemma FinishIff(j: Job, s: State)
    requires Complete(j, s)
    ensures FinishedRoute(j, s).Ok? <==>
              && !PageMissing(j, s) && (s.remaining == 0 || j.limits.allowPartial) && j.c.minimumOut <= s.amountOut
              && (s.fills != [] || j.limits.allowPartial)
  {
    EvidenceSound(j, s);
    AmountTaken(j, s);
    hide Complete;
    if s.evidence.Some? { EvidenceIsFresh(j.c.direction, j.policy.value, s.totals, j.sleeveCash); }
    hide AdmitTotals, SeriesAfter, Fresh, CashAfterFills;
  }

  method Finish(j: Job, s: State) returns (r: Result<Route>)
    requires Complete(j, s) && Traced(j, s)
    ensures r == FinishedRoute(j, s)
    ensures r.Ok? ==> RouteOk(j, r.value)
    ensures Explained(j, r)
  {
    hide Complete, RouteOk, Settled, Traced;
    if s.remaining > 0 && s.amountOut < j.limits.maximumOut && |s.fills| < j.c.maximumBins
        && |s.orderFills| < j.limits.maximumOrders
       && j.c.unloaded.Some? && !Better(j.c, j.c.limitBin, j.c.unloaded.value) {
      return Err(InvalidRoute);
    }
    if s.remaining != 0 && !j.limits.allowPartial { return Err(InsufficientLiquidity); }
    if s.amountOut < j.c.minimumOut { return Err(MinimumOutputNotMet); }
    if s.fills == [] {
      if !j.limits.allowPartial { return Err(InvalidRoute); }
      EmptyRouteOk(j, s);
      return Ok(Route(0, s));
    }
    var settled := Settled(j, s);
    if settled.Err? {
      SettledErrors(j, s);
      return Err(settled.error);
    }
    SettledRouteOk(j, s);
    return Ok(Route(j.c.amountIn - s.remaining, settled.value));
  }

  /**
   * `quote_validated_sources`. With or without a cache built from the policy's book the result, success or
   * error, is the route that admits every writer candidate afresh. Every successful route conserves input and
   * output over its bins and over its three sources, never outputs more than allowed, never lowers an ordinary
   * bin's value, and never pays at a price while a strictly better one has quantity left; its evidence is the
   * fresh admission of the final book and cash.
   */
  method QuoteValidated(j: Job, supplied: Option<Prepared>) returns (r: Result<Route>)
    requires Validated(j.c, j.src, j.policy, j.limits)
    requires supplied.Some? ==> j.policy.Some? && CacheFor(supplied.value, j.policy.value)
    ensures r == RouteSpec(j)
    ensures r.Ok? ==> RouteOk(j, r.value)
    ensures Explained(j, r)
  {
    hide RouteFrom, FinishedRoute, SourcesSorted, PolicyFits, SizesOk, CacheFor, Complete, RouteOk, Traced;
    if j.c.amountIn == 0 { return Err(InvalidAmount); }
    var prepared := ChooseCache(j, supplied);
    var s := RouteAll(j, prepared);
    if s.Err? { return Err(s.error); }
    r := Finish(j, s.value);
  }

  /** `quote_with_cash_mode`: sources that fail the structural checks are never routed. */
  method Quote(j: Job, supplied: Option<Prepared>) returns (r: Result<Route>)
    requires supplied.Some? ==> j.policy.Some? && CacheFor(supplied.value, j.policy.value)
    ensures !Validated(j.c, j.src, j.policy, j.limits) ==> r == Err(InvalidRoute)
    ensures Validated(j.c, j.src, j.policy, j.limits) ==> r == RouteSpec(j)
    ensures r.Ok? ==> RouteOk(j, r.value)
    ensures Explained(j, r)
  {
    hide RouteOk, CacheFor, RouteFrom, FinishedRoute;
    if !Validated(j.c, j.src, j.policy, j.limits) { return Err(InvalidRoute); }
    r := QuoteValidated(j, supplied);
  }

  /**
   * A route with a writer fill leaves the sleeve safe at every settlement price: its book with the target's open
   * interest after the fills, its cash with the premium added or the purchase paid, under its own limits. The
   * evidence answers for that state, and for no other, what a fresh full-book admission would.
   */
  lemma RouteLeavesSleeveSafe(j: Job, r: Route, series: seq<WriterSeries.Series>, cash: WriterAdmission.Cash,
                              risk: WriterAdmission.Risk)
    requires RouteOk(j, r) && r.s.writerFills != []
    ensures r.s.evidence.Some? && j.policy.Some? && j.policy.value.index < |j.policy.value.book|
    ensures var (p, t, d) := (j.policy.value, r.s.totals, j.c.direction);
            && SeriesAfter(d, p, t).Some? && CashAfterFills(d, p, t, j.sleeveCash).Some?
            && var (book, kept) := (SeriesAfter(d, p, t).value, CashAfterFills(d, p, t, j.sleeveCash).value);
               && WriterAdmission.SafeEverywhere(book, kept, p.risk)
               && WriterAdmission.AdmitCash(book, kept, p.risk).Admit?
               && (Up(j.c) ==> kept.assets == p.cash.assets + Sum(r.s.writerFills, InputOf()))
               && (!Up(j.c) ==> kept.assets == p.cash.assets - Sum(r.s.writerFills, OutputOf()))
               && ForFinalState(r.s.evidence.value, series, cash, risk)
                  == if (series, cash, risk) != (book, kept, p.risk) then None
                     else var a := WriterAdmission.AdmitCash(book, kept, p.risk).value; Some((a.summary, a.exposure))
  {
    hide WriterAdmission.AdmitCash, WriterAdmission.SafeEverywhere, SourcesKept, Priority, BinsOrdered, SeriesAfter,
        Sum;
  }
}
