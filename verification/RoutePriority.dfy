/** Price priority through one bin: better prices are empty before a worse one pays, writers come last. */
module RoutePriority {
  import opened Numbers
  import opened Wrappers
  import opened DlmmMath
  import Orders
  import opened RouteAdmission
  import opened RouteModel
  import opened RouteSteps

  // ---- Sorted sources ------------------------------------------------------------------------------------

  lemma {:induction false} OrdinaryPairs(c: Config, bins: seq<Bin>, i: nat, j: nat)
    requires OrdinarySorted(c, bins) && i < j < |bins|
    ensures Better(c, bins[i].id, bins[j].id)
    decreases j
  {
    assert Better(c, bins[j - 1].id, bins[j - 1 + 1].id);
    if i < j - 1 { OrdinaryPairs(c, bins, i, j - 1); }
  }

  lemma {:induction false} OrderPairs(c: Config, orders: seq<RestingOrder>, i: nat, j: nat)
    requires OrdersSorted(c, orders) && i <= j < |orders|
    ensures !Better(c, orders[j].limitBin, orders[i].limitBin)
    decreases j
  {
    if i < j {
      assert !Better(c, orders[j - 1 + 1].limitBin, orders[j - 1].limitBin);
      OrderPairs(c, orders, i, j - 1);
    }
  }

  lemma WriterNext(c: Config, src: Sources, cursor: nat)
    requires WriterSorted(src.writer) && cursor + 1 < |src.writer|
    ensures Better(c, WriterAt(c, src, cursor).id, WriterAt(c, src, cursor + 1).id)
  {
    var n := |src.writer|;
    assert Up(c) ==> src.writer[cursor].id < src.writer[cursor + 1].id;
    assert !Up(c) ==> src.writer[n - (cursor + 2)].id < src.writer[n - (cursor + 2) + 1].id;
  }

  // ---- Clear prices ----------------------------------------------------------------------------------------

  /** `n` continues `s`: the fills of `s` are still there. */
  predicate Extends(s: State, n: State) {
    && |s.ordinaryFills| <= |n.ordinaryFills| && n.ordinaryFills[..|s.ordinaryFills|] == s.ordinaryFills
    && |s.orderFills| <= |n.orderFills| && n.orderFills[..|s.orderFills|] == s.orderFills
  }

  lemma ClearStays(c: Config, src: Sources, s: State, n: State, b: int)
    requires Extends(s, n)
    ensures ClearBefore(c, src, s, b) ==> ClearBefore(c, src, n, b)
    ensures ClearThrough(c, src, s, b) ==> ClearThrough(c, src, n, b)
  {
    assert forall i :: 0 <= i < |s.ordinaryFills| ==> n.ordinaryFills[i] == s.ordinaryFills[i];
    assert forall j :: 0 <= j < |s.orderFills| ==> n.orderFills[j] == s.orderFills[j];
  }

  /** Everything met is empty and no head is better than `b`: every better price is clear. */
  lemma ClearAt(c: Config, src: Sources, s: State, b: int)
    requires SourcesSorted(c, src) && Shape(c, src, s) && AllDrained(c, s)
    requires s.ordinaryIndex < |src.ordinary| ==> !Better(c, src.ordinary[s.ordinaryIndex].id, b)
    requires s.orderCursor < |src.orders| ==> !Better(c, src.orders[s.orderCursor].limitBin, b)
    ensures ClearBefore(c, src, s, b)
  {
    forall i | 0 <= i < |src.ordinary| && Better(c, src.ordinary[i].id, b) ensures i < |s.ordinaryFills| {
      if i > s.ordinaryIndex { OrdinaryPairs(c, src.ordinary, s.ordinaryIndex, i); }
    }
    forall j | 0 <= j < |src.orders| && Better(c, src.orders[j].limitBin, b) ensures j < |s.orderFills| {
      if j > s.orderCursor { OrderPairs(c, src.orders, s.orderCursor, j); }
    }
  }

  /** The ordinary and order heads are strictly worse than `b`. */
  predicate PastBin(c: Config, src: Sources, s: State, b: int) {
    && (s.ordinaryIndex < |src.ordinary| ==> Better(c, b, src.ordinary[s.ordinaryIndex].id))
    && (s.orderCursor < |src.orders| ==> Better(c, b, src.orders[s.orderCursor].limitBin))
  }

  lemma ClearPast(c: Config, src: Sources, s: State, b: int)
    requires SourcesSorted(c, src) && Shape(c, src, s) && AllDrained(c, s) && PastBin(c, src, s, b)
    ensures ClearThrough(c, src, s, b)
  {
    forall i | 0 <= i < |src.ordinary| && !Better(c, b, src.ordinary[i].id) ensures i < |s.ordinaryFills| {
      if i > s.ordinaryIndex { OrdinaryPairs(c, src.ordinary, s.ordinaryIndex, i); }
    }
    forall j | 0 <= j < |src.orders| && !Better(c, b, src.orders[j].limitBin) ensures j < |s.orderFills| {
      if j > s.orderCursor { OrderPairs(c, src.orders, s.orderCursor, j); }
    }
  }

  // ---- Inside one bin ---------------------------------------------------------------------------------------

  predicate WritersLast(c: Config, src: Sources, s: State) {
    forall k :: 0 <= k < |s.writerFills| ==> s.writerFills[k].output > 0 && ClearThrough(c, src, s, s.writerFills[k].id)
  }

  /** From the start `s0` of bin `b`: output only if everything before was empty, and what was met is served. */
  predicate Inside(c: Config, limits: Limits, src: Sources, s0: State, w: Work, b: u16) {
    && Extends(s0, w.s) && w.s.fills == s0.fills && w.s.amountOut == s0.amountOut && w.s.writerCursor == s0.writerCursor
    && (w.input == 0 ==> w.output == 0)
    && (w.output > 0 ==> AllDrained(c, s0))
    && (AllDrained(c, s0) || Dust(c, w.s.remaining, b))
    && Served(c, limits, w, Some(b))
    && WritersLast(c, src, w.s)
  }

  lemma DustStays(c: Config, remaining: int, less: int, b: int)
    requires Dust(c, remaining, b) && less <= remaining
    ensures Dust(c, less, b)
  {
    MulMono(less, remaining, PRICE_SCALE);
  }

  lemma DustWorse(c: Config, remaining: int, last: u16, b: u16)
    requires Dust(c, remaining, last) && Better(c, last, b)
    ensures Dust(c, remaining, b)
  {
    MulMono(last, b, c.tick);
  }

  /** Entering a bin: nothing taken yet. */
  lemma EnterBin(c: Config, limits: Limits, src: Sources, s: State, last: Option<u16>, b: u16)
    requires s.remaining > 0 && !(Up(c) && s.amountOut == limits.maximumOut)
    requires Served(c, limits, Work(s, 0, 0), last) && WritersLast(c, src, s)
    requires last.Some? ==> Better(c, last.value, b)
    ensures Inside(c, limits, src, s, Work(s, 0, 0), b)
  {
    if !AllDrained(c, s) { DustWorse(c, s.remaining, last.value, b); }
    hide AllDrained, ClearThrough;
  }

  lemma WritersStay(c: Config, src: Sources, s: State, n: State)
    requires WritersLast(c, src, s) && Extends(s, n) && n.writerFills == s.writerFills
    ensures WritersLast(c, src, n)
  {
    forall k | 0 <= k < |n.writerFills|
        ensures n.writerFills[k].output > 0 && ClearThrough(c, src, n, n.writerFills[k].id) {
      ClearStays(c, src, s, n, s.writerFills[k].id);
    }
  }

  lemma OrdinaryInside(c: Config, limits: Limits, src: Sources, s: State, f: BinFill, b: u16)
    requires Inside(c, limits, src, s, Work(s, 0, 0), b) && 1 <= f.input <= s.remaining
    requires s.remaining > 0 && !(Up(c) && s.amountOut == limits.maximumOut)
    requires f.input == s.remaining || Drained(c, f) || (Up(c) && s.amountOut + f.output == limits.maximumOut)
    requires Dust(c, s.remaining, b) ==> f.output == 0
    ensures Inside(c, limits, src, s, AfterOrdinary(s, f), b)
  {
    var n := AfterOrdinary(s, f);
    WritersStay(c, src, s, n.s);
    if Dust(c, s.remaining, b) { DustStays(c, s.remaining, n.s.remaining, b); }
    if AllDrained(c, s) && Drained(c, f) { DrainedMore(c, s, n.s, f); }
    hide WritersLast, AllDrained, Dust, Drained;
  }

  lemma DrainedMore(c: Config, s: State, n: State, f: BinFill)
    requires AllDrained(c, s) && Drained(c, f) && n.ordinaryFills == s.ordinaryFills + [f]
             && n.orderFills == s.orderFills
    ensures AllDrained(c, n)
  {}

  lemma ExhaustedMore(c: Config, s: State, n: State, f: OrderFill)
    requires AllDrained(c, s) && Exhausted(f) && n.orderFills == s.orderFills + [f]
             && n.ordinaryFills == s.ordinaryFills
    ensures AllDrained(c, n)
  {}

  /** While something can still be bought here, everything met so far is empty. */
  lemma StillBuying(c: Config, limits: Limits, src: Sources, s0: State, w: Work, b: u16)
    requires Inside(c, limits, src, s0, w, b) && w.s.remaining > 0 && !Dust(c, w.s.remaining, b)
    requires !(Up(c) && w.s.amountOut + w.output == limits.maximumOut)
    ensures AllDrained(c, s0) && AllDrained(c, w.s)
  {
    hide AllDrained, WritersLast;
  }

  lemma OrderInside(c: Config, limits: Limits, src: Sources, s0: State, w: Work, o: RestingOrder, q: u64, quote: u64,
                    after: Orders.Balance, b: u16)
    requires Inside(c, limits, src, s0, w, b) && w.s.remaining > 0 && q > 0 && quote >= 0
    requires !Dust(c, w.s.remaining, b) && !(Up(c) && w.s.amountOut + w.output == limits.maximumOut)
    requires AfterOrder(c, w, o, q, quote, after).Ok? && (if Up(c) then quote else q) > 0
    requires after.quantity == 0 || (!Up(c) && q == w.s.remaining)
             || (Up(c) && w.s.amountOut + w.output + q == limits.maximumOut)
      || Dust(c, w.s.remaining - (if Up(c) then quote else q), b)
    ensures Inside(c, limits, src, s0, AfterOrder(c, w, o, q, quote, after).value, b)
  {
    var n := AfterOrder(c, w, o, q, quote, after).value;
    StillBuying(c, limits, src, s0, w, b);
    WritersStay(c, src, w.s, n.s);
    ExtendsTrans(s0, w.s, n.s);
    if after.quantity == 0 { ExhaustedMore(c, w.s, n.s, OrderFill(o.sequence, q, quote, after)); }
    hide WritersLast, AllDrained, Dust, Extends;
  }

  lemma ExtendsTrans(a: State, b: State, d: State)
    requires Extends(a, b) && Extends(b, d)
    ensures Extends(a, d)
  {}

  lemma WriterInside(c: Config, limits: Limits, src: Sources, s0: State, w: Work, f: BinFill, t: FillTotals,
                     e: Evidence, b: u16)
    requires SourcesSorted(c, src) && Shape(c, src, w.s)
    requires Inside(c, limits, src, s0, w, b) && PastBin(c, src, w.s, b) && w.s.remaining > 0
    requires !Dust(c, w.s.remaining, b) && !(Up(c) && w.s.amountOut + w.output == limits.maximumOut)
    requires f.output > 0 && f.input > 0 && f.id == b && AfterWriter(w, f, t, e).Ok?
    ensures Inside(c, limits, src, s0, AfterWriter(w, f, t, e).value, b)
  {
    var n := AfterWriter(w, f, t, e).value;
    StillBuying(c, limits, src, s0, w, b);
    ClearPast(c, src, w.s, b);
    ClearSame(c, src, w.s, n.s, f, b);
    hide WritersLast, AllDrained, Dust, ClearThrough, SourcesSorted;
    assert Extends(s0, n.s);
    AllDrainedSame(c, w.s, n.s);
  }

  lemma AllDrainedSame(c: Config, s: State, n: State)
    requires AllDrained(c, s) && n.ordinaryFills == s.ordinaryFills && n.orderFills == s.orderFills
    ensures AllDrained(c, n)
  {}

  lemma ClearSame(c: Config, src: Sources, s: State, n: State, f: BinFill, b: u16)
    requires WritersLast(c, src, s) && ClearThrough(c, src, s, b) && f.output > 0 && f.id == b
    requires n.ordinaryFills == s.ordinaryFills && n.orderFills == s.orderFills && n.writerFills == s.writerFills + [f]
    ensures WritersLast(c, src, n)
  {
    forall k | 0 <= k < |n.writerFills|
        ensures n.writerFills[k].output > 0 && ClearThrough(c, src, n, n.writerFills[k].id) {
      ClearStays(c, src, s, n, n.writerFills[k].id);
      hide ClearThrough;
      assert k < |s.writerFills| ==> n.writerFills[k] == s.writerFills[k];
    }
  }

  // ---- Leaving one bin ----------------------------------------------------------------------------------------

  /** The last recorded fill is not behind the last visited bin. */
  predicate FillsBehind(c: Config, s: State, last: Option<u16>) {
    s.fills != [] ==> last.Some? && !Better(c, last.value, s.fills[|s.fills| - 1].id)
  }

  /** The ordering part of the invariant between bins. */
  predicate Ordering(c: Config, limits: Limits, src: Sources, s: State, last: Option<u16>) {
    && Priority(c, src, s) && BinsOrdered(c, s) && FillsBehind(c, s, last)
    && (s.remaining > 0 ==> HeadsBehind(c, src, s, last))
    && Served(c, limits, Work(s, 0, 0), last)
  }

  lemma PriorityCloses(c: Config, limits: Limits, src: Sources, s0: State, w: Work, f: BinFill, b: u16)
    requires Priority(c, src, s0) && Inside(c, limits, src, s0, w, b)
             && (AllDrained(c, s0) ==> ClearBefore(c, src, s0, b))
    requires f.id == b && f.input == w.input && f.output == w.output && Closed(w, f).Ok?
    ensures Priority(c, src, Closed(w, f).value)
  {
    var n := Closed(w, f).value;
    WritersStay(c, src, w.s, n);
    forall k | 0 <= k < |n.fills| && n.fills[k].output > 0 ensures ClearBefore(c, src, n, n.fills[k].id) {
      ClearStays(c, src, s0, n, n.fills[k].id);
      hide ClearBefore, ClearThrough, AllDrained, WritersLast;
      assert k < |s0.fills| ==> n.fills[k] == s0.fills[k];
    }
  }

  lemma BinsClose(c: Config, s0: State, w: Work, f: BinFill, last: Option<u16>, b: u16)
    requires BinsOrdered(c, s0) && FillsBehind(c, s0, last) && w.s.fills == s0.fills && |s0.fills| < c.maximumBins
    requires last.Some? ==> Better(c, last.value, b)
    requires !Better(c, c.limitBin, b) && f.id == b && Closed(w, f).Ok?
    ensures BinsOrdered(c, Closed(w, f).value) && FillsBehind(c, Closed(w, f).value, Some(b))
  {
    var n := Closed(w, f).value;
    forall k | 0 <= k < |n.fills| - 1 ensures Better(c, n.fills[k].id, n.fills[k + 1].id) {
      if k < |s0.fills| - 1 { assert n.fills[k] == s0.fills[k] && n.fills[k + 1] == s0.fills[k + 1]; }
    }
  }

  lemma ServedCloses(c: Config, limits: Limits, src: Sources, s0: State, w: Work, f: BinFill, b: u16)
    requires Inside(c, limits, src, s0, w, b) && f.input == w.input && f.output == w.output && Closed(w, f).Ok?
    ensures Served(c, limits, Work(Closed(w, f).value, 0, 0), Some(b))
  {
    var n := Closed(w, f).value;
    if AllDrained(c, w.s) { AllDrainedSame(c, w.s, n); }
    hide AllDrained, WritersLast;
  }
}
