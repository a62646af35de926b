/** Which proposals survive encode and decode: exactly the well-formed ones without a full constant ladder. */
module ProposalRoundTrip {
  import opened Numbers
  import opened Wrappers
  import opened Sums
  import opened Sorting
  import opened Leb128
  import opened ProposalCodec

  // ---- Runs ---------------------------------------------------------------------------------------

  predicate GoodRun(r: LadderRun) {
    r.len > 0 && r.step + r.len <= U16_MAX + 1
  }

  predicate GoodRuns(runs: seq<LadderRun>) {
    forall i :: 0 <= i < |runs| ==> GoodRun(runs[i])
  }

  /** The steps a sequence of runs stands for. */
  function ExpandAll(runs: seq<LadderRun>): seq<LadderStep>
    requires GoodRuns(runs)
  {
    if runs == [] then [] else Expand(runs[0]) + ExpandAll(runs[1..])
  }

  lemma {:induction false} ExpandSnoc(runs: seq<LadderRun>, r: LadderRun)
    requires GoodRuns(runs) && GoodRun(r)
    ensures ExpandAll(runs + [r]) == ExpandAll(runs) + Expand(r)
  {
    if runs == [] {
      assert [] + [r] == [r];
      assert [r][1..] == [];
    } else {
      ExpandSnoc(runs[1..], r);
      assert (runs + [r])[1..] == runs[1..] + [r];
      assert (runs + [r])[0] == runs[0];
      hide Expand;
      assert ExpandAll(runs + [r]) == Expand(runs[0]) + (ExpandAll(runs[1..]) + Expand(r));
    }
  }

  lemma PushExpands(runs: seq<LadderRun>, s: LadderStep)
    requires GoodRuns(runs) && PushStep(runs, s).Some?
    ensures var next := PushStep(runs, s).value;
            GoodRuns(next) && ExpandAll(next) == ExpandAll(runs) + [s] && |next| <= |runs| + 1
  {
    var next := PushStep(runs, s).value;
    assert Expand(RunOf(s)) == [s];
    if runs == [] || next == runs + [RunOf(s)] {
      ExpandSnoc(runs, RunOf(s));
      assert next == runs + [RunOf(s)];
    } else {
      var n := |runs| - 1;
      var r := runs[n];
      var longer := r.(len := r.len + 1);
      assert runs == runs[..n] + [r] && next == runs[..n] + [longer];
      assert Expand(longer) == Expand(r) + [s];
      ExpandSnoc(runs[..n], r);
      ExpandSnoc(runs[..n], longer);
    }
  }

  /** Merging loses nothing: the runs expand to the steps they were merged from. */
  lemma {:induction false} RunsExpand(steps: seq<LadderStep>)
    requires Runs(steps).Some?
    ensures GoodRuns(Runs(steps).value) && ExpandAll(Runs(steps).value) == steps && |Runs(steps).value| <= |steps|
  {
    if steps != [] {
      var n := |steps| - 1;
      RunsExpand(steps[..n]);
      PushExpands(Runs(steps[..n]).value, steps[n]);
      assert steps == steps[..n] + [steps[n]];
    }
  }

  // ---- When merging aborts ------------------------------------------------------------------------

  predicate FullRun(steps: seq<LadderStep>, i: int, maker: u8, sideByte: u8, lots: u64) {
    0 <= i && i + U16_MAX < |steps|
        && forall j :: i <= j <= i + U16_MAX ==> steps[j] == LadderStep(maker, sideByte, j - i, lots)
  }

  /** The last run covers the last steps. */
  lemma LastRun(steps: seq<LadderStep>) returns (r: LadderRun)
    requires steps != [] && Runs(steps).Some?
    ensures var runs := Runs(steps).value;
            && runs != [] && r == runs[|runs| - 1] && GoodRun(r)
            && r.len <= |steps| && steps[|steps| - r.len..] == Expand(r)
  {
    RunsExpand(steps);
    var runs := Runs(steps).value;
    hide Runs, Expand;
    assert runs != [];
    var n := |runs| - 1;
    r := runs[n];
    assert runs == runs[..n] + [r];
    ExpandSnoc(runs[..n], r);
  }

  /** On strictly sorted steps an abort means that one ladder side fills every step with equal lots. */
  lemma {:induction false} AbortIsFull(steps: seq<LadderStep>) returns (i: int, maker: u8, sideByte: u8, lots: u64)
    requires Ascending(steps, StepIdOf()) && Runs(steps).None?
    ensures FullRun(steps, i, maker, sideByte, lots)
  {
    var n := |steps| - 1;
    var front := steps[..n];
    if Runs(front).None? {
      i, maker, sideByte, lots := AbortIsFull(front);
    } else {
      assert front != [];
      var r := LastRun(front);
      AbortStep(steps, r);
      i, maker, sideByte, lots := n - U16_MAX, r.maker, r.sideByte, r.lots;
      var tail := front[n - r.len..];
      forall j | i <= j <= i + U16_MAX ensures steps[j] == LadderStep(maker, sideByte, j - i, lots) {
        if j < n { assert steps[j] == tail[j - i]; }
      }
    }
  }

  lemma AbortStep(steps: seq<LadderStep>, r: LadderRun)
    requires |steps| >= 2 && Ascending(steps, StepIdOf()) && GoodRun(r)
    requires var n := |steps| - 1;
             var runs := Runs(steps[..n]);
             && runs.Some? && PushStep(runs.value, steps[n]).None?
             && runs.value != [] && r == runs.value[|runs.value| - 1]
             && r.len <= n && steps[..n][n - r.len..] == Expand(r)
    ensures r.len == U16_MAX && r.step == 0 && steps[|steps| - 1] == LadderStep(r.maker, r.sideByte, U16_MAX, r.lots)
  {
    var n := |steps| - 1;
    hide Runs;
    assert steps[n - 1] == steps[..n][n - r.len..][r.len - 1] == Expand(r)[r.len - 1];
    assert StepIdOf()(steps[n - 1]) < StepIdOf()(steps[n]);
  }

  /** Conversely a full constant ladder aborts: its steps are consecutive, so one run would need length 65536. */
  lemma {:induction false} FullGrows(steps: seq<LadderStep>, i: nat, k: nat, maker: u8, sideByte: u8, lots: u64)
    requires FullRun(steps, i, maker, sideByte, lots) && k <= U16_MAX
    ensures var r := Runs(steps[..i + k + 1]);
            r.None? || (k < U16_MAX && r.value != []
                        && r.value[|r.value| - 1] == LadderRun(maker, sideByte, 0, k + 1, lots))
  {
    hide PushStep;
    RunsNext(steps, i + k);
    assert steps[i + k] == LadderStep(maker, sideByte, k, lots);
    var front := Runs(steps[..i + k]);
    hide Runs, FullRun;
    if front.Some? {
      RunsExpand(steps[..i + k]);
      if k > 0 {
        FullGrows(steps, i, k - 1, maker, sideByte, lots);
      }
      PushFull(front.value, k, maker, sideByte, lots);
    }
  }

  lemma RunsNext(steps: seq<LadderStep>, n: nat)
    requires n < |steps|
    ensures Runs(steps[..n + 1]) == if Runs(steps[..n]).None? then None else PushStep(Runs(steps[..n]).value, steps[n])
  {
    assert steps[..n + 1][..n] == steps[..n];
  }

  /** Step `k` of a constant ladder opens its run or extends it by one; the last step overflows the length. */
  lemma PushFull(runs: seq<LadderRun>, k: u16, maker: u8, sideByte: u8, lots: u64)
    requires GoodRuns(runs)
    requires k > 0 ==> runs != [] && runs[|runs| - 1] == LadderRun(maker, sideByte, 0, k, lots)
    ensures var r := PushStep(runs, LadderStep(maker, sideByte, k, lots));
            r.None? || (k < U16_MAX && r.value != []
                        && r.value[|r.value| - 1] == LadderRun(maker, sideByte, 0, k + 1, lots))
  {}

  lemma {:induction false} AbortPropagates(steps: seq<LadderStep>, n: nat)
    requires n <= |steps| && Runs(steps[..n]).None?
    ensures Runs(steps).None?
  {
    if n < |steps| {
      var m := |steps| - 1;
      assert steps[..m][..n] == steps[..n];
      AbortPropagates(steps[..m], n);
    } else {
      assert steps[..n] == steps;
    }
  }

  /** Steps with consecutive keys sit next to each other. */
  lemma {:induction false} Consecutive(steps: seq<LadderStep>, i: nat, k: nat, maker: u8, sideByte: u8, lots: u64)
    requires Ascending(steps, StepIdOf()) && k <= U16_MAX
    requires FullSide(steps, maker, sideByte, lots)
    requires i < |steps| && steps[i] == LadderStep(maker, sideByte, 0, lots)
    ensures i + k < |steps| && steps[i + k] == LadderStep(maker, sideByte, k, lots)
  {
    if k > 0 {
      Consecutive(steps, i, k - 1, maker, sideByte, lots);
      var at := i + k - 1;
      var j :| 0 <= j < |steps| && steps[j] == LadderStep(maker, sideByte, k, lots);
      NextTo(steps, at, j);
    }
  }

  lemma NextTo(steps: seq<LadderStep>, at: nat, j: nat)
    requires Ascending(steps, StepIdOf()) && at < |steps| && j < |steps| && StepId(steps[j]) == StepId(steps[at]) + 1
    ensures j == at + 1
  {
    var key := StepIdOf();
    assert forall a, b :: 0 <= a < b < |steps| ==> key(steps[a]) < key(steps[b]);
    var next := if at + 1 < |steps| then key(steps[at + 1]) else 0;
  }

  predicate FullLadder(steps: seq<LadderStep>) {
    exists maker: u8, sideByte: u8, lots: u64 :: FullSide(steps, maker, sideByte, lots)
  }

  predicate FullSide(steps: seq<LadderStep>, maker: u8, sideByte: u8, lots: u64) {
    forall j: u16 :: LadderStep(maker, sideByte, j, lots) in steps
  }

  /** Merging aborts exactly on a full constant ladder. */
  lemma AbortIff(steps: seq<LadderStep>)
    requires Ascending(steps, StepIdOf())
    ensures Runs(steps).None? <==> FullLadder(steps)
  {
    hide Runs, Ascending;
    if Runs(steps).None? {
      var i, maker, sideByte, lots := AbortIsFull(steps);
      forall j: u16 ensures LadderStep(maker, sideByte, j, lots) in steps {
        assert steps[i + j] == LadderStep(maker, sideByte, j, lots);
      }
      assert FullSide(steps, maker, sideByte, lots);
    }
    if FullLadder(steps) {
      var maker: u8, sideByte: u8, lots: u64 :| FullSide(steps, maker, sideByte, lots);
      FullAborts(steps, maker, sideByte, lots);
    }
  }

  lemma FullAborts(steps: seq<LadderStep>, maker: u8, sideByte: u8, lots: u64)
    requires Ascending(steps, StepIdOf()) && FullSide(steps, maker, sideByte, lots)
    ensures Runs(steps).None?
  {
    hide Runs, Ascending;
    assert LadderStep(maker, sideByte, 0, lots) in steps;
    var i :| 0 <= i < |steps| && steps[i] == LadderStep(maker, sideByte, 0, lots);
    Consecutive(steps, i, U16_MAX, maker, sideByte, lots);
    forall j | i <= j <= i + U16_MAX ensures steps[j] == LadderStep(maker, sideByte, j - i, lots) {
      Consecutive(steps, i, j - i, maker, sideByte, lots);
    }
    assert FullRun(steps, i, maker, sideByte, lots);
    hide FullRun, FullSide;
    FullGrows(steps, i, U16_MAX, maker, sideByte, lots);
    AbortPropagates(steps, i + U16_MAX + 1);
  }

  // ---- Reading back each section --------------------------------------------------------------------

  /** Order fills ready to be written behind the slot `last`. */
  predicate GoodOrders(orders: seq<Fill>, first: bool, last: int) {
    && (forall f :: f in orders ==> f.id.Order? && GoodFill(f))
    && Ascending(orders, IdOf())
    && (orders != [] ==> if first then last <= SlotOf(orders[0]) else last < SlotOf(orders[0]))
  }

  lemma GoodOrdersTail(orders: seq<Fill>, first: bool, last: int)
    requires orders != [] && GoodOrders(orders, first, last)
    ensures var f := orders[0];
            && f.id.Order? && GoodFill(f) && (!first ==> last < SlotOf(f)) && last <= SlotOf(f)
            && GoodOrders(orders[1..], false, SlotOf(f))
  {
    assert |orders| > 1 ==> IdOf()(orders[0]) < IdOf()(orders[1]);
  }

  lemma {:induction false} OrdersRoundTrip(orders: seq<Fill>, first: bool, last: u64, rest: seq<u8>)
    requires GoodOrders(orders, first, last)
    ensures DecodeOrders(|orders|, first, last, EncodeOrders(orders, last) + rest) == Ok((orders, rest))
  {
    if orders == [] {
      assert EncodeOrders(orders, last) + rest == rest;
    } else {
      hide EncodeOrders, DecodeOrders, GoodOrders, GoodFill;
      GoodOrdersTail(orders, first, last);
      OrdersRoundTrip(orders[1..], false, SlotOf(orders[0]), rest);
      OneOrder(orders, first, last, rest);
    }
  }

  lemma OneOrder(orders: seq<Fill>, first: bool, last: u64, rest: seq<u8>)
    requires orders != []
    requires var f := orders[0]; f.id.Order? && GoodFill(f) && (!first ==> last < SlotOf(f)) && last <= SlotOf(f)
    requires DecodeOrders(|orders| - 1, false, SlotOf(orders[0]), EncodeOrders(orders[1..], SlotOf(orders[0])) + rest)
             == Ok((orders[1..], rest))
    ensures DecodeOrders(|orders|, first, last, EncodeOrders(orders, last) + rest) == Ok((orders, rest))
  {
    hide Leb, Var, EncodeOrders, DecodeOrders, GoodFill;
    var (f, tail) := (orders[0], orders[1..]);
    assert orders == [f] + tail;
    OrdersShape(orders, last, rest);
    var later := EncodeOrders(tail, SlotOf(f)) + rest;
    var d := SatSub(SlotOf(f), last);
    var s1 := Leb(f.lots) + later;
    VarRoundTrip(d, s1);
    VarRoundTrip(f.lots, later);
    DecodeOneOrder(|orders|, first, last, Leb(d) + s1, d, s1, f, later, tail, rest);
  }

  lemma OrdersShape(orders: seq<Fill>, last: u64, rest: seq<u8>)
    requires orders != []
    ensures var f := orders[0];
            EncodeOrders(orders, last) + rest == Leb(SatSub(SlotOf(f), last))
                + (Leb(f.lots) + (EncodeOrders(orders[1..], SlotOf(f)) + rest))
  {
    hide Leb;
  }

  lemma DecodeOneOrder(n: nat, first: bool, last: u64, s: seq<u8>, d: u64, s1: seq<u8>, f: Fill, s2: seq<u8>,
                       tail: seq<Fill>, rest: seq<u8>)
    requires n > 0 && Var(s) == Ok((d, s1)) && Var(s1) == Ok((f.lots, s2))
    requires f.id.Order? && GoodFill(f) && SlotOf(f) == last + d && (!first ==> d > 0)
    requires DecodeOrders(n - 1, false, SlotOf(f), s2) == Ok((tail, rest))
    ensures DecodeOrders(n, first, last, s) == Ok(([f] + tail, rest))
  {
    hide Var;
    assert DecodeOrder(first, last, s) == Ok((f, s2));
  }

  predicate Writable(r: LadderRun) {
    GoodRun(r) && r.sideByte < 2 * MAX_TIERS && r.lots > 0
  }

  lemma RunRoundTrip(r: LadderRun, rest: seq<u8>)
    requires Writable(r)
    ensures DecodeRun(EncodeRun(r) + rest) == Ok((r, rest))
  {
    hide Leb, Var, EncodeRun, DecodeRun;
    var s4 := Leb(r.lots) + rest;
    var s3 := Leb(r.len) + s4;
    var s2 := Leb(r.step) + s3;
    VarRoundTrip(r.step, s3);
    VarRoundTrip(r.len, s4);
    VarRoundTrip(r.lots, rest);
    var s := EncodeRun(r) + rest;
    RunShape(r, rest);
    DecodeOneRun(s, r, s2, s3, s4, rest);
  }

  lemma RunShape(r: LadderRun, rest: seq<u8>)
    ensures var s := EncodeRun(r) + rest;
            |s| >= 2 && s[0] == r.maker && s[1] == r.sideByte
                && s[1..][1..] == Leb(r.step) + (Leb(r.len) + (Leb(r.lots) + rest))
  {
    hide Leb;
  }

  lemma DecodeOneRun(s: seq<u8>, r: LadderRun, s2: seq<u8>, s3: seq<u8>, s4: seq<u8>, rest: seq<u8>)
    requires Writable(r) && |s| >= 2 && s[0] == r.maker && s[1] == r.sideByte && s[1..][1..] == s2
    requires Var(s2) == Ok((r.step, s3)) && Var(s3) == Ok((r.len, s4)) && Var(s4) == Ok((r.lots, rest))
    ensures DecodeRun(s) == Ok((r, rest))
  {
    hide Var;
  }

  lemma {:induction false} RunsRoundTrip(runs: seq<LadderRun>, rest: seq<u8>)
    requires GoodRuns(runs) && forall i :: 0 <= i < |runs| ==> Writable(runs[i])
    ensures DecodeRuns(|runs|, EncodeRuns(runs) + rest) == Ok((Map(ExpandAll(runs), ToFill()), rest))
  {
    if runs == [] {
      assert EncodeRuns(runs) + rest == rest;
    } else {
      var (r, tail) := (runs[0], runs[1..]);
      var later := EncodeRuns(tail) + rest;
      assert EncodeRuns(runs) + rest == EncodeRun(r) + later;
      MapConcat(Expand(r), ExpandAll(tail), ToFill());
      assert ExpandAll(runs) == Expand(r) + ExpandAll(tail);
      hide EncodeRun, DecodeRun, DecodeRuns, EncodeRuns, Expand, ExpandAll, Map;
      RunRoundTrip(r, later);
      RunsRoundTrip(tail, rest);
      DecodeOneMore(|runs|, EncodeRun(r) + later, r, later, Map(ExpandAll(tail), ToFill()), rest);
    }
  }

  lemma DecodeOneMore(n: nat, s: seq<u8>, r: LadderRun, s1: seq<u8>, fills: seq<Fill>, rest: seq<u8>)
    requires n > 0 && GoodRun(r) && DecodeRun(s) == Ok((r, s1)) && DecodeRuns(n - 1, s1) == Ok((fills, rest))
    ensures DecodeRuns(n, s) == Ok((Map(Expand(r), ToFill()) + fills, rest))
  {
    hide DecodeRun, Map, Expand;
  }

  lemma {:induction false} PotentialsRoundTrip(ps: seq<i64>, prev: i64, rest: seq<u8>)
    ensures DecodePotentials(|ps|, prev, EncodePotentials(ps, prev) + rest) == Ok((ps, rest))
  {
    if ps == [] {
      assert EncodePotentials(ps, prev) + rest == rest;
    } else {
      hide EncodePotentials, DecodePotentials;
      PotentialsRoundTrip(ps[1..], ps[0], rest);
      OnePotential(ps, prev, rest);
    }
  }

  lemma OnePotential(ps: seq<i64>, prev: i64, rest: seq<u8>)
    requires ps != [] && DecodePotentials(|ps| - 1, ps[0], EncodePotentials(ps[1..], ps[0]) + rest)
             == Ok((ps[1..], rest))
    ensures DecodePotentials(|ps|, prev, EncodePotentials(ps, prev) + rest) == Ok((ps, rest))
  {
    hide Leb, Var, Zigzag, Unzigzag, Wrap;
    var w := Zigzag(Wrap(ps[0] - prev));
    var later := EncodePotentials(ps[1..], ps[0]) + rest;
    assert EncodePotentials(ps, prev) + rest == Leb(w) + later;
    VarRoundTrip(w, later);
    ZigzagRoundTrip(Wrap(ps[0] - prev));
    WrapCancels(ps[0], prev);
    assert ps == [ps[0]] + ps[1..];
  }
}
