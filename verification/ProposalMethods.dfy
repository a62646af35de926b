/** The codec as the program runs it: a growing buffer, a cursor, and merging in one pass. */
module ProposalMethods {
  import opened Numbers
  import opened Wrappers
  import opened Sums
  import opened Sorting
  import opened Leb128
  import opened ProposalCodec
  import opened ProposalRoundTrip

  // ---- Encoding --------------------------------------------------------------------------------------

  /** Writes the order fills; false is the abort on a decreasing slot. */
  method WriteOrders(out: Writer, orders: seq<Fill>) returns (ok: bool)
    modifies out
    ensures ok <==> SlotsRise(orders)
    ensures ok ==> out.bytes == old(out.bytes) + EncodeOrders(orders, 0)
  {
    var last: u64 := 0;
    ghost var whole := out.bytes + EncodeOrders(orders, 0);
    var i := 0;
    assert orders[0..] == orders;
    while i < |orders|
      invariant 0 <= i <= |orders|
      invariant out.bytes + EncodeOrders(orders[i..], last) == whole
      invariant last == if i == 0 then 0 else SlotOf(orders[i - 1])
      invariant SlotsRise(orders[..i])
    {
      var f := orders[i];
      if SlotOf(f) < last {
        assert SlotOf(orders[i - 1]) > SlotOf(orders[i - 1 + 1]);
        return false;
      }
      SlotsNext(orders, i);
      assert orders[i..][1..] == orders[i + 1..];
      var delta: u64 := SatSub(SlotOf(f), last);
      ghost var rest := EncodeOrders(orders[i + 1..], SlotOf(f));
      assert EncodeOrders(orders[i..], last) == Leb(delta) + Leb(f.lots) + rest;
      hide Leb, EncodeOrders;
      out.Put(delta);
      out.Put(f.lots);
      last := SlotOf(f);
      i := i + 1;
    }
    assert orders[..|orders|] == orders;
    return true;
  }

  lemma SlotsNext(orders: seq<Fill>, i: nat)
    requires i < |orders| && SlotsRise(orders[..i]) && (i > 0 ==> SlotOf(orders[i - 1]) <= SlotOf(orders[i]))
    ensures SlotsRise(orders[..i + 1])
  {
    var part := orders[..i + 1];
    forall k | 0 <= k < |part| - 1 ensures SlotOf(part[k]) <= SlotOf(part[k + 1]) {
      if k < i - 1 { assert SlotOf(orders[..i][k]) <= SlotOf(orders[..i][k + 1]); }
    }
  }

  method MergeRuns(steps: seq<LadderStep>) returns (r: Option<seq<LadderRun>>)
    ensures r == Runs(steps)
  {
    var runs: seq<LadderRun> := [];
    for i := 0 to |steps|
      invariant Runs(steps[..i]) == Some(runs)
    {
      assert steps[..i + 1][..i] == steps[..i];
      var next := PushStep(runs, steps[i]);
      if next.None? {
        AbortPropagates(steps, i + 1);
        return None;
      }
      runs := next.value;
    }
    assert steps[..|steps|] == steps;
    return Some(runs);
  }

  method WriteRun(out: Writer, r: LadderRun)
    modifies out
    ensures out.bytes == old(out.bytes) + EncodeRun(r)
  {
    hide Leb;
    out.Push(r.maker);
    out.Push(r.sideByte);
    out.Put(r.step);
    out.Put(r.len);
    out.Put(r.lots);
  }

  lemma RunsUnfold(runs: seq<LadderRun>, i: nat)
    requires i < |runs|
    ensures EncodeRuns(runs[i..]) == EncodeRun(runs[i]) + EncodeRuns(runs[i + 1..])
  {
    assert runs[i..][1..] == runs[i + 1..];
  }

  method WriteRuns(out: Writer, runs: seq<LadderRun>)
    modifies out
    ensures out.bytes == old(out.bytes) + EncodeRuns(runs)
  {
    ghost var whole := out.bytes + EncodeRuns(runs);
    var i := 0;
    assert runs[0..] == runs;
    while i < |runs|
      invariant 0 <= i <= |runs|
      invariant out.bytes + EncodeRuns(runs[i..]) == whole
    {
      hide EncodeRun, EncodeRuns;
      RunsUnfold(runs, i);
      Associate(out.bytes, EncodeRun(runs[i]), EncodeRuns(runs[i + 1..]));
      WriteRun(out, runs[i]);
      i := i + 1;
    }
  }

  lemma PotentialsUnfold(ps: seq<i64>, i: nat, prev: i64)
    requires i < |ps|
    ensures EncodePotentials(ps[i..], prev) == Leb(Zigzag(Wrap(ps[i] - prev))) + EncodePotentials(ps[i + 1..], ps[i])
  {
    assert ps[i..][1..] == ps[i + 1..];
    hide Leb, Zigzag, Wrap;
  }

  method WritePotentials(out: Writer, ps: seq<i64>)
    modifies out
    ensures out.bytes == old(out.bytes) + EncodePotentials(ps, 0)
  {
    var prev: i64 := 0;
    ghost var whole := out.bytes + EncodePotentials(ps, 0);
    var i := 0;
    assert ps[0..] == ps;
    while i < |ps|
      invariant 0 <= i <= |ps|
      invariant out.bytes + EncodePotentials(ps[i..], prev) == whole
    {
      hide Leb, EncodePotentials, Zigzag, Wrap;
      PotentialsUnfold(ps, i, prev);
      Associate(out.bytes, Leb(Zigzag(Wrap(ps[i] - prev))), EncodePotentials(ps[i + 1..], ps[i]));
      out.Put(Zigzag(Wrap(ps[i] - prev)));
      prev := ps[i];
      i := i + 1;
    }
  }

  /** `Proposal::encode` on a fresh buffer. */
  method EncodeProposal(p: Proposal) returns (r: Option<seq<u8>>)
    requires |p.fills| <= U64_MAX && |p.potentials| <= U64_MAX
    ensures r == Encode(p)
  {
    var out := new Writer();
    var orders := OrderFills(p.fills);
    FilterMembers(p.fills, IsOrder());
    FilterMembers(p.fills, IsMaker());
    hide Leb, EncodeOrders, EncodeRuns, EncodePotentials, Runs, Steps, Filter, SideBytesFit, SlotsRise;
    out.Put(|orders|);
    var rising := WriteOrders(out, orders);
    if !rising { return None; }
    var head := out.bytes;
    assert head == EncodeHead(p.fills);
    if !SideBytesFit(p.fills) { return None; }
    var steps := Steps(p.fills);
    var runs := MergeRuns(steps);
    if runs.None? { return None; }
    assert |runs.value| <= U64_MAX by {
      RunsExpand(steps);
      SortMembers(Map(MakerFills(p.fills), ToStep()), StepKey());
      assert Steps(p.fills) == Sort(Map(MakerFills(p.fills), ToStep()), StepKey()) by { StepsAre(p.fills); }
    }
    out.Put(|runs.value|);
    WriteRuns(out, runs.value);
    assert out.bytes == head + EncodeLadders(runs.value);
    out.Put(p.takerFill);
    out.Put(|p.potentials|);
    WritePotentials(out, p.potentials);
    assert out.bytes == head + (EncodeLadders(runs.value) + EncodeTail(p));
    return Some(out.bytes);
  }

  lemma StepsAre(fills: seq<Fill>)
    ensures Steps(fills) == Sort(Map(MakerFills(fills), ToStep()), StepKey())
  {}

  // ---- Decoding --------------------------------------------------------------------------------------

  /** What remains to be read continues what was read. */
  function Behind<T>(done: seq<T>, rest: Result<(seq<T>, seq<u8>)>): Result<(seq<T>, seq<u8>)> {
    if rest.Ok? then Ok((done + rest.value.0, rest.value.1)) else DecodeError
  }

  lemma BehindStep<T>(done: seq<T>, more: seq<T>, rest: Result<(seq<T>, seq<u8>)>)
    ensures Behind(done, Behind(more, rest)) == Behind(done + more, rest)
  {
    if rest.Ok? { assert done + (more + rest.value.0) == done + more + rest.value.0; }
  }

  lemma BehindNothing<T>(rest: Result<(seq<T>, seq<u8>)>)
    ensures Behind([], rest) == rest
  {
    if rest.Ok? { assert [] + rest.value.0 == rest.value.0; }
  }

  method ReadOrder(r: Reader, first: bool, slot: u64) returns (out: Result<Fill>)
    requires r.Valid()
    modifies r
    ensures r.Valid()
    ensures out.Ok? == DecodeOrder(first, slot, old(r.Rest())).Ok?
    ensures out.Ok? ==> DecodeOrder(first, slot, old(r.Rest())).value == (out.value, r.Rest())
  {
    hide Var;
    var d := r.ReadVar();
    if d.DecodeError? { return DecodeError; }
    if !first && d.value == 0 { return DecodeError; }
    if slot + d.value > U64_MAX { return DecodeError; }
    var m := r.ReadVar();
    if m.DecodeError? { return DecodeError; }
    if slot + d.value > U16_MAX || m.value == 0 || slot + d.value == U16_MAX { return DecodeError; }
    return Ok(Fill(Order(slot + d.value), m.value));
  }

  lemma OrdersUnfold(n: nat, first: bool, slot: u64, s: seq<u8>)
    ensures DecodeOrders(0, first, slot, s) == Ok(([], s))
    ensures n > 0 && DecodeOrder(first, slot, s).DecodeError? ==> DecodeOrders(n, first, slot, s).DecodeError?
    ensures n > 0 && DecodeOrder(first, slot, s).Ok? ==>
              var (f, s1) := DecodeOrder(first, slot, s).value;
              DecodeOrders(n, first, slot, s) == Behind([f], DecodeOrders(n - 1, false, SlotOf(f), s1))
  {
    hide DecodeOrder;
  }

  method ReadOrders(r: Reader, n: u64) returns (out: Result<seq<Fill>>)
    requires r.Valid()
    modifies r
    ensures r.Valid()
    ensures out.Ok? == DecodeOrders(n, true, 0, old(r.Rest())).Ok?
    ensures out.Ok? ==> DecodeOrders(n, true, 0, old(r.Rest())).value == (out.value, r.Rest())
  {
    hide DecodeOrder, DecodeOrders;
    var fills: seq<Fill> := [];
    var slot: u64 := 0;
    var i := 0;
    ghost var whole := DecodeOrders(n, true, 0, r.Rest());
    BehindNothing(whole);
    while i < n
      invariant 0 <= i <= n && r.Valid()
      invariant Behind(fills, DecodeOrders(n - i, i == 0, slot, r.Rest())) == whole
    {
      hide Behind;
      OrdersUnfold(n - i, i == 0, slot, r.Rest());
      var f := ReadOrder(r, i == 0, slot);
      if f.DecodeError? { BehindError(fills, whole); return DecodeError; }
      slot := SlotOf(f.value);
      BehindStep(fills, [f.value], DecodeOrders(n - i - 1, false, slot, r.Rest()));
      fills := fills + [f.value];
      i := i + 1;
    }
    OrdersUnfold(0, i == 0, slot, r.Rest());
    assert fills + [] == fills;
    return Ok(fills);
  }

  /** A failure further on is a failure of the whole. */
  lemma BehindError<T>(done: seq<T>, whole: Result<(seq<T>, seq<u8>)>)
    ensures Behind(done, DecodeError) == whole ==> whole.DecodeError?
  {}

  method ReadRun(r: Reader) returns (out: Result<LadderRun>)
    requires r.Valid()
    modifies r
    ensures r.Valid()
    ensures out.Ok? == DecodeRun(old(r.Rest())).Ok?
    ensures out.Ok? ==> DecodeRun(old(r.Rest())).value == (out.value, r.Rest())
  {
    hide Var;
    var maker := r.ReadByte();
    if maker.DecodeError? { return DecodeError; }
    var sideByte := r.ReadByte();
    if sideByte.DecodeError? { return DecodeError; }
    if sideByte.value / 2 >= MAX_TIERS { return DecodeError; }
    var step := r.ReadVar();
    if step.DecodeError? || step.value > U16_MAX { return DecodeError; }
    var len := r.ReadVar();
    if len.DecodeError? || len.value > U16_MAX { return DecodeError; }
    var lots := r.ReadVar();
    if lots.DecodeError? || lots.value == 0 || len.value == 0 { return DecodeError; }
    return Ok(LadderRun(maker.value, sideByte.value, step.value, len.value, lots.value));
  }

  /** The inner loop that pushes one fill per step of a run. */
  method PushRun(fills: seq<Fill>, run: LadderRun) returns (out: Result<seq<Fill>>)
    requires run.len > 0
    ensures out == (var own := RunFills(run); if own.Ok? then Ok(fills + own.value) else DecodeError)
  {
    var own: seq<Fill> := [];
    for s := 0 to run.len
      invariant run.step + s <= U16_MAX + 1 && |own| == s
      invariant forall i :: 0 <= i < s ==>
                            own[i] == ToFill()(LadderStep(run.maker, run.sideByte, run.step + i, run.lots))
    {
      if run.step + s > U16_MAX { return DecodeError; }
      own := own + [ToFill()(LadderStep(run.maker, run.sideByte, run.step + s, run.lots))];
    }
    assert own == Map(Expand(run), ToFill());
    return Ok(fills + own);
  }

  lemma LaddersUnfold(n: nat, s: seq<u8>)
    ensures DecodeRuns(0, s) == Ok(([], s))
    ensures n > 0 && (DecodeRun(s).DecodeError? || RunFills(DecodeRun(s).value.0).DecodeError?) ==>
            DecodeRuns(n, s).DecodeError?
    ensures n > 0 && DecodeRun(s).Ok? && RunFills(DecodeRun(s).value.0).Ok? ==>
              var (r, s1) := DecodeRun(s).value;
              DecodeRuns(n, s) == Behind(RunFills(r).value, DecodeRuns(n - 1, s1))
    ensures DecodeRun(s).Ok? ==> DecodeRun(s).value.0.len > 0
  {
    if DecodeRun(s).Ok? { RunLength(s); }
    hide DecodeRun, RunFills;
  }

  method ReadRuns(r: Reader, n: u64, orders: seq<Fill>) returns (out: Result<seq<Fill>>)
    requires r.Valid()
    modifies r
    ensures r.Valid()
    ensures out.Ok? == DecodeRuns(n, old(r.Rest())).Ok?
    ensures out.Ok? ==> Behind(orders, DecodeRuns(n, old(r.Rest()))) == Ok((out.value, r.Rest()))
  {
    hide DecodeRun, DecodeRuns, RunFills;
    var fills := orders;
    var i := 0;
    ghost var whole := Behind(orders, DecodeRuns(n, r.Rest()));
    while i < n
      invariant 0 <= i <= n && r.Valid()
      invariant Behind(fills, DecodeRuns(n - i, r.Rest())) == whole
    {
      LaddersUnfold(n - i, r.Rest());
      var run := ReadRun(r);
      if run.DecodeError? { return DecodeError; }
      var more := PushRun(fills, run.value);
      if more.DecodeError? { return DecodeError; }
      hide Behind;
      BehindStep(fills, RunFills(run.value).value, DecodeRuns(n - i - 1, r.Rest()));
      fills := more.value;
      i := i + 1;
    }
    LaddersUnfold(0, r.Rest());
    assert fills + [] == fills;
    return Ok(fills);
  }

  lemma RunLength(s: seq<u8>)
    requires DecodeRun(s).Ok?
    ensures DecodeRun(s).value.0.len > 0
  {
    hide Var;
  }

  lemma DeltasUnfold(n: nat, prev: i64, s: seq<u8>)
    ensures DecodePotentials(0, prev, s) == Ok(([], s))
    ensures n > 0 && Var(s).DecodeError? ==> DecodePotentials(n, prev, s).DecodeError?
    ensures n > 0 && Var(s).Ok? ==>
              var p := Wrap(prev + Unzigzag(Var(s).value.0));
              DecodePotentials(n, prev, s) == Behind([p], DecodePotentials(n - 1, p, Var(s).value.1))
  {
    hide Var, Wrap, Unzigzag;
  }

  method ReadPotentials(r: Reader, n: u64) returns (out: Result<seq<i64>>)
    requires r.Valid()
    modifies r
    ensures r.Valid()
    ensures out.Ok? == DecodePotentials(n, 0, old(r.Rest())).Ok?
    ensures out.Ok? ==> DecodePotentials(n, 0, old(r.Rest())).value == (out.value, r.Rest())
  {
    hide Var, Wrap, Unzigzag, DecodePotentials;
    var ps: seq<i64> := [];
    var prev: i64 := 0;
    var i := 0;
    ghost var whole := DecodePotentials(n, 0, r.Rest());
    BehindNothing(whole);
    while i < n
      invariant 0 <= i <= n && r.Valid()
      invariant Behind(ps, DecodePotentials(n - i, prev, r.Rest())) == whole
    {
      hide Behind;
      DeltasUnfold(n - i, prev, r.Rest());
      var v := r.ReadVar();
      if v.DecodeError? { BehindError(ps, whole); return DecodeError; }
      prev := Wrap(prev + Unzigzag(v.value));
      BehindStep(ps, [prev], DecodePotentials(n - i - 1, prev, r.Rest()));
      ps := ps + [prev];
      i := i + 1;
    }
    DeltasUnfold(0, prev, r.Rest());
    assert ps + [] == ps;
    return Ok(ps);
  }

  method ReadFills(r: Reader) returns (out: Result<seq<Fill>>)
    requires r.Valid()
    modifies r
    ensures r.Valid()
    ensures out.Ok? == DecodeFills(old(r.Rest())).Ok?
    ensures out.Ok? ==> DecodeFills(old(r.Rest())).value == (out.value, r.Rest())
  {
    hide Var, DecodeOrders, DecodeRuns, Sort, HasDuplicate;
    var n := r.ReadVar();
    if n.DecodeError? { return DecodeError; }
    var orders := ReadOrders(r, n.value);
    if orders.DecodeError? { return DecodeError; }
    var k := r.ReadVar();
    if k.DecodeError? { return DecodeError; }
    var fills := ReadRuns(r, k.value, orders.value);
    if fills.DecodeError? { return DecodeError; }
    var sorted := Sort(fills.value, FillKey());
    if HasDuplicate(sorted) { return DecodeError; }
    return Ok(sorted);
  }

  /** `Proposal::decode` with a cursor over the bytes. */
  method DecodeProposal(b: seq<u8>) returns (out: Result<Proposal>)
    ensures out == Decode(b)
  {
    hide Var, DecodeFills, DecodePotentials;
    var r := new Reader(b);
    var fills := ReadFills(r);
    if fills.DecodeError? { return DecodeError; }
    var takerFill := r.ReadVar();
    if takerFill.DecodeError? { return DecodeError; }
    var n := r.ReadVar();
    if n.DecodeError? || n.value > MAX_POTENTIALS { return DecodeError; }
    var potentials := ReadPotentials(r, n.value);
    if potentials.DecodeError? { return DecodeError; }
    if r.at != |r.input| { return DecodeError; }
    return Ok(Proposal(fills.value, takerFill.value, potentials.value));
  }
}
