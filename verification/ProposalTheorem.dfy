/** The whole codec: encode, then decode, and what decoding promises about any bytes. */
module ProposalTheorem {
  import opened Numbers
  import opened Wrappers
  import opened Sums
  import opened Sorting
  import opened Leb128
  import opened ProposalCodec
  import opened ProposalRoundTrip

  /** One side and tier of one ladder fills every one of the 65536 steps with the same lots. */
  ghost predicate ConstantLadder(fills: seq<Fill>) {
    exists maker: u8, side: Side, tier: u8, lots: u64 :: ConstantSide(fills, maker, side, tier, lots)
  }

  ghost predicate ConstantSide(fills: seq<Fill>, maker: u8, side: Side, tier: u8, lots: u64) {
    forall step: u16 :: Fill(Maker(maker, step, side, tier), lots) in fills
  }

  // ---- Steps of a canonical proposal --------------------------------------------------------------

  lemma MakerFacts(fills: seq<Fill>)
    requires Ascending(fills, IdOf())
    ensures var ms := MakerFills(fills);
            && Ascending(ms, IdOf())
            && forall f :: f in ms <==> f in fills && f.id.Maker?
  {
    FilterAscending(fills, IsMaker(), IdOf());
    FilterMembers(fills, IsMaker());
  }

  lemma StepRoundTrip(f: Fill)
    requires f.id.Maker? && f.id.tier < 128
    ensures ToFill()(ToStep()(f)) == f
  {}

  lemma StepBack(s: LadderStep)
    requires s.sideByte < 256
    ensures ToStep()(ToFill()(s)) == s
  {}

  lemma StepsRefine()
    ensures Refines(StepKey(), StepIdOf())
  {}

  lemma StepIdFill(s: LadderStep, t: LadderStep)
    requires StepId(s) == StepId(t)
    ensures ToFill()(s).id == ToFill()(t).id
  {
    var (a, b) := (s.maker * 0x100 + s.sideByte, t.maker * 0x100 + t.sideByte);
    assert a * 0x1_0000 + s.step == b * 0x1_0000 + t.step;
    assert a == b && s.step == t.step;
    assert s.maker == t.maker && s.sideByte == t.sideByte;
  }

  /** The sorted steps have strictly ascending ids and are a rearrangement of the ladder fills. */
  lemma StepsFacts(fills: seq<Fill>)
    requires Ascending(fills, IdOf()) && SideBytesFit(fills)
    ensures var steps := Steps(fills);
            && Ascending(steps, StepIdOf())
            && multiset(Map(steps, ToFill())) == multiset(MakerFills(fills))
            && |steps| == |MakerFills(fills)|
            && forall s :: s in steps <==> ToFill()(s) in fills
  {
    var ms := MakerFills(fills);
    var raw := Map(ms, ToStep());
    MakerFacts(fills);
    DistinctSteps(ms);
    StepsRefine();
    SortAscending(raw, StepKey(), StepIdOf());
    SortFacts(raw, StepKey(), ToFill());
    SortMembers(raw, StepKey());
    MapBack(ms);
    forall s ensures s in Steps(fills) <==> ToFill()(s) in fills {
      RawMember(ms, s);
    }
  }

  lemma DistinctSteps(ms: seq<Fill>)
    requires Ascending(ms, IdOf()) && forall f :: f in ms ==> f.id.Maker? && f.id.tier < 128
    ensures var raw := Map(ms, ToStep()); forall i, j :: 0 <= i < j < |raw| ==> StepIdOf()(raw[i]) != StepIdOf()(raw[j])
  {
    var raw := Map(ms, ToStep());
    forall i, j | 0 <= i < j < |raw| ensures StepIdOf()(raw[i]) != StepIdOf()(raw[j]) {
      assert IdOf()(ms[i]) < IdOf()(ms[j]);
      StepRoundTrip(ms[i]);
      StepRoundTrip(ms[j]);
      if StepId(raw[i]) == StepId(raw[j]) {
        StepIdFill(raw[i], raw[j]);
      }
    }
  }

  lemma MapBack(ms: seq<Fill>)
    requires forall f :: f in ms ==> f.id.Maker? && f.id.tier < 128
    ensures Map(Map(ms, ToStep()), ToFill()) == ms
  {
    var raw := Map(ms, ToStep());
    forall i | 0 <= i < |ms| ensures Map(raw, ToFill())[i] == ms[i] {
      StepRoundTrip(ms[i]);
    }
  }

  lemma RawMember(ms: seq<Fill>, s: LadderStep)
    requires forall f :: f in ms ==> f.id.Maker? && f.id.tier < 128
    ensures s in Map(ms, ToStep()) <==> ToFill()(s) in ms
  {
    var raw := Map(ms, ToStep());
    if s in raw {
      var i :| 0 <= i < |raw| && raw[i] == s;
      StepRoundTrip(ms[i]);
    }
    if ToFill()(s) in ms {
      var i :| 0 <= i < |ms| && ms[i] == ToFill()(s);
      StepBack(s);
      assert raw[i] == s;
    }
  }

  /** Encoding aborts exactly on an oversized tier or a full constant ladder. */
  lemma EncodeAborts(p: Proposal)
    requires Canonical(p)
    ensures Encode(p).None? <==> !SideBytesFit(p.fills) || ConstantLadder(p.fills)
  {
    CanonicalSlotsRise(p.fills);
    if SideBytesFit(p.fills) {
      StepsFacts(p.fills);
      AbortIff(Steps(p.fills));
      LaddersAgree(p.fills);
    }
  }

  lemma CanonicalSlotsRise(fills: seq<Fill>)
    requires Ascending(fills, IdOf())
    ensures SlotsRise(OrderFills(fills))
  {
    var orders := OrderFills(fills);
    FilterAscending(fills, IsOrder(), IdOf());
    forall i | 0 <= i < |orders| - 1 ensures SlotOf(orders[i]) <= SlotOf(orders[i + 1]) {
      assert orders[i] in orders && orders[i + 1] in orders;
      assert IdOf()(orders[i]) < IdOf()(orders[i + 1]);
    }
  }

  lemma LaddersAgree(fills: seq<Fill>)
    requires SideBytesFit(fills) && forall s :: s in Steps(fills) <==> ToFill()(s) in fills
    ensures FullLadder(Steps(fills)) <==> ConstantLadder(fills)
  {
    hide Steps;
    var steps := Steps(fills);
    if FullLadder(steps) {
      var maker: u8, sideByte: u8, lots: u64 :| FullSide(steps, maker, sideByte, lots);
      var (side, tier) := (if sideByte % 2 == 1 then Short else Long, sideByte / 2);
      forall step: u16 ensures Fill(Maker(maker, step, side, tier), lots) in fills {
        assert LadderStep(maker, sideByte, step, lots) in steps;
        assert ToFill()(LadderStep(maker, sideByte, step, lots)) == Fill(Maker(maker, step, side, tier), lots);
      }
      assert ConstantSide(fills, maker, side, tier, lots);
    }
    if ConstantLadder(fills) {
      var maker: u8, side: Side, tier: u8, lots: u64 :| ConstantSide(fills, maker, side, tier, lots);
      assert Fill(Maker(maker, 0, side, tier), lots) in fills;
      var sideByte: u8 := SideBit(side) + 2 * tier;
      forall step: u16 ensures LadderStep(maker, sideByte, step, lots) in steps {
        assert ToFill()(LadderStep(maker, sideByte, step, lots)) == Fill(Maker(maker, step, side, tier), lots);
        assert Fill(Maker(maker, step, side, tier), lots) in fills;
      }
      assert FullSide(steps, maker, sideByte, lots);
    }
  }

  // ---- Reading a written proposal back -------------------------------------------------------------

  predicate GoodStep(s: LadderStep) { s.sideByte < 2 * MAX_TIERS && s.lots > 0 }

  lemma {:induction false} RunsWritable(steps: seq<LadderStep>)
    requires Runs(steps).Some? && forall i :: 0 <= i < |steps| ==> GoodStep(steps[i])
    ensures forall i :: 0 <= i < |Runs(steps).value| ==> Writable(Runs(steps).value[i])
  {
    RunsExpand(steps);
    if steps != [] {
      RunsWritable(steps[..|steps| - 1]);
    }
  }

  lemma FillsRefine()
    ensures Refines(FillKey(), IdOf())
  {}

  lemma AscendingByKey(fills: seq<Fill>)
    requires Ascending(fills, IdOf())
    ensures Ascending(fills, FillKey())
  {
    FillsRefine();
  }

  /** Orders followed by expanded ladders sort back into the proposal's fills. */
  lemma SortsBack(fills: seq<Fill>)
    requires Ascending(fills, IdOf()) && SideBytesFit(fills)
    ensures var s := Sort(OrderFills(fills) + Map(Steps(fills), ToFill()), FillKey());
            s == fills && !HasDuplicate(s)
  {
    var both := OrderFills(fills) + Map(Steps(fills), ToFill());
    StepsFacts(fills);
    FilterMultiset(fills, IsOrder(), IsMaker());
    hide Steps, Map;
    assert multiset(both) == multiset(fills);
    SortFacts(both, FillKey(), FillKey());
    AscendingByKey(fills);
    SortedUnique(fills, Sort(both, FillKey()), FillKey());
    NoNeighbours(fills);
  }

  lemma CountsFit(fills: seq<Fill>)
    requires Ascending(fills, IdOf())
    ensures |fills| <= 0x1_0000_0000_0000
  {
    AscendingBounded(fills, IdOf(), 0x1_0000_0000_0000);
  }

  lemma GoodParts(p: Proposal)
    requires WellFormed(p)
    ensures SideBytesFit(p.fills) && GoodOrders(OrderFills(p.fills), true, 0)
    ensures |OrderFills(p.fills)| <= U64_MAX && |MakerFills(p.fills)| <= U64_MAX
    ensures forall i :: 0 <= i < |Steps(p.fills)| ==> GoodStep(Steps(p.fills)[i])
  {
    CountsFit(p.fills);
    FilterMembers(p.fills, IsOrder());
    FilterMembers(p.fills, IsMaker());
    FilterAscending(p.fills, IsOrder(), IdOf());
    StepsFacts(p.fills);
    hide Steps, Filter, Ascending;
    forall i | 0 <= i < |Steps(p.fills)| ensures GoodStep(Steps(p.fills)[i]) {
      assert Steps(p.fills)[i] in Steps(p.fills);
      assert GoodFill(ToFill()(Steps(p.fills)[i]));
    }
  }

  lemma DecodesFills(p: Proposal, rest: seq<u8>)
    requires WellFormed(p) && Runs(Steps(p.fills)).Some?
    ensures DecodeFills(EncodeHead(p.fills) + (EncodeLadders(Runs(Steps(p.fills)).value) + rest)) == Ok((p.fills, rest))
  {
    GoodParts(p);
    SortsBack(p.fills);
    StepsFacts(p.fills);
    hide Leb, Var, Steps, EncodeOrders, DecodeOrders, EncodeRuns, DecodeRuns, Ascending, GoodOrders, Sort;
    var orders := OrderFills(p.fills);
    var steps := Steps(p.fills);
    var runs := Runs(steps).value;
    RunsExpand(steps);
    RunsWritable(steps);
    var s4 := EncodeRuns(runs) + rest;
    var s3 := Leb(|runs|) + s4;
    var s2 := EncodeOrders(orders, 0) + s3;
    FillsShape(p.fills, runs, rest);
    hide OrderFills, Runs, Map, EncodeHead, EncodeLadders, DecodeFills;
    VarRoundTrip(|orders|, s2);
    OrdersRoundTrip(orders, true, 0, s3);
    VarRoundTrip(|runs|, s4);
    RunsRoundTrip(runs, rest);
    DecodeSections(Leb(|orders|) + s2, |orders|, s2, orders, s3, |runs|, s4, Map(steps, ToFill()), rest, p.fills);
  }

  lemma FillsShape(fills: seq<Fill>, runs: seq<LadderRun>, rest: seq<u8>)
    ensures EncodeHead(fills) + (EncodeLadders(runs) + rest)
         == Leb(|OrderFills(fills)|) + (EncodeOrders(OrderFills(fills), 0) + (Leb(|runs|) + (EncodeRuns(runs) + rest)))
  {
    hide Leb, EncodeOrders, EncodeRuns, OrderFills;
    Associate(Leb(|OrderFills(fills)|), EncodeOrders(OrderFills(fills), 0), EncodeLadders(runs) + rest);
    Associate(Leb(|runs|), EncodeRuns(runs), rest);
    hide EncodeHead, EncodeLadders;
  }

  lemma DecodeSections(b: seq<u8>, n: u64, s1: seq<u8>, orders: seq<Fill>, s2: seq<u8>, k: u64, s3: seq<u8>,
                       ladders: seq<Fill>, rest: seq<u8>, fills: seq<Fill>)
    requires Var(b) == Ok((n, s1)) && DecodeOrders(n, true, 0, s1) == Ok((orders, s2))
    requires Var(s2) == Ok((k, s3)) && DecodeRuns(k, s3) == Ok((ladders, rest))
    requires Sort(orders + ladders, FillKey()) == fills && !HasDuplicate(fills)
    ensures DecodeFills(b) == Ok((fills, rest))
  {
    hide Var, DecodeOrders, DecodeRuns, Sort, HasDuplicate;
  }

  lemma DecodesTail(p: Proposal)
    requires |p.potentials| <= MAX_POTENTIALS
    ensures DecodeTail(EncodeTail(p)) == Ok((p.takerFill, p.potentials))
  {
    hide Leb, Var, EncodePotentials, DecodePotentials;
    var s2 := EncodePotentials(p.potentials, 0);
    VarRoundTrip(p.takerFill, Leb(|p.potentials|) + s2);
    VarRoundTrip(|p.potentials|, s2);
    PotentialsRoundTrip(p.potentials, 0, []);
    assert s2 + [] == s2;
  }

  /** Every well-formed proposal without a full constant ladder survives the round trip. */
  lemma RoundTrip(p: Proposal)
    requires WellFormed(p) && !ConstantLadder(p.fills)
    ensures Encode(p).Some? && Decode(Encode(p).value) == Ok(p)
  {
    GoodParts(p);
    EncodeAborts(p);
    var runs := Runs(Steps(p.fills)).value;
    DecodesFills(p, EncodeTail(p));
    DecodesTail(p);
    hide DecodeFills, DecodeTail, EncodeHead, EncodeLadders, EncodeTail, ConstantLadder;
  }

  // ---- What decoding promises ------------------------------------------------------------------------

  predicate AllGood(fills: seq<Fill>) { forall f :: f in fills ==> GoodFill(f) }

  lemma AllGoodConcat(a: seq<Fill>, b: seq<Fill>)
    requires AllGood(a) && AllGood(b)
    ensures AllGood(a + b)
  {}

  lemma {:induction false} DecodedOrdersGood(n: nat, first: bool, slot: u64, s: seq<u8>)
    requires DecodeOrders(n, first, slot, s).Ok?
    ensures AllGood(DecodeOrders(n, first, slot, s).value.0)
    decreases n, 1
  {
    if n > 0 {
      DecodedOrdersStep(n, first, slot, s);
    }
  }

  lemma DecodedOrdersStep(n: nat, first: bool, slot: u64, s: seq<u8>)
    requires n > 0 && DecodeOrders(n, first, slot, s).Ok?
    ensures AllGood(DecodeOrders(n, first, slot, s).value.0)
    decreases n, 0
  {
    hide DecodeOrder, DecodeOrders, AllGood, GoodFill;
    DecodeOrdersHead(n, first, slot, s);
    var (f, s1) := DecodeOrder(first, slot, s).value;
    DecodedOrdersGood(n - 1, false, SlotOf(f), s1);
    OneMoreGood(f, DecodeOrders(n - 1, false, SlotOf(f), s1).value.0);
  }

  lemma OneMoreGood(f: Fill, fills: seq<Fill>)
    requires GoodFill(f) && AllGood(fills)
    ensures AllGood([f] + fills)
  {}

  lemma DecodeOrdersHead(n: nat, first: bool, slot: u64, s: seq<u8>)
    requires n > 0 && DecodeOrders(n, first, slot, s).Ok?
    ensures DecodeOrder(first, slot, s).Ok?
    ensures var (f, s1) := DecodeOrder(first, slot, s).value;
            && DecodeOrders(n - 1, false, SlotOf(f), s1).Ok?
            && DecodeOrders(n, first, slot, s).value.0 == [f] + DecodeOrders(n - 1, false, SlotOf(f), s1).value.0
  {
    hide DecodeOrder;
  }

  lemma DecodedRunGood(s: seq<u8>)
    requires DecodeRun(s).Ok? && RunFills(DecodeRun(s).value.0).Ok?
    ensures AllGood(RunFills(DecodeRun(s).value.0).value)
  {
    var r := DecodeRun(s).value.0;
    assert r.sideByte / 2 < MAX_TIERS && r.lots > 0 by { hide Var; }
    var fills := RunFills(r).value;
    forall f | f in fills ensures GoodFill(f) {
      var i :| 0 <= i < |fills| && fills[i] == f;
      assert fills[i] == ToFill()(Expand(r)[i]);
    }
  }

  lemma {:induction false} DecodedRunsGood(n: nat, s: seq<u8>)
    requires DecodeRuns(n, s).Ok?
    ensures AllGood(DecodeRuns(n, s).value.0)
    decreases n, 1
  {
    if n > 0 {
      DecodedRunsStep(n, s);
    }
  }

  lemma DecodedRunsStep(n: nat, s: seq<u8>)
    requires n > 0 && DecodeRuns(n, s).Ok?
    ensures AllGood(DecodeRuns(n, s).value.0)
    decreases n, 0
  {
    hide *;
    DecodeRunsHead(n, s);
    DecodedRunGood(s);
    var (r, s1) := DecodeRun(s).value;
    DecodedRunsGood(n - 1, s1);
    AllGoodConcat(RunFills(r).value, DecodeRuns(n - 1, s1).value.0);
  }

  lemma DecodeRunsHead(n: nat, s: seq<u8>)
    requires n > 0 && DecodeRuns(n, s).Ok?
    ensures DecodeRun(s).Ok?
    ensures var (r, s1) := DecodeRun(s).value;
            && RunFills(r).Ok? && DecodeRuns(n - 1, s1).Ok?
            && DecodeRuns(n, s).value.0 == RunFills(r).value + DecodeRuns(n - 1, s1).value.0
  {
    hide DecodeRun, RunFills;
  }

  lemma {:induction false} DecodedPotentials(n: nat, prev: i64, s: seq<u8>)
    requires DecodePotentials(n, prev, s).Ok?
    ensures |DecodePotentials(n, prev, s).value.0| == n
  {
    if n > 0 {
      var (v, s1) := Var(s).value;
      DecodedPotentials(n - 1, Wrap(prev + Unzigzag(v)), s1);
    }
  }

  lemma SortedNoDuplicate(fills: seq<Fill>)
    requires Sorted(fills, FillKey()) && !HasDuplicate(fills)
    ensures Ascending(fills, IdOf())
  {
    FillsRefine();
    forall i | 0 <= i < |fills| - 1 ensures IdOf()(fills[i]) < IdOf()(fills[i + 1]) {
      assert FillKey()(fills[i]) <= FillKey()(fills[i + 1]);
      if IdOf()(fills[i]) == IdOf()(fills[i + 1]) {
        IdKeyInjective(fills[i].id, fills[i + 1].id);
      }
    }
    NeighboursAscend(fills, IdOf());
  }

  lemma DecodedFillsGood(b: seq<u8>)
    requires DecodeFills(b).Ok?
    ensures var fills := DecodeFills(b).value.0; Ascending(fills, IdOf()) && forall f :: f in fills ==> GoodFill(f)
  {
    hide Var, DecodeOrders, DecodeRuns, GoodFill, Sort;
    var (n, s1) := Var(b).value;
    var (orders, s2) := DecodeOrders(n, true, 0, s1).value;
    var (k, s3) := Var(s2).value;
    var (ladders, s4) := DecodeRuns(k, s3).value;
    DecodedOrdersGood(n, true, 0, s1);
    DecodedRunsGood(k, s3);
    SortFacts(orders + ladders, FillKey(), FillKey());
    SortMembers(orders + ladders, FillKey());
    SortedNoDuplicate(DecodeFills(b).value.0);
  }

  /** Whatever bytes decode, the result is a well-formed proposal. */
  lemma DecodedIsWellFormed(b: seq<u8>)
    requires Decode(b).Ok?
    ensures WellFormed(Decode(b).value)
  {
    DecodedFillsGood(b);
    var s := DecodeFills(b).value.1;
    assert |DecodeTail(s).value.1| <= MAX_POTENTIALS by {
      var (t, s1) := Var(s).value;
      var (n, s2) := Var(s1).value;
      DecodedPotentials(n, 0, s2);
    }
    hide DecodeFills, DecodeTail;
  }

  /** The exact domain of the round trip, among all proposals. */
  lemma RoundTripIff(p: Proposal)
    ensures Encode(p).Some? && Decode(Encode(p).value) == Ok(p) <==> WellFormed(p) && !ConstantLadder(p.fills)
  {
    hide Encode, Decode, ConstantLadder, GoodFill;
    if Encode(p).Some? && Decode(Encode(p).value) == Ok(p) {
      DecodedIsWellFormed(Encode(p).value);
      EncodeAborts(p);
    }
    if WellFormed(p) && !ConstantLadder(p.fills) {
      RoundTrip(p);
    }
  }

  /** A maker quoting one lot on every step of one side. */
  function FlatLadder(): Proposal {
    Proposal(seq(0x1_0000, i requires 0 <= i < 0x1_0000 => Fill(Maker(0, i, Long, 0), 1)), 0, [])
  }

  /** A well-formed proposal that cannot be encoded: its single run would need a length of 65536. */
  lemma FlatLadderAborts()
    ensures WellFormed(FlatLadder()) && Encode(FlatLadder()) == None
  {
    var p := FlatLadder();
    forall step: u16 ensures Fill(Maker(0, step, Long, 0), 1) in p.fills {
      assert p.fills[step] == Fill(Maker(0, step, Long, 0), 1);
    }
    assert ConstantSide(p.fills, 0, Long, 0, 1);
    EncodeAborts(p);
  }

  /** The same ladder as two runs that fit their lengths. */
  const HALVES: seq<LadderRun> := [LadderRun(0, 0, 0, U16_MAX, 1), LadderRun(0, 0, U16_MAX, 1, 1)]

  lemma HalvesExpand()
    ensures GoodRuns(HALVES) && Map(ExpandAll(HALVES), ToFill()) == FlatLadder().fills
  {
    assert HALVES[1..] == [HALVES[1]] && [HALVES[1]][1..] == [];
    var (a, b) := (Expand(HALVES[0]), Expand(HALVES[1]));
    assert ExpandAll([HALVES[1]]) == b;
    assert ExpandAll(HALVES) == a + b;
    var (m, fills) := (Map(a + b, ToFill()), FlatLadder().fills);
    forall i | 0 <= i < |m| ensures m[i] == fills[i] {
      assert (a + b)[i] == LadderStep(0, 0, i, 1);
    }
  }

  /** Any writable runs that expand to a proposal's fills decode to it, merged or not. */
  lemma RunBytesDecode(p: Proposal, runs: seq<LadderRun>) returns (b: seq<u8>)
    requires GoodRuns(runs) && |runs| <= U64_MAX && (forall i :: 0 <= i < |runs| ==> Writable(runs[i]))
    requires Ascending(p.fills, IdOf()) && Map(ExpandAll(runs), ToFill()) == p.fills && |p.potentials| <= MAX_POTENTIALS
    ensures Decode(b) == Ok(p)
  {
    SortsTo(p.fills);
    DecodesTail(p);
    hide Leb, Var, EncodeRuns, DecodeRuns, EncodeTail, DecodeTail, Sort, ExpandAll, Map, HasDuplicate, DecodeFills,
        Ascending;
    var s3 := EncodeRuns(runs) + EncodeTail(p);
    var s1 := Leb(|runs|) + s3;
    b := Leb(0) + s1;
    VarRoundTrip(0, s1);
    VarRoundTrip(|runs|, s3);
    RunsRoundTrip(runs, EncodeTail(p));
    DecodeSections(b, 0, s1, [], s1, |runs|, s3, p.fills, EncodeTail(p), p.fills);
  }

  lemma SortsTo(fills: seq<Fill>)
    requires Ascending(fills, IdOf())
    ensures Sort([] + fills, FillKey()) == fills && !HasDuplicate(fills)
  {
    AscendingByKey(fills);
    NoNeighbours(fills);
    hide Ascending, HasDuplicate, Sort;
    SortIsIdentity(fills, FillKey());
    assert [] + fills == fills;
  }

  lemma NoNeighbours(fills: seq<Fill>)
    requires Ascending(fills, IdOf())
    ensures !HasDuplicate(fills)
  {
    forall i | 0 <= i < |fills| - 1 ensures fills[i].id != fills[i + 1].id {
      assert IdOf()(fills[i]) < IdOf()(fills[i + 1]);
    }
  }

  /** Bytes that no encoding produces still decode to it: decode accepts more than encode can write. */
  lemma FlatLadderDecodes()
    ensures exists b :: Decode(b) == Ok(FlatLadder())
  {
    FlatLadderAborts();
    HalvesExpand();
    hide FlatLadder, ExpandAll, Map, Decode, Encode;
    var b := RunBytesDecode(FlatLadder(), HALVES);
  }
}
