/** The wire form of one small proposal, byte by byte. */
module ProposalExample {
  import opened Numbers
  import opened Wrappers
  import opened Sums
  import opened Sorting
  import opened Leb128
  import opened ProposalCodec

  /** Two orders, three steps of one short second-tier ladder, a taker fill and two potentials. */
  const SAMPLE: Proposal := Proposal(
    [Fill(Order(3), 5), Fill(Order(10), 200), Fill(Maker(1, 7, Short, 1), 4), Fill(Maker(1, 8, Short, 1), 4),
     Fill(Maker(1, 9, Short, 1), 6)], 9, [100, 98])

  const STEPS: seq<LadderStep> := [LadderStep(1, 3, 7, 4), LadderStep(1, 3, 8, 4), LadderStep(1, 3, 9, 6)]

  const RUNS: seq<LadderRun> := [LadderRun(1, 3, 7, 2, 4), LadderRun(1, 3, 9, 1, 6)]

  lemma SampleParts()
    ensures OrderFills(SAMPLE.fills) == SAMPLE.fills[..2]
    ensures MakerFills(SAMPLE.fills) == SAMPLE.fills[2..]
  {
    var f := SAMPLE.fills;
    assert f[..2] == [f[0], f[1]] && f[2..] == [f[2], f[3], f[4]];
    forall k: nat | k < 5 ensures f[..k + 1][..k] == f[..k] && f[..k + 1][k] == f[k] {}
    assert f[..5] == f;
    assert Filter(f[..0], IsOrder()) == [] && Filter(f[..0], IsMaker()) == [];
    assert Filter(f[..1], IsOrder()) == [f[0]] && Filter(f[..1], IsMaker()) == [];
    assert Filter(f[..2], IsOrder()) == [f[0], f[1]] && Filter(f[..2], IsMaker()) == [];
    assert Filter(f[..3], IsOrder()) == [f[0], f[1]] && Filter(f[..3], IsMaker()) == [f[2]];
    assert Filter(f[..4], IsOrder()) == [f[0], f[1]] && Filter(f[..4], IsMaker()) == [f[2], f[3]];
    assert Filter(f[..5], IsOrder()) == [f[0], f[1]] && Filter(f[..5], IsMaker()) == [f[2], f[3], f[4]];
  }

  lemma StepsInOrder()
    ensures Ascending(STEPS, StepKey())
  {
    assert StepKey()(STEPS[0]) < StepKey()(STEPS[1]) < StepKey()(STEPS[2]);
    hide StepKey;
  }

  lemma SampleMap()
    ensures Map(SAMPLE.fills[2..], ToStep()) == STEPS
  {
    var (x, y, z) := (SAMPLE.fills[2], SAMPLE.fills[3], SAMPLE.fills[4]);
    assert ToStep()(x) == STEPS[0] && ToStep()(y) == STEPS[1] && ToStep()(z) == STEPS[2];
    hide ToStep;
    assert SAMPLE.fills[2..] == [x, y, z];
  }

  lemma SampleSteps()
    ensures Steps(SAMPLE.fills) == STEPS
  {
    hide StepKey, MakerFills, Sort, Ascending, ToStep, Map;
    SampleParts();
    SampleMap();
    StepsInOrder();
    SortIsIdentity(STEPS, StepKey());
  }

  lemma SampleRuns()
    ensures Runs(STEPS) == Some(RUNS)
  {
    assert STEPS[..0] == [] && STEPS[..3] == STEPS;
    assert STEPS[..1][..0] == STEPS[..0] && STEPS[..2][..1] == STEPS[..1] && STEPS[..3][..2] == STEPS[..2];
    assert STEPS[..1][0] == STEPS[0] && STEPS[..2][1] == STEPS[1] && STEPS[..3][2] == STEPS[2];
    var (one, two) := ([LadderRun(1, 3, 7, 1, 4)], [LadderRun(1, 3, 7, 2, 4)]);
    assert one[0 := two[0]] == two;
    assert PushStep([], STEPS[0]) == Some(one);
    assert PushStep(one, STEPS[1]) == Some(two);
    assert two + [LadderRun(1, 3, 9, 1, 6)] == RUNS;
    assert PushStep(two, STEPS[2]) == Some(RUNS);
    hide PushStep;
    assert Runs(STEPS[..0]) == Some([]);
    assert Runs(STEPS[..1]) == Some(one);
    assert Runs(STEPS[..2]) == Some(two);
    assert Runs(STEPS[..3]) == Some(RUNS);
  }

  lemma SampleLeb()
    ensures Leb(200) == [0xC8, 1]
    ensures forall v: nat :: v < 128 ==> Leb(v) == [v]
  {
    assert Leb(1) == [1];
  }

  lemma SampleOrders()
    ensures EncodeOrders(SAMPLE.fills[..2], 0) == [3, 5, 7, 0xC8, 1]
  {
    SampleLeb();
    hide Leb;
    var o := SAMPLE.fills[..2];
    assert o[1..][1..] == [] && o[1..] == [o[1]];
    assert EncodeOrders([], 10) == [];
    assert EncodeOrders(o[1..], 3) == [7, 0xC8, 1];
  }

  lemma SampleLadders()
    ensures EncodeLadders(RUNS) == [2, 1, 3, 7, 2, 4, 1, 3, 9, 1, 6]
  {
    SampleLeb();
    hide Leb;
    assert RUNS[1..] == [RUNS[1]] && RUNS[1..][1..] == [];
    assert EncodeRun(RUNS[1]) == [1, 3, 9, 1, 6];
    assert EncodeRun(RUNS[0]) == [1, 3, 7, 2, 4];
    hide EncodeRun;
    assert EncodeRuns([]) == [];
    assert EncodeRuns(RUNS[1..]) == [1, 3, 9, 1, 6];
    assert EncodeRuns(RUNS) == [1, 3, 7, 2, 4, 1, 3, 9, 1, 6];
  }

  lemma SampleTail()
    ensures EncodeTail(SAMPLE) == [9, 2, 0xC8, 1, 3]
  {
    SampleLeb();
    hide Leb;
    var ps := SAMPLE.potentials;
    assert ps[1..] == [98] && ps[1..][1..] == [];
    assert Zigzag(Wrap(-2)) == 3 && Zigzag(Wrap(100)) == 200;
    hide Zigzag, Wrap;
    assert EncodePotentials([], 98) == [];
    assert EncodePotentials(ps[1..], 100) == [3];
    assert EncodePotentials(ps, 0) == [0xC8, 1, 3];
  }

  /**
   * Counts lead each section, slots and potentials are differences, equal neighbouring steps share a run, the side byte
   * carries the tier, and a step back of two is the code three.
   */
  lemma SampleBytes()
    ensures Encode(SAMPLE) == Some([2, 3, 5, 7, 0xC8, 1]
                                   + ([2, 1, 3, 7, 2, 4, 1, 3, 9, 1, 6] + [9, 2, 0xC8, 1, 3]))
  {
    SampleParts();
    SampleSteps();
    SampleRuns();
    SampleLeb();
    SampleOrders();
    SampleLadders();
    SampleTail();
    hide Leb, Steps, Runs, OrderFills, EncodeOrders, EncodeLadders, EncodeTail;
    assert EncodeHead(SAMPLE.fills) == [2, 3, 5, 7, 0xC8, 1];
    assert SlotsRise(SAMPLE.fills[..2]) && SideBytesFit(SAMPLE.fills);
  }
}
