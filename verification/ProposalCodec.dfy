/** The compact proposal encoding: order fills, merged ladder runs and zigzag-coded potentials. */
module ProposalCodec {
  import opened Numbers
  import opened Wrappers
  import opened Sums
  import opened Sorting
  import opened Leb128

  const MAX_TIERS: int := 8
  const MAX_POTENTIALS: int := 4096

  datatype Side = Long | Short

  datatype ArcId = Order(slot: u16) | Maker(maker: u8, step: u16, side: Side, tier: u8)

  datatype Fill = Fill(id: ArcId, lots: u64)

  datatype Proposal = Proposal(fills: seq<Fill>, takerFill: u64, potentials: seq<i64>)

  /** One ladder step; the side byte is `side + 2 * tier`. */
  datatype LadderStep = LadderStep(maker: u8, sideByte: u8, step: u16, lots: u64)

  /** Consecutive steps of one ladder side with equal lots. */
  datatype LadderRun = LadderRun(maker: u8, sideByte: u8, step: u16, len: u16, lots: u64)

  // ---- Orders on arcs, fills and steps -----------------------------------------------------------

  function SideBit(s: Side): int { if s.Short? then 1 else 0 }

  /** The canonical order of arcs: orders by slot, then ladders by maker, step, side and tier. */
  function IdKey(id: ArcId): int {
    match id
    case Order(slot) => slot
    case Maker(maker, step, side, tier) => 0x1_0000 + ((maker * 0x1_0000 + step) * 2 + SideBit(side)) * 0x100 + tier
  }

  lemma IdKeyInjective(a: ArcId, b: ArcId)
    requires IdKey(a) == IdKey(b)
    ensures a == b
  {}

  function IdOf(): Fill -> int { (f: Fill) => IdKey(f.id) }

  /** Fills sort by arc, then lots. */
  function FillKey(): Fill -> int { (f: Fill) => IdKey(f.id) * WORD + f.lots }

  function StepId(s: LadderStep): int { (s.maker * 0x100 + s.sideByte) * 0x1_0000 + s.step }

  function StepIdOf(): LadderStep -> int { (s: LadderStep) => StepId(s) }

  function StepKey(): LadderStep -> int { (s: LadderStep) => StepId(s) * WORD + s.lots }

  // ---- Well-formed proposals ----------------------------------------------------------------------

  /** What the proposal type documents: fills sorted by arc without duplicates. */
  predicate Canonical(p: Proposal) {
    Ascending(p.fills, IdOf())
  }

  predicate GoodFill(f: Fill) {
    f.lots > 0 && (f.id.Order? ==> f.id.slot != U16_MAX) && (f.id.Maker? ==> f.id.tier < MAX_TIERS)
  }

  predicate WellFormed(p: Proposal) {
    Canonical(p) && (forall f :: f in p.fills ==> GoodFill(f)) && |p.potentials| <= MAX_POTENTIALS
  }

  // ---- Encoding -------------------------------------------------------------------------------------

  function IsOrder(): Fill -> bool { (f: Fill) => f.id.Order? }

  function IsMaker(): Fill -> bool { (f: Fill) => f.id.Maker? }

  function OrderFills(fills: seq<Fill>): (r: seq<Fill>)
    ensures forall f :: f in r ==> f.id.Order?
  {
    FilterMembers(fills, IsOrder());
    Filter(fills, IsOrder())
  }

  function MakerFills(fills: seq<Fill>): (r: seq<Fill>)
    ensures forall f :: f in r ==> f in fills && f.id.Maker?
  {
    FilterMembers(fills, IsMaker());
    Filter(fills, IsMaker())
  }

  /** The side byte must fit; the program's checked arithmetic aborts otherwise. */
  predicate SideBytesFit(fills: seq<Fill>) {
    forall f :: f in fills && f.id.Maker? ==> f.id.tier < 128
  }

  function ToStep(): Fill -> LadderStep {
    (f: Fill) =>
      if f.id.Maker? && f.id.tier < 128
          then LadderStep(f.id.maker, SideBit(f.id.side) + 2 * f.id.tier, f.id.step, f.lots)
      else LadderStep(0, 0, 0, 0)
  }

  function ToFill(): LadderStep -> Fill {
    (s: LadderStep) => Fill(Maker(s.maker, s.step, if s.sideByte % 2 == 1 then Short else Long, s.sideByte / 2), s.lots)
  }

  /** The sorted ladder steps of a proposal. */
  function Steps(fills: seq<Fill>): seq<LadderStep> {
    Sort(Map(MakerFills(fills), ToStep()), StepKey())
  }

  predicate SameLadder(r: LadderRun, s: LadderStep) {
    r.maker == s.maker && r.sideByte == s.sideByte
  }

  /** Extends the last run or opens a new one; checked u16 arithmetic aborts on overflow. */
  function PushStep(runs: seq<LadderRun>, s: LadderStep): Option<seq<LadderRun>> {
    if runs == [] then Some([RunOf(s)])
    else
      var r := runs[|runs| - 1];
      if !SameLadder(r, s) then Some(runs + [RunOf(s)])
      else if r.step + r.len > U16_MAX then None
      else if r.step + r.len == s.step && r.lots == s.lots then
        if r.len == U16_MAX then None else Some(runs[|runs| - 1 := r.(len := r.len + 1)])
      else Some(runs + [RunOf(s)])
  }

  function RunOf(s: LadderStep): LadderRun { LadderRun(s.maker, s.sideByte, s.step, 1, s.lots) }

  /** The runs of a sequence of steps, or None when the program aborts. */
  function Runs(steps: seq<LadderStep>): Option<seq<LadderRun>> {
    if steps == [] then Some([])
    else
      var front :- Runs(steps[..|steps| - 1]);
      PushStep(front, steps[|steps| - 1])
  }

  /** Slots as differences, written only when none is negative. */
  function EncodeOrders(orders: seq<Fill>, last: int): seq<u8> {
    if orders == [] then []
    else Leb(SatSub(SlotOf(orders[0]), last)) + Leb(orders[0].lots) + EncodeOrders(orders[1..], SlotOf(orders[0]))
  }

  function SlotOf(f: Fill): u16 { if f.id.Order? then f.id.slot else 0 }

  function EncodeRun(r: LadderRun): seq<u8> {
    [r.maker, r.sideByte] + Leb(r.step) + Leb(r.len) + Leb(r.lots)
  }

  function EncodeRuns(runs: seq<LadderRun>): seq<u8> {
    if runs == [] then [] else EncodeRun(runs[0]) + EncodeRuns(runs[1..])
  }

  function EncodePotentials(ps: seq<i64>, prev: i64): seq<u8> {
    if ps == [] then [] else Leb(Zigzag(Wrap(ps[0] - prev))) + EncodePotentials(ps[1..], ps[0])
  }

  function EncodeTail(p: Proposal): seq<u8> {
    Leb(p.takerFill) + (Leb(|p.potentials|) + EncodePotentials(p.potentials, 0))
  }

  function EncodeLadders(runs: seq<LadderRun>): seq<u8> {
    Leb(|runs|) + EncodeRuns(runs)
  }

  function EncodeHead(fills: seq<Fill>): seq<u8> {
    Leb(|OrderFills(fills)|) + EncodeOrders(OrderFills(fills), 0)
  }

  /** Order slots never decrease; a negative difference aborts. */
  predicate SlotsRise(orders: seq<Fill>) {
    forall i :: 0 <= i < |orders| - 1 ==> SlotOf(orders[i]) <= SlotOf(orders[i + 1])
  }

  /** `Proposal::encode` of any proposal; None is an arithmetic abort. */
  function Encode(p: Proposal): Option<seq<u8>> {
    if !SlotsRise(OrderFills(p.fills)) || !SideBytesFit(p.fills) then None
    else
      var runs :- Runs(Steps(p.fills));
      Some(EncodeHead(p.fills) + (EncodeLadders(runs) + EncodeTail(p)))
  }

  lemma Associate(a: seq<u8>, b: seq<u8>, c: seq<u8>)
    ensures (a + b) + c == a + (b + c)
  {}

  // ---- Decoding -------------------------------------------------------------------------------------

  /** One order fill: the slot difference, then the lots. */
  function DecodeOrder(first: bool, slot: u64, s: seq<u8>): (r: Result<(Fill, seq<u8>)>)
    ensures r.Ok? ==> r.value.0.id.Order? && GoodFill(r.value.0)
  {
    var (d, s1) :- Var(s);
    if !first && d == 0 then DecodeError
    else if slot + d > U64_MAX then DecodeError
    else
      var (m, s2) :- Var(s1);
      if slot + d > U16_MAX || m == 0 || slot + d == U16_MAX then DecodeError
      else Ok((Fill(Order(slot + d), m), s2))
  }

  function DecodeOrders(n: nat, first: bool, slot: u64, s: seq<u8>): Result<(seq<Fill>, seq<u8>)> {
    if n == 0 then Ok(([], s))
    else
      var (f, s1) :- DecodeOrder(first, slot, s);
      var (fills, s2) :- DecodeOrders(n - 1, false, SlotOf(f), s1);
      Ok(([f] + fills, s2))
  }

  /** The fills of one run; a step past the last position is an error. */
  function RunFills(r: LadderRun): Result<seq<Fill>> {
    if r.step + r.len > U16_MAX + 1 then DecodeError else Ok(Map(Expand(r), ToFill()))
  }

  function Expand(r: LadderRun): (steps: seq<LadderStep>)
    requires r.step + r.len <= U16_MAX + 1
    ensures |steps| == r.len
            && forall i :: 0 <= i < r.len ==> steps[i] == LadderStep(r.maker, r.sideByte, r.step + i, r.lots)
  {
    seq(r.len, i requires 0 <= i < r.len => LadderStep(r.maker, r.sideByte, r.step + i, r.lots))
  }

  function ToU16(v: u64): Result<u16> { if v > U16_MAX then DecodeError else Ok(v) }

  function DecodeRun(s: seq<u8>): Result<(LadderRun, seq<u8>)> {
    var (maker, s1) :- Byte(s);
    var (sideByte, s2) :- Byte(s1);
    if sideByte / 2 >= MAX_TIERS then DecodeError
    else
      var (v, s3) :- Var(s2);
      var step :- ToU16(v);
      var (w, s4) :- Var(s3);
      var len :- ToU16(w);
      var (lots, s5) :- Var(s4);
      if lots == 0 || len == 0 then DecodeError
      else Ok((LadderRun(maker, sideByte, step, len, lots), s5))
  }

  function DecodeRuns(n: nat, s: seq<u8>): Result<(seq<Fill>, seq<u8>)> {
    if n == 0 then Ok(([], s))
    else
      var (r, s1) :- DecodeRun(s);
      var own :- RunFills(r);
      var (fills, s2) :- DecodeRuns(n - 1, s1);
      Ok((own + fills, s2))
  }

  function DecodePotentials(n: nat, prev: i64, s: seq<u8>): Result<(seq<i64>, seq<u8>)> {
    if n == 0 then Ok(([], s))
    else
      var (v, s1) :- Var(s);
      var p := Wrap(prev + Unzigzag(v));
      var (ps, s2) :- DecodePotentials(n - 1, p, s1);
      Ok(([p] + ps, s2))
  }

  /** Adjacent equal arcs, looked for after the sort. */
  predicate HasDuplicate(fills: seq<Fill>) {
    exists i :: 0 <= i < |fills| - 1 && fills[i].id == fills[i + 1].id
  }

  function DecodeFills(b: seq<u8>): Result<(seq<Fill>, seq<u8>)> {
    var (n, s1) :- Var(b);
    var (orders, s2) :- DecodeOrders(n, true, 0, s1);
    var (k, s3) :- Var(s2);
    var (ladders, s4) :- DecodeRuns(k, s3);
    var fills := Sort(orders + ladders, FillKey());
    if HasDuplicate(fills) then DecodeError else Ok((fills, s4))
  }

  function DecodeTail(s: seq<u8>): Result<(u64, seq<i64>)> {
    var (takerFill, s1) :- Var(s);
    var (n, s2) :- Var(s1);
    if n > MAX_POTENTIALS then DecodeError
    else
      var (ps, s3) :- DecodePotentials(n, 0, s2);
      if s3 != [] then DecodeError else Ok((takerFill, ps))
  }

  /** `Proposal::decode`. */
  function Decode(b: seq<u8>): Result<Proposal> {
    var (fills, s) :- DecodeFills(b);
    var (takerFill, potentials) :- DecodeTail(s);
    Ok(Proposal(fills, takerFill, potentials))
  }
}
