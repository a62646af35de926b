/** The marked value of a fund's open lots: one contiguous range instead of lot by lot. */
module MarkedValue {
  import opened Numbers
  import opened Wrappers
  import opened Sums
  import opened Participation
  import opened ParticipationRuns

  const BPS: int := 10_000

  /** The residual a mark is paid at: gains above the principal are credited in part, losses in full. */
  function Credited(total: u64, assets: u64, liability: u64, creditBps: u16): u64 {
    var residual := SatSub(assets, liability);
    if residual <= total then residual
    else
      var scaled := (residual - total) * creditBps;
      var gain := if scaled > U64_MAX then 0 else scaled / BPS;
      FloorGreatest(scaled, BPS, 0);
      Min(total + gain, U64_MAX)
  }

  function Floored(r: Result<u64>): Option<u64> {
    match r
    case Ok(v) => Some(v)
    case Err(Insolvent) => Some(0)
    case Err(_) => None
  }

  /** `marked_range_value`. */
  function MarkedRange(principal: u64, start: u128, end: u128, t: Totals, assets: u64, liability: u64,
                       creditBps: u16): Option<u64> {
    Floored(RangePayout(principal, start, end, t.principal, t.capitalSeconds,
                        Credited(t.principal, assets, liability, creditBps)))
  }

  /** `marked_lot_value`. */
  function MarkedLot(lot: Lot, t: Totals, assets: u64, liability: u64, creditBps: u16): Option<u64> {
    if Weight(lot).Err? || lot.offset + Size(lot) > U128_MAX then None
    else MarkedRange(lot.principal, lot.offset, lot.offset + Size(lot), t, assets, liability, creditBps)
  }

  function MarkedOf(t: Totals, assets: u64, liability: u64, creditBps: u16): Lot -> int {
    (l: Lot) => var v := MarkedLot(l, t, assets, liability, creditBps); if v.Some? then v.value else 0
  }

  /** What a lot receives at a residual, before a loss beyond its principal is floored at zero. */
  function ReceivesOf(t: Totals, residual: u64): Lot -> int
    requires t.capitalSeconds > 0
  {
    (l: Lot) => Receives(l.principal, t, residual, l.offset, End(l))
  }

  /** Signed receipts of contiguous lots telescope, whether or not some are insolvent. */
  lemma {:induction false} ReceiptsTelescope(lots: seq<Lot>, t: Totals, residual: u64, a: int, b: int)
    requires t.capitalSeconds > 0 && Tiles(lots, a, b)
    ensures Sum(lots, ReceivesOf(t, residual)) == Receives(Sum(lots, PrincipalOf()), t, residual, a, b)
  {
    if lots != [] {
      var n := |lots| - 1;
      TilesFront(lots, a, b);
      hide Tiles, Share, Size;
      ReceiptsTelescope(lots[..n], t, residual, a, lots[n].offset);
    }
  }

  lemma MarkedRangeIs(principal: u64, start: u128, end: u128, t: Totals, assets: u64, liability: u64, creditBps: u16)
    requires 0 < t.capitalSeconds && start <= end <= t.capitalSeconds && principal <= t.principal
    ensures MarkedRange(principal, start, end, t, assets, liability, creditBps)
         == Some(Max(0, Receives(principal, t, Credited(t.principal, assets, liability, creditBps), start, end)))
  {
    var residual := Credited(t.principal, assets, liability, creditBps);
    if Receives(principal, t, residual, start, end) >= 0 {
      RangeReceives(principal, t, residual, start, end);
    } else {
      var m := AbsDiff(residual, t.principal);
      ShareMono(m, start, end, t.capitalSeconds);
      ShareAtMost(m, start, t.capitalSeconds);
      ShareAtMost(m, end, t.capitalSeconds);
      hide Share, Credited;
    }
  }

  lemma MarkedLotIs(p: Pool, i: nat, assets: u64, liability: u64, creditBps: u16)
    requires Inv(p) && i < |p.lots| && p.totals.capitalSeconds > 0
    ensures var residual := Credited(p.totals.principal, assets, liability, creditBps);
            MarkedLot(p.lots[i], p.totals, assets, liability, creditBps)
                == Some(Max(0, ReceivesOf(p.totals, residual)(p.lots[i])))
  {
    var lot := p.lots[i];
    LotsInside(p, i);
    EndsInside(p.lots, 0, p.totals.capitalSeconds, i);
    hide Size, Credited, MarkedRange;
    MarkedRangeIs(lot.principal, lot.offset, End(lot), p.totals, assets, liability, creditBps);
  }

  lemma {:induction false} FlooredSum(lots: seq<Lot>, f: Lot -> int, g: Lot -> int)
    requires forall l :: l in lots ==> g(l) == Max(0, f(l))
    ensures Max(0, Sum(lots, f)) <= Sum(lots, g)
    ensures (forall l :: l in lots ==> f(l) >= 0) ==> Sum(lots, f) == Sum(lots, g)
  {
    if lots != [] {
      var n := |lots| - 1;
      assert lots[n] in lots;
      FlooredSum(lots[..n], f, g);
    }
  }

  /**
   * After any history the marked value of a stretch of lots is never above the sum of the lots' own marked
   * values, and is exactly that sum when no lot of the stretch is insolvent.
   */
  lemma RangeMarkNeverAboveLots(actions: seq<Action>, i: nat, j: nat, assets: u64, liability: u64, creditBps: u16)
    requires i < j <= |Run(EMPTY, actions).lots|
    ensures var Pool(t, lots) := Run(EMPTY, actions);
            var (part, residual) := (lots[i..j], Credited(t.principal, assets, liability, creditBps));
            var sum := Sum(part, MarkedOf(t, assets, liability, creditBps));
            && 0 <= Sum(part, PrincipalOf()) <= t.principal && 0 <= End(lots[j - 1]) <= U128_MAX
            && var mark := MarkedRange(Sum(part, PrincipalOf()), lots[i].offset, End(lots[j - 1]), t, assets, liability,
                                       creditBps);
               mark.Some? && mark.value <= sum && (AllPayable(part, t, residual) ==> mark.value == sum)
  {
    var p := Run(EMPTY, actions);
    EveryRunPartitions(actions);
    hide Run, MarkedRange, Credited, Size;
    EndsInside(p.lots, 0, p.totals.capitalSeconds, i);
    EndsInside(p.lots, 0, p.totals.capitalSeconds, j - 1);
    SliceFacts(p, i, j);
    MarkSlice(p, i, j, assets, liability, creditBps);
  }

  lemma MarkSlice(p: Pool, i: nat, j: nat, assets: u64, liability: u64, creditBps: u16)
    requires Inv(p) && i < j <= |p.lots| && p.totals.capitalSeconds > 0
    requires 0 <= Sum(p.lots[i..j], PrincipalOf()) <= p.totals.principal
             && End(p.lots[j - 1]) <= p.totals.capitalSeconds
    requires Tiles(p.lots[i..j], p.lots[i].offset, End(p.lots[j - 1])) && AllSound(p.lots[i..j])
    ensures var (part, t) := (p.lots[i..j], p.totals);
            var residual := Credited(t.principal, assets, liability, creditBps);
            var sum := Sum(part, MarkedOf(t, assets, liability, creditBps));
            var mark := MarkedRange(Sum(part, PrincipalOf()), p.lots[i].offset, End(p.lots[j - 1]), t, assets,
                                    liability, creditBps);
            mark.Some? && mark.value <= sum && (AllPayable(part, t, residual) ==> mark.value == sum)
  {
    var (part, t) := (p.lots[i..j], p.totals);
    var residual := Credited(t.principal, assets, liability, creditBps);
    var (f, g) := (ReceivesOf(t, residual), MarkedOf(t, assets, liability, creditBps));
    hide Size, Credited, MarkedRange, MarkedLot, FinalPayout, Receives, Inv;
    EndsInside(part, p.lots[i].offset, End(p.lots[j - 1]), 0);
    MarkedRangeIs(Sum(part, PrincipalOf()), p.lots[i].offset, End(p.lots[j - 1]), t, assets, liability, creditBps);
    ReceiptsTelescope(part, t, residual, p.lots[i].offset, End(p.lots[j - 1]));
    forall l | l in part
        ensures g(l) == Max(0, f(l)) && (FinalPayout(l, t.principal, t.capitalSeconds, residual).Ok? ==> f(l) >= 0) {
      var k :| 0 <= k < |part| && part[k] == l;
      assert p.lots[i + k] == l;
      LotMark(p, i + k, assets, liability, creditBps);
    }
    hide Tiles, AllSound;
    FlooredSum(part, f, g);
  }

  lemma LotMark(p: Pool, i: nat, assets: u64, liability: u64, creditBps: u16)
    requires Inv(p) && i < |p.lots| && p.totals.capitalSeconds > 0
    ensures var (l, t) := (p.lots[i], p.totals);
            var residual := Credited(t.principal, assets, liability, creditBps);
            var f := ReceivesOf(t, residual);
            && MarkedOf(t, assets, liability, creditBps)(l) == Max(0, f(l))
            && (FinalPayout(l, t.principal, t.capitalSeconds, residual).Ok? ==> f(l) >= 0)
  {
    MarkedLotIs(p, i, assets, liability, creditBps);
    LotsInside(p, i);
    PayoutIs(p.lots[i], p.totals.principal, p.totals.capitalSeconds,
             Credited(p.totals.principal, assets, liability, creditBps));
    hide FinalPayout, MarkedLot, Credited, Share, Size;
  }

  /**
   * What is credited: a loss in full; of a gain, the stated part rounded down, or none of it when the product leaves
   * u64. It lies between the principal and the residual whenever the part is at most the whole.
   */
  lemma CreditedIs(total: u64, assets: u64, liability: u64, creditBps: u16)
    ensures var (credited, residual) := (Credited(total, assets, liability, creditBps), Max(0, assets - liability));
            && (residual <= total ==> credited == residual)
            && (residual > total ==>
                  var product := (residual - total) * creditBps;
                  credited == if product > U64_MAX then total else Min(total + product / BPS, U64_MAX))
            && (residual > total && creditBps <= BPS ==> total <= credited <= residual)
            && (residual > total && creditBps == 0 ==> credited == total)
            && (residual > total && creditBps == BPS && (residual - total) * BPS <= U64_MAX ==> credited == residual)
  {
    if assets - liability > total { PartOfGain(assets - liability - total, creditBps); }
  }

  /** The floored part of a gain. */
  lemma PartOfGain(gain: nat, part: nat)
    ensures 0 <= gain * part / BPS && (part <= BPS ==> gain * part / BPS <= gain)
    ensures part == 0 ==> gain * part / BPS == 0
    ensures part == BPS ==> gain * part / BPS == gain
  {
    MulMono(0, gain, part);
    FloorGreatest(gain * part, BPS, 0);
    FloorIs(gain * BPS, BPS, gain);
    if part <= BPS {
      MulMono(part, BPS, gain);
      FloorMono(gain * part, gain * BPS, BPS);
    }
  }
}
