/** Whole runs of the Earn Fund: one fund, any number of lazily settled positions, and the record of every roll. */
module EarnFundRuns {
  import opened Numbers
  import opened Sums
  import opened EarnFundLedger
  import opened EarnFundRoll

  /** `records[k]` is the record of the roll that closed epoch `k`. */
  datatype World = World(fund: FundLedger, positions: seq<PositionLedger>, records: seq<EpochLedger>)

  function InitialWorld(now: u64): World {
    World(NewFund(now), [], [])
  }

  // ---- Steps --------------------------------------------------------------------------------

  /** The record that converts money deposited in epoch `e`, or the length. */
  function ConvertingRecord(rs: seq<EpochLedger>, e: u64): (k: nat)
    ensures k <= |rs|
    ensures k < |rs| ==> rs[k].Converts(e)
    ensures forall j :: 0 <= j < k ==> !rs[j].Converts(e)
  {
    if rs == [] then 0 else if rs[0].Converts(e) then 0 else 1 + ConvertingRecord(rs[1..], e)
  }

  predicate HasCompleted(r: EpochLedger, id: u64) {
    exists c :: c in r.completed && c.id == id
  }

  /** The record that completed batch `id`, or the length. */
  function CompletingRecord(rs: seq<EpochLedger>, id: u64): (k: nat)
    ensures k <= |rs|
    ensures k < |rs| ==> HasCompleted(rs[k], id)
    ensures forall j :: 0 <= j < k ==> !HasCompleted(rs[j], id)
  {
    if rs == [] then 0 else if HasCompleted(rs[0], id) then 0 else 1 + CompletingRecord(rs[1..], id)
  }

  function SettlePendingOf(w: World, i: nat): Result<World>
    requires i < |w.positions|
  {
    var p := w.positions[i];
    if !PendingOwed(p, w.fund) then Ok(w)
    else
      var k := ConvertingRecord(w.records, p.pendingEpoch);
      if k == |w.records| then Err(InvalidState)
      else
        var (p', r') :- SettlePending(p, w.records[k]);
        Ok(w.(positions := w.positions[i := p'], records := w.records[k := r']))
  }

  function SettleQueueOf(w: World, i: nat): Result<World>
    requires i < |w.positions|
  {
    var p := w.positions[i];
    var state :- QueueStateOf(p, w.fund);
    match state
    case Empty => Ok(w)
    case Accumulating => Ok(w)
    case Open(index) =>
      var (p', l') :- SettleOpenBatch(p, w.fund, index);
      Ok(w.(positions := w.positions[i := p'], fund := l'))
    case Completed =>
      var k := CompletingRecord(w.records, p.queueBatchId);
      if k == |w.records| then Err(InvalidState)
      else
        var (p', r', l') :- SettleCompletedBatch(p, w.records[k], w.fund);
        Ok(World(l', w.positions[i := p'], w.records[k := r']))
  }

  /** Apply everything a position is owed (`settle_position`). */
  function Settle(w: World, i: nat): Result<World>
    requires i < |w.positions|
  {
    var w1 :- SettlePendingOf(w, i);
    SettleQueueOf(w1, i)
  }

  datatype Action =
    | OpenPosition
    | SettlePosition(i: nat)
    | DepositAtoms(i: nat, amount: u64)
    | ConvertNow(i: nat, upper: u64)
    | Refund(i: nat, amount: u64)
    | QueueShares(i: nat, shares: u64)
    | ExitNow(i: nat, shares: u64, lower: u64, capBps: u16, now: u64)
    | CompleteWithdrawal(i: nat)
    | RollEpoch(minEpochSecs: u64, now: u64, lower: u64, upper: u64)
    | AllocateCash(minAllocation: u64, bufferBps: u16, amount: u64)
    | CollectReceipt(principal: u64, payout: u64)

  /** What an action does to a position that has just been settled. */
  function ActOn(l: FundLedger, p: PositionLedger, a: Action): Result<(FundLedger, PositionLedger)> {
    match a
    case DepositAtoms(_, amount) =>
      var l' :- Deposit(l, amount);
      var p' :- AddPending(p, amount, l.epoch);
      Ok((l', p'))
    case ConvertNow(_, upper) =>
      var (l', shares) :- ConvertPending(l, p.pendingAtoms, upper);
      var p1 :- TakePending(p, p.pendingAtoms);
      var owned :- Add(p1.shares, shares);
      Ok((l', p1.(shares := owned)))
    case Refund(_, amount) =>
      var p1 :- TakePending(p, amount);
      var l' :- RefundPending(l, amount);
      var p' :- RecordPaid(p1, amount);
      Ok((l', p'))
    case QueueShares(_, shares) =>
      var (p', l') :- Queue(p, shares, l);
      Ok((l', p'))
    case ExitNow(_, shares, lower, capBps, now) =>
      var mark :- NavPrice(l, lower);
      var q :- QuoteInstant(l, shares, mark, capBps, now);
      var p1 :- TakeShares(p, shares);
      var l' :- ApplyInstant(l, q);
      var p' :- RecordPaid(p1, q.payout);
      Ok((l', p'))
    case CompleteWithdrawal(_) =>
      var (p', l') :- Complete(p, l);
      Ok((l', p'))
    case _ => Ok((l, p))
  }

  predicate OnPosition(a: Action) {
    a.SettlePosition? || a.DepositAtoms? || a.ConvertNow? || a.Refund? || a.QueueShares? || a.ExitNow?
        || a.CompleteWithdrawal?
  }

  function Step(w: World, a: Action): Result<World> {
    if OnPosition(a) then
      if a.i >= |w.positions| then Err(InvalidState)
      else
        var w1 :- Settle(w, a.i);
        var (l, p) :- ActOn(w1.fund, w1.positions[a.i], a);
        Ok(w1.(fund := l, positions := w1.positions[a.i := p]))
    else match a
      case OpenPosition => Ok(w.(positions := w.positions + [EMPTY_POSITION]))
      case RollEpoch(minEpochSecs, now, lower, upper) =>
        var (l, o) :- Roll(w.fund, minEpochSecs, now, lower, upper);
        Ok(w.(fund := l, records := w.records + [RecordOf(o)]))
      case AllocateCash(minAllocation, bufferBps, amount) =>
        var l :- Allocate(w.fund, minAllocation, bufferBps, amount);
        Ok(w.(fund := l))
      case CollectReceipt(principal, payout) =>
        var l :- Collect(w.fund, principal, payout);
        Ok(w.(fund := l))
  }

  /** A failed action aborts its transaction and changes nothing. */
  function Run(w: World, actions: seq<Action>): World {
    if actions == [] then w
    else
      var before := Run(w, actions[..|actions| - 1]);
      var r := Step(before, actions[|actions| - 1]);
      if r.Ok? then r.value else before
  }

  // ---- The invariant ------------------------------------------------------------------------

  function Owned(): PositionLedger -> int { (p: PositionLedger) => p.shares }

  function Claimable(): PositionLedger -> int { (p: PositionLedger) => p.claimableAtoms }

  /** Pending money made in epoch `from` or later. */
  function PendingSince(from: int): PositionLedger -> int {
    (p: PositionLedger) => if p.pendingEpoch >= from then p.pendingAtoms else 0
  }

  /** Pending money made in the epochs `lo..hi`. */
  function PendingWithin(lo: int, hi: int): PositionLedger -> int {
    (p: PositionLedger) => if lo <= p.pendingEpoch <= hi then p.pendingAtoms else 0
  }

  function QueuedIn(id: int): PositionLedger -> int {
    (p: PositionLedger) => if p.queueBatchId == id then p.queueShares else 0
  }

  function CreditedIn(id: int): PositionLedger -> int {
    (p: PositionLedger) => if p.queueBatchId == id then p.queuePaidAtoms else 0
  }

  function UnsettledShares(): EpochLedger -> int { (r: EpochLedger) => r.convertedRemainingShares }

  function OpenDebt(): QueueBatch -> int { (b: QueueBatch) => b.filledAtoms - b.paidAtoms }

  function DoneDebt(): CompletedBatch -> int { (c: CompletedBatch) => c.filledAtoms - c.paidAtoms }

  function RecordDebt(): EpochLedger -> int { (r: EpochLedger) => Sum(r.completed, DoneDebt()) }

  /** A redemption batch seen from its members, open or completed. */
  datatype Account = Account(id: u64, shares: u64, filled: u64, paid: u64, settled: u64)

  function OfOpen(b: QueueBatch): Account { Account(b.id, b.shares, b.filledAtoms, b.paidAtoms, 0) }

  function OfDone(c: CompletedBatch): Account { Account(c.id, c.shares, c.filledAtoms, c.paidAtoms, c.settledShares) }

  /**
   * The members still in the batch hold exactly its unsettled shares; what members who left took, and what
   * each remaining member was credited, is at most the same fraction of the filled atoms.
   */
  ghost predicate AccountOk(a: Account, ps: seq<PositionLedger>) {
    && a.id != 0 && a.shares != 0 && a.settled <= a.shares && a.paid <= a.filled
    && a.shares - a.settled == Sum(ps, QueuedIn(a.id))
    && (a.paid - Sum(ps, CreditedIn(a.id))) * a.shares <= a.settled * a.filled
    && (forall p :: p in ps && p.queueBatchId == a.id ==> CreditOk(a, p))
  }

  predicate CreditOk(a: Account, p: PositionLedger) {
    p.queuePaidAtoms * a.shares <= p.queueShares * a.filled
  }

  predicate PositionOk(p: PositionLedger, l: FundLedger) {
    && (p.queueShares == 0 <==> p.queueBatchId == 0)
    && (p.queueShares == 0 ==> p.queuePaidAtoms == 0)
    && p.queueBatchId <= l.accumulatingBatchId
    && (p.queueBatchId == l.accumulatingBatchId ==> p.queuePaidAtoms == 0)
    && (p.pendingAtoms != 0 ==> p.pendingEpoch <= l.epoch)
  }

  ghost predicate ShapeInv(w: World) {
    && Consistent(w.fund)
    && |w.records| == w.fund.epoch
    && (forall p :: p in w.positions ==> PositionOk(p, w.fund))
  }

  /** The shares left in a record pay for every deposit still to be converted from it. */
  predicate Covers(price: SharePrice, atoms: int, shares: int) {
    atoms != 0 ==> if price.IsPar() then atoms <= shares
                   else price.assets > 0 && atoms * price.shares / price.assets <= shares
  }

  ghost predicate RecordOk(r: EpochLedger, k: int, carry: int, ps: seq<PositionLedger>) {
    && r.epoch == k
    && (r.pendingConverted ==>
          && r.carryFrom <= k < carry
          && r.convertedRemainingAtoms == Sum(ps, PendingWithin(r.carryFrom, k))
          && Covers(r.price, r.convertedRemainingAtoms, r.convertedRemainingShares))
    && (!r.pendingConverted ==> r.convertedRemainingShares == 0)
  }

  ghost predicate SomeConverts(rs: seq<EpochLedger>, e: u64) {
    exists k :: 0 <= k < |rs| && rs[k].Converts(e)
  }

  /** Every closed conversion window belongs to exactly one record. */
  ghost predicate WindowsPartition(rs: seq<EpochLedger>, carry: int) {
    && (forall e: u64 :: e < carry ==> SomeConverts(rs, e))
    && (forall j, k, e: u64 :: 0 <= j < |rs| && 0 <= k < |rs| && rs[j].Converts(e) && rs[k].Converts(e) ==> j == k)
  }

  ghost predicate PendingInv(w: World) {
    && w.fund.pendingDepositAtoms == Sum(w.positions, PendingSince(w.fund.pendingCarryFrom))
    && (forall k :: 0 <= k < |w.records| ==> RecordOk(w.records[k], k, w.fund.pendingCarryFrom, w.positions))
    && WindowsPartition(w.records, w.fund.pendingCarryFrom)
  }

  ghost predicate SharesInv(w: World) {
    w.fund.totalShares == Sum(w.positions, Owned()) + w.fund.queuedShares + Sum(w.records, UnsettledShares())
  }

  ghost predicate AccountsInv(w: World) {
    && w.fund.accumulatingShares == Sum(w.positions, QueuedIn(w.fund.accumulatingBatchId))
    && (forall b :: b in w.fund.openBatches ==> AccountOk(OfOpen(b), w.positions))
    && (forall k, c :: 0 <= k < |w.records| && c in w.records[k].completed ==> AccountOk(OfDone(c), w.positions))
  }

  predicate InRing(l: FundLedger, id: u64) {
    exists b :: b in l.openBatches && b.id == id
  }

  function DoneId(): CompletedBatch -> int { (c: CompletedBatch) => c.id }

  ghost predicate SomeCompleted(rs: seq<EpochLedger>, id: u64) {
    exists k :: 0 <= k < |rs| && HasCompleted(rs[k], id)
  }

  predicate OutOfRing(l: FundLedger, id: u64) {
    0 < id < l.accumulatingBatchId && !InRing(l, id)
  }

  /** No batch was completed twice. */
  ghost predicate CompletedOnce(rs: seq<EpochLedger>) {
    forall j, k, id: u64 :: 0 <= j < k < |rs| && HasCompleted(rs[j], id) ==> !HasCompleted(rs[k], id)
  }

  /** Every batch ever opened is in the ring or in exactly one record. */
  ghost predicate LocationInv(w: World) {
    && (forall id: u64 :: 0 < id < w.fund.accumulatingBatchId ==> InRing(w.fund, id) || SomeCompleted(w.records, id))
    && (forall id: u64 :: SomeCompleted(w.records, id) ==> OutOfRing(w.fund, id))
    && CompletedOnce(w.records)
    && (forall k :: 0 <= k < |w.records| ==> Ascending(w.records[k].completed, DoneId()))
  }

  ghost predicate ReserveInv(w: World) {
    w.fund.reservedWithdrawalAtoms
    == Sum(w.positions, Claimable()) + Sum(w.fund.openBatches, OpenDebt()) + Sum(w.records, RecordDebt())
  }

  ghost predicate Inv(w: World) {
    ShapeInv(w) && PendingInv(w) && SharesInv(w) && AccountsInv(w) && LocationInv(w) && ReserveInv(w)
  }

  // ---- Frames: what a change of one position leaves alone --------------------------------------

  predicate SameQueue(p: PositionLedger, q: PositionLedger) {
    p.queueShares == q.queueShares && p.queueBatchId == q.queueBatchId && p.queuePaidAtoms == q.queuePaidAtoms
  }

  lemma QueueFrame(ps: seq<PositionLedger>, i: nat, q: PositionLedger, id: int)
    requires i < |ps| && SameQueue(ps[i], q)
    ensures Sum(ps[i := q], QueuedIn(id)) == Sum(ps, QueuedIn(id))
    ensures Sum(ps[i := q], CreditedIn(id)) == Sum(ps, CreditedIn(id))
  {
    SumUpdate(ps, i, q, QueuedIn(id));
    SumUpdate(ps, i, q, CreditedIn(id));
  }

  lemma AccountFrame(a: Account, ps: seq<PositionLedger>, i: nat, q: PositionLedger)
    requires i < |ps| && SameQueue(ps[i], q) && AccountOk(a, ps)
    ensures AccountOk(a, ps[i := q])
  {
    QueueFrame(ps, i, q, a.id);
    forall p | p in ps[i := q] && p.queueBatchId == a.id ensures CreditOk(a, p) {
      assert p == q || p in ps;
      assert CreditOk(a, ps[i]) || ps[i].queueBatchId != a.id;
    }
  }

  /** A step of position `i` that leaves the ring, the records' batches and every queue field alone. */
  predicate QuietStep(w: World, w': World, i: nat) {
    && i < |w.positions| == |w'.positions|
    && w'.positions == w.positions[i := w'.positions[i]]
    && SameQueue(w.positions[i], w'.positions[i])
    && w'.fund.openBatches == w.fund.openBatches
    && w'.fund.accumulatingBatchId == w.fund.accumulatingBatchId
    && w'.fund.accumulatingShares == w.fund.accumulatingShares
    && SameBatches(w.records, w'.records)
  }

  lemma AccountsFrame(w: World, w': World, i: nat)
    requires AccountsInv(w) && QuietStep(w, w', i)
    ensures AccountsInv(w')
  {
    var q := w'.positions[i];
    QueueFrame(w.positions, i, q, w.fund.accumulatingBatchId);
    forall b | b in w'.fund.openBatches ensures AccountOk(OfOpen(b), w'.positions) {
      AccountFrame(OfOpen(b), w.positions, i, q);
    }
    forall k, c | 0 <= k < |w'.records| && c in w'.records[k].completed ensures AccountOk(OfDone(c), w'.positions) {
      assert c in w.records[k].completed;
      AccountFrame(OfDone(c), w.positions, i, q);
    }
  }

  predicate SameBatches(rs: seq<EpochLedger>, rs': seq<EpochLedger>) {
    |rs'| == |rs| && forall k :: 0 <= k < |rs| ==> rs'[k].completed == rs[k].completed
  }

  lemma {:induction false} DebtFrame(rs: seq<EpochLedger>, rs': seq<EpochLedger>)
    requires SameBatches(rs, rs')
    ensures Sum(rs', RecordDebt()) == Sum(rs, RecordDebt())
  {
    if rs != [] {
      DebtFrame(rs[..|rs| - 1], rs'[..|rs| - 1]);
    }
  }

  lemma ShapeFrame(w: World, w': World, i: nat)
    requires ShapeInv(w) && i < |w.positions| == |w'.positions| && |w'.records| == |w.records|
    requires w'.positions == w.positions[i := w'.positions[i]]
    requires w'.fund.epoch == w.fund.epoch && w'.fund.accumulatingBatchId == w.fund.accumulatingBatchId
    requires Consistent(w'.fund) && PositionOk(w'.positions[i], w'.fund)
    ensures ShapeInv(w')
  {
    forall p | p in w'.positions ensures PositionOk(p, w'.fund) {
      assert p == w'.positions[i] || p in w.positions;
    }
  }

  lemma ReserveFrame(w: World, w': World, i: nat)
    requires ReserveInv(w) && QuietStep(w, w', i)
    requires w'.fund.reservedWithdrawalAtoms - w.fund.reservedWithdrawalAtoms
             == w'.positions[i].claimableAtoms - w.positions[i].claimableAtoms
    ensures ReserveInv(w')
  {
    SumUpdate(w.positions, i, w'.positions[i], Claimable());
    DebtFrame(w.records, w'.records);
  }

  lemma LocationFrame(w: World, w': World, i: nat)
    requires LocationInv(w) && QuietStep(w, w', i)
    ensures LocationInv(w')
  {
    forall id: u64 | 0 < id < w'.fund.accumulatingBatchId ensures InRing(w'.fund, id) || SomeCompleted(w'.records, id) {
      if !InRing(w.fund, id) {
        assert SomeCompleted(w.records, id);
        var k :| 0 <= k < |w.records| && HasCompleted(w.records[k], id);
        assert HasCompleted(w'.records[k], id);
      }
    }
    forall id: u64 | SomeCompleted(w'.records, id) ensures OutOfRing(w'.fund, id) {
      var k :| 0 <= k < |w'.records| && HasCompleted(w'.records[k], id);
      assert HasCompleted(w.records[k], id);
      assert SomeCompleted(w.records, id);
    }
    forall j, k, id: u64 | 0 <= j < k < |w'.records|
        && HasCompleted(w'.records[j], id) ensures !HasCompleted(w'.records[k], id) {
      assert HasCompleted(w.records[j], id);
      assert !HasCompleted(w.records[k], id);
    }
  }

  predicate SamePending(p: PositionLedger, q: PositionLedger) {
    p.pendingAtoms == q.pendingAtoms && p.pendingEpoch == q.pendingEpoch
  }

  /** A step that leaves pending money and conversion windows alone keeps the pending accounts. */
  lemma PendingFrame(w: World, w': World, i: nat)
    requires PendingInv(w) && i < |w.positions|
    requires |w'.positions| == |w.positions| && w'.positions == w.positions[i := w'.positions[i]]
    requires SamePending(w.positions[i], w'.positions[i])
    requires w'.fund.pendingDepositAtoms == w.fund.pendingDepositAtoms
             && w'.fund.pendingCarryFrom == w.fund.pendingCarryFrom
    requires |w'.records| == |w.records|
    requires forall k :: 0 <= k < |w.records| ==> w'.records[k] == w.records[k].(completed := w'.records[k].completed)
    ensures PendingInv(w')
  {
    var q := w'.positions[i];
    SumUpdate(w.positions, i, q, PendingSince(w.fund.pendingCarryFrom));
    forall k | 0 <= k < |w'.records| ensures RecordOk(w'.records[k], k, w'.fund.pendingCarryFrom, w'.positions) {
      assert RecordOk(w.records[k], k, w.fund.pendingCarryFrom, w.positions);
      SumUpdate(w.positions, i, q, PendingWithin(w.records[k].carryFrom, k));
    }
    WindowsFrame(w.records, w'.records, w.fund.pendingCarryFrom);
  }

  lemma WindowsFrame(rs: seq<EpochLedger>, rs': seq<EpochLedger>, carry: int)
    requires WindowsPartition(rs, carry) && |rs'| == |rs|
    requires forall k :: 0 <= k < |rs| ==>
               && rs'[k].epoch == rs[k].epoch && rs'[k].pendingConverted == rs[k].pendingConverted
               && rs'[k].carryFrom == rs[k].carryFrom
    ensures WindowsPartition(rs', carry)
  {
    forall e: u64 | e < carry ensures SomeConverts(rs', e) {
      assert SomeConverts(rs, e);
      var k :| 0 <= k < |rs| && rs[k].Converts(e);
      assert rs'[k].Converts(e);
    }
    forall j, k, e: u64 | 0 <= j < |rs'| && 0 <= k < |rs'| && rs'[j].Converts(e) && rs'[k].Converts(e) ensures j == k {
      assert rs[j].Converts(e) && rs[k].Converts(e);
    }
  }
}
