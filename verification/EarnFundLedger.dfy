/** The Earn Fund's share ledger on values: prices, redemption batches, the fund, positions and roll records. */
module EarnFundLedger {
  import opened Numbers
  import opened Sums

  const BPS_DENOMINATOR: u64 := 10_000
  const MAX_OPEN_BATCHES: nat := 4
  const INSTANT_WINDOW_SECS: u64 := 86_400
  const MAX_FUND_EPOCH: u64 := 0xFF_FFFF_FFFF_FFFF
  const FIRST_BATCH_ID: u64 := 1

  datatype FundError =
    | Overflow | InvalidAmount | InsufficientCash | InstantCapExceeded | InvalidPrice
    | NotReady | InvalidState | BudgetExceeded | QueueBusy | Invested

  datatype Result<+T> = Ok(value: T) | Err(error: FundError) {
    predicate IsFailure() { Err? }
    function PropagateFailure<U>(): Result<U>
      requires Err?
    {
      Err(error)
    }
    function Extract(): T
      requires Ok?
    {
      value
    }
  }

  function Add(a: u64, b: u64): Result<u64> {
    if a + b <= U64_MAX then Ok(a + b) else Err(Overflow)
  }

  function Sub(a: u64, b: u64): Result<u64> {
    if b <= a then Ok(a - b) else Err(InvalidState)
  }

  function MulDivFloor(value: u64, numerator: u64, denominator: u64): Result<u64> {
    if denominator == 0 then Err(InvalidPrice)
    else
      var q := value * numerator / denominator;
      if 0 <= q <= U64_MAX then Ok(q) else Err(Overflow)
  }

  /** `assets / shares`; zero shares is par, one atom a share. */
  datatype SharePrice = SharePrice(assets: u64, shares: u64) {
    predicate IsPar() { shares == 0 }

    function AtomsForShares(s: u64): Result<u64> {
      if IsPar() then Ok(s) else MulDivFloor(s, assets, shares)
    }

    function SharesForAtoms(atoms: u64): Result<u64> {
      if IsPar() then Ok(atoms)
      else if assets == 0 then Err(InvalidPrice)
      else MulDivFloor(atoms, shares, assets)
    }
  }

  const PAR := SharePrice(0, 0)

  /** A redemption batch while it is being filled. */
  datatype QueueBatch = QueueBatch(id: u64, shares: u64, filledShares: u64, filledAtoms: u64, paidAtoms: u64) {
    predicate IsValid() {
      id != 0 && shares != 0 && filledShares <= shares && paidAtoms <= filledAtoms
    }

    function Remaining(): u64 { SatSub(shares, filledShares) }

    function Entitled(q: u64): Result<u64> {
      if q > shares then Err(InvalidState) else MulDivFloor(q, filledAtoms, shares)
    }
  }

  /** A fully filled batch in the record of the roll that completed it. */
  datatype CompletedBatch = CompletedBatch(id: u64, shares: u64, filledAtoms: u64, paidAtoms: u64, settledShares: u64)

  /** The fund-wide ledger. `openBatches` is the used part of the four-slot ring. */
  datatype FundLedger = FundLedger(
    totalShares: u64,
    epoch: u64,
    epochStartedTs: u64,
    price: SharePrice,
    capBaseAtoms: u64,
    freeCashAtoms: u64,
    pendingDepositAtoms: u64,
    pendingCarryFrom: u64,
    reservedWithdrawalAtoms: u64,
    queuedShares: u64,
    accumulatingBatchId: u64,
    accumulatingShares: u64,
    openBatches: seq<QueueBatch>,
    deployedAtoms: u64,
    windowUpdatedTs: u64,
    windowLevelAtoms: u64)

  function NewFund(now: u64): FundLedger {
    FundLedger(0, 0, now, PAR, 0, 0, 0, 0, 0, 0, FIRST_BATCH_ID, 0, [], 0, now, 0)
  }

  function BatchId(): QueueBatch -> int { (b: QueueBatch) => b.id }

  function BatchRemaining(): QueueBatch -> int { (b: QueueBatch) => b.Remaining() }

  predicate RingBatchOk(b: QueueBatch, accumulatingId: u64) {
    b.IsValid() && b.Remaining() != 0 && b.id < accumulatingId
  }

  /** Structural consistency of the queue and buckets (`is_consistent`). */
  predicate Consistent(l: FundLedger) {
    && |l.openBatches| <= MAX_OPEN_BATCHES
    && l.accumulatingBatchId != 0
    && l.pendingCarryFrom <= l.epoch
    && l.queuedShares <= l.totalShares
    && (forall b :: b in l.openBatches ==> RingBatchOk(b, l.accumulatingBatchId))
    && Ascending(l.openBatches, BatchId())
    && l.accumulatingShares + Sum(l.openBatches, BatchRemaining()) == l.queuedShares
  }

  function NavPrice(l: FundLedger, openValue: u64): Result<SharePrice> {
    var assets :- Add(l.freeCashAtoms, openValue);
    Ok(if l.totalShares == 0 then PAR else SharePrice(assets, l.totalShares))
  }

  function EntryPrice(l: FundLedger, openUpper: u64): Result<SharePrice> {
    if l.totalShares == 0 && l.deployedAtoms != 0 then Err(Invested) else NavPrice(l, openUpper)
  }

  function EntryShares(l: FundLedger, atoms: u64, openUpper: u64): Result<u64> {
    var price :- EntryPrice(l, openUpper);
    var shares :- price.SharesForAtoms(atoms);
    if shares == 0 then Err(InvalidAmount) else Ok(shares)
  }

  function ApplyConversion(l: FundLedger, atoms: u64, shares: u64): Result<FundLedger> {
    var pending :- Sub(l.pendingDepositAtoms, atoms);
    var free :- Add(l.freeCashAtoms, atoms);
    var total :- Add(l.totalShares, shares);
    Ok(l.(pendingDepositAtoms := pending, freeCashAtoms := free, totalShares := total))
  }

  function ConvertPending(l: FundLedger, atoms: u64, openUpper: u64): Result<(FundLedger, u64)> {
    var shares :- EntryShares(l, atoms, openUpper);
    var l' :- ApplyConversion(l, atoms, shares);
    Ok((l', shares))
  }

  function Deposit(l: FundLedger, amount: u64): Result<FundLedger> {
    if amount == 0 then Err(InvalidAmount)
    else
      var pending :- Add(l.pendingDepositAtoms, amount);
      Ok(l.(pendingDepositAtoms := pending))
  }

  function RefundPending(l: FundLedger, amount: u64): Result<FundLedger> {
    if amount == 0 then Err(InvalidAmount)
    else
      var pending :- Sub(l.pendingDepositAtoms, amount);
      Ok(l.(pendingDepositAtoms := pending))
  }

  function Enqueue(l: FundLedger, shares: u64): Result<FundLedger> {
    var queued :- Add(l.queuedShares, shares);
    if shares == 0 || queued > l.totalShares then Err(InvalidAmount)
    else
      var accumulating :- Add(l.accumulatingShares, shares);
      Ok(l.(accumulatingShares := accumulating, queuedShares := queued))
  }

  /** The instant-payout bucket at `now`, drained linearly by `cap` a day. */
  function WindowLevelAt(l: FundLedger, cap: u64, now: u64): Result<u64> {
    var elapsed := Min(SatSub(now, l.windowUpdatedTs), INSTANT_WINDOW_SECS);
    var drained :- MulDivFloor(cap, elapsed, INSTANT_WINDOW_SECS);
    Ok(SatSub(l.windowLevelAtoms, drained))
  }

  datatype InstantQuote = InstantQuote(shares: u64, payout: u64, price: SharePrice, now: u64, levelAfter: u64)

  function QuoteInstant(l: FundLedger, shares: u64, mark: SharePrice, capBps: u16, now: u64): Result<InstantQuote> {
    var unqueued :- Sub(l.totalShares, l.queuedShares);
    if shares == 0 || shares > unqueued then Err(InvalidAmount)
    else if l.deployedAtoms != 0 && shares == l.totalShares then Err(Invested)
    else
      var payout :- mark.AtomsForShares(shares);
      if payout == 0 then Err(InvalidAmount)
      else
        var cap :- MulDivFloor(l.capBaseAtoms, capBps, BPS_DENOMINATOR);
        var level :- WindowLevelAt(l, cap, now);
        var levelAfter :- Add(level, payout);
        if levelAfter > cap then Err(InstantCapExceeded)
        else if payout > l.freeCashAtoms then Err(InsufficientCash)
        else Ok(InstantQuote(shares, payout, mark, now, levelAfter))
  }

  function ApplyInstant(l: FundLedger, q: InstantQuote): Result<FundLedger> {
    var total :- Sub(l.totalShares, q.shares);
    var free :- Sub(l.freeCashAtoms, q.payout);
    Ok(l.(totalShares := total, freeCashAtoms := free, windowUpdatedTs := q.now, windowLevelAtoms := q.levelAfter))
  }

  function Allocate(l: FundLedger, minAllocation: u64, bufferBps: u16, amount: u64): Result<FundLedger> {
    if amount < minAllocation || amount == 0 then Err(InvalidAmount)
    else if amount > l.freeCashAtoms then Err(BudgetExceeded)
    else
      var deployed :- Add(l.deployedAtoms, amount);
      var free := l.freeCashAtoms - amount;
      if free * BPS_DENOMINATOR < bufferBps * (free + deployed) then Err(BudgetExceeded)
      else Ok(l.(freeCashAtoms := free, deployedAtoms := deployed))
  }

  function Collect(l: FundLedger, principal: u64, payout: u64): Result<FundLedger> {
    var deployed :- Sub(l.deployedAtoms, principal);
    var free :- Add(l.freeCashAtoms, payout);
    Ok(l.(freeCashAtoms := free, deployedAtoms := deployed))
  }

  /** The mutable record of one roll, used by lazy settlement. */
  datatype EpochLedger = EpochLedger(
    epoch: u64,
    price: SharePrice,
    pendingConverted: bool,
    carryFrom: u64,
    convertedRemainingAtoms: u64,
    convertedRemainingShares: u64,
    completed: seq<CompletedBatch>)
  {
    /** Does this record convert pending money made in epoch `e`? */
    predicate Converts(e: u64) {
      pendingConverted && carryFrom <= e <= epoch
    }
  }

  /** One owner's position. */
  datatype PositionLedger = PositionLedger(
    shares: u64,
    pendingAtoms: u64,
    pendingEpoch: u64,
    queueShares: u64,
    queueBatchId: u64,
    queuePaidAtoms: u64,
    claimableAtoms: u64,
    depositedAtoms: u64,
    withdrawnAtoms: u64)

  const EMPTY_POSITION := PositionLedger(0, 0, 0, 0, 0, 0, 0, 0, 0)

  datatype QueueState = Empty | Accumulating | Open(index: nat) | Completed

  /** First batch with the given id (`position(|batch| batch.id == id)`), or the length. */
  function OpenIndex(bs: seq<QueueBatch>, id: u64): (k: nat)
    ensures k <= |bs|
    ensures k < |bs| ==> bs[k].id == id
    ensures forall j :: 0 <= j < k ==> bs[j].id != id
  {
    if bs == [] then 0
    else if bs[0].id == id then 0
    else 1 + OpenIndex(bs[1..], id)
  }

  function CompletedIndex(cs: seq<CompletedBatch>, id: u64): (k: nat)
    ensures k <= |cs|
    ensures k < |cs| ==> cs[k].id == id
    ensures forall j :: 0 <= j < k ==> cs[j].id != id
  {
    if cs == [] then 0
    else if cs[0].id == id then 0
    else 1 + CompletedIndex(cs[1..], id)
  }

  predicate PendingOwed(p: PositionLedger, l: FundLedger) {
    p.pendingAtoms != 0 && p.pendingEpoch < l.pendingCarryFrom
  }

  function QueueStateOf(p: PositionLedger, l: FundLedger): Result<QueueState> {
    if p.queueShares == 0 then Ok(Empty)
    else if p.queueBatchId == l.accumulatingBatchId then Ok(Accumulating)
    else
      var k := OpenIndex(l.openBatches, p.queueBatchId);
      if k < |l.openBatches| then Ok(Open(k))
      else if p.queueBatchId != 0 && p.queueBatchId < l.accumulatingBatchId then Ok(Completed)
      else Err(InvalidState)
  }

  function SettlePending(p: PositionLedger, r: EpochLedger): Result<(PositionLedger, EpochLedger)> {
    if p.pendingAtoms == 0 || !r.Converts(p.pendingEpoch) then Err(InvalidState)
    else
      var shares :- r.price.SharesForAtoms(p.pendingAtoms);
      var atomsLeft :- Sub(r.convertedRemainingAtoms, p.pendingAtoms);
      var sharesLeft :- Sub(r.convertedRemainingShares, shares);
      var owned :- Add(p.shares, shares);
      Ok((p.(shares := owned, pendingAtoms := 0, pendingEpoch := 0),
          r.(convertedRemainingAtoms := atomsLeft, convertedRemainingShares := sharesLeft)))
  }

  /** Crediting a member of the batch in slot `index`; an unused slot of the ring holds the empty batch. */
  function SettleOpenBatch(p: PositionLedger, l: FundLedger, index: nat): Result<(PositionLedger, FundLedger)> {
    if index >= |l.openBatches| then
      Err(if index < MAX_OPEN_BATCHES && p.queueBatchId == 0 && p.queueShares == 0 then InvalidPrice else InvalidState)
    else
      var b := l.openBatches[index];
      if b.id != p.queueBatchId then Err(InvalidState)
      else
        var entitled :- b.Entitled(p.queueShares);
        var owed :- Sub(entitled, p.queuePaidAtoms);
        var paid :- Add(b.paidAtoms, owed);
        if paid > b.filledAtoms then Err(InvalidState)
        else
          var claimable :- Add(p.claimableAtoms, owed);
          Ok((p.(claimableAtoms := claimable, queuePaidAtoms := entitled),
              l.(openBatches := l.openBatches[index := b.(paidAtoms := paid)])))
  }

  /** A member's exit from a completed batch. */
  datatype Exit = Exit(batch: CompletedBatch, owed: u64, dust: u64)

  /** The batch after a member with `q` shares, credited `credited` so far, leaves it; the last one leaves dust. */
  function LeaveBatch(c: CompletedBatch, q: u64, credited: u64): Result<Exit> {
    if q > c.shares then Err(InvalidState)
    else
      var entitled :- MulDivFloor(q, c.filledAtoms, c.shares);
      var owed :- Sub(entitled, credited);
      var paid :- Add(c.paidAtoms, owed);
      var settled :- Add(c.settledShares, q);
      if paid > c.filledAtoms || settled > c.shares then Err(InvalidState)
      else
        var dust := if settled == c.shares then c.filledAtoms - paid else 0;
        Ok(Exit(c.(paidAtoms := paid + dust, settledShares := settled), owed, dust))
  }

  function SettleCompletedBatch(p: PositionLedger, r: EpochLedger, l: FundLedger)
    : Result<(PositionLedger, EpochLedger, FundLedger)>
  {
    var k := CompletedIndex(r.completed, p.queueBatchId);
    if k == |r.completed| then Err(InvalidState)
    else
      var exit :- LeaveBatch(r.completed[k], p.queueShares, p.queuePaidAtoms);
      var reserved :- Sub(l.reservedWithdrawalAtoms, exit.dust);
      var free :- Add(l.freeCashAtoms, exit.dust);
      var claimable :- Add(p.claimableAtoms, exit.owed);
      Ok((p.(claimableAtoms := claimable, queueShares := 0, queueBatchId := 0, queuePaidAtoms := 0),
          r.(completed := r.completed[k := exit.batch]),
          l.(reservedWithdrawalAtoms := reserved, freeCashAtoms := free)))
  }

  function AddPending(p: PositionLedger, amount: u64, currentEpoch: u64): Result<PositionLedger> {
    var pending :- Add(p.pendingAtoms, amount);
    var deposited :- Add(p.depositedAtoms, amount);
    Ok(p.(depositedAtoms := deposited, pendingAtoms := pending,
          pendingEpoch := if p.pendingAtoms == 0 then currentEpoch else p.pendingEpoch))
  }

  function RecordPaid(p: PositionLedger, atoms: u64): Result<PositionLedger> {
    var withdrawn :- Add(p.withdrawnAtoms, atoms);
    Ok(p.(withdrawnAtoms := withdrawn))
  }

  function TakePending(p: PositionLedger, amount: u64): Result<PositionLedger> {
    if amount == 0 || amount > p.pendingAtoms then Err(InvalidAmount)
    else
      var left := p.pendingAtoms - amount;
      Ok(p.(pendingAtoms := left, pendingEpoch := if left == 0 then 0 else p.pendingEpoch))
  }

  function TakeShares(p: PositionLedger, shares: u64): Result<PositionLedger> {
    if shares == 0 || shares > p.shares then Err(InvalidAmount) else Ok(p.(shares := p.shares - shares))
  }

  /** Queue shares into the accumulating batch; refused while an older batch still holds the position. */
  function Queue(p: PositionLedger, shares: u64, l: FundLedger): Result<(PositionLedger, FundLedger)> {
    var state :- QueueStateOf(p, l);
    if state.Open? || state.Completed? then Err(QueueBusy)
    else
      var p1 :- TakeShares(p, shares);
      var l1 :- Enqueue(l, shares);
      var queued :- Add(p1.queueShares, shares);
      Ok((p1.(queueShares := queued, queueBatchId := l.accumulatingBatchId), l1))
  }

  /** Release claimable atoms from the reserved bucket. */
  function Complete(p: PositionLedger, l: FundLedger): Result<(PositionLedger, FundLedger)> {
    if p.claimableAtoms == 0 then Err(InvalidAmount)
    else
      var withdrawn :- Add(p.withdrawnAtoms, p.claimableAtoms);
      var reserved :- Sub(l.reservedWithdrawalAtoms, p.claimableAtoms);
      Ok((p.(withdrawnAtoms := withdrawn, claimableAtoms := 0), l.(reservedWithdrawalAtoms := reserved)))
  }
}
