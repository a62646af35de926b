/** Positions and roll records as mutable objects: each settlement method is the value model's settlement. */
module EarnFundPositions {
  import opened Numbers
  import opened EarnFundLedger
  import opened EarnFundObjects

  class Record {
    const epoch: u64
    const price: SharePrice
    const pendingConverted: bool
    const carryFrom: u64
    var convertedRemainingAtoms: u64
    var convertedRemainingShares: u64
    var completed: seq<CompletedBatch>

    constructor (r: EpochLedger)
      ensures View() == r
    {
      epoch, price, pendingConverted, carryFrom := r.epoch, r.price, r.pendingConverted, r.carryFrom;
      convertedRemainingAtoms, convertedRemainingShares := r.convertedRemainingAtoms, r.convertedRemainingShares;
      completed := r.completed;
    }

    function View(): EpochLedger
      reads this
    {
      EpochLedger(epoch, price, pendingConverted, carryFrom, convertedRemainingAtoms, convertedRemainingShares,
                  completed)
    }
  }

  class Position {
    var shares: u64
    var pendingAtoms: u64
    var pendingEpoch: u64
    var queueShares: u64
    var queueBatchId: u64
    var queuePaidAtoms: u64
    var claimableAtoms: u64
    var depositedAtoms: u64
    var withdrawnAtoms: u64

    constructor ()
      ensures View() == EMPTY_POSITION
    {
      shares, pendingAtoms, pendingEpoch := 0, 0, 0;
      queueShares, queueBatchId, queuePaidAtoms := 0, 0, 0;
      claimableAtoms, depositedAtoms, withdrawnAtoms := 0, 0, 0;
    }

    function View(): PositionLedger
      reads this
    {
      PositionLedger(shares, pendingAtoms, pendingEpoch, queueShares, queueBatchId, queuePaidAtoms, claimableAtoms,
                     depositedAtoms, withdrawnAtoms)
    }

    method SettlePending(record: Record) returns (r: Result<()>)
      modifies this, record
      ensures Applied(r, EarnFundLedger.SettlePending(old(View()), old(record.View())),
                      (old(View()), old(record.View())), (View(), record.View()))
    {
      if pendingAtoms == 0 || !record.View().Converts(pendingEpoch) { return Err(InvalidState); }
      var bought :- record.price.SharesForAtoms(pendingAtoms);
      var atomsLeft :- Sub(record.convertedRemainingAtoms, pendingAtoms);
      var sharesLeft :- Sub(record.convertedRemainingShares, bought);
      var owned :- Add(shares, bought);
      shares, pendingAtoms, pendingEpoch := owned, 0, 0;
      record.convertedRemainingAtoms, record.convertedRemainingShares := atomsLeft, sharesLeft;
      return Ok(());
    }

    /** Credit what an open batch has filled for this position, in the fund's own ring slot. */
    method SettleOpenBatch(fund: Fund, index: nat) returns (r: Result<()>)
      requires fund.Tidy()
      modifies this, fund.openBatches
      ensures fund.Tidy()
      ensures Applied(r, EarnFundLedger.SettleOpenBatch(old(View()), old(fund.View()), index),
                      (old(View()), old(fund.View())), (View(), fund.View()))
    {
      if index >= fund.openBatches.Length { return Err(InvalidState); }
      var batch := fund.openBatches[index];
      if batch.id != queueBatchId { return Err(InvalidState); }
      var entitled :- batch.Entitled(queueShares);
      var owed :- Sub(entitled, queuePaidAtoms);
      var paid :- Add(batch.paidAtoms, owed);
      if paid > batch.filledAtoms { return Err(InvalidState); }
      var claimable :- Add(claimableAtoms, owed);
      ghost var ring := fund.View().openBatches;
      fund.openBatches[index] := batch.(paidAtoms := paid);
      assert fund.View().openBatches == ring[index := batch.(paidAtoms := paid)];
      claimableAtoms, queuePaidAtoms := claimable, entitled;
      return Ok(());
    }

    /** Leave a completed batch; the last member to leave returns its dust to free cash. */
    method SettleCompletedBatch(record: Record, fund: Fund) returns (r: Result<()>)
      modifies this, record, fund
      ensures Applied(r, EarnFundLedger.SettleCompletedBatch(old(View()), old(record.View()), old(fund.View())),
                      (old(View()), old(record.View()), old(fund.View())), (View(), record.View(), fund.View()))
    {
      hide LeaveBatch, CompletedIndex;
      var k := CompletedIndex(record.completed, queueBatchId);
      if k == |record.completed| { return Err(InvalidState); }
      var exit :- LeaveBatch(record.completed[k], queueShares, queuePaidAtoms);
      var reserved :- Sub(fund.reservedWithdrawalAtoms, exit.dust);
      var free :- Add(fund.freeCashAtoms, exit.dust);
      var claimable :- Add(claimableAtoms, exit.owed);
      record.completed := record.completed[k := exit.batch];
      fund.reservedWithdrawalAtoms, fund.freeCashAtoms := reserved, free;
      claimableAtoms, queueShares, queueBatchId, queuePaidAtoms := claimable, 0, 0, 0;
      return Ok(());
    }

    method AddPending(amount: u64, currentEpoch: u64) returns (r: Result<()>)
      modifies this
      ensures Applied(r, EarnFundLedger.AddPending(old(View()), amount, currentEpoch), old(View()), View())
    {
      var pending :- Add(pendingAtoms, amount);
      var deposited :- Add(depositedAtoms, amount);
      depositedAtoms := deposited;
      if pendingAtoms == 0 { pendingEpoch := currentEpoch; }
      pendingAtoms := pending;
      return Ok(());
    }

    method TakePending(amount: u64) returns (r: Result<()>)
      modifies this
      ensures Applied(r, EarnFundLedger.TakePending(old(View()), amount), old(View()), View())
    {
      if amount == 0 || amount > pendingAtoms { return Err(InvalidAmount); }
      pendingAtoms := pendingAtoms - amount;
      if pendingAtoms == 0 { pendingEpoch := 0; }
      return Ok(());
    }

    /** Move owned shares into the fund's accumulating batch. */
    method Queue(amount: u64, fund: Fund) returns (r: Result<()>)
      modifies this, fund
      ensures Applied(r, EarnFundLedger.Queue(old(View()), amount, old(fund.View())),
                      (old(View()), old(fund.View())), (View(), fund.View()))
    {
      var state :- QueueStateOf(View(), fund.View());
      if state.Open? || state.Completed? { return Err(QueueBusy); }
      if amount == 0 || amount > shares { return Err(InvalidAmount); }
      var total :- Add(fund.queuedShares, amount);
      if total > fund.totalShares { return Err(InvalidAmount); }
      var accumulating :- Add(fund.accumulatingShares, amount);
      var queued :- Add(queueShares, amount);
      fund.accumulatingShares, fund.queuedShares := accumulating, total;
      shares, queueShares, queueBatchId := shares - amount, queued, fund.accumulatingBatchId;
      return Ok(());
    }

    /** Release the claimable atoms from the fund's reserve. */
    method Complete(fund: Fund) returns (r: Result<u64>)
      modifies this, fund
      ensures var model := EarnFundLedger.Complete(old(View()), old(fund.View()));
              if model.Ok? then r == Ok(old(claimableAtoms)) && (View(), fund.View()) == model.value
              else r == Err(model.error) && View() == old(View()) && fund.View() == old(fund.View())
    {
      var atoms := claimableAtoms;
      if atoms == 0 { return Err(InvalidAmount); }
      var withdrawn :- Add(withdrawnAtoms, atoms);
      var reserved :- Sub(fund.reservedWithdrawalAtoms, atoms);
      fund.reservedWithdrawalAtoms := reserved;
      withdrawnAtoms, claimableAtoms := withdrawn, 0;
      return Ok(atoms);
    }
  }
}
