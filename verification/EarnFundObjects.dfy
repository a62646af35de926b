/** The Earn Fund's ledgers as the mutable objects of the program, each method proved against the value model. */
module EarnFundObjects {
  import opened Numbers
  import opened Sums
  import opened EarnFundLedger
  import opened EarnFundRoll

  const EMPTY_BATCH := QueueBatch(0, 0, 0, 0, 0)

  /** A method did what the value model does, or failed with its error and changed nothing. */
  predicate Applied<S(==)>(r: Result<()>, model: Result<S>, before: S, after: S) {
    if model.Ok? then r == Ok(()) && after == model.value else r == Err(model.error) && after == before
  }

  class Fund {
    var totalShares: u64
    var epoch: u64
    var epochStartedTs: u64
    var price: SharePrice
    var capBaseAtoms: u64
    var freeCashAtoms: u64
    var pendingDepositAtoms: u64
    var pendingCarryFrom: u64
    var reservedWithdrawalAtoms: u64
    var queuedShares: u64
    var accumulatingBatchId: u64
    var accumulatingShares: u64
    var openBatchCount: u8
    const openBatches: array<QueueBatch>
    var deployedAtoms: u64
    var windowUpdatedTs: u64
    var windowLevelAtoms: u64

    constructor (now: u64)
      ensures View() == NewFund(now) && Tidy() && fresh(openBatches)
    {
      totalShares, epoch, epochStartedTs, price := 0, 0, now, PAR;
      capBaseAtoms, freeCashAtoms, pendingDepositAtoms, pendingCarryFrom := 0, 0, 0, 0;
      reservedWithdrawalAtoms, queuedShares := 0, 0;
      accumulatingBatchId, accumulatingShares := FIRST_BATCH_ID, 0;
      openBatchCount, openBatches := 0, new QueueBatch[4](_ => EMPTY_BATCH);
      deployedAtoms, windowUpdatedTs, windowLevelAtoms := 0, now, 0;
    }

    function View(): FundLedger
      reads this, openBatches
    {
      FundLedger(totalShares, epoch, epochStartedTs, price, capBaseAtoms, freeCashAtoms, pendingDepositAtoms,
                 pendingCarryFrom, reservedWithdrawalAtoms, queuedShares, accumulatingBatchId, accumulatingShares,
                 openBatches[..Min(openBatchCount, openBatches.Length)], deployedAtoms, windowUpdatedTs,
                     windowLevelAtoms)
    }

    /** The ring's count fits its four slots and every unused slot is cleared. */
    ghost predicate Tidy()
      reads this, openBatches
    {
      && openBatches.Length == MAX_OPEN_BATCHES && openBatchCount <= MAX_OPEN_BATCHES
      && forall i :: openBatchCount <= i < MAX_OPEN_BATCHES ==> openBatches[i] == EMPTY_BATCH
    }

    method Deposit(amount: u64) returns (r: Result<()>)
      modifies this
      ensures Applied(r, EarnFundLedger.Deposit(old(View()), amount), old(View()), View())
    {
      if amount == 0 { return Err(InvalidAmount); }
      var pending :- Add(pendingDepositAtoms, amount);
      pendingDepositAtoms := pending;
      return Ok(());
    }

    method RefundPending(amount: u64) returns (r: Result<()>)
      modifies this
      ensures Applied(r, EarnFundLedger.RefundPending(old(View()), amount), old(View()), View())
    {
      if amount == 0 { return Err(InvalidAmount); }
      var pending :- Sub(pendingDepositAtoms, amount);
      pendingDepositAtoms := pending;
      return Ok(());
    }

    method ApplyConversion(atoms: u64, shares: u64) returns (r: Result<()>)
      modifies this
      ensures Applied(r, EarnFundLedger.ApplyConversion(old(View()), atoms, shares), old(View()), View())
    {
      var pending :- Sub(pendingDepositAtoms, atoms);
      var free :- Add(freeCashAtoms, atoms);
      var total :- Add(totalShares, shares);
      pendingDepositAtoms, freeCashAtoms, totalShares := pending, free, total;
      return Ok(());
    }

    method ConvertPending(atoms: u64, openUpper: u64) returns (r: Result<u64>)
      modifies this
      ensures var model := EarnFundLedger.ConvertPending(old(View()), atoms, openUpper);
              if model.Ok? then r == Ok(model.value.1) && View() == model.value.0
              else r == Err(model.error) && View() == old(View())
    {
      var shares :- EntryShares(View(), atoms, openUpper);
      var done := ApplyConversion(atoms, shares);
      if done.Err? { return Err(done.error); }
      return Ok(shares);
    }

    method Enqueue(shares: u64) returns (r: Result<u64>)
      modifies this
      ensures var model := EarnFundLedger.Enqueue(old(View()), shares);
              if model.Ok? then r == Ok(old(accumulatingBatchId)) && View() == model.value
              else r == Err(model.error) && View() == old(View())
    {
      var queued :- Add(queuedShares, shares);
      if shares == 0 || queued > totalShares { return Err(InvalidAmount); }
      var accumulating :- Add(accumulatingShares, shares);
      accumulatingShares, queuedShares := accumulating, queued;
      return Ok(accumulatingBatchId);
    }

    method ApplyInstant(q: InstantQuote) returns (r: Result<()>)
      modifies this
      ensures Applied(r, EarnFundLedger.ApplyInstant(old(View()), q), old(View()), View())
    {
      var total :- Sub(totalShares, q.shares);
      var free :- Sub(freeCashAtoms, q.payout);
      totalShares, freeCashAtoms, windowUpdatedTs, windowLevelAtoms := total, free, q.now, q.levelAfter;
      return Ok(());
    }

    method Allocate(minAllocation: u64, bufferBps: u16, amount: u64) returns (r: Result<()>)
      modifies this
      ensures Applied(r, EarnFundLedger.Allocate(old(View()), minAllocation, bufferBps, amount), old(View()), View())
    {
      if amount < minAllocation || amount == 0 { return Err(InvalidAmount); }
      if amount > freeCashAtoms { return Err(BudgetExceeded); }
      var deployed :- Add(deployedAtoms, amount);
      var free := freeCashAtoms - amount;
      if free * BPS_DENOMINATOR < bufferBps * (free + deployed) { return Err(BudgetExceeded); }
      freeCashAtoms, deployedAtoms := free, deployed;
      return Ok(());
    }

    method Collect(principal: u64, payout: u64) returns (r: Result<()>)
      modifies this
      ensures Applied(r, EarnFundLedger.Collect(old(View()), principal, payout), old(View()), View())
    {
      var deployed :- Sub(deployedAtoms, principal);
      var free :- Add(freeCashAtoms, payout);
      freeCashAtoms, deployedAtoms := free, deployed;
      return Ok(());
    }

    /** The program's ring walk decides exactly the structural consistency of the value model. */
    method IsConsistent() returns (ok: bool)
      requires openBatches.Length == MAX_OPEN_BATCHES
      ensures ok <==> Tidy() && Consistent(View())
    {
      if openBatchCount > MAX_OPEN_BATCHES || accumulatingBatchId == 0 || pendingCarryFrom > epoch
          || queuedShares > totalShares {
        return false;
      }
      var queued := RingQueue(openBatches[..], openBatchCount, accumulatingBatchId, accumulatingShares);
      assert openBatches[..][..openBatchCount] == View().openBatches;
      return queued == Ok(queuedShares);
    }

    /** The epoch close, loop by loop, is the value model's roll; nothing changes when it fails. */
    method Roll(minEpochSecs: u64, now: u64, lower: u64, upper: u64) returns (r: Result<RollOutcome>)
      requires openBatches.Length == MAX_OPEN_BATCHES
      modifies this, openBatches
      ensures var model := if !RollReady(old(View()), minEpochSecs, now) then Err(NotReady)
                           else if !old(Tidy()) then Err(InvalidState)
                           else EarnFundRoll.Roll(old(View()), minEpochSecs, now, lower, upper);
              if model.Ok? then r == Ok(model.value.1) && View() == model.value.0 && Tidy()
              else r == Err(model.error) && View() == old(View()) && (old(Tidy()) ==> Tidy())
    {
      var l := View();
      if !RollReady(l, minEpochSecs, now) { return Err(NotReady); }
      var consistent := IsConsistent();
      if !consistent { return Err(InvalidState); }
      var navPrice :- NavPrice(l, lower);
      var entry := EntryPrice(l, upper);
      var c :- ConvertAtRoll(l, entry);
      ConvertFacts(l, entry);
      RollBatchesFacts(l, c, navPrice);

      var batches := new QueueBatch[5](_ => EMPTY_BATCH);
      var taken := TakeQueue(l, c, navPrice, openBatches, openBatchCount, batches);
      if taken.Err? { return Err(taken.error); }
      var (n, accumulating, nextId) := taken.value;
      ghost var g := Batching(batches[..n], accumulating, nextId);
      FillRollFacts(g.batches, nextId, navPrice, c.free, c.total, l.deployedAtoms);
      var filled := FillQueue(batches, n, navPrice, c.free, c.total, deployedAtoms, nextId);
      if filled.Err? { return Err(filled.error); }
      var (remaining, burned, paid) := filled.value;
      ghost var f := batches[..n];
      assert FillRoll(g.batches, navPrice, c.free, c.total, l.deployedAtoms) == Ok(f);
      r := Finish(l, now, lower, if entry.Ok? then entry.value else navPrice, navPrice, c, g, batches, n,
                  accumulating, nextId, remaining, burned, paid);
    }

    /** The bookkeeping after the fill: buckets, the new ring and the completed batches. */
    method Finish(l: FundLedger, now: u64, lower: u64, recordPrice: SharePrice, exitPrice: SharePrice, c: Conversion,
                  ghost g: Batching, batches: array<QueueBatch>, n: nat, accumulating: u64, nextId: u64,
                  queueBefore: u64, burned: u64, paid: u64) returns (r: Result<RollOutcome>)
      requires l == View() && Tidy() && l.epoch < MAX_FUND_EPOCH && n <= batches.Length && batches != openBatches
      requires g.accumulatingShares == accumulating && g.accumulatingId == nextId
      requires burned == Burned(g.batches, batches[..n]) && paid == Paid(g.batches, batches[..n])
      requires queueBefore == TotalRemaining(g.batches)
      modifies this, openBatches
      ensures var model := CloseRoll(l, now, lower, recordPrice, exitPrice, c, g, old(batches[..n]));
              if model.Ok? then r == Ok(model.value.1) && View() == model.value.0 && Tidy()
              else r == Err(model.error) && View() == l && Tidy()
    {
      hide Consistent;
      if paid > c.free { return Err(InvalidState); }
      var total :- Sub(c.total, burned);
      var queued :- Sub(queuedShares, burned);
      var free := c.free - paid;
      var reserved :- Add(reservedWithdrawalAtoms, paid);
      var ring := new QueueBatch[4](_ => EMPTY_BATCH);
      var split := SplitDone(batches, n, ring);
      if split.Err? { return Err(split.error); }
      var (open, completed) := split.value;
      var postAssets :- Add(free, lower);
      var next := l.(
        totalShares := total, epoch := l.epoch + 1, epochStartedTs := now, price := exitPrice,
        capBaseAtoms := postAssets, freeCashAtoms := free, pendingDepositAtoms := c.pending,
        pendingCarryFrom := if c.converted then l.epoch + 1 else l.pendingCarryFrom,
        reservedWithdrawalAtoms := reserved, queuedShares := queued,
        accumulatingBatchId := nextId, accumulatingShares := accumulating, openBatches := ring[..open]);
      var consistent := ConsistentLedger(next);
      if !consistent { return Err(InvalidState); }
      Store(next, ring, open);
      return Ok(RollOutcome(l.epoch, recordPrice, c.converted, l.pendingCarryFrom, c.atoms, c.shares,
                            queueBefore, burned, paid, completed, postAssets, total));
    }

    method Store(next: FundLedger, ring: array<QueueBatch>, open: nat)
      requires open <= MAX_OPEN_BATCHES == ring.Length && openBatches.Length == MAX_OPEN_BATCHES && ring != openBatches
      requires next.openBatches == ring[..open] && forall i :: open <= i < MAX_OPEN_BATCHES ==> ring[i] == EMPTY_BATCH
      modifies this, openBatches
      ensures View() == next && Tidy()
    {
      var _ := CopyRing(ring, MAX_OPEN_BATCHES, openBatches);
      assert openBatches[..] == openBatches[..MAX_OPEN_BATCHES] == ring[..MAX_OPEN_BATCHES] == ring[..];
      assert openBatches[..open] == openBatches[..][..open] == ring[..][..open] == ring[..open];
      assert forall i :: open <= i < MAX_OPEN_BATCHES ==> openBatches[..][i] == ring[..][i];
      StoreBuckets(next);
      StoreQueue(next, open);
    }

    method StoreBuckets(next: FundLedger)
      modifies this`totalShares, this`epoch, this`epochStartedTs, this`price, this`capBaseAtoms, this`freeCashAtoms,
               this`pendingDepositAtoms, this`pendingCarryFrom
      ensures totalShares == next.totalShares && epoch == next.epoch && epochStartedTs == next.epochStartedTs
      ensures price == next.price && capBaseAtoms == next.capBaseAtoms && freeCashAtoms == next.freeCashAtoms
      ensures pendingDepositAtoms == next.pendingDepositAtoms && pendingCarryFrom == next.pendingCarryFrom
    {
      totalShares, epoch, epochStartedTs, price := next.totalShares, next.epoch, next.epochStartedTs, next.price;
      capBaseAtoms, freeCashAtoms := next.capBaseAtoms, next.freeCashAtoms;
      pendingDepositAtoms, pendingCarryFrom := next.pendingDepositAtoms, next.pendingCarryFrom;
    }

    method StoreQueue(next: FundLedger, open: u8)
      modifies this`reservedWithdrawalAtoms, this`queuedShares, this`accumulatingBatchId, this`accumulatingShares,
               this`deployedAtoms, this`windowUpdatedTs, this`windowLevelAtoms, this`openBatchCount
      ensures reservedWithdrawalAtoms == next.reservedWithdrawalAtoms && queuedShares == next.queuedShares
      ensures accumulatingBatchId == next.accumulatingBatchId && accumulatingShares == next.accumulatingShares
      ensures deployedAtoms == next.deployedAtoms && windowUpdatedTs == next.windowUpdatedTs
      ensures windowLevelAtoms == next.windowLevelAtoms && openBatchCount == open
    {
      reservedWithdrawalAtoms, queuedShares := next.reservedWithdrawalAtoms, next.queuedShares;
      accumulatingBatchId, accumulatingShares := next.accumulatingBatchId, next.accumulatingShares;
      deployedAtoms, windowUpdatedTs, windowLevelAtoms := next.deployedAtoms, next.windowUpdatedTs,
          next.windowLevelAtoms;
      openBatchCount := open;
    }
  }

  method ConsistentLedger(l: FundLedger) returns (ok: bool)
    ensures ok <==> Consistent(l)
  {
    if |l.openBatches| > MAX_OPEN_BATCHES || l.accumulatingBatchId == 0 || l.pendingCarryFrom > l.epoch
        || l.queuedShares > l.totalShares {
      return false;
    }
    var queued := RingQueue(l.openBatches, |l.openBatches|, l.accumulatingBatchId, l.accumulatingShares);
    assert l.openBatches[..|l.openBatches|] == l.openBatches;
    return queued == Ok(l.queuedShares);
  }

  /** The batches a roll fills: the ring, and the accumulating batch when it may join. */
  method TakeQueue(l: FundLedger, c: Conversion, price: SharePrice, ring: array<QueueBatch>, count: nat,
                   batches: array<QueueBatch>)
    returns (r: Result<(nat, u64, u64)>)
    requires count <= MAX_OPEN_BATCHES && count <= ring.Length && ring[..count] == l.openBatches && ring != batches
             && batches.Length == 5
    modifies batches
    ensures var model := RollBatches(l, c, price);
            if model.Ok? then
              && r.Ok? && r.value.0 <= 5
              && model.value == Batching(batches[..r.value.0], r.value.1, r.value.2)
            else r == Err(model.error)
  {
    var n := CopyRing(ring, count, batches);
    var ringRemaining := SumRemaining(batches, n);
    if ringRemaining.Err? { return Err(ringRemaining.error); }
    var queuedAll :- Add(ringRemaining.value, l.accumulatingShares);
    var allCost :- price.AtomsForShares(queuedAll);
    var completes := c.free >= allCost && (l.deployedAtoms == 0 || queuedAll != c.total);
    if l.accumulatingShares != 0 && (completes || n < MAX_OPEN_BATCHES) {
      ghost var front := batches[..n];
      batches[n] := QueueBatch(l.accumulatingBatchId, l.accumulatingShares, 0, 0, 0);
      assert batches[..n + 1] == front + [batches[n]];
      var nextId :- Add(l.accumulatingBatchId, 1);
      return Ok((n + 1, 0, nextId));
    }
    return Ok((n, l.accumulatingShares, l.accumulatingBatchId));
  }

  /** Fill the queue in place: shares queued before, shares burned and atoms paid. */
  method FillQueue(batches: array<QueueBatch>, n: nat, price: SharePrice, cash: u64, total: u64, deployed: u64,
                   ghost nextId: u64)
    returns (r: Result<(u64, u64, u64)>)
    requires n <= batches.Length && QueueOk(batches[..n], nextId)
    requires TotalRemaining(batches[..n]) <= price.shares && TotalRemaining(batches[..n]) <= total
    modifies batches
    ensures var bs := old(batches[..n]);
            var model := FillRoll(bs, price, cash, total, deployed);
            if model.Ok? && Burned(bs, model.value) <= U64_MAX && Paid(bs, model.value) <= U64_MAX
            then r == Ok((TotalRemaining(bs), Burned(bs, model.value), Paid(bs, model.value)))
                && batches[..n] == model.value
            else r == Err(Overflow)
  {
    var remaining := SumRemaining(batches, n);
    if remaining.Err? { return Err(Overflow); }
    if remaining.value == 0 { return Ok((0, 0, 0)); }
    FillTargetFacts(price, cash, remaining.value, total, deployed);
    var fill := FillTarget(price, cash, remaining.value, total, deployed).value;
    var filled := FillBatches(batches, n, price, fill, remaining.value);
    if filled.Err? { return Err(filled.error); }
    return Ok((remaining.value, filled.value.0, filled.value.1));
  }

  method CopyRing(ring: array<QueueBatch>, count: nat, batches: array<QueueBatch>) returns (n: nat)
    requires count <= ring.Length && count <= batches.Length && ring != batches
    modifies batches
    ensures n == count && batches[..n] == ring[..count]
  {
    for i := 0 to count
      invariant batches[..i] == ring[..i]
    {
      batches[i] := ring[i];
    }
    return count;
  }

  /** Checked sum of the remaining shares of the first `n` batches. */
  method SumRemaining(batches: array<QueueBatch>, n: nat) returns (r: Result<u64>)
    requires n <= batches.Length
    ensures r == if TotalRemaining(batches[..n]) <= U64_MAX then Ok(TotalRemaining(batches[..n])) else Err(Overflow)
  {
    var sum: u64 := 0;
    for i := 0 to n
      invariant sum == TotalRemaining(batches[..i])
    {
      assert batches[..i + 1] == batches[..i] + [batches[i]];
      SumSnoc(batches[..i], batches[i], BatchRemaining());
      var next := Add(sum, batches[i].Remaining());
      if next.Err? {
        assert batches[..n] == batches[..i + 1] + batches[i + 1..n];
        SumConcat(batches[..i + 1], batches[i + 1..n], BatchRemaining());
        SumNonNegative(batches[i + 1..n], BatchRemaining());
        return Err(Overflow);
      }
      sum := next.value;
    }
    return Ok(sum);
  }

  /** A filled queue's prefix is the filled prefix, and it burned and paid no more than the whole. */
  lemma {:induction false} FillAllPrefix(bs: seq<QueueBatch>, k: nat, price: SharePrice, fill: u64, remaining: u64)
    requires k <= |bs| && 0 < remaining && fill <= remaining && 0 < price.shares
    requires forall b :: b in bs ==> b.filledShares <= b.shares
    ensures var r := FillAll(bs, price, fill, remaining);
            && (r.Err? ==> r.error == Overflow)
            && (r.Ok? ==>
                  && |r.value| == |bs| && FillAll(bs[..k], price, fill, remaining) == Ok(r.value[..k])
                  && 0 <= Burned(bs[..k], r.value[..k]) <= Burned(bs, r.value)
                  && 0 <= Paid(bs[..k], r.value[..k]) <= Paid(bs, r.value))
  {
    FillAllEach(bs, price, fill, remaining);
    var r := FillAll(bs, price, fill, remaining);
    if k == |bs| {
      assert bs[..k] == bs;
      if r.Ok? {
        assert r.value[..k] == r.value;
        FairSums(bs, r.value, price, fill, remaining);
      }
    } else {
      var n := |bs| - 1;
      FillAllPrefix(bs[..n], k, price, fill, remaining);
      assert bs[..n][..k] == bs[..k];
      if r.Ok? {
        assert r.value[..n][..k] == r.value[..k];
        assert Filled(bs[n], r.value[n]);
      }
    }
  }

  /** One turn of the fill loop, and why an error of it is an error of the whole fill. */
  lemma FillStep(bs: seq<QueueBatch>, i: nat, front: seq<QueueBatch>, price: SharePrice, fill: u64, remaining: u64)
    requires i < |bs| && 0 < remaining && fill <= remaining && 0 < price.shares
    requires forall b :: b in bs ==> b.filledShares <= b.shares
    requires FillAll(bs[..i], price, fill, remaining) == Ok(front)
    ensures var x := FillBatch(bs[i], price, fill, remaining);
            var whole := FillAll(bs, price, fill, remaining);
            && (x.Err? ==> whole == Err(Overflow))
            && (x.Ok? ==>
                  && Filled(bs[i], x.value)
                  && FillAll(bs[..i + 1], price, fill, remaining) == Ok(front + [x.value])
                  && var burned := Burned(bs[..i], front) + x.value.filledShares - bs[i].filledShares;
                     var paid := Paid(bs[..i], front) + x.value.filledAtoms - bs[i].filledAtoms;
                     && Burned(bs[..i + 1], front + [x.value]) == burned && Paid(bs[..i + 1], front + [x.value]) == paid
                     && (whole.Ok? ==> burned <= Burned(bs, whole.value) && paid <= Paid(bs, whole.value))
                     && (whole.Err? ==> whole.error == Overflow))
  {
    assert bs[..i + 1] == bs[..i] + [bs[i]] && bs[..i + 1][..i] == bs[..i];
    assert bs[i] in bs;
    FillBatchFacts(bs[i], price, fill, remaining);
    FillAllPrefix(bs, i + 1, price, fill, remaining);
    SumSnoc(bs[..i], bs[i], FilledShares());
    SumSnoc(bs[..i], bs[i], FilledAtoms());
    var x := FillBatch(bs[i], price, fill, remaining);
    if x.Ok? {
      SumSnoc(front, x.value, FilledShares());
      SumSnoc(front, x.value, FilledAtoms());
    }
  }

  /** The fill loop: every batch in place, with the shares burned and the atoms paid. */
  method FillBatches(batches: array<QueueBatch>, n: nat, price: SharePrice, fill: u64, remaining: u64)
      returns (r: Result<(u64, u64)>)
    requires n <= batches.Length && 0 < remaining && fill <= remaining && 0 < price.shares
    requires forall b :: b in batches[..n] ==> b.filledShares <= b.shares
    modifies batches
    ensures var bs := old(batches[..n]);
            var model := FillAll(bs, price, fill, remaining);
            if model.Ok? && Burned(bs, model.value) <= U64_MAX && Paid(bs, model.value) <= U64_MAX
            then r == Ok((Burned(bs, model.value), Paid(bs, model.value))) && batches[..n] == model.value
            else r == Err(Overflow)
  {
    ghost var bs := batches[..n];
    var burned: u64, paid: u64 := 0, 0;
    for i := 0 to n
      invariant FillAll(bs[..i], price, fill, remaining) == Ok(batches[..i])
      invariant batches[i..n] == bs[i..]
      invariant burned == Burned(bs[..i], batches[..i]) && paid == Paid(bs[..i], batches[..i])
    {
      assert batches[i] == batches[i..n][0] == bs[i];
      FillStep(bs, i, batches[..i], price, fill, remaining);
      var filled := FillBatch(batches[i], price, fill, remaining);
      if filled.Err? { return Err(Overflow); }
      var moreBurned := Add(burned, filled.value.filledShares - batches[i].filledShares);
      var morePaid := Add(paid, filled.value.filledAtoms - batches[i].filledAtoms);
      if moreBurned.Err? || morePaid.Err? { return Err(Overflow); }
      burned, paid := moreBurned.value, morePaid.value;
      ghost var front, rest := batches[..i], batches[i + 1..n];
      batches[i] := filled.value;
      assert batches[..i + 1] == front + [filled.value] && batches[i + 1..n] == rest;
    }
    assert bs[..n] == bs;
    FillAllPrefix(bs, n, price, fill, remaining);
    return Ok((burned, paid));
  }

  /** Finished batches go to the outcome, the others to the new ring, in order. */
  method SplitDone(batches: array<QueueBatch>, n: nat, ring: array<QueueBatch>)
      returns (r: Result<(nat, seq<CompletedBatch>)>)
    requires n <= batches.Length && ring.Length == MAX_OPEN_BATCHES && ring != batches
    requires forall i :: 0 <= i < ring.Length ==> ring[i] == EMPTY_BATCH
    modifies ring
    ensures var open := Filter(batches[..n], IsOpen());
            if |open| <= MAX_OPEN_BATCHES then
              && r == Ok((|open|, AllCompleted(Filter(batches[..n], IsDone()))))
              && ring[..|open|] == open && forall i :: |open| <= i < ring.Length ==> ring[i] == EMPTY_BATCH
            else r == Err(InvalidState)
  {
    var open: nat := 0;
    var completed: seq<CompletedBatch> := [];
    for i := 0 to n
      invariant open <= MAX_OPEN_BATCHES
      invariant open == |Filter(batches[..i], IsOpen())| && ring[..open] == Filter(batches[..i], IsOpen())
      invariant forall j :: open <= j < ring.Length ==> ring[j] == EMPTY_BATCH
      invariant completed == AllCompleted(Filter(batches[..i], IsDone()))
    {
      var b := batches[i];
      assert batches[..i + 1] == batches[..i] + [b];
      FilterSnoc(batches[..i], b, IsOpen());
      FilterSnoc(batches[..i], b, IsDone());
      if b.Remaining() == 0 {
        completed := completed + [CompletedOf(b)];
      } else {
        if open == MAX_OPEN_BATCHES {
          assert batches[..n] == batches[..i + 1] + batches[i + 1..n];
          FilterLonger(batches[..i + 1], batches[i + 1..n], IsOpen());
          return Err(InvalidState);
        }
        ring[open] := b;
        open := open + 1;
      }
    }
    return Ok((open, completed));
  }

  lemma {:induction false} FilterLonger<T>(a: seq<T>, b: seq<T>, keep: T -> bool)
    ensures |Filter(a, keep)| <= |Filter(a + b, keep)|
  {
    if b == [] {
      assert a + b == a;
    } else {
      FilterLonger(a, b[..|b| - 1], keep);
      assert a + b == (a + b[..|b| - 1]) + [b[|b| - 1]];
      FilterSnoc(a + b[..|b| - 1], b[|b| - 1], keep);
    }
  }

  /** The shares queued in a well-formed ring of slots, counted in one walk. */
  method RingQueue(slots: seq<QueueBatch>, count: nat, accumulatingId: u64, accumulatingShares: u64)
      returns (r: Result<int>)
    requires count <= |slots| && accumulatingId != 0
    ensures r.Ok? <==>
            QueueOk(slots[..count], accumulatingId) && forall i :: count <= i < |slots| ==> slots[i] == EMPTY_BATCH
    ensures r.Ok? ==> r.value == accumulatingShares + Sum(slots[..count], BatchRemaining())
  {
    assert slots[..0] == [] && QueueOk([], accumulatingId);
    hide QueueOk;
    var queued: int := accumulatingShares;
    var previous: u64 := 0;
    var index := 0;
    while index < |slots|
      invariant 0 <= index <= |slots|
      invariant QueueOk(slots[..Min(index, count)], accumulatingId)
      invariant previous == if index == 0 || count == 0 then 0 else slots[Min(index, count) - 1].id
      invariant queued == accumulatingShares + Sum(slots[..Min(index, count)], BatchRemaining())
      invariant forall i :: count <= i < index ==> slots[i] == EMPTY_BATCH
    {
      var batch := slots[index];
      if index < count {
        assert slots[..index + 1] == slots[..index] + [batch];
        SumSnoc(slots[..index], batch, BatchRemaining());
        QueueOkSnoc(slots[..index], batch, accumulatingId);
        if !batch.IsValid() || batch.Remaining() == 0 || batch.id <= previous || batch.id >= accumulatingId {
          QueueOkPrefix(slots[..count], index + 1, accumulatingId);
          assert slots[..count][..index + 1] == slots[..index + 1];
          return Err(InvalidState);
        }
        previous := batch.id;
        queued := queued + batch.Remaining();
      } else if batch != EMPTY_BATCH {
        return Err(InvalidState);
      }
      index := index + 1;
    }
    return Ok(queued);
  }

  lemma QueueOkPrefix(bs: seq<QueueBatch>, n: nat, nextId: u64)
    requires n <= |bs|
    ensures QueueOk(bs, nextId) ==> QueueOk(bs[..n], nextId)
  {
    if QueueOk(bs, nextId) {
      forall i, j | 0 <= i < j < n ensures BatchId()(bs[..n][i]) < BatchId()(bs[..n][j]) {
        assert BatchId()(bs[i]) < BatchId()(bs[j]);
      }
    }
  }
}
