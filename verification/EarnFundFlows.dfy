/** Money in and out of the fund over whole runs, and what one settlement or instant exit pays. */
module EarnFundFlows {
  import opened Numbers
  import opened Sums
  import opened EarnFundLedger
  import opened EarnFundRoll
  import opened EarnFundRuns
  import opened EarnFundSettlement
  import opened EarnFundInvariant

  // ---- Cash is conserved over every run ------------------------------------------------------

  function Deposited(): PositionLedger -> int { (p: PositionLedger) => p.depositedAtoms }

  function Withdrawn(): PositionLedger -> int { (p: PositionLedger) => p.withdrawnAtoms }

  /** What the fund's cash manager sent to sleeves and got back. */
  datatype Investments = Investments(sent: int, returned: int, principal: int)

  /** The successful investments of a run. */
  function InvestedBy(w: World, actions: seq<Action>): Investments {
    if actions == [] then Investments(0, 0, 0)
    else
      var (front, a) := (actions[..|actions| - 1], actions[|actions| - 1]);
      var before := InvestedBy(w, front);
      if Step(Run(w, front), a).Err? then before
      else if a.AllocateCash? then before.(sent := before.sent + a.amount)
      else if a.CollectReceipt? then
        before.(returned := before.returned + a.payout, principal := before.principal + a.principal)
      else before
  }

  function Vault(l: FundLedger): int { l.freeCashAtoms + l.pendingDepositAtoms + l.reservedWithdrawalAtoms }

  /** The vault holds what owners put in and sleeves returned, less what owners took and sleeves were sent. */
  predicate Balanced(w: World, v: Investments) {
    && Vault(w.fund) == Sum(w.positions, Deposited()) - Sum(w.positions, Withdrawn()) + v.returned - v.sent
    && w.fund.deployedAtoms == v.sent - v.principal
  }

  /** Settling moves no money in or out. */
  lemma SettleMovesNoCash(w: World, i: nat)
    requires i < |w.positions| && Settle(w, i).Ok?
    ensures var w' := Settle(w, i).value;
            && |w'.positions| == |w.positions| && w'.positions == w.positions[i := w'.positions[i]]
            && Vault(w'.fund) == Vault(w.fund) && w'.fund.deployedAtoms == w.fund.deployedAtoms
            && w'.positions[i].depositedAtoms == w.positions[i].depositedAtoms
            && w'.positions[i].withdrawnAtoms == w.positions[i].withdrawnAtoms
            && w'.fund.capBaseAtoms == w.fund.capBaseAtoms
            && w'.fund.windowUpdatedTs == w.fund.windowUpdatedTs
            && w'.fund.windowLevelAtoms == w.fund.windowLevelAtoms
  {
    hide PendingOwed, QueueStateOf, ConvertingRecord, CompletingRecord, CompletedIndex, LeaveBatch;
  }

  lemma ActMovesCash(l: FundLedger, p: PositionLedger, a: Action)
    requires ActOn(l, p, a).Ok?
    ensures var (l', p') := ActOn(l, p, a).value;
            && Vault(l') - Vault(l)
               == (p'.depositedAtoms - p.depositedAtoms) - (p'.withdrawnAtoms - p.withdrawnAtoms)
            && l'.deployedAtoms == l.deployedAtoms
  {}

  lemma StepBalances(w: World, a: Action, v: Investments)
    requires Balanced(w, v) && Step(w, a).Ok?
    ensures Balanced(Step(w, a).value,
                     if a.AllocateCash? then v.(sent := v.sent + a.amount)
                     else if a.CollectReceipt? then
                       v.(returned := v.returned + a.payout, principal := v.principal + a.principal)
                     else v)
  {
    hide Settle, ActOn, Roll, Vault;
    if OnPosition(a) {
      SettleMovesNoCash(w, a.i);
      var w1 := Settle(w, a.i).value;
      ActMovesCash(w1.fund, w1.positions[a.i], a);
      var p := ActOn(w1.fund, w1.positions[a.i], a).value.1;
      SumUpdate(w.positions, a.i, w1.positions[a.i], Deposited());
      SumUpdate(w.positions, a.i, w1.positions[a.i], Withdrawn());
      SumUpdate(w1.positions, a.i, p, Deposited());
      SumUpdate(w1.positions, a.i, p, Withdrawn());
    } else if a.RollEpoch? {
      RollMovesNoCash(w.fund, a);
    } else if a.OpenPosition? {
      SumSnoc(w.positions, EMPTY_POSITION, Deposited());
      SumSnoc(w.positions, EMPTY_POSITION, Withdrawn());
    } else {
      InvestMovesCash(w.fund, a, Step(w, a).value.fund);
    }
  }

  lemma RollMovesNoCash(l: FundLedger, a: Action)
    requires a.RollEpoch? && Roll(l, a.minEpochSecs, a.now, a.lower, a.upper).Ok?
    ensures var l' := Roll(l, a.minEpochSecs, a.now, a.lower, a.upper).value.0;
            && Vault(l') == Vault(l) && l'.deployedAtoms == l.deployedAtoms
            && l'.windowUpdatedTs == l.windowUpdatedTs && l'.windowLevelAtoms == l.windowLevelAtoms
  {
    RollConserves(l, a.minEpochSecs, a.now, a.lower, a.upper);
    hide ConvertAtRoll, FillRoll, RollBatches, Consistent, NavPrice, EntryPrice;
  }

  lemma InvestMovesCash(l: FundLedger, a: Action, l': FundLedger)
    requires a.AllocateCash? ==> Allocate(l, a.minAllocation, a.bufferBps, a.amount) == Ok(l')
    requires a.CollectReceipt? ==> Collect(l, a.principal, a.payout) == Ok(l')
    ensures a.AllocateCash? ==> Vault(l') == Vault(l) - a.amount && l'.deployedAtoms == l.deployedAtoms + a.amount
    ensures a.CollectReceipt? ==> Vault(l') == Vault(l) + a.payout && l'.deployedAtoms == l.deployedAtoms - a.principal
  {}

  /** After every run the vault balances against every owner's own record and every investment. */
  lemma {:induction false} EveryRunConservesCash(now: u64, actions: seq<Action>)
    ensures Balanced(Run(InitialWorld(now), actions), InvestedBy(InitialWorld(now), actions))
  {
    var w := InitialWorld(now);
    if actions != [] {
      var (front, a) := (actions[..|actions| - 1], actions[|actions| - 1]);
      EveryRunConservesCash(now, front);
      hide Step, Balanced;
      if Step(Run(w, front), a).Ok? { StepBalances(Run(w, front), a, InvestedBy(w, front)); }
    }
  }

  // ---- Instant exits ------------------------------------------------------------------------

  /** Atoms the bucket may hold: `capBps` of the assets at the last roll. */
  function CapOf(l: FundLedger, capBps: u16): int { l.capBaseAtoms * capBps / BPS_DENOMINATOR }

  /** What of the bucket is still in use at `now`. */
  function InUse(l: FundLedger, cap: int, now: u64): int {
    Max(0, l.windowLevelAtoms - cap * Min(Max(now - l.windowUpdatedTs, 0), INSTANT_WINDOW_SECS) / INSTANT_WINDOW_SECS)
  }

  /** What `shares` are worth at the lower mark. */
  function Worth(l: FundLedger, shares: u64, lower: u64): int
    requires 0 < l.totalShares
  {
    shares * (l.freeCashAtoms + lower) / l.totalShares
  }

  predicate ExitAllowed(l: FundLedger, shares: u64, lower: u64, capBps: u16, now: u64) {
    && l.freeCashAtoms + lower <= U64_MAX && CapOf(l, capBps) <= U64_MAX
    && 0 < shares && l.queuedShares + shares <= l.totalShares && (l.deployedAtoms != 0 ==> shares < l.totalShares)
    && 0 < Worth(l, shares, lower) <= l.freeCashAtoms
    && InUse(l, CapOf(l, capBps), now) + Worth(l, shares, lower) <= CapOf(l, capBps)
  }

  /** The bucket drains by at most the cap, in proportion to the time passed. */
  lemma DrainFits(cap: int, elapsed: int)
    requires 0 <= cap && 0 <= elapsed <= INSTANT_WINDOW_SECS
    ensures 0 <= cap * elapsed / INSTANT_WINDOW_SECS <= cap
  {
    var day: int := INSTANT_WINDOW_SECS;
    MulMono(elapsed, day, cap);
    MulMono(0, elapsed, cap);
    FloorMono(cap * elapsed, cap * day, day);
    FloorIs(cap * day, day, cap);
    FloorGreatest(cap * elapsed, day, 0);
  }

  /** An instant exit is quoted exactly when it is allowed, at the floor of its worth. */
  lemma InstantIff(l: FundLedger, shares: u64, lower: u64, capBps: u16, now: u64)
    ensures var r := if NavPrice(l, lower).Ok? then QuoteInstant(l, shares, NavPrice(l, lower).value, capBps, now)
                     else Err(Overflow);
            && (r.Ok? <==> ExitAllowed(l, shares, lower, capBps, now))
            && (r.Ok? ==> r.value.shares == shares && r.value.now == now && r.value.payout == Worth(l, shares, lower)
                          && r.value.levelAfter == InUse(l, CapOf(l, capBps), now) + Worth(l, shares, lower))
  {
    var cap := CapOf(l, capBps);
    FloorGreatest(l.capBaseAtoms * capBps, BPS_DENOMINATOR, 0);
    DrainFits(cap, Min(Max(now - l.windowUpdatedTs, 0), INSTANT_WINDOW_SECS));
    if l.freeCashAtoms + lower <= U64_MAX && 0 < shares <= l.totalShares {
      CostFits(SharePrice(l.freeCashAtoms + lower, l.totalShares), shares);
    }
  }

  /** One instant exit of a run. */
  datatype InstantExit = InstantExit(now: int, payout: int, cap: int)

  /** The successful instant exits of a run: their times, caps and what each owner was paid. */
  function Exits(w: World, actions: seq<Action>): seq<InstantExit> {
    if actions == [] then []
    else
      var (front, a) := (actions[..|actions| - 1], actions[|actions| - 1]);
      var before := Run(w, front);
      var r := Step(before, a);
      if a.ExitNow? && r.Ok? && a.i < |before.positions| && a.i < |r.value.positions| then
        Exits(w, front) + [InstantExit(a.now,
                                       r.value.positions[a.i].withdrawnAtoms - before.positions[a.i].withdrawnAtoms,
                                CapOf(before.fund, a.capBps))]
      else Exits(w, front)
  }

  function Payout(): InstantExit -> int { (e: InstantExit) => e.payout }

  predicate InOrder(es: seq<InstantExit>) {
    forall i, j :: 0 <= i < j < |es| ==> es[i].now <= es[j].now
  }

  predicate WithinCap(es: seq<InstantExit>, cap: int) {
    forall e :: e in es ==> e.cap <= cap
  }

  /** After the exits so far: the bucket was last moved by the last of them and bounds what they paid. */
  predicate BucketBounds(l: FundLedger, es: seq<InstantExit>, cap: int) {
    es != [] ==>
      && l.windowUpdatedTs == es[|es| - 1].now && l.windowLevelAtoms <= cap
      && (Sum(es, Payout()) - l.windowLevelAtoms) * INSTANT_WINDOW_SECS <= cap * (es[|es| - 1].now - es[0].now)
  }

  /** What an instant exit does to the bucket and pays. */
  lemma ExitMovesBucket(w: World, a: Action)
    requires a.ExitNow? && Step(w, a).Ok?
    ensures var w' := Step(w, a).value;
            var cap := CapOf(w.fund, a.capBps);
            && a.i < |w.positions| == |w'.positions|
            && w'.fund.windowUpdatedTs == a.now && w'.fund.windowLevelAtoms <= cap
            && w'.fund.windowLevelAtoms
               == InUse(w.fund, cap, a.now) + w'.positions[a.i].withdrawnAtoms - w.positions[a.i].withdrawnAtoms
  {
    hide Settle;
    SettleMovesNoCash(w, a.i);
    var w1 := Settle(w, a.i).value;
    hide Vault;
    InstantIff(w1.fund, a.shares, a.lower, a.capBps, a.now);
    hide QuoteInstant, NavPrice, CapOf, Worth;
  }

  /** No other action touches the bucket. */
  lemma OthersKeepBucket(w: World, a: Action)
    requires !a.ExitNow? && Step(w, a).Ok?
    ensures var l' := Step(w, a).value.fund;
            l'.windowUpdatedTs == w.fund.windowUpdatedTs && l'.windowLevelAtoms == w.fund.windowLevelAtoms
  {
    hide Settle, Roll, Vault;
    if OnPosition(a) {
      SettleMovesNoCash(w, a.i);
    } else if a.RollEpoch? {
      RollMovesNoCash(w.fund, a);
    }
  }

  /** What the bucket drains in the time since the last exit. */
  lemma DrainedAtMost(level: int, used: int, cap: int, most: int, elapsed: int, waited: int)
    requires 0 <= cap <= most && 0 <= elapsed <= waited
    requires used == Max(0, level - cap * elapsed / INSTANT_WINDOW_SECS)
    ensures (level - used) * INSTANT_WINDOW_SECS <= most * waited
  {
    var day: int := INSTANT_WINDOW_SECS;
    var drained := cap * elapsed / day;
    FloorBounds(cap * elapsed, day);
    MulMono(elapsed, waited, cap);
    MulMono(cap, most, waited);
    MulMono(level - used, drained, day);
  }

  /** One more exit keeps the bound. */
  lemma ExitKeepsBound(l: FundLedger, l': FundLedger, es: seq<InstantExit>, e: InstantExit, cap: int)
    requires BucketBounds(l, es, cap) && InOrder(es + [e]) && 0 <= e.cap <= cap
    requires 0 <= e.now <= U64_MAX && l'.windowUpdatedTs == e.now && l'.windowLevelAtoms <= e.cap
    requires l'.windowLevelAtoms == InUse(l, e.cap, e.now) + e.payout
    ensures BucketBounds(l', es + [e], cap)
  {
    var all := es + [e];
    SumSnoc(es, e, Payout());
    assert all[|all| - 1] == e;
    if es == [] {
      assert Sum(es, Payout()) == 0;
    } else {
      var (was, first, last) := (Sum(es, Payout()), es[0].now, es[|es| - 1].now);
      assert all[|es| - 1].now <= all[|es|].now;
      assert all[0] == es[0];
      var used := InUse(l, e.cap, e.now);
      DrainedAtMost(l.windowLevelAtoms, used, e.cap, cap, Min(e.now - last, INSTANT_WINDOW_SECS), e.now - last);
      hide InUse, Sum;
      BoundAdds(was, l.windowLevelAtoms, used, e.payout, cap, last - first, e.now - last);
    }
  }

  lemma BoundAdds(was: int, level: int, used: int, payout: int, cap: int, before: int, waited: int)
    requires (was - level) * INSTANT_WINDOW_SECS <= cap * before
    requires (level - used) * INSTANT_WINDOW_SECS <= cap * waited
    ensures (was + payout - (used + payout)) * INSTANT_WINDOW_SECS <= cap * (before + waited)
  {
    assert cap * (before + waited) == cap * before + cap * waited;
  }

  lemma {:induction false} RunKeepsBound(w: World, actions: seq<Action>, cap: int)
    requires InOrder(Exits(w, actions)) && WithinCap(Exits(w, actions), cap)
    ensures BucketBounds(Run(w, actions).fund, Exits(w, actions), cap)
  {
    if actions != [] {
      hide Step, BucketBounds, CapOf;
      var (front, a) := (actions[..|actions| - 1], actions[|actions| - 1]);
      var before := Run(w, front);
      var (es, all) := (Exits(w, front), Exits(w, actions));
      assert all == es || (all == es + [all[|es|]] && all[|es|] in all);
      assert forall j :: 0 <= j < |es| ==> es[j] == all[j];
      RunKeepsBound(w, front, cap);
      if Step(before, a).Ok? {
        if a.ExitNow? {
          ExitMovesBucket(before, a);
          CapNonNegative(before.fund, a.capBps);
          ExitKeepsBound(before.fund, Step(before, a).value.fund, es, all[|es|], cap);
        } else {
          OthersKeepBucket(before, a);
          SameBucketBounds(before.fund, Step(before, a).value.fund, es, cap);
        }
      }
    }
  }

  lemma SameBucketBounds(l: FundLedger, l': FundLedger, es: seq<InstantExit>, cap: int)
    requires BucketBounds(l, es, cap)
    requires l'.windowUpdatedTs == l.windowUpdatedTs && l'.windowLevelAtoms == l.windowLevelAtoms
    ensures BucketBounds(l', es, cap)
  {}

  lemma CapNonNegative(l: FundLedger, capBps: u16)
    ensures 0 <= CapOf(l, capBps)
  {
    FloorGreatest(l.capBaseAtoms * capBps, BPS_DENOMINATOR, 0);
  }

  /**
   * Over any stretch of any run whose clock does not run backwards, instant exits pay at most one cap plus one cap
   * a day, whatever rolls, deposits and settlements lie between them.
   */
  lemma InstantPayoutsBounded(w: World, actions: seq<Action>, cap: int)
    requires InOrder(Exits(w, actions)) && WithinCap(Exits(w, actions), cap) && Exits(w, actions) != []
    ensures var es := Exits(w, actions);
            (Sum(es, Payout()) - cap) * INSTANT_WINDOW_SECS <= cap * (es[|es| - 1].now - es[0].now)
  {
    RunKeepsBound(w, actions, cap);
    var (es, level: int) := (Exits(w, actions), Run(w, actions).fund.windowLevelAtoms);
    hide Exits, Run;
    MulMono(Sum(es, Payout()) - cap, Sum(es, Payout()) - level, INSTANT_WINDOW_SECS);
  }

  // ---- What one settlement gives ----------------------------------------------------------------

  /** The pending money of `p` became shares at the price of the roll that converted its epoch. */
  predicate ConvertedBy(p: PositionLedger, p': PositionLedger, r: EpochLedger) {
    && r.Converts(p.pendingEpoch)
    && p'.pendingAtoms == 0
    && (if r.price.shares == 0 then p'.shares == p.shares + p.pendingAtoms
        else 0 < r.price.assets && p'.shares == p.shares + p.pendingAtoms * r.price.shares / r.price.assets)
  }

  /** A batch of this world, open or completed. */
  ghost predicate OpenAccount(w: World, a: Account) {
    exists b :: b in w.fund.openBatches && a == OfOpen(b)
  }

  ghost predicate DoneAccount(w: World, a: Account) {
    exists k, c :: 0 <= k < |w.records| && c in w.records[k].completed && a == OfDone(c)
  }

  /** The member was credited up to exactly its part of the batch's filled atoms, rounded down. */
  predicate CreditedUp(p: PositionLedger, p': PositionLedger, a: Account) {
    && a.id == p.queueBatchId && p.queueShares <= a.shares && 0 < a.shares
    && p'.claimableAtoms == p.claimableAtoms + p.queueShares * a.filled / a.shares - p.queuePaidAtoms
  }

  /** How a settlement of the queue may end: nothing due, credited in an open batch, or out of a completed one. */
  ghost predicate QueueSettled(w: World, p: PositionLedger, p': PositionLedger, a: Account) {
    if p.queueShares == 0 || p.queueBatchId == w.fund.accumulatingBatchId then
      p'.claimableAtoms == p.claimableAtoms && SameQueue(p, p')
    else
      && CreditedUp(p, p', a)
      && (if InRing(w.fund, p.queueBatchId) then
            && OpenAccount(w, a) && p'.queueShares == p.queueShares && p'.queueBatchId == p.queueBatchId
            && p'.queuePaidAtoms == p.queueShares * a.filled / a.shares
          else
            DoneAccount(w, a) && p'.queueShares == 0 && p'.queueBatchId == 0 && p'.queuePaidAtoms == 0)
  }

  lemma SettlePendingExact(w: World, i: nat)
    requires i < |w.positions| && SettlePendingOf(w, i).Ok?
    ensures var (p, w') := (w.positions[i], SettlePendingOf(w, i).value);
            && |w'.positions| == |w.positions| && w'.fund == w.fund
            && SameQueue(p, w'.positions[i]) && w'.positions[i].claimableAtoms == p.claimableAtoms
            && SameBatches(w.records, w'.records)
            && (if PendingOwed(p, w.fund) then exists r :: r in w.records && ConvertedBy(p, w'.positions[i], r)
                else w'.positions[i] == p)
  {
    var (p, w') := (w.positions[i], SettlePendingOf(w, i).value);
    if PendingOwed(p, w.fund) {
      var k := ConvertingRecord(w.records, p.pendingEpoch);
      assert w.records[k] in w.records && ConvertedBy(p, w'.positions[i], w.records[k]);
    }
  }

  lemma SettleQueueExact(w: World, i: nat)
    requires ShapeInv(w) && i < |w.positions| && SettleQueueOf(w, i).Ok?
    ensures var (p, p') := (w.positions[i], SettleQueueOf(w, i).value.positions[i]);
            && i < |SettleQueueOf(w, i).value.positions| && p'.shares == p.shares && SamePending(p, p')
            && exists a :: QueueSettled(w, p, p', a)
  {
    var p := w.positions[i];
    var state := QueueStateOf(p, w.fund).value;
    var p' := SettleQueueOf(w, i).value.positions[i];
    match state
    case Empty => assert QueueSettled(w, p, p', Account(0, 0, 0, 0, 0));
    case Accumulating => assert QueueSettled(w, p, p', Account(0, 0, 0, 0, 0));
    case Open(index) =>
      var b := w.fund.openBatches[index];
      assert b in w.fund.openBatches;
      assert RingBatchOk(b, w.fund.accumulatingBatchId);
      assert QueueSettled(w, p, p', OfOpen(b));
    case Completed =>
      var k := CompletingRecord(w.records, p.queueBatchId);
      var j := CompletedIndex(w.records[k].completed, p.queueBatchId);
      var c := w.records[k].completed[j];
      assert c in w.records[k].completed;
      assert QueueSettled(w, p, p', OfDone(c));
  }

  /**
   * Settling in any world whose accounts agree gives a position exactly its shares at its roll's price and credits
   * it up to exactly its part of its batch; a position with nothing due is left as it was.
   */
  lemma SettleExact(w: World, i: nat)
    requires Inv(w) && i < |w.positions| && Settle(w, i).Ok?
    ensures var (p, p') := (w.positions[i], Settle(w, i).value.positions[i]);
            && i < |Settle(w, i).value.positions|
            && (if p.pendingAtoms != 0 && p.pendingEpoch < w.fund.pendingCarryFrom then exists r ::
                r in w.records && ConvertedBy(p, p', r)
                else p'.shares == p.shares && SamePending(p, p'))
            && exists a :: QueueSettled(w, p, p', a)
  {
    hide SettlePendingOf, SettleQueueOf, Inv, ShapeInv, QueueSettled, ConvertedBy, SameBatches;
    SettlePendingExact(w, i);
    SettlePendingKeeps(w, i);
    var w1 := SettlePendingOf(w, i).value;
    InvShape(w1);
    SettleQueueExact(w1, i);
    var (p, p1, p') := (w.positions[i], w1.positions[i], Settle(w, i).value.positions[i]);
    var a :| QueueSettled(w1, p1, p', a);
    SameSettlement(w, w1, p, p1, p', a);
    if PendingOwed(p, w.fund) {
      var r :| r in w.records && ConvertedBy(p, p1, r);
      SameConversion(p, p1, p', r);
    }
  }

  lemma InvShape(w: World)
    requires Inv(w)
    ensures ShapeInv(w)
  {}

  lemma SameConversion(p: PositionLedger, p1: PositionLedger, p': PositionLedger, r: EpochLedger)
    requires ConvertedBy(p, p1, r) && p'.shares == p1.shares && SamePending(p1, p')
    ensures ConvertedBy(p, p', r)
  {}

  /** Converting the pending money first changes nothing about the queue. */
  lemma SameSettlement(w: World, w1: World, p: PositionLedger, p1: PositionLedger, p': PositionLedger, a: Account)
    requires QueueSettled(w1, p1, p', a)
    requires w1.fund == w.fund && SameBatches(w.records, w1.records)
    requires SameQueue(p, p1) && p1.claimableAtoms == p.claimableAtoms
    ensures QueueSettled(w, p, p', a)
  {
    SameAccounts(w, w1, a);
  }

  lemma SameAccounts(w: World, w1: World, a: Account)
    requires w1.fund == w.fund && SameBatches(w.records, w1.records)
    ensures OpenAccount(w1, a) ==> OpenAccount(w, a)
    ensures DoneAccount(w1, a) ==> DoneAccount(w, a)
  {
    if DoneAccount(w1, a) {
      var k, c :| 0 <= k < |w1.records| && c in w1.records[k].completed && a == OfDone(c);
      assert c in w.records[k].completed;
    }
  }

  // ---- Entering and investing now -----------------------------------------------------------------

  /** Entering now mints exactly the shares the position's pending money buys at the upper mark. */
  lemma ConvertNowExact(l: FundLedger, p: PositionLedger, i: nat, upper: u64)
    requires ActOn(l, p, ConvertNow(i, upper)).Ok?
    ensures var (l', p') := ActOn(l, p, ConvertNow(i, upper)).value;
            var (atoms, minted) := (p.pendingAtoms, l'.totalShares - l.totalShares);
            && 0 < minted == p'.shares - p.shares && p'.pendingAtoms == 0
            && l'.pendingDepositAtoms == l.pendingDepositAtoms - atoms && l'.freeCashAtoms == l.freeCashAtoms + atoms
            && (if l.totalShares == 0 then l.deployedAtoms == 0 && minted == atoms
                else 0 < l.freeCashAtoms + upper && minted == atoms * l.totalShares / (l.freeCashAtoms + upper))
  {}

  /** Cash is sent to a sleeve exactly when it is enough, there, and leaves the buffer of everything the fund holds. */
  lemma AllocateIff(l: FundLedger, minAllocation: u64, bufferBps: u16, amount: u64)
    ensures Allocate(l, minAllocation, bufferBps, amount).Ok? <==>
              && 0 < amount && minAllocation <= amount <= l.freeCashAtoms && l.deployedAtoms + amount <= U64_MAX
              && bufferBps * (l.freeCashAtoms + l.deployedAtoms) <= 10_000 * (l.freeCashAtoms - amount)
  {
    if 0 < amount <= l.freeCashAtoms {
      assert (l.freeCashAtoms - amount) + (l.deployedAtoms + amount) == l.freeCashAtoms + l.deployedAtoms;
    }
  }

  /** What each action gives or takes from the owner's position, in the owner's terms. */
  predicate OwnerGets(l: FundLedger, p: PositionLedger, a: Action, p': PositionLedger) {
    match a
    case DepositAtoms(_, amount) =>
      && p'.depositedAtoms == p.depositedAtoms + amount && p'.pendingAtoms == p.pendingAtoms + amount
      && p'.shares == p.shares && p'.withdrawnAtoms == p.withdrawnAtoms
    case Refund(_, amount) =>
      && p'.withdrawnAtoms == p.withdrawnAtoms + amount && p'.pendingAtoms == p.pendingAtoms - amount
      && p'.shares == p.shares && p'.depositedAtoms == p.depositedAtoms
    case QueueShares(_, shares) =>
      && p'.shares == p.shares - shares && p'.queueShares == p.queueShares + shares
      && p'.queueBatchId == l.accumulatingBatchId && p'.withdrawnAtoms == p.withdrawnAtoms
    case ExitNow(_, shares, lower, _, _) =>
      && 0 < l.totalShares && p'.withdrawnAtoms == p.withdrawnAtoms + Worth(l, shares, lower)
      && p'.shares == p.shares - shares && SamePending(p, p')
    case CompleteWithdrawal(_) =>
      && p'.withdrawnAtoms == p.withdrawnAtoms + p.claimableAtoms && p'.claimableAtoms == 0
      && p'.shares == p.shares
    case _ => true
  }

  lemma ActPays(l: FundLedger, p: PositionLedger, a: Action)
    requires ActOn(l, p, a).Ok?
    ensures OwnerGets(l, p, a, ActOn(l, p, a).value.1)
  {
    if a.ExitNow? {
      InstantIff(l, a.shares, a.lower, a.capBps, a.now);
    }
  }
}
