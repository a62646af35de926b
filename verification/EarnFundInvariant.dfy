/** Every action of every run keeps the Earn Fund invariant. */
module EarnFundInvariant {
  import opened Numbers
  import opened Sums
  import opened EarnFundLedger
  import opened EarnFundRoll
  import opened EarnFundRuns
  import opened EarnFundSettlement

  // ---- Actions on one settled position ------------------------------------------------------

  lemma SettleClears(w: World, i: nat)
    requires i < |w.positions| && Settle(w, i).Ok?
    ensures var w' := Settle(w, i).value;
            i < |w'.positions| && !PendingOwed(w'.positions[i], w'.fund)
  {}

  /** Pending money of a settled position moves with the fund's pending bucket. */
  lemma PendingMoves(w: World, w': World, i: nat)
    requires PendingInv(w) && i < |w.positions| == |w'.positions| && w'.records == w.records
    requires w'.positions == w.positions[i := w'.positions[i]]
    requires w'.fund.pendingCarryFrom == w.fund.pendingCarryFrom
    requires !PendingOwed(w.positions[i], w.fund) && !PendingOwed(w'.positions[i], w'.fund)
    requires w'.fund.pendingDepositAtoms - w.fund.pendingDepositAtoms
             == w'.positions[i].pendingAtoms - w.positions[i].pendingAtoms
    ensures PendingInv(w')
  {
    var q, carry := w'.positions[i], w.fund.pendingCarryFrom;
    SumUpdate(w.positions, i, q, PendingSince(carry));
    forall k | 0 <= k < |w'.records| ensures RecordOk(w'.records[k], k, carry, w'.positions) {
      assert RecordOk(w.records[k], k, carry, w.positions);
      SumUpdate(w.positions, i, q, PendingWithin(w.records[k].carryFrom, k));
    }
  }

  /** Shares of a position move with the fund's total and its queue. */
  lemma SharesMove(w: World, w': World, i: nat)
    requires SharesInv(w) && i < |w.positions| == |w'.positions| && w'.records == w.records
    requires w'.positions == w.positions[i := w'.positions[i]]
    requires w'.fund.totalShares - w.fund.totalShares
             == w'.positions[i].shares - w.positions[i].shares + w'.fund.queuedShares - w.fund.queuedShares
    ensures SharesInv(w')
  {
    SumUpdate(w.positions, i, w'.positions[i], Owned());
  }

  /** The world after an action on the settled position `i`. */
  function Acted(w: World, i: nat, l: FundLedger, p: PositionLedger): World
    requires i < |w.positions|
  {
    w.(fund := l, positions := w.positions[i := p])
  }

  /** What every action except queueing leaves alone. */
  lemma ActIsQuiet(w: World, i: nat, a: Action)
    requires ShapeInv(w) && i < |w.positions| && !PendingOwed(w.positions[i], w.fund)
    requires ActOn(w.fund, w.positions[i], a).Ok? && OnPosition(a) && !a.QueueShares?
    ensures var (l, p) := ActOn(w.fund, w.positions[i], a).value;
            var w' := Acted(w, i, l, p);
            && ShapeInv(w') && QuietStep(w, w', i)
            && l.pendingCarryFrom == w.fund.pendingCarryFrom
            && !PendingOwed(p, l)
            && l.pendingDepositAtoms - w.fund.pendingDepositAtoms == p.pendingAtoms - w.positions[i].pendingAtoms
            && l.totalShares - w.fund.totalShares == p.shares - w.positions[i].shares
               + l.queuedShares - w.fund.queuedShares
            && l.reservedWithdrawalAtoms - w.fund.reservedWithdrawalAtoms
               == p.claimableAtoms - w.positions[i].claimableAtoms
  {
    var (l, p) := ActOn(w.fund, w.positions[i], a).value;
    assert PositionOk(w.positions[i], w.fund);
    assert PositionOk(p, l) && Consistent(l);
    ShapeFrame(w, Acted(w, i, l, p), i);
  }

  lemma ActKeeps(w: World, i: nat, a: Action)
    requires Inv(w) && i < |w.positions| && !PendingOwed(w.positions[i], w.fund)
    requires ActOn(w.fund, w.positions[i], a).Ok? && OnPosition(a) && !a.QueueShares?
    ensures var (l, p) := ActOn(w.fund, w.positions[i], a).value; Inv(Acted(w, i, l, p))
  {
    ActIsQuiet(w, i, a);
    var (l, p) := ActOn(w.fund, w.positions[i], a).value;
    var w' := Acted(w, i, l, p);
    PendingMoves(w, w', i);
    SharesMove(w, w', i);
    AccountsFrame(w, w', i);
    LocationFrame(w, w', i);
    ReserveFrame(w, w', i);
  }

  /** Joining the accumulating batch changes only that batch. */
  lemma QueueShape(w: World, i: nat, shares: u64)
    requires ShapeInv(w) && i < |w.positions| && Queue(w.positions[i], shares, w.fund).Ok?
    ensures var (p, l) := Queue(w.positions[i], shares, w.fund).value;
            var (had, acc) := (w.positions[i], w.fund.accumulatingBatchId);
            && ShapeInv(Acted(w, i, l, p))
            && (had.queueBatchId == 0 || had.queueBatchId == acc) && had.queuePaidAtoms == 0
            && p == had.(shares := had.shares - shares, queueShares := had.queueShares + shares, queueBatchId := acc)
            && l == w.fund.(accumulatingShares := w.fund.accumulatingShares + shares,
                            queuedShares := w.fund.queuedShares + shares)
  {
    var (p, l) := Queue(w.positions[i], shares, w.fund).value;
    assert PositionOk(w.positions[i], w.fund);
    assert PositionOk(p, l) && Consistent(l);
    ShapeFrame(w, Acted(w, i, l, p), i);
  }

  lemma QueueAccounts(w: World, i: nat, shares: u64)
    requires ShapeInv(w) && AccountsInv(w) && LocationInv(w) && i < |w.positions|
    requires Queue(w.positions[i], shares, w.fund).Ok?
    ensures var (p, l) := Queue(w.positions[i], shares, w.fund).value; AccountsInv(Acted(w, i, l, p))
  {
    QueueShape(w, i, shares);
    var (p, l) := Queue(w.positions[i], shares, w.fund).value;
    SumUpdate(w.positions, i, p, QueuedIn(l.accumulatingBatchId));
    forall b | b in l.openBatches ensures AccountOk(OfOpen(b), w.positions[i := p]) {
      OtherAccount(OfOpen(b), w.positions, i, p);
    }
    forall k, c | 0 <= k < |w.records| && c in w.records[k].completed
        ensures AccountOk(OfDone(c), w.positions[i := p]) {
      assert HasCompleted(w.records[k], c.id) && SomeCompleted(w.records, c.id);
      assert OutOfRing(w.fund, c.id);
      OtherAccount(OfDone(c), w.positions, i, p);
    }
  }

  lemma QueueKeeps(w: World, i: nat, shares: u64)
    requires Inv(w) && i < |w.positions| && Queue(w.positions[i], shares, w.fund).Ok?
    ensures var (p, l) := Queue(w.positions[i], shares, w.fund).value; Inv(Acted(w, i, l, p))
  {
    QueueShape(w, i, shares);
    QueueAccounts(w, i, shares);
    var (p, l) := Queue(w.positions[i], shares, w.fund).value;
    var w' := Acted(w, i, l, p);
    SharesMove(w, w', i);
    PendingFrame(w, w', i);
    SumUpdate(w.positions, i, p, Claimable());
    LocationSameIds(w, w');
  }

  // ---- Actions on the fund alone ------------------------------------------------------------

  lemma OpenPositionKeeps(w: World)
    requires Inv(w)
    ensures Inv(w.(positions := w.positions + [EMPTY_POSITION]))
  {
    var (ps, e) := (w.positions, EMPTY_POSITION);
    var w' := w.(positions := ps + [e]);
    OpenPositionAccounts(w);
    SumSnoc(ps, e, Owned());
    SumSnoc(ps, e, Claimable());
    SumSnoc(ps, e, PendingSince(w.fund.pendingCarryFrom));
    forall k | 0 <= k < |w.records| ensures RecordOk(w.records[k], k, w.fund.pendingCarryFrom, ps + [e]) {
      assert RecordOk(w.records[k], k, w.fund.pendingCarryFrom, ps);
      SumSnoc(ps, e, PendingWithin(w.records[k].carryFrom, k));
    }
    LocationSameIds(w, w');
  }

  lemma OpenPositionAccounts(w: World)
    requires AccountsInv(w)
    ensures AccountsInv(w.(positions := w.positions + [EMPTY_POSITION]))
  {
    hide AccountOk;
    var (ps, e) := (w.positions, EMPTY_POSITION);
    SumSnoc(ps, e, QueuedIn(w.fund.accumulatingBatchId));
    forall b | b in w.fund.openBatches ensures AccountOk(OfOpen(b), ps + [e]) {
      NewcomerAccount(OfOpen(b), ps);
    }
    forall k, c | 0 <= k < |w.records| && c in w.records[k].completed ensures AccountOk(OfDone(c), ps + [e]) {
      NewcomerAccount(OfDone(c), ps);
    }
  }

  lemma NewcomerAccount(a: Account, ps: seq<PositionLedger>)
    requires AccountOk(a, ps)
    ensures AccountOk(a, ps + [EMPTY_POSITION])
  {
    SumSnoc(ps, EMPTY_POSITION, QueuedIn(a.id));
    SumSnoc(ps, EMPTY_POSITION, CreditedIn(a.id));
  }

  /** Investing and collecting move only free cash and deployed principal. */
  lemma CashMoveKeeps(w: World, l: FundLedger)
    requires Inv(w) && l == w.fund.(freeCashAtoms := l.freeCashAtoms, deployedAtoms := l.deployedAtoms)
    ensures Inv(w.(fund := l))
  {
    LocationSameIds(w, w.(fund := l));
  }

  // ---- The roll -----------------------------------------------------------------------------

  /** A roll of the world, with the batches `bs` it filled into `f`. */
  ghost predicate Rolls(w: World, w': World, c: Conversion, bs: seq<QueueBatch>, f: seq<QueueBatch>, price: SharePrice,
                        r: EpochLedger) {
    var (l, l') := (w.fund, w'.fund);
    && w'.positions == w.positions && w'.records == w.records + [r]
    && Consistent(l')
    && l'.epoch == l.epoch + 1
    && r.epoch == l.epoch && r.pendingConverted == c.converted && r.carryFrom == l.pendingCarryFrom
    && r.convertedRemainingAtoms == c.atoms && r.convertedRemainingShares == c.shares
    && r.completed == AllCompleted(Filter(f, IsDone()))
    && l'.openBatches == Filter(f, IsOpen())
    && l'.pendingDepositAtoms == c.pending
    && l'.pendingCarryFrom == (if c.converted then l.epoch + 1 else l.pendingCarryFrom)
    && l'.totalShares == l.totalShares + c.shares - Burned(bs, f)
    && l'.queuedShares == l.queuedShares - Burned(bs, f)
    && l'.reservedWithdrawalAtoms == l.reservedWithdrawalAtoms + Paid(bs, f)
    && (l'.accumulatingBatchId == l.accumulatingBatchId
        ==> bs == l.openBatches && l'.accumulatingShares == l.accumulatingShares)
    && (l'.accumulatingBatchId != l.accumulatingBatchId ==>
          && l'.accumulatingBatchId == l.accumulatingBatchId + 1 && l'.accumulatingShares == 0
             && l.accumulatingShares != 0
          && bs == l.openBatches + [QueueBatch(l.accumulatingBatchId, l.accumulatingShares, 0, 0, 0)])
    && QueueOk(bs, l'.accumulatingBatchId)
    && FilledQueue(bs, f, price)
    && ConvertedFairly(l, c, r.price)
  }

  /** What a conversion at a roll hands to its record. */
  ghost predicate ConvertedFairly(l: FundLedger, c: Conversion, price: SharePrice) {
    && (c.converted ==> c.pending == 0 && c.atoms == l.pendingDepositAtoms && Covers(price, c.atoms, c.shares))
    && (!c.converted ==> c.pending == l.pendingDepositAtoms && c.atoms == 0 && c.shares == 0)
  }

  lemma RollIs(w: World, minEpochSecs: u64, now: u64, lower: u64, upper: u64)
    returns (c: Conversion, bs: seq<QueueBatch>, f: seq<QueueBatch>, price: SharePrice, r: EpochLedger)
    requires Step(w, RollEpoch(minEpochSecs, now, lower, upper)).Ok?
    ensures Rolls(w, Step(w, RollEpoch(minEpochSecs, now, lower, upper)).value, c, bs, f, price, r)
  {
    hide ConvertAtRoll, RollBatches, FillRoll, CloseRoll, FairTotals, ConvertedFairly, Consistent, QueueOk, EachFilled;
    var l := w.fund;
    price := NavPrice(l, lower).value;
    c := ConvertAtRoll(l, EntryPrice(l, upper)).value;
    var g := RollBatches(l, c, price).value;
    bs := g.batches;
    f := FillRoll(bs, price, c.free, c.total, l.deployedAtoms).value;
    r := RecordOf(Roll(l, minEpochSecs, now, lower, upper).value.1);
    CloseIs(l, now, lower, if EntryPrice(l, upper).Ok? then EntryPrice(l, upper).value else price, price, c, g, f);
    ConvertFacts(l, EntryPrice(l, upper));
    RollFilledFacts(l, lower, upper, price, c, g, f);
    ConvertIsFair(l, upper, price, r.price, c);
    BatchingIs(l, c, price, g);
  }

  /** What closing the books of a roll writes. */
  lemma CloseIs(l: FundLedger, now: u64, lower: u64, recordPrice: SharePrice, price: SharePrice, c: Conversion,
                g: Batching, f: seq<QueueBatch>)
    requires l.epoch < MAX_FUND_EPOCH && CloseRoll(l, now, lower, recordPrice, price, c, g, f).Ok?
    ensures var (l', o) := CloseRoll(l, now, lower, recordPrice, price, c, g, f).value;
            && Consistent(l') && l'.epoch == l.epoch + 1
            && RecordOf(o) == EpochLedger(l.epoch, recordPrice, c.converted, l.pendingCarryFrom, c.atoms, c.shares,
                                          AllCompleted(Filter(f, IsDone())))
            && l'.openBatches == Filter(f, IsOpen()) && l'.pendingDepositAtoms == c.pending
            && l'.pendingCarryFrom == (if c.converted then l.epoch + 1 else l.pendingCarryFrom)
            && l'.totalShares == c.total - Burned(g.batches, f)
            && l'.queuedShares == l.queuedShares - Burned(g.batches, f)
            && l'.reservedWithdrawalAtoms == l.reservedWithdrawalAtoms + Paid(g.batches, f)
            && l'.accumulatingBatchId == g.accumulatingId && l'.accumulatingShares == g.accumulatingShares
  {
    hide Consistent;
  }

  lemma ConvertIsFair(l: FundLedger, upper: u64, price: SharePrice, recordPrice: SharePrice, c: Conversion)
    requires ConvertAtRoll(l, EntryPrice(l, upper)) == Ok(c)
    requires recordPrice == (if EntryPrice(l, upper).Ok? then EntryPrice(l, upper).value else price)
    ensures ConvertedFairly(l, c, recordPrice)
  {}

  lemma BatchingIs(l: FundLedger, c: Conversion, price: SharePrice, g: Batching)
    requires RollBatches(l, c, price) == Ok(g)
    ensures g.accumulatingId == l.accumulatingBatchId ==>
            g.batches == l.openBatches && g.accumulatingShares == l.accumulatingShares
    ensures g.accumulatingId != l.accumulatingBatchId ==>
              && g.accumulatingId == l.accumulatingBatchId + 1 && g.accumulatingShares == 0 && l.accumulatingShares != 0
              && g.batches == l.openBatches + [QueueBatch(l.accumulatingBatchId, l.accumulatingShares, 0, 0, 0)]
  {}

  lemma RollShape(w: World, w': World, c: Conversion, bs: seq<QueueBatch>, f: seq<QueueBatch>, price: SharePrice,
                  r: EpochLedger)
    requires ShapeInv(w) && Rolls(w, w', c, bs, f, price, r)
    ensures ShapeInv(w')
  {
    forall p | p in w'.positions ensures PositionOk(p, w'.fund) {
      assert PositionOk(p, w.fund);
    }
  }

  lemma RollShares(w: World, w': World, c: Conversion, bs: seq<QueueBatch>, f: seq<QueueBatch>, price: SharePrice,
                   r: EpochLedger)
    requires SharesInv(w) && Rolls(w, w', c, bs, f, price, r)
    ensures SharesInv(w')
  {
    SumSnoc(w.records, r, UnsettledShares());
  }

  lemma RollWindows(w: World, w': World, c: Conversion, bs: seq<QueueBatch>, f: seq<QueueBatch>, price: SharePrice,
                    r: EpochLedger)
    requires ShapeInv(w) && PendingInv(w) && Rolls(w, w', c, bs, f, price, r)
    ensures WindowsPartition(w'.records, w'.fund.pendingCarryFrom)
  {
    var (rs, rs', carry) := (w.records, w'.records, w.fund.pendingCarryFrom);
    forall e: u64 | e < w'.fund.pendingCarryFrom ensures SomeConverts(rs', e) {
      if e < carry {
        assert SomeConverts(rs, e);
        var k :| 0 <= k < |rs| && rs[k].Converts(e);
        assert rs'[k].Converts(e);
      } else {
        assert rs'[|rs|].Converts(e);
      }
    }
    forall j, k, e: u64 | 0 <= j < |rs'| && 0 <= k < |rs'| && rs'[j].Converts(e) && rs'[k].Converts(e) ensures j == k {
      assert j < |rs| ==> rs[j].Converts(e) && RecordOk(rs[j], j, carry, w.positions);
      assert k < |rs| ==> rs[k].Converts(e) && RecordOk(rs[k], k, carry, w.positions);
    }
  }

  lemma RollPending(w: World, w': World, c: Conversion, bs: seq<QueueBatch>, f: seq<QueueBatch>, price: SharePrice,
                    r: EpochLedger)
    requires ShapeInv(w) && PendingInv(w) && Rolls(w, w', c, bs, f, price, r)
    ensures PendingInv(w')
  {
    var (ps, carry, carry') := (w.positions, w.fund.pendingCarryFrom, w'.fund.pendingCarryFrom);
    RollWindows(w, w', c, bs, f, price, r);
    forall p | p in ps ensures PendingSince(carry)(p) == PendingWithin(carry, w.fund.epoch)(p)
                            && PendingSince(w.fund.epoch + 1)(p) == 0 {
      assert PositionOk(p, w.fund);
    }
    SumSame(ps, PendingSince(carry), PendingWithin(carry, w.fund.epoch));
    SumZero(ps, PendingSince(w.fund.epoch + 1));
    forall k | 0 <= k < |w'.records| ensures RecordOk(w'.records[k], k, carry', ps) {
      if k < |w.records| {
        assert RecordOk(w.records[k], k, carry, ps);
      }
    }
  }

  /** Filling a batch keeps its account. */
  lemma FilledAccount(b: QueueBatch, x: QueueBatch, ps: seq<PositionLedger>)
    requires AccountOk(OfOpen(b), ps) && Filled(b, x)
    ensures AccountOk(OfOpen(x), ps)
  {
    forall p | p in ps && p.queueBatchId == b.id ensures CreditOk(OfOpen(x), p) {
      assert CreditOk(OfOpen(b), p);
      MulMono(b.filledAtoms, x.filledAtoms, p.queueShares);
    }
  }

  /** The accumulating batch enters the ring with its members' shares and nothing credited. */
  lemma NewAccount(w: World, b: QueueBatch)
    requires ShapeInv(w) && AccountsInv(w)
    requires b == QueueBatch(w.fund.accumulatingBatchId, w.fund.accumulatingShares, 0, 0, 0) && b.shares != 0
    ensures AccountOk(OfOpen(b), w.positions)
  {
    forall p | p in w.positions ensures CreditedIn(b.id)(p) == 0 {
      assert PositionOk(p, w.fund);
    }
    SumZero(w.positions, CreditedIn(b.id));
    forall p | p in w.positions && p.queueBatchId == b.id ensures CreditOk(OfOpen(b), p) {
      assert PositionOk(p, w.fund);
    }
  }

  lemma RollFilledAccounts(w: World, w': World, c: Conversion, bs: seq<QueueBatch>, f: seq<QueueBatch>,
                           price: SharePrice, r: EpochLedger)
    requires ShapeInv(w) && AccountsInv(w) && Rolls(w, w', c, bs, f, price, r)
    ensures forall x :: x in f ==> AccountOk(OfOpen(x), w.positions)
  {
    hide AccountOk, FairTotals;
    forall x | x in f ensures AccountOk(OfOpen(x), w.positions) {
      var i :| 0 <= i < |f| && f[i] == x;
      if i < |w.fund.openBatches| {
        assert bs[i] in w.fund.openBatches;
      } else {
        NewAccount(w, bs[i]);
      }
      FilledAccount(bs[i], x, w.positions);
    }
  }

  lemma RollAccounts(w: World, w': World, c: Conversion, bs: seq<QueueBatch>, f: seq<QueueBatch>, price: SharePrice,
                     r: EpochLedger)
    requires ShapeInv(w) && AccountsInv(w) && Rolls(w, w', c, bs, f, price, r)
    ensures AccountsInv(w')
  {
    hide AccountOk, FairTotals;
    RollFilledAccounts(w, w', c, bs, f, price, r);
    FilterMembers(f, IsOpen());
    FilterMembers(f, IsDone());
    if w'.fund.accumulatingBatchId != w.fund.accumulatingBatchId {
      forall p | p in w.positions ensures QueuedIn(w'.fund.accumulatingBatchId)(p) == 0 {
        assert PositionOk(p, w.fund);
      }
      SumZero(w.positions, QueuedIn(w'.fund.accumulatingBatchId));
    }
    forall k, x | 0 <= k < |w'.records| && x in w'.records[k].completed ensures AccountOk(OfDone(x), w'.positions) {
      if k < |w.records| {
        assert x in w.records[k].completed;
      } else {
        CompletedMember(f, x);
      }
    }
  }

  /** A batch in a roll's completed list is a finished batch of its queue. */
  lemma CompletedMember(f: seq<QueueBatch>, x: CompletedBatch)
    requires x in AllCompleted(Filter(f, IsDone()))
    ensures exists b :: b in f && b.Remaining() == 0 && x == CompletedOf(b)
  {
    var done := Filter(f, IsDone());
    FilterMembers(f, IsDone());
    var i :| 0 <= i < |done| && x == CompletedOf(done[i]);
    assert done[i] in f;
  }

  lemma {:induction false} DebtSums(f: seq<QueueBatch>)
    ensures Sum(AllCompleted(f), DoneDebt()) == Sum(f, OpenDebt())
    ensures Sum(f, OpenDebt()) == Sum(f, FilledAtoms()) - Sum(f, PaidCounter())
  {
    if f != [] {
      var n := |f| - 1;
      DebtSums(f[..n]);
      assert AllCompleted(f)[..n] == AllCompleted(f[..n]);
    }
  }

  function PaidCounter(): QueueBatch -> int { (b: QueueBatch) => b.paidAtoms }

  lemma {:induction false} PaidCounterSame(bs: seq<QueueBatch>, f: seq<QueueBatch>)
    requires |f| == |bs| && forall i :: 0 <= i < |bs| ==> Filled(bs[i], f[i])
    ensures Sum(f, PaidCounter()) == Sum(bs, PaidCounter())
  {
    if bs != [] {
      PaidCounterSame(bs[..|bs| - 1], f[..|bs| - 1]);
    }
  }

  lemma RollReserve(w: World, w': World, c: Conversion, bs: seq<QueueBatch>, f: seq<QueueBatch>, price: SharePrice,
                    r: EpochLedger)
    requires ReserveInv(w) && Rolls(w, w', c, bs, f, price, r)
    ensures ReserveInv(w')
  {
    SumSnoc(w.records, r, RecordDebt());
    FilterSum(f, IsOpen(), IsDone(), OpenDebt());
    DebtSums(Filter(f, IsDone()));
    DebtSums(f);
    DebtSums(bs);
    PaidCounterSame(bs, f);
    if bs != w.fund.openBatches {
      SumSnoc(w.fund.openBatches, bs[|bs| - 1], OpenDebt());
    }
  }

  /** The batches a roll completes are in id order, and none of them is still open. */
  lemma CompletedOrder(bs: seq<QueueBatch>, f: seq<QueueBatch>)
    requires Ascending(bs, BatchId()) && |f| == |bs| && forall i :: 0 <= i < |bs| ==> Filled(bs[i], f[i])
    ensures Ascending(AllCompleted(Filter(f, IsDone())), DoneId())
    ensures forall x, y :: x in f && y in f && x.id == y.id ==> x == y
  {
    forall i, j | 0 <= i < j < |f| ensures BatchId()(f[i]) < BatchId()(f[j]) {
      assert BatchId()(bs[i]) < BatchId()(bs[j]);
    }
    FilterAscending(f, IsDone(), BatchId());
    var done := Filter(f, IsDone());
    forall i, j | 0 <= i < j < |done| ensures DoneId()(AllCompleted(done)[i]) < DoneId()(AllCompleted(done)[j]) {
      assert BatchId()(done[i]) < BatchId()(done[j]);
    }
    forall x, y | x in f && y in f && x.id == y.id ensures x == y {
      var i :| 0 <= i < |f| && f[i] == x;
      var j :| 0 <= j < |f| && f[j] == y;
    }
  }

  predicate OldId(w: World, id: u64) {
    InRing(w.fund, id) || id == w.fund.accumulatingBatchId
  }

  /** Every batch a roll filled was in the ring or accumulating, and its id is now spent. */
  lemma FilledIds(w: World, w': World, c: Conversion, bs: seq<QueueBatch>, f: seq<QueueBatch>, price: SharePrice,
                  r: EpochLedger, x: QueueBatch)
    requires Rolls(w, w', c, bs, f, price, r) && x in f
    ensures OldId(w, x.id) && 0 < x.id < w'.fund.accumulatingBatchId
  {
    hide FairTotals, ConvertedFairly, Ascending;
    var i :| 0 <= i < |f| && f[i] == x;
    assert bs[i] in bs;
    assert i < |w.fund.openBatches| ==> bs[i] in w.fund.openBatches;
  }

  /** A batch that was queued is still open or has just completed. */
  lemma QueuedIdGoes(w: World, w': World, c: Conversion, bs: seq<QueueBatch>, f: seq<QueueBatch>, price: SharePrice,
                     r: EpochLedger, id: u64)
    requires Rolls(w, w', c, bs, f, price, r)
    requires InRing(w.fund, id) || (id == w.fund.accumulatingBatchId < w'.fund.accumulatingBatchId)
    ensures InRing(w'.fund, id) || HasCompleted(r, id)
  {
    hide FairTotals, ConvertedFairly, Ascending;
    var i :| 0 <= i < |bs| && bs[i].id == id;
    assert f[i] in f && f[i].id == id;
    if f[i].Remaining() == 0 {
      DoneIsCompleted(f, i);
    } else {
      FilterMembers(f, IsOpen());
      assert f[i] in w'.fund.openBatches;
    }
  }

  /** A batch that just completed was queued before and is in the ring no more. */
  lemma CompletedIdLeft(w: World, w': World, c: Conversion, bs: seq<QueueBatch>, f: seq<QueueBatch>, price: SharePrice,
                        r: EpochLedger, id: u64)
    requires Rolls(w, w', c, bs, f, price, r) && HasCompleted(r, id)
    ensures OldId(w, id) && OutOfRing(w'.fund, id)
  {
    hide FairTotals, ConvertedFairly;
    var y :| y in r.completed && y.id == id;
    CompletedMember(f, y);
    var b :| b in f && b.Remaining() == 0 && y == CompletedOf(b);
    FilledIds(w, w', c, bs, f, price, r, b);
    CompletedOrder(bs, f);
    FilterMembers(f, IsOpen());
  }

  /** A batch in the ring after a roll was queued before it. */
  lemma RingIdWasQueued(w: World, w': World, c: Conversion, bs: seq<QueueBatch>, f: seq<QueueBatch>, price: SharePrice,
                        r: EpochLedger, id: u64)
    requires Rolls(w, w', c, bs, f, price, r) && InRing(w'.fund, id)
    ensures OldId(w, id)
  {
    hide FairTotals, ConvertedFairly, Ascending;
    var b :| b in w'.fund.openBatches && b.id == id;
    FilterMembers(f, IsOpen());
    FilledIds(w, w', c, bs, f, price, r, b);
  }

  lemma DoneIsCompleted(f: seq<QueueBatch>, i: nat)
    requires i < |f| && f[i].Remaining() == 0
    ensures CompletedOf(f[i]) in AllCompleted(Filter(f, IsDone()))
  {
    FilterMembers(f, IsDone());
    var done := Filter(f, IsDone());
    assert f[i] in done;
    var j :| 0 <= j < |done| && done[j] == f[i];
    assert AllCompleted(done)[j] == CompletedOf(f[i]);
  }

  lemma RollLocates(w: World, w': World, c: Conversion, bs: seq<QueueBatch>, f: seq<QueueBatch>, price: SharePrice,
                    r: EpochLedger, id: u64)
    requires LocationInv(w) && Rolls(w, w', c, bs, f, price, r) && 0 < id < w'.fund.accumulatingBatchId
    ensures InRing(w'.fund, id) || SomeCompleted(w'.records, id)
  {
    hide FairTotals, ConvertedFairly, Ascending, InRing, HasCompleted, CompletedOnce, QueueOk;
    var rs := w.records;
    if id == w.fund.accumulatingBatchId || InRing(w.fund, id) {
      QueuedIdGoes(w, w', c, bs, f, price, r, id);
      assert w'.records[|rs|] == r;
    } else {
      assert SomeCompleted(rs, id);
      var k :| 0 <= k < |rs| && HasCompleted(rs[k], id);
      assert w'.records[k] == rs[k];
    }
  }

  lemma RollLeavesRing(w: World, w': World, c: Conversion, bs: seq<QueueBatch>, f: seq<QueueBatch>, price: SharePrice,
                       r: EpochLedger, id: u64)
    requires LocationInv(w) && Rolls(w, w', c, bs, f, price, r) && SomeCompleted(w'.records, id)
    ensures OutOfRing(w'.fund, id)
  {
    hide FairTotals, ConvertedFairly, Ascending, InRing, HasCompleted, CompletedOnce, QueueOk;
    var rs := w.records;
    var k :| 0 <= k < |w'.records| && HasCompleted(w'.records[k], id);
    if k < |rs| {
      assert w'.records[k] == rs[k];
      assert SomeCompleted(rs, id);
      assert OutOfRing(w.fund, id);
      if InRing(w'.fund, id) {
        RingIdWasQueued(w, w', c, bs, f, price, r, id);
      }
    } else {
      CompletedIdLeft(w, w', c, bs, f, price, r, id);
    }
  }

  lemma RollCompletesOnce(w: World, w': World, c: Conversion, bs: seq<QueueBatch>, f: seq<QueueBatch>,
                          price: SharePrice, r: EpochLedger, j: nat, k: nat, id: u64)
    requires LocationInv(w) && Rolls(w, w', c, bs, f, price, r)
    requires j < k < |w'.records| && HasCompleted(w'.records[j], id)
    ensures !HasCompleted(w'.records[k], id)
  {
    hide FairTotals, ConvertedFairly, Ascending, InRing, HasCompleted, QueueOk;
    var rs := w.records;
    assert w'.records[j] == rs[j];
    if k < |rs| {
      assert w'.records[k] == rs[k];
    } else if HasCompleted(r, id) {
      assert SomeCompleted(rs, id);
      assert OutOfRing(w.fund, id);
      CompletedIdLeft(w, w', c, bs, f, price, r, id);
    }
  }

  lemma RollLocations(w: World, w': World, c: Conversion, bs: seq<QueueBatch>, f: seq<QueueBatch>, price: SharePrice,
                      r: EpochLedger)
    requires LocationInv(w) && Rolls(w, w', c, bs, f, price, r)
    ensures LocationInv(w')
  {
    forall id: u64 | 0 < id < w'.fund.accumulatingBatchId ensures InRing(w'.fund, id) || SomeCompleted(w'.records, id) {
      RollLocates(w, w', c, bs, f, price, r, id);
    }
    forall id: u64 | SomeCompleted(w'.records, id) ensures OutOfRing(w'.fund, id) {
      RollLeavesRing(w, w', c, bs, f, price, r, id);
    }
    forall j, k, id: u64 | 0 <= j < k < |w'.records|
        && HasCompleted(w'.records[j], id) ensures !HasCompleted(w'.records[k], id) {
      RollCompletesOnce(w, w', c, bs, f, price, r, j, k, id);
    }
    hide InRing, HasCompleted, OutOfRing, QueueOk, FairTotals;
    CompletedOrder(bs, f);
  }

  lemma RollKeeps(w: World, minEpochSecs: u64, now: u64, lower: u64, upper: u64)
    requires Inv(w) && Step(w, RollEpoch(minEpochSecs, now, lower, upper)).Ok?
    ensures Inv(Step(w, RollEpoch(minEpochSecs, now, lower, upper)).value)
  {
    var w' := Step(w, RollEpoch(minEpochSecs, now, lower, upper)).value;
    var c, bs, f, price, r := RollIs(w, minEpochSecs, now, lower, upper);
    RollShape(w, w', c, bs, f, price, r);
    RollPending(w, w', c, bs, f, price, r);
    RollShares(w, w', c, bs, f, price, r);
    RollAccounts(w, w', c, bs, f, price, r);
    RollLocations(w, w', c, bs, f, price, r);
    RollReserve(w, w', c, bs, f, price, r);
  }

  // ---- Main results -------------------------------------------------------------------------

  lemma StepKeeps(w: World, a: Action)
    requires Inv(w) && Step(w, a).Ok?
    ensures Inv(Step(w, a).value)
  {
    if OnPosition(a) {
      SettleKeeps(w, a.i);
      SettleClears(w, a.i);
      var w1 := Settle(w, a.i).value;
      if a.QueueShares? {
        QueueKeeps(w1, a.i, a.shares);
      } else {
        ActKeeps(w1, a.i, a);
      }
    } else {
      match a
      case OpenPosition => OpenPositionKeeps(w);
      case RollEpoch(minEpochSecs, now, lower, upper) => RollKeeps(w, minEpochSecs, now, lower, upper);
      case AllocateCash(_, _, _) => CashMoveKeeps(w, Step(w, a).value.fund);
      case CollectReceipt(_, _) => CashMoveKeeps(w, Step(w, a).value.fund);
    }
  }

  /** The accounts of the fund, its positions and its records agree after every run of actions. */
  lemma {:induction false} EveryRunKeepsInvariant(now: u64, actions: seq<Action>)
    ensures Inv(Run(InitialWorld(now), actions))
  {
    var w := InitialWorld(now);
    if actions != [] {
      var before := Run(w, actions[..|actions| - 1]);
      EveryRunKeepsInvariant(now, actions[..|actions| - 1]);
      if Step(before, actions[|actions| - 1]).Ok? {
        StepKeeps(before, actions[|actions| - 1]);
      }
    }
  }

  /**
   * In every reachable world settling a position succeeds exactly when its returned dust fits the free cash, and
   * so always when the vault's free and reserved money fit one u64.
   */
  lemma EveryRunSettles(now: u64, actions: seq<Action>, i: nat)
    requires i < |Run(InitialWorld(now), actions).positions|
    ensures var w := Run(InitialWorld(now), actions);
            var r := Settle(w, i);
            && (r.Ok? <==> w.fund.freeCashAtoms + ReturnedDust(w, i) <= U64_MAX)
            && (r.Err? ==> r.error == Overflow)
            && (w.fund.freeCashAtoms + w.fund.reservedWithdrawalAtoms <= U64_MAX ==> r.Ok?)
  {
    EveryRunKeepsInvariant(now, actions);
    hide Run, Inv, Settle, ReturnedDust;
    SettleKeeps(Run(InitialWorld(now), actions), i);
  }

  function EntitlementIn(a: Account): PositionLedger -> int
    requires a.shares != 0
  {
    (p: PositionLedger) => if p.queueBatchId == a.id then p.queueShares * a.filled / a.shares else 0
  }

  /** What the members of any batch are entitled to, with what leavers took, never exceeds its filled atoms. */
  lemma EntitlementsCovered(a: Account, ps: seq<PositionLedger>)
    requires AccountOk(a, ps)
    ensures a.paid - Sum(ps, CreditedIn(a.id)) + Sum(ps, EntitlementIn(a)) <= a.filled
  {
    forall p | p in ps ensures EntitlementIn(a)(p) * a.shares <= QueuedIn(a.id)(p) * a.filled {
      FloorBounds(p.queueShares * a.filled, a.shares);
    }
    SumScaled(ps, EntitlementIn(a), a.shares, QueuedIn(a.id), a.filled);
    CreditArithmetic(a.paid, Sum(ps, CreditedIn(a.id)), 0, Sum(ps, EntitlementIn(a)) - Sum(ps, CreditedIn(a.id)),
                     a.settled, Sum(ps, QueuedIn(a.id)), a.shares, a.filled);
  }

  /** So in every reachable world no open or completed batch ever owes its members more than it was filled with. */
  lemma EveryRunCoversEntitlements(now: u64, actions: seq<Action>)
    ensures var w := Run(InitialWorld(now), actions);
            && (forall b :: b in w.fund.openBatches ==> Solvent(OfOpen(b), w.positions))
            && (forall k, c :: 0 <= k < |w.records| && c in w.records[k].completed ==> Solvent(OfDone(c), w.positions))
  {
    EveryRunKeepsInvariant(now, actions);
    var w := Run(InitialWorld(now), actions);
    hide Run, Inv;
    assert AccountsInv(w) by { InvAccounts(w); }
    forall b | b in w.fund.openBatches ensures Solvent(OfOpen(b), w.positions) {
      AccountSolvent(OfOpen(b), w.positions);
    }
    forall k, c | 0 <= k < |w.records| && c in w.records[k].completed ensures Solvent(OfDone(c), w.positions) {
      AccountSolvent(OfDone(c), w.positions);
    }
  }

  /** What members are entitled to now, with what leavers took, is within the filled atoms. */
  predicate Solvent(a: Account, ps: seq<PositionLedger>) {
    a.shares != 0 && a.paid - Sum(ps, CreditedIn(a.id)) + Sum(ps, EntitlementIn(a)) <= a.filled
  }

  lemma AccountSolvent(a: Account, ps: seq<PositionLedger>)
    requires AccountOk(a, ps)
    ensures Solvent(a, ps)
  {
    EntitlementsCovered(a, ps);
  }

  lemma InvAccounts(w: World)
    requires Inv(w)
    ensures AccountsInv(w)
  {}

  // ---- Rolling -----------------------------------------------------------------------------------

  /** Each roll opens at most one batch, so ids never run out before epochs do. */
  predicate FewBatches(l: FundLedger) { l.accumulatingBatchId <= l.epoch + FIRST_BATCH_ID }

  lemma SettleKeepsIds(w: World, i: nat)
    requires i < |w.positions| && Settle(w, i).Ok?
    ensures |Settle(w, i).value.positions| == |w.positions|
    ensures var l := Settle(w, i).value.fund;
            l.epoch == w.fund.epoch && l.accumulatingBatchId == w.fund.accumulatingBatchId
  {
    hide PendingOwed, QueueStateOf, ConvertingRecord, CompletingRecord, CompletedIndex, LeaveBatch;
  }

  lemma ActKeepsIds(l: FundLedger, p: PositionLedger, a: Action)
    requires ActOn(l, p, a).Ok?
    ensures var l' := ActOn(l, p, a).value.0; l'.epoch == l.epoch && l'.accumulatingBatchId == l.accumulatingBatchId
  {}

  lemma RollAddsOneId(l: FundLedger, minEpochSecs: u64, now: u64, lower: u64, upper: u64)
    requires Roll(l, minEpochSecs, now, lower, upper).Ok?
    ensures var l' := Roll(l, minEpochSecs, now, lower, upper).value.0;
            l'.epoch == l.epoch + 1 && l'.accumulatingBatchId <= l.accumulatingBatchId + 1
  {
    hide ConvertAtRoll, FillRoll, Consistent, NavPrice, EntryPrice;
  }

  lemma {:induction false} EveryRunFewBatches(now: u64, actions: seq<Action>)
    ensures FewBatches(Run(InitialWorld(now), actions).fund)
  {
    if actions != [] {
      var (front, a) := (actions[..|actions| - 1], actions[|actions| - 1]);
      EveryRunFewBatches(now, front);
      var w := Run(InitialWorld(now), front);
      if Step(w, a).Ok? { StepFewBatches(w, a); }
    }
  }

  lemma StepFewBatches(w: World, a: Action)
    requires FewBatches(w.fund) && Step(w, a).Ok?
    ensures FewBatches(Step(w, a).value.fund)
  {
    hide Settle, ActOn, Roll;
    if OnPosition(a) {
      SettleKeepsIds(w, a.i);
      var w1 := Settle(w, a.i).value;
      ActKeepsIds(w1.fund, w1.positions[a.i], a);
    } else if a.RollEpoch? {
      RollAddsOneId(w.fund, a.minEpochSecs, a.now, a.lower, a.upper);
    }
  }

  /**
   * In every reachable world that is due a roll succeeds, provided the vault's money and the marked assets fit
   * a word together with what any open batch was already filled with.
   */
  lemma EveryRunRolls(now: u64, actions: seq<Action>, minEpochSecs: u64, at: u64, lower: u64, upper: u64)
    requires var l := Run(InitialWorld(now), actions).fund;
             && RollReady(l, minEpochSecs, at)
             && l.freeCashAtoms + l.pendingDepositAtoms + Max(l.reservedWithdrawalAtoms, lower) <= U64_MAX
             && forall b :: b in l.openBatches ==> b.filledAtoms + l.freeCashAtoms + l.pendingDepositAtoms <= U64_MAX
    ensures Step(Run(InitialWorld(now), actions), RollEpoch(minEpochSecs, at, lower, upper)).Ok?
  {
    EveryRunKeepsInvariant(now, actions);
    EveryRunFewBatches(now, actions);
    var w := Run(InitialWorld(now), actions);
    hide Run, Roll, PendingInv, SharesInv, AccountsInv, LocationInv, ReserveInv;
    RollSucceeds(w.fund, minEpochSecs, at, lower, upper);
  }
}
