/** Lazy settlement never meets a guard and keeps every account of the run invariant. */
module EarnFundSettlement {
  import opened Numbers
  import opened Sums
  import opened EarnFundLedger
  import opened EarnFundRuns

  // ---- Converting a pending deposit ---------------------------------------------------------

  /** Shares bought by part of a record's money, and what they leave for the rest. */
  lemma CoversPart(price: SharePrice, atoms: int, shares: int, part: u64)
    requires 0 < part <= atoms && shares <= U64_MAX && Covers(price, atoms, shares)
    ensures price.SharesForAtoms(part).Ok?
    ensures var bought := price.SharesForAtoms(part).value;
            bought <= shares && Covers(price, atoms - part, shares - bought)
  {
    if !price.IsPar() {
      FloorsSplit(part, atoms - part, price.shares, price.assets);
    }
  }

  lemma FloorsSplit(x: nat, y: nat, s: nat, a: int)
    requires a > 0
    ensures 0 <= x * s / a && 0 <= y * s / a && x * s / a + y * s / a <= (x + y) * s / a
  {
    AddScaled(x, y, s);
    FloorSuperadditive(x * s, y * s, a);
    FloorGreatest(x * s, a, 0);
    FloorGreatest(y * s, a, 0);
  }

  /** The record owing position `i` its shares, and the two guards it passes. */
  lemma OwedRecord(w: World, i: nat)
    requires Inv(w) && i < |w.positions| && PendingOwed(w.positions[i], w.fund)
    ensures var p := w.positions[i];
            var k := ConvertingRecord(w.records, p.pendingEpoch);
            && k < |w.records|
            && var r := w.records[k];
               && p.pendingAtoms <= r.convertedRemainingAtoms
               && Covers(r.price, r.convertedRemainingAtoms, r.convertedRemainingShares)
               && p.shares + r.convertedRemainingShares <= w.fund.totalShares
  {
    var p := w.positions[i];
    assert SomeConverts(w.records, p.pendingEpoch);
    var k := ConvertingRecord(w.records, p.pendingEpoch);
    var r := w.records[k];
    assert RecordOk(r, k, w.fund.pendingCarryFrom, w.positions);
    SumHas(w.positions, i, PendingWithin(r.carryFrom, k));
    SumHas(w.positions, i, Owned());
    SumHas(w.records, k, UnsettledShares());
  }

  lemma SettlePendingSucceeds(w: World, i: nat)
    requires Inv(w) && i < |w.positions|
    ensures SettlePendingOf(w, i).Ok?
  {
    var p := w.positions[i];
    if PendingOwed(p, w.fund) {
      OwedRecord(w, i);
      var r := w.records[ConvertingRecord(w.records, p.pendingEpoch)];
      CoversPart(r.price, r.convertedRemainingAtoms, r.convertedRemainingShares, p.pendingAtoms);
    }
  }

  lemma SettlePendingKeepsPending(w: World, i: nat)
    requires Inv(w) && i < |w.positions| && PendingOwed(w.positions[i], w.fund) && SettlePendingOf(w, i).Ok?
    ensures PendingInv(SettlePendingOf(w, i).value)
  {
    hide Sum, SharesInv, AccountsInv, LocationInv, ReserveInv, ShapeInv;
    var w' := SettlePendingOf(w, i).value;
    var p, q := w.positions[i], w'.positions[i];
    var k := ConvertingRecord(w.records, p.pendingEpoch);
    var r := w.records[k];
    var carry := w.fund.pendingCarryFrom;
    OwedRecord(w, i);
    CoversPart(r.price, r.convertedRemainingAtoms, r.convertedRemainingShares, p.pendingAtoms);
    SumUpdate(w.positions, i, q, PendingSince(carry));
    forall j | 0 <= j < |w'.records| ensures RecordOk(w'.records[j], j, carry, w'.positions) {
      assert RecordOk(w.records[j], j, carry, w.positions);
      SumUpdate(w.positions, i, q, PendingWithin(w.records[j].carryFrom, j));
      if j != k && w.records[j].pendingConverted {
        assert !w.records[j].Converts(p.pendingEpoch);
      }
    }
    WindowsFrame(w.records, w'.records, carry);
  }

  lemma SettlePendingKeepsShares(w: World, i: nat)
    requires SharesInv(w) && i < |w.positions| && SettlePendingOf(w, i).Ok?
    ensures SharesInv(SettlePendingOf(w, i).value)
  {
    var p := w.positions[i];
    if PendingOwed(p, w.fund) {
      var w' := SettlePendingOf(w, i).value;
      var k := ConvertingRecord(w.records, p.pendingEpoch);
      SumUpdate(w.positions, i, w'.positions[i], Owned());
      SumUpdate(w.records, k, w'.records[k], UnsettledShares());
    }
  }

  /** Converting pending money touches no queue field, no batch and no reserve. */
  lemma SettlePendingIsQuiet(w: World, i: nat)
    requires ShapeInv(w) && i < |w.positions| && SettlePendingOf(w, i).Ok?
    ensures var w' := SettlePendingOf(w, i).value;
            && ShapeInv(w') && QuietStep(w, w', i)
            && w'.fund.reservedWithdrawalAtoms == w.fund.reservedWithdrawalAtoms
            && w'.positions[i].claimableAtoms == w.positions[i].claimableAtoms
  {
    var w' := SettlePendingOf(w, i).value;
    assert PositionOk(w.positions[i], w.fund);
    ShapeFrame(w, w', i);
  }

  lemma SettlePendingKeeps(w: World, i: nat)
    requires Inv(w) && i < |w.positions|
    ensures SettlePendingOf(w, i).Ok? && Inv(SettlePendingOf(w, i).value)
  {
    SettlePendingSucceeds(w, i);
    if PendingOwed(w.positions[i], w.fund) {
      SettlePendingKeepsPending(w, i);
    }
    SettlePendingKeepsShares(w, i);
    SettlePendingIsQuiet(w, i);
    var w' := SettlePendingOf(w, i).value;
    AccountsFrame(w, w', i);
    LocationFrame(w, w', i);
    ReserveFrame(w, w', i);
  }

  // ---- Crediting a member of a batch --------------------------------------------------------

  /** The atoms a member of `a` is entitled to. */
  function EntitledTo(a: Account, q: u64): int
    requires a.shares != 0
  {
    q * a.filled / a.shares
  }

  /** A member's entitlement is payable: it was never overpaid, and the batch still holds what it is owed. */
  lemma MemberPayable(a: Account, ps: seq<PositionLedger>, i: nat)
    requires AccountOk(a, ps) && i < |ps| && ps[i].queueBatchId == a.id
    ensures var (p, e) := (ps[i], EntitledTo(a, ps[i].queueShares));
            && p.queueShares <= a.shares && a.settled + p.queueShares <= a.shares
            && p.queuePaidAtoms <= e <= a.filled
            && a.paid + e - p.queuePaidAtoms <= a.filled
            && e * a.shares <= p.queueShares * a.filled
  {
    var p := ps[i];
    var e := EntitledTo(a, p.queueShares);
    SumHas(ps, i, QueuedIn(a.id));
    FloorBounds(p.queueShares * a.filled, a.shares);
    assert CreditOk(a, p);
    FloorGreatest(p.queueShares * a.filled, a.shares, p.queuePaidAtoms);
    MulMono(p.queueShares, a.shares, a.filled);
    FloorMono(p.queueShares * a.filled, a.shares * a.filled, a.shares);
    FloorIs(a.shares * a.filled, a.shares, a.filled);
    CreditedAtMost(a, ps, i, e);
  }

  /** Crediting one member its entitlement keeps the batch's total credit within what was filled. */
  lemma CreditedAtMost(a: Account, ps: seq<PositionLedger>, i: nat, e: int)
    requires AccountOk(a, ps) && i < |ps| && ps[i].queueBatchId == a.id
    requires 0 <= e <= U64_MAX && e * a.shares <= ps[i].queueShares * a.filled
    ensures a.paid + e - ps[i].queuePaidAtoms <= a.filled
  {
    var credited := ps[i := ps[i].(queuePaidAtoms := e)];
    forall p | p in credited ensures CreditedIn(a.id)(p) * a.shares <= QueuedIn(a.id)(p) * a.filled {
      if p.queueBatchId == a.id {
        assert p == credited[i] || p in ps;
        assert p != credited[i] ==> CreditOk(a, p);
      }
    }
    SumScaled(credited, CreditedIn(a.id), a.shares, QueuedIn(a.id), a.filled);
    SumUpdate(ps, i, credited[i], CreditedIn(a.id));
    SumUpdate(ps, i, credited[i], QueuedIn(a.id));
    CreditArithmetic(a.paid, Sum(ps, CreditedIn(a.id)), ps[i].queuePaidAtoms, e, a.settled, Sum(ps, QueuedIn(a.id)),
                     a.shares, a.filled);
  }

  lemma CreditArithmetic(paid: int, credited: int, had: int, e: int, settled: int, queued: int, shares: int,
                         filled: int)
    requires 0 < shares && shares == settled + queued
    requires (paid - credited) * shares <= settled * filled
    requires (credited - had + e) * shares <= queued * filled
    ensures paid + e - had <= filled
  {
    AddScaled(paid - credited, credited - had + e, shares);
    AddScaled(settled, queued, filled);
    if paid + e - had > filled {
      MulMono(filled + 1, paid + e - had, shares);
    }
  }

  /** A batch the changed position is not in keeps its account. */
  lemma OtherAccount(a: Account, ps: seq<PositionLedger>, i: nat, q: PositionLedger)
    requires AccountOk(a, ps) && i < |ps| && ps[i].queueBatchId != a.id && q.queueBatchId != a.id
    ensures AccountOk(a, ps[i := q])
  {
    SumUpdate(ps, i, q, QueuedIn(a.id));
    SumUpdate(ps, i, q, CreditedIn(a.id));
    forall p | p in ps[i := q] && p.queueBatchId == a.id ensures CreditOk(a, p) {
      assert p == q || p in ps;
    }
  }

  /** A member paid up stays in its account's books. */
  lemma PaidUpAccount(a: Account, ps: seq<PositionLedger>, i: nat, q: PositionLedger, a': Account)
    requires AccountOk(a, ps) && i < |ps| && ps[i].queueBatchId == a.id == q.queueBatchId
    requires q.queueShares == ps[i].queueShares && q.queuePaidAtoms == EntitledTo(a, q.queueShares)
    requires a' == a.(paid := a'.paid) && a'.paid == a.paid + q.queuePaidAtoms - ps[i].queuePaidAtoms
    ensures AccountOk(a', ps[i := q])
  {
    MemberPayable(a, ps, i);
    SumUpdate(ps, i, q, QueuedIn(a.id));
    SumUpdate(ps, i, q, CreditedIn(a.id));
    forall p | p in ps[i := q] && p.queueBatchId == a'.id ensures CreditOk(a', p) {
      assert p == q || p in ps;
      assert p != q ==> CreditOk(a, p);
    }
  }

  /** A member that leaves takes its entitlement; the last one leaves only dust behind. */
  lemma LeavingAccount(a: Account, ps: seq<PositionLedger>, i: nat, q: PositionLedger, a': Account)
    requires AccountOk(a, ps) && i < |ps| && ps[i].queueBatchId == a.id
    requires q.queueBatchId == 0 && q.queueShares == 0 && q.queuePaidAtoms == 0
    requires a' == a.(paid := a'.paid, settled := a'.settled) && a'.settled == a.settled + ps[i].queueShares
    requires a'.paid == if a'.settled == a.shares then a.filled
                        else a.paid + EntitledTo(a, ps[i].queueShares) - ps[i].queuePaidAtoms
    ensures AccountOk(a', ps[i := q])
  {
    var e := EntitledTo(a, ps[i].queueShares);
    MemberPayable(a, ps, i);
    SumUpdate(ps, i, q, QueuedIn(a.id));
    SumUpdate(ps, i, q, CreditedIn(a.id));
    var credited := Sum(ps[i := q], CreditedIn(a.id));
    SumNonNegative(ps[i := q], CreditedIn(a.id));
    LeavingArithmetic(a.paid, Sum(ps, CreditedIn(a.id)), credited, e, ps[i].queuePaidAtoms, a.settled,
                      ps[i].queueShares, a.shares, a.filled, a'.paid);
    forall p | p in ps[i := q] && p.queueBatchId == a'.id ensures CreditOk(a', p) {
      assert p == q || p in ps;
      assert CreditOk(a, p);
    }
  }

  lemma LeavingArithmetic(paid: int, credited: int, credited': int, e: int, had: int, settled: int, q: int, shares: int,
                          filled: int, paid': int)
    requires 0 <= settled && 0 <= credited' == credited - had && 0 <= filled && 0 < shares
    requires (paid - credited) * shares <= settled * filled && e * shares <= q * filled
    requires paid' == if settled + q == shares then filled else paid + e - had
    ensures (paid' - credited') * shares <= (settled + q) * filled
  {
    AddScaled(settled, q, filled);
    if settled + q == shares {
      MulMono(filled - credited', filled, shares);
    } else {
      AddScaled(paid - credited, e, shares);
    }
  }

  // ---- Settling out of the ring -------------------------------------------------------------

  /** The reserve holds every claimable balance and every unpaid filled atom. */
  lemma ReserveParts(w: World)
    requires ShapeInv(w) && AccountsInv(w) && ReserveInv(w)
    ensures forall b :: b in w.fund.openBatches ==> OpenDebt()(b) >= 0
    ensures forall k, c :: 0 <= k < |w.records| && c in w.records[k].completed ==> DoneDebt()(c) >= 0
    ensures forall k :: 0 <= k < |w.records| ==> RecordDebt()(w.records[k]) >= 0
    ensures Sum(w.positions, Claimable()) >= 0 && Sum(w.fund.openBatches, OpenDebt()) >= 0
            && Sum(w.records, RecordDebt()) >= 0
  {
    forall k, c | 0 <= k < |w.records| && c in w.records[k].completed ensures DoneDebt()(c) >= 0 {
      assert AccountOk(OfDone(c), w.positions);
    }
    forall k | 0 <= k < |w.records| ensures RecordDebt()(w.records[k]) >= 0 {
      SumNonNegative(w.records[k].completed, DoneDebt());
    }
    SumNonNegative(w.positions, Claimable());
    SumNonNegative(w.fund.openBatches, OpenDebt());
    SumNonNegative(w.records, RecordDebt());
  }

  lemma SettleOpenSucceeds(w: World, i: nat, index: nat)
    requires Inv(w) && i < |w.positions| && QueueStateOf(w.positions[i], w.fund) == Ok(Open(index))
    ensures SettleOpenBatch(w.positions[i], w.fund, index).Ok?
  {
    var p, b := w.positions[i], w.fund.openBatches[index];
    assert AccountOk(OfOpen(b), w.positions);
    MemberPayable(OfOpen(b), w.positions, i);
    ReserveParts(w);
    SumHas(w.positions, i, Claimable());
    SumHas(w.fund.openBatches, index, OpenDebt());
  }

  /** Paying a member only moves a ring batch's paid counter. */
  lemma PaidRing(l: FundLedger, index: nat, paid: u64)
    requires Consistent(l) && index < |l.openBatches| && paid <= l.openBatches[index].filledAtoms
    ensures var l' := l.(openBatches := l.openBatches[index := l.openBatches[index].(paidAtoms := paid)]);
            && Consistent(l')
            && (forall id: u64 :: InRing(l', id) == InRing(l, id))
            && (forall b :: b in l'.openBatches ==>
                            b == l'.openBatches[index] || (b in l.openBatches && b.id != l.openBatches[index].id))
  {
    var b := l.openBatches[index];
    var b' := b.(paidAtoms := paid);
    var l' := l.(openBatches := l.openBatches[index := b']);
    assert b in l.openBatches;
    SumUpdate(l.openBatches, index, b', BatchRemaining());
    PaidMembers(l.openBatches, index, b');
    forall j, k | 0 <= j < k < |l'.openBatches| ensures BatchId()(l'.openBatches[j]) < BatchId()(l'.openBatches[k]) {
      assert BatchId()(l.openBatches[j]) < BatchId()(l.openBatches[k]);
    }
    forall id: u64 ensures InRing(l', id) == InRing(l, id) {
      PaidIds(l, l', index, id);
    }
  }

  lemma PaidMembers(bs: seq<QueueBatch>, index: nat, b': QueueBatch)
    requires index < |bs| && Ascending(bs, BatchId()) && b'.id == bs[index].id
    ensures forall x :: x in bs[index := b'] ==> x == b' || (x in bs && x.id != b'.id)
  {
    var bs' := bs[index := b'];
    forall x | x in bs' ensures x == b' || (x in bs && x.id != b'.id) {
      var j :| 0 <= j < |bs'| && bs'[j] == x;
      assert j != index ==> BatchId()(bs[Min(j, index)]) < BatchId()(bs[Max(j, index)]);
    }
  }

  lemma PaidIds(l: FundLedger, l': FundLedger, index: nat, id: u64)
    requires index < |l.openBatches| == |l'.openBatches|
             && l'.openBatches == l.openBatches[index := l'.openBatches[index]]
    requires l'.openBatches[index].id == l.openBatches[index].id
    ensures InRing(l', id) == InRing(l, id)
  {
    if InRing(l, id) {
      var j :| 0 <= j < |l.openBatches| && l.openBatches[j].id == id;
      assert l'.openBatches[j] in l'.openBatches && l'.openBatches[j].id == id;
    }
    if InRing(l', id) {
      var j :| 0 <= j < |l'.openBatches| && l'.openBatches[j].id == id;
      assert l.openBatches[j] in l.openBatches && l.openBatches[j].id == id;
    }
  }

  /** What crediting a member of an open batch does. */
  ghost predicate PaysOpen(w: World, w': World, i: nat, index: nat) {
    && i < |w.positions| && index < |w.fund.openBatches|
    && var (p, b) := (w.positions[i], w.fund.openBatches[index]);
       && b.shares != 0 && b.id == p.queueBatchId
       && var e := EntitledTo(OfOpen(b), p.queueShares);
          var owed := e - p.queuePaidAtoms;
          && 0 <= e <= U64_MAX && 0 <= owed && b.paidAtoms + owed <= b.filledAtoms && p.claimableAtoms + owed <= U64_MAX
          && w' == w.(fund := w.fund.(openBatches := w.fund.openBatches[index := b.(paidAtoms := b.paidAtoms + owed)]),
                      positions := w.positions[i := p.(claimableAtoms := p.claimableAtoms + owed, queuePaidAtoms := e)])
  }

  lemma SettleOpenIs(w: World, i: nat, index: nat)
    requires i < |w.positions| && QueueStateOf(w.positions[i], w.fund) == Ok(Open(index)) && SettleQueueOf(w, i).Ok?
    ensures PaysOpen(w, SettleQueueOf(w, i).value, i, index)
  {}

  lemma SettleOpenKeeps(w: World, i: nat, index: nat)
    requires Inv(w) && i < |w.positions| && QueueStateOf(w.positions[i], w.fund) == Ok(Open(index))
    ensures SettleQueueOf(w, i).Ok?
    ensures Inv(SettleQueueOf(w, i).value)
  {
    SettleOpenSucceeds(w, i, index);
    SettleOpenIs(w, i, index);
    SettleOpenAccounts(w, i, index);
    SettleQueueSharesPending(w, i);
    hide SettleQueueOf, QueueStateOf, AccountsInv, PendingInv, SharesInv, ShapeInv, ReserveInv, LocationInv, PaysOpen;
    OpenShape(w, SettleQueueOf(w, i).value, i, index);
    OpenReserve(w, SettleQueueOf(w, i).value, i, index);
    OpenLocations(w, SettleQueueOf(w, i).value, i, index);
  }

  lemma OpenShape(w: World, w': World, i: nat, index: nat)
    requires ShapeInv(w) && PaysOpen(w, w', i, index)
    ensures ShapeInv(w')
  {
    PaidRing(w.fund, index, w'.fund.openBatches[index].paidAtoms);
    assert PositionOk(w.positions[i], w.fund);
    assert w.positions[i].queueBatchId != w.fund.accumulatingBatchId by {
      assert w.fund.openBatches[index] in w.fund.openBatches;
    }
    hide Consistent, InRing;
    ShapeFrame(w, w', i);
  }

  lemma OpenReserve(w: World, w': World, i: nat, index: nat)
    requires ReserveInv(w) && PaysOpen(w, w', i, index)
    ensures ReserveInv(w')
  {
    hide Sum;
    SumUpdate(w.positions, i, w'.positions[i], Claimable());
    SumUpdate(w.fund.openBatches, index, w'.fund.openBatches[index], OpenDebt());
  }

  lemma OpenLocations(w: World, w': World, i: nat, index: nat)
    requires LocationInv(w) && PaysOpen(w, w', i, index)
    ensures LocationInv(w')
  {
    forall id: u64 ensures InRing(w'.fund, id) == InRing(w.fund, id) {
      PaidIds(w.fund, w'.fund, index, id);
    }
    hide InRing;
  }

  lemma SettleOpenAccounts(w: World, i: nat, index: nat)
    requires Inv(w) && i < |w.positions| && QueueStateOf(w.positions[i], w.fund) == Ok(Open(index))
    requires SettleQueueOf(w, i).Ok?
    ensures AccountsInv(SettleQueueOf(w, i).value)
  {
    SettleOpenIs(w, i, index);
    hide AccountOk, SettleQueueOf, QueueStateOf, PendingInv, SharesInv, ReserveInv, Sum;
    var w' := SettleQueueOf(w, i).value;
    var p, q, b, b' := w.positions[i], w'.positions[i], w.fund.openBatches[index], w'.fund.openBatches[index];
    var acc := w.fund.accumulatingBatchId;
    assert b in w.fund.openBatches;
    assert AccountOk(OfOpen(b), w.positions);
    PaidUpAccount(OfOpen(b), w.positions, i, q, OfOpen(b'));
    SumUpdate(w.positions, i, q, QueuedIn(acc));
    PaidRing(w.fund, index, b'.paidAtoms);
    forall x | x in w'.fund.openBatches ensures AccountOk(OfOpen(x), w'.positions) {
      if x != b' {
        OtherAccount(OfOpen(x), w.positions, i, q);
      }
    }
    forall k, c | 0 <= k < |w'.records| && c in w'.records[k].completed ensures AccountOk(OfDone(c), w'.positions) {
      assert HasCompleted(w.records[k], c.id);
      assert SomeCompleted(w.records, c.id);
      assert OutOfRing(w.fund, c.id);
      assert c.id != b.id;
      OtherAccount(OfDone(c), w.positions, i, q);
    }
  }

  // ---- Settling out of a completed batch ----------------------------------------------------

  /** A completed member's batch is in exactly one record, at one place. */
  lemma CompletedPlace(w: World, i: nat)
    requires Inv(w) && i < |w.positions| && QueueStateOf(w.positions[i], w.fund) == Ok(Completed)
    ensures var id := w.positions[i].queueBatchId;
            var k := CompletingRecord(w.records, id);
            && k < |w.records|
            && CompletedIndex(w.records[k].completed, id) < |w.records[k].completed|
  {
    var id := w.positions[i].queueBatchId;
    assert !InRing(w.fund, id);
    assert SomeCompleted(w.records, id);
    var k := CompletingRecord(w.records, id);
    var c :| c in w.records[k].completed && c.id == id;
    var j :| 0 <= j < |w.records[k].completed| && w.records[k].completed[j] == c;
  }

  /** A claimable balance and a completed batch's unpaid atoms both sit in the reserve. */
  lemma ReserveHolds(w: World, i: nat, k: nat, j: nat)
    requires ShapeInv(w) && AccountsInv(w) && ReserveInv(w)
    requires i < |w.positions| && k < |w.records| && j < |w.records[k].completed|
    ensures w.positions[i].claimableAtoms + DoneDebt()(w.records[k].completed[j]) <= w.fund.reservedWithdrawalAtoms
  {
    ReserveParts(w);
    SumHas(w.positions, i, Claimable());
    SumHas(w.records[k].completed, j, DoneDebt());
    SumHas(w.records, k, RecordDebt());
  }

  /** What leaving a completed batch does, in terms of the batch's place. */
  ghost predicate Leaves(w: World, w': World, i: nat, k: nat, j: nat) {
    && i < |w.positions| && k < |w.records| && j < |w.records[k].completed|
    && var (p, c) := (w.positions[i], w.records[k].completed[j]);
       && c.shares != 0 && c.id == p.queueBatchId
       && var settled := c.settledShares + p.queueShares;
          var owed := EntitledTo(OfDone(c), p.queueShares) - p.queuePaidAtoms;
          var dust := if settled == c.shares then c.filledAtoms - c.paidAtoms - owed else 0;
          && 0 <= owed && 0 <= dust && settled <= c.shares && c.paidAtoms + owed + dust <= c.filledAtoms
          && p.claimableAtoms + owed <= U64_MAX && w.fund.freeCashAtoms + dust <= U64_MAX
          && dust <= w.fund.reservedWithdrawalAtoms
          && w' == World(
               w.fund.(reservedWithdrawalAtoms := w.fund.reservedWithdrawalAtoms - dust,
                       freeCashAtoms := w.fund.freeCashAtoms + dust),
               w.positions[i := p.(claimableAtoms := p.claimableAtoms + owed, queueShares := 0, queueBatchId := 0,
                                   queuePaidAtoms := 0)],
               w.records[k := w.records[k].(completed := w.records[k].completed[j :=
                 c.(paidAtoms := c.paidAtoms + owed + dust, settledShares := settled)])])
  }

  /** The rounding dust a member leaves behind when it is the last to leave a batch. */
  function DustOf(c: CompletedBatch, p: PositionLedger): int
    requires c.shares != 0
  {
    if c.settledShares + p.queueShares != c.shares then 0
    else c.filledAtoms - c.paidAtoms - (EntitledTo(OfDone(c), p.queueShares) - p.queuePaidAtoms)
  }

  /** The dust that settling a position returns to free cash: none unless it leaves a completed batch last. */
  function ReturnedDust(w: World, i: nat): int
    requires i < |w.positions|
  {
    var p := w.positions[i];
    var k := CompletingRecord(w.records, p.queueBatchId);
    if QueueStateOf(p, w.fund) != Ok(Completed) || k == |w.records| then 0
    else
      var cs := w.records[k].completed;
      var j := CompletedIndex(cs, p.queueBatchId);
      if j == |cs| || cs[j].shares == 0 then 0 else DustOf(cs[j], p)
  }

  /** Leaving a completed batch meets no guard; only the dust going back to free cash can overflow. */
  lemma SettleCompletedSucceeds(w: World, i: nat)
    requires Inv(w) && i < |w.positions| && QueueStateOf(w.positions[i], w.fund) == Ok(Completed)
    ensures var r := SettleQueueOf(w, i);
            var id := w.positions[i].queueBatchId;
            var k := CompletingRecord(w.records, id);
            && k < |w.records|
            && var j := CompletedIndex(w.records[k].completed, id);
               && j < |w.records[k].completed|
               && (r.Ok? <==> w.fund.freeCashAtoms + ReturnedDust(w, i) <= U64_MAX) && (r.Err? ==> r.error == Overflow)
               && 0 <= ReturnedDust(w, i) <= w.fund.reservedWithdrawalAtoms
               && (r.Ok? ==> Leaves(w, r.value, i, k, j))
  {
    CompletedPlace(w, i);
    var id := w.positions[i].queueBatchId;
    var k := CompletingRecord(w.records, id);
    var j := CompletedIndex(w.records[k].completed, id);
    var c := w.records[k].completed[j];
    assert AccountOk(OfDone(c), w.positions);
    MemberPayable(OfDone(c), w.positions, i);
    ReserveHolds(w, i, k, j);
    LeavesBy(w, i, k, j);
  }

  lemma LeavesBy(w: World, i: nat, k: nat, j: nat)
    requires i < |w.positions| && QueueStateOf(w.positions[i], w.fund) == Ok(Completed)
    requires k == CompletingRecord(w.records, w.positions[i].queueBatchId) && k < |w.records|
    requires j == CompletedIndex(w.records[k].completed, w.positions[i].queueBatchId) && j < |w.records[k].completed|
    requires w.records[k].completed[j].shares != 0
    requires var (p, a) := (w.positions[i], OfDone(w.records[k].completed[j]));
             var e := EntitledTo(a, p.queueShares);
             && p.queueShares <= a.shares && a.settled + p.queueShares <= a.shares
             && p.queuePaidAtoms <= e <= a.filled && a.paid + e - p.queuePaidAtoms <= a.filled
             && p.claimableAtoms + a.filled - a.paid <= w.fund.reservedWithdrawalAtoms
    ensures var (r, dust) := (SettleQueueOf(w, i), DustOf(w.records[k].completed[j], w.positions[i]));
            && (r.Ok? <==> w.fund.freeCashAtoms + dust <= U64_MAX) && (r.Err? ==> r.error == Overflow)
            && 0 <= dust <= w.fund.reservedWithdrawalAtoms
            && (r.Ok? ==> Leaves(w, r.value, i, k, j))
  {
    var (p, c) := (w.positions[i], w.records[k].completed[j]);
    LeaveSucceeds(c, p.queueShares, p.queuePaidAtoms);
    hide LeaveBatch, QueueStateOf, CompletedIndex, CompletingRecord;
  }

  /** The exit computed from a batch that can pay it. */
  lemma LeaveSucceeds(c: CompletedBatch, q: u64, credited: u64)
    requires c.shares != 0 && q <= c.shares && c.settledShares + q <= c.shares
    requires var e := EntitledTo(OfDone(c), q);
             credited <= e <= c.filledAtoms && c.paidAtoms + e - credited <= c.filledAtoms
    ensures var (settled, owed) := (c.settledShares + q, EntitledTo(OfDone(c), q) - credited);
            var dust := if settled == c.shares then c.filledAtoms - c.paidAtoms - owed else 0;
            LeaveBatch(c, q, credited)
                == Ok(Exit(c.(paidAtoms := c.paidAtoms + owed + dust, settledShares := settled), owed, dust))
  {}

  /** Changing one batch of a record keeps the record's ids in order and its other batches. */
  lemma OneBatchChanged(r: EpochLedger, j: nat, c': CompletedBatch)
    requires j < |r.completed| && c'.id == r.completed[j].id && Ascending(r.completed, DoneId())
    ensures var r' := r.(completed := r.completed[j := c']);
            && Ascending(r'.completed, DoneId())
            && (forall c :: c in r'.completed ==> c == c' || (c in r.completed && c.id != c'.id))
            && (forall id: u64 :: HasCompleted(r', id) == HasCompleted(r, id))
            && RecordDebt()(r') == RecordDebt()(r) - DoneDebt()(r.completed[j]) + DoneDebt()(c')
  {
    var r' := r.(completed := r.completed[j := c']);
    SumUpdate(r.completed, j, c', DoneDebt());
    ChangedMembers(r.completed, j, c');
    ChangedOrder(r.completed, j, c');
    forall id: u64 ensures HasCompleted(r', id) == HasCompleted(r, id) {
      if HasCompleted(r, id) {
        var m :| 0 <= m < |r.completed| && r.completed[m].id == id;
        assert r'.completed[m] in r'.completed && r'.completed[m].id == id;
      }
    }
    hide Ascending, Sum;
  }

  lemma ChangedMembers(cs: seq<CompletedBatch>, j: nat, c': CompletedBatch)
    requires j < |cs| && c'.id == cs[j].id && Ascending(cs, DoneId())
    ensures forall c :: c in cs[j := c'] ==> c == c' || (c in cs && c.id != c'.id)
  {
    var cs' := cs[j := c'];
    forall c | c in cs' ensures c == c' || (c in cs && c.id != c'.id) {
      var n :| 0 <= n < |cs'| && cs'[n] == c;
      assert n != j ==> DoneId()(cs[Min(n, j)]) < DoneId()(cs[Max(n, j)]);
    }
  }

  lemma ChangedOrder(cs: seq<CompletedBatch>, j: nat, c': CompletedBatch)
    requires j < |cs| && c'.id == cs[j].id && Ascending(cs, DoneId())
    ensures Ascending(cs[j := c'], DoneId())
  {
    var cs' := cs[j := c'];
    forall a, b | 0 <= a < b < |cs'| ensures DoneId()(cs'[a]) < DoneId()(cs'[b]) {
      assert DoneId()(cs[a]) < DoneId()(cs[b]);
    }
  }

  /** A batch completed in another record is another batch. */
  lemma OtherRecord(rs: seq<EpochLedger>, k: nat, id: u64, m: nat, c: CompletedBatch)
    requires CompletedOnce(rs) && k < |rs| && m < |rs| && m != k && HasCompleted(rs[k], id) && c in rs[m].completed
    ensures c.id != id
  {
    if c.id == id {
      assert HasCompleted(rs[m], id);
    }
  }

  lemma LocationSameIds(w: World, w': World)
    requires LocationInv(w) && |w'.records| == |w.records|
    requires w'.fund.openBatches == w.fund.openBatches && w'.fund.accumulatingBatchId == w.fund.accumulatingBatchId
    requires forall m, id: u64 :: 0 <= m < |w.records| ==>
                                  HasCompleted(w'.records[m], id) == HasCompleted(w.records[m], id)
    requires forall m :: 0 <= m < |w'.records| ==> Ascending(w'.records[m].completed, DoneId())
    ensures LocationInv(w')
  {
    forall id: u64 ensures SomeCompleted(w'.records, id) == SomeCompleted(w.records, id) {
      if SomeCompleted(w.records, id) {
        var k :| 0 <= k < |w.records| && HasCompleted(w.records[k], id);
        assert HasCompleted(w'.records[k], id);
      }
      if SomeCompleted(w'.records, id) {
        var k :| 0 <= k < |w'.records| && HasCompleted(w'.records[k], id);
        assert HasCompleted(w.records[k], id);
      }
    }
    forall id: u64 ensures InRing(w'.fund, id) == InRing(w.fund, id) {}
    forall id: u64 | 0 < id < w'.fund.accumulatingBatchId ensures InRing(w'.fund, id) || SomeCompleted(w'.records, id) {
      assert InRing(w.fund, id) || SomeCompleted(w.records, id);
    }
    forall id: u64 | SomeCompleted(w'.records, id) ensures OutOfRing(w'.fund, id) {
      assert OutOfRing(w.fund, id);
    }
  }

  lemma LeavesLocations(w: World, w': World, i: nat, k: nat, j: nat)
    requires LocationInv(w) && Leaves(w, w', i, k, j)
    ensures LocationInv(w')
  {
    OneBatchChanged(w.records[k], j, w'.records[k].completed[j]);
    LocationSameIds(w, w');
  }

  lemma LeavesReserve(w: World, w': World, i: nat, k: nat, j: nat)
    requires LocationInv(w) && ReserveInv(w) && Leaves(w, w', i, k, j)
    ensures ReserveInv(w')
  {
    OneBatchChanged(w.records[k], j, w'.records[k].completed[j]);
    SumUpdate(w.positions, i, w'.positions[i], Claimable());
    SumUpdate(w.records, k, w'.records[k], RecordDebt());
  }

  lemma LeavesShape(w: World, w': World, i: nat, k: nat, j: nat)
    requires ShapeInv(w) && Leaves(w, w', i, k, j)
    ensures ShapeInv(w')
  {
    assert PositionOk(w.positions[i], w.fund);
    ShapeFrame(w, w', i);
  }

  lemma LeavesAccounts(w: World, w': World, i: nat, k: nat, j: nat)
    requires ShapeInv(w) && AccountsInv(w) && LocationInv(w) && Leaves(w, w', i, k, j)
    ensures AccountsInv(w')
  {
    var q := w'.positions[i];
    var c, c' := w.records[k].completed[j], w'.records[k].completed[j];
    assert HasCompleted(w.records[k], c.id) && SomeCompleted(w.records, c.id);
    assert OutOfRing(w.fund, c.id);
    OneBatchChanged(w.records[k], j, c');
    assert AccountOk(OfDone(c), w.positions);
    LeavingAccount(OfDone(c), w.positions, i, q, OfDone(c'));
    SumUpdate(w.positions, i, q, QueuedIn(w.fund.accumulatingBatchId));
    forall x | x in w'.fund.openBatches ensures AccountOk(OfOpen(x), w'.positions) {
      OtherAccount(OfOpen(x), w.positions, i, q);
    }
    forall m, x | 0 <= m < |w'.records| && x in w'.records[m].completed ensures AccountOk(OfDone(x), w'.positions) {
      if x != c' {
        if m != k {
          OtherRecord(w.records, k, c.id, m, x);
        }
        OtherAccount(OfDone(x), w.positions, i, q);
      }
    }
  }

  // ---- Main results -------------------------------------------------------------------------

  /** A position's queue is always somewhere the fund can find it. */
  lemma QueueFound(w: World, i: nat)
    requires Inv(w) && i < |w.positions|
    ensures QueueStateOf(w.positions[i], w.fund).Ok?
  {
    assert PositionOk(w.positions[i], w.fund);
  }

  lemma SettleQueueKeeps(w: World, i: nat)
    requires Inv(w) && i < |w.positions|
    ensures var r := SettleQueueOf(w, i);
            && (r.Ok? <==> w.fund.freeCashAtoms + ReturnedDust(w, i) <= U64_MAX) && (r.Err? ==> r.error == Overflow)
            && 0 <= ReturnedDust(w, i) <= w.fund.reservedWithdrawalAtoms
            && (r.Ok? ==> Inv(r.value))
  {
    QueueFound(w, i);
    var state := QueueStateOf(w.positions[i], w.fund).value;
    match state
    case Empty =>
    case Accumulating =>
    case Open(index) =>
      SettleOpenKeeps(w, i, index);
    case Completed =>
      SettleCompletedSucceeds(w, i);
      if SettleQueueOf(w, i).Ok? {
        var w' := SettleQueueOf(w, i).value;
        var k := CompletingRecord(w.records, w.positions[i].queueBatchId);
        var j := CompletedIndex(w.records[k].completed, w.positions[i].queueBatchId);
        LeavesShape(w, w', i, k, j);
        LeavesLocations(w, w', i, k, j);
        LeavesReserve(w, w', i, k, j);
        LeavesAccounts(w, w', i, k, j);
        SettleQueueSharesPending(w, i);
      }
  }

  /** Settling a redemption touches no share and no pending money. */
  lemma SettleQueueSharesPending(w: World, i: nat)
    requires SharesInv(w) && PendingInv(w) && i < |w.positions| && SettleQueueOf(w, i).Ok?
    ensures var w' := SettleQueueOf(w, i).value; SharesInv(w') && PendingInv(w')
  {
    QueueTouches(w, i);
    hide SettleQueueOf, Sum, PendingInv;
    var w' := SettleQueueOf(w, i).value;
    SumUpdate(w.positions, i, w'.positions[i], Owned());
    UnsettledFrame(w.records, w'.records);
    PendingFrame(w, w', i);
  }

  /** Only claims, queue fields, reserve and the completing batch move. */
  lemma QueueTouches(w: World, i: nat)
    requires i < |w.positions| && SettleQueueOf(w, i).Ok?
    ensures var w' := SettleQueueOf(w, i).value;
            && |w'.positions| == |w.positions| && w'.positions == w.positions[i := w'.positions[i]]
            && SamePending(w.positions[i], w'.positions[i]) && Owned()(w'.positions[i]) == Owned()(w.positions[i])
            && w'.fund.totalShares == w.fund.totalShares && w'.fund.queuedShares == w.fund.queuedShares
            && w'.fund.pendingDepositAtoms == w.fund.pendingDepositAtoms
               && w'.fund.pendingCarryFrom == w.fund.pendingCarryFrom
            && |w'.records| == |w.records|
            && forall k :: 0 <= k < |w.records| ==> w'.records[k] == w.records[k].(completed := w'.records[k].completed)
  {}

  lemma {:induction false} UnsettledFrame(rs: seq<EpochLedger>, rs': seq<EpochLedger>)
    requires |rs'| == |rs|
    requires forall k :: 0 <= k < |rs| ==> rs'[k] == rs[k].(completed := rs'[k].completed)
    ensures Sum(rs', UnsettledShares()) == Sum(rs, UnsettledShares())
  {
    if rs != [] {
      UnsettledFrame(rs[..|rs| - 1], rs'[..|rs| - 1]);
    }
  }

  lemma {:induction false} SameCompletingRecord(rs: seq<EpochLedger>, rs': seq<EpochLedger>, id: u64)
    requires |rs'| == |rs| && forall k :: 0 <= k < |rs| ==> rs'[k].completed == rs[k].completed
    ensures CompletingRecord(rs', id) == CompletingRecord(rs, id)
  {
    if rs != [] {
      assert HasCompleted(rs'[0], id) == HasCompleted(rs[0], id);
      SameCompletingRecord(rs[1..], rs'[1..], id);
    }
  }

  /** Converting a pending deposit does not change what leaving the queue returns. */
  lemma PendingKeepsDust(w: World, i: nat)
    requires i < |w.positions| && SettlePendingOf(w, i).Ok?
    ensures var w' := SettlePendingOf(w, i).value;
            i < |w'.positions| && w'.fund == w.fund && ReturnedDust(w', i) == ReturnedDust(w, i)
  {
    var w' := SettlePendingOf(w, i).value;
    SameCompletingRecord(w.records, w'.records, w.positions[i].queueBatchId);
    hide CompletingRecord, CompletedIndex, ConvertingRecord, DustOf;
    assert QueueStateOf(w'.positions[i], w'.fund) == QueueStateOf(w.positions[i], w.fund);
    SameDust(w.positions[i], w'.positions[i]);
  }

  lemma SameDust(p: PositionLedger, q: PositionLedger)
    requires q.queueShares == p.queueShares && q.queuePaidAtoms == p.queuePaidAtoms
    ensures forall c: CompletedBatch :: c.shares != 0 ==> DustOf(c, q) == DustOf(c, p)
  {}

  /**
   * No settlement guard can fire: settling any position of any reachable world succeeds exactly when the dust
   * it returns still fits the free cash, which only a vault above one u64 could prevent.
   */
  lemma SettleKeeps(w: World, i: nat)
    requires Inv(w) && i < |w.positions|
    ensures var r := Settle(w, i);
            && (r.Ok? <==> w.fund.freeCashAtoms + ReturnedDust(w, i) <= U64_MAX) && (r.Err? ==> r.error == Overflow)
            && 0 <= ReturnedDust(w, i) <= w.fund.reservedWithdrawalAtoms
            && (r.Ok? ==> Inv(r.value))
  {
    SettlePendingKeeps(w, i);
    PendingKeepsDust(w, i);
    hide SettlePendingOf, SettleQueueOf, ReturnedDust, Inv;
    SettleQueueKeeps(SettlePendingOf(w, i).value, i);
  }
}
