/** What one roll does to money and shares, in terms of the ledger before it only. */
module EarnFundRollExact {
  import opened Numbers
  import opened Sums
  import opened EarnFundLedger
  import opened EarnFundRoll

  // ---- Pending deposits ---------------------------------------------------------------------

  /** Shares the pending deposits buy at the entry price `(free cash + upper) / shares`, or at par from nothing. */
  function Minted(l: FundLedger, upper: u64): int {
    if l.totalShares == 0 then if l.deployedAtoms == 0 then l.pendingDepositAtoms else 0
    else if l.freeCashAtoms + upper == 0 then 0
    else l.pendingDepositAtoms * l.totalShares / (l.freeCashAtoms + upper)
  }

  /** The entry price and the new share total fit a word and at least one share is bought. */
  predicate CanMint(l: FundLedger, upper: u64) {
    l.freeCashAtoms + upper <= U64_MAX && 0 < Minted(l, upper) && l.totalShares + Minted(l, upper) <= U64_MAX
  }

  /** The deposits become shares exactly when they can; otherwise every one of them stays pending. */
  predicate ConvertsAll(l: FundLedger, upper: u64, l': FundLedger, o: RollOutcome) {
    var pending := l.pendingDepositAtoms;
    && o.carryFrom == l.pendingCarryFrom
    && (o.pendingConverted <==> pending == 0 || CanMint(l, upper))
    && (o.pendingConverted ==>
          && o.convertedAtoms == pending && l'.pendingDepositAtoms == 0 && l'.pendingCarryFrom == l.epoch + 1
          && o.convertedShares == if pending == 0 then 0 else Minted(l, upper))
    && (!o.pendingConverted ==>
          && o.convertedAtoms == 0 && l'.pendingDepositAtoms == pending && l'.pendingCarryFrom == l.pendingCarryFrom
          && o.convertedShares == 0)
  }

  /** The price later settlements use: entry when it can be represented, exit otherwise. */
  predicate RecordsPrices(l: FundLedger, lower: u64, upper: u64, l': FundLedger, o: RollOutcome) {
    var entered := l.freeCashAtoms + upper <= U64_MAX && (l.totalShares != 0 || l.deployedAtoms == 0);
    && l'.price.shares == o.price.shares == l.totalShares
    && l'.price.assets == (if l.totalShares == 0 then 0 else l.freeCashAtoms + lower)
    && o.price.assets == (if l.totalShares == 0 then 0 else l.freeCashAtoms + (if entered then upper else lower))
  }

  lemma ConvertAtRollExact(l: FundLedger, upper: u64)
    requires ConvertAtRoll(l, EntryPrice(l, upper)).Ok?
    ensures var c := ConvertAtRoll(l, EntryPrice(l, upper)).value;
            var pending := l.pendingDepositAtoms;
            && (c.converted <==> pending == 0 || CanMint(l, upper))
            && (c.converted ==> c.atoms == pending && c.shares == if pending == 0 then 0 else Minted(l, upper))
  {
    if 0 < l.totalShares && 0 < l.freeCashAtoms + upper {
      FloorGreatest(l.pendingDepositAtoms * l.totalShares, l.freeCashAtoms + upper, 0);
    }
  }

  // ---- The queue ----------------------------------------------------------------------------

  /** Does the accumulating batch join the queue: always into a free slot, into a full ring only if all complete. */
  predicate Joins(l: FundLedger, lower: u64, cash: int, total: int) {
    && l.accumulatingShares != 0
    && (|l.openBatches| < MAX_OPEN_BATCHES
        || (l.queuedShares * (l.freeCashAtoms + lower) < (cash + 1) * l.totalShares
            && (l.deployedAtoms == 0 || l.queuedShares != total)))
  }

  function QueueAt(l: FundLedger, joins: bool): seq<QueueBatch> {
    if joins then l.openBatches + [QueueBatch(l.accumulatingBatchId, l.accumulatingShares, 0, 0, 0)]
    else l.openBatches
  }

  lemma RollBatchesExact(l: FundLedger, c: Conversion, lower: u64)
    requires Consistent(l) && NavPrice(l, lower).Ok? && RollBatches(l, c, NavPrice(l, lower).value).Ok?
    ensures var g := RollBatches(l, c, NavPrice(l, lower).value).value;
            var joins := Joins(l, lower, c.free, c.total);
            && g.batches == QueueAt(l, joins)
            && g.accumulatingShares == (if joins then 0 else l.accumulatingShares)
            && g.accumulatingId == l.accumulatingBatchId + (if joins then 1 else 0)
  {
    hide Ascending;
    assert TotalRemaining(l.openBatches) + l.accumulatingShares == l.queuedShares;
    if l.totalShares != 0 {
      AffordableIff(l.queuedShares, l.freeCashAtoms + lower, l.totalShares, c.free);
    }
  }

  lemma AffordableIff(shares: int, a: int, s: int, cash: int)
    requires 0 < s
    ensures shares * a / s <= cash <==> shares * a < (cash + 1) * s
  {
    var cost := shares * a / s;
    FloorBounds(shares * a, s);
    MulSucc(cost, s);
    if cost <= cash {
      MulMono(cost + 1, cash + 1, s);
    } else {
      MulMono(cash + 1, cost, s);
    }
  }

  // ---- The fill -----------------------------------------------------------------------------

  /** The queue `bs` became `f` by the greatest affordable fill, and the ledger took the result. */
  ghost predicate FillsAt(l: FundLedger, lower: u64, l': FundLedger, o: RollOutcome, bs: seq<QueueBatch>,
                          f: seq<QueueBatch>, fill: int) {
    var cash := l.freeCashAtoms + o.convertedAtoms;
    var total := l.totalShares + o.convertedShares;
    && (if TotalRemaining(bs) == 0 then f == bs == []
        else
          && 0 < l.totalShares && l.freeCashAtoms + lower <= U64_MAX
          && FillsQueue(bs, f, SharePrice(l.freeCashAtoms + lower, l.totalShares), cash, total, l.deployedAtoms, fill))
    && l'.openBatches == Filter(f, IsOpen()) && o.completed == AllCompleted(Filter(f, IsDone()))
    && o.queueBeforeShares == TotalRemaining(bs)
    && o.fillShares == Burned(bs, f) && o.fillAtoms == Paid(bs, f)
    && l'.freeCashAtoms == cash - o.fillAtoms && l'.totalShares == total - o.fillShares
    && l'.queuedShares == l.queuedShares - o.fillShares
    && l'.reservedWithdrawalAtoms == l.reservedWithdrawalAtoms + o.fillAtoms
  }

  ghost predicate FillsSomehow(l: FundLedger, lower: u64, l': FundLedger, o: RollOutcome, bs: seq<QueueBatch>) {
    exists f, fill :: FillsAt(l, lower, l', o, bs, f, fill)
  }

  /** What a roll leaves alone, and the clock it moves. */
  predicate RollFrame(l: FundLedger, now: u64, lower: u64, l': FundLedger, o: RollOutcome) {
    && l'.epoch == l.epoch + 1 && l'.epochStartedTs == now && o.closedEpoch == l.epoch
    && l'.capBaseAtoms == l'.freeCashAtoms + lower == o.postAssets && o.postShares == l'.totalShares
    && l'.deployedAtoms == l.deployedAtoms
    && l'.windowUpdatedTs == l.windowUpdatedTs && l'.windowLevelAtoms == l.windowLevelAtoms
  }

  ghost predicate RolledExactly(l: FundLedger, now: u64, lower: u64, upper: u64, l': FundLedger, o: RollOutcome) {
    var joins := Joins(l, lower, l.freeCashAtoms + o.convertedAtoms, l.totalShares + o.convertedShares);
    && ConvertsAll(l, upper, l', o)
    && RecordsPrices(l, lower, upper, l', o)
    && l'.accumulatingShares == (if joins then 0 else l.accumulatingShares)
    && l'.accumulatingBatchId == l.accumulatingBatchId + (if joins then 1 else 0)
    && FillsSomehow(l, lower, l', o, QueueAt(l, joins))
    && RollFrame(l, now, lower, l', o)
  }

  /** The filled queue of a roll, whatever its size. */
  lemma RollFillExact(l: FundLedger, lower: u64, upper: u64, price: SharePrice, c: Conversion, g: Batching,
                      f: seq<QueueBatch>) returns (fill: int)
    requires Consistent(l) && RollFilled(l, lower, upper, price, c, g, f)
    ensures if TotalRemaining(g.batches) == 0 then f == g.batches == []
            else 0 < price.shares && price == SharePrice(l.freeCashAtoms + lower, l.totalShares)
                 && FillsQueue(g.batches, f, price, c.free, c.total, l.deployedAtoms, fill)
  {
    hide ConvertAtRoll, RollBatches, FillsQueue, Ascending;
    ConvertFacts(l, EntryPrice(l, upper));
    RollBatchesFacts(l, c, price);
    if TotalRemaining(g.batches) == 0 {
      EmptyQueue(g.batches, g.accumulatingId);
      fill := 0;
    } else {
      hide FillRoll;
      FillIsProRata(g.batches, g.accumulatingId, price, c.free, c.total, l.deployedAtoms);
      fill :| FillsQueue(g.batches, f, price, c.free, c.total, l.deployedAtoms, fill);
    }
  }

  /**
   * A successful roll: deposits convert exactly when they can, the newest batch joins exactly when there is a slot
   * or everything completes, every batch is filled pro rata with the greatest affordable fill, and nothing else
   * moves.
   */
  lemma RollExact(l: FundLedger, minEpochSecs: u64, now: u64, lower: u64, upper: u64)
    requires Roll(l, minEpochSecs, now, lower, upper).Ok?
    ensures now >= Min(l.epochStartedTs + minEpochSecs, U64_MAX) && l.epoch < 0xFF_FFFF_FFFF_FFFF && Consistent(l)
    ensures var (l', o) := Roll(l, minEpochSecs, now, lower, upper).value;
            RolledExactly(l, now, lower, upper, l', o)
  {
    hide ConvertAtRoll, RollBatches, FillRoll, FillsQueue, CanMint, Minted, Joins, QueueAt;
    var price := NavPrice(l, lower).value;
    var c := ConvertAtRoll(l, EntryPrice(l, upper)).value;
    var g := RollBatches(l, c, price).value;
    var f := FillRoll(g.batches, price, c.free, c.total, l.deployedAtoms).value;
    ConvertFacts(l, EntryPrice(l, upper));
    ConvertAtRollExact(l, upper);
    RollBatchesExact(l, c, lower);
    var fill := RollFillExact(l, lower, upper, price, c, g, f);
    var (l', o) := Roll(l, minEpochSecs, now, lower, upper).value;
    assert FillsAt(l, lower, l', o, g.batches, f, fill);
  }

  /** A roll is refused as not ready exactly before its epoch's time, or at the last epoch. */
  lemma NotReadyIff(l: FundLedger, minEpochSecs: u64, now: u64, lower: u64, upper: u64)
    ensures Roll(l, minEpochSecs, now, lower, upper) == Err(NotReady) <==>
              now < Min(l.epochStartedTs + minEpochSecs, U64_MAX) || l.epoch >= 0xFF_FFFF_FFFF_FFFF
  {
    if RollReady(l, minEpochSecs, now) && Consistent(l) {
      RollFailsOnlyByOverflow(l, minEpochSecs, now, lower, upper);
      hide Roll;
    }
  }

  // ---- No cash stays idle beside an unfilled queue --------------------------------------------

  /** Rounding costs each batch less than one share and less than one atom. */
  lemma {:induction false} ProRataSums(bs: seq<QueueBatch>, f: seq<QueueBatch>, price: SharePrice, fill: int,
                                       remaining: int)
    requires 0 < remaining && 0 < price.shares && AllProRata(bs, f, price, fill, remaining)
    ensures TotalRemaining(bs) * fill - |bs| * remaining <= Burned(bs, f) * remaining
    ensures Burned(bs, f) * price.assets - |bs| * price.shares <= Paid(bs, f) * price.shares
    ensures bs != [] ==> TotalRemaining(bs) * fill - |bs| * remaining < Burned(bs, f) * remaining
  {
    if bs != [] {
      var n := |bs| - 1;
      ProRataSums(bs[..n], f[..n], price, fill, remaining);
      ProRataSumsStep(bs, f, price, fill, remaining);
    }
  }

  lemma ProRataSumsStep(bs: seq<QueueBatch>, f: seq<QueueBatch>, price: SharePrice, fill: int, remaining: int)
    requires 0 < remaining && 0 < price.shares && AllProRata(bs, f, price, fill, remaining) && bs != []
    requires var (b0, f0) := (bs[..|bs| - 1], f[..|bs| - 1]);
             && TotalRemaining(b0) * fill - |b0| * remaining <= Burned(b0, f0) * remaining
             && Burned(b0, f0) * price.assets - |b0| * price.shares <= Paid(b0, f0) * price.shares
    ensures TotalRemaining(bs) * fill - |bs| * remaining < Burned(bs, f) * remaining
    ensures Burned(bs, f) * price.assets - |bs| * price.shares <= Paid(bs, f) * price.shares
  {
    var n := |bs| - 1;
    var (b0, f0) := (bs[..n], f[..n]);
    assert ProRata(bs[n], f[n], price, fill, remaining);
    var es: int := f[n].filledShares - bs[n].filledShares;
    var ea: int := f[n].filledAtoms - bs[n].filledAtoms;
    FloorBounds(bs[n].Remaining() * fill, remaining);
    FloorBounds(es * price.assets, price.shares);
    hide ProRata, AllProRata;
    assert TotalRemaining(bs) == TotalRemaining(b0) + bs[n].Remaining();
    assert Burned(bs, f) == Burned(b0, f0) + es;
    assert Paid(bs, f) == Paid(b0, f0) + ea;
    hide TotalRemaining, Burned, Paid;
    AddScaled(TotalRemaining(b0), bs[n].Remaining(), fill);
    AddScaled(Burned(b0, f0), es, remaining);
    AddScaled(Burned(b0, f0), es, price.assets);
    AddScaled(Paid(b0, f0), ea, price.shares);
    MulSucc(n, remaining);
    MulSucc(n, price.shares);
  }

  /** The two roundings together: an unaffordable next share leaves less than a share and an atom per batch. */
  lemma IdleCash(cash: int, paid: int, burned: int, fill: int, n: int, a: int, s: int)
    requires 0 <= a && fill - n < burned && (fill + 1) * a > cash * s && burned * a - n * s <= paid * s
    ensures (cash - paid) * s < n * (a + s)
  {
    MulMono(fill + 1, burned + n, a);
    AddScaled(burned, n, a);
    AddScaled(cash, -paid, s);
    assert n * (a + s) == n * a + n * s;
  }

  lemma {:induction false} FilterCount(f: seq<QueueBatch>)
    ensures |Filter(f, IsOpen())| + |Filter(f, IsDone())| == |f|
  {
    if f != [] {
      var n := |f| - 1;
      FilterCount(f[..n]);
      assert f == f[..n] + [f[n]];
      FilterSnoc(f[..n], f[n], IsOpen());
      FilterSnoc(f[..n], f[n], IsDone());
    }
  }

  /** A fill of everything leaves no batch open. */
  lemma WholeFillCompletes(bs: seq<QueueBatch>, f: seq<QueueBatch>, price: SharePrice, remaining: int)
    requires 0 < remaining && 0 < price.shares && AllProRata(bs, f, price, remaining, remaining)
    ensures Filter(f, IsOpen()) == []
  {
    forall b | b in f ensures b.Remaining() == 0 {
      var i :| 0 <= i < |f| && f[i] == b;
      assert ProRata(bs[i], f[i], price, remaining, remaining);
      FloorIs(bs[i].Remaining() * remaining, remaining, bs[i].Remaining());
    }
    FilterNone(f, IsOpen());
  }

  lemma QueueWithin(l: FundLedger, joins: bool)
    requires Consistent(l)
    ensures TotalRemaining(QueueAt(l, joins)) <= l.totalShares
  {
    SumSnoc(l.openBatches, QueueBatch(l.accumulatingBatchId, l.accumulatingShares, 0, 0, 0), BatchRemaining());
  }

  /** With a share kept back nothing was minted, so the price is usable and its quotient fits. */
  lemma KeptPriceUsable(l: FundLedger, lower: u64, upper: u64, l': FundLedger, o: RollOutcome, remaining: int)
    requires ConvertsAll(l, upper, l', o) && remaining <= l.totalShares && 0 < l.totalShares
    requires remaining == l.totalShares + o.convertedShares
    ensures var (cash, a) := (l.freeCashAtoms + o.convertedAtoms, l.freeCashAtoms + lower);
            cash <= a && (0 < a ==> cash * l.totalShares < (U64_MAX + 1) * a)
  {
    var (cash, a) := (l.freeCashAtoms + o.convertedAtoms, l.freeCashAtoms + lower);
    assert o.convertedAtoms == 0;
    MulMono(cash, a, l.totalShares);
    if 0 < a {
      MulMono(l.totalShares, U64_MAX, a);
      MulSucc(U64_MAX, a);
    }
  }

  /** The cash left beside `n` batches buys less than one share and one atom for each of them. */
  predicate CashSpent(l: FundLedger, lower: u64, l': FundLedger, n: int) {
    l'.freeCashAtoms * l.totalShares < n * (l.freeCashAtoms + lower + l.totalShares)
  }

  lemma SameCount(l: FundLedger, lower: u64, l': FundLedger, o: RollOutcome, bs: seq<QueueBatch>, f: seq<QueueBatch>,
                  fill: int)
    requires FillsAt(l, lower, l', o, bs, f, fill)
    ensures |f| == |bs|
  {}

  /** A pro-rata fill burns its target up to less than one share a batch. */
  lemma BurnsNearFill(bs: seq<QueueBatch>, f: seq<QueueBatch>, price: SharePrice, fill: int)
    requires 0 < TotalRemaining(bs) && 0 < price.shares && AllProRata(bs, f, price, fill, TotalRemaining(bs))
    ensures bs != [] && fill - |bs| < Burned(bs, f)
    ensures Burned(bs, f) * price.assets - |bs| * price.shares <= Paid(bs, f) * price.shares
  {
    var remaining := TotalRemaining(bs);
    ProRataSums(bs, f, price, fill, remaining);
    hide AllProRata, Burned, Paid;
    assert bs != [];
    hide TotalRemaining;
    AddScaled(fill, -|bs|, remaining);
    if Burned(bs, f) <= fill - |bs| { MulMono(Burned(bs, f), fill - |bs|, remaining); }
  }

  /** The greatest fill short of the whole queue stopped because the next share was too dear. */
  lemma StoppedByCash(fill: int, price: SharePrice, cash: int, remaining: int, total: int, deployed: int)
    requires FillIsGreatest(fill, price, cash, remaining, total, deployed) && 0 < price.shares && 0 <= cash
    requires deployed != 0 && remaining == total ==>
               cash <= price.assets && (0 < price.assets ==> cash * price.shares < (U64_MAX + 1) * price.assets)
    ensures || (fill + 1) * price.assets > cash * price.shares
            || (fill == remaining && !(deployed != 0 && remaining == total))
            || (fill == remaining - 1 && deployed != 0 && remaining == total)
            || cash == 0
  {}

  lemma FillSpendsCash(l: FundLedger, lower: u64, upper: u64, l': FundLedger, o: RollOutcome, bs: seq<QueueBatch>,
                       f: seq<QueueBatch>, fill: int)
    requires FillsAt(l, lower, l', o, bs, f, fill) && ConvertsAll(l, upper, l', o) && l'.openBatches != []
    requires TotalRemaining(bs) <= l.totalShares
    ensures CashSpent(l, lower, l', |bs|)
            || (l.deployedAtoms != 0 && TotalRemaining(bs) == l.totalShares + o.convertedShares
                && o.fillShares + |bs| >= TotalRemaining(bs))
  {
    hide AllProRata, ConvertsAll, FillIsGreatest, TotalRemaining;
    assert f == [] ==> Filter(f, IsOpen()) == [];
    hide Filter;
    var remaining := TotalRemaining(bs);
    assert remaining != 0;
    var price := SharePrice(l.freeCashAtoms + lower, l.totalShares);
    var (cash, total) := (l.freeCashAtoms + o.convertedAtoms, l.totalShares + o.convertedShares);
    BurnsNearFill(bs, f, price, fill);
    assert fill == remaining ==> Filter(f, IsOpen()) == [] by {
      if fill == remaining { WholeFillCompletes(bs, f, price, remaining); }
    }
    assert fill != remaining;
    hide Filter, FillsQueue, FillsAt, Burned, Paid;
    if l.deployedAtoms != 0 && remaining == total { KeptPriceUsable(l, lower, upper, l', o, remaining); }
    StoppedByCash(fill, price, cash, remaining, total, l.deployedAtoms);
    var (a: int, s: int, n) := (price.assets, price.shares, |bs|);
    assert (cash - o.fillAtoms) * s < n * (a + s) || (fill + 1) * a <= cash * s by {
      if (fill + 1) * a > cash * s { IdleCash(cash, o.fillAtoms, o.fillShares, fill, n, a, s); }
    }
    if cash == 0 { MulMono(1, n, a + s); }
  }

  /**
   * A roll that leaves batches open has spent its cash: what is left buys less than one share and one atom for each
   * batch it filled. The only other reason is the one share kept back while invested; then all the rest was burned,
   * short of one share for each batch.
   */
  lemma NoIdleCash(l: FundLedger, minEpochSecs: u64, now: u64, lower: u64, upper: u64)
    requires Roll(l, minEpochSecs, now, lower, upper).Ok?
    ensures var (l', o) := Roll(l, minEpochSecs, now, lower, upper).value;
            var n := |l'.openBatches| + |o.completed|;
            l'.openBatches != [] ==>
              || CashSpent(l, lower, l', n)
              || (l.deployedAtoms != 0 && o.queueBeforeShares == l.totalShares + o.convertedShares
                  && o.fillShares + n >= o.queueBeforeShares)
  {
    hide Roll, CashSpent, ConvertsAll, AllProRata, Joins, QueueAt, TotalRemaining, Consistent, RollReady, Filter;
    RollExact(l, minEpochSecs, now, lower, upper);
    var (l', o) := Roll(l, minEpochSecs, now, lower, upper).value;
    var joins := Joins(l, lower, l.freeCashAtoms + o.convertedAtoms, l.totalShares + o.convertedShares);
    var bs := QueueAt(l, joins);
    QueueWithin(l, joins);
    var f, fill :| FillsAt(l, lower, l', o, bs, f, fill);
    FilterCount(f);
    if l'.openBatches != [] {
      FillSpendsCash(l, lower, upper, l', o, bs, f, fill);
      SameCount(l, lower, l', o, bs, f, fill);
    }
  }
}
