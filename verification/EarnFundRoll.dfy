/** Closing an epoch: conversion at the entry price, pro-rata fills at the exit price, and what no roll can break. */
module EarnFundRoll {
  import opened Numbers
  import opened Sums
  import opened EarnFundLedger

  datatype RollOutcome = RollOutcome(
    closedEpoch: u64,
    price: SharePrice,
    pendingConverted: bool,
    carryFrom: u64,
    convertedAtoms: u64,
    convertedShares: u64,
    queueBeforeShares: u64,
    fillShares: u64,
    fillAtoms: u64,
    completed: seq<CompletedBatch>,
    postAssets: u64,
    postShares: u64)

  function RecordOf(o: RollOutcome): EpochLedger {
    EpochLedger(o.closedEpoch, o.price, o.pendingConverted, o.carryFrom, o.convertedAtoms, o.convertedShares,
                o.completed)
  }

  /** The fund's totals after pending deposits converted or were carried. */
  datatype Conversion = Conversion(total: u64, free: u64, pending: u64, atoms: u64, shares: u64, converted: bool)

  function ConvertAtRoll(l: FundLedger, entry: Result<SharePrice>): Result<Conversion> {
    var pending := l.pendingDepositAtoms;
    if pending == 0 then Ok(Conversion(l.totalShares, l.freeCashAtoms, 0, 0, 0, true))
    else
      var bought := if entry.Ok? then entry.value.SharesForAtoms(pending) else Err(entry.error);
      if bought.Ok? && bought.value != 0 && l.totalShares + bought.value <= U64_MAX then
        var free :- Add(l.freeCashAtoms, pending);
        Ok(Conversion(l.totalShares + bought.value, free, 0, pending, bought.value, true))
      else
        Ok(Conversion(l.totalShares, l.freeCashAtoms, pending, 0, 0, false))
  }

  function TotalRemaining(bs: seq<QueueBatch>): nat {
    SumNonNegative(bs, BatchRemaining());
    Sum(bs, BatchRemaining())
  }

  function FilledShares(): QueueBatch -> int { (b: QueueBatch) => b.filledShares }

  function FilledAtoms(): QueueBatch -> int { (b: QueueBatch) => b.filledAtoms }

  /** The batches this roll fills, and the accumulating batch that follows them. */
  datatype Batching = Batching(batches: seq<QueueBatch>, accumulatingShares: u64, accumulatingId: u64)

  function RollBatches(l: FundLedger, c: Conversion, price: SharePrice): Result<Batching> {
    var queuedAll := TotalRemaining(l.openBatches) + l.accumulatingShares;
    if queuedAll > U64_MAX then Err(Overflow)
    else
      var allCost :- price.AtomsForShares(queuedAll);
      var completes := c.free >= allCost && (l.deployedAtoms == 0 || queuedAll != c.total);
      if l.accumulatingShares != 0 && (completes || |l.openBatches| < MAX_OPEN_BATCHES) then
        var nextId :- Add(l.accumulatingBatchId, 1);
        Ok(Batching(l.openBatches + [QueueBatch(l.accumulatingBatchId, l.accumulatingShares, 0, 0, 0)], 0, nextId))
      else
        Ok(Batching(l.openBatches, l.accumulatingShares, l.accumulatingBatchId))
  }

  /** Shares one roll fills out of `remaining`. */
  function FillTarget(price: SharePrice, cash: u64, remaining: u64, total: u64, deployed: u64): Result<u64>
    requires remaining != 0
  {
    var cost :- price.AtomsForShares(remaining);
    var keep := if deployed != 0 && remaining == total then 1 else 0;
    if cash >= cost && keep == 0 then Ok(remaining)
    else
      var bought := price.SharesForAtoms(cash);
      Ok(Min(if bought.Ok? then bought.value else 0, remaining - keep))
  }

  function FillBatch(b: QueueBatch, price: SharePrice, fill: u64, remaining: u64): Result<QueueBatch> {
    var shares :- if fill == remaining then Ok(b.Remaining()) else MulDivFloor(b.Remaining(), fill, remaining);
    var atoms :- price.AtomsForShares(shares);
    var filledShares :- Add(b.filledShares, shares);
    var filledAtoms :- Add(b.filledAtoms, atoms);
    Ok(b.(filledShares := filledShares, filledAtoms := filledAtoms))
  }

  function FillAll(bs: seq<QueueBatch>, price: SharePrice, fill: u64, remaining: u64): Result<seq<QueueBatch>> {
    if bs == [] then Ok([])
    else
      var front :- FillAll(bs[..|bs| - 1], price, fill, remaining);
      var last :- FillBatch(bs[|bs| - 1], price, fill, remaining);
      Ok(front + [last])
  }

  function FillRoll(bs: seq<QueueBatch>, price: SharePrice, cash: u64, total: u64,
                    deployed: u64): Result<seq<QueueBatch>> {
    var remaining := TotalRemaining(bs);
    if remaining > U64_MAX then Err(Overflow)
    else if remaining == 0 then Ok(bs)
    else
      var fill :- FillTarget(price, cash, remaining, total, deployed);
      FillAll(bs, price, fill, remaining)
  }

  function IsDone(): QueueBatch -> bool { (b: QueueBatch) => b.Remaining() == 0 }

  function IsOpen(): QueueBatch -> bool { (b: QueueBatch) => b.Remaining() != 0 }

  function CompletedOf(b: QueueBatch): CompletedBatch {
    CompletedBatch(b.id, b.shares, b.filledAtoms, b.paidAtoms, 0)
  }

  function AllCompleted(bs: seq<QueueBatch>): (cs: seq<CompletedBatch>)
    ensures |cs| == |bs|
    ensures forall i :: 0 <= i < |bs| ==> cs[i] == CompletedOf(bs[i])
  {
    seq(|bs|, i requires 0 <= i < |bs| => CompletedOf(bs[i]))
  }

  predicate RollReady(l: FundLedger, minEpochSecs: u64, now: u64) {
    now >= Min(l.epochStartedTs + minEpochSecs, U64_MAX) && l.epoch < MAX_FUND_EPOCH
  }

  /** The whole epoch close (`FundLedger::roll`) on values. */
  function Roll(l: FundLedger, minEpochSecs: u64, now: u64, lower: u64, upper: u64): Result<(FundLedger, RollOutcome)> {
    if !RollReady(l, minEpochSecs, now) then Err(NotReady)
    else if !Consistent(l) then Err(InvalidState)
    else
      var price :- NavPrice(l, lower);
      var entry := EntryPrice(l, upper);
      var c :- ConvertAtRoll(l, entry);
      var g :- RollBatches(l, c, price);
      var filled :- FillRoll(g.batches, price, c.free, c.total, l.deployedAtoms);
      CloseRoll(l, now, lower, if entry.Ok? then entry.value else price, price, c, g, filled)
  }

  function CloseRoll(l: FundLedger, now: u64, lower: u64, recordPrice: SharePrice, price: SharePrice,
                     c: Conversion, g: Batching, filled: seq<QueueBatch>): Result<(FundLedger, RollOutcome)>
    requires l.epoch < MAX_FUND_EPOCH
  {
    var burned := Sum(filled, FilledShares()) - Sum(g.batches, FilledShares());
    var paid := Sum(filled, FilledAtoms()) - Sum(g.batches, FilledAtoms());
    var queueBefore := TotalRemaining(g.batches);
    if !(0 <= burned <= U64_MAX && 0 <= paid <= U64_MAX && queueBefore <= U64_MAX) then Err(Overflow)
    else if paid > c.free then Err(InvalidState)
    else
      var total :- Sub(c.total, burned);
      var queued :- Sub(l.queuedShares, burned);
      var free :- Sub(c.free, paid);
      var reserved :- Add(l.reservedWithdrawalAtoms, paid);
      var open := Filter(filled, IsOpen());
      if |open| > MAX_OPEN_BATCHES then Err(InvalidState)
      else
        var postAssets :- Add(free, lower);
        var next := l.(
          totalShares := total, epoch := l.epoch + 1, epochStartedTs := now, price := price,
          capBaseAtoms := postAssets, freeCashAtoms := free, pendingDepositAtoms := c.pending,
          pendingCarryFrom := if c.converted then l.epoch + 1 else l.pendingCarryFrom,
          reservedWithdrawalAtoms := reserved, queuedShares := queued,
          accumulatingBatchId := g.accumulatingId, accumulatingShares := g.accumulatingShares,
          openBatches := open);
        if !Consistent(next) then Err(InvalidState)
        else Ok((next, RollOutcome(l.epoch, recordPrice, c.converted, l.pendingCarryFrom, c.atoms, c.shares,
                                   queueBefore, burned, paid, AllCompleted(Filter(filled, IsDone())), postAssets,
                                       total)))
  }

  // ---- What one fill does -------------------------------------------------------------------

  /** A batch after a fill: same members, no share or atom taken back. */
  predicate Filled(b: QueueBatch, f: QueueBatch) {
    && f == b.(filledShares := f.filledShares, filledAtoms := f.filledAtoms)
    && b.filledShares <= f.filledShares <= b.shares
    && b.filledAtoms <= f.filledAtoms
  }

  /** The fill burns shares worth at least the atoms paid, and at most its pro-rata part. */
  predicate FairFill(b: QueueBatch, f: QueueBatch, price: SharePrice, fill: int, remaining: int) {
    && (f.filledAtoms - b.filledAtoms) * price.shares <= (f.filledShares - b.filledShares) * price.assets
    && (f.filledShares - b.filledShares) * remaining <= b.Remaining() * fill
  }

  lemma FillBatchFacts(b: QueueBatch, price: SharePrice, fill: u64, remaining: u64)
    requires b.filledShares <= b.shares && 0 < remaining && fill <= remaining && 0 < price.shares
    ensures var r := FillBatch(b, price, fill, remaining);
            && (r.Err? ==> r.error == Overflow)
            && (r.Ok? ==> Filled(b, r.value) && FairFill(b, r.value, price, fill, remaining)
                          && (fill == remaining ==> r.value.Remaining() == 0))
  {
    var left := b.Remaining();
    var shares := left * fill / remaining;
    assert 0 <= shares <= left by {
      FloorBounds(left * fill, remaining);
      assert left * fill <= left * remaining by { MulMono(fill, remaining, left); }
      FloorMono(left * fill, left * remaining, remaining);
      FloorIs(left * remaining, remaining, left);
      FloorMono(0, left * fill, remaining);
    }
    var given := if fill == remaining then left else shares;
    assert given * remaining <= left * fill by { FloorBounds(left * fill, remaining); }
    FloorBounds(given * price.assets, price.shares);
  }

  /** Every batch of a filled queue was filled fairly; only overflow can stop the fill. */
  lemma {:induction false} FillAllEach(bs: seq<QueueBatch>, price: SharePrice, fill: u64, remaining: u64)
    requires 0 < remaining && fill <= remaining && 0 < price.shares
    requires forall b :: b in bs ==> b.filledShares <= b.shares
    ensures var r := FillAll(bs, price, fill, remaining);
            && (r.Err? ==> r.error == Overflow)
            && (r.Ok? ==>
                  var f := r.value;
                  && |f| == |bs|
                  && (forall i :: 0 <= i < |bs| ==> Filled(bs[i], f[i]))
                  && (forall i :: 0 <= i < |bs| ==> FairFill(bs[i], f[i], price, fill, remaining))
                  && (fill == remaining ==> forall i :: 0 <= i < |f| ==> f[i].Remaining() == 0))
  {
    if bs != [] {
      var n := |bs| - 1;
      FillAllEach(bs[..n], price, fill, remaining);
      FillBatchFacts(bs[n], price, fill, remaining);
    }
  }

  /** Fair fills add up: the whole queue burns fairly and shrinks by exactly what was burned. */
  lemma {:induction false} FairSums(bs: seq<QueueBatch>, f: seq<QueueBatch>, price: SharePrice, fill: int,
                                    remaining: int)
    requires |f| == |bs|
    requires forall i :: 0 <= i < |bs| ==> Filled(bs[i], f[i])
    requires forall i :: 0 <= i < |bs| ==> FairFill(bs[i], f[i], price, fill, remaining)
    ensures var burned := Sum(f, FilledShares()) - Sum(bs, FilledShares());
            var paid := Sum(f, FilledAtoms()) - Sum(bs, FilledAtoms());
            && 0 <= burned && 0 <= paid
            && paid * price.shares <= burned * price.assets
            && burned * remaining <= TotalRemaining(bs) * fill
            && TotalRemaining(f) == TotalRemaining(bs) - burned
  {
    if bs != [] {
      var n := |bs| - 1;
      FairSums(bs[..n], f[..n], price, fill, remaining);
      var ds: int := Sum(f[..n], FilledShares()) - Sum(bs[..n], FilledShares());
      var da: int := Sum(f[..n], FilledAtoms()) - Sum(bs[..n], FilledAtoms());
      var es: int := f[n].filledShares - bs[n].filledShares;
      var ea: int := f[n].filledAtoms - bs[n].filledAtoms;
      AddScaled(da, ea, price.shares);
      AddScaled(ds, es, price.assets);
      AddScaled(ds, es, remaining);
      AddScaled(TotalRemaining(bs[..n]), bs[n].Remaining(), fill);
    }
  }

  /** The fill target is payable from the cash and, while invested, never the last share. */
  lemma FillTargetFacts(price: SharePrice, cash: u64, remaining: u64, total: u64, deployed: u64)
    requires 0 < remaining <= price.shares && remaining <= total
    ensures var r := FillTarget(price, cash, remaining, total, deployed);
            && r.Ok? && r.value <= remaining
            && r.value * price.assets / price.shares <= cash
            && (deployed != 0 ==> r.value < total)
            && ((remaining * price.assets / price.shares <= cash && (deployed == 0 || remaining != total)) ==>
                r.value == remaining)
  {
    CostFits(price, remaining);
    var fill := FillTarget(price, cash, remaining, total, deployed).value;
    if !(cash >= price.AtomsForShares(remaining).value && (deployed == 0 || remaining != total)) {
      var bought := price.SharesForAtoms(cash);
      if bought.Ok? {
        var a: int, s: int := price.assets, price.shares;
        FloorBounds(cash * s, a);
        assert fill * a <= cash * s by { MulMono(fill, bought.value, a); }
        FloorMono(fill * a, cash * s, s);
        FloorIs(cash * s, s, cash);
      } else {
        assert fill == 0;
        FloorIs(0, price.shares, 0);
      }
    }
  }

  /** Queued shares never cost more than the fund's assets, so their price never overflows. */
  lemma CostFits(price: SharePrice, shares: u64)
    requires 0 < price.shares && shares <= price.shares
    ensures price.AtomsForShares(shares).Ok?
    ensures 0 <= shares * price.assets / price.shares <= price.assets
  {
    var a: int, s: int := price.assets, price.shares;
    assert shares * a <= s * a by { MulMono(shares, s, a); }
    FloorMono(shares * a, a * s, s);
    FloorIs(a * s, s, a);
    FloorMono(0, shares * a, s);
    FloorIs(0, s, 0);
  }

  // ---- The queue a roll fills ---------------------------------------------------------------

  /** A well-formed queue: valid unfinished batches in id order below the next id. */
  predicate QueueOk(bs: seq<QueueBatch>, nextId: u64) {
    && (forall b :: b in bs ==> RingBatchOk(b, nextId))
    && Ascending(bs, BatchId())
  }

  predicate Affordable(price: SharePrice, shares: u64, cash: int) {
    var cost := price.AtomsForShares(shares);
    cost.Ok? && cost.value <= cash
  }

  /** Every batch of the queue can be completed with this cash, leaving a share while invested. */
  predicate Completes(l: FundLedger, c: Conversion, price: SharePrice) {
    var queued := l.queuedShares;
    && Affordable(price, queued, c.free)
    && (l.deployedAtoms == 0 || queued != c.total)
  }

  lemma QueueOkSnoc(bs: seq<QueueBatch>, b: QueueBatch, nextId: u64)
    requires QueueOk(bs, nextId)
    ensures QueueOk(bs + [b], nextId) <==> RingBatchOk(b, nextId) && (bs == [] || bs[|bs| - 1].id < b.id)
  {
    var all := bs + [b];
    assert all[|bs|] == b && b in all;
    if RingBatchOk(b, nextId) && (bs == [] || bs[|bs| - 1].id < b.id) {
      forall i | 0 <= i < |bs| ensures BatchId()(bs[i]) < BatchId()(b) {
        assert i < |bs| - 1 ==> BatchId()(bs[i]) < BatchId()(bs[|bs| - 1]);
      }
    }
    if QueueOk(all, nextId) && bs != [] {
      assert BatchId()(all[|bs| - 1]) < BatchId()(all[|bs|]);
    }
  }

  lemma RollBatchesFacts(l: FundLedger, c: Conversion, price: SharePrice)
    requires Consistent(l) && price.shares == l.totalShares
    ensures var r := RollBatches(l, c, price);
            && (r.Err? ==> r.error == Overflow)
            && (r.Ok? ==>
                  var g := r.value;
                  && QueueOk(g.batches, g.accumulatingId)
                  && g.accumulatingShares + TotalRemaining(g.batches) == l.queuedShares
                  && g.accumulatingId != 0
                  && (|g.batches| > MAX_OPEN_BATCHES ==> g.accumulatingShares == 0 && Completes(l, c, price)))
  {
    hide MulDivFloor, Ascending;
    assert TotalRemaining(l.openBatches) + l.accumulatingShares == l.queuedShares;
    if l.totalShares != 0 {
      CostFits(price, l.queuedShares);
    }
    var joining := QueueBatch(l.accumulatingBatchId, l.accumulatingShares, 0, 0, 0);
    SumSnoc(l.openBatches, joining, BatchRemaining());
    if l.accumulatingShares != 0 && l.accumulatingBatchId < U64_MAX {
      JoinQueue(l.openBatches, joining);
    }
  }

  /** The accumulating batch joins behind every open batch. */
  lemma JoinQueue(bs: seq<QueueBatch>, b: QueueBatch)
    requires QueueOk(bs, b.id) && 0 < b.id < U64_MAX && b.shares != 0 && b.filledShares == 0
             && b.paidAtoms <= b.filledAtoms
    ensures QueueOk(bs + [b], b.id + 1)
  {
    assert bs != [] ==> bs[|bs| - 1] in bs;
    QueueOkSnoc(bs, b, b.id + 1);
  }

  /** An empty fund has an empty queue. */
  lemma EmptyQueue(bs: seq<QueueBatch>, nextId: u64)
    requires QueueOk(bs, nextId) && TotalRemaining(bs) == 0
    ensures bs == []
  {
    if bs != [] {
      assert bs[0] in bs;
      SumHas(bs, 0, BatchRemaining());
    }
  }

  predicate AllDone(f: seq<QueueBatch>) {
    forall i :: 0 <= i < |f| ==> f[i].Remaining() == 0
  }

  /** A filled queue: what it burned and paid. */
  function Burned(bs: seq<QueueBatch>, f: seq<QueueBatch>): int { Sum(f, FilledShares()) - Sum(bs, FilledShares()) }

  function Paid(bs: seq<QueueBatch>, f: seq<QueueBatch>): int { Sum(f, FilledAtoms()) - Sum(bs, FilledAtoms()) }

  predicate FilledQueue(bs: seq<QueueBatch>, f: seq<QueueBatch>, price: SharePrice) {
    && EachFilled(bs, f)
    && FairTotals(bs, f, price)
  }

  predicate EachFilled(bs: seq<QueueBatch>, f: seq<QueueBatch>) {
    |f| == |bs| && forall i :: 0 <= i < |bs| ==> Filled(bs[i], f[i])
  }

  predicate FairTotals(bs: seq<QueueBatch>, f: seq<QueueBatch>, price: SharePrice) {
    && 0 <= Burned(bs, f) <= TotalRemaining(bs)
    && 0 <= Paid(bs, f)
    && Paid(bs, f) * price.shares <= Burned(bs, f) * price.assets
    && TotalRemaining(f) == TotalRemaining(bs) - Burned(bs, f)
  }

  /** Filling `fill` of the queued shares burns at most `fill` and pays at most their price. */
  lemma FillAllTotals(bs: seq<QueueBatch>, price: SharePrice, fill: u64, remaining: u64, cash: u64)
    requires remaining == TotalRemaining(bs) && 0 < remaining && fill <= remaining && 0 < price.shares
    requires forall b :: b in bs ==> b.filledShares <= b.shares
    requires fill * price.assets / price.shares <= cash
    ensures var r := FillAll(bs, price, fill, remaining);
            && (r.Err? ==> r.error == Overflow)
            && (r.Ok? ==>
                  && FilledQueue(bs, r.value, price) && Paid(bs, r.value) <= cash && Burned(bs, r.value) <= fill
                  && (fill == remaining ==> AllDone(r.value)))
  {
    hide FillAll, FairFill, Filled;
    FillAllEach(bs, price, fill, remaining);
    var r := FillAll(bs, price, fill, remaining);
    if r.Ok? {
      FairSums(bs, r.value, price, fill, remaining);
      BurnWithinFill(Burned(bs, r.value), remaining, fill);
      PayWithinCash(Paid(bs, r.value), Burned(bs, r.value), fill, price, cash);
    }
  }

  /** The fill pays at most the cash, never burns the last share while invested, and can only overflow. */
  lemma FillRollFacts(bs: seq<QueueBatch>, nextId: u64, price: SharePrice, cash: u64, total: u64, deployed: u64)
    requires QueueOk(bs, nextId) && TotalRemaining(bs) <= price.shares && TotalRemaining(bs) <= total
    ensures var r := FillRoll(bs, price, cash, total, deployed);
            && (r.Err? ==> r.error == Overflow)
            && (r.Ok? ==>
                  var f := r.value;
                  && FilledQueue(bs, f, price)
                  && Paid(bs, f) <= cash
                  && (deployed != 0 && 0 < total ==> Burned(bs, f) < total)
                  && (Affordable(price, TotalRemaining(bs), cash) && (deployed == 0 || TotalRemaining(bs) != total) ==>
                      AllDone(f))
                  && (0 < TotalRemaining(bs) ==> exists fill :: FillsQueue(bs, f, price, cash, total, deployed, fill)))
  {
    var remaining := TotalRemaining(bs);
    if remaining == 0 {
      EmptyQueue(bs, nextId);
    } else {
      hide FillAll, FillTarget, FilledQueue, AllDone, Ascending, FillsQueue;
      FillTargetFacts(price, cash, remaining, total, deployed);
      var fill := FillTarget(price, cash, remaining, total, deployed).value;
      FillAllTotals(bs, price, fill, remaining, cash);
      if FillRoll(bs, price, cash, total, deployed).Ok? {
        FillIsProRata(bs, nextId, price, cash, total, deployed);
      }
    }
  }

  /** A batch gets its exact pro-rata part of the fill, rounded down, at the price rounded down. */
  predicate ProRata(b: QueueBatch, f: QueueBatch, price: SharePrice, fill: int, remaining: int)
    requires 0 < remaining && 0 < price.shares
  {
    var shares := f.filledShares - b.filledShares;
    && shares == b.Remaining() * fill / remaining
    && f.filledAtoms - b.filledAtoms == shares * price.assets / price.shares
    && f == b.(filledShares := f.filledShares, filledAtoms := f.filledAtoms)
  }

  predicate AllProRata(bs: seq<QueueBatch>, f: seq<QueueBatch>, price: SharePrice, fill: int, remaining: int)
    requires 0 < remaining && 0 < price.shares
  {
    |f| == |bs| && forall i :: 0 <= i < |bs| ==> ProRata(bs[i], f[i], price, fill, remaining)
  }

  lemma FillBatchProRata(b: QueueBatch, price: SharePrice, fill: u64, remaining: u64)
    requires 0 < remaining && 0 < price.shares && FillBatch(b, price, fill, remaining).Ok?
    ensures ProRata(b, FillBatch(b, price, fill, remaining).value, price, fill, remaining)
  {
    FloorIs(b.Remaining() * remaining, remaining, b.Remaining());
  }

  lemma {:induction false} FillAllProRata(bs: seq<QueueBatch>, price: SharePrice, fill: u64, remaining: u64)
    requires 0 < remaining && 0 < price.shares && FillAll(bs, price, fill, remaining).Ok?
    ensures AllProRata(bs, FillAll(bs, price, fill, remaining).value, price, fill, remaining)
  {
    if bs != [] {
      var n := |bs| - 1;
      FillAllProRata(bs[..n], price, fill, remaining);
      FillBatchProRata(bs[n], price, fill, remaining);
      hide ProRata, FillBatch;
    }
  }

  /**
   * `fill` is what the cash buys: at most the whole queue, short of one share when that would burn the last one
   * while invested, and otherwise the most whole shares the cash pays for. A price that cannot be used buys
   * nothing, which matters only when a share is kept.
   */
  predicate FillIsGreatest(fill: int, price: SharePrice, cash: int, remaining: int, total: int, deployed: int) {
    var keep := if deployed != 0 && remaining == total then 1 else 0;
    && 0 <= fill <= remaining - keep
    && (fill * price.assets <= cash * price.shares
        || (fill == remaining && fill * price.assets < (cash + 1) * price.shares))
    && (fill == remaining - keep || (fill + 1) * price.assets > cash * price.shares
        || (fill == 0 && keep == 1 && (price.assets == 0 || (U64_MAX + 1) * price.assets <= cash * price.shares)))
  }

  ghost predicate FillsQueue(bs: seq<QueueBatch>, f: seq<QueueBatch>, price: SharePrice, cash: int, total: int,
                             deployed: int, fill: int)
    requires 0 < TotalRemaining(bs) && 0 < price.shares
  {
    var remaining := TotalRemaining(bs);
    && AllProRata(bs, f, price, fill, remaining)
    && FillIsGreatest(fill, price, cash, remaining, total, deployed)
    && Burned(bs, f) <= fill && Paid(bs, f) <= cash
  }

  /** A capped floor is the greatest whole number of shares within the cap and the cash. */
  lemma GreatestBuy(cash: int, a: int, s: int, cap: int)
    requires 0 < a && 0 <= cash && 0 < s && 0 <= cap
    ensures var (q, fill) := (cash * s / a, Min(cash * s / a, cap));
            && 0 <= fill <= cap && fill * a <= cash * s
            && (fill == cap || (fill + 1) * a > cash * s)
            && (q > U64_MAX ==> (U64_MAX + 1) * a <= cash * s)
  {
    var q := cash * s / a;
    FloorBounds(cash * s, a);
    MulSucc(q, a);
    MulMono(0, cash, s);
    FloorGreatest(cash * s, a, 0);
    MulMono(Min(q, cap), q, a);
    if q > U64_MAX { MulMono(U64_MAX + 1, q, a); }
  }

  /** More shares than a word for the cash means the whole queue is affordable. */
  lemma HugeBuyPays(cash: int, a: int, s: int, remaining: int)
    requires 0 < a && 0 < s && remaining <= cash * s / a
    ensures remaining * a / s <= cash
  {
    FloorBounds(cash * s, a);
    MulMono(remaining, cash * s / a, a);
    FloorMono(remaining * a, cash * s, s);
    FloorIs(cash * s, s, cash);
  }

  lemma FillTargetIsGreatest(price: SharePrice, cash: u64, remaining: u64, total: u64, deployed: u64)
    requires 0 < remaining <= price.shares && remaining <= total
    ensures var r := FillTarget(price, cash, remaining, total, deployed);
            r.Ok? && FillIsGreatest(r.value, price, cash, remaining, total, deployed)
  {
    CostFits(price, remaining);
    var keep := if deployed != 0 && remaining == total then 1 else 0;
    var a: int, s: int := price.assets, price.shares;
    var cost := remaining * a / s;
    FloorBounds(remaining * a, s);
    if cash >= cost && keep == 0 {
      MulMono(cost + 1, cash + 1, s);
      MulSucc(cost, s);
    } else if a == 0 {
      FloorIs(0, s, 0);
      MulMono(0, cash, s);
    } else {
      GreatestBuy(cash, a, s, remaining - keep);
      if cash * s / a > U64_MAX && keep == 0 { HugeBuyPays(cash, a, s, remaining); }
    }
  }

  /**
   * Every batch of a nonempty queue is filled with the same fraction of what it has left, rounded down, at the
   * roll's price; together they burn at most the greatest fill the cash pays for.
   */
  lemma FillIsProRata(bs: seq<QueueBatch>, nextId: u64, price: SharePrice, cash: u64, total: u64, deployed: u64)
    requires QueueOk(bs, nextId) && 0 < TotalRemaining(bs) <= price.shares && TotalRemaining(bs) <= total
    requires FillRoll(bs, price, cash, total, deployed).Ok?
    ensures exists fill :: FillsQueue(bs, FillRoll(bs, price, cash, total, deployed).value, price, cash, total,
                                      deployed, fill)
  {
    var remaining := TotalRemaining(bs);
    FillTargetFacts(price, cash, remaining, total, deployed);
    FillTargetIsGreatest(price, cash, remaining, total, deployed);
    hide FillAll, FillTarget, FilledQueue, AllDone, Ascending, AllProRata, FillIsGreatest;
    var fill := FillTarget(price, cash, remaining, total, deployed).value;
    FillAllTotals(bs, price, fill, remaining, cash);
    FillAllProRata(bs, price, fill, remaining);
    assert FillsQueue(bs, FillRoll(bs, price, cash, total, deployed).value, price, cash, total, deployed, fill);
  }

  lemma BurnWithinFill(burned: int, remaining: int, fill: int)
    requires 0 < remaining && burned * remaining <= remaining * fill
    ensures burned <= fill
  {
    if burned > fill {
      MulMono(fill + 1, burned, remaining);
    }
  }

  lemma PayWithinCash(paid: int, burned: int, fill: int, price: SharePrice, cash: int)
    requires 0 < price.shares && 0 <= burned <= fill && paid * price.shares <= burned * price.assets
    requires fill * price.assets / price.shares <= cash
    ensures paid <= cash
  {
    MulMono(burned, fill, price.assets);
    FloorGreatest(fill * price.assets, price.shares, paid);
  }

  // ---- Main results -------------------------------------------------------------------------

  lemma ConvertFacts(l: FundLedger, entry: Result<SharePrice>)
    ensures var r := ConvertAtRoll(l, entry);
            && (r.Err? ==> r.error == Overflow)
            && (r.Ok? ==>
                  var c := r.value;
                  && c.free + c.pending == l.freeCashAtoms + l.pendingDepositAtoms
                  && c.total == l.totalShares + c.shares && c.free == l.freeCashAtoms + c.atoms
                  && (c.converted ==> c.pending == 0) && (!c.converted ==> c.atoms == 0 && c.shares == 0))
  {}

  /** Filling keeps every id, so the unfinished part of a filled queue is again a well-formed ring. */
  lemma OpenPart(bs: seq<QueueBatch>, f: seq<QueueBatch>, nextId: u64)
    requires QueueOk(bs, nextId) && |f| == |bs|
    requires forall i :: 0 <= i < |bs| ==> Filled(bs[i], f[i])
    ensures QueueOk(Filter(f, IsOpen()), nextId)
    ensures Sum(Filter(f, IsOpen()), BatchRemaining()) == TotalRemaining(f)
    ensures |Filter(f, IsOpen())| <= |f|
    ensures AllDone(f) ==> Filter(f, IsOpen()) == []
  {
    FilterMembers(f, IsOpen());
    FilterMembers(f, IsDone());
    forall i, j | 0 <= i < j < |f| ensures f[i].id < f[j].id {
      assert bs[i].id < bs[j].id by { assert BatchId()(bs[i]) < BatchId()(bs[j]); }
    }
    FilterAscending(f, IsOpen(), BatchId());
    FilterSum(f, IsOpen(), IsDone(), BatchRemaining());
    SumZero(Filter(f, IsDone()), BatchRemaining());
    forall b | b in Filter(f, IsOpen()) ensures RingBatchOk(b, nextId) {
      var i :| 0 <= i < |f| && f[i] == b;
      assert bs[i] in bs;
    }
    if AllDone(f) {
      FilterNone(f, IsOpen());
    }
  }

  /** All intermediate values of a roll that got as far as filling its queue. */
  ghost predicate RollFilled(l: FundLedger, lower: u64, upper: u64, price: SharePrice, c: Conversion, g: Batching,
                             f: seq<QueueBatch>) {
    && NavPrice(l, lower) == Ok(price)
    && ConvertAtRoll(l, EntryPrice(l, upper)) == Ok(c)
    && RollBatches(l, c, price) == Ok(g)
    && FillRoll(g.batches, price, c.free, c.total, l.deployedAtoms) == Ok(f)
  }

  /** Everything later results need about the filled queue of a roll. */
  lemma RollFilledFacts(l: FundLedger, lower: u64, upper: u64, price: SharePrice, c: Conversion, g: Batching,
                        f: seq<QueueBatch>)
    requires Consistent(l) && RollFilled(l, lower, upper, price, c, g, f)
    ensures QueueOk(g.batches, g.accumulatingId) && g.accumulatingId != 0
    ensures g.accumulatingShares + TotalRemaining(g.batches) == l.queuedShares
    ensures FilledQueue(g.batches, f, price)
    ensures Paid(g.batches, f) <= c.free
    ensures Burned(g.batches, f) <= l.queuedShares
    ensures |Filter(f, IsOpen())| <= MAX_OPEN_BATCHES
  {
    hide ConvertAtRoll, RollBatches, FillRoll, Ascending;
    ConvertFacts(l, EntryPrice(l, upper));
    RollBatchesFacts(l, c, price);
    FillRollFacts(g.batches, g.accumulatingId, price, c.free, c.total, l.deployedAtoms);
    OpenPart(g.batches, f, g.accumulatingId);
  }

  /** The closing bookkeeping of a filled queue never meets one of its guards. */
  lemma CloseRollSound(l: FundLedger, now: u64, lower: u64, upper: u64, recordPrice: SharePrice, price: SharePrice,
                       c: Conversion, g: Batching, f: seq<QueueBatch>)
    requires Consistent(l) && l.epoch < MAX_FUND_EPOCH && RollFilled(l, lower, upper, price, c, g, f)
    ensures var r := CloseRoll(l, now, lower, recordPrice, price, c, g, f);
            r.Err? ==> r.error == Overflow
  {
    ConvertFacts(l, EntryPrice(l, upper));
    RollFilledFacts(l, lower, upper, price, c, g, f);
    OpenPart(g.batches, f, g.accumulatingId);
  }

  /**
   * From any consistent ledger that is due, a roll fails only by arithmetic overflow: overspending the cash,
   * overfilling the ring and ending inconsistent are unreachable.
   */
  lemma RollFailsOnlyByOverflow(l: FundLedger, minEpochSecs: u64, now: u64, lower: u64, upper: u64)
    requires Consistent(l) && RollReady(l, minEpochSecs, now)
    ensures var r := Roll(l, minEpochSecs, now, lower, upper);
            r.Err? ==> r.error == Overflow
  {
    var price := NavPrice(l, lower);
    if price.Ok? {
      var entry := EntryPrice(l, upper);
      ConvertFacts(l, entry);
      var c := ConvertAtRoll(l, entry);
      if c.Ok? {
        RollBatchesFacts(l, c.value, price.value);
        var g := RollBatches(l, c.value, price.value);
        if g.Ok? {
          FillRollFacts(g.value.batches, g.value.accumulatingId, price.value, c.value.free, c.value.total,
                        l.deployedAtoms);
          var f := FillRoll(g.value.batches, price.value, c.value.free, c.value.total, l.deployedAtoms);
          if f.Ok? {
            CloseRollSound(l, now, lower, upper, if entry.Ok? then entry.value else price.value, price.value, c.value,
                           g.value, f.value);
          }
        }
      }
    }
  }

  // ---- When a roll succeeds -------------------------------------------------------------------

  /**
   * The money of the vault and the marked assets fit a word, no batch was filled with so much that this cash
   * could push it over, and a batch id is left.
   */
  predicate Roomy(l: FundLedger, lower: u64) {
    && l.freeCashAtoms + l.pendingDepositAtoms + l.reservedWithdrawalAtoms <= U64_MAX
    && l.freeCashAtoms + l.pendingDepositAtoms + lower <= U64_MAX
    && (forall b :: b in l.openBatches ==> b.filledAtoms + l.freeCashAtoms + l.pendingDepositAtoms <= U64_MAX)
    && l.accumulatingBatchId < U64_MAX
  }

  /** A batch's part of a fill is within the batch and within the fill. */
  lemma PartOfFill(left: int, fill: int, remaining: int)
    requires 0 <= left <= remaining && 0 < remaining && 0 <= fill <= remaining
    ensures 0 <= left * fill / remaining <= left && left * fill / remaining <= fill
  {
    MulMono(0, left, fill);
    FloorGreatest(left * fill, remaining, 0);
    MulMono(left, remaining, fill);
    MulMono(fill, remaining, left);
    FloorMono(left * fill, fill * remaining, remaining);
    FloorMono(left * fill, left * remaining, remaining);
    FloorIs(fill * remaining, remaining, fill);
    FloorIs(left * remaining, remaining, left);
  }

  /** Fewer shares cost no more. */
  lemma PriceOfPart(shares: int, fill: int, price: SharePrice)
    requires 0 <= shares <= fill && 0 < price.shares
    ensures 0 <= shares * price.assets / price.shares <= fill * price.assets / price.shares
  {
    MulMono(shares, fill, price.assets);
    MulMono(0, shares, price.assets);
    FloorMono(shares * price.assets, fill * price.assets, price.shares);
    FloorGreatest(shares * price.assets, price.shares, 0);
  }

  lemma FillBatchSucceeds(b: QueueBatch, price: SharePrice, fill: u64, remaining: u64, cash: u64)
    requires b.filledShares <= b.shares && b.Remaining() <= remaining && 0 < remaining && fill <= remaining
             && 0 < price.shares
    requires fill * price.assets / price.shares <= cash && b.filledAtoms + cash <= U64_MAX
    ensures FillBatch(b, price, fill, remaining).Ok?
  {
    var left := b.Remaining();
    var shares := if fill == remaining then left else left * fill / remaining;
    PartOfFill(left, fill, remaining);
    PriceOfPart(shares, fill, price);
  }

  lemma {:induction false} FillAllSucceeds(bs: seq<QueueBatch>, price: SharePrice, fill: u64, remaining: u64, cash: u64)
    requires 0 < remaining && fill <= remaining && 0 < price.shares && fill * price.assets / price.shares <= cash
    requires forall b :: b in bs ==>
                         b.filledShares <= b.shares && b.Remaining() <= remaining && b.filledAtoms + cash <= U64_MAX
    ensures FillAll(bs, price, fill, remaining).Ok?
  {
    if bs != [] {
      hide FillBatch;
      var n := |bs| - 1;
      FillAllSucceeds(bs[..n], price, fill, remaining, cash);
      assert bs[n] in bs;
      FillBatchSucceeds(bs[n], price, fill, remaining, cash);
    }
  }

  lemma FillRollSucceeds(bs: seq<QueueBatch>, nextId: u64, price: SharePrice, cash: u64, total: u64, deployed: u64)
    requires QueueOk(bs, nextId) && TotalRemaining(bs) <= price.shares && TotalRemaining(bs) <= total
    requires forall b :: b in bs ==> b.filledAtoms + cash <= U64_MAX
    ensures FillRoll(bs, price, cash, total, deployed).Ok?
  {
    var remaining := TotalRemaining(bs);
    if remaining != 0 {
      FillTargetFacts(price, cash, remaining, total, deployed);
      var fill := FillTarget(price, cash, remaining, total, deployed).value;
      forall b | b in bs ensures b.filledShares <= b.shares && b.Remaining() <= remaining {
        var i :| 0 <= i < |bs| && bs[i] == b;
        SumHas(bs, i, BatchRemaining());
      }
      hide FillTarget, FillAll;
      FillAllSucceeds(bs, price, fill, remaining, cash);
    }
  }

  lemma ConvertSucceeds(l: FundLedger, entry: Result<SharePrice>)
    requires l.freeCashAtoms + l.pendingDepositAtoms <= U64_MAX
    ensures ConvertAtRoll(l, entry).Ok?
  {}

  lemma BatchingSucceeds(l: FundLedger, c: Conversion, price: SharePrice)
    requires Consistent(l) && price.shares == l.totalShares && l.accumulatingBatchId < U64_MAX
    ensures RollBatches(l, c, price).Ok?
    ensures forall b :: b in RollBatches(l, c, price).value.batches ==> b in l.openBatches || b.filledAtoms == 0
  {
    if l.totalShares != 0 { CostFits(price, l.queuedShares); }
    hide MulDivFloor, Ascending;
  }

  lemma CloseSucceeds(l: FundLedger, now: u64, lower: u64, upper: u64, recordPrice: SharePrice, price: SharePrice,
                      c: Conversion, g: Batching, f: seq<QueueBatch>)
    requires Consistent(l) && l.epoch < MAX_FUND_EPOCH && RollFilled(l, lower, upper, price, c, g, f) && Roomy(l, lower)
    ensures CloseRoll(l, now, lower, recordPrice, price, c, g, f).Ok?
  {
    ConvertFacts(l, EntryPrice(l, upper));
    RollFilledFacts(l, lower, upper, price, c, g, f);
    OpenPart(g.batches, f, g.accumulatingId);
    hide ConvertAtRoll, RollBatches, FillRoll;
  }

  /** From any consistent ledger that is due, a roll succeeds whenever those totals fit. */
  lemma RollSucceeds(l: FundLedger, minEpochSecs: u64, now: u64, lower: u64, upper: u64)
    requires Consistent(l) && RollReady(l, minEpochSecs, now) && Roomy(l, lower)
    ensures Roll(l, minEpochSecs, now, lower, upper).Ok?
  {
    hide ConvertAtRoll, RollBatches, FillRoll, CloseRoll, Ascending;
    var price := NavPrice(l, lower).value;
    var entry := EntryPrice(l, upper);
    ConvertSucceeds(l, entry);
    ConvertFacts(l, entry);
    var c := ConvertAtRoll(l, entry).value;
    BatchingSucceeds(l, c, price);
    RollBatchesFacts(l, c, price);
    var g := RollBatches(l, c, price).value;
    FillRollSucceeds(g.batches, g.accumulatingId, price, c.free, c.total, l.deployedAtoms);
    var f := FillRoll(g.batches, price, c.free, c.total, l.deployedAtoms).value;
    CloseSucceeds(l, now, lower, upper, if entry.Ok? then entry.value else price, price, c, g, f);
  }

  /** A successful roll leaves a consistent ledger and moves atoms only between the three buckets. */
  lemma RollConserves(l: FundLedger, minEpochSecs: u64, now: u64, lower: u64, upper: u64)
    requires Roll(l, minEpochSecs, now, lower, upper).Ok?
    ensures var (l', o) := Roll(l, minEpochSecs, now, lower, upper).value;
            && Consistent(l')
            && l'.freeCashAtoms + l'.pendingDepositAtoms + l'.reservedWithdrawalAtoms
               == l.freeCashAtoms + l.pendingDepositAtoms + l.reservedWithdrawalAtoms
            && l'.totalShares == l.totalShares + o.convertedShares - o.fillShares
            && l'.queuedShares == l.queuedShares - o.fillShares
            && l'.reservedWithdrawalAtoms == l.reservedWithdrawalAtoms + o.fillAtoms
            && (l.deployedAtoms != 0 && 0 < l.totalShares ==> 0 < l'.totalShares)
  {
    hide ConvertAtRoll, RollBatches, FillRoll, FilledQueue, QueueOk;
    var price := NavPrice(l, lower).value;
    var entry := EntryPrice(l, upper);
    ConvertFacts(l, entry);
    var c := ConvertAtRoll(l, entry).value;
    RollBatchesFacts(l, c, price);
    var g := RollBatches(l, c, price).value;
    FillRollFacts(g.batches, g.accumulatingId, price, c.free, c.total, l.deployedAtoms);
  }

  // ---- Remaining holders never lose ---------------------------------------------------------

  /** `(cash' + v) / shares' >= (cash + v) / shares`, cross-multiplied. */
  predicate NoDilution(cash: int, shares: int, cash': int, shares': int, v: int) {
    (cash' + v) * shares >= (cash + v) * shares'
  }

  /** Minting at or above the true price does not dilute. */
  lemma MintKeeps(cash: int, s: int, upper: int, v: int, atoms: int, minted: int)
    requires 0 <= minted && v <= upper && minted * (cash + upper) <= atoms * s
    ensures NoDilution(cash, s, cash + atoms, s + minted, v)
  {
    MulMono(cash + v, cash + upper, minted);
    AddScaled(cash + v, atoms, s);
    AddScaled(s, minted, cash + v);
  }

  /** Burning at or below the true price does not dilute. */
  lemma BurnKeeps(cash: int, s: int, lower: int, v: int, paid: int, burned: int)
    requires 0 <= burned && lower <= v && paid * s <= burned * (cash + lower)
    ensures NoDilution(cash, s, cash - paid, s - burned, v)
  {
    MulMono(cash + lower, cash + v, burned);
    AddScaled(cash + v, -paid, s);
    AddScaled(s, -burned, cash + v);
  }

  /** Two non-diluting moves compose. */
  lemma NoDilutionTransitive(x: int, s: int, x1: int, s1: int, x2: int, s2: int)
    requires 0 <= s && 0 < s1 && 0 <= s2
    requires x1 * s >= x * s1 && x2 * s1 >= x1 * s2
    ensures x2 * s >= x * s2
  {
    assert (x2 * s) * s1 >= (x * s2) * s1 by {
      MulMono(x1 * s2, x2 * s1, s);
      MulMono(x * s1, x1 * s, s2);
      assert (x2 * s1) * s == (x2 * s) * s1;
      assert (x1 * s2) * s == (x1 * s) * s2;
      assert (x * s1) * s2 == (x * s2) * s1;
    }
    if x2 * s < x * s2 {
      MulMono(x2 * s + 1, x * s2, s1);
    }
  }

  /** A rate at most `x / s` is at most `x1 / s1` once the latter is no lower. */
  lemma RateCarries(paid: int, burned: int, x: int, s: int, x1: int, s1: int)
    requires 0 < s && 0 <= burned && 0 <= s1
    requires paid * s <= burned * x && x1 * s >= x * s1
    ensures paid * s1 <= burned * x1
  {
    assert (paid * s1) * s <= (burned * x1) * s by {
      MulMono(paid * s, burned * x, s1);
      MulMono(x * s1, x1 * s, burned);
      assert (paid * s) * s1 == (paid * s1) * s;
      assert (burned * x) * s1 == (x * s1) * burned;
      assert (burned * x1) * s == (x1 * s) * burned;
    }
    if paid * s1 > burned * x1 {
      MulMono(burned * x1 + 1, paid * s1, s);
    }
  }

  lemma ConversionKeeps(l: FundLedger, upper: u64, v: int)
    requires ConvertAtRoll(l, EntryPrice(l, upper)).Ok? && 0 < l.totalShares && v <= upper
    ensures var c := ConvertAtRoll(l, EntryPrice(l, upper)).value;
            NoDilution(l.freeCashAtoms, l.totalShares, c.free, c.total, v)
  {
    var c := ConvertAtRoll(l, EntryPrice(l, upper)).value;
    if c.shares != 0 {
      var a: int, s: int := l.freeCashAtoms + upper, l.totalShares;
      FloorBounds(c.atoms * s, a);
      assert c.shares == c.atoms * s / a;
      MintKeeps(l.freeCashAtoms, s, upper, v, c.atoms, c.shares);
    }
  }

  /** Burning at the price before a non-diluting mint still does not dilute after it. */
  lemma BurnAfterMintKeeps(cash: int, s: int, cash1: int, s1: int, lower: int, v: int, paid: int, burned: int)
    requires 0 < s && 0 < s1 && 0 <= burned <= s1 && lower <= v
    requires NoDilution(cash, s, cash1, s1, v) && paid * s <= burned * (cash + lower)
    ensures NoDilution(cash, s, cash1 - paid, s1 - burned, v)
  {
    MulMono(cash + lower, cash + v, burned);
    RateCarries(paid, burned, cash + v, s, cash1 + v, s1);
    BurnKeeps(cash1, s1, v, v, paid, burned);
    NoDilutionTransitive(cash + v, s, cash1 + v, s1, cash1 - paid + v, s1 - burned);
  }

  /** For any true open value between the two marks, a roll never lowers the value behind a remaining share. */
  lemma RollKeepsHolders(l: FundLedger, minEpochSecs: u64, now: u64, lower: u64, upper: u64, v: int)
    requires Roll(l, minEpochSecs, now, lower, upper).Ok? && 0 < l.totalShares && lower <= v <= upper
    ensures var l' := Roll(l, minEpochSecs, now, lower, upper).value.0;
            NoDilution(l.freeCashAtoms, l.totalShares, l'.freeCashAtoms, l'.totalShares, v)
  {
    hide ConvertAtRoll, RollBatches, FillRoll, NoDilution;
    var price := NavPrice(l, lower).value;
    var c := ConvertAtRoll(l, EntryPrice(l, upper)).value;
    var g := RollBatches(l, c, price).value;
    var f := FillRoll(g.batches, price, c.free, c.total, l.deployedAtoms).value;
    RollFilledFacts(l, lower, upper, price, c, g, f);
    ConvertFacts(l, EntryPrice(l, upper));
    ConversionKeeps(l, upper, v);
    BurnAfterMintKeeps(l.freeCashAtoms, l.totalShares, c.free, c.total, lower, v, Paid(g.batches, f),
                       Burned(g.batches, f));
  }

  /** Entering now at the upper value never dilutes the holders. */
  lemma ConvertKeepsHolders(l: FundLedger, atoms: u64, upper: u64, v: int)
    requires ConvertPending(l, atoms, upper).Ok? && 0 < l.totalShares && v <= upper
    ensures var l' := ConvertPending(l, atoms, upper).value.0;
            NoDilution(l.freeCashAtoms, l.totalShares, l'.freeCashAtoms, l'.totalShares, v)
  {
    var minted: int := ConvertPending(l, atoms, upper).value.1;
    var a: int, s: int := l.freeCashAtoms + upper, l.totalShares;
    FloorBounds(atoms * s, a);
    assert minted == atoms * s / a;
    MintKeeps(l.freeCashAtoms, s, upper, v, atoms, minted);
  }

  /** Leaving now at the lower value never dilutes the holders who stay. */
  lemma InstantKeepsHolders(l: FundLedger, shares: u64, lower: u64, capBps: u16, now: u64, v: int)
    requires NavPrice(l, lower).Ok? && QuoteInstant(l, shares, NavPrice(l, lower).value, capBps, now).Ok? && lower <= v
    ensures var q := QuoteInstant(l, shares, NavPrice(l, lower).value, capBps, now).value;
            var r := ApplyInstant(l, q);
            && r.Ok? && NoDilution(l.freeCashAtoms, l.totalShares, r.value.freeCashAtoms, r.value.totalShares, v)
            && (l.deployedAtoms != 0 ==> 0 < r.value.totalShares)
  {
    var q := QuoteInstant(l, shares, NavPrice(l, lower).value, capBps, now).value;
    var a: int, s: int := l.freeCashAtoms + lower, l.totalShares;
    FloorBounds(shares * a, s);
    BurnKeeps(l.freeCashAtoms, s, lower, v, q.payout, shares);
  }
}
