/** The buy-back mark: bucketed samples that rise fast and fall slowly, and the head prices drawn from them. */
module BuybackMark {
  import opened Numbers
  import opened Sums
  import opened OrderStatistics

  const RING_BUCKETS: int := 32
  const FLOW_BUCKETS: int := 8
  const NO_ASK: int := U16_MAX
  const NO_BID: int := 0

  /** One series' entry in one ring bucket; the two flag bits are the booleans. */
  datatype Entry = Entry(index: u64, maxAsk: u16, minBid: u16, sampled: bool, allValid: bool, sale: u16, buy: u16)

  datatype Sample = Sample(bucket: u64, ask: u16, bid: u16, valid: bool, sale: u64, buy: u64)

  datatype Head = Head(price: u64, bidPrice: u64, validBuckets: int, saleUsd: int, buyUsd: int)

  const UNSAMPLED: Entry := Entry(0, 0, 0, false, false, 0, 0)

  /** `bin_price`. */
  function BinPrice(bin: u16, tick: u64, maxPayout: u64): u64 {
    if bin == NO_ASK then maxPayout
    else
      MulMono(0, tick, bin);
      Min(Min(tick * bin, U64_MAX), maxPayout)
  }

  lemma BinPriceMono(a: u16, b: u16, tick: u64, maxPayout: u64)
    requires a <= b
    ensures BinPrice(a, tick, maxPayout) <= BinPrice(b, tick, maxPayout)
  {
    MulMono(a, b, tick);
  }

  // ---- Folding samples --------------------------------------------------------------------------------

  function Narrow(v: int): u16
    requires v >= 0
  {
    Min(v, U16_MAX)
  }

  /** Unchecked u64 addition of a bucket's flow, which wraps around. */
  function WrapAdd(a: u64, b: u64): u64 { (a + b) % (U64_MAX + 1) }

  /** `fold_sample`: a newer bucket replaces the entry, the same bucket keeps the worse of both. */
  function Folded(e: Entry, s: Sample): Entry {
    if e.index != s.bucket || !e.sampled then
      Entry(s.bucket, s.ask, s.bid, true, s.valid, Narrow(s.sale), Narrow(s.buy))
    else e.(maxAsk := Max(e.maxAsk, s.ask), minBid := Min(e.minBid, s.bid), allValid := e.allValid && s.valid,
            sale := Narrow(WrapAdd(e.sale, s.sale)), buy := Narrow(WrapAdd(e.buy, s.buy)))
  }

  /** Folding into one bucket of the ring, in place. */
  method FoldSample(ring: array<Entry>, i: nat, s: Sample)
    requires i < ring.Length
    modifies ring
    ensures ring[..] == old(ring[..])[i := Folded(old(ring[i]), s)]
  {
    var e := ring[i];
    if e.index != s.bucket || !e.sampled {
      ring[i] := Entry(s.bucket, s.ask, s.bid, true, s.valid, Narrow(s.sale), Narrow(s.buy));
      return;
    }
    e := e.(maxAsk := Max(e.maxAsk, s.ask));
    e := e.(minBid := Min(e.minBid, s.bid));
    if !s.valid { e := e.(allValid := false); }
    e := e.(sale := Narrow(WrapAdd(e.sale, s.sale)));
    e := e.(buy := Narrow(WrapAdd(e.buy, s.buy)));
    ring[i] := e;
  }

  const USD_ATOMS: int := 1_000_000

  /** Whole dollars of any turnover never wrap: the bucket holds the saturated sum. */
  lemma WholeDollarsSaturate(e: Entry, s: Sample)
    requires e.sampled && e.index == s.bucket && s.sale <= U64_MAX / USD_ATOMS && s.buy <= U64_MAX / USD_ATOMS
    ensures Folded(e, s).sale == Min(e.sale + s.sale, U16_MAX) && Folded(e, s).buy == Min(e.buy + s.buy, U16_MAX)
  {}

  // ---- The head ---------------------------------------------------------------------------------------

  function InWindow(current: u64): Entry -> bool {
    (e: Entry) => e.sampled && e.index <= current && current - e.index < RING_BUCKETS
  }

  predicate Recent(e: Entry, current: u64) { e.index <= current && current - e.index < 2 }

  /** The sampled entries of the last 32 buckets, among the first 32 entries. */
  function Window(ring: seq<Entry>, current: u64): seq<Entry> {
    Filter(ring[..Min(|ring|, RING_BUCKETS)], InWindow(current))
  }

  function Asks(w: seq<Entry>): (r: seq<u16>)
    ensures |r| == |w| && forall i :: 0 <= i < |w| ==> r[i] == w[i].maxAsk
  {
    seq(|w|, i requires 0 <= i < |w| => w[i].maxAsk)
  }

  function Bids(w: seq<Entry>): (r: seq<u16>)
    ensures |r| == |w| && forall i :: 0 <= i < |w| ==> r[i] == w[i].minBid
  {
    seq(|w|, i requires 0 <= i < |w| => w[i].minBid)
  }

  function RecentAsk(w: seq<Entry>, current: u64): u16 {
    if w == [] then NO_BID
    else
      var e := w[|w| - 1];
      var m := RecentAsk(w[..|w| - 1], current);
      if Recent(e, current) then Max(m, e.maxAsk) else m
  }

  function RecentBid(w: seq<Entry>, current: u64): u16 {
    if w == [] then NO_ASK
    else
      var e := w[|w| - 1];
      var m := RecentBid(w[..|w| - 1], current);
      if Recent(e, current) then Min(m, e.minBid) else m
  }

  function HasRecent(w: seq<Entry>, current: u64): bool {
    w != [] && (Recent(w[|w| - 1], current) || HasRecent(w[..|w| - 1], current))
  }

  function ValidOf(): Entry -> int { (e: Entry) => if e.allValid then 1 else 0 }

  function SaleOf(current: u64): Entry -> int { (e: Entry) => if current - e.index < FLOW_BUCKETS then e.sale else 0 }

  function BuyOf(current: u64): Entry -> int { (e: Entry) => if current - e.index < FLOW_BUCKETS then e.buy else 0 }

  /** The larger of the upper quartile and the recent maximum; unpriceable without a recent bucket. */
  function AskBin(w: seq<Entry>, current: u64): int {
    if !HasRecent(w, current) then NO_ASK
    else
      RankInside(|w|, 3);
      Max(Kth(Asks(w), Rank(|w|, 3)), RecentAsk(w, current))
  }

  /** The smaller of the lower quartile and the recent minimum; worthless without a recent bucket. */
  function BidBin(w: seq<Entry>, current: u64): int {
    if !HasRecent(w, current) then NO_BID
    else
      RankInside(|w|, 1);
      Min(Kth(Bids(w), Rank(|w|, 1)), RecentBid(w, current))
  }

  lemma BinsFit(w: seq<Entry>, current: u64)
    ensures 0 <= AskBin(w, current) <= U16_MAX && 0 <= BidBin(w, current) <= U16_MAX
  {
    hide Kth;
    if HasRecent(w, current) {
      RankInside(|w|, 3);
      RankInside(|w|, 1);
      KthIsOrderStatistic(Asks(w), Rank(|w|, 3));
      KthIsOrderStatistic(Bids(w), Rank(|w|, 1));
      assert forall x :: x in Asks(w) ==> 0 <= x <= U16_MAX;
      assert forall x :: x in Bids(w) ==> 0 <= x <= U16_MAX;
    }
  }

  function HeadOfWindow(w: seq<Entry>, current: u64, tick: u64, maxPayout: u64): Head {
    BinsFit(w, current);
    Head(BinPrice(AskBin(w, current), tick, maxPayout), BinPrice(BidBin(w, current), tick, maxPayout),
         Sum(w, ValidOf()), Sum(w, SaleOf(current)), Sum(w, BuyOf(current)))
  }

  /** `series_head`. */
  function SeriesHead(ring: seq<Entry>, current: u64, tick: u64, maxPayout: u64): Head {
    HeadOfWindow(Window(ring, current), current, tick, maxPayout)
  }

  /** The counters stay within their machine types: at most 32 buckets and 32 times a u16 of flow. */
  lemma {:induction false} CountersFit(w: seq<Entry>, current: u64)
    ensures 0 <= Sum(w, ValidOf()) <= |w|
    ensures 0 <= Sum(w, SaleOf(current)) <= |w| * U16_MAX && 0 <= Sum(w, BuyOf(current)) <= |w| * U16_MAX
  {
    if w != [] { CountersFit(w[..|w| - 1], current); }
  }

  /** What the loop over the ring gathers besides the two statistics arrays. */
  datatype Scan = Scan(count: nat, recent: bool, recentAsk: u16, recentBid: u16, valid: int, sale: int, buy: int)

  function ScanOf(w: seq<Entry>, current: u64): Scan {
    Scan(|w|, HasRecent(w, current), RecentAsk(w, current), RecentBid(w, current),
         Sum(w, ValidOf()), Sum(w, SaleOf(current)), Sum(w, BuyOf(current)))
  }

  function NextScan(s: Scan, e: Entry, current: u64): (n: Scan)
    requires e.index <= current
    ensures n.count == s.count + 1
  {
    var s1 := s.(count := s.count + 1, valid := if e.allValid then s.valid + 1 else s.valid);
    var s2 := if current - e.index < 2
        then s1.(recent := true, recentAsk := Max(s1.recentAsk, e.maxAsk), recentBid := Min(s1.recentBid, e.minBid))
        else s1;
    if current - e.index < FLOW_BUCKETS then s2.(sale := s2.sale + e.sale, buy := s2.buy + e.buy) else s2
  }

  lemma InWindowIs(e: Entry, current: u64)
    ensures InWindow(current)(e) <==> e.sampled && e.index <= current && current - e.index < RING_BUCKETS
  {}

  /** The program's loop over the ring. */
  method ScanRing(ring: seq<Entry>, current: u64, asks: array<u16>, bids: array<u16>) returns (scan: Scan)
    requires asks.Length == bids.Length == RING_BUCKETS && asks != bids
    modifies asks, bids
    ensures var w := Window(ring, current);
            scan == ScanOf(w, current) && scan.count <= RING_BUCKETS && asks[..scan.count] == Asks(w)
                && bids[..scan.count] == Bids(w)
  {
    var taken := ring[..Min(|ring|, RING_BUCKETS)];
    ghost var w: seq<Entry> := [];
    scan := Scan(0, false, NO_BID, NO_ASK, 0, 0, 0);
    assert scan == ScanOf([], current);
    assert Filter(taken[..0], InWindow(current)) == [];
    hide ScanOf, Filter, InWindow, Asks, Bids;
    for i := 0 to |taken|
      invariant w == Filter(taken[..i], InWindow(current))
      invariant scan == ScanOf(w, current) && scan.count == |w| <= i
      invariant asks[..scan.count] == Asks(w) && bids[..scan.count] == Bids(w)
    {
      var e := taken[i];
      assert taken[..i + 1] == taken[..i] + [e];
      FilterSnoc(taken[..i], e, InWindow(current));
      InWindowIs(e, current);
      if !(e.sampled && e.index <= current && current - e.index < RING_BUCKETS) { continue; }
      scan := TakeEntry(e, current, scan, asks, bids, w);
      w := w + [e];
    }
    assert taken[..|taken|] == taken;
  }

  /** One entry of the window joins both arrays and the running values. */
  method TakeEntry(e: Entry, current: u64, scan: Scan, asks: array<u16>, bids: array<u16>, ghost w: seq<Entry>)
      returns (next: Scan)
    requires asks.Length == bids.Length == RING_BUCKETS && asks != bids && e.index <= current
    requires scan == ScanOf(w, current) && scan.count == |w| < RING_BUCKETS && asks[..scan.count] == Asks(w)
             && bids[..scan.count] == Bids(w)
    modifies asks, bids
    ensures next == ScanOf(w + [e], current) && next.count == |w| + 1
    ensures asks[..next.count] == Asks(w + [e]) && bids[..next.count] == Bids(w + [e])
  {
    WindowSnoc(w, e, current);
    StatisticsSnoc(w, e);
    hide ScanOf, NextScan, Asks, Bids;
    Append(asks, scan.count, e.maxAsk);
    Append(bids, scan.count, e.minBid);
    next := NextScan(scan, e, current);
  }

  method Append(a: array<u16>, n: nat, x: u16)
    requires n < a.Length
    modifies a
    ensures a[..n + 1] == old(a[..n]) + [x]
  {
    a[n] := x;
  }

  lemma StatisticsSnoc(w: seq<Entry>, e: Entry)
    ensures Asks(w + [e]) == Asks(w) + [e.maxAsk] && Bids(w + [e]) == Bids(w) + [e.minBid]
  {}

  /** `series_head` with its two scratch arrays, sorted in place at the end. */
  method SeriesHeadLoop(ring: seq<Entry>, current: u64, tick: u64, maxPayout: u64) returns (head: Head)
    ensures head == SeriesHead(ring, current, tick, maxPayout)
    ensures head.validBuckets <= RING_BUCKETS && head.saleUsd <= RING_BUCKETS * U16_MAX
            && head.buyUsd <= RING_BUCKETS * U16_MAX
  {
    var asks := new u16[RING_BUCKETS];
    var bids := new u16[RING_BUCKETS];
    var scan := ScanRing(ring, current, asks, bids);
    ghost var w := Window(ring, current);
    CountersFit(w, current);
    BinsFit(w, current);
    assert scan.recent ==> scan.count >= 1;
    hide Window, Sum, HasRecent, RecentAsk, RecentBid, Kth, BinPrice;
    var ask: u16, bid: u16 := NO_ASK, NO_BID;
    if scan.recent {
      var upper := NearestRank(asks, scan.count, 3);
      var lower := NearestRank(bids, scan.count, 1);
      ask := Max(upper, scan.recentAsk);
      bid := Min(lower, scan.recentBid);
    }
    head := Head(BinPrice(ask, tick, maxPayout), BinPrice(bid, tick, maxPayout), scan.valid, scan.sale, scan.buy);
  }

  lemma WindowSnoc(w: seq<Entry>, e: Entry, current: u64)
    requires e.index <= current
    ensures ScanOf(w + [e], current) == NextScan(ScanOf(w, current), e, current)
  {
    assert (w + [e])[..|w|] == w;
  }

  // ---- What the two bins mean ----------------------------------------------------------------------------

  lemma {:induction false} RecentExtremes(w: seq<Entry>, current: u64)
    ensures forall e :: e in w && Recent(e, current) ==>
                        e.maxAsk <= RecentAsk(w, current) && RecentBid(w, current) <= e.minBid
    ensures HasRecent(w, current) ==>
              && (exists e :: e in w && Recent(e, current) && e.maxAsk == RecentAsk(w, current))
              && (exists e :: e in w && Recent(e, current) && e.minBid == RecentBid(w, current))
    ensures !HasRecent(w, current) ==> RecentAsk(w, current) == NO_BID && RecentBid(w, current) == NO_ASK
  {
    if w != [] {
      var n := |w| - 1;
      RecentExtremes(w[..n], current);
      assert w == w[..n] + [w[n]];
      assert w[n] in w;
    }
  }

  /** At least the upper quartile of the bucket maxima, and every recent one, is at most `v`. */
  predicate CoversAsks(w: seq<Entry>, current: u64, v: int) {
    Rank(|w|, 3) <= CountAtMost(Asks(w), v) && forall e :: e in w && Recent(e, current) ==> e.maxAsk <= v
  }

  /** Fewer than the lower quartile of the bucket minima, and no recent one, is below `v`. */
  predicate UnderBids(w: seq<Entry>, current: u64, v: int) {
    CountBelow(Bids(w), v) < Rank(|w|, 1) && forall e :: e in w && Recent(e, current) ==> v <= e.minBid
  }

  /** The ask bin is the least one covering the upper quartile and everything recent. */
  lemma AskBinIsLeast(w: seq<Entry>, current: u64, v: int)
    requires HasRecent(w, current)
    ensures CoversAsks(w, current, v) <==> AskBin(w, current) <= v
  {
    RankInside(|w|, 3);
    var k := Rank(|w|, 3);
    RecentExtremes(w, current);
    hide Kth, CountAtMost, RecentAsk, RecentBid, HasRecent;
    KthIsOrderStatistic(Asks(w), k);
    if Kth(Asks(w), k) <= v {
      CountMono(Asks(w), Kth(Asks(w), k), v);
    } else {
      CountMono(Asks(w), v, Kth(Asks(w), k) - 1);
    }
  }

  /** The bid bin is the greatest one under the lower quartile and everything recent. */
  lemma BidBinIsGreatest(w: seq<Entry>, current: u64, v: int)
    requires HasRecent(w, current)
    ensures UnderBids(w, current, v) <==> v <= BidBin(w, current)
  {
    RankInside(|w|, 1);
    var k := Rank(|w|, 1);
    RecentExtremes(w, current);
    hide Kth, CountAtMost, RecentAsk, RecentBid, HasRecent;
    KthIsOrderStatistic(Bids(w), k);
    if v <= Kth(Bids(w), k) {
      CountMono(Bids(w), v - 1, Kth(Bids(w), k) - 1);
    } else {
      CountMono(Bids(w), Kth(Bids(w), k), v - 1);
    }
  }

  // ---- The bid never exceeds the ask ------------------------------------------------------------------

  /** Every sampled entry's bid is at most its ask. */
  predicate Ordered(ring: seq<Entry>) {
    forall i :: 0 <= i < |ring| ==> (ring[i].sampled ==> ring[i].minBid <= ring[i].maxAsk)
  }

  lemma {:induction false} RecentOrdered(w: seq<Entry>, current: u64)
    requires HasRecent(w, current) && forall e :: e in w ==> e.minBid <= e.maxAsk
    ensures RecentBid(w, current) <= RecentAsk(w, current)
  {
    var n := |w| - 1;
    assert w[n] in w;
    if HasRecent(w[..n], current) { RecentOrdered(w[..n], current); }
  }

  /** With ordered samples the head's bid price never exceeds its price. */
  lemma OrderedHead(ring: seq<Entry>, current: u64, tick: u64, maxPayout: u64)
    requires Ordered(ring)
    ensures var h := SeriesHead(ring, current, tick, maxPayout); h.bidPrice <= h.price
  {
    var w := Window(ring, current);
    FilterMembers(ring[..Min(|ring|, RING_BUCKETS)], InWindow(current));
    hide Kth, Filter;
    BinsFit(w, current);
    if HasRecent(w, current) { RecentOrdered(w, current); }
    BinPriceMono(BidBin(w, current), AskBin(w, current), tick, maxPayout);
  }

  /** A history of samples, each folded into some ring position. */
  function FoldAll(ring: seq<Entry>, samples: seq<(nat, Sample)>): seq<Entry> {
    if samples == [] then ring
    else
      var before := FoldAll(ring, samples[..|samples| - 1]);
      var (i, s) := samples[|samples| - 1];
      if i < |before| then before[i := Folded(before[i], s)] else before
  }

  lemma {:induction false} FoldAllOrdered(ring: seq<Entry>, samples: seq<(nat, Sample)>)
    requires Ordered(ring) && forall k :: 0 <= k < |samples| ==> samples[k].1.bid <= samples[k].1.ask
    ensures Ordered(FoldAll(ring, samples))
  {
    if samples != [] { FoldAllOrdered(ring, samples[..|samples| - 1]); }
  }

  /** If every sample ever folded has its bid at most its ask, so does the head at any time. */
  lemma EveryRunBidUnderAsk(n: nat, samples: seq<(nat, Sample)>, current: u64, tick: u64, maxPayout: u64)
    requires forall k :: 0 <= k < |samples| ==> samples[k].1.bid <= samples[k].1.ask
    ensures var h := SeriesHead(FoldAll(seq(n, _ => UNSAMPLED), samples), current, tick, maxPayout);
            h.bidPrice <= h.price
  {
    FoldAllOrdered(seq(n, _ => UNSAMPLED), samples);
    OrderedHead(FoldAll(seq(n, _ => UNSAMPLED), samples), current, tick, maxPayout);
  }

  // ---- Extra samples never favour the sampler ------------------------------------------------------------

  /** The same bucket after more samples. */
  predicate Refreshed(e: Entry, f: Entry) {
    f.index == e.index && f.sampled == e.sampled && e.maxAsk <= f.maxAsk && f.minBid <= e.minBid
        && (f.allValid ==> e.allValid)
  }

  predicate AllRefreshed(a: seq<Entry>, b: seq<Entry>) {
    |a| == |b| && forall i :: 0 <= i < |a| ==> Refreshed(a[i], b[i])
  }

  lemma {:induction false} WindowRefreshed(a: seq<Entry>, b: seq<Entry>, current: u64)
    requires AllRefreshed(a, b)
    ensures AllRefreshed(Filter(a, InWindow(current)), Filter(b, InWindow(current)))
  {
    if a != [] {
      var n := |a| - 1;
      WindowRefreshed(a[..n], b[..n], current);
      assert Refreshed(a[n], b[n]);
    }
  }

  lemma {:induction false} RecentRefreshed(a: seq<Entry>, b: seq<Entry>, current: u64)
    requires AllRefreshed(a, b)
    ensures HasRecent(a, current) == HasRecent(b, current)
    ensures RecentAsk(a, current) <= RecentAsk(b, current) && RecentBid(b, current) <= RecentBid(a, current)
    ensures Sum(b, ValidOf()) <= Sum(a, ValidOf())
  {
    if a != [] {
      var n := |a| - 1;
      RecentRefreshed(a[..n], b[..n], current);
      assert Refreshed(a[n], b[n]);
    }
  }

  lemma HeadRefreshed(a: seq<Entry>, b: seq<Entry>, current: u64, tick: u64, maxPayout: u64)
    requires AllRefreshed(a, b)
    ensures var (h, g) := (HeadOfWindow(a, current, tick, maxPayout), HeadOfWindow(b, current, tick, maxPayout));
            h.price <= g.price && g.bidPrice <= h.bidPrice && g.validBuckets <= h.validBuckets
  {
    RecentRefreshed(a, b, current);
    BinsFit(a, current);
    BinsFit(b, current);
    hide Kth, RecentAsk, RecentBid, Sum;
    if HasRecent(a, current) {
      RankInside(|a|, 3);
      RankInside(|a|, 1);
      KthMonotone(Asks(a), Asks(b), Rank(|a|, 3));
      KthMonotone(Bids(b), Bids(a), Rank(|a|, 1));
    }
    BinPriceMono(AskBin(a, current), AskBin(b, current), tick, maxPayout);
    BinPriceMono(BidBin(b, current), BidBin(a, current), tick, maxPayout);
  }

  /**
   * Folding another sample into an already sampled bucket never lowers the price, raises the bid price or
   * raises the number of valid buckets, for the head at any later or earlier time.
   */
  lemma ExtraSampleNeverFavours(ring: seq<Entry>, i: nat, s: Sample, current: u64, tick: u64, maxPayout: u64)
    requires i < |ring| && ring[i].sampled && ring[i].index == s.bucket
    ensures var (h, g) :=
            (SeriesHead(ring, current, tick, maxPayout),
             SeriesHead(ring[i := Folded(ring[i], s)], current, tick, maxPayout));
            h.price <= g.price && g.bidPrice <= h.bidPrice && g.validBuckets <= h.validBuckets
  {
    var after := ring[i := Folded(ring[i], s)];
    var m := Min(|ring|, RING_BUCKETS);
    assert AllRefreshed(ring[..m], after[..m]);
    WindowRefreshed(ring[..m], after[..m], current);
    hide HeadOfWindow, Filter;
    HeadRefreshed(Window(ring, current), Window(after, current), current, tick, maxPayout);
  }

  // ---- A bucket and a head in the sampler's terms -----------------------------------------------------------

  /** All samples of one bucket folded in turn. */
  function FoldBucket(e: Entry, samples: seq<Sample>): Entry {
    if samples == [] then e else Folded(FoldBucket(e, samples[..|samples| - 1]), samples[|samples| - 1])
  }

  function SaleIn(): Sample -> int { (s: Sample) => s.sale }

  function BuyIn(): Sample -> int { (s: Sample) => s.buy }

  /** The entry holds the highest ask, the lowest bid, whether all were valid, and the saturated flows. */
  ghost predicate HoldsWorst(e: Entry, samples: seq<Sample>) {
    && (forall s :: s in samples ==> s.ask <= e.maxAsk && e.minBid <= s.bid)
    && (exists s :: s in samples && s.ask == e.maxAsk) && (exists s :: s in samples && s.bid == e.minBid)
    && (e.allValid <==> forall s :: s in samples ==> s.valid)
    && e.sale == Min(Sum(samples, SaleIn()), U16_MAX) && e.buy == Min(Sum(samples, BuyIn()), U16_MAX)
  }

  /** Whatever the ring position held before, a bucket's entry keeps the worst of all its own samples. */
  lemma {:induction false} BucketKeepsWorst(e: Entry, samples: seq<Sample>, bucket: u64)
    requires samples != [] && (e.sampled ==> e.index != bucket)
    requires forall s :: s in samples ==>
                         s.bucket == bucket && s.sale <= U64_MAX / USD_ATOMS && s.buy <= U64_MAX / USD_ATOMS
    ensures var f := FoldBucket(e, samples);
            f.index == bucket && f.sampled && HoldsWorst(f, samples)
  {
    var (front, s) := (samples[..|samples| - 1], samples[|samples| - 1]);
    assert samples == front + [s] && s in samples;
    SumSnoc(front, s, SaleIn());
    SumSnoc(front, s, BuyIn());
    if front == [] {
      assert Sum(front, SaleIn()) == 0 && Sum(front, BuyIn()) == 0;
    } else {
      BucketKeepsWorst(e, front, bucket);
      FlowsNonNegative(front);
      WorstGrows(FoldBucket(e, front), front, s);
    }
  }

  lemma FlowsNonNegative(samples: seq<Sample>)
    ensures 0 <= Sum(samples, SaleIn()) && 0 <= Sum(samples, BuyIn())
  {
    SumNonNegative(samples, SaleIn());
    SumNonNegative(samples, BuyIn());
  }

  lemma WorstGrows(e: Entry, front: seq<Sample>, s: Sample)
    requires e.sampled && e.index == s.bucket && HoldsWorst(e, front)
    requires s.sale <= U64_MAX / USD_ATOMS && s.buy <= U64_MAX / USD_ATOMS
    requires 0 <= Sum(front, SaleIn()) && 0 <= Sum(front, BuyIn())
    ensures HoldsWorst(Folded(e, s), front + [s])
  {
    WholeDollarsSaturate(e, s);
    SumSnoc(front, s, SaleIn());
    SumSnoc(front, s, BuyIn());
    var (f, all) := (Folded(e, s), front + [s]);
    assert s in all;
    var a :| a in front && a.ask == e.maxAsk;
    var b :| b in front && b.bid == e.minBid;
    assert a in all && b in all;
    hide Sum, WrapAdd;
  }

  /** The price of a bin: the maximum payout without an ask, otherwise whole ticks up to the maximum payout. */
  predicate PricedAt(price: int, bin: int, tick: int, maxPayout: int) {
    price == if bin == 0xFFFF then maxPayout else Min(tick * bin, maxPayout)
  }

  /** One for a bucket all of whose samples were valid. */
  function Clean(): Entry -> int { (e: Entry) => if e.allValid then 1 else 0 }

  /** The flows of buckets later than `since`. */
  function SoldSince(since: int): Entry -> int { (e: Entry) => if since < e.index then e.sale else 0 }

  function BoughtSince(since: int): Entry -> int { (e: Entry) => if since < e.index then e.buy else 0 }

  /**
   * The head in full: over the sampled entries of the last day its price is that of the least bin covering the upper
   * quartile of their maxima and everything recent, its bid price that of the greatest bin under the lower quartile of
   * their minima and everything recent; without a recent entry it is unpriceable and worthless.
   */
  lemma HeadMeans(ring: seq<Entry>, current: u64, tick: u64, maxPayout: u64) returns (ask: int, bid: int)
    ensures var (w, h) := (Window(ring, current), SeriesHead(ring, current, tick, maxPayout));
            && PricedAt(h.price, ask, tick, maxPayout) && PricedAt(h.bidPrice, bid, tick, maxPayout)
            && (forall e :: e in w <==> e in ring[..Min(|ring|, 32)] && e.sampled && e.index <= current < e.index + 32)
            && ((exists e :: e in w && current < e.index + 2) ==>
                  && (forall v: int :: CoversAsks(w, current, v) <==> ask <= v)
                  && (forall v: int :: UnderBids(w, current, v) <==> v <= bid))
            && (!(exists e :: e in w && current < e.index + 2) ==> ask == 0xFFFF && h.bidPrice == 0)
            && h.validBuckets == Sum(w, Clean()) && h.saleUsd == Sum(w, SoldSince(current - 8))
            && h.buyUsd == Sum(w, BoughtSince(current - 8))
  {
    var w := Window(ring, current);
    FilterMembers(ring[..Min(|ring|, RING_BUCKETS)], InWindow(current));
    SumSame(w, ValidOf(), Clean());
    SumSame(w, SaleOf(current), SoldSince(current - 8));
    SumSame(w, BuyOf(current), BoughtSince(current - 8));
    BinsFit(w, current);
    HasRecentIff(w, current);
    hide Kth, Filter, RecentAsk, RecentBid, HasRecent, CountAtMost, CountBelow;
    ask, bid := AskBin(w, current), BidBin(w, current);
    MulMono(0, tick, ask);
    MulMono(0, tick, bid);
    if HasRecent(w, current) {
      forall v: int ensures CoversAsks(w, current, v) <==> ask <= v { AskBinIsLeast(w, current, v); }
      forall v: int ensures UnderBids(w, current, v) <==> v <= bid { BidBinIsGreatest(w, current, v); }
    }
  }

  lemma {:induction false} HasRecentIff(w: seq<Entry>, current: u64)
    ensures HasRecent(w, current) <==> exists e :: e in w && Recent(e, current)
  {
    if w != [] {
      HasRecentIff(w[..|w| - 1], current);
      assert w == w[..|w| - 1] + [w[|w| - 1]];
    }
  }
}
