/** Locked contribution lots: capital-time shares allocated by differences of cumulative floors. */
module Participation {
  import opened Numbers

  datatype Error = InvalidTime | InvalidPrincipal | InvalidInterval | Overflow | Insolvent

  datatype Result<T> = Ok(value: T) | Err(error: Error) {
    predicate IsFailure() { Err? }
    function PropagateFailure<U>(): Result<U>
      requires Err?
    {
      Err(error)
    }
    function Extract(): T
      requires Ok?
    {
      value
    }
  }

  datatype Totals = Totals(principal: u64, capitalSeconds: u128, maximumDuration: u64)

  /** A lot owns the capital-seconds range that starts at its offset and is as long as its weight. */
  datatype Lot = Lot(principal: u64, entry: u64, expiry: u64, offset: u128)

  // ---- Long division ---------------------------------------------------------------------------

  /** `floor(amount * numerator / denominator)`; the product may take 192 bits. */
  function ProportionalFloor(amount: u64, numerator: u128, denominator: u128): (r: Result<u64>)
    ensures r.Err? <==> denominator == 0 || numerator > denominator
  {
    if denominator == 0 || numerator > denominator then Err(InvalidInterval)
    else
      ShareAtMost(amount, numerator, denominator);
      Ok(Share(amount, numerator, denominator))
  }

  /** The exact cumulative floor. */
  function Share(amount: int, numerator: int, denominator: int): int
    requires denominator > 0
  {
    (amount * numerator) / denominator
  }

  lemma ShareAtMost(amount: nat, numerator: nat, denominator: nat)
    requires 0 < denominator && numerator <= denominator
    ensures 0 <= Share(amount, numerator, denominator) <= amount
  {
    MulMono(numerator, denominator, amount);
    MulMono(0, amount, numerator);
    FloorGreatest(amount * numerator, denominator, 0);
    FloorBounds(amount * numerator, denominator);
    var s := Share(amount, numerator, denominator);
    if s > amount {
      MulMono(amount + 1, s, denominator);
    }
  }

  function Pow2(k: nat): (r: int)
    ensures r > 0
  {
    if k == 0 then 1 else 2 * Pow2(k - 1)
  }

  function Bit(amount: u64, k: nat): int {
    (amount / Pow2(k)) % 2
  }

  /** Reading one more bit of `amount` doubles what was read and adds the bit. */
  lemma NextBit(amount: u64, k: nat)
    ensures amount / Pow2(k) == 2 * (amount / Pow2(k + 1)) + Bit(amount, k)
  {
    var p := Pow2(k);
    var q := amount / p;
    FloorBounds(amount, p);
    var h := q / 2;
    var b := q % 2;
    assert q == 2 * h + b;
    assert q * p == h * (2 * p) + b * p by { Regroup(q, h, b, p); }
    assert b == 0 || b == 1;
    assert h * (2 * p) <= amount < h * (2 * p) + 2 * p;
    FloorIs(amount, 2 * p, h);
  }

  lemma Regroup(q: int, h: int, b: int, p: int)
    requires q == 2 * h + b
    ensures q * p == h * (2 * p) + b * p
  {}

  /** What the loop keeps: quotient and remainder divide the bits read so far, times the numerator. */
  ghost predicate Divides(read: int, n: int, d: int, q: int, r: int) {
    0 <= r < d && 0 <= q && q * d + r == read * n
  }

  lemma QuotientSmall(read: int, n: int, d: int, q: int, r: int)
    requires 0 <= n <= d && 0 <= read && Divides(read, n, d, q, r)
    ensures q <= read
  {
    MulMono(n, d, read);
    if q > read {
      MulMono(read + 1, q, d);
    }
  }

  lemma DoubleStep(read: int, n: int, d: int, q: int, r: int)
    requires Divides(read, n, d, q, r)
    ensures r >= d - r ==> Divides(2 * read, n, d, 2 * q + 1, r - (d - r))
    ensures r < d - r ==> Divides(2 * read, n, d, 2 * q, 2 * r)
  {
    assert (2 * read) * n == 2 * (read * n);
    assert (2 * q) * d == 2 * (q * d);
    MulSucc(2 * q, d);
  }

  lemma AddStep(read: int, n: int, d: int, q: int, r: int)
    requires Divides(read, n, d, q, r) && 0 <= n <= d
    ensures r >= d - n ==> Divides(read + 1, n, d, q + 1, r - (d - n))
    ensures r < d - n ==> Divides(read + 1, n, d, q, r + n)
  {
    MulSucc(read, n);
    MulSucc(q, d);
  }

  lemma DividesIsShare(read: int, n: int, d: int, q: int, r: int)
    requires Divides(read, n, d, q, r)
    ensures q == Share(read, n, d)
  {
    FloorIs(read * n, d, q);
  }

  /**
   * The 64-step long division computes the exact floor of the 192-bit product, and none of its overflow
   * exits is ever taken.
   */
  method LongDivision(amount: u64, numerator: u128, denominator: u128) returns (result: Result<u64>)
    ensures result == ProportionalFloor(amount, numerator, denominator)
  {
    if denominator == 0 || numerator > denominator { return Err(InvalidInterval); }
    var quotient: u64, remainder: u128 := 0, 0;
    var bit := 64;
    AllBits(amount);
    while bit > 0
      invariant 0 <= bit <= 64
      invariant Divides(amount / Pow2(bit), numerator, denominator, quotient, remainder)
    {
      hide Divides, Pow2;
      bit := bit - 1;
      ghost var read: int := amount / Pow2(bit + 1);
      NextBit(amount, bit);
      ReadBound(amount, bit);
      quotient, remainder := Doubled(read, amount / Pow2(bit), numerator, denominator, quotient, remainder);
      if Bit(amount, bit) != 0 {
        quotient, remainder := Added(2 * read, amount / Pow2(bit), numerator, denominator, quotient, remainder);
      }
    }
    assert amount / Pow2(0) == amount;
    DividesIsShare(amount, numerator, denominator, quotient, remainder);
    return Ok(quotient);
  }

  lemma AllBits(amount: u64)
    ensures amount / Pow2(64) == 0
  {
    assert Pow2(8) == 0x100;
    assert Pow2(16) == 0x1_0000;
    assert Pow2(24) == 0x100_0000;
    assert Pow2(32) == 0x1_0000_0000;
    assert Pow2(40) == 0x100_0000_0000;
    assert Pow2(48) == 0x1_0000_0000_0000;
    assert Pow2(56) == 0x100_0000_0000_0000;
    assert Pow2(64) == U64_MAX + 1;
  }

  lemma ReadBound(amount: u64, k: nat)
    ensures 0 <= amount / Pow2(k) <= amount
  {
    var p := Pow2(k);
    FloorBounds(amount, p);
    FloorGreatest(amount, p, 0);
    MulMono(1, p, amount / p);
  }

  /** Doubling the remainder modulo the denominator; the checked doubling of the quotient cannot fail. */
  method Doubled(ghost read: int, ghost whole: int, n: u128, d: u128, q: u64, r: u128) returns (q': u64, r': u128)
    requires n <= d && 0 <= read && 2 * read <= whole <= U64_MAX && Divides(read, n, d, q, r)
    ensures Divides(2 * read, n, d, q', r')
  {
    DoubleStep(read, n, d, q, r);
    var carry := r >= d - r;
    if carry {
      QuotientSmall(2 * read, n, d, 2 * q + 1, r - (d - r));
    } else {
      QuotientSmall(2 * read, n, d, 2 * q, 2 * r);
    }
    r' := if carry then r - (d - r) else r * 2;
    q' := q * 2;
    if carry { q' := q' + 1; }
  }

  method Added(ghost read: int, ghost whole: int, n: u128, d: u128, q: u64, r: u128) returns (q': u64, r': u128)
    requires n <= d && 0 <= read && read + 1 == whole <= U64_MAX && Divides(read, n, d, q, r)
    ensures Divides(whole, n, d, q', r')
  {
    AddStep(read, n, d, q, r);
    var carry := r >= d - n;
    if carry {
      QuotientSmall(whole, n, d, q + 1, r - (d - n));
    }
    r' := if carry then r - (d - n) else r + n;
    q' := q;
    if carry { q' := q' + 1; }
  }

  // ---- Lots ------------------------------------------------------------------------------------

  function Duration(lot: Lot): int { lot.expiry - lot.entry }

  function Size(lot: Lot): int { lot.principal * Duration(lot) }

  /** `ContributionInterval::weight`. */
  function Weight(lot: Lot): Result<u128> {
    if lot.principal == 0 then Err(InvalidPrincipal)
    else if lot.expiry <= lot.entry then Err(InvalidTime)
    else
      ProductFits(lot.principal, lot.expiry - lot.entry);
      Ok(Size(lot))
  }

  /** `ContributionInterval::split`. */
  function Split(lot: Lot, prefix: u64): Result<(Lot, Lot)> {
    if prefix == 0 || prefix >= lot.principal then Err(InvalidPrincipal)
    else
      var front := lot.(principal := prefix);
      var weight :- Weight(front);
      if lot.offset + weight > U128_MAX then Err(Overflow)
      else Ok((front, lot.(principal := lot.principal - prefix, offset := lot.offset + weight)))
  }

  /** `ParticipationTotals::contribute`. */
  function Contribute(t: Totals, amount: u64, now: u64, start: u64, expiry: u64): Result<(Totals, Lot)> {
    if start == 0 || start >= expiry || now >= expiry then Err(InvalidTime)
    else
      var lot := Lot(amount, if now <= start then start else now, expiry, t.capitalSeconds);
      var weight :- Weight(lot);
      if t.principal + amount > U64_MAX then Err(Overflow)
      else if t.capitalSeconds + weight > U128_MAX then Err(Overflow)
      else Ok((Totals(t.principal + amount, t.capitalSeconds + weight, Max(t.maximumDuration, Duration(lot))), lot))
  }

  /** `ParticipationTotals::admit`. */
  function Admit(t: Totals, assets: u64, reserve: u64): Result<()> {
    if t.principal == 0 || t.maximumDuration == 0 || t.capitalSeconds == 0 then Err(InvalidPrincipal)
    else if assets < reserve then Err(Insolvent)
    else if SatSub(t.principal, assets - reserve) * t.maximumDuration > t.capitalSeconds then Err(Insolvent)
    else Ok(())
  }

  function AbsDiff(a: u64, b: u64): u64 { if a <= b then b - a else a - b }

  /** `range_payout`: the payout of `principal` owning the capital-seconds `[start, end)`. */
  function RangePayout(principal: u64, start: u128, end: u128, total: u64, weight: u128, residual: u64): Result<u64> {
    if end > weight || principal > total then Err(InvalidInterval)
    else
      var magnitude := AbsDiff(residual, total);
      var upTo: int :- ProportionalFloor(magnitude, end, weight);
      var before: int :- ProportionalFloor(magnitude, start, weight);
      if upTo < before then Err(InvalidInterval)
      else if residual >= total then
        if principal + (upTo - before) > U64_MAX then Err(Overflow) else Ok(principal + (upTo - before))
      else if principal < upTo - before then Err(Insolvent)
      else Ok(principal - (upTo - before))
  }

  /** `final_payout`. */
  function FinalPayout(lot: Lot, total: u64, weight: u128, residual: u64): Result<u64> {
    var own :- Weight(lot);
    if lot.offset + own > U128_MAX then Err(Overflow)
    else RangePayout(lot.principal, lot.offset, lot.offset + own, total, weight, residual)
  }

  // ---- Allocation of one range --------------------------------------------------------------------

  /** What a range gains, or loses when the residual is below the principal. */
  function Allocation(magnitude: u64, start: int, end: int, weight: int): int
    requires weight > 0
  {
    Share(magnitude, end, weight) - Share(magnitude, start, weight)
  }

  lemma ShareMono(m: nat, a: int, b: int, d: int)
    requires d > 0 && a <= b
    ensures Share(m, a, d) <= Share(m, b, d)
  {
    MulMono(a, b, m);
    FloorMono(m * a, m * b, d);
  }

  /**
   * A rate of at most one atom per principal atom never allocates more than the principal, wherever the range starts.
   */
  lemma SlowAllocation(m: nat, start: int, p: nat, d: int, w: int)
    requires w > 0 && m * d <= w
    ensures Share(m, start + p * d, w) <= Share(m, start, w) + p
  {
    var (a, b) := (Share(m, start, w), Share(m, start + p * d, w));
    FloorBounds(m * start, w);
    FloorBounds(m * (start + p * d), w);
    Distribute(m, start, p, d);
    MulMono(m * d, w, p);
    if b > a + p {
      MulMono(a + p + 1, b, w);
      AddScaled(a + 1, p, w);
    }
  }

  lemma Distribute(m: int, s: int, p: int, d: int)
    ensures m * (s + p * d) == m * s + (m * d) * p
  {
    assert m * (p * d) == (m * d) * p;
  }

  /** A rate of at least one always allocates at least the principal. */
  lemma FastAllocation(m: nat, start: int, p: nat, d: int, w: int)
    requires w > 0 && m * d >= w
    ensures Share(m, start + p * d, w) >= Share(m, start, w) + p
  {
    var a := Share(m, start, w);
    FloorBounds(m * start, w);
    Distribute(m, start, p, d);
    MulMono(w, m * d, p);
    AddScaled(a, p, w);
    FloorGreatest(m * (start + p * d), w, a + p);
  }

  /** A well-formed lot of a pool with these totals. */
  predicate Inside(lot: Lot, total: u64, weight: u128) {
    0 < lot.principal <= total && lot.entry < lot.expiry && lot.offset + Size(lot) <= weight
  }

  lemma SizePositive(lot: Lot)
    requires 0 < lot.principal && lot.entry < lot.expiry
    ensures Size(lot) > 0
  {
    MulMono(1, lot.principal, Duration(lot));
  }

  function LotAllocation(lot: Lot, total: u64, weight: u128, residual: u64): int
    requires weight > 0
  {
    Allocation(AbsDiff(residual, total), lot.offset, lot.offset + Size(lot), weight)
  }

  /**
   * A lot's payout is its principal plus or minus its allocation; a loss beyond the principal is the insolvent case.
   */
  lemma PayoutIs(lot: Lot, total: u64, weight: u128, residual: u64)
    requires Inside(lot, total, weight)
    ensures weight > 0 && 0 <= LotAllocation(lot, total, weight, residual) <= AbsDiff(residual, total)
    ensures var a := LotAllocation(lot, total, weight, residual);
            FinalPayout(lot, total, weight, residual)
            == if residual >= total then Ok(lot.principal + a)
               else if lot.principal < a then Err(Insolvent)
               else Ok(lot.principal - a)
  {
    SizePositive(lot);
    var m := AbsDiff(residual, total);
    ShareMono(m, lot.offset, lot.offset + Size(lot), weight);
    ShareAtMost(m, lot.offset, weight);
    ShareAtMost(m, lot.offset + Size(lot), weight);
    hide Size, Share;
  }

  /**
   * Splitting a lot never changes its total, and never makes a payable lot unpayable or the reverse: the
   * whole is payable exactly when both halves are, and then the halves add up to the whole.
   */
  lemma SplitPreservesPayout(lot: Lot, prefix: u64, total: u64, weight: u128, residual: u64)
    requires Inside(lot, total, weight) && 0 < prefix < lot.principal
    ensures Split(lot, prefix).Ok?
    ensures var (front, back) := Split(lot, prefix).value;
            var (w, f, b) := (FinalPayout(lot, total, weight, residual), FinalPayout(front, total, weight, residual),
                              FinalPayout(back, total, weight, residual));
            && (w.Ok? <==> f.Ok? && b.Ok?)
            && (w.Ok? ==> w.value == f.value + b.value)
  {
    SplitSizes(lot, prefix);
    SplitAllocations(lot, prefix, total, weight, residual);
    hide FinalPayout, Split, LotAllocation, Size;
    var (front, back) := Split(lot, prefix).value;
    PayoutIs(lot, total, weight, residual);
    PayoutIs(front, total, weight, residual);
    PayoutIs(back, total, weight, residual);
  }

  /** Allocations of the halves telescope, and each half stays within its principal exactly when the whole does. */
  lemma SplitAllocations(lot: Lot, prefix: u64, total: u64, weight: u128, residual: u64)
    requires Inside(lot, total, weight) && 0 < prefix < lot.principal
    ensures weight > 0 && Split(lot, prefix).Ok?
    ensures var (front, back) := Split(lot, prefix).value;
            var (a, f, b) := (LotAllocation(lot, total, weight, residual), LotAllocation(front, total, weight,
                residual), LotAllocation(back, total, weight, residual));
            Inside(front, total, weight) && Inside(back, total, weight) && a == f + b
                && (a <= lot.principal <==> f <= front.principal && b <= back.principal)
  {
    hide Split, Share;
    SplitSizes(lot, prefix);
    var (front, back) := Split(lot, prefix).value;
    SizePositive(front);
    SizePositive(back);
    RateDecides(front, AbsDiff(residual, total), Duration(lot), weight);
    RateDecides(back, AbsDiff(residual, total), Duration(lot), weight);
    hide Size;
  }

  /** At a slow rate no lot loses more than its principal, at a fast rate every lot loses at least that. */
  lemma RateDecides(lot: Lot, m: u64, d: int, weight: u128)
    requires weight > 0 && d == Duration(lot)
    ensures var a := Allocation(m, lot.offset, lot.offset + Size(lot), weight);
            if m * d <= weight then a <= lot.principal else a >= lot.principal
  {
    if m * d <= weight {
      SlowAllocation(m, lot.offset, lot.principal, d, weight);
    } else {
      FastAllocation(m, lot.offset, lot.principal, d, weight);
    }
    hide Share;
  }

  lemma SplitSizes(lot: Lot, prefix: u64)
    requires 0 < prefix < lot.principal && lot.entry < lot.expiry && lot.offset + Size(lot) <= U128_MAX
    ensures Split(lot, prefix).Ok?
    ensures var (front, back) := Split(lot, prefix).value;
            && front == lot.(principal := prefix)
            && back.principal == lot.principal - prefix && back.entry == lot.entry && back.expiry == lot.expiry
            && back.offset == lot.offset + Size(front)
            && Size(front) + Size(back) == Size(lot)
  {
    AddScaled(prefix, lot.principal - prefix, Duration(lot));
    SizePositive(lot.(principal := prefix));
    SizePositive(lot.(principal := lot.principal - prefix));
  }

  /** A contribution is taken exactly while the month is open and the totals fit; it earns from its entry to expiry. */
  lemma ContributeIff(t: Totals, amount: u64, now: u64, start: u64, expiry: u64)
    ensures var (r, entry) := (Contribute(t, amount, now, start, expiry), Max(now, start));
            && (r.Ok? <==> && 0 < amount && 0 < start < expiry && now < expiry
                           && t.principal + amount <= U64_MAX
                           && t.capitalSeconds + amount * (expiry - entry) <= U128_MAX)
            && (r.Ok? ==> && r.value.1.principal == amount && r.value.1.entry == entry && r.value.1.expiry == expiry
                          && r.value.1.offset == t.capitalSeconds
                          && r.value.0.principal == t.principal + amount
                          && r.value.0.capitalSeconds == t.capitalSeconds + amount * (expiry - entry)
                          && r.value.0.maximumDuration == Max(t.maximumDuration, expiry - entry))
  {
    if now < expiry && start < expiry { ProductFits(amount, expiry - Max(now, start)); }
  }
}
