/** Funding a settlement owner by owner: prefix ceilings telescope, so the group's books always balance. */
module PortfolioFunding {
  import opened Numbers
  import opened Sums
  import opened WriterSeries
  import opened WriterPortfolio
  import opened PortfolioRuns

  predicate FitsI128(n: int) { I128_MIN <= n <= I128_MAX }

  /** `portfolio_funding_delta`: the new prefix and this owner's signed share. */
  function FundingDelta(prefix: int, owner: int): Result<(int, int)> {
    var next := prefix + owner;
    if !FitsI128(next) || !FitsI128(SignedCeil(next) - SignedCeil(prefix)) then Err(ArithmeticOverflow)
    else Ok((next, SignedCeil(next) - SignedCeil(prefix)))
  }

  /** The deltas of a whole sequence of owners. */
  function FundAll(prefix: int, owners: seq<int>): (r: Result<seq<int>>)
    ensures r.Ok? ==> |r.value| == |owners|
  {
    if owners == [] then Ok([])
    else
      var n := |owners| - 1;
      var front :- FundAll(prefix, owners[..n]);
      var (_, delta) :- FundingDelta(prefix + Total(owners[..n]), owners[n]);
      Ok(front + [delta])
  }

  function Same(): int -> int { (x: int) => x }

  function Total(s: seq<int>): int { Sum(s, Same()) }

  function DebitOf(): int -> int { (d: int) => Max(d, 0) }

  function CreditOf(): int -> int { (d: int) => Max(-d, 0) }

  /** What the owners deposit, and what is owed to the net creditors. */
  function Debits(ds: seq<int>): nat {
    SumNonNegative(ds, DebitOf());
    Sum(ds, DebitOf())
  }

  function Credits(ds: seq<int>): nat {
    SumNonNegative(ds, CreditOf());
    Sum(ds, CreditOf())
  }

  /**
   * Whatever the owners and their order, the deltas add up to the ceiling of the whole minus the ceiling of the prefix.
   */
  lemma {:induction false} DeltasTelescope(prefix: int, owners: seq<int>)
    requires FundAll(prefix, owners).Ok?
    ensures var ds := FundAll(prefix, owners).value;
            |ds| == |owners| && Total(ds) == CeilDiv(prefix + Total(owners), SCALE) - CeilDiv(prefix, SCALE)
  {
    if owners != [] {
      var n := |owners| - 1;
      FundAllSnoc(prefix, owners);
      hide CeilDiv, FundAll;
      DeltasTelescope(prefix, owners[..n]);
      SumSnoc(FundAll(prefix, owners[..n]).value, LastDelta(prefix, owners), Same());
    }
  }

  /** The last owner's delta in terms of mathematical ceilings. */
  function LastDelta(prefix: int, owners: seq<int>): int
    requires owners != []
  {
    CeilDiv(prefix + Total(owners), SCALE) - CeilDiv(prefix + Total(owners[..|owners| - 1]), SCALE)
  }

  lemma FundAllSnoc(prefix: int, owners: seq<int>)
    requires owners != [] && FundAll(prefix, owners).Ok?
    ensures var front := FundAll(prefix, owners[..|owners| - 1]);
            front.Ok? && FundAll(prefix, owners).value == front.value + [LastDelta(prefix, owners)]
  {
    var before := prefix + Total(owners[..|owners| - 1]);
    SignedCeilIsCeil(before);
    SignedCeilIsCeil(before + owners[|owners| - 1]);
    hide CeilDiv, SignedCeil;
  }

  /** Adding `owner` moves a ceiling by at least its floor and at most its ceiling. */
  lemma DeltaBetween(prefix: int, owner: int)
    ensures owner / SCALE <= CeilDiv(prefix + owner, SCALE) - CeilDiv(prefix, SCALE) <= CeilDiv(owner, SCALE)
  {
    var (a, b, c) := (CeilDiv(prefix, SCALE), CeilDiv(owner, SCALE), CeilDiv(prefix + owner, SCALE));
    var f := owner / SCALE;
    CeilBounds(prefix, SCALE);
    CeilBounds(owner, SCALE);
    CeilBounds(prefix + owner, SCALE);
    FloorBounds(owner, SCALE);
    CeilLeast(prefix + owner, SCALE, a + b);
    CeilLeast(prefix, SCALE, c - f);
  }

  /** Every owner's delta is a debit or credit that owner's own funding accepts. */
  lemma {:induction false} EachDeltaAcceptable(prefix: int, owners: seq<int>, i: nat)
    requires FundAll(prefix, owners).Ok? && i < |owners|
    ensures var ds := FundAll(prefix, owners).value;
            |ds| == |owners| && owners[i] / SCALE <= ds[i] <= SignedCeil(owners[i])
  {
    var n := |owners| - 1;
    FundAllSnoc(prefix, owners);
    DeltasTelescope(prefix, owners);
    DeltasTelescope(prefix, owners[..n]);
    hide CeilDiv, SignedCeil, FundAll;
    if i < n {
      EachDeltaAcceptable(prefix, owners[..n], i);
    } else {
      DeltaBetween(prefix + Total(owners[..n]), owners[n]);
      SignedCeilIsCeil(owners[n]);
    }
  }

  lemma {:induction false} DebitsMinusCredits(ds: seq<int>)
    ensures Sum(ds, DebitOf()) - Sum(ds, CreditOf()) == Total(ds)
  {
    if ds != [] {
      DebitsMinusCredits(ds[..|ds| - 1]);
    }
  }

  // ---- The settlement partition --------------------------------------------------------------------

  datatype Partition = Partition(managedLiability: u64, writerResidual: u64, accountedAssets: u64,
                                 protectedReserve: u64, stranded: u64)

  function ToU64(n: int): Result<u64> {
    if 0 <= n <= U64_MAX then Ok(n) else Err(ArithmeticOverflow)
  }

  /** `portfolio_settlement_partition`. */
  function Settle(managedAssets: u64, managed: int, ownerNet: int, debits: u64, credits: u64,
                  outside: u64): Result<Partition> {
    if managed < 0 then Err(InvalidClaimAmount)
    else if !FitsI128(managed + ownerNet) then Err(ArithmeticOverflow)
    else if managed + ownerNet < 0 then Err(InvalidClaimAmount)
    else
      var managedLiability :- ToU64(SignedCeil(managed));
      var combinedLiability :- ToU64(SignedCeil(managed + ownerNet));
      if Minus(debits, credits) != Minus(combinedLiability, managedLiability) then Err(Insolvent)
      else if managedAssets < managedLiability then Err(Insolvent)
      else
        var residual := managedAssets - managedLiability;
        var protectedReserve :- ToU64(outside + credits);
        var accounted :- ToU64(protectedReserve + residual);
        var physical :- ToU64(managedAssets + debits);
        if physical < accounted then Err(Insolvent)
        else Ok(Partition(managedLiability, residual, accounted, protectedReserve, physical - accounted))
  }

  /** The amounts of a settlement all fit their words, in the order the partition computes them. */
  predicate SettlementFits(managedAssets: u64, managed: int, net: int, debits: nat, credits: nat, outside: u64) {
    && FitsI128(managed + net) && managed + net >= 0
    && CeilDiv(managed, SCALE) <= U64_MAX && CeilDiv(managed + net, SCALE) <= U64_MAX
    && (managedAssets >= CeilDiv(managed, SCALE) ==>
          && outside + credits + managedAssets - CeilDiv(managed, SCALE) <= U64_MAX && outside + credits <= U64_MAX
          && managedAssets + debits <= U64_MAX)
  }

  /**
   * With debits and credits taken from the owners' deltas the balance check never fires. Where the amounts fit,
   * the partition succeeds exactly when the managed assets cover the managed liability and the outside claims
   * are within the whole one, and reports insolvency exactly otherwise; where they do not fit it reports
   * another error. A success loses nothing and never turns an owner's deposit into writer profit.
   */
  lemma PartitionBalances(managedAssets: u64, managed: int, owners: seq<int>, outside: u64)
    requires managed >= 0 && FundAll(managed, owners).Ok?
    requires var ds := FundAll(managed, owners).value; Debits(ds) <= U64_MAX && Credits(ds) <= U64_MAX
    ensures var ds := FundAll(managed, owners).value;
            var (debits, credits) := (Debits(ds), Credits(ds));
            var r := Settle(managedAssets, managed, Total(owners), debits, credits, outside);
            var (own, whole) := (CeilDiv(managed, SCALE), CeilDiv(managed + Total(owners), SCALE));
            var fits := SettlementFits(managedAssets, managed, Total(owners), debits, credits, outside);
            && (r == Err(Insolvent) <==> fits && (managedAssets < own || outside > whole))
            && (r.Ok? <==> fits && own <= managedAssets && outside <= whole)
            && (r.Ok? ==>
                  && r.value.accountedAssets + r.value.stranded == managedAssets + debits
                  && r.value.managedLiability == own && r.value.writerResidual == managedAssets - own
                  && r.value.protectedReserve == outside + credits
                  && r.value.stranded == whole - outside)
  {
    hide CeilDiv, FundAll, Total, Settle, SettlementFits, Debits, Credits;
    var ds := FundAll(managed, owners).value;
    DeltasTelescope(managed, owners);
    NetOfDeltas(ds);
    SettleDecides(managedAssets, managed, Total(owners), Debits(ds), Credits(ds), outside);
  }

  lemma NetOfDeltas(ds: seq<int>)
    ensures Debits(ds) - Credits(ds) == Total(ds)
  {
    DebitsMinusCredits(ds);
  }

  lemma SettleDecides(managedAssets: u64, managed: int, net: int, debits: u64, credits: u64, outside: u64)
    requires managed >= 0 && Minus(debits, credits) == CeilDiv(managed + net, SCALE) - CeilDiv(managed, SCALE)
    ensures var r := Settle(managedAssets, managed, net, debits, credits, outside);
            var (own, whole) := (CeilDiv(managed, SCALE), CeilDiv(managed + net, SCALE));
            var fits := SettlementFits(managedAssets, managed, net, debits, credits, outside);
            && (r == Err(Insolvent) <==> fits && (managedAssets < own || outside > whole))
            && (r.Ok? <==> fits && own <= managedAssets && outside <= whole)
            && (r.Ok? ==>
                  && r.value.accountedAssets + r.value.stranded == managedAssets + debits
                  && r.value.managedLiability == own && r.value.writerResidual == managedAssets - own
                  && r.value.protectedReserve == outside + credits
                  && r.value.stranded == whole - outside)
  {
    SignedCeilIsCeil(managed);
    SignedCeilIsCeil(managed + net);
    CeilMono(0, managed, SCALE);
    if managed + net >= 0 { CeilMono(0, managed + net, SCALE); }
    hide CeilDiv, SignedCeil;
  }

  /** Whatever debits and credits are given, the partition accepts only those that make up the owners' liability. */
  lemma PartitionChecksBalance(managedAssets: u64, managed: int, net: int, debits: u64, credits: u64, outside: u64)
    ensures Settle(managedAssets, managed, net, debits, credits, outside).Ok? ==>
              && 0 <= managed && 0 <= managed + net
              && debits + CeilDiv(managed, SCALE) == credits + CeilDiv(managed + net, SCALE)
  {
    SignedCeilIsCeil(managed);
    SignedCeilIsCeil(managed + net);
    hide CeilDiv, SignedCeil;
  }

  /**
   * The two halves meet: an owner whose portfolio went through any run and retired its locked tokens is
   * funded with the delta the group computed for it, and pays it from its own cash.
   */
  lemma GroupDeltaIsFundable(book: seq<Series>, actions: seq<Action>, price: u64, prefix: int, owners: seq<int>, i: nat)
    requires ValidateBook(book).Ok? && FundAll(prefix, owners).Ok? && i < |owners|
    requires var p := Run(EMPTY, book, actions);
             && !p.settlementFunded && !p.claimed && p.retired == p.locked
             && PortfolioNumerator(book, p.filled, p.locked, price) == Ok(owners[i])
    requires -U64_MAX <= FundAll(prefix, owners).value[i] <= U64_MAX
    ensures var d := FundAll(prefix, owners).value[i];
            Fund(Run(EMPTY, book, actions), book, price, Max(d, 0), Max(-d, 0)).Ok?
  {
    hide FundAll, PortfolioNumerator, Run, SignedCeil, Fund;
    var d := FundAll(prefix, owners).value[i];
    EveryRunCovered(book, actions);
    EachDeltaAcceptable(prefix, owners, i);
    FundAccepts(Run(EMPTY, book, actions), book, price, owners[i], d);
  }

  lemma FundAccepts(p: Portfolio, book: seq<Series>, price: u64, n: int, d: int)
    requires Covered(p, book) && !p.settlementFunded && !p.claimed && p.retired == p.locked
    requires PortfolioNumerator(book, p.filled, p.locked, price) == Ok(n)
    requires n / SCALE <= d <= SignedCeil(n) && -U64_MAX <= d <= U64_MAX
    ensures Fund(p, book, price, Max(d, 0), Max(-d, 0)).Ok?
  {
    FundPayable(p, book, price, Max(d, 0), Max(-d, 0));
    hide PortfolioNumerator, SignedCeil, PortfolioReserve, AtMostEach;
  }
}
