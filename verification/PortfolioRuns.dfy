/** The owner portfolio as a state machine: cash covers the reserve over every run, and settlement is always payable. */
module PortfolioRuns {
  import opened Numbers
  import opened WriterSeries
  import opened WriterCandidates
  import opened WriterReserve
  import opened WriterPortfolio

  datatype Portfolio = Portfolio(
    cash: u64, committed: Quantities, filled: Quantities, locked: Quantities, retired: Quantities,
    premiumReceived: u64, settlementFunded: bool, claimed: bool, fundingDebit: u64, settlementCredit: u64)

  const EMPTY := Portfolio(0, NONE, NONE, NONE, NONE, 0, false, false, 0, 0)

  // ---- Transitions -----------------------------------------------------------------------------

  function Validate(p: Portfolio): Result<()> {
    if || !AtMostEach(p.filled, p.committed) || !AtMostEach(p.retired, p.locked)
       || (p.fundingDebit != 0 && p.settlementCredit != 0)
       || (p.settlementFunded && p.retired != p.locked)
       || (!p.settlementFunded && (p.fundingDebit != 0 || p.settlementCredit != 0))
       || (p.claimed && (!p.settlementFunded || p.cash != 0 || p.settlementCredit != 0))
    then Err(InvalidClaimAmount) else Ok(())
  }

  function Active(p: Portfolio): Result<()> {
    var _ :- Validate(p);
    if p.settlementFunded || p.claimed || p.retired != NONE then Err(InvalidClaimAmount) else Ok(())
  }

  function TopUp(p: Portfolio, book: seq<Series>, maximum: u64): Result<(Portfolio, u64)> {
    var reserve :- PortfolioReserve(book, p.committed, p.locked);
    var debit := SatSub(reserve, p.cash);
    if debit > maximum then Err(Insolvent)
    else if p.cash + debit > U64_MAX then Err(ArithmeticOverflow)
    else Ok((p.(cash := p.cash + debit), debit))
  }

  function ReleaseExcess(p: Portfolio, book: seq<Series>): Result<(Portfolio, u64)> {
    var reserve :- PortfolioReserve(book, p.committed, p.locked);
    if p.cash < reserve then Err(Insolvent) else Ok((p.(cash := reserve), p.cash - reserve))
  }

  function Opened(p: Portfolio, book: seq<Series>, index: nat, quantity: u64, maximum: u64): Result<(Portfolio, u64)> {
    var _ :- Active(p);
    if quantity == 0 || index >= |book| || index >= PORTFOLIO_SERIES then Err(InvalidSeries)
    else if p.committed[index] + quantity > U64_MAX then Err(ArithmeticOverflow)
    else TopUp(p.(committed := p.committed[index := p.committed[index] + quantity]), book, maximum)
  }

  function Fill(p: Portfolio, index: nat, quantity: u64, premium: u64): Result<Portfolio> {
    var _ :- Active(p);
    if quantity == 0 || index >= PORTFOLIO_SERIES then Err(InvalidSeries)
    else if p.filled[index] + quantity > U64_MAX then Err(ArithmeticOverflow)
    else if p.filled[index] + quantity > p.committed[index] then Err(InvalidClaimAmount)
    else if p.cash + premium > U64_MAX || p.premiumReceived + premium > U64_MAX then Err(ArithmeticOverflow)
    else Ok(p.(filled := p.filled[index := p.filled[index] + quantity], cash := p.cash + premium,
               premiumReceived := p.premiumReceived + premium))
  }

  function Cancel(p: Portfolio, book: seq<Series>, index: nat, unfilled: u64): Result<(Portfolio, u64)> {
    var _ :- Active(p);
    if index >= |book| || index >= PORTFOLIO_SERIES then Err(InvalidSeries)
    else if p.committed[index] < unfilled
        || p.committed[index] - unfilled < p.filled[index] then Err(InvalidClaimAmount)
    else ReleaseExcess(p.(committed := p.committed[index := p.committed[index] - unfilled]), book)
  }

  function Lock(p: Portfolio, book: seq<Series>, index: nat, quantity: u64): Result<(Portfolio, u64)> {
    var _ :- Active(p);
    if quantity == 0 || index >= |book| || index >= PORTFOLIO_SERIES then Err(InvalidSeries)
    else if p.locked[index] + quantity > U64_MAX then Err(ArithmeticOverflow)
    else ReleaseExcess(p.(locked := p.locked[index := p.locked[index] + quantity]), book)
  }

  function Unlock(p: Portfolio, book: seq<Series>, index: nat, quantity: u64, maximum: u64): Result<(Portfolio, u64)> {
    var _ :- Active(p);
    if quantity == 0 || index >= |book| || index >= PORTFOLIO_SERIES then Err(InvalidSeries)
    else if p.locked[index] < quantity then Err(InvalidClaimAmount)
    else TopUp(p.(locked := p.locked[index := p.locked[index] - quantity]), book, maximum)
  }

  /** Lock the first `n` legs of a basket. */
  function LockLegs(p: Portfolio, count: nat, legs: Quantities, n: nat): Result<Quantities>
    requires n <= PORTFOLIO_SERIES
  {
    if n == 0 then Ok(p.locked)
    else
      var locked :- LockLegs(p, count, legs, n - 1);
      var i := n - 1;
      if legs[i] == 0 then Ok(locked)
      else if i >= count then Err(InvalidSeries)
      else if locked[i] + legs[i] > U64_MAX then Err(ArithmeticOverflow)
      else if locked[i] + legs[i] > p.filled[i] then Err(InvalidClaimAmount)
      else Ok(locked[i := locked[i] + legs[i]])
  }

  function BuyBack(p: Portfolio, book: seq<Series>, legs: Quantities, payment: u64, maximumPayment: u64,
                   minimumRefund: u64)
    : Result<(Portfolio, u64)>
  {
    var _ :- Active(p);
    if payment == 0 || payment > maximumPayment || legs == NONE then Err(InvalidClaimAmount)
    else if p.cash < payment then Err(Insolvent)
    else
      var locked :- LockLegs(p, |book|, legs, PORTFOLIO_SERIES);
      var (next, refund) :- ReleaseExcess(p.(cash := p.cash - payment, locked := locked), book);
      if refund < minimumRefund then Err(Insolvent) else Ok((next, refund))
  }

  function Retire(p: Portfolio, index: nat, quantity: u64): Result<Portfolio> {
    var _ :- Validate(p);
    if p.settlementFunded || p.claimed || quantity == 0 || index >= PORTFOLIO_SERIES then Err(InvalidClaimAmount)
    else if p.retired[index] + quantity > U64_MAX then Err(ArithmeticOverflow)
    else if p.retired[index] + quantity > p.locked[index] then Err(InvalidClaimAmount)
    else Ok(p.(retired := p.retired[index := p.retired[index] + quantity]))
  }

  function Fund(p: Portfolio, book: seq<Series>, price: u64, debit: u64, credit: u64): Result<Portfolio> {
    var _ :- Validate(p);
    if p.settlementFunded || p.claimed || p.retired != p.locked
        || (debit != 0 && credit != 0) then Err(InvalidClaimAmount)
    else
      var n :- PortfolioNumerator(book, p.filled, p.locked, price);
      var delta := Minus(debit, credit);
      if delta < n / SCALE || delta > SignedCeil(n) then Err(InvalidClaimAmount)
      else if p.cash < debit then Err(Insolvent)
      else Ok(p.(cash := p.cash - debit, fundingDebit := debit, settlementCredit := credit, settlementFunded := true))
  }

  function Claim(p: Portfolio): Result<(Portfolio, u64, u64)> {
    var _ :- Validate(p);
    if !p.settlementFunded || p.claimed then Err(InvalidClaimAmount)
    else Ok((p.(cash := 0, settlementCredit := 0, claimed := true), p.cash, p.settlementCredit))
  }

  /** The basket loop of the buy-back. */
  method LockLoop(p: Portfolio, count: nat, legs: Quantities) returns (r: Result<Quantities>)
    ensures r == LockLegs(p, count, legs, PORTFOLIO_SERIES)
  {
    var locked: Quantities := p.locked;
    for i := 0 to PORTFOLIO_SERIES
      invariant LockLegs(p, count, legs, i) == Ok(locked)
    {
      var step: Result<Quantities> :=
        if legs[i] == 0 then Ok(locked)
        else if i >= count then Err(InvalidSeries)
        else if locked[i] + legs[i] > U64_MAX then Err(ArithmeticOverflow)
        else if locked[i] + legs[i] > p.filled[i] then Err(InvalidClaimAmount)
        else Ok(locked[i := locked[i] + legs[i]]);
      assert LockLegs(p, count, legs, i + 1) == step;
      if step.Err? {
        LegsFail(p, count, legs, i + 1, PORTFOLIO_SERIES);
        return step;
      }
      locked := step.value;
    }
    return Ok(locked);
  }

  lemma {:induction false} LegsFail(p: Portfolio, count: nat, legs: Quantities, k: nat, n: nat)
    requires k <= n <= PORTFOLIO_SERIES && LockLegs(p, count, legs, k).Err?
    ensures LockLegs(p, count, legs, n) == LockLegs(p, count, legs, k)
  {
    if k < n {
      LegsFail(p, count, legs, k, n - 1);
    }
  }

  // ---- Runs --------------------------------------------------------------------------------------

  datatype Action =
    | DoOpen(index: nat, quantity: u64, maximum: u64)
    | DoFill(index: nat, quantity: u64, premium: u64)
    | DoCancel(index: nat, quantity: u64)
    | DoLock(index: nat, quantity: u64)
    | DoUnlock(index: nat, quantity: u64, maximum: u64)
    | DoBuyBack(legs: Quantities, payment: u64, maximum: u64, minimumRefund: u64)
    | DoRetire(index: nat, quantity: u64)
    | DoFund(price: u64, debit: u64, credit: u64)
    | DoClaim

  function Step(p: Portfolio, book: seq<Series>, a: Action): Result<Portfolio> {
    match a
    case DoOpen(index, quantity, maximum) => var (q, _) :- Opened(p, book, index, quantity, maximum); Ok(q)
    case DoFill(index, quantity, premium) => Fill(p, index, quantity, premium)
    case DoCancel(index, quantity) => var (q, _) :- Cancel(p, book, index, quantity); Ok(q)
    case DoLock(index, quantity) => var (q, _) :- Lock(p, book, index, quantity); Ok(q)
    case DoUnlock(index, quantity, maximum) => var (q, _) :- Unlock(p, book, index, quantity, maximum); Ok(q)
    case DoBuyBack(legs, payment, maximum, minimumRefund) => var (q, _) :- BuyBack(p, book, legs, payment, maximum,
        minimumRefund); Ok(q)
    case DoRetire(index, quantity) => Retire(p, index, quantity)
    case DoFund(price, debit, credit) => Fund(p, book, price, debit, credit)
    case DoClaim => var (q, _, _) :- Claim(p); Ok(q)
  }

  function Run(p: Portfolio, book: seq<Series>, actions: seq<Action>): Portfolio {
    if actions == [] then p
    else
      var before := Run(p, book, actions[..|actions| - 1]);
      var r := Step(before, book, actions[|actions| - 1]);
      if r.Ok? then r.value else before
  }

  /** Until settlement is funded the cash covers the reserve, hence every settlement price. */
  predicate Covered(p: Portfolio, book: seq<Series>) {
    && Validate(p).Ok?
    && (!p.settlementFunded ==>
          var r := PortfolioReserve(book, p.committed, p.locked);
          r.Ok? && r.value <= p.cash)
  }

  lemma EmptyCovered(book: seq<Series>)
    requires ValidateBook(book).Ok?
    ensures Covered(EMPTY, book)
  {
    hide Candidates, FirstMax, CheckedSum, Weighted, Distinct;
    var cs := Candidates(book, 0, U64_MAX);
    var w := Net(book, NONE, NONE);
    forall c: u64 ensures CheckedSum(book, w, c) == Ok(0) && RoundedAt(book, w)(c) == 0 {
      NothingOwed(book, w, c);
    }
  }

  lemma {:induction false} NothingOwed(book: seq<Series>, w: seq<int>, x: int)
    requires |w| == |book| && forall i :: 0 <= i < |w| ==> w[i] == 0
    ensures CheckedSum(book, w, x) == Ok(0) && Weighted(book, w, x) == 0
  {
    if book != [] {
      NothingOwed(book[..|book| - 1], w[..|book| - 1], x);
    }
  }

  lemma StepKeeps(p: Portfolio, book: seq<Series>, a: Action)
    requires Covered(p, book) && Step(p, book, a).Ok?
    ensures Covered(Step(p, book, a).value, book)
  {
    hide PortfolioReserve;
    if a.DoBuyBack? {
      LegsKept(p, |book|, a.legs, PORTFOLIO_SERIES);
    }
  }

  lemma {:induction false} LegsKept(p: Portfolio, count: nat, legs: Quantities, n: nat)
    requires n <= PORTFOLIO_SERIES && LockLegs(p, count, legs, n).Ok?
    ensures AtMostEach(p.locked, LockLegs(p, count, legs, n).value)
  {
    if n > 0 {
      LegsKept(p, count, legs, n - 1);
    }
  }

  /** Over every run from an empty portfolio, the cash covers the reserve until settlement is funded. */
  lemma {:induction false} EveryRunCovered(book: seq<Series>, actions: seq<Action>)
    requires ValidateBook(book).Ok?
    ensures Covered(Run(EMPTY, book, actions), book)
  {
    if actions == [] {
      EmptyCovered(book);
    } else {
      var n := |actions| - 1;
      EveryRunCovered(book, actions[..n]);
      var before := Run(EMPTY, book, actions[..n]);
      if Step(before, book, actions[n]).Ok? {
        StepKeeps(before, book, actions[n]);
      }
    }
  }

  /** The cash is exactly the reserve of what is held, and the refund is all the rest. */
  predicate ReleasedExactly(p: Portfolio, book: seq<Series>, next: Portfolio, refund: u64) {
    PortfolioReserve(book, next.committed, next.locked) == Ok(next.cash) && next.cash + refund == p.cash
  }

  /** Cancelling an order and locking a hedge never report insolvency, and refund exactly the excess. */
  lemma CancelAndLockNeverInsolvent(book: seq<Series>, actions: seq<Action>, index: nat, quantity: u64)
    requires ValidateBook(book).Ok?
    ensures var p := Run(EMPTY, book, actions);
            && Cancel(p, book, index, quantity) != Err(Insolvent)
            && Lock(p, book, index, quantity) != Err(Insolvent)
            && (var r := Cancel(p, book, index, quantity); r.Ok? ==> ReleasedExactly(p, book, r.value.0, r.value.1))
            && (var r := Lock(p, book, index, quantity); r.Ok? ==> ReleasedExactly(p, book, r.value.0, r.value.1))
  {
    hide Run, Covered, Cancel, Lock, ReleasedExactly;
    EveryRunCovered(book, actions);
    var p := Run(EMPTY, book, actions);
    ReleaseNeverInsolvent(p, book, index, quantity);
    ReleaseIsExact(p, book, index, quantity);
  }

  lemma ReleaseIsExact(p: Portfolio, book: seq<Series>, index: nat, quantity: u64)
    ensures var r := Cancel(p, book, index, quantity); r.Ok? ==> ReleasedExactly(p, book, r.value.0, r.value.1)
    ensures var r := Lock(p, book, index, quantity); r.Ok? ==> ReleasedExactly(p, book, r.value.0, r.value.1)
  {
    hide PortfolioReserve;
  }

  lemma ReleaseNeverInsolvent(p: Portfolio, book: seq<Series>, index: nat, quantity: u64)
    requires Covered(p, book)
    ensures Cancel(p, book, index, quantity) != Err(Insolvent) && Lock(p, book, index, quantity) != Err(Insolvent)
  {
    hide PortfolioReserve;
    if Active(p).Ok? && index < |book| && index < PORTFOLIO_SERIES {
      if p.filled[index] <= p.committed[index] - quantity {
        var less := p.committed[index := p.committed[index] - quantity];
        if PortfolioReserve(book, less, p.locked).Ok? {
          ReserveMonotone(book, p.committed, p.locked, less, p.locked);
        } else {
          ReserveErrors(book, less, p.locked);
        }
      }
      if p.locked[index] + quantity <= U64_MAX {
        var more := p.locked[index := p.locked[index] + quantity];
        if PortfolioReserve(book, p.committed, more).Ok? {
          ReserveMonotone(book, p.committed, p.locked, p.committed, more);
        } else {
          ReserveErrors(book, p.committed, more);
        }
      }
    } else if Active(p).Err? {
      assert Active(p).error == InvalidClaimAmount;
    }
  }

  lemma ReserveErrors(book: seq<Series>, committed: Quantities, locked: Quantities)
    requires PortfolioReserve(book, committed, locked).Err?
    ensures PortfolioReserve(book, committed, locked).error != Insolvent
  {}

  /**
   * After any run, funding at any settlement price with any debit and credit the program accepts never
   * reports insolvency: the cash set aside covers what the filled shorts can owe.
   */
  lemma FundingNeverInsolvent(book: seq<Series>, actions: seq<Action>, price: u64, debit: u64, credit: u64)
    requires ValidateBook(book).Ok?
    ensures Fund(Run(EMPTY, book, actions), book, price, debit, credit) != Err(Insolvent)
  {
    EveryRunCovered(book, actions);
    FundPayable(Run(EMPTY, book, actions), book, price, debit, credit);
  }

  lemma FundPayable(p: Portfolio, book: seq<Series>, price: u64, debit: u64, credit: u64)
    requires Covered(p, book)
    ensures Fund(p, book, price, debit, credit) != Err(Insolvent)
  {
    hide PortfolioReserve, CheckedSum, SignedCeil, Candidates;
    var n := PortfolioNumerator(book, p.filled, p.locked, price);
    if !p.settlementFunded && n.Ok? {
      var w := Net(book, p.filled, p.locked);
      CheckedIsWeighted(book, w, price);
      SignedCeilIsCeil(n.value);
      LiabilityMonotone(book, p.committed, p.locked, p.filled, p.locked, price);
      ReserveCovers(book, p.committed, p.locked, price);
    } else if n.Err? {
      NumeratorErrors(book, p.filled, p.locked, price);
    }
  }

  lemma NumeratorErrors(book: seq<Series>, short: Quantities, long: Quantities, price: u64)
    requires PortfolioNumerator(book, short, long, price).Err?
    ensures PortfolioNumerator(book, short, long, price).error != Insolvent
  {
    if |book| <= PORTFOLIO_SERIES {
      CheckedIsWeighted(book, Net(book, short, long), price);
    }
  }
}
