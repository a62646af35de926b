/** What passed through an owner portfolio: every atom of cash and every contract of every run is accounted for. */
module PortfolioLife {
  import opened Numbers
  import opened WriterSeries
  import opened WriterCandidates
  import opened WriterReserve
  import opened WriterPortfolio
  import opened PortfolioRuns

  /** Everything that entered and left since the portfolio was created. */
  datatype Life = Life(
    debits: int, premiums: int, refunds: int, payments: int, fundingDebits: int, fundingCredits: int,
    claimedCash: int, claimedCredit: int)

  const UNBORN := Life(0, 0, 0, 0, 0, 0, 0, 0)

  /** The amounts a successful action hands over, as it reports them to its caller. */
  function Booked(v: Life, p: Portfolio, book: seq<Series>, a: Action): Life
    requires Step(p, book, a).Ok?
  {
    match a
    case DoOpen(index, quantity, maximum) =>
      v.(debits := v.debits + Opened(p, book, index, quantity, maximum).value.1)
    case DoFill(_, _, premium) => v.(premiums := v.premiums + premium)
    case DoCancel(index, quantity) => v.(refunds := v.refunds + Cancel(p, book, index, quantity).value.1)
    case DoLock(index, quantity) => v.(refunds := v.refunds + Lock(p, book, index, quantity).value.1)
    case DoUnlock(index, quantity, maximum) =>
      v.(debits := v.debits + Unlock(p, book, index, quantity, maximum).value.1)
    case DoBuyBack(legs, payment, maximum, minimumRefund) =>
      v.(payments := v.payments + payment,
         refunds := v.refunds + BuyBack(p, book, legs, payment, maximum, minimumRefund).value.1)
    case DoRetire(_, _) => v
    case DoFund(_, debit, credit) =>
      v.(fundingDebits := v.fundingDebits + debit, fundingCredits := v.fundingCredits + credit)
    case DoClaim =>
      v.(claimedCash := v.claimedCash + Claim(p).value.1, claimedCredit := v.claimedCredit + Claim(p).value.2)
  }

  function LifeOf(book: seq<Series>, actions: seq<Action>): Life {
    if actions == [] then UNBORN
    else
      var (front, a) := (actions[..|actions| - 1], actions[|actions| - 1]);
      var p := Run(EMPTY, book, front);
      if Step(p, book, a).Ok? then Booked(LifeOf(book, front), p, book, a) else LifeOf(book, front)
  }

  /** All cash that came in is still held or went out; every credit is still owed or was claimed. */
  predicate Accounted(v: Life, p: Portfolio) {
    && v.debits + v.premiums == p.cash + v.refunds + v.payments + v.fundingDebits + v.claimedCash
    && v.fundingCredits == p.settlementCredit + v.claimedCredit
    && p.premiumReceived == v.premiums && p.fundingDebit == v.fundingDebits
    && (!p.settlementFunded ==> v.fundingDebits == v.fundingCredits == v.claimedCash == v.claimedCredit == 0)
    && (p.claimed ==> p.cash == 0 && v.claimedCredit == v.fundingCredits)
    && (!p.claimed ==> v.claimedCash == v.claimedCredit == 0)
  }

  lemma StepAccounts(v: Life, p: Portfolio, book: seq<Series>, a: Action)
    requires Accounted(v, p) && Step(p, book, a).Ok? && Validate(p).Ok?
    ensures Accounted(Booked(v, p, book, a), Step(p, book, a).value)
  {
    hide PortfolioReserve, PortfolioNumerator, LockLegs, AtMostEach, SignedCeil;
  }

  /** Over every run from an empty portfolio the money balances to the atom. */
  lemma {:induction false} EveryRunAccounts(book: seq<Series>, actions: seq<Action>)
    requires ValidateBook(book).Ok?
    ensures Accounted(LifeOf(book, actions), Run(EMPTY, book, actions))
  {
    if actions != [] {
      var (front, a) := (actions[..|actions| - 1], actions[|actions| - 1]);
      EveryRunAccounts(book, front);
      EveryRunCovered(book, front);
      var p := Run(EMPTY, book, front);
      hide Step, Accounted, Booked;
      if Step(p, book, a).Ok? { StepAccounts(LifeOf(book, front), p, book, a); }
    }
  }

  /**
   * Who may take or must bring what: a cancel, lock or buy-back leaves exactly the reserve of what is then held and
   * refunds the rest; an open or unlock asks for exactly the shortfall, within the owner's maximum.
   */
  lemma CashMeetsReserve(p: Portfolio, book: seq<Series>, a: Action)
    requires Step(p, book, a).Ok?
    ensures var p' := Step(p, book, a).value;
            var reserve := PortfolioReserve(book, p'.committed, p'.locked);
            && (a.DoCancel? || a.DoLock? || a.DoBuyBack? ==> reserve == Ok(p'.cash))
            && (a.DoBuyBack? ==> p.cash - a.payment - p'.cash >= a.minimumRefund && 0 < a.payment <= a.maximum)
            && (a.DoOpen? || a.DoUnlock? ==>
                  reserve.Ok? && p'.cash == Max(p.cash, reserve.value) && p'.cash - p.cash <= a.maximum)
  {
    hide PortfolioReserve, LockLegs;
  }

  /** After a refund not one more atom could be taken out without some settlement price being uncovered. */
  lemma RefundIsGreatest(p: Portfolio, book: seq<Series>, a: Action)
    requires Step(p, book, a).Ok? && (a.DoCancel? || a.DoLock? || a.DoBuyBack?)
    ensures var p' := Step(p, book, a).value;
            && |book| <= PORTFOLIO_SERIES
            && (forall x: u64 :: SignedLiability(book, p'.committed, p'.locked, x) <= p'.cash)
            && (0 < p'.cash ==> exists x: u64 :: SignedLiability(book, p'.committed, p'.locked, x) == p'.cash)
  {
    var p' := Step(p, book, a).value;
    CashMeetsReserve(p, book, a);
    hide Step;
    var at := ReserveAttained(book, p'.committed, p'.locked);
    hide SignedLiability;
    forall x: u64 ensures SignedLiability(book, p'.committed, p'.locked, x) <= p'.cash {
      ReserveCovers(book, p'.committed, p'.locked, x);
    }
  }

  // ---- Contracts ---------------------------------------------------------------------------------

  /** Contracts of one series moved into the four holdings. */
  datatype Moved = Moved(committed: int, filled: int, locked: int, retired: int)

  function Plus(a: Moved, b: Moved): Moved {
    Moved(a.committed + b.committed, a.filled + b.filled, a.locked + b.locked, a.retired + b.retired)
  }

  /** What an action asks to move in series `i`. */
  function AskedIn(a: Action, i: nat): Moved
    requires i < PORTFOLIO_SERIES
  {
    match a
    case DoOpen(index, quantity, _) => Moved(if index == i then quantity else 0, 0, 0, 0)
    case DoCancel(index, quantity) => Moved(if index == i then Minus(0, quantity) else 0, 0, 0, 0)
    case DoFill(index, quantity, _) => Moved(0, if index == i then quantity else 0, 0, 0)
    case DoLock(index, quantity) => Moved(0, 0, if index == i then quantity else 0, 0)
    case DoUnlock(index, quantity, _) => Moved(0, 0, if index == i then Minus(0, quantity) else 0, 0)
    case DoBuyBack(legs, _, _, _) => Moved(0, 0, legs[i], 0)
    case DoRetire(index, quantity) => Moved(0, 0, 0, if index == i then quantity else 0)
    case _ => Moved(0, 0, 0, 0)
  }

  function MovedIn(book: seq<Series>, actions: seq<Action>, i: nat): Moved
    requires i < PORTFOLIO_SERIES
  {
    if actions == [] then Moved(0, 0, 0, 0)
    else
      var (front, a) := (actions[..|actions| - 1], actions[|actions| - 1]);
      if Step(Run(EMPTY, book, front), book, a).Ok? then Plus(MovedIn(book, front, i), AskedIn(a, i))
      else MovedIn(book, front, i)
  }

  predicate Holds(p: Portfolio, i: nat, m: Moved)
    requires i < PORTFOLIO_SERIES
  {
    p.committed[i] == m.committed && p.filled[i] == m.filled && p.locked[i] == m.locked && p.retired[i] == m.retired
  }

  lemma {:induction false} LegsAdd(p: Portfolio, count: nat, legs: Quantities, n: nat, i: nat)
    requires i < PORTFOLIO_SERIES && n <= PORTFOLIO_SERIES && LockLegs(p, count, legs, n).Ok?
    ensures Minus(LockLegs(p, count, legs, n).value[i], p.locked[i]) == if i < n then legs[i] else 0
    ensures i < n && legs[i] != 0 ==> i < count && legs[i] <= Minus(p.filled[i], p.locked[i])
  {
    if n > 0 {
      LegsAdd(p, count, legs, n - 1, i);
      if i != n - 1 { LegsAdd(p, count, legs, n - 1, n - 1); }
    }
  }

  lemma CommitMoves(p: Portfolio, book: seq<Series>, a: Action, i: nat, m: Moved)
    requires a.DoOpen? || a.DoCancel?
    requires Step(p, book, a).Ok? && i < PORTFOLIO_SERIES && Holds(p, i, m)
    ensures Holds(Step(p, book, a).value, i, Plus(m, AskedIn(a, i)))
  {
    hide PortfolioReserve, PortfolioNumerator, Validate, SignedCeil;
  }

  lemma LockMoves(p: Portfolio, book: seq<Series>, a: Action, i: nat, m: Moved)
    requires a.DoLock? || a.DoUnlock?
    requires Step(p, book, a).Ok? && i < PORTFOLIO_SERIES && Holds(p, i, m)
    ensures Holds(Step(p, book, a).value, i, Plus(m, AskedIn(a, i)))
  {
    hide PortfolioReserve, PortfolioNumerator, Validate, SignedCeil;
  }

  lemma BasketMoves(p: Portfolio, book: seq<Series>, a: Action, i: nat, m: Moved)
    requires a.DoBuyBack?
    requires Step(p, book, a).Ok? && i < PORTFOLIO_SERIES && Holds(p, i, m)
    ensures Holds(Step(p, book, a).value, i, Plus(m, AskedIn(a, i)))
  {
    hide PortfolioReserve, PortfolioNumerator, Validate, SignedCeil;
    LegsAdd(p, |book|, a.legs, PORTFOLIO_SERIES, i);
    hide LockLegs;
  }

  lemma OtherMoves(p: Portfolio, book: seq<Series>, a: Action, i: nat, m: Moved)
    requires a.DoFill? || a.DoRetire? || a.DoFund? || a.DoClaim?
    requires Step(p, book, a).Ok? && i < PORTFOLIO_SERIES && Holds(p, i, m)
    ensures Holds(Step(p, book, a).value, i, Plus(m, AskedIn(a, i)))
  {
    hide PortfolioReserve, PortfolioNumerator, Validate, SignedCeil;
  }

  lemma StepMoves(p: Portfolio, book: seq<Series>, a: Action, i: nat, m: Moved)
    requires Step(p, book, a).Ok? && i < PORTFOLIO_SERIES && Holds(p, i, m)
    ensures Holds(Step(p, book, a).value, i, Plus(m, AskedIn(a, i)))
  {
    hide Step, Holds, AskedIn;
    match a
    case DoOpen(_, _, _) => CommitMoves(p, book, a, i, m);
    case DoCancel(_, _) => CommitMoves(p, book, a, i, m);
    case DoLock(_, _) => LockMoves(p, book, a, i, m);
    case DoUnlock(_, _, _) => LockMoves(p, book, a, i, m);
    case DoBuyBack(_, _, _, _) => BasketMoves(p, book, a, i, m);
    case _ => OtherMoves(p, book, a, i, m);
  }

  /** Over every run each holding of each series is exactly what the successful actions moved there. */
  lemma {:induction false} EveryRunMoves(book: seq<Series>, actions: seq<Action>, i: nat)
    requires i < PORTFOLIO_SERIES
    ensures Holds(Run(EMPTY, book, actions), i, MovedIn(book, actions, i))
  {
    if actions != [] {
      var (front, a) := (actions[..|actions| - 1], actions[|actions| - 1]);
      EveryRunMoves(book, front, i);
      hide Step, Holds, Plus, AskedIn;
      var p := Run(EMPTY, book, front);
      if Step(p, book, a).Ok? { StepMoves(p, book, a, i, MovedIn(book, front, i)); }
    }
  }

  /** A buy-back never locks more of a series than was filled and is not yet hedged. */
  lemma BuyBackOffsetsFilledOnly(p: Portfolio, book: seq<Series>, a: Action, i: nat)
    requires a.DoBuyBack? && Step(p, book, a).Ok? && i < PORTFOLIO_SERIES && a.legs[i] != 0
    ensures i < |book| && Step(p, book, a).value.locked[i] <= p.filled[i]
  {
    hide PortfolioReserve;
    LegsAdd(p, |book|, a.legs, PORTFOLIO_SERIES, i);
    hide LockLegs;
  }

  /** Settlement is funded exactly with a whole-atom amount nearest the owner's signed liability at the price. */
  lemma FundIff(p: Portfolio, book: seq<Series>, price: u64, debit: u64, credit: u64)
    requires Covered(p, book)
    ensures Fund(p, book, price, debit, credit).Ok? <==>
              && !p.settlementFunded && !p.claimed && p.retired == p.locked && (debit == 0 || credit == 0)
              && PortfolioNumerator(book, p.filled, p.locked, price).Ok?
              && var n := Weighted(book, Net(book, p.filled, p.locked), price);
                 n / SCALE <= debit - credit <= CeilDiv(n, SCALE)
  {
    FundPayable(p, book, price, debit, credit);
    hide PortfolioReserve, SignedCeil, CheckedSum, Weighted, CeilDiv;
    var r := PortfolioNumerator(book, p.filled, p.locked, price);
    if r.Ok? {
      CheckedIsWeighted(book, Net(book, p.filled, p.locked), price);
      SignedCeilIsCeil(r.value);
    }
  }

  predicate Trades(a: Action) { !(a.DoRetire? || a.DoFund? || a.DoClaim?) }

  /** Nothing was retired, funded or claimed yet. */
  predicate Open(p: Portfolio) { !p.settlementFunded && !p.claimed && p.retired == NONE }

  /** The contracts an action names exist and are there to be moved. */
  predicate Movable(p: Portfolio, book: seq<Series>, a: Action) {
    match a
    case DoOpen(i, q, _) => 0 < q && i < |book| && i < 20 && p.committed[i] + q <= U64_MAX
    case DoFill(i, q, _) => 0 < q && i < 20 && p.filled[i] + q <= p.committed[i]
    case DoCancel(i, q) => i < |book| && i < 20 && p.filled[i] + q <= p.committed[i]
    case DoLock(i, q) => 0 < q && i < |book| && i < 20 && p.locked[i] + q <= U64_MAX
    case DoUnlock(i, q, _) => 0 < q && i < |book| && i < 20 && q <= p.locked[i]
    case DoBuyBack(legs, payment, maximum, _) =>
      && 0 < payment <= maximum && payment <= p.cash && legs != NONE
      && forall i :: 0 <= i < 20 && legs[i] != 0 ==> i < |book| && legs[i] <= Minus(p.filled[i], p.locked[i])
    case DoRetire(i, q) => 0 < q && i < 20 && p.retired[i] + q <= p.locked[i]
    case _ => true
  }

  /** The money an action moves fits. */
  predicate Payable(p: Portfolio, book: seq<Series>, a: Action, p': Portfolio) {
    var reserve := PortfolioReserve(book, p'.committed, p'.locked);
    match a
    case DoOpen(_, _, maximum) => reserve.Ok? && reserve.value - p.cash <= maximum
    case DoUnlock(_, _, maximum) => reserve.Ok? && reserve.value - p.cash <= maximum
    case DoCancel(_, _) => reserve.Ok? && reserve.value <= p.cash
    case DoLock(_, _) => reserve.Ok? && reserve.value <= p.cash
    case DoBuyBack(_, payment, _, minimumRefund) => reserve.Ok? && reserve.value + minimumRefund <= p.cash - payment
    case DoFill(_, _, premium) => p.cash + premium <= U64_MAX && p.premiumReceived + premium <= U64_MAX
    case _ => true
  }

  /** The committed and locked contracts once the action is done. */
  ghost predicate HoldingsAfter(p: Portfolio, a: Action, p': Portfolio) {
    forall i :: 0 <= i < PORTFOLIO_SERIES ==>
                  && p'.committed[i] == p.committed[i] + AskedIn(a, i).committed
                  && p'.locked[i] == p.locked[i] + AskedIn(a, i).locked
  }

  ghost predicate PayableAfter(p: Portfolio, book: seq<Series>, a: Action) {
    exists p' :: HoldingsAfter(p, a, p') && Payable(p, book, a, p')
  }

  lemma {:induction false} LegsAccepted(p: Portfolio, count: nat, legs: Quantities, n: nat)
    requires n <= PORTFOLIO_SERIES
    requires forall i :: 0 <= i < PORTFOLIO_SERIES && legs[i] != 0 ==>
                         i < count && legs[i] <= Minus(p.filled[i], p.locked[i])
    ensures LockLegs(p, count, legs, n).Ok?
  {
    if n > 0 {
      LegsAccepted(p, count, legs, n - 1);
      LegsAdd(p, count, legs, n - 1, n - 1);
    }
  }

  lemma LegsIff(p: Portfolio, count: nat, legs: Quantities)
    ensures LockLegs(p, count, legs, PORTFOLIO_SERIES).Ok? <==>
              forall i :: 0 <= i < PORTFOLIO_SERIES && legs[i] != 0 ==>
                          i < count && legs[i] <= Minus(p.filled[i], p.locked[i])
  {
    if LockLegs(p, count, legs, PORTFOLIO_SERIES).Ok? {
      forall i | 0 <= i < PORTFOLIO_SERIES && legs[i] != 0
          ensures i < count && legs[i] <= Minus(p.filled[i], p.locked[i]) {
        LegsAdd(p, count, legs, PORTFOLIO_SERIES, i);
      }
    } else if forall i :: 0 <= i < PORTFOLIO_SERIES && legs[i] != 0 ==>
                          i < count && legs[i] <= Minus(p.filled[i], p.locked[i]) {
      LegsAccepted(p, count, legs, PORTFOLIO_SERIES);
    }
  }

  lemma HoldingsFollow(p: Portfolio, book: seq<Series>, a: Action)
    requires Trades(a) && Step(p, book, a).Ok?
    ensures HoldingsAfter(p, a, Step(p, book, a).value)
  {
    hide Step;
    var p' := Step(p, book, a).value;
    forall i | 0 <= i < PORTFOLIO_SERIES
      ensures p'.committed[i] == p.committed[i] + AskedIn(a, i).committed
              && p'.locked[i] == p.locked[i] + AskedIn(a, i).locked
    {
      StepMoves(p, book, a, i, Moved(p.committed[i], p.filled[i], p.locked[i], p.retired[i]));
    }
  }

  lemma WasMovable(p: Portfolio, book: seq<Series>, a: Action)
    requires Trades(a) && Step(p, book, a).Ok?
    ensures Open(p) && Movable(p, book, a)
  {
    hide PortfolioReserve, Validate;
    if a.DoBuyBack? { LegsIff(p, |book|, a.legs); }
    hide LockLegs;
  }

  lemma WasPayable(p: Portfolio, book: seq<Series>, a: Action)
    requires Trades(a) && Step(p, book, a).Ok?
    ensures Payable(p, book, a, Step(p, book, a).value)
  {
    hide PortfolioReserve, Validate, LockLegs;
    CashMeetsReserve(p, book, a);
    FillFits(p, book, a);
    CoversReserve(p, book, a);
    hide Step;
  }

  lemma FillFits(p: Portfolio, book: seq<Series>, a: Action)
    requires Step(p, book, a).Ok?
    ensures a.DoFill? ==> p.cash + a.premium <= U64_MAX && p.premiumReceived + a.premium <= U64_MAX
  {
    hide Validate, PortfolioReserve;
  }

  lemma CoversReserve(p: Portfolio, book: seq<Series>, a: Action)
    requires Step(p, book, a).Ok?
    ensures a.DoCancel? || a.DoLock? ==> Step(p, book, a).value.cash <= p.cash
  {
    hide Validate, PortfolioReserve;
  }

  /** A successful trade was possible. */
  lemma StepWasPossible(p: Portfolio, book: seq<Series>, a: Action)
    requires Trades(a) && Step(p, book, a).Ok?
    ensures Open(p) && Movable(p, book, a) && PayableAfter(p, book, a)
  {
    hide Step, Movable, HoldingsAfter, Payable;
    HoldingsFollow(p, book, a);
    WasMovable(p, book, a);
    WasPayable(p, book, a);
  }

  /** The holdings an action leaves are determined by what it asks. */
  lemma HoldingsAre(p: Portfolio, a: Action, q: Portfolio, committed: Quantities, locked: Quantities)
    requires HoldingsAfter(p, a, q)
    requires forall i :: 0 <= i < PORTFOLIO_SERIES ==>
                           && committed[i] == p.committed[i] + AskedIn(a, i).committed
                           && locked[i] == p.locked[i] + AskedIn(a, i).locked
    ensures q.committed == committed && q.locked == locked
  {}

  /** The basket's locks. */
  lemma LegsAre(p: Portfolio, book: seq<Series>, a: Action, q: Portfolio)
    requires a.DoBuyBack? && HoldingsAfter(p, a, q) && LockLegs(p, |book|, a.legs, PORTFOLIO_SERIES).Ok?
    ensures q.committed == p.committed && q.locked == LockLegs(p, |book|, a.legs, PORTFOLIO_SERIES).value
  {
    var locked := LockLegs(p, |book|, a.legs, PORTFOLIO_SERIES).value;
    forall i | 0 <= i < PORTFOLIO_SERIES ensures locked[i] == p.locked[i] + AskedIn(a, i).locked {
      LegsAdd(p, |book|, a.legs, PORTFOLIO_SERIES, i);
    }
    HoldingsAre(p, a, q, p.committed, locked);
  }

  lemma StepIsPossible(p: Portfolio, book: seq<Series>, a: Action)
    requires Trades(a) && Validate(p).Ok? && Open(p) && Movable(p, book, a) && PayableAfter(p, book, a)
    ensures Step(p, book, a).Ok?
  {
    hide PortfolioReserve, HoldingsAfter, LockLegs, Validate;
    var q :| HoldingsAfter(p, a, q) && Payable(p, book, a, q);
    match a
    case DoOpen(i, n, _) => HoldingsAre(p, a, q, p.committed[i := p.committed[i] + n], p.locked);
    case DoFill(_, _, _) =>
    case DoCancel(i, n) => HoldingsAre(p, a, q, p.committed[i := p.committed[i] - n], p.locked);
    case DoLock(i, n) => HoldingsAre(p, a, q, p.committed, p.locked[i := p.locked[i] + n]);
    case DoUnlock(i, n, _) => HoldingsAre(p, a, q, p.committed, p.locked[i := p.locked[i] - n]);
    case DoBuyBack(legs, _, _, _) =>
      LegsIff(p, |book|, legs);
      LegsAre(p, book, a, q);
  }

  /**
   * In every reachable portfolio a trade succeeds exactly while nothing was retired, funded or claimed, the contracts
   * it
   * names are there to be moved, and the reserve of what is then held can be met or released as the owner allowed.
   */
  lemma EveryRunTradesIff(book: seq<Series>, actions: seq<Action>, a: Action)
    requires ValidateBook(book).Ok? && Trades(a)
    ensures var p := Run(EMPTY, book, actions);
            Step(p, book, a).Ok? <==> Open(p) && Movable(p, book, a) && PayableAfter(p, book, a)
  {
    hide Run, Step, Movable, PayableAfter;
    EveryRunCovered(book, actions);
    var p := Run(EMPTY, book, actions);
    if Step(p, book, a).Ok? {
      StepWasPossible(p, book, a);
    } else if Open(p) && Movable(p, book, a) && PayableAfter(p, book, a) {
      StepIsPossible(p, book, a);
    }
  }
}
