/** Escrow over every run of fills, releases, cancels and claims, and what two crossing orders always achieve. */
module OrderRuns {
  import opened Numbers
  import opened Orders

  /** An order together with what passed through it since it was funded. */
  datatype Life = Life(balance: Balance, deposit: nat, optionTraded: nat, quoteTraded: nat, optionClaimed: nat,
                       quoteClaimed: nat)

  datatype Action = Fill(amount: u64, price: u64) | Release | Cancel | Claim

  function Born(side: Side, quantity: u64, price: u64): Result<Life> {
    var b :- Funded(side, quantity, price);
    Ok(Life(b, b.input, 0, 0, 0, 0))
  }

  /** One action; a rejected one changes nothing. */
  function Step(l: Life, a: Action): Life {
    match a
    case Fill(amount, price) =>
      var r := Filled(l.balance, amount, price);
      if r.Ok? then AfterFill(l, r.value.0, amount, r.value.1) else l
    case Release =>
      var r := Released(l.balance);
      if r.Ok? then l.(balance := r.value) else l
    case Cancel =>
      var r := Cancelled(l.balance);
      if r.Ok? then l.(balance := r.value) else l
    case Claim =>
      l.(balance := Claimed(l.balance), optionClaimed := l.optionClaimed + l.balance.claimableOption,
         quoteClaimed := l.quoteClaimed + l.balance.claimableQuote)
  }

  function AfterFill(l: Life, next: Balance, amount: nat, quote: nat): Life {
    l.(balance := next, optionTraded := l.optionTraded + amount, quoteTraded := l.quoteTraded + quote)
  }

  function Run(l: Life, actions: seq<Action>): Life {
    if actions == [] then l else Step(Run(l, actions[..|actions| - 1]), actions[|actions| - 1])
  }

  /** The escrow deposited is still held, traded away, or handed back; proceeds are held or handed over. */
  predicate Conserved(l: Life) {
    var b := l.balance;
    if b.side.Bid? then
      && l.deposit == b.input + l.quoteTraded + b.claimableQuote + l.quoteClaimed
      && l.optionTraded == b.claimableOption + l.optionClaimed
    else
      && l.deposit == b.input + l.optionTraded + b.claimableOption + l.optionClaimed
      && l.quoteTraded == b.claimableQuote + l.quoteClaimed
  }

  /** A bid with quantity left affords at least one atom at its limit; an ask's escrow is its quantity. */
  predicate Executable(b: Balance) {
    && b.limit > 0
    && (b.quantity == 0 ==> b.input == 0)
    && (b.side.Bid? ==> (b.quantity > 0 ==> QuoteOf(1, b.limit) <= b.input))
    && (b.side.Ask? ==> b.input == b.quantity)
  }

  /** Bounds the price sets on what a bid spent and an ask earned. */
  predicate WithinLimit(l: Life) {
    if l.balance.side.Bid? then QuoteOf(1, l.balance.limit) <= U64_MAX
    else l.optionTraded * l.balance.limit <= l.quoteTraded * CONTRACT_SCALE
  }

  /** What funding an order takes: the options of an ask, the whole rounded quote of a bid at its limit. */
  function DepositFor(side: Side, quantity: int, limit: int): int {
    if side.Ask? then quantity else CeilDiv(quantity * limit, CONTRACT_SCALE)
  }

  predicate Inv(l: Life) {
    && Conserved(l) && Executable(l.balance) && WithinLimit(l) && l.deposit <= U64_MAX
    && l.optionTraded + l.balance.quantity <= l.balance.original
    && l.deposit == DepositFor(l.balance.side, l.balance.original, l.balance.limit)
  }

  lemma QuoteMono(q: nat, q': nat, p: nat, p': nat)
    requires q <= q' && p <= p'
    ensures QuoteOf(q, p) <= QuoteOf(q', p')
  {
    MulMono(q, q', p);
    MulMono(p, p', q');
    CeilMono(q * p, q' * p', CONTRACT_SCALE);
  }

  lemma BornInv(side: Side, quantity: u64, price: u64)
    requires Born(side, quantity, price).Ok?
    ensures Inv(Born(side, quantity, price).value)
  {
    QuoteMono(1, quantity, price, price);
    QuoteBounds(quantity, price);
    hide QuoteOf;
  }

  /** An order is funded exactly when it has a quantity and a price whose whole quote fits a word. */
  lemma FundedIff(side: Side, quantity: u64, price: u64)
    ensures Born(side, quantity, price).Ok? <==>
              0 < quantity && 0 < price && CeilDiv(quantity * price, CONTRACT_SCALE) <= U64_MAX
  {
    QuoteBounds(quantity, price);
  }

  lemma ReleaseKeeps(l: Life)
    requires Conserved(l) && WithinLimit(l) && l.deposit <= U64_MAX && l.balance.limit > 0 && l.balance.side.Bid?
    ensures Released(l.balance).Ok?
    ensures var b := Released(l.balance).value;
            Conserved(l.(balance := b)) && Executable(b) && b.quantity <= l.balance.quantity && b.side.Bid?
            && b.limit == l.balance.limit && b.original == l.balance.original
  {
    QuoteBounds(1, l.balance.limit);
    hide QuoteOf;
  }

  lemma FillKeeps(l: Life, amount: u64, price: u64)
    requires Inv(l) && Filled(l.balance, amount, price).Ok?
    ensures Inv(Step(l, Fill(amount, price)))
  {
    var (next, quote) := Filled(l.balance, amount, price).value;
    var b := l.balance;
    if b.side.Bid? {
      var spent := b.(quantity := b.quantity - amount, input := b.input - quote,
                      claimableOption := b.claimableOption + amount);
      var l' := AfterFill(l, spent, amount, quote);
      ReleaseKeeps(l');
    } else {
      QuoteBounds(amount, price);
      MulMono(b.limit, price, amount);
      AddScaled(l.optionTraded, amount, b.limit);
    }
    hide QuoteOf;
  }

  predicate SameTerms(b: Balance, b': Balance) {
    b'.side == b.side && b'.limit == b.limit && b'.original == b.original
  }

  lemma StepKeeps(l: Life, a: Action)
    requires Inv(l)
    ensures Inv(Step(l, a)) && Step(l, a).deposit == l.deposit && SameTerms(l.balance, Step(l, a).balance)
  {
    match a
    case Fill(amount, price) => if Filled(l.balance, amount, price).Ok? { FillKeeps(l, amount, price); }
    case Release => if l.balance.side.Bid? { ReleaseKeeps(l); }
    case Cancel =>
    case Claim =>
  }

  /** Escrow is conserved, and a live bid stays executable, over every run from funding. */
  lemma {:induction false} EveryRunConserves(side: Side, quantity: u64, price: u64, actions: seq<Action>)
    requires Born(side, quantity, price).Ok?
    ensures var l := Run(Born(side, quantity, price).value, actions);
            && Inv(l) && l.balance.side == side && l.balance.limit == price && l.balance.original == quantity
            && l.deposit == DepositFor(side, quantity, price)
  {
    var start := Born(side, quantity, price).value;
    if actions == [] {
      BornInv(side, quantity, price);
    } else {
      EveryRunConserves(side, quantity, price, actions[..|actions| - 1]);
      StepKeeps(Run(start, actions[..|actions| - 1]), actions[|actions| - 1]);
    }
  }

  /**
   * In every reachable state release, cancel and the obligations never fail, the obligations are exactly
   * what custody still holds of this order, and an action that ends it hands everything back.
   */
  lemma EveryRunOwesCustody(side: Side, quantity: u64, price: u64, actions: seq<Action>)
    requires Born(side, quantity, price).Ok?
    ensures var l := Run(Born(side, quantity, price).value, actions);
            var o := Obligations(l.balance);
            && Released(l.balance).Ok? && Cancelled(l.balance).Ok? && o.Ok?
            && (l.balance.side.Bid? ==>
                  && o.value.1 + l.quoteTraded + l.quoteClaimed == l.deposit
                  && o.value.0 + l.optionClaimed == l.optionTraded)
            && (l.balance.side.Ask? ==>
                  && o.value.0 + l.optionTraded + l.optionClaimed == l.deposit
                  && o.value.1 + l.quoteClaimed == l.quoteTraded)
            && Obligations(Claimed(Cancelled(l.balance).value)) == Ok((0, 0))
  {
    EveryRunConserves(side, quantity, price, actions);
    var l := Run(Born(side, quantity, price).value, actions);
    hide Run, Born;
    if l.balance.side.Bid? { ReleaseKeeps(l); }
  }

  // ---- What one fill does -----------------------------------------------------------------------

  /** The order has the quantity, the price is acceptable to it, and its money can move. */
  predicate CanFill(b: Balance, amount: int, price: int) {
    var quote := CeilDiv(amount * price, CONTRACT_SCALE);
    && 0 < amount <= b.quantity && 0 < price
    && (b.side.Bid? ==> price <= b.limit && quote <= b.input)
    && (b.side.Ask? ==> b.limit <= price && b.claimableQuote + quote <= U64_MAX)
  }

  /**
   * A bid gets the options and pays the quote; when nothing more can be bought it ends and the rest of its escrow is
   * claimable. An ask gives the options and its quote is claimable.
   */
  predicate FilledTo(b: Balance, b': Balance, amount: int, quote: int) {
    && SameTerms(b, b')
    && (b.side.Ask? ==>
          && b'.quantity == b.quantity - amount && b'.input == b.input - amount
          && b'.claimableQuote == b.claimableQuote + quote && b'.claimableOption == b.claimableOption)
    && (b.side.Bid? ==>
          && b'.claimableOption == b.claimableOption + amount
          && if amount == b.quantity || b.input - quote < CeilDiv(b.limit, CONTRACT_SCALE) then
               && b'.quantity == 0 && b'.input == 0
               && b'.claimableQuote == b.claimableQuote + b.input - quote
             else
               && b'.quantity == b.quantity - amount && b'.input == b.input - quote
               && b'.claimableQuote == b.claimableQuote)
  }

  /**
   * In every reachable state an order fills exactly when it can, for the rounded-up quote, with exactly that effect.
   */
  lemma FillIff(l: Life, amount: u64, price: u64)
    requires Inv(l)
    ensures var r := Filled(l.balance, amount, price);
            && (r.Ok? <==> CanFill(l.balance, amount, price))
            && (r.Ok? ==> r.value.1 == CeilDiv(amount * price, CONTRACT_SCALE)
                          && FilledTo(l.balance, r.value.0, amount, r.value.1))
  {
    var b := l.balance;
    QuoteBounds(amount, price);
    if b.side.Bid? {
      if 0 < amount <= b.quantity && 0 < price <= b.limit && QuoteOf(amount, price) <= b.input {
        var quote := QuoteOf(amount, price);
        ReleaseKeeps(AfterFill(l, b.(quantity := b.quantity - amount, input := b.input - quote,
                                     claimableOption := b.claimableOption + amount), amount, quote));
      }
    }
    assert QuoteOf(1, b.limit) == CeilDiv(b.limit, CONTRACT_SCALE);
    hide CeilDiv;
  }

  /** Releasing never touches a reachable order that can still trade, and ending one leaves nothing in escrow. */
  lemma ReleaseAndCancelExact(l: Life)
    requires Inv(l)
    ensures Released(l.balance) == Ok(l.balance)
    ensures var b := l.balance;
            var c := Cancelled(b);
            && c.Ok? && c.value.quantity == 0 && c.value.input == 0 && SameTerms(b, c.value)
            && c.value.claimableQuote == b.claimableQuote + (if b.side.Bid? then b.input else 0)
            && c.value.claimableOption == b.claimableOption + (if b.side.Ask? then b.input else 0)
  {
    if l.balance.side.Bid? {
      ReleaseKeeps(l);
      QuoteBounds(1, l.balance.limit);
    }
    hide QuoteOf;
  }

  // ---- Matching -----------------------------------------------------------------------------------

  predicate Live(b: Balance) { b.quantity > 0 }

  /** What the escrow affords at the price is affordable with its ceiling, and one more atom is not. */
  lemma AffordableExact(input: u64, price: u64, quantity: u64)
    requires price > 0
    ensures quantity <= Affordable(input, price) ==> QuoteOf(quantity, price) <= input
    ensures quantity == Affordable(input, price) < U64_MAX ==> input * CONTRACT_SCALE < (quantity + 1) * price
  {
    var affordable := input * CONTRACT_SCALE / price;
    FloorBounds(input * CONTRACT_SCALE, price);
    if quantity <= Affordable(input, price) {
      MulMono(quantity, affordable, price);
      CeilLeast(quantity * price, CONTRACT_SCALE, input);
    }
    MulSucc(quantity, price);
  }

  lemma AffordsOne(b: Balance, price: u64)
    requires b.side.Bid? && Live(b) && Executable(b) && 0 < price <= b.limit
    ensures Affordable(b.input, price) >= 1
  {
    QuoteBounds(1, b.limit);
    MulMono(QuoteOf(1, b.limit), b.input, CONTRACT_SCALE);
    FloorGreatest(b.input * CONTRACT_SCALE, price, 1);
  }

  /** Filling a bid within what it affords always succeeds. */
  lemma BidFills(l: Life, quantity: u64, price: u64)
    requires Inv(l) && l.balance.side.Bid? && 0 < quantity <= l.balance.quantity && 0 < price <= l.balance.limit
    requires quantity <= Affordable(l.balance.input, price)
    ensures Filled(l.balance, quantity, price).Ok?
            && Filled(l.balance, quantity, price).value.1 == QuoteOf(quantity, price)
  {
    var b := l.balance;
    AffordableExact(b.input, price, quantity);
    QuoteBounds(quantity, price);
    hide QuoteOf;
    var quote := QuoteOf(quantity, price);
    var spent := b.(quantity := b.quantity - quantity, input := b.input - quote,
                    claimableOption := b.claimableOption + quantity);
    ReleaseKeeps(AfterFill(l, spent, quantity, quote));
  }

  /** Two reachable orders that cross, both with quantity left. */
  predicate Crossing(bid: Life, ask: Life) {
    Inv(bid) && Inv(ask) && Crosses(bid.balance, ask.balance) && Live(bid.balance) && Live(ask.balance)
  }

  /** The greatest trade both sides have, the caller wants and the bid's escrow pays for, at its rounded-up quote. */
  predicate GreatestTrade(bid: Balance, ask: Balance, price: int, maximum: int, quantity: int, quote: int) {
    && 1 <= quantity <= Min(Min(bid.quantity, ask.quantity), maximum)
    && 1 <= quote == CeilDiv(quantity * price, CONTRACT_SCALE) <= bid.input
    && (quantity < Min(Min(bid.quantity, ask.quantity), maximum) ==>
          bid.input < CeilDiv((quantity + 1) * price, CONTRACT_SCALE))
  }

  lemma MatchQuantityIsGreatest(bid: Balance, ask: Balance, price: u64, maximum: u64)
    requires bid.side.Bid? && Live(bid) && Executable(bid) && Live(ask) && 0 < price <= bid.limit && maximum > 0
    ensures var quantity := MatchQuantity(bid, ask, price, maximum);
            GreatestTrade(bid, ask, price, maximum, quantity, QuoteOf(quantity, price))
  {
    var quantity := MatchQuantity(bid, ask, price, maximum);
    AffordsOne(bid, price);
    AffordableExact(bid.input, price, quantity);
    QuoteBounds(quantity, price);
    if quantity < Min(Min(bid.quantity, ask.quantity), maximum) {
      NextUnaffordable(bid.input, quantity + 1, price);
    }
  }

  lemma NextUnaffordable(input: int, quantity: int, price: int)
    requires input * CONTRACT_SCALE < quantity * price
    ensures input < CeilDiv(quantity * price, CONTRACT_SCALE)
  {
    CeilBounds(quantity * price, CONTRACT_SCALE);
  }

  /**
   * A positive match of crossing live orders trades the greatest affordable quantity at the older order's limit. It
   * fails only by overflow, exactly when the ask's proceeds would leave u64; otherwise both sides move by the same
   * options and quote.
   */
  lemma MatchSucceeds(bid: Life, ask: Life, bidIsOlder: bool, maximum: u64) returns (quantity: u64, quote: u64)
    requires Crossing(bid, ask) && maximum > 0
    ensures bidIsOlder ==> GreatestTrade(bid.balance, ask.balance, bid.balance.limit, maximum, quantity, quote)
    ensures !bidIsOlder ==> GreatestTrade(bid.balance, ask.balance, ask.balance.limit, maximum, quantity, quote)
    ensures var r := Matched(bid.balance, ask.balance, bidIsOlder, maximum);
            && (r.Ok? <==> ask.balance.claimableQuote + quote <= U64_MAX)
            && (r.Err? ==> r.error == Overflow)
            && (r.Ok? ==>
                  && (r.value.2, r.value.3) == (quantity, quote)
                  && Inv(AfterFill(bid, r.value.0, quantity, quote))
                  && Inv(AfterFill(ask, r.value.1, quantity, quote)))
  {
    var price := if bidIsOlder then bid.balance.limit else ask.balance.limit;
    quantity := MatchQuantity(bid.balance, ask.balance, price, maximum);
    MatchQuantityIsGreatest(bid.balance, ask.balance, price, maximum);
    BidFills(bid, quantity, price);
    QuoteBounds(quantity, price);
    hide GreatestTrade;
    AskFills(ask, quantity, price);
    FillKeeps(bid, quantity, price);
    if Filled(ask.balance, quantity, price).Ok? { FillKeeps(ask, quantity, price); }
    hide QuoteOf, Filled, Inv, Affordable;
    quote := QuoteOf(quantity, price);
  }

  lemma AskFills(l: Life, quantity: u64, price: u64)
    requires Inv(l) && l.balance.side.Ask? && 0 < quantity <= l.balance.quantity && l.balance.limit <= price
    requires 0 <= QuoteOf(quantity, price) <= U64_MAX
    ensures var r := Filled(l.balance, quantity, price);
            && (r.Ok? <==> l.balance.claimableQuote + QuoteOf(quantity, price) <= U64_MAX)
            && (r.Ok? ==> r.value.1 == QuoteOf(quantity, price))
            && (r.Err? ==> r.error == Overflow)
  {
    hide QuoteOf;
  }

  /** A match moves options and quote between the two sides and creates or loses none. */
  lemma MatchMovesObligations(bid: Life, ask: Life, bidIsOlder: bool, maximum: u64)
    requires Crossing(bid, ask) && maximum > 0 && Matched(bid.balance, ask.balance, bidIsOlder, maximum).Ok?
    ensures var (bid', ask', quantity, quote) := Matched(bid.balance, ask.balance, bidIsOlder, maximum).value;
            var (b, a) := (Obligations(bid.balance).value, Obligations(ask.balance).value);
            && Obligations(bid') == Ok((b.0 + quantity, b.1 - quote))
            && Obligations(ask') == Ok((a.0 - quantity, a.1 + quote))
  {
    var (bid', ask', quantity, quote) := Matched(bid.balance, ask.balance, bidIsOlder, maximum).value;
    var _, _ := MatchSucceeds(bid, ask, bidIsOlder, maximum);
    SidesKept(bid.balance, ask.balance, bidIsOlder, maximum);
    hide Matched, QuoteOf;
    InvOwes(bid);
    InvOwes(ask);
    InvOwes(AfterFill(bid, bid', quantity, quote));
    InvOwes(AfterFill(ask, ask', quantity, quote));
  }

  lemma SidesKept(bid: Balance, ask: Balance, bidIsOlder: bool, maximum: u64)
    requires bid.limit > 0 && ask.limit > 0 && Matched(bid, ask, bidIsOlder, maximum).Ok?
    ensures var (bid', ask', _, _) := Matched(bid, ask, bidIsOlder, maximum).value; bid'.side.Bid? && ask'.side.Ask?
  {
    hide QuoteOf, MatchQuantity;
  }

  lemma InvOwes(l: Life)
    requires Inv(l)
    ensures var o := Obligations(l.balance);
            && o.Ok?
            && (l.balance.side.Bid? ==>
                o.value == (l.optionTraded - l.optionClaimed, l.deposit - l.quoteTraded - l.quoteClaimed))
            && (l.balance.side.Ask? ==>
                o.value == (l.deposit - l.optionTraded - l.optionClaimed, l.quoteTraded - l.quoteClaimed))
  {
    hide Executable, WithinLimit;
  }

  /**
   * A match never stops short: afterwards the bid is spent, the ask is sold, or the requested maximum was
   * reached, so a book of live heads always makes progress.
   */
  lemma MatchExhausts(bid: Life, ask: Life, bidIsOlder: bool, maximum: u64)
    requires Crossing(bid, ask) && maximum > 0 && Matched(bid.balance, ask.balance, bidIsOlder, maximum).Ok?
    ensures var (bid', ask', quantity, _) := Matched(bid.balance, ask.balance, bidIsOlder, maximum).value;
            !Live(bid') || !Live(ask') || quantity == maximum
  {
    var _, _ := MatchSucceeds(bid, ask, bidIsOlder, maximum);
    var b := bid.balance;
    var price := if bidIsOlder then b.limit else ask.balance.limit;
    var (bid', ask', quantity, quote) := Matched(b, ask.balance, bidIsOlder, maximum).value;
    if quantity < b.quantity && quantity < ask.balance.quantity && quantity < maximum {
      AffordableExact(b.input, price, quantity);
      QuoteBounds(quantity, price);
      QuoteBounds(1, b.limit);
      MulSucc(quantity, price);
      NothingLeft(b.input, quote, quantity * price, price, QuoteOf(1, b.limit));
      hide QuoteOf;
      assert b.input - quote < QuoteOf(1, b.limit);
    }
  }

  /** Less than one price of slack before rounding leaves less than one rounded price after it. */
  lemma NothingLeft(input: int, quote: int, cost: int, price: int, one: int)
    requires input * CONTRACT_SCALE < cost + price && cost <= quote * CONTRACT_SCALE && price <= one * CONTRACT_SCALE
    ensures input - quote < one
  {}

  /** So any two orders, whatever happened to each since funding, match as described once they are live and cross. */
  lemma EveryRunMatches(bidQuantity: u64, bidPrice: u64, bidActions: seq<Action>, askQuantity: u64, askPrice: u64,
                        askActions: seq<Action>, bidIsOlder: bool, maximum: u64) returns (quantity: u64, quote: u64)
    requires Born(Bid, bidQuantity, bidPrice).Ok? && Born(Ask, askQuantity, askPrice).Ok? && maximum > 0
    requires var (bid, ask) :=
             (Run(Born(Bid, bidQuantity, bidPrice).value, bidActions),
              Run(Born(Ask, askQuantity, askPrice).value, askActions));
             Crosses(bid.balance, ask.balance) && Live(bid.balance) && Live(ask.balance)
    ensures var (bid, ask) :=
            (Run(Born(Bid, bidQuantity, bidPrice).value, bidActions),
             Run(Born(Ask, askQuantity, askPrice).value, askActions));
            && Crossing(bid, ask)
            && (bidIsOlder ==> GreatestTrade(bid.balance, ask.balance, bidPrice, maximum, quantity, quote))
            && (!bidIsOlder ==> GreatestTrade(bid.balance, ask.balance, askPrice, maximum, quantity, quote))
            && var r := Matched(bid.balance, ask.balance, bidIsOlder, maximum);
               && (r.Ok? <==> ask.balance.claimableQuote + quote <= U64_MAX)
               && (r.Err? ==> r.error == Overflow)
               && (r.Ok? ==>
                     && (r.value.2, r.value.3) == (quantity, quote)
                     && (!Live(r.value.0) || !Live(r.value.1) || r.value.2 == maximum))
  {
    EveryRunConserves(Bid, bidQuantity, bidPrice, bidActions);
    EveryRunConserves(Ask, askQuantity, askPrice, askActions);
    var (bid, ask) := (Run(Born(Bid, bidQuantity, bidPrice).value, bidActions),
                       Run(Born(Ask, askQuantity, askPrice).value, askActions));
    hide Run, Born, Inv, Matched, GreatestTrade;
    quantity, quote := MatchSucceeds(bid, ask, bidIsOlder, maximum);
    if Matched(bid.balance, ask.balance, bidIsOlder, maximum).Ok? { MatchExhausts(bid, ask, bidIsOlder, maximum); }
  }
}
