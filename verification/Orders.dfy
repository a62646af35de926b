/** One-way escrow of a resting order: fills turn escrow into proceeds, never back into liquidity. */
module Orders {
  import opened Numbers

  const CONTRACT_SCALE: int := 1_000_000

  datatype Error = InvalidOrder | InvalidPrice | InsufficientEscrow | Overflow | NoCross

  datatype Result<T> = Ok(value: T) | Err(error: Error) {
    predicate IsFailure() { Err? }
    function PropagateFailure<U>(): Result<U>
      requires Err?
    {
      Err(error)
    }
    function Extract(): T
      requires Ok?
    {
      value
    }
  }

  datatype Side = Bid | Ask

  datatype Balance = Balance(
    side: Side, limit: u64, original: u64, quantity: u64, input: u64, claimableOption: u64, claimableQuote: u64)

  /** The quote for a quantity at a price, rounded up. */
  function QuoteOf(quantity: int, price: int): int {
    CeilDiv(quantity * price, CONTRACT_SCALE)
  }

  /** `quote_budget`. */
  function QuoteBudget(quantity: u64, price: u64): Result<u64> {
    if quantity == 0 || price == 0 then Err(InvalidOrder)
    else
      QuoteBounds(quantity, price);
      if QuoteOf(quantity, price) > U64_MAX then Err(Overflow) else Ok(QuoteOf(quantity, price))
  }

  lemma QuoteBounds(quantity: nat, price: nat)
    ensures QuoteOf(quantity, price) >= 0
    ensures (QuoteOf(quantity, price) - 1) * CONTRACT_SCALE < quantity * price
            <= QuoteOf(quantity, price) * CONTRACT_SCALE
    ensures quantity > 0 && price > 0 ==> QuoteOf(quantity, price) > 0
  {
    MulMono(0, quantity, price);
    CeilBounds(quantity * price, CONTRACT_SCALE);
    if quantity > 0 && price > 0 {
      MulMono(1, quantity, price);
    }
  }

  /** `OrderBalance::funded`. */
  function Funded(side: Side, quantity: u64, price: u64): Result<Balance> {
    var budget :- QuoteBudget(quantity, price);
    Ok(Balance(side, price, quantity, quantity, if side.Bid? then budget else quantity, 0, 0))
  }

  /** `release_unspendable_bid_remainder`. */
  function Released(b: Balance): Result<Balance> {
    if b.side.Ask? then Ok(b)
    else
      var unspendable :- if b.quantity == 0 then Ok(true) else CannotAffordOne(b);
      if !unspendable then Ok(b)
      else if b.claimableQuote + b.input > U64_MAX then Err(Overflow)
      else Ok(b.(quantity := 0, input := 0, claimableQuote := b.claimableQuote + b.input))
  }

  function CannotAffordOne(b: Balance): Result<bool> {
    var one :- QuoteBudget(1, b.limit);
    Ok(b.input < one)
  }

  predicate AcceptsPrice(b: Balance, price: u64) {
    price != 0 && if b.side.Bid? then price <= b.limit else price >= b.limit
  }

  /** `OrderBalance::fill`: the new balance and the quote exchanged. */
  function Filled(b: Balance, quantity: u64, price: u64): Result<(Balance, u64)> {
    if quantity == 0 || quantity > b.quantity then Err(InvalidOrder)
    else if !AcceptsPrice(b, price) then Err(InvalidPrice)
    else
      var quote :- QuoteBudget(quantity, price);
      if b.side.Bid? then
        if b.input < quote then Err(InsufficientEscrow)
        else if b.claimableOption + quantity > U64_MAX then Err(Overflow)
        else
          var next :- Released(b.(quantity := b.quantity - quantity, input := b.input - quote,
                                  claimableOption := b.claimableOption + quantity));
          Ok((next, quote))
      else
        if b.input < quantity then Err(InsufficientEscrow)
        else if b.claimableQuote + quote > U64_MAX then Err(Overflow)
        else Ok((b.(quantity := b.quantity - quantity, input := b.input - quantity,
                    claimableQuote := b.claimableQuote + quote), quote))
  }

  /** `OrderBalance::cancel`. */
  function Cancelled(b: Balance): Result<Balance> {
    if b.side.Bid? then
      if b.claimableQuote + b.input > U64_MAX then Err(Overflow)
      else Ok(b.(quantity := 0, input := 0, claimableQuote := b.claimableQuote + b.input))
    else
      if b.claimableOption + b.input > U64_MAX then Err(Overflow)
      else Ok(b.(quantity := 0, input := 0, claimableOption := b.claimableOption + b.input))
  }

  /** `OrderBalance::claim`. */
  function Claimed(b: Balance): Balance {
    b.(claimableOption := 0, claimableQuote := 0)
  }

  /** `OrderBalance::obligations`: options and quote the escrow must still hold for this order. */
  function Obligations(b: Balance): Result<(u64, u64)> {
    var options := b.claimableOption + if b.side.Ask? then b.input else 0;
    var quote := b.claimableQuote + if b.side.Bid? then b.input else 0;
    if options > U64_MAX || quote > U64_MAX then Err(Overflow) else Ok((options, quote))
  }

  /** The quantity a bid's escrow affords, saturating at the largest u64. */
  function Affordable(input: u64, price: u64): u64
    requires price > 0
  {
    FloorGreatest(input * CONTRACT_SCALE, price, 0);
    Min(input * CONTRACT_SCALE / price, U64_MAX)
  }

  function Crosses(bid: Balance, ask: Balance): bool {
    bid.side.Bid? && ask.side.Ask? && bid.limit >= ask.limit
  }

  function MatchQuantity(bid: Balance, ask: Balance, price: u64, maximum: u64): u64
    requires price > 0
  {
    Min(Min(Min(bid.quantity, ask.quantity), maximum), Affordable(bid.input, price))
  }

  /**
   * `match_pair`: both balances afterwards, the quantity and the quote. The older order sets the price; a zero price
   * is a division by zero there.
   */
  function Matched(bid: Balance, ask: Balance, bidIsOlder: bool, maximum: u64): Result<(Balance, Balance, u64, u64)>
    requires Crosses(bid, ask) ==> 0 < if bidIsOlder then bid.limit else ask.limit
  {
    if !Crosses(bid, ask) then Err(NoCross)
    else
      var price := if bidIsOlder then bid.limit else ask.limit;
      var quantity := MatchQuantity(bid, ask, price, maximum);
      var (nextBid, quote) :- Filled(bid, quantity, price);
      var (nextAsk, received) :- Filled(ask, quantity, price);
      if received != quote then Err(InvalidOrder) else Ok((nextBid, nextAsk, quantity, quote))
  }

  /** The quote of every match is the older order's limit on the traded quantity, rounded up. */
  lemma OlderSetsPrice(bid: Balance, ask: Balance, bidIsOlder: bool, maximum: u64)
    requires Crosses(bid, ask) ==> 0 < if bidIsOlder then bid.limit else ask.limit
    ensures var r := Matched(bid, ask, bidIsOlder, maximum);
            && (r.Ok? && bidIsOlder ==> r.value.3 == CeilDiv(r.value.2 * bid.limit, CONTRACT_SCALE))
            && (r.Ok? && !bidIsOlder ==> r.value.3 == CeilDiv(r.value.2 * ask.limit, CONTRACT_SCALE))
  {
    hide Released, MatchQuantity, CeilDiv;
  }

  // ---- The order object ---------------------------------------------------------------------------

  /** The order whose fields the program updates; every failing call leaves it untouched. */
  class Order {
    var side: Side
    var limit: u64
    var original: u64
    var quantity: u64
    var input: u64
    var claimableOption: u64
    var claimableQuote: u64

    function Value(): Balance
      reads this
    {
      Balance(side, limit, original, quantity, input, claimableOption, claimableQuote)
    }

    constructor (b: Balance)
      ensures Value() == b
    {
      side, limit, original, quantity := b.side, b.limit, b.original, b.quantity;
      input, claimableOption, claimableQuote := b.input, b.claimableOption, b.claimableQuote;
    }

    method Assign(b: Balance)
      modifies this
      ensures Value() == b
    {
      side, limit, original, quantity := b.side, b.limit, b.original, b.quantity;
      input, claimableOption, claimableQuote := b.input, b.claimableOption, b.claimableQuote;
    }

    method Release() returns (r: Result<()>)
      modifies this
      ensures r == (var f := Released(old(Value())); if f.Ok? then Ok(()) else Err(f.error))
      ensures Value() == if r.Ok? then Released(old(Value())).value else old(Value())
    {
      if side == Bid {
        var unspendable := quantity == 0;
        if !unspendable {
          var one := QuoteBudget(1, limit);
          if one.Err? { return Err(one.error); }
          unspendable := input < one.value;
        }
        if unspendable {
          if claimableQuote + input > U64_MAX { return Err(Overflow); }
          var claimable := claimableQuote + input;
          quantity := 0;
          input := 0;
          claimableQuote := claimable;
        }
      }
      return Ok(());
    }

    method Fill(amount: u64, price: u64) returns (r: Result<u64>)
      modifies this
      ensures r == (var f := Filled(old(Value()), amount, price); if f.Ok? then Ok(f.value.1) else Err(f.error))
      ensures Value() == if r.Ok? then Filled(old(Value()), amount, price).value.0 else old(Value())
    {
      if amount == 0 || amount > quantity { return Err(InvalidOrder); }
      if price == 0 || (if side == Bid then price > limit else price < limit) { return Err(InvalidPrice); }
      var quote := QuoteBudget(amount, price);
      if quote.Err? { return Err(quote.error); }
      var next := new Order(Value());
      next.quantity := next.quantity - amount;
      if side == Bid {
        if next.input < quote.value { return Err(InsufficientEscrow); }
        next.input := next.input - quote.value;
        if next.claimableOption + amount > U64_MAX { return Err(Overflow); }
        next.claimableOption := next.claimableOption + amount;
        var released := next.Release();
        if released.Err? { return Err(released.error); }
      } else {
        if next.input < amount { return Err(InsufficientEscrow); }
        next.input := next.input - amount;
        if next.claimableQuote + quote.value > U64_MAX { return Err(Overflow); }
        next.claimableQuote := next.claimableQuote + quote.value;
      }
      Assign(next.Value());
      return quote;
    }

    method Cancel() returns (r: Result<()>)
      modifies this
      ensures r == (var f := Cancelled(old(Value())); if f.Ok? then Ok(()) else Err(f.error))
      ensures Value() == if r.Ok? then Cancelled(old(Value())).value else old(Value())
    {
      if side == Bid {
        if claimableQuote + input > U64_MAX { return Err(Overflow); }
        claimableQuote := claimableQuote + input;
      } else {
        if claimableOption + input > U64_MAX { return Err(Overflow); }
        claimableOption := claimableOption + input;
      }
      input := 0;
      quantity := 0;
      return Ok(());
    }

    method Claim() returns (options: u64, quote: u64)
      modifies this
      ensures (options, quote) == (old(claimableOption), old(claimableQuote))
      ensures Value() == Claimed(old(Value()))
    {
      options, quote := claimableOption, claimableQuote;
      claimableOption := 0;
      claimableQuote := 0;
    }
  }

  /** `match_pair` on two order objects: both move together or neither does. */
  method MatchPair(bid: Order, ask: Order, bidIsOlder: bool, maximum: u64) returns (r: Result<(u64, u64)>)
    requires bid != ask
    requires Crosses(bid.Value(), ask.Value()) ==> 0 < if bidIsOlder then bid.limit else ask.limit
    modifies bid, ask
    ensures var m := Matched(old(bid.Value()), old(ask.Value()), bidIsOlder, maximum);
            && (m.Ok? ==> r == Ok((m.value.2, m.value.3)) && bid.Value() == m.value.0 && ask.Value() == m.value.1)
            && (m.Err? ==> r == Err(m.error) && bid.Value() == old(bid.Value()) && ask.Value() == old(ask.Value()))
    ensures r.Ok? ==>
              r.value.1 == CeilDiv(r.value.0 * (if bidIsOlder then old(bid.limit) else old(ask.limit)), CONTRACT_SCALE)
  {
    if bid.side != Bid || ask.side != Ask || bid.limit < ask.limit { return Err(NoCross); }
    var price := if bidIsOlder then bid.limit else ask.limit;
    var affordable := Affordable(bid.input, price);
    var quantity := Min(Min(Min(bid.quantity, ask.quantity), maximum), affordable);
    var nextBid := new Order(bid.Value());
    var nextAsk := new Order(ask.Value());
    OlderSetsPrice(bid.Value(), ask.Value(), bidIsOlder, maximum);
    hide Filled, QuoteOf;
    var quote := nextBid.Fill(quantity, price);
    if quote.Err? { return Err(quote.error); }
    var received := nextAsk.Fill(quantity, price);
    if received.Err? { return Err(received.error); }
    if received.value != quote.value { return Err(InvalidOrder); }
    bid.Assign(nextBid.Value());
    ask.Assign(nextAsk.Value());
    return Ok((quantity, quote.value));
  }
}
