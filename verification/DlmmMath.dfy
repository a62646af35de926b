/** Integer arithmetic of one liquidity bin: full-width rounding, grid prices and an exact-input fill. */
module DlmmMath {
  import opened Numbers

  const PRICE_SCALE: int := 1_000_000

  datatype Error =
    | ArithmeticOverflow | DivisionByZero | InvalidAmount | InvalidBin | InvalidRoute
    | InsufficientLiquidity | MinimumOutputNotMet

  datatype Result<T> = Ok(value: T) | Err(error: Error) {
    predicate IsFailure() { Err? }
    function PropagateFailure<U>(): Result<U>
      requires Err?
    {
      Err(error)
    }
    function Extract(): T
      requires Ok?
    {
      value
    }
  }

  /** Paying quote for options climbs the bins, paying options for quote descends them. */
  datatype Direction = QuoteForOption | OptionForQuote

  datatype Bin = Bin(id: u16, options: u64, quote: u64)

  datatype BinFill = BinFill(id: u16, input: u64, output: u64, optionsAfter: u64, quoteAfter: u64)

  function Checked(v: int): Result<u64> {
    if 0 <= v <= U64_MAX then Ok(v) else Err(ArithmeticOverflow)
  }

  /** `floor_mul_div`: one machine word when the product fits, two otherwise. */
  function FloorMulDiv(a: u64, b: u64, d: u64): (r: Result<u64>)
    ensures r == if d == 0 then Err(DivisionByZero) else Checked(a * b / d)
  {
    if d == 0 then Err(DivisionByZero)
    else
      ProductFits(a, b);
      FloorGreatest(a * b, d, 0);
      if a * b <= U64_MAX then
        WordQuotient(a * b, d);
        Ok(a * b / d)
      else Checked(a * b / d)
  }

  lemma WordQuotient(n: int, d: int)
    requires 0 <= n <= U64_MAX && d > 0
    ensures 0 <= n / d && n / d + (if n % d != 0 then 1 else 0) <= U64_MAX && n / d <= U64_MAX
  {
    FloorBounds(n, d);
    FloorGreatest(n, d, 0);
    var q := n / d;
    if d >= 2 {
      MulMono(2, d, q);
    }
  }

  /** `ceil_mul_div`: both paths give the one checked ceiling, and the rounding addition never overflows. */
  function CeilMulDiv(a: u64, b: u64, d: u64): (r: Result<u64>)
    ensures r == if d == 0 then Err(DivisionByZero) else Checked(CeilDiv(a * b, d))
  {
    if d == 0 then Err(DivisionByZero)
    else
      ProductFits(a, b);
      if a * b <= U64_MAX then
        WordQuotient(a * b, d);
        Ok(a * b / d + if (a * b) % d != 0 then 1 else 0)
      else
        CeilByAddition(a * b, d);
        Checked((a * b + (d - 1)) / d)
  }

  lemma CeilByAddition(n: int, d: int)
    requires d > 0
    ensures (n + (d - 1)) / d == CeilDiv(n, d)
  {
    CeilBounds(n, d);
    var c := CeilDiv(n, d);
    FloorIs(n + (d - 1), d, c);
  }

  /** `price_from_bin`. */
  function PriceFromBin(tick: u64, maximumBin: u16, bin: u16): Result<u64> {
    if tick == 0 || bin == 0 || bin > maximumBin then Err(InvalidBin) else Checked(tick * bin)
  }

  /** `fill_bin_exact_input_without_fee`. */
  function FillBin(direction: Direction, remaining: u64, price: u64, bin: Bin): Result<BinFill> {
    if remaining == 0 || price == 0 then Err(InvalidAmount)
    else if direction.QuoteForOption? then
      if bin.options == 0 then Err(InvalidRoute)
      else
        var full :- CeilMulDiv(bin.options, price, PRICE_SCALE);
        var input := Min(remaining, full);
        var output: int :- if remaining >= full then Ok(bin.options) else FloorMulDiv(remaining, PRICE_SCALE, price);
        var options :- Checked(bin.options - output);
        var quote :- Checked(bin.quote + input);
        Ok(BinFill(bin.id, input, output, options, quote))
    else
      if bin.quote == 0 then Err(InvalidRoute)
      else
        var full :- CeilMulDiv(bin.quote, PRICE_SCALE, price);
        var input := Min(remaining, full);
        var output: int :- if remaining >= full then Ok(bin.quote) else FloorMulDiv(remaining, price, PRICE_SCALE);
        var options :- Checked(bin.options + input);
        var quote :- Checked(bin.quote - output);
        Ok(BinFill(bin.id, input, output, options, quote))
  }

  // ---- What one fill guarantees ----------------------------------------------------------------------

  /** What the trader's side is worth in the other asset: `gives` buys at most `gets`, both scaled. */
  function Worth(direction: Direction, gives: int, gets: int, price: int): (int, int) {
    if direction.QuoteForOption? then (gives * PRICE_SCALE, gets * price) else (gives * price, gets * PRICE_SCALE)
  }

  function Offer(direction: Direction, bin: Bin): u64 {
    if direction.QuoteForOption? then bin.options else bin.quote
  }

  /** A bin's reserves valued at its own price, in scaled quote atoms. */
  function BinValue(options: int, quote: int, price: int): int {
    options * price + quote * PRICE_SCALE
  }

  /** Rounded-up price of a whole offer: paying less than that never buys all of it. */
  lemma PartialBuysLess(reserve: nat, a: int, b: int, remaining: nat)
    requires a > 0 && b > 0 && remaining < CeilDiv(reserve * a, b)
    ensures 0 <= remaining * b / a < reserve
  {
    CeilBounds(reserve * a, b);
    var c := CeilDiv(reserve * a, b);
    MulMono(remaining, c - 1, b);
    assert remaining * b < reserve * a;
    FloorBounds(remaining * b, a);
    FloorGreatest(remaining * b, a, 0);
    var q := remaining * b / a;
    if q >= reserve { MulMono(reserve, q, a); }
  }

  /**
   * A fill takes at least one atom and at most what is offered to it, pays no more than the price allows, pays
   * exactly the floor unless it drains the bin, takes no atom more than draining it costs, and moves both reserves
   * by what was exchanged. Together this leaves one possible fill.
   */
  lemma FillFacts(direction: Direction, remaining: u64, price: u64, bin: Bin)
    requires FillBin(direction, remaining, price, bin).Ok?
    ensures var f := FillBin(direction, remaining, price, bin).value;
            var (paid, got) := Worth(direction, f.input, f.output, price);
            && f.id == bin.id && 1 <= f.input <= remaining && f.output <= Offer(direction, bin)
            && got <= paid
            && (f.input < remaining ==> f.output == Offer(direction, bin))
            && (f.output < Offer(direction, bin) ==>
                f.input == remaining && paid < Worth(direction, f.input, f.output + 1, price).1)
            && (f.output == Offer(direction, bin) ==> Worth(direction, f.input - 1, 0, price).0 < got)
            && (direction.QuoteForOption? ==>
                f.optionsAfter == bin.options - f.output && f.quoteAfter == bin.quote + f.input)
            && (direction.OptionForQuote? ==>
                f.optionsAfter == bin.options + f.input && f.quoteAfter == bin.quote - f.output)
  {
    if direction.QuoteForOption? {
      OneSide(bin.options, price, PRICE_SCALE, remaining);
    } else {
      OneSide(bin.quote, PRICE_SCALE, price, remaining);
    }
  }

  /** The rounding of a fill of `reserve` at the ratio `a / b`. */
  lemma OneSide(reserve: nat, a: int, b: int, remaining: nat)
    requires a > 0 && b > 0 && reserve > 0
    ensures CeilDiv(reserve * a, b) >= 1
    ensures (CeilDiv(reserve * a, b) - 1) * b < reserve * a <= CeilDiv(reserve * a, b) * b
    ensures remaining < CeilDiv(reserve * a, b) ==>
              var q := remaining * b / a; 0 <= q < reserve && q * a <= remaining * b < (q + 1) * a
  {
    MulMono(1, reserve, a);
    CeilBounds(reserve * a, b);
    AddScaled(CeilDiv(reserve * a, b), -1, b);
    if remaining < CeilDiv(reserve * a, b) {
      PartialBuysLess(reserve, a, b, remaining);
      FloorBounds(remaining * b, a);
      MulSucc(remaining * b / a, a);
    }
  }

  /** The whole offer's cost, rounded up. */
  function WholeCost(direction: Direction, price: int, offer: int): int
    requires price > 0
  {
    if direction.QuoteForOption? then CeilDiv(offer * price, PRICE_SCALE) else CeilDiv(offer * PRICE_SCALE, price)
  }

  /** A bin fills exactly when there is something on both sides, and its cost and the reserve it joins fit a word. */
  lemma FillIff(direction: Direction, remaining: u64, price: u64, bin: Bin)
    ensures FillBin(direction, remaining, price, bin).Ok? <==>
              && 0 < remaining && 0 < price && 0 < Offer(direction, bin)
              && WholeCost(direction, price, Offer(direction, bin)) <= U64_MAX
              && (if direction.QuoteForOption? then bin.quote else bin.options)
                 + Min(remaining, WholeCost(direction, price, Offer(direction, bin))) <= U64_MAX
  {
    if 0 < remaining && 0 < price && 0 < Offer(direction, bin) {
      if direction.QuoteForOption? {
        OneSide(bin.options, price, PRICE_SCALE, remaining);
      } else {
        OneSide(bin.quote, PRICE_SCALE, price, remaining);
      }
      hide CeilDiv;
    }
  }

  /** Offering a bin only what its fill takes fills it the same. */
  lemma FillAgain(direction: Direction, remaining: u64, price: u64, bin: Bin)
    requires FillBin(direction, remaining, price, bin).Ok?
    ensures var f := FillBin(direction, remaining, price, bin);
            FillBin(direction, f.value.input, price, bin) == f
  {
    FillFacts(direction, remaining, price, bin);
  }

  /** Every fill leaves the bin worth at least as much, at the bin's own price, as before. */
  lemma ValueNeverFalls(direction: Direction, remaining: u64, price: u64, bin: Bin)
    requires FillBin(direction, remaining, price, bin).Ok?
    ensures var f := FillBin(direction, remaining, price, bin).value;
            BinValue(bin.options, bin.quote, price) <= BinValue(f.optionsAfter, f.quoteAfter, price)
  {
    FillFacts(direction, remaining, price, bin);
    hide FillBin;
    var f := FillBin(direction, remaining, price, bin).value;
    ExchangeKeepsValue(direction, bin.options, bin.quote, f.input, f.output, price);
  }

  lemma ExchangeKeepsValue(direction: Direction, options: int, quote: int, input: int, output: int, price: int)
    requires Worth(direction, input, output, price).1 <= Worth(direction, input, output, price).0
    ensures direction.QuoteForOption? ==>
            BinValue(options, quote, price) <= BinValue(options - output, quote + input, price)
    ensures direction.OptionForQuote? ==>
            BinValue(options, quote, price) <= BinValue(options + input, quote - output, price)
  {
    AddScaled(options, -output, price);
    AddScaled(options, input, price);
  }

  /** Too little to be worth one atom of the other asset. */
  predicate Dusty(direction: Direction, remaining: int, price: int) {
    if direction.QuoteForOption? then remaining * PRICE_SCALE < price else remaining * price < PRICE_SCALE
  }

  /** A fill pays nothing exactly when what is offered to it is worth less than one atom at the price. */
  lemma DustBuysNothing(direction: Direction, remaining: u64, price: u64, bin: Bin)
    requires FillBin(direction, remaining, price, bin).Ok?
    ensures FillBin(direction, remaining, price, bin).value.output == 0 <==> Dusty(direction, remaining, price)
  {
    FillFacts(direction, remaining, price, bin);
    var f := FillBin(direction, remaining, price, bin).value;
    assert Offer(direction, bin) > 0;
    hide FillBin;
    var (unit, rate) := if direction.QuoteForOption? then (price, PRICE_SCALE) else (PRICE_SCALE, price);
    if f.output >= 1 {
      MulMono(1, f.output, unit);
      MulMono(f.input, remaining, rate);
    }
  }

  /**
   * One quote atom offered at just over two per option, or one option atom at half a quote: taken, and nothing paid.
   */
  lemma DustIsTaken()
    ensures FillBin(QuoteForOption, 1, 2_000_001, Bin(1, 5, 0)) == Ok(BinFill(1, 1, 0, 5, 1))
    ensures FillBin(OptionForQuote, 1, 500_000, Bin(1, 0, 5)) == Ok(BinFill(1, 1, 0, 1, 5))
  {}
}
