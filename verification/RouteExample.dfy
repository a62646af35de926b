/** A route whose last bin takes the trader's change and pays nothing for it. */
module RouteExample {
  import opened Numbers
  import opened Wrappers
  import opened DlmmMath
  import Orders
  import opened RouteModel
  import opened RouteSteps
  import opened RouteLoop
  import opened RouteQuote

  /** Ten quote atoms, a resting ask of five options at three quote each, then an ordinary bin at six. */
  const CHANGE: Job := Job(
    Config(QuoteForOption, 10, 1, 2, 3_000_000, 2, 8, None), Limits(false, U64_MAX, 8),
    Sources([Bin(2, 5, 0)], [], [RestingOrder(1, 1, Orders.Ask, 5, 5, 5, 0, 0)]), None, false)

  const ASK: Orders.Balance := Orders.Balance(Orders.Ask, 3_000_000, 5, 5, 5, 0, 0)

  const ASK_AFTER: Orders.Balance := Orders.Balance(Orders.Ask, 3_000_000, 5, 2, 2, 0, 9)

  const START: State := FRESH_START.(remaining := 10)

  const AFTER_ASK: State := START.(remaining := 1, orderCursor := 1, orderFills := [OrderFill(1, 3, 9, ASK_AFTER)],
                                   fills := [BinFill(1, 9, 3, 0, 0)], amountOut := 3)

  const AFTER_BIN: State := AFTER_ASK.(remaining := 0, ordinaryIndex := 1, ordinaryFills := [BinFill(2, 1, 0, 5, 1)],
                                       fills := [BinFill(1, 9, 3, 0, 0), BinFill(2, 1, 0, 5, 1)])

  lemma AskTrades()
    ensures BalanceOf(CHANGE.src.orders[0], 3_000_000) == Ok(ASK)
    ensures OrderQuantity(CHANGE.c, CHANGE.limits, Work(START, 0, 0), ASK, 3_000_000) == 3
    ensures Orders.Filled(ASK, 3, 3_000_000) == Orders.Ok((ASK_AFTER, 9))
  {}

  lemma FirstVisit()
    ensures Visit(CHANGE, START, 1, 3_000_000) == Ok((AFTER_ASK, false))
  {
    AskTrades();
    hide Orders.Filled, OrderQuantity, BalanceOf;
    var w := Work(START.(remaining := 1, orderCursor := 1, orderFills := [OrderFill(1, 3, 9, ASK_AFTER)]), 9, 3);
    assert [] + w.s.orderFills == w.s.orderFills && [] + AFTER_ASK.fills == AFTER_ASK.fills;
    assert OrdinaryStep(CHANGE, START, 1, 3_000_000) == Ok((Work(START, 0, 0), 0, 0));
    assert TakeOrder(CHANGE, Work(START, 0, 0), 1, 3_000_000) == Ok((w, false));
    assert TakeOrders(CHANGE, w, 1, 3_000_000) == Ok((w, false));
    assert TakeOrders(CHANGE, Work(START, 0, 0), 1, 3_000_000) == Ok((w, false));
    hide OrdinaryStep, TakeOrders;
    assert StageStep(CHANGE, START, 1, 3_000_000) == Ok((w, false, 0, 0));
  }

  lemma SecondVisit()
    ensures Visit(CHANGE, AFTER_ASK, 2, 6_000_000) == Ok((AFTER_BIN, false))
  {
    var f := BinFill(2, 1, 0, 5, 1);
    assert FillBin(QuoteForOption, 1, 6_000_000, Bin(2, 5, 0)) == Ok(f);
    hide FillBin;
    var w := AfterOrdinary(AFTER_ASK, f);
    assert [] + [f] == [f] && AFTER_ASK.fills + [f] == AFTER_BIN.fills;
    assert OrdinaryStep(CHANGE, AFTER_ASK, 2, 6_000_000) == Ok((w, 5, 1));
    assert TakeOrders(CHANGE, w, 2, 6_000_000) == Ok((w, false));
    hide OrdinaryStep, TakeOrders;
    assert StageStep(CHANGE, AFTER_ASK, 2, 6_000_000) == Ok((w, false, 5, 1));
  }

  /** The route succeeds: nine atoms buy three options from the ask, the tenth goes to the next bin for nothing. */
  lemma ChangeIsTaken()
    ensures Validated(CHANGE.c, CHANGE.src, CHANGE.policy, CHANGE.limits)
    ensures RouteSpec(CHANGE) == Ok(Route(10, AFTER_BIN))
  {
    FirstVisit();
    SecondVisit();
    hide Visit;
    var round := RoundOf(CHANGE);
    assert NextPrice(CHANGE, START) == Ok(Some((1, 3_000_000)));
    assert NextPrice(CHANGE, AFTER_ASK) == Ok(Some((2, 6_000_000)));
    hide NextPrice;
    assert round(START) == Ok((AFTER_ASK, false));
    assert round(AFTER_ASK) == Ok((AFTER_BIN, false));
    assert Rounds(round, AFTER_BIN, 0) == Ok(AFTER_BIN);
    assert Rounds(round, AFTER_ASK, 1) == Ok(AFTER_BIN);
    assert Rounds(round, START, 2) == Ok(AFTER_BIN);
  }
}
