/** The position and the kill switch of every run, read off the order messages it was told of. */
module TradingPosition {
  import opened Common
  import opened OrderIds
  import opened OrderLifecycle
  import opened OrderStore
  import opened Reconciliation
  import opened Trading
  import opened TradingSafety
  import opened TradingLimits
  import Position

  /** The input tells of an execution. */
  predicate TellsFill(input: Input) {
    && input.OrderMessage? && input.event.fill.Some?
    && (input.event.kind == OrderLifecycle.Fill || input.event.kind == PartialFill)
  }

  /** The size bought, or sold. */
  function Traded(inputs: seq<Input>, buys: bool): real {
    if inputs == [] then 0.0
    else
      var last := inputs[|inputs| - 1];
      Traded(inputs[..|inputs| - 1], buys)
      + if TellsFill(last) && (last.event.side == "buy") == buys then last.event.fill.value.sz else 0.0
  }

  /** Money received for what was sold minus money paid for what was bought. */
  function Cash(inputs: seq<Input>): real {
    if inputs == [] then 0.0
    else
      var front, last := Cash(inputs[..|inputs| - 1]), inputs[|inputs| - 1];
      if !TellsFill(last) then front
      else if last.event.side == "buy" then front - last.event.fill.value.sz * last.event.fill.value.px
      else front + last.event.fill.value.sz * last.event.fill.value.px
  }

  function ExecutionOf(input: Input): Position.Execution
    requires TellsFill(input)
  {
    Position.Execution(if input.event.side == "buy" then Position.Buy else Position.Sell,
                       input.event.fill.value.px, input.event.fill.value.sz)
  }

  /** The executions told of, in order. */
  function Told(inputs: seq<Input>): seq<Position.Execution> {
    if inputs == [] then []
    else
      var last := inputs[|inputs| - 1];
      Told(inputs[..|inputs| - 1]) + if TellsFill(last) then [ExecutionOf(last)] else []
  }

  /** The profit realised: the cash moved plus what the lots still held have cost, taken off for a short position. */
  function Realized(inputs: seq<Input>): real {
    var cost := Position.Cost(Position.Lots(Told(inputs)));
    Cash(inputs) + if Traded(inputs, true) > Traded(inputs, false) then cost else -cost
  }

  // A step books exactly what it is told of.

  function Booked(b: Position.Book, input: Input): Position.Book {
    if TellsFill(input) then Position.Fill(b, ExecutionOf(input)) else b
  }

  lemma SideKeepsPosition(cfg: Config, s: State, buy: bool, px: string, c: Turn)
    ensures var r := ReplaceSide(cfg, s, buy, px, c); r.Done? ==> r.state.position == s.position
    ensures var r := FillSide(cfg, s, buy, px, c); r.Done? ==> r.state.position == s.position
  {
    hide Lookup, Put, Insert, ToString, TryAcquire, OnAmendRequested;
  }

  lemma QuoterKeepsPosition(cfg: Config, s: State, input: Input)
    requires ByQuoter(input)
    ensures var r := Step(cfg, s, input); r.Done? ==> r.state.position == s.position
  {
    hide ReplaceSide, FillSide, Deviates;
    var begun := Sends(s, BatchBegun);
    SideKeepsPosition(cfg, begun, true, input.px.bid, input.c1);
    var r, f := ReplaceSide(cfg, begun, true, input.px.bid, input.c1), FillSide(cfg, begun, true, input.px.bid, input.c1);
    if r.Done? {
      SideKeepsPosition(cfg, r.state, false, input.px.ask, input.c2);
    }
    if f.Done? {
      SideKeepsPosition(cfg, f.state, false, input.px.ask, input.c2);
    }
  }

  lemma LoginKeepsPosition(cfg: Config, s: State, input: Input)
    requires input.Login?
    ensures var r := Step(cfg, s, input); r.Done? ==> r.state.position == s.position
  {
    hide ReconcileState, Insert, ToString, Track;
    ReconcileSends(Sends(s, Subscribed), input.listed);
  }

  lemma OrderResponseKeepsPosition(cfg: Config, s: State, accepted: bool, ordId: Option<Id>, link: Link)
    ensures var r := OnOrderResponse(cfg, s, accepted, ordId, link); r.Done? ==> r.state.position == s.position
  {
    hide Lookup, Put, ToString, OnAmendRequested, Track;
  }

  lemma AmendResponseKeepsPosition(cfg: Config, s: State, accepted: bool, link: Link)
    ensures var r := OnAmendResponse(cfg, s, accepted, link); r.Done? ==> r.state.position == s.position
  {
    hide Lookup, Put, ToString, OnCancelRequested, OnRequestRejected, Track;
  }

  lemma ResponseKeepsPosition(cfg: Config, s: State, input: Input)
    requires input.Response?
    ensures var r := Step(cfg, s, input); r.Done? ==> r.state.position == s.position
  {
    hide Lookup, Put, OnOrderResponse, OnAmendResponse, OnRequestRejected;
    if input.id in s.tracked {
      var t := s.(tracked := s.tracked - {input.id});
      OrderResponseKeepsPosition(cfg, t, input.accepted, input.ordId, input.link);
      AmendResponseKeepsPosition(cfg, t, input.accepted, input.link);
    }
  }

  lemma EventBooks(s: State, e: OrderEvent, good: nat)
    ensures var r := HandleOrderEvent(s, e, good);
            r.Done? ==> r.state.position == Booked(s.position, OrderMessage(e, good))
  {
    hide ApplyOrderEvent, Cancels, Position.Fill;
    if HasFill(e) {
      match ApplyFill(s, e.side, e.fill.value, good)
      case Threw(_) =>
      case Done(t) => ApplySends(t, e);
    } else {
      ApplySends(s, e);
    }
  }

  lemma StepBooks(cfg: Config, s: State, input: Input)
    ensures var r := Step(cfg, s, input);
            r.Done? ==> r.state.position == Booked(s.position, input)
  {
    hide OnBookUpdate, OnTimer, HandleLogin, HandleOrderEvent, Dispatch, ReconcileState, Cancels, Position.Fill, AnyOverdue;
    match input
    case Login(_, _, _, _, _, _) => LoginKeepsPosition(cfg, s, input);
    case OrderMessage(event, good) => EventBooks(s, event, good);
    case Response(_, _, _, _) => ResponseKeepsPosition(cfg, s, input);
    case Timeout(_, listed) => ReconcileSends(s, listed);
    case Shutdown(good) =>
    case _ => QuoterKeepsPosition(cfg, s, input);
  }

  // Over runs.

  /** The position of the run is that of the executions told of, from flat. */
  lemma {:induction false} RunBooks(cfg: Config, states: seq<State>, inputs: seq<Input>, i: nat)
    returns (books: seq<Position.Book>)
    requires Trading.IsRun(cfg, states, inputs) && i <= |inputs|
    ensures Position.IsRun(books, Told(inputs[..i])) && books[0] == Position.FLAT
    ensures books[|books| - 1] == states[i].position
  {
    hide Step, Allowed, Position.Fill;
    if i == 0 {
      return [Position.FLAT];
    }
    var front := RunBooks(cfg, states, inputs, i - 1);
    var before, input := Told(inputs[..i - 1]), inputs[i - 1];
    assert Trading.StepAt(cfg, states, inputs, i - 1);
    StepBooks(cfg, states[i - 1], input);
    assert inputs[..i][..i - 1] == inputs[..i - 1];
    if !TellsFill(input) {
      assert before + [] == before;
      return front;
    }
    Position.RunExtends(front, before, ExecutionOf(input));
    books := front + [states[i].position];
  }

  lemma ExecutionAdded(es: seq<Position.Execution>, e: Position.Execution)
    ensures Position.NetQuantity(es + [e]) == Position.NetQuantity(es) + if e.side == Position.Buy then e.sz else -e.sz
    ensures Position.CashFlow(es + [e])
            == Position.CashFlow(es) + if e.side == Position.Buy then -(e.sz * e.px) else e.sz * e.px
  {
    assert (es + [e])[..|es|] == es;
  }

  lemma {:induction false} ToldSums(inputs: seq<Input>)
    ensures Position.NetQuantity(Told(inputs)) == Traded(inputs, true) - Traded(inputs, false)
    ensures Position.CashFlow(Told(inputs)) == Cash(inputs)
  {
    if inputs == [] {
    } else {
      hide Position.NetQuantity, Position.CashFlow;
      var front, last := inputs[..|inputs| - 1], inputs[|inputs| - 1];
      ToldSums(front);
      if TellsFill(last) {
        ExecutionAdded(Told(front), ExecutionOf(last));
      } else {
        assert Told(front) + [] == Told(front);
      }
    }
  }

  /**
    In every run: what is held is the size bought minus the size sold by the fills told of; realised plus
    unrealised profit at any mark is the cash of those fills plus what is held at the mark; and the
    average is the mean price of the lots still held, which fixes the profit realised.
  */
  lemma PositionIsTold(cfg: Config, states: seq<State>, inputs: seq<Input>, i: nat, mark: real)
    requires Trading.IsRun(cfg, states, inputs) && i <= |inputs|
    ensures var b, told := states[i].position, inputs[..i];
            && b.netQty == Traded(told, true) - Traded(told, false)
            && b.realizedPnl + b.UnrealizedPnl(mark) == Cash(told) + b.netQty * mark
            && b.realizedPnl == Realized(told)
            && Position.Averages(b, Position.Lots(Told(told)))
  {
    hide Step, Allowed, Position.Fill, Position.Lots, Position.Cost, Position.Averages, Told, Cash, Traded,
      Position.NetQuantity, Position.CashFlow;
    var books := RunBooks(cfg, states, inputs, i);
    var es := Told(inputs[..i]);
    assert es[..|es|] == es;
    ToldSums(inputs[..i]);
    Position.PnlConservation(books, es, mark, |es|);
    Position.WeightedAverageCost(books, es, |es|);
  }

  /** The switch was to go on: a shutdown, or a realised loss beyond 50 at some point. */
  predicate Tripped(inputs: seq<Input>) {
    inputs != [] && (Tripped(inputs[..|inputs| - 1]) || inputs[|inputs| - 1].Shutdown? || Realized(inputs) < -50.0)
  }

  lemma StepSwitches(cfg: Config, s: State, input: Input)
    requires Inv(s) && Step(cfg, s, input).Done?
    ensures var t := Step(cfg, s, input).state;
            t.triggered <==> s.triggered || input.Shutdown? || t.position.realizedPnl < -50.0
  {
    hide Step, Adds, CancelsMade, StoreOk, SlotOk, Position.Fill;
    StepBooks(cfg, s, input);
    if ByQuoter(input) {
      QuoterKeepsSwitch(cfg, s, input);
    } else {
      OtherSends(cfg, s, input);
    }
  }

  /** In every run the switch is on exactly when the fills told of, or a shutdown, have tripped it. */
  lemma {:induction false} TriggeredIff(cfg: Config, states: seq<State>, inputs: seq<Input>, i: nat)
    requires Trading.IsRun(cfg, states, inputs) && i <= |inputs|
    ensures states[i].triggered <==> Tripped(inputs[..i])
  {
    hide Step, Allowed, Inv, Realized;
    if i > 0 {
      TriggeredIff(cfg, states, inputs, i - 1);
      assert Trading.StepAt(cfg, states, inputs, i - 1);
      assert inputs[..i][..i - 1] == inputs[..i - 1];
      RunKeepsInv(cfg, states, inputs, i - 1);
      StepSwitches(cfg, states[i - 1], inputs[i - 1]);
      PositionIsTold(cfg, states, inputs, i, 0.0);
    }
  }
}
