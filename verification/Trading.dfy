/**
  Order management as one transition system: the quoter, the smoke-test round trip,
  reconciliation, the position and the kill switch over one order store. Every handler
  of the engine is one step; a step gives the state after it, or where the source
  throws, which ends the run, the calls that were made.
*/
module Trading {
  import opened Common
  import opened OrderIds
  import opened OrderLifecycle
  import opened OrderStore
  import opened Reconciliation
  import RateLimiter
  import Position

  /** What the engine is started with: the round trip's order and the quoter's instrument and size. */
  datatype Config = Config(tripInst: string, tripSide: string, tripPx: string, tripSz: string,
                           quoteInst: string, quoteSz: string)

  /** What one side of the quoter meets: the steady clock in nanoseconds, the wall clock in milliseconds, and whether its message fits the transmit ring. */
  datatype Turn = Turn(steady: int, wall: int, fits: bool)

  /** What the round trip meets: the socket, the wall clock, whether a message fits the ring and whether a REST cancel is answered. */
  datatype Link = Link(connected: bool, wall: int, fits: bool, answered: bool)

  /** How a REST placement ends: the transport throws, or the exchange answers. */
  datatype RestAnswer = NoAnswer | Refused | Accepted(ordId: Id)

  /** The formatted quote prices. */
  datatype Prices = Prices(bid: string, ask: string)

  /** Which response the round trip waits for under an id. */
  datatype Handler = OrderResponse | AmendResponse | CancelResponse

  /** What is asked of the socket and of the REST client. */
  datatype Action =
    | BatchBegun
    | BatchEnded
    | QuotePlaced(id: Id, side: string, px: string, at: int)
    | QuoteAmended(ordId: Id, px: string, at: int)
    | TripPlaced(id: Id)
    | TripAmended(ordId: Id)
    | TripCanceled(ordId: Id)
    | RestPlaced(id: Id)
    | RestCanceled(instId: string, ordId: Id)
    | RestListed
    | Subscribed

  /** One call and whether it went through; the one that did not threw. */
  datatype Call = Call(action: Action, ok: bool)

  /** `seen` is history: every client order id the exchange has listed so far. */
  datatype State = State(store: seq<Order>, lastId: nat, seen: set<Id>,
                         bid: Option<Id>, ask: Option<Id>, mid: Option<real>,
                         orderQueue: seq<int>, amendQueue: seq<int>,
                         triggered: bool, position: Position.Book,
                         tripId: Id, tripOrdId: Id, tracked: map<Id, Handler>,
                         log: seq<Call>, stopped: bool)

  /** A handler returns, or an exception leaves it with these calls made. */
  datatype Outcome = Done(state: State) | Threw(log: seq<Call>)

  /** A new engine; the id counter belongs to the process, which has placed an order before. */
  function Initial(counter: nat): State {
    State([], counter, {}, None, None, None, [], [], false, Position.FLAT, "", "", map[], [], false)
  }

  /** Everything called up to the end of the step, returned or thrown. */
  function Calls(r: Outcome): seq<Call> {
    match r case Done(s) => s.log case Threw(log) => log
  }

  function Sends(s: State, a: Action): State {
    s.(log := s.log + [Call(a, true)])
  }

  function Fails(s: State, a: Action): Outcome {
    Threw(s.log + [Call(a, false)])
  }

  // The quoter.

  function Side(buy: bool): string {
    if buy then "buy" else "sell"
  }

  function SlotOf(s: State, buy: bool): Option<Id> {
    if buy then s.bid else s.ask
  }

  function WithSlot(s: State, buy: bool, slot: Option<Id>): State {
    if buy then s.(bid := slot) else s.(ask := slot)
  }

  /** Both endpoints allow 60 calls in two seconds. */
  function TryAcquire(queue: seq<int>, now: int): RateLimiter.Answer {
    RateLimiter.TryQueue(60, 2_000_000_000, queue, now)
  }

  /** PlaceSide, with its result put into the slot of that side. */
  function PlaceInto(cfg: Config, s: State, buy: bool, px: string, c: Turn): Outcome {
    var a := TryAcquire(s.orderQueue, c.steady);
    var t := s.(orderQueue := a.queue);
    if !a.granted then Done(WithSlot(t, buy, None))
    else if |s.store| >= CAPACITY then Threw(s.log)
    else
      var n := NextId(s.lastId, c.wall);
      var id := ToString(n);
      var out := QuotePlaced(id, Side(buy), px, c.steady);
      if !c.fits then Fails(s, out)
      else
        Done(Sends(WithSlot(t, buy, Some(id)).(
             lastId := n,
             store := Insert(s.store, Placed(id, cfg.quoteInst, Side(buy), px, cfg.quoteSz))), out))
  }

  /** The side holds no order that could be amended: there is none, or its exchange id is not known yet. */
  predicate NeedsOrder(s: State, buy: bool) {
    match SlotOf(s, buy)
    case None => true
    case Some(id) => Lookup(s.store, id).None? || Lookup(s.store, id).value.ordId == ""
  }

  function AmendSide(s: State, o: Order, px: string, c: Turn): Outcome {
    var a := TryAcquire(s.amendQueue, c.steady);
    var t := s.(amendQueue := a.queue);
    if !a.granted then Done(t)
    else
      match OnAmendRequested(o)
      case None => Threw(s.log)
      case Some(amending) =>
        var out := QuoteAmended(o.ordId, px, c.steady);
        if !c.fits then Fails(s, out)
        else Done(Sends(t.(store := Put(s.store, amending), lastId := NextId(s.lastId, c.wall)), out))
  }

  function ReplaceSide(cfg: Config, s: State, buy: bool, px: string, c: Turn): Outcome {
    if NeedsOrder(s, buy) then PlaceInto(cfg, s, buy, px, c)
    else
      var o := Lookup(s.store, SlotOf(s, buy).value).value;
      if o.state == PendingAmend then Done(s) else AmendSide(s, o, px, c)
  }

  function ReplaceBoth(cfg: Config, s: State, px: Prices, c1: Turn, c2: Turn): Outcome {
    match ReplaceSide(cfg, s, true, px.bid, c1)
    case Threw(log) => Threw(log)
    case Done(t) => ReplaceSide(cfg, t, false, px.ask, c2)
  }

  function Requote(cfg: Config, s: State, mid: real, px: Prices, c1: Turn, c2: Turn): Outcome {
    match ReplaceBoth(cfg, Sends(s, BatchBegun), px, c1, c2)
    case Threw(log) => Threw(log)
    case Done(u) => Done(Sends(u, BatchEnded).(mid := Some(mid)))
  }

  /** The mid has moved by more than a hundredth of a basis point; division by zero is as in IEEE 754. */
  predicate Deviates(mid: real, last: real) {
    if last == 0.0 then mid != 0.0
    else (if mid < last then last - mid else mid - last) / last * 10000.0 > 0.01
  }

  function OnBookUpdate(cfg: Config, s: State, bestBid: Option<real>, bestAsk: Option<real>,
                        px: Prices, c1: Turn, c2: Turn): Outcome
  {
    if bestBid.None? || bestAsk.None? then Done(s)
    else
      var mid := (bestBid.value + bestAsk.value) / 2.0;
      if s.mid.None? || Deviates(mid, s.mid.value) then Requote(cfg, s, mid, px, c1, c2) else Done(s)
  }

  function FillSide(cfg: Config, s: State, buy: bool, px: string, c: Turn): Outcome {
    if SlotOf(s, buy).None? then PlaceInto(cfg, s, buy, px, c) else Done(s)
  }

  function FillBoth(cfg: Config, s: State, px: Prices, c1: Turn, c2: Turn): Outcome {
    match FillSide(cfg, s, true, px.bid, c1)
    case Threw(log) => Threw(log)
    case Done(t) => FillSide(cfg, t, false, px.ask, c2)
  }

  function OnTimer(cfg: Config, s: State, px: Prices, c1: Turn, c2: Turn): Outcome {
    if s.mid.None? then Done(s)
    else
      match FillBoth(cfg, Sends(s, BatchBegun), px, c1, c2)
      case Threw(log) => Threw(log)
      case Done(u) => Done(Sends(u, BatchEnded))
  }

  function OnOrderRemoved(s: State, id: Id): State {
    if s.bid == Some(id) then s.(bid := None)
    else if s.ask == Some(id) then s.(ask := None)
    else s
  }

  // Order events, the position and the kill switch.

  /** The store's Remove, which tells the quoter. */
  function RemoveOrder(s: State, id: Id): State {
    if Lookup(s.store, id).None? then s else OnOrderRemoved(s, id).(store := Without(s.store, id))
  }

  function ApplyOrderEvent(s: State, e: OrderEvent): Outcome {
    match Lookup(s.store, e.clOrdId)
    case None => Done(s)
    case Some(o) =>
      match ApplyEvent(o, e)
      case None => Threw(s.log)
      case Some(next) =>
        var t := s.(store := Put(s.store, next));
        Done(if Terminal(next.state) then RemoveOrder(t, next.clOrdId) else t)
  }

  /** One REST cancel for every stored order whose exchange id is known. */
  function Cancels(store: seq<Order>): seq<Action> {
    if store == [] then []
    else
      var o := store[|store| - 1];
      Cancels(store[..|store| - 1]) + (if o.ordId == "" then [] else [RestCanceled(o.instId, o.ordId)])
  }

  function Answered(actions: seq<Action>): (calls: seq<Call>)
    ensures |calls| == |actions|
    ensures forall k :: 0 <= k < |calls| ==> calls[k] == Call(actions[k], true)
  {
    seq(|actions|, k requires 0 <= k < |actions| => Call(actions[k], true))
  }

  /** The latch, then the cancels one by one; after `good` answers the next call throws. */
  function Trigger(s: State, good: nat): Outcome {
    var cancels := Cancels(s.store);
    if s.triggered then Done(s)
    else if |cancels| <= good then Done(s.(triggered := true, log := s.log + Answered(cancels)))
    else Threw(s.log + Answered(cancels[..good]) + [Call(cancels[good], false)])
  }

  function AfterFill(p: Position.Book, side: string, fill: Execution): Position.Book {
    Position.Fill(p, Position.Execution(if side == "buy" then Position.Buy else Position.Sell, fill.px, fill.sz))
  }

  function ApplyFill(s: State, side: string, fill: Execution, good: nat): Outcome {
    var t := s.(position := AfterFill(s.position, side, fill));
    if t.position.realizedPnl < -50.0 then Trigger(t, good) else Done(t)
  }

  predicate HasFill(e: OrderEvent) {
    (e.kind == Fill || e.kind == PartialFill) && e.fill.Some?
  }

  function HandleOrderEvent(s: State, e: OrderEvent, good: nat): Outcome {
    match if HasFill(e) then ApplyFill(s, e.side, e.fill.value, good) else Done(s)
    case Threw(log) => Threw(log)
    case Done(t) => ApplyOrderEvent(t, e)
  }

  // Reconciliation, and the round trip.

  function RemovedAll(s: State, removed: seq<Id>): State {
    if removed == [] then s
    else OnOrderRemoved(RemovedAll(s, removed[..|removed| - 1]), removed[|removed| - 1])
  }

  function ReconcileWith(s: State, ls: seq<Listed>): Outcome {
    match AdoptAll(s.store, ls)
    case None => Threw(s.log)
    case Some(t) =>
      Done(RemovedAll(s.(store := Keep(t, ListedIds(ls)), seen := s.seen + ListedIds(ls)), Drops(t, ListedIds(ls))))
  }

  /** The REST query, unless it throws, and then the reconciliation. */
  function ReconcileState(s: State, listed: Option<seq<Listed>>): Outcome {
    match listed
    case None => Fails(s, RestListed)
    case Some(ls) => ReconcileWith(Sends(s, RestListed), ls)
  }

  predicate Pending(state: OrderState) {
    state == PendingNew || state == PendingCancel || state == PendingAmend
  }

  /** Some stored order has been pending for too long. */
  predicate AnyOverdue(store: seq<Order>, overdue: set<Id>) {
    exists k :: 0 <= k < |store| && Pending(store[k].state) && store[k].clOrdId in overdue
  }

  /** The timeout check asks the exchange only when a pending order is overdue. */
  function CheckTimeouts(s: State, overdue: set<Id>, listed: Option<seq<Listed>>): Outcome {
    if AnyOverdue(s.store, overdue) then ReconcileState(s, listed) else Done(s)
  }

  function Track(tracked: map<Id, Handler>, id: Id, h: Handler): map<Id, Handler> {
    if id in tracked then tracked else tracked[id := h]
  }

  function RestCancel(cfg: Config, s: State, answered: bool): Outcome {
    var out := RestCanceled(cfg.tripInst, s.tripOrdId);
    if answered then Done(Sends(s, out)) else Fails(s, out)
  }

  /** Start when the socket is down: place by REST, and cancel by REST what was accepted. */
  function PlaceRest(cfg: Config, s: State, link: Link, rest: RestAnswer): Outcome {
    var n := NextId(s.lastId, link.wall);
    var out := RestPlaced(ToString(n));
    var t := Sends(s.(lastId := n), out);
    match rest
    case NoAnswer => Fails(s, out)
    case Refused => Done(t)
    case Accepted(ordId) => RestCancel(cfg, t.(tripOrdId := ordId), link.answered)
  }

  function StartTrip(cfg: Config, s: State, link: Link, rest: RestAnswer): Outcome {
    if !link.connected then PlaceRest(cfg, s, link, rest)
    else if |s.store| >= CAPACITY then Threw(s.log)
    else
      var n := NextId(s.lastId, link.wall);
      var id := ToString(n);
      if !link.fits then Fails(s, TripPlaced(id))
      else
        Done(Sends(s.(lastId := n, tripId := id,
                   store := Insert(s.store, Placed(id, cfg.tripInst, cfg.tripSide, cfg.tripPx, cfg.tripSz)),
                   tracked := Track(s.tracked, id, OrderResponse)), TripPlaced(id)))
  }

  /** After reconciling, nothing forbids the smoke-test order. */
  predicate MayStart(s: State, sizeOk: bool) {
    !s.triggered && sizeOk && |s.store| < 10
  }

  /** The login response: subscribe, reconcile, then place the smoke-test order if nothing forbids it. */
  function HandleLogin(cfg: Config, s: State, accepted: bool, fits: bool, listed: Option<seq<Listed>>, sizeOk: bool,
                       link: Link, rest: RestAnswer): Outcome
  {
    if !accepted then Done(s)
    else if !fits then Fails(s, Subscribed)
    else
      match ReconcileState(Sends(s, Subscribed), listed)
      case Threw(log) => Threw(log)
      case Done(t) => if MayStart(t, sizeOk) then StartTrip(cfg, t, link, rest) else Done(t)
  }

  /** The order waits for the answer to a request, the request goes out, and its response is tracked. */
  function Await(s: State, order: Order, link: Link, out: Action, h: Handler): Outcome {
    var n := NextId(s.lastId, link.wall);
    if !link.fits then Fails(s, out)
    else Done(Sends(s.(store := Put(s.store, order), lastId := n, tracked := Track(s.tracked, ToString(n), h)), out))
  }

  function OnOrderResponse(cfg: Config, s: State, accepted: bool, ordId: Option<Id>, link: Link): Outcome {
    if !accepted || ordId.None? then Done(s)
    else
      var t := s.(tripOrdId := ordId.value);
      if !link.connected then RestCancel(cfg, t, link.answered)
      else
        match Lookup(t.store, t.tripId)
        case None => Threw(t.log)
        case Some(o) =>
          match OnAmendRequested(o)
          case None => Threw(t.log)
          case Some(amending) => Await(t, amending, link, TripAmended(t.tripOrdId), AmendResponse)
  }

  /** The order of the round trip goes back to where it was. */
  function RejectRequest(s: State): Outcome {
    match Lookup(s.store, s.tripId)
    case None => Threw(s.log)
    case Some(o) =>
      match OnRequestRejected(o)
      case None => Threw(s.log)
      case Some(back) => Done(s.(store := Put(s.store, back)))
  }

  function OnAmendResponse(cfg: Config, s: State, accepted: bool, link: Link): Outcome {
    match if accepted then Done(s) else RejectRequest(s)
    case Threw(log) => Threw(log)
    case Done(t) =>
      if !link.connected then RestCancel(cfg, t, link.answered)
      else
        match Lookup(t.store, t.tripId)
        case None => Threw(t.log)
        case Some(o) =>
          match OnCancelRequested(o)
          case None => Threw(t.log)
          case Some(canceling) => Await(t, canceling, link, TripCanceled(t.tripOrdId), CancelResponse)
  }

  function OnCancelResponse(s: State, accepted: bool): Outcome {
    if accepted then Done(s) else RejectRequest(s)
  }

  /** A response is taken by the handler tracked under its id, once. */
  function Dispatch(cfg: Config, s: State, id: Id, accepted: bool, ordId: Option<Id>, link: Link): Outcome {
    if id !in s.tracked then Done(s)
    else
      var t := s.(tracked := s.tracked - {id});
      match s.tracked[id]
      case OrderResponse => OnOrderResponse(cfg, t, accepted, ordId, link)
      case AmendResponse => OnAmendResponse(cfg, t, accepted, link)
      case CancelResponse => OnCancelResponse(t, accepted)
  }

  // The engine.

  /**
    What happens to the engine; `good` is how many REST cancels would be answered before one throws,
    `overdue` the orders whose last request is older than the time-out.
  */
  datatype Input =
    | BookUpdate(authenticated: bool, bestBid: Option<real>, bestAsk: Option<real>, px: Prices, c1: Turn, c2: Turn)
    | QuoterTimer(authenticated: bool, px: Prices, c1: Turn, c2: Turn)
    | Login(accepted: bool, fits: bool, listed: Option<seq<Listed>>, sizeOk: bool, link: Link, rest: RestAnswer)
    | OrderMessage(event: OrderEvent, good: nat)
    | Response(id: Id, accepted: bool, ordId: Option<Id>, link: Link)
    | Timeout(overdue: set<Id>, listed: Option<seq<Listed>>)
    | Shutdown(good: nat)

  /** The gates of the engine around its handlers. */
  function Step(cfg: Config, s: State, input: Input): Outcome {
    match input
    case BookUpdate(authenticated, bestBid, bestAsk, px, c1, c2) =>
      if s.triggered || !authenticated then Done(s) else OnBookUpdate(cfg, s, bestBid, bestAsk, px, c1, c2)
    case QuoterTimer(authenticated, px, c1, c2) =>
      if s.triggered || !authenticated then Done(s) else OnTimer(cfg, s, px, c1, c2)
    case Login(accepted, fits, listed, sizeOk, link, rest) =>
      HandleLogin(cfg, s, accepted, fits, listed, sizeOk, link, rest)
    case OrderMessage(event, good) => HandleOrderEvent(s, event, good)
    case Response(id, accepted, ordId, link) => Dispatch(cfg, s, id, accepted, ordId, link)
    case Timeout(overdue, listed) => CheckTimeouts(s, overdue, listed)
    case Shutdown(good) =>
      match Trigger(s, good)
      case Threw(log) => Threw(log)
      case Done(t) => Done(t.(stopped := true))
  }

  predicate PlacesUnder(a: Action, ids: set<Id>) {
    (a.QuotePlaced? || a.TripPlaced?) && a.id in ids
  }

  /** None of the calls added to the log places an order under one of these ids. */
  ghost predicate FreshCalls(ids: set<Id>, before: seq<Call>, after: seq<Call>) {
    forall k :: |before| <= k < |after| ==> !PlacesUnder(after[k].action, ids)
  }

  /** The ids listed up to the placements of this step. */
  function ListedSoFar(s: State, input: Input): set<Id> {
    s.seen + if input.Login? && input.listed.Some? then ListedIds(input.listed.value) else {}
  }

  /** What is assumed of the world: an id the exchange has listed is not generated for an order later. */
  ghost predicate Allowed(cfg: Config, s: State, input: Input) {
    !s.stopped && FreshCalls(ListedSoFar(s, input), s.log, Calls(Step(cfg, s, input)))
  }

  /** `states[i]` is the engine after the first `i` inputs, from any id counter; a run goes on only while nothing throws. */
  ghost predicate IsRun(cfg: Config, states: seq<State>, inputs: seq<Input>) {
    && |states| == |inputs| + 1
    && states[0] == Initial(states[0].lastId)
    && forall i :: 0 <= i < |inputs| ==> StepAt(cfg, states, inputs, i)
  }

  ghost predicate StepAt(cfg: Config, states: seq<State>, inputs: seq<Input>, i: nat)
    requires |states| == |inputs| + 1 && i < |inputs|
  {
    Allowed(cfg, states[i], inputs[i]) && Step(cfg, states[i], inputs[i]) == Done(states[i + 1])
  }
}
