/** What the smoke-test round trip asks for, and what the other handlers do to the store. */
module TradingTrip {
  import opened Common
  import opened OrderIds
  import opened OrderLifecycle
  import opened OrderStore
  import opened Reconciliation
  import opened Trading
  import opened TradingSafety
  import opened TradingLimits
  import TradingPosition

  /** No tracked id is generated again, and an order response is awaited only for an order that was placed. */
  ghost predicate TripInv(s: State) {
    forall id :: id in s.tracked ==>
      NotFuture(id, s.lastId) && (s.tracked[id] == OrderResponse ==> Call(TripPlaced(id), true) in s.log)
  }

  /** Calls are only added, the counter only grows, and nothing new is tracked. */
  ghost predicate Onward(s: State, t: State) {
    && s.log <= t.log && s.lastId <= t.lastId
    && forall id :: id in t.tracked ==> id in s.tracked && t.tracked[id] == s.tracked[id]
  }

  lemma OnwardKeeps(s: State, t: State)
    requires TripInv(s) && Onward(s, t)
    ensures TripInv(t)
  {
    forall id | id in t.tracked
      ensures NotFuture(id, t.lastId) && (t.tracked[id] == OrderResponse ==> Call(TripPlaced(id), true) in t.log)
    {
      assert forall k :: 0 <= k < |s.log| ==> s.log[k] == t.log[k];
    }
  }

  /** A new id is tracked on top. */
  lemma TrackKeeps(s: State, wall: int, h: Handler, log: seq<Call>)
    requires TripInv(s) && s.log <= log
    requires h == OrderResponse ==> Call(TripPlaced(ToString(NextId(s.lastId, wall))), true) in log
    ensures var n := NextId(s.lastId, wall);
            && ToString(n) !in s.tracked
            && TripInv(s.(lastId := n, tracked := Track(s.tracked, ToString(n), h), log := log))
  {
    hide ToString;
    var n := NextId(s.lastId, wall);
    GeneratedIsFresh(s.lastId, wall);
    OnwardKeeps(s, s.(lastId := n, log := log));
  }

  // The quoter.

  lemma SideOnward(cfg: Config, s: State, buy: bool, px: string, c: Turn)
    ensures var r := ReplaceSide(cfg, s, buy, px, c); r.Done? ==> Onward(s, r.state) && r.state.tripOrdId == s.tripOrdId
    ensures var r := FillSide(cfg, s, buy, px, c); r.Done? ==> Onward(s, r.state) && r.state.tripOrdId == s.tripOrdId
  {
    hide Lookup, Put, Insert, ToString, TryAcquire, OnAmendRequested, Onward;
    SideGrows(cfg, s, buy, px, c);
    SideCounts(cfg, s, buy, px, c);
    var r, f := ReplaceSide(cfg, s, buy, px, c), FillSide(cfg, s, buy, px, c);
    if r.Done? {
      SameIsOnward(s, r.state);
    }
    if f.Done? {
      SameIsOnward(s, f.state);
    }
  }

  lemma SameIsOnward(s: State, t: State)
    requires s.log <= t.log && s.lastId <= t.lastId && t.tracked == s.tracked
    ensures Onward(s, t)
  {
  }

  lemma SideCounts(cfg: Config, s: State, buy: bool, px: string, c: Turn)
    ensures var r := ReplaceSide(cfg, s, buy, px, c); r.Done? ==> s.lastId <= r.state.lastId && r.state.tracked == s.tracked
    ensures var r := FillSide(cfg, s, buy, px, c); r.Done? ==> s.lastId <= r.state.lastId && r.state.tracked == s.tracked
  {
    hide Lookup, Put, Insert, ToString, TryAcquire, OnAmendRequested;
  }

  lemma OnwardOn(s: State, t: State, u: State)
    requires Onward(s, t) && Onward(t, u)
    ensures Onward(s, u)
  {
  }

  lemma BothOnward(cfg: Config, s: State, px: Prices, c1: Turn, c2: Turn)
    ensures var r := ReplaceBoth(cfg, s, px, c1, c2); r.Done? ==> Onward(s, r.state) && r.state.tripOrdId == s.tripOrdId
    ensures var r := FillBoth(cfg, s, px, c1, c2); r.Done? ==> Onward(s, r.state) && r.state.tripOrdId == s.tripOrdId
  {
    hide ReplaceSide, FillSide, Onward;
    SideOnward(cfg, s, true, px.bid, c1);
    var r, f := ReplaceSide(cfg, s, true, px.bid, c1), FillSide(cfg, s, true, px.bid, c1);
    if r.Done? {
      SideOnward(cfg, r.state, false, px.ask, c2);
      var u := ReplaceSide(cfg, r.state, false, px.ask, c2);
      if u.Done? {
        OnwardOn(s, r.state, u.state);
      }
    }
    if f.Done? {
      SideOnward(cfg, f.state, false, px.ask, c2);
      var u := FillSide(cfg, f.state, false, px.ask, c2);
      if u.Done? {
        OnwardOn(s, f.state, u.state);
      }
    }
  }

  lemma QuoterOnward(cfg: Config, s: State, input: Input)
    requires ByQuoter(input)
    ensures var r := Step(cfg, s, input); r.Done? ==> Onward(s, r.state) && r.state.tripOrdId == s.tripOrdId
  {
    hide ReplaceBoth, FillBoth, Deviates;
    BothOnward(cfg, Sends(s, BatchBegun), input.px, input.c1, input.c2);
  }

  // Events, the timeout check and shutdown.

  lemma ApplyOnward(s: State, e: OrderEvent)
    ensures var r := ApplyOrderEvent(s, e); r.Done? ==> Onward(s, r.state) && r.state.tripOrdId == s.tripOrdId
  {
    hide Lookup, Put, Without, ApplyEvent;
  }

  lemma EventOnward(s: State, e: OrderEvent, good: nat)
    ensures var r := HandleOrderEvent(s, e, good); r.Done? ==> Onward(s, r.state) && r.state.tripOrdId == s.tripOrdId
  {
    hide ApplyOrderEvent, Cancels, AfterFill;
    match if HasFill(e) then ApplyFill(s, e.side, e.fill.value, good) else Done(s)
    case Threw(_) =>
    case Done(t) => ApplyOnward(t, e);
  }

  lemma ReconcileOnward(s: State, listed: Option<seq<Listed>>)
    ensures var r := ReconcileState(s, listed);
            r.Done? ==>
              && Onward(s, r.state) && SameTrip(s, r.state)
              && listed.Some? && r.state.log == Sends(s, RestListed).log
              && Reconcile(s.store, listed.value) == Some(r.state.store)
  {
    hide Keep, AdoptAll, Drops, RemovedAll;
    ReconcileSends(s, listed);
    if listed.Some? && ReconcileState(s, listed).Done? {
      var t, ls := Sends(s, RestListed), listed.value;
      var adopted, ids := AdoptAll(t.store, ls).value, ListedIds(ls);
      RemovedAllOnlySlots(t.(store := Keep(adopted, ids), seen := t.seen + ids), Drops(adopted, ids));
    }
  }

  // The login.

  /** The smoke-test order is stored as configured, and its response is awaited. */
  predicate TripStored(cfg: Config, t: State, id: Id) {
    && t.tripId == id && id in t.tracked && t.tracked[id] == OrderResponse && Lookup(t.store, id).Some?
    && var o := Lookup(t.store, id).value;
       && o.clOrdId == id && o.instId == cfg.tripInst && o.side == cfg.tripSide && o.px == cfg.tripPx && o.sz == cfg.tripSz
       && o.ordId == "" && o.state == PendingNew
  }

  /** One order: over the socket, or by REST and then canceled by REST under the id the exchange gave it. */
  predicate Starts(cfg: Config, t: State, link: Link, rest: RestAnswer, calls: seq<Call>) {
    if link.connected then
      |calls| == 1 && calls[0].ok && calls[0].action.TripPlaced? && TripStored(cfg, t, calls[0].action.id)
    else
      && |calls| >= 1 && calls[0].ok && calls[0].action.RestPlaced?
      && (rest.Refused? ==> |calls| == 1)
      && (rest.Accepted? ==> calls[1..] == [Call(RestCanceled(cfg.tripInst, rest.ordId), true)] && t.tripOrdId == rest.ordId)
  }

  lemma StartCalls(cfg: Config, s: State, link: Link, rest: RestAnswer)
    requires Inv(s) && TripInv(s) && FreshCalls(s.seen, s.log, Calls(StartTrip(cfg, s, link, rest)))
    requires StartTrip(cfg, s, link, rest).Done?
    ensures var t := StartTrip(cfg, s, link, rest).state;
            && s.log <= t.log && Starts(cfg, t, link, rest, Added(s.log, t.log)) && TripInv(t)
            && (t.tripOrdId != s.tripOrdId ==> !link.connected && rest == Accepted(t.tripOrdId))
  {
    hide Lookup, StoreOk, SlotOk, Insert, ToString, TripInv;
    var t := StartTrip(cfg, s, link, rest).state;
    var id := ToString(NextId(s.lastId, link.wall));
    if link.connected {
      var o := Placed(id, cfg.tripInst, cfg.tripSide, cfg.tripPx, cfg.tripSz);
      StartedIsFresh(cfg, s, link, rest);
      FreshInsert(s.store, s.lastId, s.seen, link.wall, o);
      StoreIsOrdered(s.store, s.lastId, s.seen);
      LookupInsert(s.store, o, id);
      assert Added(s.log, t.log) == [Call(TripPlaced(id), true)];
      assert Call(TripPlaced(id), true) in t.log;
      TrackKeeps(s, link.wall, OrderResponse, t.log);
      SameTracked(s.(lastId := t.lastId, tracked := t.tracked, log := t.log), t);
    } else {
      assert Onward(s, t);
      OnwardKeeps(s, t);
    }
  }

  lemma SameTracked(s: State, t: State)
    requires TripInv(s) && t.lastId == s.lastId && t.tracked == s.tracked && t.log == s.log
    ensures TripInv(t)
  {
  }

  /** A login subscribes, asks for the list and starts the round trip exactly when nothing forbids it. */
  ghost predicate LoginAsks(cfg: Config, tripped: bool, s: State, t: State, input: Input, trip: seq<Call>)
    requires input.Login?
  {
    if !input.accepted then t == s
    else
      && input.listed.Some?
      && t.log == s.log + [Call(Subscribed, true), Call(RestListed, true)] + trip
      && (trip != [] <==> !tripped && input.sizeOk && |ListedIds(input.listed.value)| < 10)
      && (trip != [] ==> Starts(cfg, t, input.link, input.rest, trip))
      && (t.tripOrdId != s.tripOrdId ==> trip != [] && !input.link.connected && input.rest == Accepted(t.tripOrdId))
  }

  lemma LoginStep(cfg: Config, s: State, input: Input) returns (trip: seq<Call>)
    requires Inv(s) && TripInv(s) && input.Login? && Allowed(cfg, s, input) && Step(cfg, s, input).Done?
    ensures LoginAsks(cfg, s.triggered, s, Step(cfg, s, input).state, input, trip) && TripInv(Step(cfg, s, input).state)
  {
    hide StoreOk, SlotOk, ReconcileState, StartTrip, Reconcile, ListedIds, FreshCalls, TripInv, Starts;
    trip := [];
    if input.accepted {
      var begun := Sends(s, Subscribed);
      SendsKeepsInv(s, Subscribed);
      ReconcileKeepsInv(begun, input.listed);
      ReconcileOnward(begun, input.listed);
      var u := ReconcileState(begun, input.listed).state;
      assert Onward(s, begun);
      OnwardKeeps(s, begun);
      OnwardKeeps(begun, u);
      assert u.log == s.log + [Call(Subscribed, true), Call(RestListed, true)];
      if MayStart(u, input.sizeOk) {
        LoginStartsFresh(cfg, s, true, true, input.listed, input.sizeOk, input.link, input.rest);
        StartCalls(cfg, u, input.link, input.rest);
        trip := Added(u.log, Step(cfg, s, input).state.log);
        assert trip != [] by { StartsSomething(cfg, Step(cfg, s, input).state, input, trip); }
      }
    }
  }

  lemma StartsSomething(cfg: Config, t: State, input: Input, trip: seq<Call>)
    requires input.Login? && Starts(cfg, t, input.link, input.rest, trip)
    ensures trip != []
  {
  }

  // The responses.

  /** The request went out for the round trip's order, which waits for its answer. */
  predicate Waits(t: State, calls: seq<Call>, out: Action, pending: OrderState) {
    calls == [Call(out, true)] && Lookup(t.store, t.tripId).Some? && Lookup(t.store, t.tripId).value.state == pending
  }

  /** What each response makes the round trip ask for, and under which exchange id. */
  predicate Answers(cfg: Config, s: State, t: State, input: Input, calls: seq<Call>)
    requires input.Response?
  {
    if input.id !in s.tracked then t == s && calls == []
    else
      input.id !in t.tracked &&
      match s.tracked[input.id]
      case OrderResponse =>
        if !input.accepted || input.ordId.None? then calls == [] && t.tripOrdId == s.tripOrdId
        else
          && t.tripOrdId == input.ordId.value
          && (if input.link.connected then Waits(t, calls, TripAmended(input.ordId.value), PendingAmend)
              else calls == [Call(RestCanceled(cfg.tripInst, input.ordId.value), true)])
      case AmendResponse =>
        && t.tripOrdId == s.tripOrdId
        && (if input.link.connected then Waits(t, calls, TripCanceled(s.tripOrdId), PendingCancel)
            else calls == [Call(RestCanceled(cfg.tripInst, s.tripOrdId), true)])
      case CancelResponse => calls == [] && t.tripOrdId == s.tripOrdId
  }

  lemma AwaitCalls(s: State, o: Order, next: Order, link: Link, out: Action, h: Handler)
    requires Inv(s) && TripInv(s) && Lookup(s.store, s.tripId) == Some(o) && next.clOrdId == o.clOrdId == s.tripId
    requires h != OrderResponse && Await(s, next, link, out, h).Done?
    ensures var t := Await(s, next, link, out, h).state;
            && s.log <= t.log && Added(s.log, t.log) == [Call(out, true)] && TripInv(t)
            && t.tripId == s.tripId && t.tripOrdId == s.tripOrdId && Lookup(t.store, t.tripId) == Some(next)
            && (forall id :: id in t.tracked && id !in s.tracked ==> id == ToString(NextId(s.lastId, link.wall)))
  {
    hide Lookup, StoreOk, SlotOk, Put, ToString, TripInv;
    var t := Await(s, next, link, out, h).state;
    StoreIsOrdered(s.store, s.lastId, s.seen);
    LookupPut(s.store, next, s.tripId);
    assert Added(s.log, t.log) == [Call(out, true)];
    TrackKeeps(s, link.wall, h, t.log);
    SameTracked(s.(lastId := t.lastId, tracked := t.tracked, log := t.log), t);
  }

  /** The id that was just answered is not generated again. */
  lemma AnsweredIsOld(s: State, id: Id, wall: int)
    requires TripInv(s) && id in s.tracked
    ensures id != ToString(NextId(s.lastId, wall)) && TripInv(s.(tracked := s.tracked - {id}))
  {
    hide ToString;
    GeneratedIsFresh(s.lastId, wall);
    OnwardKeeps(s, s.(tracked := s.tracked - {id}));
  }

  lemma OrderResponseCalls(cfg: Config, s: State, accepted: bool, ordId: Option<Id>, link: Link)
    requires Inv(s) && TripInv(s) && OnOrderResponse(cfg, s, accepted, ordId, link).Done?
    ensures var t := OnOrderResponse(cfg, s, accepted, ordId, link).state;
            && s.log <= t.log && TripInv(t)
            && (forall id :: id in t.tracked && id !in s.tracked ==> id == ToString(NextId(s.lastId, link.wall)))
            && var calls := Added(s.log, t.log);
               if !accepted || ordId.None? then calls == [] && t.tripOrdId == s.tripOrdId
               else
                 && t.tripOrdId == ordId.value
                 && (if link.connected then Waits(t, calls, TripAmended(ordId.value), PendingAmend)
                     else calls == [Call(RestCanceled(cfg.tripInst, ordId.value), true)])
  {
    hide Lookup, StoreOk, SlotOk, Put, ToString, TripInv, Await;
    var t := OnOrderResponse(cfg, s, accepted, ordId, link).state;
    if accepted && ordId.Some? {
      var named := s.(tripOrdId := ordId.value);
      SameTracked(s, named);
      if link.connected {
        var o := Lookup(s.store, s.tripId).value;
        StoredIsOk(s.store, s.lastId, s.seen, s.tripId);
        assert Inv(named);
        AwaitCalls(named, o, OnAmendRequested(o).value, link, TripAmended(ordId.value), AmendResponse);
      } else {
        assert Added(s.log, t.log) == [Call(RestCanceled(cfg.tripInst, ordId.value), true)];
        OnwardKeeps(named, t);
      }
    }
  }

  lemma RejectOnward(s: State)
    requires Inv(s) && RejectRequest(s).Done?
    ensures var t := RejectRequest(s).state;
            Inv(t) && t == s.(store := t.store) && Lookup(t.store, s.tripId).Some?
  {
    hide Lookup, StoreOk, SlotOk, Put;
    RejectKeepsInv(s);
    var o := Lookup(s.store, s.tripId).value;
    StoredIsOk(s.store, s.lastId, s.seen, s.tripId);
    StoreIsOrdered(s.store, s.lastId, s.seen);
    LookupPut(s.store, OnRequestRejected(o).value, s.tripId);
  }

  lemma AmendResponseCalls(cfg: Config, s: State, accepted: bool, link: Link)
    requires Inv(s) && TripInv(s) && OnAmendResponse(cfg, s, accepted, link).Done?
    ensures var t := OnAmendResponse(cfg, s, accepted, link).state;
            && s.log <= t.log && TripInv(t) && t.tripOrdId == s.tripOrdId
            && (forall id :: id in t.tracked && id !in s.tracked ==> id == ToString(NextId(s.lastId, link.wall)))
            && var calls := Added(s.log, t.log);
               if link.connected then Waits(t, calls, TripCanceled(s.tripOrdId), PendingCancel)
               else calls == [Call(RestCanceled(cfg.tripInst, s.tripOrdId), true)]
  {
    hide Lookup, StoreOk, SlotOk, Put, ToString, TripInv, Await, RejectRequest;
    var t := OnAmendResponse(cfg, s, accepted, link).state;
    var u := s;
    if !accepted {
      RejectOnward(s);
      u := RejectRequest(s).state;
      SameTracked(s, u);
    }
    if link.connected {
      var o := Lookup(u.store, u.tripId).value;
      StoredIsOk(u.store, u.lastId, u.seen, u.tripId);
      AwaitCalls(u, o, OnCancelRequested(o).value, link, TripCanceled(u.tripOrdId), CancelResponse);
    } else {
      assert Added(s.log, t.log) == [Call(RestCanceled(cfg.tripInst, s.tripOrdId), true)];
      OnwardKeeps(u, t);
    }
  }

  lemma ResponseStep(cfg: Config, s: State, input: Input)
    requires Inv(s) && TripInv(s) && input.Response? && Step(cfg, s, input).Done?
    ensures var t := Step(cfg, s, input).state;
            s.log <= t.log && Answers(cfg, s, t, input, Added(s.log, t.log)) && TripInv(t)
  {
    hide StoreOk, SlotOk, OnOrderResponse, OnAmendResponse, RejectRequest, TripInv, Waits, ToString;
    if input.id in s.tracked {
      var u := s.(tracked := s.tracked - {input.id});
      AnsweredIsOld(s, input.id, input.link.wall);
      assert Inv(u);
      match s.tracked[input.id]
      case OrderResponse => OrderResponseCalls(cfg, u, input.accepted, input.ordId, input.link);
      case AmendResponse => AmendResponseCalls(cfg, u, input.accepted, input.link);
      case CancelResponse =>
        if !input.accepted {
          RejectOnward(u);
          SameTracked(u, RejectRequest(u).state);
        }
    }
  }

  // Over runs.

  lemma StepKeepsTripInv(cfg: Config, s: State, input: Input)
    requires Inv(s) && TripInv(s) && Allowed(cfg, s, input) && Step(cfg, s, input).Done?
    ensures TripInv(Step(cfg, s, input).state)
    ensures !input.Login? && !input.Response? ==> Step(cfg, s, input).state.tripOrdId == s.tripOrdId
  {
    hide OnBookUpdate, OnTimer, HandleLogin, HandleOrderEvent, Dispatch, ReconcileState, Cancels, AnyOverdue, Inv, TripInv,
      Allowed, LoginAsks, Answers;
    var t := Step(cfg, s, input).state;
    match input
    case Login(_, _, _, _, _, _) => var _ := LoginStep(cfg, s, input);
    case Response(_, _, _, _) => ResponseStep(cfg, s, input);
    case OrderMessage(event, good) =>
      EventOnward(s, event, good);
      OnwardKeeps(s, t);
    case Timeout(_, listed) =>
      ReconcileOnward(s, listed);
      OnwardKeeps(s, t);
    case Shutdown(_) => OnwardKeeps(s, t);
    case _ =>
      QuoterOnward(cfg, s, input);
      OnwardKeeps(s, t);
  }

  lemma {:induction false} RunKeepsTripInv(cfg: Config, states: seq<State>, inputs: seq<Input>, i: nat)
    requires Trading.IsRun(cfg, states, inputs) && i <= |inputs|
    ensures TripInv(states[i])
  {
    hide Inv, Step, Allowed;
    if i > 0 {
      RunKeepsTripInv(cfg, states, inputs, i - 1);
      RunKeepsInv(cfg, states, inputs, i - 1);
      assert Trading.StepAt(cfg, states, inputs, i - 1);
      StepKeepsTripInv(cfg, states[i - 1], inputs[i - 1]);
    }
  }

  /** In every run a login subscribes, lists, and starts the round trip exactly when nothing forbids it. */
  lemma LoginAsksFor(cfg: Config, states: seq<State>, inputs: seq<Input>, i: nat) returns (trip: seq<Call>)
    requires Trading.IsRun(cfg, states, inputs) && i < |inputs| && inputs[i].Login?
    ensures LoginAsks(cfg, TradingPosition.Tripped(inputs[..i]), states[i], states[i + 1], inputs[i], trip)
  {
    hide Inv, Step, Allowed, TripInv, LoginAsks, TradingPosition.Tripped;
    RunKeepsTripInv(cfg, states, inputs, i);
    RunKeepsInv(cfg, states, inputs, i);
    TradingPosition.TriggeredIff(cfg, states, inputs, i);
    assert Trading.StepAt(cfg, states, inputs, i);
    trip := LoginStep(cfg, states[i], inputs[i]);
  }

  /** An accepted response to a placement, with the exchange id of the order. */
  predicate NamesOrder(s: State, input: Input) {
    && input.Response? && input.accepted && input.ordId.Some?
    && input.id in s.tracked && s.tracked[input.id] == OrderResponse
  }

  /** One of the calls made in between was a placement by REST. */
  ghost predicate PlacedByRest(s: State, t: State) {
    exists k :: |s.log| <= k < |t.log| && t.log[k].action.RestPlaced?
  }

  /** The exchange id given last: by an accepted response to a placement, or by an accepted placement by REST. */
  ghost function GivenId(states: seq<State>, inputs: seq<Input>, i: nat): Id
    requires |states| == |inputs| + 1 && i <= |inputs|
  {
    if i == 0 then ""
    else
      var s, input := states[i - 1], inputs[i - 1];
      if NamesOrder(s, input) then input.ordId.value
      else if input.Login? && input.rest.Accepted? && PlacedByRest(s, states[i]) then input.rest.ordId
      else GivenId(states, inputs, i - 1)
  }

  lemma RestPlacedIff(cfg: Config, s: State, t: State, input: Input, trip: seq<Call>, tripped: bool)
    requires input.Login? && LoginAsks(cfg, tripped, s, t, input, trip)
    ensures PlacedByRest(s, t) <==> input.accepted && trip != [] && !input.link.connected
  {
    hide TripStored;
    if input.accepted {
      var n := |s.log| + 2;
      if trip != [] {
        assert t.log[n] == trip[0];
      }
      assert t.log[|s.log|].action == Subscribed && t.log[|s.log| + 1].action == RestListed;
      assert forall k :: n <= k < |t.log| ==> t.log[k] == trip[k - n];
    }
  }

  lemma {:induction false} TripOrdIsGiven(cfg: Config, states: seq<State>, inputs: seq<Input>, i: nat)
    requires Trading.IsRun(cfg, states, inputs) && i <= |inputs|
    ensures states[i].tripOrdId == GivenId(states, inputs, i)
  {
    hide Inv, Step, Allowed, TripInv, TradingPosition.Tripped, Waits;
    if i > 0 {
      var s, t, input := states[i - 1], states[i], inputs[i - 1];
      TripOrdIsGiven(cfg, states, inputs, i - 1);
      RunKeepsTripInv(cfg, states, inputs, i - 1);
      RunKeepsInv(cfg, states, inputs, i - 1);
      assert Trading.StepAt(cfg, states, inputs, i - 1);
      StepKeepsTripInv(cfg, s, input);
      if input.Login? {
        var trip := LoginStep(cfg, s, input);
        RestPlacedIff(cfg, s, t, input, trip, s.triggered);
      } else if input.Response? {
        ResponseStep(cfg, s, input);
      }
    }
  }

  /**
    In every run: a response is taken once, by the handler awaited under its id, which is an order
    response only for an order that was placed. An accepted placement asks for the amend, or without a
    socket for the REST cancel, of the exchange id in that response; the answer to the amend asks for the
    cancel of the id given last; and the order waits for the answer. Nothing else is asked for.
  */
  lemma ResponseAsksFor(cfg: Config, states: seq<State>, inputs: seq<Input>, i: nat)
    requires Trading.IsRun(cfg, states, inputs) && i < |inputs| && inputs[i].Response?
    ensures var s, t, input := states[i], states[i + 1], inputs[i];
            && s.log <= t.log && Answers(cfg, s, t, input, Added(s.log, t.log))
            && s.tripOrdId == GivenId(states, inputs, i)
            && (input.id in s.tracked && s.tracked[input.id] == OrderResponse ==> Call(TripPlaced(input.id), true) in s.log)
  {
    hide Inv, Step, Allowed, Answers, GivenId;
    RunKeepsTripInv(cfg, states, inputs, i);
    RunKeepsInv(cfg, states, inputs, i);
    TripOrdIsGiven(cfg, states, inputs, i);
    assert Trading.StepAt(cfg, states, inputs, i);
    ResponseStep(cfg, states[i], inputs[i]);
  }

  // What an event and the timeout check do.

  /** An event changes its own order as the life of an order says, and removes it once that has ended. */
  function AfterEvent(o: Option<Order>, e: OrderEvent): Option<Order> {
    match o
    case None => None
    case Some(order) =>
      match Apply(order, Event(e))
      case Some(next) => if next.state in {Filled, Canceled, Rejected} then None else Some(next)
      case None => None
  }

  /** The slot is as it was, or empty once its order has left the store. */
  predicate SlotFollows(slot: Option<Id>, after: Option<Id>, store: seq<Order>) {
    after == if slot.Some? && Lookup(store, slot.value).None? then None else slot
  }

  lemma EventChangesOne(s: State, e: OrderEvent, id: Id)
    requires Inv(s)
    ensures var r := ApplyOrderEvent(s, e);
            && r.Done?
            && Lookup(r.state.store, id)
               == (if id == e.clOrdId then AfterEvent(Lookup(s.store, id), e) else Lookup(s.store, id))
  {
    hide Lookup, Put, Without, StoreOk, SlotOk, OnOrderRemoved, ApplyEvent;
    ApplyKeepsInv(s, e);
    if Lookup(s.store, e.clOrdId).Some? {
      var o := Lookup(s.store, e.clOrdId).value;
      StoredIsOk(s.store, s.lastId, s.seen, e.clOrdId);
      StoreIsOrdered(s.store, s.lastId, s.seen);
      var next := ApplyEvent(o, e).value;
      ChangeKeepsIdentity(o, Event(e));
      LookupPut(s.store, next, id);
      LookupPut(s.store, next, next.clOrdId);
      PutOrdered(s.store, next);
      if Terminal(next.state) {
        LookupWithout(Put(s.store, next), next.clOrdId, id);
      }
    }
  }

  lemma EventClearsSlots(s: State, e: OrderEvent)
    requires Inv(s)
    ensures var r := ApplyOrderEvent(s, e);
            r.Done? && SlotFollows(s.bid, r.state.bid, r.state.store) && SlotFollows(s.ask, r.state.ask, r.state.store)
  {
    hide Lookup, Put, Without, StoreOk, ApplyEvent;
    ApplyKeepsInv(s, e);
    EventChangesOne(s, e, e.clOrdId);
    if s.bid.Some? {
      EventChangesOne(s, e, s.bid.value);
    }
    if s.ask.Some? {
      EventChangesOne(s, e, s.ask.value);
    }
    if s.bid.Some? && s.ask.Some? {
      SlotsDiffer(s);
    }
    if Lookup(s.store, e.clOrdId).Some? {
      var o := Lookup(s.store, e.clOrdId).value;
      StoredIsOk(s.store, s.lastId, s.seen, e.clOrdId);
      StoreIsOrdered(s.store, s.lastId, s.seen);
      ChangeKeepsIdentity(o, Event(e));
      LookupPut(s.store, ApplyEvent(o, e).value, e.clOrdId);
    }
  }

  /**
    In every run an order message changes exactly the order it names, as the life of an order says; an
    order whose life has ended leaves the store, and a slot empties exactly when its order leaves.
  */
  lemma MessageChangesOne(cfg: Config, states: seq<State>, inputs: seq<Input>, i: nat, id: Id)
    requires Trading.IsRun(cfg, states, inputs) && i < |inputs| && inputs[i].OrderMessage?
    ensures var s, t, e := states[i], states[i + 1], inputs[i].event;
            && Lookup(t.store, id) == (if id == e.clOrdId then AfterEvent(Lookup(s.store, id), e) else Lookup(s.store, id))
            && SlotFollows(s.bid, t.bid, t.store) && SlotFollows(s.ask, t.ask, t.store)
  {
    hide Allowed, StoreOk, SlotOk, ApplyOrderEvent, AfterEvent, SlotFollows, Cancels, AfterFill, Lookup;
    var s, e, good := states[i], inputs[i].event, inputs[i].good;
    RunKeepsInv(cfg, states, inputs, i);
    assert Trading.StepAt(cfg, states, inputs, i);
    var u := if HasFill(e) then ApplyFill(s, e.side, e.fill.value, good).state else s;
    EventChangesOne(u, e, id);
    EventClearsSlots(u, e);
  }

  /** A stored order waits for an answer and has waited too long. */
  ghost predicate WaitsTooLong(store: seq<Order>, overdue: set<Id>) {
    exists id :: id in overdue && Lookup(store, id).Some?
      && Lookup(store, id).value.state in {PendingNew, PendingCancel, PendingAmend}
  }

  lemma WaitsTooLongIff(store: seq<Order>, overdue: set<Id>)
    requires Ordered(store)
    ensures WaitsTooLong(store, overdue) <==> AnyOverdue(store, overdue)
  {
    hide Lookup, Ordered;
    if WaitsTooLong(store, overdue) {
      var id :| id in overdue && Lookup(store, id).Some?
        && Lookup(store, id).value.state in {PendingNew, PendingCancel, PendingAmend};
      LookupFinds(store, id);
    }
    if AnyOverdue(store, overdue) {
      var k :| 0 <= k < |store| && Pending(store[k].state) && store[k].clOrdId in overdue;
      LookupAt(store, k);
    }
  }

  /** In every run the timeout check asks the exchange, and reconciles, exactly when a stored order has waited too long. */
  lemma TimeoutAsksIff(cfg: Config, states: seq<State>, inputs: seq<Input>, i: nat)
    requires Trading.IsRun(cfg, states, inputs) && i < |inputs| && inputs[i].Timeout?
    ensures var s, t, listed := states[i], states[i + 1], inputs[i].listed;
            if WaitsTooLong(s.store, inputs[i].overdue) then
              listed.Some? && t.log == s.log + [Call(RestListed, true)] && Reconcile(s.store, listed.value) == Some(t.store)
            else t == s
  {
    hide Allowed, StoreOk, SlotOk, ReconcileState, WaitsTooLong, AnyOverdue, Reconcile;
    var s := states[i];
    RunKeepsInv(cfg, states, inputs, i);
    assert Trading.StepAt(cfg, states, inputs, i);
    StoreIsOrdered(s.store, s.lastId, s.seen);
    WaitsTooLongIff(s.store, inputs[i].overdue);
    ReconcileOnward(s, inputs[i].listed);
  }
}
