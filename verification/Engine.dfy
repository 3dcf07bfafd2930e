/**
  The engine object: its handlers update the store, the limiters, the position and its
  own fields in place, and each is proved equal to its step of the transition system.
  The fields of the quoter, the round trip, the response demultiplexer and the kill
  switch are fields of the engine here. A handler returns false where the source throws,
  with the calls made so far in the log.
*/
module Engine {
  import opened Common
  import opened OrderIds
  import opened OrderLifecycle
  import opened OrderStore
  import opened Reconciliation
  import opened Trading
  import opened TradingSafety
  import RateLimiter
  import Position

  class Engine {
    const cfg: Config
    const store: OrderStore
    const limiter: RateLimiter.EndpointRateLimiter
    const position: Position.Tracker
    var lastId: nat
    ghost var seen: set<Id>
    var bid: Option<Id>
    var ask: Option<Id>
    var mid: Option<real>
    var triggered: bool
    var tripId: Id
    var tripOrdId: Id
    var tracked: map<Id, Handler>
    var log: seq<Call>
    var stopped: bool

    ghost function Footprint(): set<object> {
      {this, store, store.slots, position} + limiter.Footprint()
    }

    /** The parts are sound and apart from each other. */
    ghost predicate Shaped()
      reads Footprint()
    {
      && store.Valid() && limiter.Valid()
      && limiter.order.capacity == 60 && limiter.order.window == 2_000_000_000
      && limiter.amend.capacity == 60 && limiter.amend.window == 2_000_000_000
      && {this, store, store.slots, position} !! limiter.Footprint()
    }

    ghost function View(): State
      requires Shaped()
      reads Footprint()
    {
      State(store.Contents(), lastId, seen, bid, ask, mid, limiter.order.Queue(), limiter.amend.Queue(), triggered,
            position.View(), tripId, tripOrdId, tracked, log, stopped)
    }

    ghost predicate Valid()
      reads Footprint()
    {
      Shaped() && Inv(View())
    }

    /** The handler ended as the step says: in its state, or by a throw with its calls made. */
    ghost predicate Ended(ok: bool, r: Outcome)
      reads Footprint()
    {
      if ok then Valid() && r == Done(View()) else r == Threw(log)
    }

    /** The calls of the step place no order under an id the exchange has listed. */
    ghost predicate Fresh(r: Outcome)
      reads Footprint()
    {
      FreshCalls(seen, log, Calls(r))
    }

    /** An engine in a process whose id counter has reached `counter`. */
    constructor (cfg: Config, counter: nat)
      ensures Valid() && fresh(Footprint()) && this.cfg == cfg && View() == Initial(counter)
    {
      this.cfg := cfg;
      store := new OrderStore();
      limiter := new RateLimiter.EndpointRateLimiter(60, 2_000_000_000);
      position := new Position.Tracker();
      lastId, seen, bid, ask, mid, triggered := counter, {}, None, None, None, false;
      tripId, tripOrdId, tracked, log, stopped := "", "", map[], [], false;
      new;
      InitialInv(counter);
    }

    // The single updates that the handlers are made of.

    method GenerateId(nowMs: int) returns (id: Id)
      requires Shaped()
      modifies `lastId
      ensures Shaped() && View() == old(View()).(lastId := NextId(old(lastId), nowMs)) && id == ToString(lastId)
    {
      lastId := if nowMs > lastId + 1 then nowMs else lastId + 1;
      id := ToString(lastId);
    }

    /** A call that may throw: a message that does not fit the ring, or a REST request that is not answered. */
    method Try(a: Action, works: bool) returns (ok: bool)
      requires Shaped()
      modifies `log
      ensures ok == works && Shaped() && View() == old(View()).(log := old(log) + [Call(a, ok)])
    {
      log := log + [Call(a, works)];
      return works;
    }

    /** A call that cannot throw. */
    method Note(a: Action)
      requires Valid()
      modifies `log
      ensures Valid() && View() == Sends(old(View()), a)
    {
      hide Inv;
      SendsKeepsInv(View(), a);
      log := log + [Call(a, true)];
    }

    method SetSlot(buy: bool, slot: Option<Id>)
      requires Shaped()
      modifies `bid, `ask
      ensures Shaped() && View() == WithSlot(old(View()), buy, slot)
    {
      if buy {
        bid := slot;
      } else {
        ask := slot;
      }
    }

    method SetMid(mid: real)
      requires Valid()
      modifies `mid
      ensures Valid() && View() == old(View()).(mid := Some(mid))
    {
      hide StoreOk, SlotOk;
      this.mid := Some(mid);
    }

    method AddOrder(o: Order) returns (ok: bool)
      requires Shaped() && (|View().store| < CAPACITY ==> Lookup(View().store, o.clOrdId) == None)
      modifies store, store.slots
      ensures ok == (|old(View()).store| < CAPACITY)
      ensures ok ==> Shaped() && View() == old(View()).(store := Insert(old(View()).store, o))
    {
      hide Insert, Lookup;
      ok := store.Add(o);
    }

    method PutOrder(at: nat, o: Order)
      requires Shaped() && at < |View().store| && View().store[at].clOrdId == o.clOrdId
      modifies store.slots
      ensures Shaped() && View() == old(View()).(store := Put(old(View()).store, o))
    {
      hide Put;
      store.Update(at, o);
    }

    method TrackId(id: Id, h: Handler)
      requires Shaped()
      modifies `tracked
      ensures Shaped() && View() == old(View()).(tracked := Track(old(tracked), id, h))
    {
      tracked := Track(tracked, id, h);
    }

    // The quoter.

    /** Places an order on one side and keeps its id in the slot of that side, or clears the slot when rate-limited. */
    method PlaceSide(buy: bool, px: string, c: Turn) returns (ok: bool)
      requires Valid() && Fresh(PlaceInto(cfg, View(), buy, px, c))
      modifies Footprint()
      ensures Ended(ok, PlaceInto(cfg, old(View()), buy, px, c))
    {
      hide Inv, RateLimiter.TryQueue, Insert, Lookup, ToString;
      ghost var s := View();
      PlaceKeepsInv(cfg, s, buy, px, c);
      var verdict := limiter.TryAcquire("order", c.steady);
      if verdict != RateLimiter.Granted {
        SetSlot(buy, None);
        return true;
      }
      PlacedIsFresh(cfg, s, buy, px, c);
      ok := PlaceGranted(buy, px, c, s);
    }

    method PlaceGranted(buy: bool, px: string, c: Turn, ghost s: State) returns (ok: bool)
      requires Shaped() && Inv(s) && View() == s.(orderQueue := TryAcquire(s.orderQueue, c.steady).queue)
      requires TryAcquire(s.orderQueue, c.steady).granted
      requires |s.store| < CAPACITY ==> ToString(NextId(s.lastId, c.wall)) !in s.seen
      modifies Footprint()
      ensures if ok then Shaped() && PlaceInto(cfg, s, buy, px, c) == Done(View()) else PlaceInto(cfg, s, buy, px, c) == Threw(log)
    {
      hide StoreOk, SlotOk, TryAcquire, Insert, Lookup, ToString;
      var id := GenerateId(c.wall);
      if |s.store| < CAPACITY {
        FreshId(s.store, s.lastId, s.seen, c.wall);
      }
      ok := AddOrder(Placed(id, cfg.quoteInst, Side(buy), px, cfg.quoteSz));
      if !ok {
        return;
      }
      ok := Try(QuotePlaced(id, Side(buy), px, c.steady), c.fits);
      if ok {
        SetSlot(buy, Some(id));
      }
    }

    method ReplaceSide(buy: bool, px: string, c: Turn) returns (ok: bool)
      requires Valid() && Fresh(Trading.ReplaceSide(cfg, View(), buy, px, c))
      modifies Footprint()
      ensures Ended(ok, Trading.ReplaceSide(cfg, old(View()), buy, px, c))
    {
      hide Inv, PlaceInto, AmendSide, Lookup, FreshCalls;
      ghost var s := View();
      var slot := if buy then bid else ask;
      if slot.None? {
        ok := PlaceSide(buy, px, c);
        return;
      }
      var at := store.FindByClOrdId(slot.value);
      if at.None? || store.slots[at.value].value.ordId == "" {
        ok := PlaceSide(buy, px, c);
        return;
      }
      var order := store.slots[at.value].value;
      if order.state == PendingAmend {
        return true;
      }
      InvStored(s, slot.value);
      ok := Amend(at.value, order, px, c);
    }

    method Amend(at: nat, order: Order, px: string, c: Turn) returns (ok: bool)
      requires Valid() && at < |View().store| && View().store[at] == order
      requires Lookup(View().store, order.clOrdId) == Some(order) && OrderOk(order) && order.state != PendingAmend
      modifies Footprint()
      ensures Ended(ok, AmendSide(old(View()), order, px, c))
    {
      hide Inv, RateLimiter.TryQueue, Put, Lookup, ToString;
      ghost var s := View();
      AmendKeepsInv(s, order, px, c);
      var verdict := limiter.TryAcquire("amend-order", c.steady);
      if verdict != RateLimiter.Granted {
        return true;
      }
      ok := AmendGranted(at, order, px, c, s);
    }

    method AmendGranted(at: nat, order: Order, px: string, c: Turn, ghost s: State) returns (ok: bool)
      requires Shaped() && View() == s.(amendQueue := TryAcquire(s.amendQueue, c.steady).queue)
      requires TryAcquire(s.amendQueue, c.steady).granted
      requires at < |s.store| && s.store[at] == order && OrderOk(order) && order.state != PendingAmend
      modifies Footprint()
      ensures if ok then Shaped() && AmendSide(s, order, px, c) == Done(View()) else AmendSide(s, order, px, c) == Threw(log)
    {
      hide TryAcquire, Put, ToString, Rank, Less;
      var amending := OnAmendRequested(order);
      PutOrder(at, amending.value);
      var _ := GenerateId(c.wall);
      ok := Try(QuoteAmended(order.ordId, px, c.steady), c.fits);
    }

    method ReplaceBoth(px: Prices, c1: Turn, c2: Turn) returns (ok: bool)
      requires Valid() && Fresh(Trading.ReplaceBoth(cfg, View(), px, c1, c2))
      modifies Footprint()
      ensures Ended(ok, Trading.ReplaceBoth(cfg, old(View()), px, c1, c2))
    {
      hide Inv, Trading.ReplaceSide, FreshCalls;
      ReplaceBothFresh(cfg, View(), px, c1, c2);
      ok := ReplaceSide(true, px.bid, c1);
      if ok {
        ok := ReplaceSide(false, px.ask, c2);
      }
    }

    method Requote(mid: real, px: Prices, c1: Turn, c2: Turn) returns (ok: bool)
      requires Valid() && Fresh(Trading.Requote(cfg, View(), mid, px, c1, c2))
      modifies Footprint()
      ensures Ended(ok, Trading.Requote(cfg, old(View()), mid, px, c1, c2))
    {
      hide Trading.ReplaceBoth, Inv, FreshCalls;
      RequoteFresh(cfg, View(), mid, px, c1, c2);
      Note(BatchBegun);
      ok := ReplaceBoth(px, c1, c2);
      if !ok {
        return;
      }
      Note(BatchEnded);
      SetMid(mid);
    }

    method OnBookUpdate(bestBid: Option<real>, bestAsk: Option<real>, px: Prices, c1: Turn, c2: Turn) returns (ok: bool)
      requires Valid() && Fresh(Trading.OnBookUpdate(cfg, View(), bestBid, bestAsk, px, c1, c2))
      modifies Footprint()
      ensures Ended(ok, Trading.OnBookUpdate(cfg, old(View()), bestBid, bestAsk, px, c1, c2))
    {
      hide Inv, Trading.Requote, Deviates, FreshCalls;
      if bestBid.None? || bestAsk.None? {
        return true;
      }
      var mid := (bestBid.value + bestAsk.value) / 2.0;
      if this.mid.None? || Deviates(mid, this.mid.value) {
        ok := Requote(mid, px, c1, c2);
        return;
      }
      return true;
    }

    method FillSide(buy: bool, px: string, c: Turn) returns (ok: bool)
      requires Valid() && Fresh(Trading.FillSide(cfg, View(), buy, px, c))
      modifies Footprint()
      ensures Ended(ok, Trading.FillSide(cfg, old(View()), buy, px, c))
    {
      hide Inv, PlaceInto, FreshCalls;
      if (if buy then bid else ask).None? {
        ok := PlaceSide(buy, px, c);
        return;
      }
      return true;
    }

    method FillBoth(px: Prices, c1: Turn, c2: Turn) returns (ok: bool)
      requires Valid() && Fresh(Trading.FillBoth(cfg, View(), px, c1, c2))
      modifies Footprint()
      ensures Ended(ok, Trading.FillBoth(cfg, old(View()), px, c1, c2))
    {
      hide Inv, Trading.FillSide, FreshCalls;
      FillBothFresh(cfg, View(), px, c1, c2);
      ok := FillSide(true, px.bid, c1);
      if ok {
        ok := FillSide(false, px.ask, c2);
      }
    }

    method OnTimer(px: Prices, c1: Turn, c2: Turn) returns (ok: bool)
      requires Valid() && Fresh(Trading.OnTimer(cfg, View(), px, c1, c2))
      modifies Footprint()
      ensures Ended(ok, Trading.OnTimer(cfg, old(View()), px, c1, c2))
    {
      hide Inv, Trading.FillBoth, FreshCalls;
      if mid.None? {
        return true;
      }
      TimerFresh(cfg, View(), px, c1, c2);
      Note(BatchBegun);
      ok := FillBoth(px, c1, c2);
      if ok {
        Note(BatchEnded);
      }
    }

    /** The store's removal listener. */
    method OnOrderRemoved(id: Id)
      requires Shaped()
      modifies `bid, `ask
      ensures Shaped() && View() == Trading.OnOrderRemoved(old(View()), id)
    {
      if bid.Some? && bid.value == id {
        bid := None;
      } else if ask.Some? && ask.value == id {
        ask := None;
      }
    }

    // Order events, the position and the kill switch.

    /** The store's Remove with its listener. */
    method RemoveOrder(id: Id)
      requires Shaped()
      modifies Footprint()
      ensures Shaped() && View() == Trading.RemoveOrder(old(View()), id)
    {
      hide Rank;
      var removed := store.Remove(id);
      if removed {
        OnOrderRemoved(id);
      }
    }

    method ApplyOrderEvent(e: OrderEvent)
      requires Valid()
      modifies Footprint()
      ensures Ended(true, Trading.ApplyOrderEvent(old(View()), e))
    {
      hide Inv, Put, Lookup, OrderLifecycle.ApplyEvent, Trading.RemoveOrder;
      ghost var s := View();
      ApplyKeepsInv(s, e);
      var at := store.FindByClOrdId(e.clOrdId);
      if at.None? {
        return;
      }
      InvStored(s, e.clOrdId);
      var order := store.slots[at.value].value;
      var next := ApplyEvent(order, e);
      ChangeKeepsIdentity(order, Event(e));
      store.Update(at.value, next.value);
      if Terminal(next.value.state) {
        RemoveOrder(next.value.clOrdId);
      }
    }

    /** The instrument and exchange id of every order that can be cancelled. */
    method CollectCancels() returns (toCancel: seq<(string, Id)>)
      requires store.Valid()
      ensures |toCancel| == |Cancels(store.Contents())|
      ensures forall k :: 0 <= k < |toCancel| ==> Cancels(store.Contents())[k] == RestCanceled(toCancel[k].0, toCancel[k].1)
    {
      toCancel := [];
      ghost var s := store.Contents();
      for i := 0 to store.count
        invariant |toCancel| == |Cancels(s[..i])|
        invariant forall k :: 0 <= k < |toCancel| ==> Cancels(s[..i])[k] == RestCanceled(toCancel[k].0, toCancel[k].1)
      {
        assert s[..i + 1][..i] == s[..i];
        var order := store.slots[i].value;
        if order.ordId != "" {
          toCancel := toCancel + [(order.instId, order.ordId)];
        }
      }
      assert s[..|s|] == s;
    }

    /** One REST cancel after the other, until one throws. */
    method CancelEach(toCancel: seq<(string, Id)>, good: nat, ghost cancels: seq<Action>) returns (ok: bool)
      requires |toCancel| == |cancels|
      requires forall k :: 0 <= k < |cancels| ==> cancels[k] == RestCanceled(toCancel[k].0, toCancel[k].1)
      modifies `log
      ensures ok == (|cancels| <= good)
      ensures log == if ok then old(log) + Answered(cancels)
                     else old(log) + Answered(cancels[..good]) + [Call(cancels[good], false)]
    {
      for i := 0 to |toCancel|
        invariant i <= good && log == old(log) + Answered(cancels[..i])
      {
        log := log + [Call(RestCanceled(toCancel[i].0, toCancel[i].1), i < good)];
        if i >= good {
          return false;
        }
        assert Answered(cancels[..i + 1]) == Answered(cancels[..i]) + [Call(cancels[i], true)];
      }
      assert cancels[..|toCancel|] == cancels;
      return true;
    }

    method Trigger(good: nat) returns (ok: bool)
      requires Shaped()
      modifies `triggered, `log
      ensures if ok then Shaped() && Trading.Trigger(old(View()), good) == Done(View())
              else Trading.Trigger(old(View()), good) == Threw(log)
    {
      hide Cancels, Answered;
      if triggered {
        return true;
      }
      triggered := true;
      var toCancel := CollectCancels();
      ok := CancelEach(toCancel, good, Cancels(store.Contents()));
    }

    method HandleOrderEvent(e: OrderEvent, good: nat) returns (ok: bool)
      requires Valid()
      modifies Footprint()
      ensures Ended(ok, Trading.HandleOrderEvent(old(View()), e, good))
    {
      hide StoreOk, SlotOk, Trading.ApplyOrderEvent, Cancels, Position.Fill;
      if (e.kind == Fill || e.kind == PartialFill) && e.fill.Some? {
        var side := if e.side == "buy" then Position.Buy else Position.Sell;
        position.ApplyFill(Position.Execution(side, e.fill.value.px, e.fill.value.sz));
        if position.realizedPnl < -50.0 {
          ok := Trigger(good);
          if !ok {
            return;
          }
        }
      }
      ApplyOrderEvent(e);
      return true;
    }

    // Reconciliation and the round trip.

    method Reconcile(listed: Option<seq<Listed>>) returns (ok: bool)
      requires Valid()
      modifies Footprint()
      ensures Ended(ok, ReconcileState(old(View()), listed)) && (ok ==> listed.Some?)
    {
      hide Inv, Keep, Drops, AdoptAll, ReconcileThrows, RemovedAll, ListedIds;
      ReconcileKeepsInv(View(), listed);
      ok := Try(RestListed, listed.Some?);
      if !ok {
        return;
      }
      ghost var s := View();
      var removed;
      ok, removed := ReconcileOrders(store, listed.value);
      if !ok {
        return;
      }
      seen := seen + ListedIds(listed.value);
      TellRemoved(removed);
    }

    /** The listener, once for each removed order. */
    method TellRemoved(removed: seq<Id>)
      requires Shaped()
      modifies `bid, `ask
      ensures Shaped() && View() == RemovedAll(old(View()), removed)
    {
      for i := 0 to |removed|
        invariant Shaped() && View() == RemovedAll(old(View()), removed[..i])
      {
        OnOrderRemoved(removed[i]);
        assert removed[..i + 1][..i] == removed[..i];
      }
      assert removed[..|removed|] == removed;
    }

    /** Asks the exchange when a pending order is overdue, once for all of them. */
    method CheckTimeouts(overdue: set<Id>, listed: Option<seq<Listed>>) returns (ok: bool)
      requires Valid()
      modifies Footprint()
      ensures Ended(ok, Trading.CheckTimeouts(old(View()), overdue, listed))
    {
      hide Inv, ReconcileState;
      ghost var s := View();
      var needed := false;
      for i := 0 to store.count
        invariant View() == s
        invariant needed <==> exists k :: 0 <= k < i && Pending(s.store[k].state) && s.store[k].clOrdId in overdue
      {
        var order := store.slots[i].value;
        assert order == s.store[i];
        if Pending(order.state) && order.clOrdId in overdue {
          needed := true;
        }
      }
      if needed {
        ok := Reconcile(listed);
        return;
      }
      return true;
    }

    method FallBackToRestCancel(answered: bool) returns (ok: bool)
      requires Valid()
      modifies `log
      ensures Ended(ok, RestCancel(cfg, old(View()), answered))
    {
      hide StoreOk, SlotOk;
      ok := Try(RestCanceled(cfg.tripInst, tripOrdId), answered);
    }

    method PlaceByRest(link: Link, rest: RestAnswer) returns (ok: bool)
      requires Valid()
      modifies Footprint()
      ensures Ended(ok, PlaceRest(cfg, old(View()), link, rest))
    {
      hide StoreOk, SlotOk, ToString;
      LaterId(store.Contents(), lastId, seen, link.wall);
      var id := GenerateId(link.wall);
      ok := Try(RestPlaced(id), !rest.NoAnswer?);
      if !ok || rest.Refused? {
        return;
      }
      tripOrdId := rest.ordId;
      ok := FallBackToRestCancel(link.answered);
    }

    method Start(link: Link, rest: RestAnswer) returns (ok: bool)
      requires Valid() && Fresh(StartTrip(cfg, View(), link, rest))
      modifies Footprint()
      ensures Ended(ok, StartTrip(cfg, old(View()), link, rest))
    {
      hide Inv, Insert, Lookup, ToString, Track, PlaceRest, LinkFails;
      if !link.connected {
        ok := PlaceByRest(link, rest);
        return;
      }
      ghost var s := View();
      StartKeepsInv(cfg, s, link, rest);
      if |s.store| < CAPACITY {
        StartedIsFresh(cfg, s, link, rest);
        InvFreshId(s, link.wall);
      }
      var id := GenerateId(link.wall);
      tripId := id;
      ok := AddOrder(Placed(id, cfg.tripInst, cfg.tripSide, cfg.tripPx, cfg.tripSz));
      if !ok {
        return;
      }
      ok := Try(TripPlaced(id), link.fits);
      if ok {
        TrackId(id, OrderResponse);
      }
    }

    method HandleLoginEvent(accepted: bool, fits: bool, listed: Option<seq<Listed>>, sizeOk: bool, link: Link, rest: RestAnswer)
      returns (ok: bool)
      requires Valid()
      requires var ids := seen + if listed.Some? then ListedIds(listed.value) else {};
               FreshCalls(ids, log, Calls(HandleLogin(cfg, View(), accepted, fits, listed, sizeOk, link, rest)))
      modifies Footprint()
      ensures Ended(ok, HandleLogin(cfg, old(View()), accepted, fits, listed, sizeOk, link, rest))
    {
      hide StoreOk, SlotOk, ReconcileState, StartTrip, FreshCalls;
      ghost var s := View();
      if !accepted {
        return true;
      }
      ok := Try(Subscribed, fits);
      if !ok {
        return;
      }
      ok := Reconcile(listed);
      if !ok {
        return;
      }
      if triggered || !sizeOk || store.count >= 10 {
        return true;
      }
      assert Fresh(StartTrip(cfg, View(), link, rest)) by {
        LoginStartsFresh(cfg, s, accepted, fits, listed, sizeOk, link, rest);
      }
      ok := Start(link, rest);
    }

    /** The order of the round trip, which must be in the store. */
    method GetOrder() returns (at: Option<nat>)
      requires Valid()
      ensures at.None? <==> Lookup(View().store, tripId).None?
      ensures at.Some? ==> at.value < store.count && Lookup(View().store, tripId) == Some(View().store[at.value])
      ensures at.Some? ==> View().store[at.value].clOrdId == tripId
    {
      hide Inv, Lookup;
      at := store.FindByClOrdId(tripId);
      if at.Some? {
        InvStored(View(), tripId);
      }
    }

    /** A request for the round trip's order: the order waits, the request goes out, its response is tracked. */
    method Request(at: nat, change: Change, next: Order, link: Link, out: Action, h: Handler) returns (ok: bool)
      requires Valid() && at < |View().store| && !change.Event?
      requires Lookup(View().store, View().store[at].clOrdId) == Some(View().store[at])
      requires Apply(View().store[at], change) == Some(next)
      modifies Footprint()
      ensures Ended(ok, Await(old(View()), next, link, out, h))
    {
      hide Inv, Put, Lookup, ToString, Apply, Track;
      ghost var s := View();
      ChangeKeepsIdentity(s.store[at], change);
      AwaitKeepsInv(s, s.store[at], change, link, out, h);
      PutOrder(at, next);
      var id := GenerateId(link.wall);
      ok := Try(out, link.fits);
      if ok {
        TrackId(id, h);
      }
    }

    method OnOrderResponse(accepted: bool, ordId: Option<Id>, link: Link) returns (ok: bool)
      requires Valid()
      modifies Footprint()
      ensures Ended(ok, Trading.OnOrderResponse(cfg, old(View()), accepted, ordId, link))
    {
      hide StoreOk, SlotOk, Lookup, Await;
      if !accepted || ordId.None? {
        return true;
      }
      tripOrdId := ordId.value;
      if !link.connected {
        ok := FallBackToRestCancel(link.answered);
        return;
      }
      var at := GetOrder();
      if at.None? {
        return false;
      }
      var amending := OnAmendRequested(store.slots[at.value].value);
      if amending.None? {
        return false;
      }
      ok := Request(at.value, AmendRequested, amending.value, link, TripAmended(tripOrdId), AmendResponse);
    }

    /** The exchange refused the pending request of the round trip's order. */
    method RejectRequest() returns (ok: bool)
      requires Valid()
      modifies Footprint()
      ensures Ended(ok, Trading.RejectRequest(old(View())))
    {
      hide Inv, Put, Lookup, TripIn;
      RejectKeepsInv(View());
      var at := GetOrder();
      if at.None? {
        return false;
      }
      var back := OnRequestRejected(store.slots[at.value].value);
      if back.None? {
        return false;
      }
      store.Update(at.value, back.value);
      return true;
    }

    method OnAmendResponse(accepted: bool, link: Link) returns (ok: bool)
      requires Valid()
      modifies Footprint()
      ensures Ended(ok, Trading.OnAmendResponse(cfg, old(View()), accepted, link))
    {
      hide Inv, Lookup, Await, Trading.RejectRequest;
      if !accepted {
        ok := RejectRequest();
        if !ok {
          return;
        }
      }
      if !link.connected {
        ok := FallBackToRestCancel(link.answered);
        return;
      }
      var at := GetOrder();
      if at.None? {
        return false;
      }
      var canceling := OnCancelRequested(store.slots[at.value].value);
      if canceling.None? {
        return false;
      }
      ok := Request(at.value, CancelRequested, canceling.value, link, TripCanceled(tripOrdId), CancelResponse);
    }

    method OnCancelResponse(accepted: bool) returns (ok: bool)
      requires Valid()
      modifies Footprint()
      ensures Ended(ok, Trading.OnCancelResponse(old(View()), accepted))
    {
      hide Inv, Trading.RejectRequest;
      if !accepted {
        ok := RejectRequest();
        return;
      }
      return true;
    }

    method Dispatch(id: Id, accepted: bool, ordId: Option<Id>, link: Link) returns (ok: bool)
      requires Valid()
      modifies Footprint()
      ensures Ended(ok, Trading.Dispatch(cfg, old(View()), id, accepted, ordId, link))
    {
      hide StoreOk, SlotOk, Trading.OnOrderResponse, Trading.OnAmendResponse, Trading.OnCancelResponse;
      if id !in tracked {
        return true;
      }
      var handler := tracked[id];
      tracked := tracked - {id};
      match handler {
        case OrderResponse => ok := OnOrderResponse(accepted, ordId, link);
        case AmendResponse => ok := OnAmendResponse(accepted, link);
        case CancelResponse => ok := OnCancelResponse(accepted);
      }
    }

    /** One turn of the event loop, with the engine's gates around its handlers. */
    method Handle(input: Input) returns (ok: bool)
      requires Valid() && Allowed(cfg, View(), input)
      modifies Footprint()
      ensures Ended(ok, Step(cfg, old(View()), input))
    {
      hide Inv, Trading.OnBookUpdate, Trading.OnTimer, HandleLogin, Trading.HandleOrderEvent, Trading.Dispatch,
        Trading.CheckTimeouts, Trading.Trigger, Throws, FreshCalls;
      assert seen + {} == seen;
      ok := true;
      match input {
        case BookUpdate(authenticated, bestBid, bestAsk, px, c1, c2) =>
          if !triggered && authenticated {
            ok := OnBookUpdate(bestBid, bestAsk, px, c1, c2);
          }
        case QuoterTimer(authenticated, px, c1, c2) =>
          if !triggered && authenticated {
            ok := OnTimer(px, c1, c2);
          }
        case Login(accepted, fits, listed, sizeOk, link, rest) =>
          ok := HandleLoginEvent(accepted, fits, listed, sizeOk, link, rest);
        case OrderMessage(event, good) => ok := HandleOrderEvent(event, good);
        case Response(id, accepted, ordId, link) => ok := Dispatch(id, accepted, ordId, link);
        case Timeout(overdue, listed) => ok := CheckTimeouts(overdue, listed);
        case Shutdown(good) =>
          StepKeepsInv(cfg, View(), input);
          ok := Trigger(good);
          if ok {
            stopped := true;
          }
      }
    }
  }
}
