/** What every reachable state of the engine keeps. */
module TradingSafety {
  import opened Common
  import opened OrderIds
  import opened OrderLifecycle
  import opened OrderStore
  import opened Reconciliation
  import opened Trading

  predicate OrderOk(o: Order) {
    !Terminal(o.state) && Sound(o)
  }

  /** The store is a sorted slab of orders that are not terminal, each under a listed id or one not generated again. */
  ghost predicate StoreOk(store: seq<Order>, last: nat, seen: set<Id>) {
    && Ordered(store) && |store| <= CAPACITY
    && forall id :: Lookup(store, id).Some? ==> OrderOk(Lookup(store, id).value) && (NotFuture(id, last) || id in seen)
  }

  /** A set slot names a stored order on its own side. */
  predicate SlotOk(store: seq<Order>, slot: Option<Id>, buy: bool) {
    slot.Some? ==> Lookup(store, slot.value).Some? && Lookup(store, slot.value).value.side == Side(buy)
  }

  ghost predicate Inv(s: State) {
    && StoreOk(s.store, s.lastId, s.seen)
    && SlotOk(s.store, s.bid, true) && SlotOk(s.store, s.ask, false)
    && (s.position.realizedPnl < -50.0 ==> s.triggered)
  }

  lemma SlotsDiffer(s: State)
    requires Inv(s) && s.bid.Some? && s.ask.Some?
    ensures s.bid != s.ask
  {
    assert Side(true) != Side(false);
  }

  // What changes of the store keep.

  lemma FreshId(store: seq<Order>, last: nat, seen: set<Id>, wall: int)
    requires StoreOk(store, last, seen) && ToString(NextId(last, wall)) !in seen
    ensures Lookup(store, ToString(NextId(last, wall))).None?
  {
    hide Lookup, ToString, NotFuture;
    GeneratedIsFresh(last, wall);
  }

  lemma FreshInsert(store: seq<Order>, last: nat, seen: set<Id>, wall: int, o: Order)
    requires StoreOk(store, last, seen) && |store| < CAPACITY
    requires o.clOrdId == ToString(NextId(last, wall)) && o.clOrdId !in seen && OrderOk(o)
    ensures Lookup(store, o.clOrdId).None?
    ensures StoreOk(Insert(store, o), NextId(last, wall), seen)
  {
    hide Lookup, Rank, Less, ToString, NotFuture, Ordered;
    GeneratedIsFresh(last, wall);
    FreshId(store, last, seen, wall);
    InsertOrdered(store, o);
    forall id ensures Lookup(Insert(store, o), id) == if id == o.clOrdId then Some(o) else Lookup(store, id) {
      LookupInsert(store, o, id);
    }
  }

  lemma InsertKeepsSlot(store: seq<Order>, o: Order, slot: Option<Id>, buy: bool)
    requires Ordered(store) && Lookup(store, o.clOrdId).None? && SlotOk(store, slot, buy)
    ensures SlotOk(Insert(store, o), slot, buy)
    ensures o.side == Side(buy) ==> SlotOk(Insert(store, o), Some(o.clOrdId), buy)
  {
    hide Lookup, Insert;
    LookupInsert(store, o, o.clOrdId);
    if slot.Some? {
      LookupInsert(store, o, slot.value);
    }
  }

  lemma PutKeepsStore(store: seq<Order>, last: nat, seen: set<Id>, o: Order)
    requires StoreOk(store, last, seen) && Lookup(store, o.clOrdId).Some? && OrderOk(o)
    ensures StoreOk(Put(store, o), last, seen)
  {
    hide Lookup, Put;
    PutOrdered(store, o);
    forall id ensures Lookup(Put(store, o), id) == if id == o.clOrdId then Some(o) else Lookup(store, id) {
      LookupPut(store, o, id);
    }
  }

  lemma PutKeepsSlot(store: seq<Order>, o: Order, slot: Option<Id>, buy: bool)
    requires Ordered(store) && Lookup(store, o.clOrdId).Some? && Lookup(store, o.clOrdId).value.side == o.side
    requires SlotOk(store, slot, buy)
    ensures SlotOk(Put(store, o), slot, buy)
  {
    hide Lookup, Put;
    if slot.Some? {
      LookupPut(store, o, slot.value);
    }
  }

  lemma LaterId(store: seq<Order>, last: nat, seen: set<Id>, wall: int)
    requires StoreOk(store, last, seen)
    ensures StoreOk(store, NextId(last, wall), seen)
  {
    hide Lookup, ToString, NotFuture;
    GeneratedIsFresh(last, wall);
  }

  // The quoter.

  lemma StoreIsOrdered(store: seq<Order>, last: nat, seen: set<Id>)
    requires StoreOk(store, last, seen)
    ensures Ordered(store) && |store| <= CAPACITY
  {
  }

  lemma StoredIsOk(store: seq<Order>, last: nat, seen: set<Id>, id: Id)
    requires StoreOk(store, last, seen) && Lookup(store, id).Some?
    ensures OrderOk(Lookup(store, id).value) && Lookup(store, id).value.clOrdId == id
  {
    LookupFinds(store, id);
  }

  lemma InvStored(s: State, id: Id)
    requires Inv(s) && Lookup(s.store, id).Some?
    ensures OrderOk(Lookup(s.store, id).value) && Lookup(s.store, id).value.clOrdId == id
  {
    StoredIsOk(s.store, s.lastId, s.seen, id);
  }

  /** An order of the store replaced by what a request or an event made of it. */
  lemma PutKeepsInv(s: State, o: Order, next: Order)
    requires Inv(s) && Lookup(s.store, o.clOrdId) == Some(o) && OrderOk(next)
    requires next.clOrdId == o.clOrdId && next.side == o.side
    ensures Inv(s.(store := Put(s.store, next))) && |Put(s.store, next)| == |s.store|
  {
    hide Lookup, StoreOk, Put;
    StoreIsOrdered(s.store, s.lastId, s.seen);
    PutOrdered(s.store, next);
    PutKeepsStore(s.store, s.lastId, s.seen, next);
    PutKeepsSlot(s.store, next, s.bid, true);
    PutKeepsSlot(s.store, next, s.ask, false);
  }

  /** A part of fresh calls is fresh. */
  lemma FreshPart(ids: set<Id>, before: seq<Call>, after: seq<Call>, from: seq<Call>, to: seq<Call>)
    requires FreshCalls(ids, before, after) && |before| <= |from| && to <= after
    ensures FreshCalls(ids, from, to)
  {
    assert forall k :: 0 <= k < |to| ==> to[k] == after[k];
  }

  /** Placing throws: a grant, and no place in the store or in the ring. */
  predicate PlaceThrows(s: State, c: Turn) {
    TryAcquire(s.orderQueue, c.steady).granted && (|s.store| >= CAPACITY || !c.fits)
  }

  lemma PlaceKeepsInv(cfg: Config, s: State, buy: bool, px: string, c: Turn)
    requires Inv(s) && FreshCalls(s.seen, s.log, Calls(PlaceInto(cfg, s, buy, px, c)))
    ensures var r := PlaceInto(cfg, s, buy, px, c);
            && (r.Threw? <==> PlaceThrows(s, c))
            && (r.Done? ==> Inv(r.state))
  {
    hide Lookup, StoreOk, TryAcquire, ToString;
    var r := PlaceInto(cfg, s, buy, px, c);
    if r.Done? && TryAcquire(s.orderQueue, c.steady).granted {
      var o := Placed(ToString(NextId(s.lastId, c.wall)), cfg.quoteInst, Side(buy), px, cfg.quoteSz);
      PlacedIsFresh(cfg, s, buy, px, c);
      FreshInsert(s.store, s.lastId, s.seen, c.wall, o);
      StoreIsOrdered(s.store, s.lastId, s.seen);
      InsertKeepsSlot(s.store, o, s.bid, true);
      InsertKeepsSlot(s.store, o, s.ask, false);
    }
  }

  /** Amending throws only when its message does not fit the ring. */
  predicate AmendThrows(s: State, c: Turn) {
    TryAcquire(s.amendQueue, c.steady).granted && !c.fits
  }

  lemma AmendKeepsInv(s: State, o: Order, px: string, c: Turn)
    requires Inv(s) && Lookup(s.store, o.clOrdId) == Some(o) && OrderOk(o) && o.state != PendingAmend
    ensures var r := AmendSide(s, o, px, c);
            && (r.Threw? <==> AmendThrows(s, c))
            && (r.Done? ==> Inv(r.state))
  {
    hide Lookup, StoreOk, Put, TryAcquire;
    PutKeepsInv(s, o, OnAmendRequested(o).value);
    LaterId(Put(s.store, OnAmendRequested(o).value), s.lastId, s.seen, c.wall);
  }

  /** The side comes to an amend: it has an order to amend and none is pending. */
  predicate Amends(s: State, buy: bool) {
    !NeedsOrder(s, buy) && Lookup(s.store, SlotOf(s, buy).value).value.state != PendingAmend
  }

  predicate SideThrows(s: State, buy: bool, c: Turn) {
    (NeedsOrder(s, buy) && PlaceThrows(s, c)) || (Amends(s, buy) && AmendThrows(s, c))
  }

  lemma ReplaceKeepsInv(cfg: Config, s: State, buy: bool, px: string, c: Turn)
    requires Inv(s) && FreshCalls(s.seen, s.log, Calls(ReplaceSide(cfg, s, buy, px, c)))
    ensures var r := ReplaceSide(cfg, s, buy, px, c);
            && (r.Threw? <==> SideThrows(s, buy, c))
            && (r.Done? ==> Inv(r.state))
  {
    hide Lookup, StoreOk, PlaceInto, AmendSide, PlaceThrows, AmendThrows, FreshCalls;
    if NeedsOrder(s, buy) {
      PlaceKeepsInv(cfg, s, buy, px, c);
    } else {
      var id := SlotOf(s, buy).value;
      StoredIsOk(s.store, s.lastId, s.seen, id);
      var o := Lookup(s.store, id).value;
      if o.state != PendingAmend {
        AmendKeepsInv(s, o, px, c);
      }
    }
  }

  lemma SendsKeepsInv(s: State, a: Action)
    requires Inv(s)
    ensures Inv(Sends(s, a))
  {
    hide StoreOk, SlotOk;
  }

  lemma SideGrows(cfg: Config, s: State, buy: bool, px: string, c: Turn)
    ensures var r := ReplaceSide(cfg, s, buy, px, c); s.log <= Calls(r) && (r.Done? ==> r.state.seen == s.seen)
    ensures var r := FillSide(cfg, s, buy, px, c); s.log <= Calls(r) && (r.Done? ==> r.state.seen == s.seen)
  {
    hide Lookup, Put, Insert, ToString, TryAcquire, OnAmendRequested;
  }

  // What the bid side leaves of the limits for the ask side.

  /** The order queue once the bid has asked for an order, if it `asks`. */
  function QueueAfter(queue: seq<int>, asks: bool, c: Turn): seq<int> {
    if asks then TryAcquire(queue, c.steady).queue else queue
  }

  /** How many orders are stored then. */
  function SizeAfter(s: State, asks: bool, c: Turn): nat {
    if asks && TryAcquire(s.orderQueue, c.steady).granted then |s.store| + 1 else |s.store|
  }

  /** Placing the ask throws, after a bid that did not. */
  predicate AskPlaceThrows(s: State, bidAsks: bool, c1: Turn, c2: Turn) {
    && TryAcquire(QueueAfter(s.orderQueue, bidAsks, c1), c2.steady).granted
    && (SizeAfter(s, bidAsks, c1) >= CAPACITY || !c2.fits)
  }

  predicate AskThrows(s: State, c1: Turn, c2: Turn) {
    || (NeedsOrder(s, false) && AskPlaceThrows(s, NeedsOrder(s, true), c1, c2))
    || (Amends(s, false) && TryAcquire(QueueAfter(s.amendQueue, Amends(s, true), c1), c2.steady).granted && !c2.fits)
  }

  /** A side as the quoter sees it: its slot and the order stored under it. */
  datatype SideView = SideView(slot: Option<Id>, order: Option<Order>)

  function ViewOf(s: State, buy: bool): SideView {
    var slot := if buy then s.bid else s.ask;
    SideView(slot, if slot.None? then None else Lookup(s.store, slot.value))
  }

  /** `t` is `s` with one side replaced, seen from the other side. */
  ghost predicate Untouched(s: State, t: State, buy: bool, placing: bool, amending: bool, c: Turn) {
    && ViewOf(t, !buy) == ViewOf(s, !buy) && t.mid == s.mid
    && t.orderQueue == QueueAfter(s.orderQueue, placing, c) && t.amendQueue == QueueAfter(s.amendQueue, amending, c)
    && |t.store| == SizeAfter(s, placing, c)
  }

  lemma PlacedUntouched(cfg: Config, s: State, buy: bool, px: string, c: Turn)
    requires Inv(s) && FreshCalls(s.seen, s.log, Calls(PlaceInto(cfg, s, buy, px, c)))
    ensures var r := PlaceInto(cfg, s, buy, px, c); r.Done? ==> Untouched(s, r.state, buy, true, false, c)
  {
    hide Lookup, StoreOk, TryAcquire, ToString, Rank;
    var r := PlaceInto(cfg, s, buy, px, c);
    if r.Done? && TryAcquire(s.orderQueue, c.steady).granted {
      var o := Placed(ToString(NextId(s.lastId, c.wall)), cfg.quoteInst, Side(buy), px, cfg.quoteSz);
      PlacedIsFresh(cfg, s, buy, px, c);
      FreshInsert(s.store, s.lastId, s.seen, c.wall, o);
      StoreIsOrdered(s.store, s.lastId, s.seen);
      if SlotOf(s, !buy).Some? {
        LookupInsert(s.store, o, SlotOf(s, !buy).value);
      }
    }
  }

  lemma AmendedUntouched(s: State, buy: bool, o: Order, px: string, c: Turn)
    requires Inv(s) && SlotOf(s, buy) == Some(o.clOrdId) && Lookup(s.store, o.clOrdId) == Some(o) && OrderOk(o)
    ensures var r := AmendSide(s, o, px, c); r.Done? ==> Untouched(s, r.state, buy, false, true, c)
  {
    hide Lookup, StoreOk, TryAcquire, Rank;
    var r := AmendSide(s, o, px, c);
    if r.Done? && TryAcquire(s.amendQueue, c.steady).granted && SlotOf(s, !buy).Some? {
      SlotsDiffer(s);
      StoreIsOrdered(s.store, s.lastId, s.seen);
      LookupPut(s.store, OnAmendRequested(o).value, SlotOf(s, !buy).value);
    }
  }

  lemma ReplacedUntouched(cfg: Config, s: State, buy: bool, px: string, c: Turn)
    requires Inv(s) && FreshCalls(s.seen, s.log, Calls(ReplaceSide(cfg, s, buy, px, c)))
    ensures var r := ReplaceSide(cfg, s, buy, px, c);
            r.Done? ==> Untouched(s, r.state, buy, NeedsOrder(s, buy), Amends(s, buy), c)
  {
    hide Lookup, StoreOk, PlaceInto, AmendSide, FreshCalls, TryAcquire;
    if NeedsOrder(s, buy) {
      PlacedUntouched(cfg, s, buy, px, c);
    } else if Amends(s, buy) {
      StoredIsOk(s.store, s.lastId, s.seen, SlotOf(s, buy).value);
      AmendedUntouched(s, buy, Lookup(s.store, SlotOf(s, buy).value).value, px, c);
    }
  }

  lemma AskSeesBid(s: State, t: State, c1: Turn, c2: Turn)
    requires Untouched(s, t, true, NeedsOrder(s, true), Amends(s, true), c1)
    ensures SideThrows(t, false, c2) <==> AskThrows(s, c1, c2)
  {
    hide Lookup, TryAcquire;
  }

  /** Requoting throws exactly when the bid side does, or the ask side does with what the bid left. */
  predicate RequoteThrows(s: State, c1: Turn, c2: Turn) {
    SideThrows(s, true, c1) || AskThrows(s, c1, c2)
  }

  lemma ReplaceBothKeepsInv(cfg: Config, s: State, px: Prices, c1: Turn, c2: Turn)
    requires Inv(s) && FreshCalls(s.seen, s.log, Calls(ReplaceBoth(cfg, s, px, c1, c2)))
    ensures var r := ReplaceBoth(cfg, s, px, c1, c2);
            && s.log <= Calls(r)
            && (r.Threw? <==> RequoteThrows(s, c1, c2))
            && (r.Done? ==> Inv(r.state))
  {
    hide StoreOk, ReplaceSide, SlotOk, SideThrows, AskThrows, FreshCalls, Untouched, NeedsOrder, Amends;
    ReplaceBothFresh(cfg, s, px, c1, c2);
    SideGrows(cfg, s, true, px.bid, c1);
    match ReplaceSide(cfg, s, true, px.bid, c1)
    case Threw(_) => ReplaceKeepsInv(cfg, s, true, px.bid, c1);
    case Done(t) =>
      SideGrows(cfg, t, false, px.ask, c2);
      ReplaceKeepsInv(cfg, s, true, px.bid, c1);
      ReplaceKeepsInv(cfg, t, false, px.ask, c2);
      ReplacedUntouched(cfg, s, true, px.bid, c1);
      AskSeesBid(s, t, c1, c2);
  }

  lemma BegunThrowsAlike(s: State, c1: Turn, c2: Turn)
    ensures RequoteThrows(Sends(s, BatchBegun), c1, c2) <==> RequoteThrows(s, c1, c2)
    ensures TimerThrows(Sends(s, BatchBegun), c1, c2) <==> TimerThrows(s, c1, c2)
  {
    hide Lookup, TryAcquire;
  }

  lemma RequoteKeepsInv(cfg: Config, s: State, mid: real, px: Prices, c1: Turn, c2: Turn)
    requires Inv(s) && FreshCalls(s.seen, s.log, Calls(Requote(cfg, s, mid, px, c1, c2)))
    ensures var r := Requote(cfg, s, mid, px, c1, c2);
            && (r.Threw? <==> RequoteThrows(s, c1, c2))
            && (r.Done? ==> Inv(r.state))
  {
    hide StoreOk, ReplaceBoth, SlotOk, RequoteThrows, FreshCalls;
    var begun := Sends(s, BatchBegun);
    SendsKeepsInv(s, BatchBegun);
    RequoteFresh(cfg, s, mid, px, c1, c2);
    ReplaceBothKeepsInv(cfg, begun, px, c1, c2);
    BegunThrowsAlike(s, c1, c2);
  }

  lemma FillSideKeepsInv(cfg: Config, s: State, buy: bool, px: string, c: Turn)
    requires Inv(s) && FreshCalls(s.seen, s.log, Calls(FillSide(cfg, s, buy, px, c)))
    ensures var r := FillSide(cfg, s, buy, px, c);
            && (r.Threw? <==> SlotOf(s, buy).None? && PlaceThrows(s, c))
            && (r.Done? ==> Inv(r.state))
  {
    hide StoreOk, PlaceInto, SlotOk, PlaceThrows, FreshCalls;
    if SlotOf(s, buy).None? {
      PlaceKeepsInv(cfg, s, buy, px, c);
    }
  }

  /** The timer throws exactly when filling the bid does, or filling the ask does with what the bid left. */
  predicate TimerThrows(s: State, c1: Turn, c2: Turn) {
    (s.bid.None? && PlaceThrows(s, c1)) || (s.ask.None? && AskPlaceThrows(s, s.bid.None?, c1, c2))
  }

  lemma FillBothKeepsInv(cfg: Config, s: State, px: Prices, c1: Turn, c2: Turn)
    requires Inv(s) && FreshCalls(s.seen, s.log, Calls(FillBoth(cfg, s, px, c1, c2)))
    ensures var r := FillBoth(cfg, s, px, c1, c2);
            && s.log <= Calls(r)
            && (r.Threw? <==> TimerThrows(s, c1, c2))
            && (r.Done? ==> Inv(r.state))
  {
    hide StoreOk, PlaceInto, SlotOk, FreshCalls, TryAcquire, Lookup;
    FillBothFresh(cfg, s, px, c1, c2);
    SideGrows(cfg, s, true, px.bid, c1);
    match FillSide(cfg, s, true, px.bid, c1)
    case Threw(_) => FillSideKeepsInv(cfg, s, true, px.bid, c1);
    case Done(t) =>
      SideGrows(cfg, t, false, px.ask, c2);
      FillSideKeepsInv(cfg, s, true, px.bid, c1);
      FillSideKeepsInv(cfg, t, false, px.ask, c2);
      if s.bid.None? {
        PlacedUntouched(cfg, s, true, px.bid, c1);
      }
  }

  lemma OnTimerKeepsInv(cfg: Config, s: State, px: Prices, c1: Turn, c2: Turn)
    requires Inv(s) && FreshCalls(s.seen, s.log, Calls(OnTimer(cfg, s, px, c1, c2)))
    ensures var r := OnTimer(cfg, s, px, c1, c2);
            && (r.Threw? <==> s.mid.Some? && TimerThrows(s, c1, c2))
            && (r.Done? ==> Inv(r.state))
  {
    hide StoreOk, FillBoth, SlotOk, TimerThrows, FreshCalls;
    if s.mid.Some? {
      var begun := Sends(s, BatchBegun);
      SendsKeepsInv(s, BatchBegun);
      TimerFresh(cfg, s, px, c1, c2);
      FillBothKeepsInv(cfg, begun, px, c1, c2);
      BegunThrowsAlike(s, c1, c2);
    }
  }

  /** With two places free in the store and both messages fitting the ring, neither throws. */
  lemma RoomEnough(s: State, c1: Turn, c2: Turn)
    requires |s.store| + 2 <= CAPACITY && c1.fits && c2.fits
    ensures !RequoteThrows(s, c1, c2) && !TimerThrows(s, c1, c2)
  {
    hide Lookup, TryAcquire;
  }

  // The parts of a fresh step are fresh.

  lemma PlacedIsFresh(cfg: Config, s: State, buy: bool, px: string, c: Turn)
    requires FreshCalls(s.seen, s.log, Calls(PlaceInto(cfg, s, buy, px, c)))
    requires TryAcquire(s.orderQueue, c.steady).granted
    ensures |s.store| < CAPACITY ==> ToString(NextId(s.lastId, c.wall)) !in s.seen
  {
    hide Insert, ToString, TryAcquire;
    if |s.store| < CAPACITY {
      assert !PlacesUnder(Calls(PlaceInto(cfg, s, buy, px, c))[|s.log|].action, s.seen);
    }
  }

  lemma ReplaceBothFresh(cfg: Config, s: State, px: Prices, c1: Turn, c2: Turn)
    requires FreshCalls(s.seen, s.log, Calls(ReplaceBoth(cfg, s, px, c1, c2)))
    ensures var r := ReplaceSide(cfg, s, true, px.bid, c1);
            && FreshCalls(s.seen, s.log, Calls(r))
            && (r.Done? ==> FreshCalls(r.state.seen, r.state.log, Calls(ReplaceSide(cfg, r.state, false, px.ask, c2))))
  {
    hide ReplaceSide, FreshCalls;
    SideGrows(cfg, s, true, px.bid, c1);
    match ReplaceSide(cfg, s, true, px.bid, c1)
    case Threw(_) =>
    case Done(t) =>
      var calls := Calls(ReplaceSide(cfg, t, false, px.ask, c2));
      SideGrows(cfg, t, false, px.ask, c2);
      FreshPart(s.seen, s.log, calls, s.log, t.log);
      FreshPart(s.seen, s.log, calls, t.log, calls);
  }

  lemma FillBothFresh(cfg: Config, s: State, px: Prices, c1: Turn, c2: Turn)
    requires FreshCalls(s.seen, s.log, Calls(FillBoth(cfg, s, px, c1, c2)))
    ensures var r := FillSide(cfg, s, true, px.bid, c1);
            && FreshCalls(s.seen, s.log, Calls(r))
            && (r.Done? ==> FreshCalls(r.state.seen, r.state.log, Calls(FillSide(cfg, r.state, false, px.ask, c2))))
  {
    hide FillSide, FreshCalls;
    SideGrows(cfg, s, true, px.bid, c1);
    match FillSide(cfg, s, true, px.bid, c1)
    case Threw(_) =>
    case Done(t) =>
      var calls := Calls(FillSide(cfg, t, false, px.ask, c2));
      SideGrows(cfg, t, false, px.ask, c2);
      FreshPart(s.seen, s.log, calls, s.log, t.log);
      FreshPart(s.seen, s.log, calls, t.log, calls);
  }

  lemma RequoteFresh(cfg: Config, s: State, mid: real, px: Prices, c1: Turn, c2: Turn)
    requires FreshCalls(s.seen, s.log, Calls(Requote(cfg, s, mid, px, c1, c2)))
    ensures var begun := Sends(s, BatchBegun);
            FreshCalls(begun.seen, begun.log, Calls(ReplaceBoth(cfg, begun, px, c1, c2)))
  {
    hide ReplaceBoth, FreshCalls;
    var begun := Sends(s, BatchBegun);
    FreshPart(s.seen, s.log, Calls(Requote(cfg, s, mid, px, c1, c2)), begun.log, Calls(ReplaceBoth(cfg, begun, px, c1, c2)));
  }

  lemma TimerFresh(cfg: Config, s: State, px: Prices, c1: Turn, c2: Turn)
    requires s.mid.Some? && FreshCalls(s.seen, s.log, Calls(OnTimer(cfg, s, px, c1, c2)))
    ensures var begun := Sends(s, BatchBegun);
            FreshCalls(begun.seen, begun.log, Calls(FillBoth(cfg, begun, px, c1, c2)))
  {
    hide FillBoth, FreshCalls;
    var begun := Sends(s, BatchBegun);
    FreshPart(s.seen, s.log, Calls(OnTimer(cfg, s, px, c1, c2)), begun.log, Calls(FillBoth(cfg, begun, px, c1, c2)));
  }

  // Order events and the kill switch.

  lemma RemoveKeepsInv(s: State, id: Id)
    requires Ordered(s.store) && |s.store| <= CAPACITY
    requires forall x :: x != id && Lookup(s.store, x).Some? ==> OrderOk(Lookup(s.store, x).value) && (NotFuture(x, s.lastId) || x in s.seen)
    requires SlotOk(s.store, s.bid, true) && SlotOk(s.store, s.ask, false)
    requires s.position.realizedPnl < -50.0 ==> s.triggered
    requires Lookup(s.store, id).Some?
    ensures Inv(RemoveOrder(s, id))
  {
    hide Lookup, Without, NotFuture;
    WithoutOrdered(s.store, id);
    WithoutShorter(s.store, id);
    forall x ensures Lookup(Without(s.store, id), x) == if x == id then None else Lookup(s.store, x) {
      LookupWithout(s.store, id, x);
    }
    assert Side(true) != Side(false);
  }

  lemma WithoutShorter(store: seq<Order>, id: Id)
    ensures |Without(store, id)| <= |store|
  {
  }

  /** Applying an event to a stored order never throws. */
  lemma ApplyKeepsInv(s: State, e: OrderEvent)
    requires Inv(s)
    ensures ApplyOrderEvent(s, e).Done? && Inv(ApplyOrderEvent(s, e).state)
  {
    hide Lookup, Put, RemoveOrder, NotFuture;
    if Lookup(s.store, e.clOrdId).Some? {
      StoredIsOk(s.store, s.lastId, s.seen, e.clOrdId);
      var o := Lookup(s.store, e.clOrdId).value;
      var next := ApplyEvent(o, e).value;
      ChangeKeepsIdentity(o, Event(e));
      ChangeKeepsSound(o, Event(e));
      if Terminal(next.state) {
        TerminalRemoved(s, o, next);
      } else {
        PutKeepsInv(s, o, next);
      }
    }
  }

  lemma TerminalRemoved(s: State, o: Order, next: Order)
    requires Inv(s) && Lookup(s.store, o.clOrdId) == Some(o) && next.clOrdId == o.clOrdId && next.side == o.side
    ensures Inv(RemoveOrder(s.(store := Put(s.store, next)), next.clOrdId))
  {
    hide Lookup, Put, RemoveOrder, NotFuture, SlotOk;
    PutOrdered(s.store, next);
    PutKeepsSlot(s.store, next, s.bid, true);
    PutKeepsSlot(s.store, next, s.ask, false);
    forall x ensures Lookup(Put(s.store, next), x) == if x == next.clOrdId then Some(next) else Lookup(s.store, x) {
      LookupPut(s.store, next, x);
    }
    RemoveKeepsInv(s.(store := Put(s.store, next)), next.clOrdId);
  }

  /** Triggering throws: the switch is still off and a REST cancel is not answered. */
  predicate TriggerThrows(s: State, good: nat) {
    !s.triggered && good < |Cancels(s.store)|
  }

  predicate Breaches(s: State, e: OrderEvent) {
    HasFill(e) && AfterFill(s.position, e.side, e.fill.value).realizedPnl < -50.0
  }

  /**
    An order event throws exactly when its fill breaches the loss limit and a cancel of the kill
    switch is not answered; after it a realised loss beyond 50 has triggered the switch.
  */
  lemma EventKeepsInv(s: State, e: OrderEvent, good: nat)
    requires Inv(s)
    ensures var r := HandleOrderEvent(s, e, good);
            && (r.Threw? <==> Breaches(s, e) && TriggerThrows(s, good))
            && (r.Done? ==> Inv(r.state))
  {
    hide StoreOk, SlotOk, ApplyOrderEvent, Cancels, AfterFill;
    if HasFill(e) {
      match ApplyFill(s, e.side, e.fill.value, good)
      case Threw(_) =>
      case Done(t) =>
        assert Inv(t);
        ApplyKeepsInv(t, e);
    } else {
      ApplyKeepsInv(s, e);
    }
  }

  // Reconciliation.

  function Cleared(slot: Option<Id>, removed: seq<Id>): Option<Id> {
    if slot.Some? && slot.value in removed then None else slot
  }

  lemma {:induction false} RemovedAllClears(s: State, removed: seq<Id>)
    requires s.bid.Some? && s.ask.Some? ==> s.bid != s.ask
    ensures RemovedAll(s, removed) == s.(bid := Cleared(s.bid, removed), ask := Cleared(s.ask, removed))
  {
    if removed != [] {
      var n := |removed| - 1;
      RemovedAllClears(s, removed[..n]);
      assert removed == removed[..n] + [removed[n]];
    }
  }

  lemma ReconciledStore(s: State, ls: seq<Listed>)
    requires StoreOk(s.store, s.lastId, s.seen) && Reconcile(s.store, ls).Some?
    ensures StoreOk(Reconcile(s.store, ls).value, s.lastId, s.seen + ListedIds(ls))
    ensures |Reconcile(s.store, ls).value| == |ListedIds(ls)|
  {
    hide Lookup, Reconcile, NotFuture, Ids, ListedIds;
    var r := Reconcile(s.store, ls).value;
    ReconcileAgrees(s.store, ls, "");
    forall id ensures Lookup(r, id).Some? ==> OrderOk(Lookup(r, id).value) && id in ListedIds(ls)
      ensures id in Ids(r) <==> id in ListedIds(ls)
    {
      ReconcileAgrees(s.store, ls, id);
      IdsAreKeys(r, id);
    }
    assert Ids(r) == ListedIds(ls);
    IdsCount(r);
  }

  lemma ReconciledSlot(s: State, ls: seq<Listed>, slot: Option<Id>, buy: bool)
    requires StoreOk(s.store, s.lastId, s.seen) && Reconcile(s.store, ls).Some? && SlotOk(s.store, slot, buy)
    ensures SlotOk(Reconcile(s.store, ls).value, Cleared(slot, Drops(AdoptAll(s.store, ls).value, ListedIds(ls))), buy)
  {
    hide Lookup, Keep, AdoptAll, Drops, NotFuture;
    var t := AdoptAll(s.store, ls).value;
    if slot.Some? && slot.value !in Drops(t, ListedIds(ls)) {
      var id := slot.value;
      AdoptAllMerges(s.store, ls);
      assert Lookup(t, id) == Merged(s.store, ls, id);
      DropsHave(t, ListedIds(ls), id);
      LookupFinds(t, id);
      ReconcileAgrees(s.store, ls, id);
    }
  }

  lemma ReconcileWithKeepsInv(s: State, ls: seq<Listed>)
    requires Inv(s)
    ensures var r := ReconcileWith(s, ls);
            && s.log == Calls(r)
            && (r.Done? <==> Reconcile(s.store, ls).Some?)
            && (r.Done? ==> Inv(r.state) && r.state.seen == s.seen + ListedIds(ls) && |r.state.store| == |ListedIds(ls)|)
            && (r.Done? ==> r.state.triggered == s.triggered)
  {
    hide Lookup, Keep, AdoptAll, Drops, StoreOk, SlotOk, RemovedAll;
    if Reconcile(s.store, ls).Some? {
      var r := Reconcile(s.store, ls).value;
      var removed := Drops(AdoptAll(s.store, ls).value, ListedIds(ls));
      if s.bid.Some? && s.ask.Some? {
        SlotsDiffer(s);
      }
      RemovedAllClears(s.(store := r, seen := s.seen + ListedIds(ls)), removed);
      ReconciledStore(s, ls);
      ReconciledSlot(s, ls, s.bid, true);
      ReconciledSlot(s, ls, s.ask, false);
    }
  }

  /** Reconciling throws: the REST query is not answered, or its answer cannot be reconciled. */
  predicate ReconcileThrows(s: State, listed: Option<seq<Listed>>) {
    listed.None? || Reconcile(s.store, listed.value).None?
  }

  lemma ReconcileKeepsInv(s: State, listed: Option<seq<Listed>>)
    requires Inv(s)
    ensures var r := ReconcileState(s, listed);
            && s.log <= Calls(r)
            && (r.Threw? <==> ReconcileThrows(s, listed))
            && (r.Done? ==> Inv(r.state) && r.state.seen == s.seen + ListedIds(listed.value))
            && (r.Done? ==> r.state.triggered == s.triggered && |r.state.store| == |ListedIds(listed.value)|)
  {
    hide StoreOk, SlotOk, ReconcileWith, Reconcile, ListedIds;
    if listed.Some? {
      SendsKeepsInv(s, RestListed);
      ReconcileWithKeepsInv(Sends(s, RestListed), listed.value);
    }
  }

  // The round trip.

  /** Starting throws for want of room in the ring, or of an answer. */
  predicate LinkFails(link: Link, rest: RestAnswer) {
    if link.connected then !link.fits else rest.NoAnswer? || (rest.Accepted? && !link.answered)
  }

  lemma StartedIsFresh(cfg: Config, s: State, link: Link, rest: RestAnswer)
    requires FreshCalls(s.seen, s.log, Calls(StartTrip(cfg, s, link, rest)))
    requires link.connected && |s.store| < CAPACITY
    ensures ToString(NextId(s.lastId, link.wall)) !in s.seen
  {
    hide Insert, ToString, Track;
    assert !PlacesUnder(Calls(StartTrip(cfg, s, link, rest))[|s.log|].action, s.seen);
  }

  lemma StartKeepsInv(cfg: Config, s: State, link: Link, rest: RestAnswer)
    requires Inv(s) && FreshCalls(s.seen, s.log, Calls(StartTrip(cfg, s, link, rest)))
    ensures var r := StartTrip(cfg, s, link, rest);
            && (r.Threw? <==> LinkFails(link, rest) || (link.connected && |s.store| >= CAPACITY))
            && (r.Done? ==> Inv(r.state))
  {
    hide Lookup, StoreOk, SlotOk, Insert, ToString, Track;
    var r := StartTrip(cfg, s, link, rest);
    LaterId(s.store, s.lastId, s.seen, link.wall);
    if r.Done? && link.connected {
      var o := Placed(ToString(NextId(s.lastId, link.wall)), cfg.tripInst, cfg.tripSide, cfg.tripPx, cfg.tripSz);
      StartedIsFresh(cfg, s, link, rest);
      FreshInsert(s.store, s.lastId, s.seen, link.wall, o);
      StoreIsOrdered(s.store, s.lastId, s.seen);
      InsertKeepsSlot(s.store, o, s.bid, true);
      InsertKeepsSlot(s.store, o, s.ask, false);
    }
  }

  /**
    A login throws: the subscribe does not fit, reconciling throws, or the order that may then start does.
    Reconciling leaves exactly the listed orders, so fewer than ten listed ids let it start.
  */
  predicate LoginThrows(s: State, fits: bool, listed: Option<seq<Listed>>, sizeOk: bool, link: Link, rest: RestAnswer) {
    || !fits
    || ReconcileThrows(s, listed)
    || (!s.triggered && sizeOk && |ListedIds(listed.value)| < 10 && LinkFails(link, rest))
  }

  /** The smoke-test order of a fresh login is fresh after reconciling. */
  lemma LoginStartsFresh(cfg: Config, s: State, accepted: bool, fits: bool, listed: Option<seq<Listed>>, sizeOk: bool,
                         link: Link, rest: RestAnswer)
    requires Inv(s) && accepted && fits && listed.Some?
    requires FreshCalls(s.seen + ListedIds(listed.value), s.log,
                        Calls(HandleLogin(cfg, s, accepted, fits, listed, sizeOk, link, rest)))
    ensures var r := ReconcileState(Sends(s, Subscribed), listed);
            r.Done? && MayStart(r.state, sizeOk) ==>
              FreshCalls(r.state.seen, r.state.log, Calls(StartTrip(cfg, r.state, link, rest)))
  {
    hide StoreOk, SlotOk, ReconcileState, StartTrip, Reconcile, ListedIds, FreshCalls;
    SendsKeepsInv(s, Subscribed);
    ReconcileKeepsInv(Sends(s, Subscribed), listed);
    var r := ReconcileState(Sends(s, Subscribed), listed);
    if r.Done? && MayStart(r.state, sizeOk) {
      var calls := Calls(StartTrip(cfg, r.state, link, rest));
      FreshPart(r.state.seen, s.log, calls, r.state.log, calls);
    }
  }

  lemma LoginKeepsInv(cfg: Config, s: State, accepted: bool, fits: bool, listed: Option<seq<Listed>>, sizeOk: bool,
                      link: Link, rest: RestAnswer)
    requires Inv(s)
    requires var ids := s.seen + if listed.Some? then ListedIds(listed.value) else {};
             FreshCalls(ids, s.log, Calls(HandleLogin(cfg, s, accepted, fits, listed, sizeOk, link, rest)))
    ensures var r := HandleLogin(cfg, s, accepted, fits, listed, sizeOk, link, rest);
            && (r.Threw? <==> accepted && LoginThrows(s, fits, listed, sizeOk, link, rest))
            && (r.Done? ==> Inv(r.state))
  {
    hide StoreOk, SlotOk, ReconcileState, StartTrip, Reconcile, LinkFails, ListedIds, FreshCalls;
    if accepted && fits {
      SendsKeepsInv(s, Subscribed);
      ReconcileKeepsInv(Sends(s, Subscribed), listed);
      match ReconcileState(Sends(s, Subscribed), listed)
      case Threw(_) =>
      case Done(t) =>
        if MayStart(t, sizeOk) {
          LoginStartsFresh(cfg, s, accepted, fits, listed, sizeOk, link, rest);
          StartKeepsInv(cfg, t, link, rest);
        }
    }
  }

  /** A request or its rejection applied to a stored order. */
  lemma RequestKeepsInv(s: State, o: Order, change: Change)
    requires Inv(s) && Lookup(s.store, o.clOrdId) == Some(o) && !change.Event? && Apply(o, change).Some?
    ensures Inv(s.(store := Put(s.store, Apply(o, change).value)))
  {
    hide Lookup, StoreOk, SlotOk, Put;
    StoredIsOk(s.store, s.lastId, s.seen, o.clOrdId);
    ChangeKeepsIdentity(o, change);
    ChangeKeepsSound(o, change);
    PutKeepsInv(s, o, Apply(o, change).value);
  }

  lemma TripOrder(s: State)
    requires Inv(s) && Lookup(s.store, s.tripId).Some?
    ensures Lookup(s.store, s.tripId).value.clOrdId == s.tripId
  {
    StoredIsOk(s.store, s.lastId, s.seen, s.tripId);
  }

  lemma AwaitKeepsInv(s: State, o: Order, change: Change, link: Link, out: Action, h: Handler)
    requires Inv(s) && Lookup(s.store, o.clOrdId) == Some(o) && !change.Event? && Apply(o, change).Some?
    ensures var r := Await(s, Apply(o, change).value, link, out, h);
            && (r.Threw? <==> !link.fits)
            && (r.Done? ==> Inv(r.state))
  {
    hide Lookup, StoreOk, SlotOk, Put, Apply, Track;
    RequestKeepsInv(s, o, change);
    LaterId(Put(s.store, Apply(o, change).value), s.lastId, s.seen, link.wall);
  }

  /** The order of the round trip is in the store, in one of these states. */
  predicate TripIn(s: State, states: set<OrderState>) {
    Lookup(s.store, s.tripId).Some? && Lookup(s.store, s.tripId).value.state in states
  }

  lemma RejectKeepsInv(s: State)
    requires Inv(s)
    ensures var r := RejectRequest(s);
            && (r.Threw? <==> !TripIn(s, {PendingCancel, PendingAmend}))
            && (r.Done? ==> Inv(r.state) && TripIn(r.state, {PendingNew, New, PartiallyFilled}))
            && (r.Done? ==> r.state.tripId == s.tripId && r.state.log == s.log)
  {
    hide Lookup, StoreOk, SlotOk, Put;
    if Lookup(s.store, s.tripId).Some? {
      TripOrder(s);
      var o := Lookup(s.store, s.tripId).value;
      if OnRequestRejected(o).Some? {
        RequestKeepsInv(s, o, RequestRejected);
        InvStored(s, s.tripId);
        InvOrdered(s);
        LookupPut(s.store, OnRequestRejected(o).value, s.tripId);
      }
    }
  }

  lemma InvFreshId(s: State, wall: int)
    requires Inv(s) && ToString(NextId(s.lastId, wall)) !in s.seen
    ensures Lookup(s.store, ToString(NextId(s.lastId, wall))).None?
  {
    FreshId(s.store, s.lastId, s.seen, wall);
  }

  lemma InvOrdered(s: State)
    requires Inv(s)
    ensures Ordered(s.store)
  {
  }

  predicate OrderResponseThrows(s: State, accepted: bool, ordId: Option<Id>, link: Link) {
    accepted && ordId.Some? &&
    if link.connected then !TripIn(s, {PendingNew, New, PartiallyFilled, PendingCancel}) || !link.fits
    else !link.answered
  }

  lemma OrderResponseKeepsInv(cfg: Config, s: State, accepted: bool, ordId: Option<Id>, link: Link)
    requires Inv(s)
    ensures var r := OnOrderResponse(cfg, s, accepted, ordId, link);
            && (r.Threw? <==> OrderResponseThrows(s, accepted, ordId, link))
            && (r.Done? ==> Inv(r.state))
  {
    hide Lookup, StoreOk, SlotOk, Await;
    if accepted && ordId.Some? {
      var t := s.(tripOrdId := ordId.value);
      assert Inv(t);
      if link.connected && Lookup(t.store, t.tripId).Some? {
        TripOrder(t);
        InvStored(t, t.tripId);
        var o := Lookup(t.store, t.tripId).value;
        if OnAmendRequested(o).Some? {
          AwaitKeepsInv(t, o, AmendRequested, link, TripAmended(t.tripOrdId), AmendResponse);
        }
      }
    }
  }

  predicate AmendResponseThrows(s: State, accepted: bool, link: Link) {
    || (!accepted && !TripIn(s, {PendingCancel, PendingAmend}))
    || (!link.connected && !link.answered)
    || (link.connected && (!link.fits || (accepted && !TripIn(s, {PendingNew, New, PartiallyFilled, PendingAmend}))))
  }

  lemma CancelTripKeepsInv(cfg: Config, s: State, link: Link)
    requires Inv(s)
    ensures var r := OnAmendResponse(cfg, s, true, link);
            && (r.Threw? <==> if link.connected then !link.fits || !TripIn(s, {PendingNew, New, PartiallyFilled, PendingAmend})
                              else !link.answered)
            && (r.Done? ==> Inv(r.state))
  {
    hide Lookup, StoreOk, SlotOk, Await;
    if link.connected && Lookup(s.store, s.tripId).Some? {
      TripOrder(s);
      InvStored(s, s.tripId);
      var o := Lookup(s.store, s.tripId).value;
      if OnCancelRequested(o).Some? {
        AwaitKeepsInv(s, o, CancelRequested, link, TripCanceled(s.tripOrdId), CancelResponse);
      }
    }
  }

  lemma AmendResponseKeepsInv(cfg: Config, s: State, accepted: bool, link: Link)
    requires Inv(s)
    ensures var r := OnAmendResponse(cfg, s, accepted, link);
            && (r.Threw? <==> AmendResponseThrows(s, accepted, link))
            && (r.Done? ==> Inv(r.state))
  {
    hide Lookup, StoreOk, SlotOk, Await, RejectRequest;
    RejectKeepsInv(s);
    if accepted {
      CancelTripKeepsInv(cfg, s, link);
    } else {
      match RejectRequest(s)
      case Threw(_) =>
      case Done(t) => CancelTripKeepsInv(cfg, t, link);
    }
  }

  predicate DispatchThrows(s: State, id: Id, accepted: bool, ordId: Option<Id>, link: Link) {
    id in s.tracked &&
    match s.tracked[id]
    case OrderResponse => OrderResponseThrows(s, accepted, ordId, link)
    case AmendResponse => AmendResponseThrows(s, accepted, link)
    case CancelResponse => !accepted && !TripIn(s, {PendingCancel, PendingAmend})
  }

  lemma DispatchKeepsInv(cfg: Config, s: State, id: Id, accepted: bool, ordId: Option<Id>, link: Link)
    requires Inv(s)
    ensures var r := Dispatch(cfg, s, id, accepted, ordId, link);
            && (r.Threw? <==> DispatchThrows(s, id, accepted, ordId, link))
            && (r.Done? ==> Inv(r.state))
  {
    hide StoreOk, SlotOk, OnOrderResponse, OnAmendResponse, RejectRequest, Lookup;
    if id in s.tracked {
      var t := s.(tracked := s.tracked - {id});
      assert Inv(t);
      OrderResponseKeepsInv(cfg, t, accepted, ordId, link);
      AmendResponseKeepsInv(cfg, t, accepted, link);
      RejectKeepsInv(t);
    }
  }

  // Every run.

  /** When a step throws, in terms of the state before it and of what the world does. */
  predicate Throws(s: State, input: Input) {
    match input
    case BookUpdate(authenticated, bestBid, bestAsk, px, c1, c2) =>
      && !s.triggered && authenticated && bestBid.Some? && bestAsk.Some?
      && (s.mid.None? || Deviates((bestBid.value + bestAsk.value) / 2.0, s.mid.value))
      && RequoteThrows(s, c1, c2)
    case QuoterTimer(authenticated, px, c1, c2) =>
      !s.triggered && authenticated && s.mid.Some? && TimerThrows(s, c1, c2)
    case Login(accepted, fits, listed, sizeOk, link, rest) => accepted && LoginThrows(s, fits, listed, sizeOk, link, rest)
    case OrderMessage(event, good) => Breaches(s, event) && TriggerThrows(s, good)
    case Response(id, accepted, ordId, link) => DispatchThrows(s, id, accepted, ordId, link)
    case Timeout(overdue, listed) => AnyOverdue(s.store, overdue) && ReconcileThrows(s, listed)
    case Shutdown(good) => TriggerThrows(s, good)
  }

  lemma StepKeepsInv(cfg: Config, s: State, input: Input)
    requires Inv(s) && Allowed(cfg, s, input)
    ensures Step(cfg, s, input).Threw? <==> Throws(s, input)
    ensures Step(cfg, s, input).Done? ==> Inv(Step(cfg, s, input).state)
  {
    hide StoreOk, SlotOk, Requote, OnTimer, HandleLogin, HandleOrderEvent, Dispatch, ReconcileState, Deviates, Cancels,
      RequoteThrows, TimerThrows, LoginThrows, Breaches, DispatchThrows, ReconcileThrows, FreshCalls, AnyOverdue, ListedIds;
    assert s.seen + {} == s.seen;
    match input
    case BookUpdate(_, bestBid, bestAsk, px, c1, c2) =>
      if bestBid.Some? && bestAsk.Some? {
        var mid := (bestBid.value + bestAsk.value) / 2.0;
        if !s.triggered && input.authenticated && (s.mid.None? || Deviates(mid, s.mid.value)) {
          RequoteKeepsInv(cfg, s, mid, px, c1, c2);
        }
      }
    case QuoterTimer(_, px, c1, c2) =>
      if !s.triggered && input.authenticated {
        OnTimerKeepsInv(cfg, s, px, c1, c2);
      }
    case Login(accepted, fits, listed, sizeOk, link, rest) =>
      LoginKeepsInv(cfg, s, accepted, fits, listed, sizeOk, link, rest);
    case OrderMessage(event, good) => EventKeepsInv(s, event, good);
    case Response(id, accepted, ordId, link) => DispatchKeepsInv(cfg, s, id, accepted, ordId, link);
    case Timeout(_, listed) => ReconcileKeepsInv(s, listed);
    case Shutdown(_) =>
  }

  lemma InitialInv(counter: nat)
    ensures Inv(Initial(counter))
  {
  }

  /**
    In every reachable state the store holds no terminal order, each set slot names a
    stored order on its own side, and a realised loss beyond 50 has triggered the switch.
  */
  lemma {:induction false} RunKeepsInv(cfg: Config, states: seq<State>, inputs: seq<Input>, i: nat)
    requires Trading.IsRun(cfg, states, inputs) && i <= |inputs|
    ensures Inv(states[i])
  {
    hide Inv, Step, Allowed, Throws;
    if i == 0 {
      InitialInv(states[0].lastId);
    } else {
      RunKeepsInv(cfg, states, inputs, i - 1);
      assert Trading.StepAt(cfg, states, inputs, i - 1);
      StepKeepsInv(cfg, states[i - 1], inputs[i - 1]);
    }
  }

  /**
    In every reachable state a step throws exactly when its guard says so. So no event on a stored
    order and no amend request of the quoter throws for the state of the order: only a full store, a
    full ring, an unanswered REST call, a list that cannot be reconciled, or a response for a round
    trip that has moved on does.
  */
  lemma RunThrowsExactly(cfg: Config, states: seq<State>, inputs: seq<Input>, input: Input)
    requires Trading.IsRun(cfg, states, inputs) && Allowed(cfg, states[|inputs|], input)
    ensures Step(cfg, states[|inputs|], input).Threw? <==> Throws(states[|inputs|], input)
  {
    hide Inv, Step, Allowed, Throws;
    RunKeepsInv(cfg, states, inputs, |inputs|);
    StepKeepsInv(cfg, states[|inputs|], input);
  }
}
