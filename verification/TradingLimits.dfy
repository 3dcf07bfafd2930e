/** The kill switch, the batches and the rate limits, over the log of every call made. */
module TradingLimits {
  import opened Common
  import opened OrderIds
  import opened OrderLifecycle
  import opened OrderStore
  import opened Reconciliation
  import opened Trading
  import opened TradingSafety
  import RateLimiter

  predicate IsNewOrder(a: Action) {
    a.QuotePlaced? || a.TripPlaced? || a.RestPlaced?
  }

  /** The calls that place an order, by socket or by REST, whether they went through or not. */
  function NewOrders(log: seq<Call>): seq<Call> {
    if log == [] then []
    else NewOrders(log[..|log| - 1]) + (if IsNewOrder(log[|log| - 1].action) then [log[|log| - 1]] else [])
  }

  predicate IsQuote(a: Action) {
    a.QuotePlaced? || a.QuoteAmended?
  }

  /** When the quoter placed orders, or amended them. */
  function QuoteTimes(log: seq<Call>, amends: bool): seq<int> {
    if log == [] then []
    else
      var a := log[|log| - 1].action;
      QuoteTimes(log[..|log| - 1], amends)
      + (if amends && a.QuoteAmended? then [a.at] else if !amends && a.QuotePlaced? then [a.at] else [])
  }

  predicate IsBatch(a: Action) {
    a.BatchBegun? || a.BatchEnded?
  }

  /** The socket is batching after these calls. */
  predicate BatchOpen(log: seq<Call>) {
    log != [] && (log[|log| - 1].action.BatchBegun? || (!IsBatch(log[|log| - 1].action) && BatchOpen(log[..|log| - 1])))
  }

  lemma {:induction false} NoNewOrders(log: seq<Call>, more: seq<Call>)
    requires forall k :: 0 <= k < |more| ==> !IsNewOrder(more[k].action)
    ensures NewOrders(log + more) == NewOrders(log)
    decreases |more|
  {
    if more == [] {
      assert log + more == log;
    } else {
      var n := |more| - 1;
      assert (log + more)[..|log| + n] == log + more[..n];
      NoNewOrders(log, more[..n]);
    }
  }

  lemma {:induction false} NoQuotes(log: seq<Call>, more: seq<Call>, amends: bool)
    requires forall k :: 0 <= k < |more| ==> !IsQuote(more[k].action)
    ensures QuoteTimes(log + more, amends) == QuoteTimes(log, amends)
    decreases |more|
  {
    if more == [] {
      assert log + more == log;
    } else {
      var n := |more| - 1;
      assert (log + more)[..|log| + n] == log + more[..n];
      NoQuotes(log, more[..n], amends);
    }
  }

  lemma {:induction false} NoBatches(log: seq<Call>, more: seq<Call>)
    requires forall k :: 0 <= k < |more| ==> !IsBatch(more[k].action)
    ensures BatchOpen(log + more) == BatchOpen(log)
    decreases |more|
  {
    if more == [] {
      assert log + more == log;
    } else {
      var n := |more| - 1;
      assert (log + more)[..|log| + n] == log + more[..n];
      NoBatches(log, more[..n]);
    }
  }

  // The cancels of the kill switch.

  /** How many of the first `k` orders have an exchange id. */
  function Known(store: seq<Order>, k: nat): nat
    requires k <= |store|
  {
    if k == 0 then 0 else Known(store, k - 1) + if store[k - 1].ordId == "" then 0 else 1
  }

  /** Exactly one cancel for each stored order with an exchange id, in the order of the store, and no other. */
  lemma CancelsExact(store: seq<Order>, k: nat)
    requires k <= |store|
    ensures Cancels(store[..k]) <= Cancels(store)
    ensures |Cancels(store[..k])| == Known(store, k)
    ensures k < |store| && store[k].ordId != "" ==>
              Known(store, k) < |Cancels(store)| && Cancels(store)[Known(store, k)] == RestCanceled(store[k].instId, store[k].ordId)
  {
    CancelsPrefix(store, k);
    CancelsCount(store, k);
    if k < |store| {
      CancelsPrefix(store, k + 1);
      CancelsCount(store, k + 1);
      assert store[..k + 1][..k] == store[..k];
    }
  }

  lemma {:induction false} CancelsPrefix(store: seq<Order>, k: nat)
    requires k <= |store|
    ensures Cancels(store[..k]) <= Cancels(store)
    decreases |store| - k
  {
    if k == |store| {
      assert store[..k] == store;
    } else {
      assert store[..k + 1][..k] == store[..k];
      CancelsPrefix(store, k + 1);
    }
  }

  lemma {:induction false} CancelsCount(store: seq<Order>, k: nat)
    requires k <= |store|
    ensures |Cancels(store[..k])| == Known(store, k)
  {
    if k > 0 {
      assert store[..k][..k - 1] == store[..k - 1];
      CancelsCount(store, k - 1);
    }
  }

  lemma {:induction false} CancelsAreCancels(store: seq<Order>)
    ensures forall k :: 0 <= k < |Cancels(store)| ==> Cancels(store)[k].RestCanceled?
  {
    if store != [] {
      CancelsAreCancels(store[..|store| - 1]);
    }
  }

  // What a step outside the quoter calls.

  predicate ByQuoter(input: Input) {
    input.BookUpdate? || input.QuoterTimer?
  }

  /** The calls on top of `before`. */
  function Added(before: seq<Call>, after: seq<Call>): seq<Call>
    requires |before| <= |after|
  {
    after[|before|..]
  }

  /** Neither the limiters nor the kill switch have moved. */
  predicate SameLimits(s: State, t: State) {
    t.orderQueue == s.orderQueue && t.amendQueue == s.amendQueue && t.triggered == s.triggered
  }

  /** The round trip and the quoted mid are as they were. */
  predicate SameTrip(s: State, t: State) {
    t.tripId == s.tripId && t.tripOrdId == s.tripOrdId && t.tracked == s.tracked && t.mid == s.mid
  }

  /** On top of `log` there are calls, none of them a quote or a batch, and no new order if `quiet`. */
  ghost predicate Adds(log: seq<Call>, after: seq<Call>, quiet: bool) {
    && log <= after
    && forall k :: |log| <= k < |after| ==>
         !IsQuote(after[k].action) && !IsBatch(after[k].action) && (quiet ==> !IsNewOrder(after[k].action))
  }

  lemma AddsOn(a: seq<Call>, b: seq<Call>, c: seq<Call>, quiet: bool)
    requires Adds(a, b, quiet) && Adds(b, c, quiet)
    ensures Adds(a, c, quiet)
  {
    assert forall k :: |a| <= k < |b| ==> c[k] == b[k];
  }

  lemma AddsKeep(log: seq<Call>, after: seq<Call>, quiet: bool)
    requires Adds(log, after, quiet)
    ensures QuoteTimes(after, false) == QuoteTimes(log, false) && QuoteTimes(after, true) == QuoteTimes(log, true)
    ensures BatchOpen(after) == BatchOpen(log)
    ensures quiet ==> NewOrders(after) == NewOrders(log)
  {
    hide QuoteTimes, BatchOpen, NewOrders;
    var more := after[|log|..];
    assert after == log + more;
    NoQuotes(log, more, false);
    NoQuotes(log, more, true);
    NoBatches(log, more);
    if quiet {
      NoNewOrders(log, more);
    }
  }

  lemma {:induction false} RemovedAllOnlySlots(s: State, removed: seq<Id>)
    ensures var t := RemovedAll(s, removed);
            && t.log == s.log && SameLimits(s, t) && t.position == s.position && t.store == s.store && t.lastId == s.lastId
            && SameTrip(s, t)
  {
    if removed != [] {
      RemovedAllOnlySlots(s, removed[..|removed| - 1]);
    }
  }

  lemma ReconcileSends(s: State, listed: Option<seq<Listed>>)
    ensures var r := ReconcileState(s, listed);
            && Adds(s.log, Calls(r), true)
            && (r.Done? ==> SameLimits(s, r.state) && r.state.position == s.position && r.state.lastId == s.lastId)
            && (r.Done? ==> SameTrip(s, r.state))
  {
    hide Keep, AdoptAll, Drops, RemovedAll;
    if listed.Some? && ReconcileState(s, listed).Done? {
      var t, ls := Sends(s, RestListed), listed.value;
      var adopted := AdoptAll(t.store, ls).value;
      RemovedAllOnlySlots(t.(store := Keep(adopted, ListedIds(ls)), seen := t.seen + ListedIds(ls)), Drops(adopted, ListedIds(ls)));
    }
  }

  lemma ApplySends(s: State, e: OrderEvent)
    ensures var r := ApplyOrderEvent(s, e);
            && Calls(r) == s.log
            && (r.Done? ==> SameLimits(s, r.state) && r.state.position == s.position && SameTrip(s, r.state))
  {
    hide Lookup, Put, Without;
  }

  /** What triggering calls: every cancel, or the cancels up to the one that is not answered. */
  ghost predicate CancelsMade(s: State, good: nat, log: seq<Call>) {
    var cancels := Cancels(s.store);
    log == if |cancels| <= good then s.log + Answered(cancels)
           else s.log + Answered(cancels[..good]) + [Call(cancels[good], false)]
  }

  lemma CancelsAreQuiet(s: State, good: nat, log: seq<Call>)
    requires CancelsMade(s, good, log)
    ensures Adds(s.log, log, true)
  {
    hide Cancels;
    CancelsAreCancels(s.store);
  }

  /** An order event calls nothing, or it triggers the kill switch and calls its cancels. */
  lemma EventSends(s: State, e: OrderEvent, good: nat)
    requires Inv(s)
    ensures var r := HandleOrderEvent(s, e, good);
            && (r.Done? ==> r.state.orderQueue == s.orderQueue && r.state.amendQueue == s.amendQueue)
            && (r.Done? ==> r.state.triggered == (s.triggered || Breaches(s, e)))
            && (if !s.triggered && Breaches(s, e) then CancelsMade(s, good, Calls(r)) else Calls(r) == s.log)
            && (r.Done? && Breaches(s, e) ==> r.state.position.realizedPnl < -50.0)
  {
    hide ApplyOrderEvent, Cancels, AfterFill, StoreOk, SlotOk;
    EventKeepsInv(s, e, good);
    if HasFill(e) {
      match ApplyFill(s, e.side, e.fill.value, good)
      case Threw(_) =>
      case Done(t) => ApplySends(t, e);
    } else {
      ApplySends(s, e);
    }
  }

  lemma StartSends(cfg: Config, s: State, link: Link, rest: RestAnswer)
    ensures var r := StartTrip(cfg, s, link, rest);
            s.log <= Calls(r) && Adds(s.log, Calls(r), false) && (r.Done? ==> SameLimits(s, r.state))
  {
    hide Insert, ToString, Track;
  }

  lemma LoginSends(cfg: Config, s: State, input: Input)
    requires input.Login?
    ensures var r := Step(cfg, s, input);
            && Adds(s.log, Calls(r), s.triggered)
            && (r.Done? ==> SameLimits(s, r.state))
  {
    hide ReconcileState, StartTrip;
    if input.accepted && input.fits {
      var t := Sends(s, Subscribed);
      ReconcileSends(t, input.listed);
      var r := ReconcileState(t, input.listed);
      AddsOn(s.log, t.log, Calls(r), true);
      if r.Done? && MayStart(r.state, input.sizeOk) {
        StartSends(cfg, r.state, input.link, input.rest);
        AddsOn(s.log, Calls(r), Calls(StartTrip(cfg, r.state, input.link, input.rest)), false);
      }
    }
  }

  /** At most one request or REST cancel is called. */
  predicate SendsRequest(s: State, r: Outcome) {
    && (r.Done? ==> SameLimits(s, r.state))
    && (Calls(r) == s.log
        || (|Calls(r)| == |s.log| + 1 && s.log <= Calls(r)
            && (var a := Calls(r)[|s.log|].action; a.TripAmended? || a.TripCanceled? || a.RestCanceled?)))
  }

  lemma OrderResponseSends(cfg: Config, s: State, accepted: bool, ordId: Option<Id>, link: Link)
    ensures SendsRequest(s, OnOrderResponse(cfg, s, accepted, ordId, link))
  {
    hide Lookup, Put, ToString, OnAmendRequested, Track;
  }

  lemma AmendResponseSends(cfg: Config, s: State, accepted: bool, link: Link)
    ensures SendsRequest(s, OnAmendResponse(cfg, s, accepted, link))
  {
    hide Lookup, Put, ToString, OnCancelRequested, OnRequestRejected, Track;
  }

  lemma ResponseSends(cfg: Config, s: State, input: Input)
    requires input.Response?
    ensures SendsRequest(s, Step(cfg, s, input))
  {
    hide Lookup, Put, OnOrderResponse, OnAmendResponse, OnRequestRejected;
    if input.id in s.tracked {
      var t := s.(tracked := s.tracked - {input.id});
      OrderResponseSends(cfg, t, input.accepted, input.ordId, input.link);
      AmendResponseSends(cfg, t, input.accepted, input.link);
    }
  }

  /** The input asks for the switch to be triggered. */
  predicate Triggers(s: State, input: Input) {
    !s.triggered && (input.Shutdown? || (input.OrderMessage? && Breaches(s, input.event)))
  }

  lemma OtherSends(cfg: Config, s: State, input: Input)
    requires Inv(s) && !ByQuoter(input)
    ensures var r := Step(cfg, s, input);
            && Adds(s.log, Calls(r), s.triggered || !input.Login?)
            && (r.Done? ==> r.state.orderQueue == s.orderQueue && r.state.amendQueue == s.amendQueue)
            && (r.Done? ==> r.state.triggered == (s.triggered || Triggers(s, input)))
            && (Triggers(s, input) ==> CancelsMade(s, input.good, Calls(r)))
            && (Triggers(s, input) && r.Done? ==> input.Shutdown? || r.state.position.realizedPnl < -50.0)
  {
    hide ReconcileState, HandleLogin, HandleOrderEvent, Dispatch, Cancels, Breaches, StoreOk, SlotOk, CancelsMade, AnyOverdue;
    match input
    case Login(_, _, _, _, _, _) => LoginSends(cfg, s, input);
    case OrderMessage(event, good) =>
      EventSends(s, event, good);
      if Triggers(s, input) {
        CancelsAreQuiet(s, good, Calls(Step(cfg, s, input)));
      }
    case Response(_, _, _, _) => ResponseSends(cfg, s, input);
    case Timeout(_, listed) => ReconcileSends(s, listed);
    case Shutdown(good) =>
      if !s.triggered {
        ShutdownSends(s, good);
        CancelsAreQuiet(s, good, Calls(Step(cfg, s, input)));
      }
  }

  lemma ShutdownSends(s: State, good: nat)
    requires !s.triggered
    ensures CancelsMade(s, good, Calls(Trigger(s, good)))
  {
  }

  lemma SideKeepsSwitch(cfg: Config, s: State, buy: bool, px: string, c: Turn)
    ensures var r := ReplaceSide(cfg, s, buy, px, c); r.Done? ==> r.state.triggered == s.triggered
    ensures var r := FillSide(cfg, s, buy, px, c); r.Done? ==> r.state.triggered == s.triggered
  {
    hide Lookup, Put, Insert, ToString, TryAcquire, OnAmendRequested;
  }

  lemma QuoterKeepsSwitch(cfg: Config, s: State, input: Input)
    requires ByQuoter(input)
    ensures var r := Step(cfg, s, input);
            && (r.Done? ==> r.state.triggered == s.triggered)
            && (s.triggered ==> r == Done(s))
  {
    hide ReplaceSide, FillSide, Deviates;
    var begun := Sends(s, BatchBegun);
    SideKeepsSwitch(cfg, begun, true, input.px.bid, input.c1);
    var r, f := ReplaceSide(cfg, begun, true, input.px.bid, input.c1), FillSide(cfg, begun, true, input.px.bid, input.c1);
    if r.Done? {
      SideKeepsSwitch(cfg, r.state, false, input.px.ask, input.c2);
    }
    if f.Done? {
      SideKeepsSwitch(cfg, f.state, false, input.px.ask, input.c2);
    }
  }

  // When what is assumed of the listed ids holds.

  /** The generator has passed these ids, or never makes them. */
  ghost predicate Passed(ids: set<Id>, last: nat) {
    forall id :: id in ids ==> NotFuture(id, last)
  }

  lemma FreshOn(ids: set<Id>, a: seq<Call>, b: seq<Call>, c: seq<Call>)
    requires FreshCalls(ids, a, b) && b <= c && FreshCalls(ids, b, c)
    ensures FreshCalls(ids, a, c)
  {
    assert forall k :: 0 <= k < |b| ==> c[k] == b[k];
  }

  /** What a side of the quoter places is under a later id. */
  lemma SideFresh(cfg: Config, s: State, buy: bool, px: string, c: Turn, ids: set<Id>)
    requires Passed(ids, s.lastId)
    ensures var r := ReplaceSide(cfg, s, buy, px, c);
            FreshCalls(ids, s.log, Calls(r)) && (r.Done? ==> Passed(ids, r.state.lastId))
    ensures var r := FillSide(cfg, s, buy, px, c);
            FreshCalls(ids, s.log, Calls(r)) && (r.Done? ==> Passed(ids, r.state.lastId))
  {
    hide Lookup, Put, Insert, ToString, TryAcquire, OnAmendRequested, Passed;
    PassedLater(ids, s.lastId, c.wall);
  }

  lemma PassedLater(ids: set<Id>, last: nat, wall: int)
    requires Passed(ids, last)
    ensures Passed(ids, NextId(last, wall)) && ToString(NextId(last, wall)) !in ids
  {
    hide ToString;
  }

  lemma BothFresh(cfg: Config, s: State, px: Prices, c1: Turn, c2: Turn, ids: set<Id>)
    requires Passed(ids, s.lastId)
    ensures var r := ReplaceBoth(cfg, s, px, c1, c2); s.log <= Calls(r) && FreshCalls(ids, s.log, Calls(r))
    ensures var r := FillBoth(cfg, s, px, c1, c2); s.log <= Calls(r) && FreshCalls(ids, s.log, Calls(r))
  {
    hide ReplaceSide, FillSide, Passed, FreshCalls;
    SideGrows(cfg, s, true, px.bid, c1);
    SideFresh(cfg, s, true, px.bid, c1, ids);
    var r, f := ReplaceSide(cfg, s, true, px.bid, c1), FillSide(cfg, s, true, px.bid, c1);
    if r.Done? {
      SideGrows(cfg, r.state, false, px.ask, c2);
      SideFresh(cfg, r.state, false, px.ask, c2, ids);
      FreshOn(ids, s.log, r.state.log, Calls(ReplaceSide(cfg, r.state, false, px.ask, c2)));
    }
    if f.Done? {
      SideGrows(cfg, f.state, false, px.ask, c2);
      SideFresh(cfg, f.state, false, px.ask, c2, ids);
      FreshOn(ids, s.log, f.state.log, Calls(FillSide(cfg, f.state, false, px.ask, c2)));
    }
  }

  lemma QuoterFresh(cfg: Config, s: State, input: Input, ids: set<Id>)
    requires ByQuoter(input) && Passed(ids, s.lastId)
    ensures FreshCalls(ids, s.log, Calls(Step(cfg, s, input)))
  {
    hide ReplaceBoth, FillBoth, Deviates, Passed;
    BothFresh(cfg, Sends(s, BatchBegun), input.px, input.c1, input.c2, ids);
  }

  lemma StartFresh(cfg: Config, s: State, link: Link, rest: RestAnswer, ids: set<Id>)
    requires Passed(ids, s.lastId)
    ensures FreshCalls(ids, s.log, Calls(StartTrip(cfg, s, link, rest)))
  {
    hide Insert, ToString, Track, Passed;
    PassedLater(ids, s.lastId, link.wall);
  }

  lemma QuietIsFresh(a: seq<Call>, b: seq<Call>, ids: set<Id>)
    requires Adds(a, b, true)
    ensures FreshCalls(ids, a, b)
  {
  }

  lemma LoginFresh(cfg: Config, s: State, input: Input, ids: set<Id>)
    requires input.Login? && Passed(ids, s.lastId)
    ensures FreshCalls(ids, s.log, Calls(Step(cfg, s, input)))
  {
    hide ReconcileState, StartTrip, Passed, FreshCalls, Adds;
    LoginQuiet(s, input);
    var begun := Sends(s, Subscribed);
    var r := ReconcileState(begun, input.listed);
    QuietIsFresh(s.log, s.log, ids);
    QuietIsFresh(s.log, Calls(Fails(s, Subscribed)), ids);
    QuietIsFresh(s.log, Calls(r), ids);
    if r.Done? {
      var started := StartTrip(cfg, r.state, input.link, input.rest);
      StartFresh(cfg, r.state, input.link, input.rest, ids);
      StartSends(cfg, r.state, input.link, input.rest);
      FreshOn(ids, s.log, Calls(r), Calls(started));
    }
  }

  lemma LoginQuiet(s: State, input: Input)
    requires input.Login?
    ensures Adds(s.log, s.log, true) && Adds(s.log, Calls(Fails(s, Subscribed)), true)
    ensures var r := ReconcileState(Sends(s, Subscribed), input.listed);
            Adds(s.log, Calls(r), true) && (r.Done? ==> r.state.lastId == s.lastId)
  {
    hide ReconcileState;
    var begun := Sends(s, Subscribed);
    ReconcileSends(begun, input.listed);
    AddsOn(s.log, begun.log, Calls(ReconcileState(begun, input.listed)), true);
  }

  /**
    A list may be anything the exchange shows of orders placed before, by this process or by hand: as
    long as the counter has passed every listed id that it could make, every input is allowed.
  */
  lemma PassedIdsAllowed(cfg: Config, s: State, input: Input)
    requires Inv(s) && !s.stopped && Passed(ListedSoFar(s, input), s.lastId)
    ensures Allowed(cfg, s, input)
  {
    hide Step, Inv, Passed, FreshCalls, Adds, Triggers, CancelsMade;
    var ids := ListedSoFar(s, input);
    if ByQuoter(input) {
      QuoterFresh(cfg, s, input, ids);
    } else if input.Login? {
      LoginFresh(cfg, s, input, ids);
    } else {
      OtherSends(cfg, s, input);
      QuietIsFresh(s.log, Calls(Step(cfg, s, input)), ids);
    }
  }

  // The kill switch.

  lemma TriggeredStep(cfg: Config, s: State, input: Input)
    requires Inv(s) && s.triggered
    ensures var r := Step(cfg, s, input);
            NewOrders(Calls(r)) == NewOrders(s.log) && (r.Done? ==> r.state.triggered)
  {
    hide Step, NewOrders, Inv, Adds, Triggers;
    if ByQuoter(input) {
      QuoterKeepsSwitch(cfg, s, input);
    } else {
      OtherSends(cfg, s, input);
      AddsKeep(s.log, Calls(Step(cfg, s, input)), true);
    }
  }

  /**
    Once the switch is triggered no call places an order again, by socket or by REST, up to and
    including a step that throws.
  */
  lemma {:induction false} NoOrderAfterTrigger(cfg: Config, states: seq<State>, inputs: seq<Input>, i: nat, j: nat, next: Input)
    requires Trading.IsRun(cfg, states, inputs) && i <= j <= |inputs| && states[i].triggered
    ensures states[j].triggered && NewOrders(states[j].log) == NewOrders(states[i].log)
    ensures NewOrders(Calls(Step(cfg, states[j], next))) == NewOrders(states[i].log)
    decreases j
  {
    hide Step, NewOrders, Allowed, Inv;
    if i < j {
      NoOrderAfterTrigger(cfg, states, inputs, i, j - 1, inputs[j - 1]);
      assert Trading.StepAt(cfg, states, inputs, j - 1);
      RunKeepsInv(cfg, states, inputs, j - 1);
      TriggeredStep(cfg, states[j - 1], inputs[j - 1]);
    }
    RunKeepsInv(cfg, states, inputs, j);
    TriggeredStep(cfg, states[j], next);
  }

  /**
    In every reachable state with the switch off, a shutdown or a fill beyond the loss limit asks for
    the cancels and for nothing else. The step returns, with every cancel answered and the switch on,
    exactly when none of the REST calls throws; otherwise exactly the cancels before the first that
    throws were answered, and none after it is asked for.
  */
  lemma TriggerCancels(cfg: Config, states: seq<State>, inputs: seq<Input>, input: Input)
    requires Trading.IsRun(cfg, states, inputs) && Triggers(states[|inputs|], input)
    ensures var s := states[|inputs|];
            var r, cancels := Step(cfg, s, input), Cancels(s.store);
            && (r.Done? <==> |cancels| <= input.good)
            && (r.Done? ==> r.state.triggered && r.state.log == s.log + Answered(cancels))
            && (r.Threw? ==> r.log == s.log + Answered(cancels[..input.good]) + [Call(cancels[input.good], false)])
            && NewOrders(Calls(r)) == NewOrders(s.log)
  {
    hide Step, NewOrders, Inv, Cancels, Breaches, Adds, HandleOrderEvent;
    var s := states[|inputs|];
    RunKeepsInv(cfg, states, inputs, |inputs|);
    OtherSends(cfg, s, input);
    AddsKeep(s.log, Calls(Step(cfg, s, input)), true);
    TriggerReturns(cfg, s, input);
  }

  lemma TriggerReturns(cfg: Config, s: State, input: Input)
    requires Inv(s) && Triggers(s, input)
    ensures Step(cfg, s, input).Done? <==> |Cancels(s.store)| <= input.good
  {
    hide Cancels, Breaches, HandleOrderEvent, Inv;
    if input.OrderMessage? {
      EventKeepsInv(s, input.event, input.good);
    }
  }

  /** Reconciling an empty store with one listed order adopts it. */
  lemma OneAdopted(s: State, l: Listed)
    requires s.store == [] && s.bid == None && s.ask == None && Adoptable(l)
    ensures ReconcileState(s, Some([l])) == Done(Sends(s, RestListed).(store := [Adopted(l)], seen := s.seen + {l.clOrdId}))
  {
    hide Adopted;
    var o, ids := Adopted(l), ListedIds([l]);
    assert [l][..0] == [];
    assert ids == {l.clOrdId} by { assert ListedIds([l][..0]) == {}; }
    assert AdoptAll([], [l]) == Some([o]) by {
      assert AdoptAll([], [l][..0]) == Some([]);
      assert Insert([], o) == [o];
    }
    assert [o][..0] == [];
    assert Keep([o], ids) == [o] by { assert Keep([o][..0], ids) == []; }
    assert Drops([o], ids) == [] by { assert Drops([o][..0], ids) == []; }
  }

  lemma OneCancel(s: State, o: Order)
    requires s.store == [o] && o.ordId != "" && !s.triggered
    ensures Trigger(s, 0) == Threw(s.log + [Call(RestCanceled(o.instId, o.ordId), false)])
  {
    var cancels := [RestCanceled(o.instId, o.ordId)];
    assert Cancels(s.store) == cancels by {
      assert s.store[..0] == [];
      assert Cancels(s.store[..0]) == [];
    }
    assert Answered(cancels[..0]) == [];
    assert s.log + [] + [Call(cancels[0], false)] == s.log + [Call(cancels[0], false)];
  }

  /**
    There is such a run from every counter: the login finds the order the process has placed before,
    adopts it, and a shutdown cannot cancel it.
  */
  lemma UnansweredCancel(cfg: Config, counter: nat, link: Link) returns (states: seq<State>, inputs: seq<Input>)
    ensures Trading.IsRun(cfg, states, inputs) && |inputs| == 1 && states[0] == Initial(counter)
    ensures Allowed(cfg, states[1], Shutdown(0))
    ensures Step(cfg, states[1], Shutdown(0)) == Threw(states[1].log + [Call(RestCanceled("ETH-USDT", "7"), false)])
  {
    hide ToString, Adopted, Cancels, ListedIds, StartTrip, ReconcileState, Trigger;
    var l := Listed(ToString(counter), "live", "7", "ETH-USDT", "buy", "100", "1", "0", "");
    var begun := Sends(Initial(counter), Subscribed);
    OneAdopted(begun, l);
    var s := Sends(begun, RestListed).(store := [Adopted(l)], seen := begun.seen + {l.clOrdId});
    inputs := [Login(true, true, Some([l]), false, link, NoAnswer)];
    states := [Initial(counter), s];
    assert Trading.StepAt(cfg, states, inputs, 0);
    OneCancel(s, Adopted(l));
  }

  /** The switch goes on only by a shutdown or a loss beyond 50, and from that step on no order is placed. */
  lemma TriggerStops(cfg: Config, states: seq<State>, inputs: seq<Input>, i: nat, j: nat)
    requires Trading.IsRun(cfg, states, inputs) && i < j <= |inputs|
    requires !states[i].triggered && states[i + 1].triggered
    ensures inputs[i].Shutdown? || states[i + 1].position.realizedPnl < -50.0
    ensures NewOrders(states[j].log) == NewOrders(states[i].log)
  {
    hide Step, NewOrders, Allowed, Cancels, Inv, Adds, CancelsMade, Breaches;
    assert Trading.StepAt(cfg, states, inputs, i);
    RunKeepsInv(cfg, states, inputs, i);
    if ByQuoter(inputs[i]) {
      QuoterKeepsSwitch(cfg, states[i], inputs[i]);
    } else {
      OtherSends(cfg, states[i], inputs[i]);
      AddsKeep(states[i].log, states[i + 1].log, true);
    }
    NoOrderAfterTrigger(cfg, states, inputs, i + 1, j, inputs[i]);
  }

  // The rate limits.

  ghost predicate Within(grants: seq<int>) {
    RateLimiter.WithinLimit(60, 2_000_000_000, grants)
  }

  ghost predicate Tracked(grants: seq<int>, queue: seq<int>, last: int) {
    RateLimiter.Tracked(60, 2_000_000_000, grants, queue, last)
  }

  /** Neither the placements nor the amends called for pass their limit. */
  ghost predicate LogWithin(log: seq<Call>) {
    Within(QuoteTimes(log, false)) && Within(QuoteTimes(log, true))
  }

  /** Both limiters remember what the log says of the quoter, up to `last`. */
  ghost predicate Rates(s: State, last: int) {
    Tracked(QuoteTimes(s.log, false), s.orderQueue, last) && Tracked(QuoteTimes(s.log, true), s.amendQueue, last)
  }

  /** What a handler of the quoter leaves, whether it returns or throws. */
  ghost predicate RatesAfter(r: Outcome, last: int) {
    match r case Done(t) => Rates(t, last) case Threw(log) => LogWithin(log)
  }

  lemma TrackedWithin(grants: seq<int>, queue: seq<int>, last: int)
    requires Tracked(grants, queue, last)
    ensures Within(grants)
  {
  }

  lemma RatesWithin(s: State, last: int)
    requires Rates(s, last)
    ensures LogWithin(s.log)
  {
    hide Tracked, Within;
    TrackedWithin(QuoteTimes(s.log, false), s.orderQueue, last);
    TrackedWithin(QuoteTimes(s.log, true), s.amendQueue, last);
  }

  lemma TrackedLater(grants: seq<int>, queue: seq<int>, last: int, now: int)
    requires Tracked(grants, queue, last) && last <= now
    ensures Tracked(grants, queue, now)
  {
  }

  lemma Acquires(grants: seq<int>, queue: seq<int>, last: int, now: int)
    requires Tracked(grants, queue, last) && last <= now
    ensures var a := TryAcquire(queue, now);
            if a.granted then Tracked(grants + [now], a.queue, now) else Tracked(grants, a.queue, now)
  {
    RateLimiter.CallKeepsTracked(60, 2_000_000_000, grants, queue, last, now);
    assert grants + [] == grants;
  }

  lemma OneQuote(log: seq<Call>, a: Action, ok: bool, amends: bool)
    ensures QuoteTimes(log + [Call(a, ok)], amends)
            == if (amends && a.QuoteAmended?) || (!amends && a.QuotePlaced?) then QuoteTimes(log, amends) + [a.at]
               else QuoteTimes(log, amends)
  {
    assert (log + [Call(a, ok)])[..|log|] == log;
  }

  lemma PlaceRates(cfg: Config, s: State, buy: bool, px: string, c: Turn, last: int)
    requires Rates(s, last) && last <= c.steady
    ensures RatesAfter(PlaceInto(cfg, s, buy, px, c), c.steady)
  {
    hide Tracked, Within, QuoteTimes, TryAcquire, Insert, ToString;
    var placed, amended := QuoteTimes(s.log, false), QuoteTimes(s.log, true);
    RatesWithin(s, last);
    Acquires(placed, s.orderQueue, last, c.steady);
    TrackedLater(amended, s.amendQueue, last, c.steady);
    var out := QuotePlaced(ToString(NextId(s.lastId, c.wall)), Side(buy), px, c.steady);
    OneQuote(s.log, out, c.fits, false);
    OneQuote(s.log, out, c.fits, true);
    var a := TryAcquire(s.orderQueue, c.steady);
    if a.granted {
      TrackedWithin(placed + [c.steady], a.queue, c.steady);
    }
  }

  lemma AmendRates(s: State, o: Order, px: string, c: Turn, last: int)
    requires Rates(s, last) && last <= c.steady
    ensures RatesAfter(AmendSide(s, o, px, c), c.steady)
  {
    hide Tracked, Within, QuoteTimes, TryAcquire, Put;
    var placed, amended := QuoteTimes(s.log, false), QuoteTimes(s.log, true);
    RatesWithin(s, last);
    Acquires(amended, s.amendQueue, last, c.steady);
    TrackedLater(placed, s.orderQueue, last, c.steady);
    var out := QuoteAmended(o.ordId, px, c.steady);
    OneQuote(s.log, out, c.fits, false);
    OneQuote(s.log, out, c.fits, true);
    var a := TryAcquire(s.amendQueue, c.steady);
    if a.granted {
      TrackedWithin(amended + [c.steady], a.queue, c.steady);
    }
  }

  lemma RatesLater(s: State, last: int, now: int)
    requires Rates(s, last) && last <= now
    ensures Rates(s, now)
  {
    hide Tracked, QuoteTimes;
    TrackedLater(QuoteTimes(s.log, false), s.orderQueue, last, now);
    TrackedLater(QuoteTimes(s.log, true), s.amendQueue, last, now);
  }

  lemma BatchRates(s: State, a: Action, last: int)
    requires Rates(s, last) && IsBatch(a)
    ensures Rates(Sends(s, a), last)
  {
    hide Tracked, QuoteTimes;
    OneQuote(s.log, a, true, false);
    OneQuote(s.log, a, true, true);
  }

  lemma ReplaceRates(cfg: Config, s: State, buy: bool, px: string, c: Turn, last: int)
    requires Rates(s, last) && last <= c.steady
    ensures RatesAfter(ReplaceSide(cfg, s, buy, px, c), c.steady)
  {
    hide Rates, PlaceInto, AmendSide, Lookup, LogWithin;
    if NeedsOrder(s, buy) {
      PlaceRates(cfg, s, buy, px, c, last);
    } else {
      var o := Lookup(s.store, SlotOf(s, buy).value).value;
      if o.state == PendingAmend {
        RatesLater(s, last, c.steady);
      } else {
        AmendRates(s, o, px, c, last);
      }
    }
  }

  lemma FillSideRates(cfg: Config, s: State, buy: bool, px: string, c: Turn, last: int)
    requires Rates(s, last) && last <= c.steady
    ensures RatesAfter(FillSide(cfg, s, buy, px, c), c.steady)
  {
    hide Rates, PlaceInto, LogWithin;
    if SlotOf(s, buy).None? {
      PlaceRates(cfg, s, buy, px, c, last);
    } else {
      RatesLater(s, last, c.steady);
    }
  }

  lemma RequoteRates(cfg: Config, s: State, mid: real, px: Prices, c1: Turn, c2: Turn, last: int)
    requires Rates(s, last) && last <= c1.steady <= c2.steady
    ensures RatesAfter(Requote(cfg, s, mid, px, c1, c2), c2.steady)
  {
    hide Tracked, ReplaceSide, LogWithin, QuoteTimes;
    BatchRates(s, BatchBegun, last);
    ReplaceRates(cfg, Sends(s, BatchBegun), true, px.bid, c1, last);
    match ReplaceSide(cfg, Sends(s, BatchBegun), true, px.bid, c1)
    case Threw(_) =>
    case Done(t) =>
      ReplaceRates(cfg, t, false, px.ask, c2, c1.steady);
      match ReplaceSide(cfg, t, false, px.ask, c2)
      case Threw(_) =>
      case Done(u) => BatchRates(u, BatchEnded, c2.steady);
  }

  lemma TimerRates(cfg: Config, s: State, px: Prices, c1: Turn, c2: Turn, last: int)
    requires Rates(s, last) && last <= c1.steady <= c2.steady
    ensures RatesAfter(OnTimer(cfg, s, px, c1, c2), c2.steady)
  {
    hide Tracked, FillSide, LogWithin, QuoteTimes;
    RatesLater(s, last, c2.steady);
    BatchRates(s, BatchBegun, last);
    FillSideRates(cfg, Sends(s, BatchBegun), true, px.bid, c1, last);
    match FillSide(cfg, Sends(s, BatchBegun), true, px.bid, c1)
    case Threw(_) =>
    case Done(t) =>
      FillSideRates(cfg, t, false, px.ask, c2, c1.steady);
      match FillSide(cfg, t, false, px.ask, c2)
      case Threw(_) =>
      case Done(u) => BatchRates(u, BatchEnded, c2.steady);
  }

  /** The last reading of the steady clock, given one from before the run. */
  function LastClock(inputs: seq<Input>, first: int): int {
    if inputs == [] then first
    else
      var input := inputs[|inputs| - 1];
      if ByQuoter(input) then input.c2.steady else LastClock(inputs[..|inputs| - 1], first)
  }

  /** The steady clock does not go back. */
  predicate Clocked(inputs: seq<Input>, first: int) {
    if inputs == [] then true
    else
      var front, input := inputs[..|inputs| - 1], inputs[|inputs| - 1];
      Clocked(front, first) && (ByQuoter(input) ==> LastClock(front, first) <= input.c1.steady <= input.c2.steady)
  }

  lemma QuoterRates(cfg: Config, s: State, input: Input, last: int)
    requires ByQuoter(input) && Rates(s, last)
    requires last <= input.c1.steady <= input.c2.steady
    ensures RatesAfter(Step(cfg, s, input), input.c2.steady)
  {
    hide Rates, Requote, OnTimer, Deviates, LogWithin;
    RatesLater(s, last, input.c2.steady);
    if !s.triggered && input.authenticated {
      match input
      case BookUpdate(_, bestBid, bestAsk, px, c1, c2) =>
        if bestBid.Some? && bestAsk.Some? {
          var mid := (bestBid.value + bestAsk.value) / 2.0;
          if s.mid.None? || Deviates(mid, s.mid.value) {
            RequoteRates(cfg, s, mid, px, c1, c2, last);
          }
        }
      case QuoterTimer(_, px, c1, c2) => TimerRates(cfg, s, px, c1, c2, last);
    }
  }

  lemma OtherRates(cfg: Config, s: State, input: Input, last: int)
    requires Inv(s) && !ByQuoter(input) && Rates(s, last)
    ensures RatesAfter(Step(cfg, s, input), last)
  {
    hide Step, Tracked, QuoteTimes, Adds, Inv, Within, Triggers, CancelsMade;
    RatesWithin(s, last);
    OtherSends(cfg, s, input);
    AddsKeep(s.log, Calls(Step(cfg, s, input)), s.triggered || !input.Login?);
  }

  /** One step more, whether it returns or throws. */
  lemma StepRates(cfg: Config, s: State, front: seq<Input>, input: Input, first: int)
    requires Inv(s) && Rates(s, LastClock(front, first)) && Clocked(front + [input], first)
    ensures RatesAfter(Step(cfg, s, input), LastClock(front + [input], first))
  {
    hide Step, Rates, Inv, LogWithin;
    assert (front + [input])[..|front|] == front;
    if ByQuoter(input) {
      QuoterRates(cfg, s, input, LastClock(front, first));
    } else {
      OtherRates(cfg, s, input, LastClock(front, first));
    }
  }

  lemma {:induction false} RunRates(cfg: Config, states: seq<State>, inputs: seq<Input>, first: int, i: nat)
    requires Trading.IsRun(cfg, states, inputs) && i <= |inputs| && Clocked(inputs[..i], first)
    ensures Rates(states[i], LastClock(inputs[..i], first))
  {
    hide Step, Allowed, Rates, Inv, LastClock;
    if i == 0 {
      RatesAtStart(states[0].lastId, first);
    } else {
      assert inputs[..i][..i - 1] == inputs[..i - 1];
      assert inputs[..i] == inputs[..i - 1] + [inputs[i - 1]];
      RunRates(cfg, states, inputs, first, i - 1);
      assert Trading.StepAt(cfg, states, inputs, i - 1);
      RunKeepsInv(cfg, states, inputs, i - 1);
      StepRates(cfg, states[i - 1], inputs[..i - 1], inputs[i - 1], first);
    }
  }

  lemma RatesAtStart(counter: nat, first: int)
    ensures Rates(Initial(counter), LastClock([], first))
  {
  }

  /**
    In every run with a clock that does not go back, and up to and including a step that throws, no
    two seconds hold more than 60 placements called for by the quoter, nor more than 60 amends.
  */
  lemma QuoterWithinLimits(cfg: Config, states: seq<State>, inputs: seq<Input>, next: Input, first: int)
    requires Trading.IsRun(cfg, states, inputs) && Clocked(inputs + [next], first)
    ensures LogWithin(states[|inputs|].log) && LogWithin(Calls(Step(cfg, states[|inputs|], next)))
  {
    hide Step, Rates, Inv, LastClock, LogWithin;
    assert inputs[..|inputs|] == inputs;
    assert (inputs + [next])[..|inputs|] == inputs;
    var s := states[|inputs|];
    RunRates(cfg, states, inputs, first, |inputs|);
    RunKeepsInv(cfg, states, inputs, |inputs|);
    RatesWithin(s, LastClock(inputs, first));
    StepRates(cfg, s, inputs, next, first);
    match Step(cfg, s, next)
    case Threw(_) =>
    case Done(t) => RatesWithin(t, LastClock(inputs + [next], first));
  }

  // Batches.

  lemma QuoterClosesBatch(cfg: Config, s: State, input: Input)
    requires ByQuoter(input) && !BatchOpen(s.log) && Step(cfg, s, input).Done?
    ensures !BatchOpen(Step(cfg, s, input).state.log)
  {
    hide ReplaceSide, FillSide, Deviates;
  }

  /** Between two handlers the socket is never batching, so that it drains. */
  lemma {:induction false} NoBatchLeftOpen(cfg: Config, states: seq<State>, inputs: seq<Input>, i: nat)
    requires Trading.IsRun(cfg, states, inputs) && i <= |inputs|
    ensures !BatchOpen(states[i].log)
  {
    hide Step, Allowed, Inv, BatchOpen, Adds, Triggers, CancelsMade;
    if i == 0 {
      assert !BatchOpen([]) by { EmptyIsClosed(); }
    } else {
      NoBatchLeftOpen(cfg, states, inputs, i - 1);
      assert Trading.StepAt(cfg, states, inputs, i - 1);
      var s, input := states[i - 1], inputs[i - 1];
      if ByQuoter(input) {
        QuoterClosesBatch(cfg, s, input);
      } else {
        RunKeepsInv(cfg, states, inputs, i - 1);
        OtherSends(cfg, s, input);
        AddsKeep(s.log, states[i].log, s.triggered || !input.Login?);
      }
    }
  }

  lemma EmptyIsClosed()
    ensures !BatchOpen([])
  {
  }
}
