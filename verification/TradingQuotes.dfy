/** What the quoter's messages ask for, when it sends them, and what the store then holds. */
module TradingQuotes {
  import opened Common
  import opened OrderIds
  import opened OrderLifecycle
  import opened OrderStore
  import opened Trading
  import opened TradingSafety
  import opened TradingLimits
  import TradingPosition
  import RateLimiter

  /** There is no order to amend on the side: none, or one the exchange has not named yet. */
  predicate NothingToAmend(v: SideView) {
    v.slot.None? || v.order.None? || v.order.value.ordId == ""
  }

  /** The call placed, on this side and at this price, the order that the side then holds. */
  predicate PlacedFor(cfg: Config, v: SideView, w: SideView, buy: bool, px: string, call: Call) {
    && call.action.QuotePlaced? && NothingToAmend(v)
    && call.action.side == (if buy then "buy" else "sell") && call.action.px == px
    && w.slot == Some(call.action.id) && w.order.Some?
    && var o := w.order.value;
       && o.clOrdId == call.action.id && o.side == call.action.side && o.px == px
       && o.instId == cfg.quoteInst && o.sz == cfg.quoteSz && o.ordId == "" && o.state == PendingNew
  }

  /** The call asked for this price for the order that the side holds, which waits for the answer. */
  predicate AmendedFor(v: SideView, w: SideView, px: string, call: Call) {
    && call.action.QuoteAmended? && !NothingToAmend(v) && v.order.value.state != PendingAmend
    && call.action.ordId == v.order.value.ordId && call.action.px == px
    && w.slot == v.slot && w.order.Some? && w.order.value.state == PendingAmend
    && w.order.value == v.order.value.(state := w.order.value.state, saved := w.order.value.saved)
  }

  /** At most one call for the side, which went through; without one the side is as before, or empty. */
  predicate SideQuoted(cfg: Config, v: SideView, w: SideView, buy: bool, px: string, at: int, calls: seq<Call>) {
    if calls == [] then w == v || (NothingToAmend(v) && w.slot == None)
    else
      && |calls| == 1 && calls[0].ok && IsQuote(calls[0].action) && calls[0].action.at == at
      && (PlacedFor(cfg, v, w, buy, px, calls[0]) || AmendedFor(v, w, px, calls[0]))
  }

  /** Nothing is asked for exactly when the side waits for an amend, or its limit is used up. */
  predicate Decides(v: SideView, calls: seq<Call>, placeable: bool, amendable: bool) {
    calls != [] <==> if NothingToAmend(v) then placeable else v.order.value.state != PendingAmend && amendable
  }

  lemma PlaceQuotes(cfg: Config, s: State, buy: bool, px: string, c: Turn)
    requires Inv(s) && FreshCalls(s.seen, s.log, Calls(PlaceInto(cfg, s, buy, px, c)))
    requires NothingToAmend(ViewOf(s, buy)) && PlaceInto(cfg, s, buy, px, c).Done?
    ensures var t, granted := PlaceInto(cfg, s, buy, px, c).state, TryAcquire(s.orderQueue, c.steady).granted;
            && s.log <= t.log && (Added(s.log, t.log) != [] <==> granted)
            && SideQuoted(cfg, ViewOf(s, buy), ViewOf(t, buy), buy, px, c.steady, Added(s.log, t.log))
  {
    hide Lookup, StoreOk, TryAcquire, ToString;
    var t := PlaceInto(cfg, s, buy, px, c).state;
    if TryAcquire(s.orderQueue, c.steady).granted {
      var o := Placed(ToString(NextId(s.lastId, c.wall)), cfg.quoteInst, Side(buy), px, cfg.quoteSz);
      PlacedIsFresh(cfg, s, buy, px, c);
      FreshInsert(s.store, s.lastId, s.seen, c.wall, o);
      StoreIsOrdered(s.store, s.lastId, s.seen);
      LookupInsert(s.store, o, o.clOrdId);
      assert Added(s.log, t.log) == [Call(QuotePlaced(o.clOrdId, o.side, px, c.steady), true)];
    } else {
      assert Added(s.log, t.log) == [];
    }
  }

  lemma AmendQuotes(cfg: Config, s: State, buy: bool, o: Order, px: string, c: Turn)
    requires Inv(s) && ViewOf(s, buy) == SideView(Some(o.clOrdId), Some(o)) && OrderOk(o)
    requires o.ordId != "" && o.state != PendingAmend && AmendSide(s, o, px, c).Done?
    ensures var t, granted := AmendSide(s, o, px, c).state, TryAcquire(s.amendQueue, c.steady).granted;
            && s.log <= t.log && (Added(s.log, t.log) != [] <==> granted)
            && SideQuoted(cfg, ViewOf(s, buy), ViewOf(t, buy), buy, px, c.steady, Added(s.log, t.log))
  {
    hide Lookup, StoreOk, TryAcquire, Put;
    var t := AmendSide(s, o, px, c).state;
    if TryAcquire(s.amendQueue, c.steady).granted {
      StoreIsOrdered(s.store, s.lastId, s.seen);
      LookupPut(s.store, OnAmendRequested(o).value, o.clOrdId);
      assert Added(s.log, t.log) == [Call(QuoteAmended(o.ordId, px, c.steady), true)];
    } else {
      assert Added(s.log, t.log) == [];
    }
  }

  lemma ReplaceQuotes(cfg: Config, s: State, buy: bool, px: string, c: Turn)
    requires Inv(s) && FreshCalls(s.seen, s.log, Calls(ReplaceSide(cfg, s, buy, px, c)))
    requires ReplaceSide(cfg, s, buy, px, c).Done?
    ensures var t := ReplaceSide(cfg, s, buy, px, c).state;
            && s.log <= t.log
            && SideQuoted(cfg, ViewOf(s, buy), ViewOf(t, buy), buy, px, c.steady, Added(s.log, t.log))
            && Decides(ViewOf(s, buy), Added(s.log, t.log), TryAcquire(s.orderQueue, c.steady).granted,
                       TryAcquire(s.amendQueue, c.steady).granted)
  {
    hide Lookup, StoreOk, PlaceInto, AmendSide, FreshCalls, TryAcquire, SideQuoted;
    var v := ViewOf(s, buy);
    assert NothingToAmend(v) <==> NeedsOrder(s, buy);
    if NeedsOrder(s, buy) {
      PlaceQuotes(cfg, s, buy, px, c);
    } else {
      StoredIsOk(s.store, s.lastId, s.seen, v.slot.value);
      if v.order.value.state == PendingAmend {
        assert Added(s.log, s.log) == [];
        SideLeft(cfg, v, buy, px, c.steady);
      } else {
        AmendQuotes(cfg, s, buy, v.order.value, px, c);
      }
    }
  }

  lemma SideLeft(cfg: Config, v: SideView, buy: bool, px: string, at: int)
    ensures SideQuoted(cfg, v, v, buy, px, at, [])
  {
  }

  lemma FillQuotes(cfg: Config, s: State, buy: bool, px: string, c: Turn)
    requires Inv(s) && FreshCalls(s.seen, s.log, Calls(FillSide(cfg, s, buy, px, c)))
    requires FillSide(cfg, s, buy, px, c).Done?
    ensures var t := FillSide(cfg, s, buy, px, c).state;
            && s.log <= t.log
            && SideQuoted(cfg, ViewOf(s, buy), ViewOf(t, buy), buy, px, c.steady, Added(s.log, t.log))
            && (Added(s.log, t.log) != [] <==> ViewOf(s, buy).slot.None? && TryAcquire(s.orderQueue, c.steady).granted)
  {
    hide Lookup, StoreOk, PlaceInto, FreshCalls, TryAcquire, SideQuoted;
    if SlotOf(s, buy).None? {
      PlaceQuotes(cfg, s, buy, px, c);
    } else {
      assert Added(s.log, s.log) == [];
      SideLeft(cfg, ViewOf(s, buy), buy, px, c.steady);
    }
  }

  lemma FilledUntouched(cfg: Config, s: State, buy: bool, px: string, c: Turn)
    requires Inv(s) && FreshCalls(s.seen, s.log, Calls(FillSide(cfg, s, buy, px, c)))
    ensures var r := FillSide(cfg, s, buy, px, c); r.Done? ==> ViewOf(r.state, !buy) == ViewOf(s, !buy)
  {
    hide Lookup, StoreOk, PlaceInto, FreshCalls, TryAcquire;
    if SlotOf(s, buy).None? {
      PlacedUntouched(cfg, s, buy, px, c);
    }
  }

  /** Both sides are quoted as they should be between `s` and `t`, the bid by `bid` and then the ask by `ask`. */
  ghost predicate BothQuoted(cfg: Config, s: State, t: State, input: Input, bid: seq<Call>, ask: seq<Call>)
    requires ByQuoter(input)
  {
    && SideQuoted(cfg, ViewOf(s, true), ViewOf(t, true), true, input.px.bid, input.c1.steady, bid)
    && SideQuoted(cfg, ViewOf(s, false), ViewOf(t, false), false, input.px.ask, input.c2.steady, ask)
  }

  /** What each side asked for was decided by the side and the limiters as they were when its turn came. */
  ghost predicate BothDecided(s: State, u: State, input: Input, bid: seq<Call>, ask: seq<Call>)
    requires ByQuoter(input)
  {
    var placeBid := TryAcquire(s.orderQueue, input.c1.steady).granted;
    var placeAsk := TryAcquire(u.orderQueue, input.c2.steady).granted;
    if input.BookUpdate? then
      && Decides(ViewOf(s, true), bid, placeBid, TryAcquire(s.amendQueue, input.c1.steady).granted)
      && Decides(ViewOf(s, false), ask, placeAsk, TryAcquire(u.amendQueue, input.c2.steady).granted)
    else
      && (bid != [] <==> ViewOf(s, true).slot.None? && placeBid)
      && (ask != [] <==> ViewOf(s, false).slot.None? && placeAsk)
  }

  lemma ReplaceBothQuotes(cfg: Config, s: State, input: Input) returns (u: State, bid: seq<Call>, ask: seq<Call>)
    requires Inv(s) && input.BookUpdate?
    requires var r := ReplaceBoth(cfg, s, input.px, input.c1, input.c2); r.Done? && FreshCalls(s.seen, s.log, Calls(r))
    ensures var t := ReplaceBoth(cfg, s, input.px, input.c1, input.c2).state;
            && ReplaceSide(cfg, s, true, input.px.bid, input.c1) == Done(u)
            && u.log == s.log + bid && t.log == u.log + ask
            && BothQuoted(cfg, s, t, input, bid, ask) && BothDecided(s, u, input, bid, ask)
  {
    hide Inv, ReplaceSide, FreshCalls, SideQuoted, Decides, ViewOf, TryAcquire;
    ReplaceBothFresh(cfg, s, input.px, input.c1, input.c2);
    u := ReplaceSide(cfg, s, true, input.px.bid, input.c1).state;
    var t := ReplaceSide(cfg, u, false, input.px.ask, input.c2).state;
    ReplaceQuotes(cfg, s, true, input.px.bid, input.c1);
    ReplaceKeepsInv(cfg, s, true, input.px.bid, input.c1);
    ReplacedUntouched(cfg, s, true, input.px.bid, input.c1);
    ReplaceQuotes(cfg, u, false, input.px.ask, input.c2);
    ReplacedUntouched(cfg, u, false, input.px.ask, input.c2);
    bid, ask := Added(s.log, u.log), Added(u.log, t.log);
  }

  lemma FillBothQuotes(cfg: Config, s: State, input: Input) returns (u: State, bid: seq<Call>, ask: seq<Call>)
    requires Inv(s) && input.QuoterTimer?
    requires var r := FillBoth(cfg, s, input.px, input.c1, input.c2); r.Done? && FreshCalls(s.seen, s.log, Calls(r))
    ensures var t := FillBoth(cfg, s, input.px, input.c1, input.c2).state;
            && FillSide(cfg, s, true, input.px.bid, input.c1) == Done(u)
            && u.log == s.log + bid && t.log == u.log + ask
            && BothQuoted(cfg, s, t, input, bid, ask) && BothDecided(s, u, input, bid, ask)
  {
    hide Inv, FillSide, FreshCalls, SideQuoted, ViewOf, TryAcquire;
    FillBothFresh(cfg, s, input.px, input.c1, input.c2);
    u := FillSide(cfg, s, true, input.px.bid, input.c1).state;
    var t := FillSide(cfg, u, false, input.px.ask, input.c2).state;
    FillQuotes(cfg, s, true, input.px.bid, input.c1);
    FillSideKeepsInv(cfg, s, true, input.px.bid, input.c1);
    FilledUntouched(cfg, s, true, input.px.bid, input.c1);
    FillQuotes(cfg, u, false, input.px.ask, input.c2);
    FilledUntouched(cfg, u, false, input.px.ask, input.c2);
    bid, ask := Added(s.log, u.log), Added(u.log, t.log);
  }

  // When the quoter quotes, read off the inputs alone.

  /** The mid has moved by more than a millionth of the last one. */
  predicate Moved(mid: real, last: real) {
    if last > 0.0 then (mid - last) * 1_000_000.0 > last || (last - mid) * 1_000_000.0 > last
    else last == 0.0 && mid != 0.0
  }

  lemma MovedIsDeviates(mid: real, last: real)
    ensures Moved(mid, last) <==> Deviates(mid, last)
  {
    var d := if mid < last then last - mid else mid - last;
    if last > 0.0 {
      var q := d / last;
      ShareOf(d, last, q);
      assert Deviates(mid, last) <==> q * 10000.0 > 0.01;
      assert Moved(mid, last) <==> d * 1_000_000.0 > last;
    } else if last < 0.0 {
      NotPositive(d, last);
    }
  }

  lemma ShareOf(d: real, last: real, q: real)
    requires last > 0.0 && q == d / last
    ensures q * 10000.0 > 0.01 <==> d * 1_000_000.0 > last
  {
    assert q * last == d;
    ScaleUp(q, 0.000001, last);
  }

  lemma ScaleUp(x: real, y: real, k: real)
    requires k > 0.0
    ensures x > y <==> x * k > y * k
  {
  }

  lemma NotPositive(d: real, last: real)
    requires d >= 0.0 && last < 0.0
    ensures d / last * 10000.0 <= 0.0
  {
    assert d / last * last == d;
  }

  /** A mid of the book told of. */
  predicate FullBook(input: Input) {
    input.BookUpdate? && input.bestBid.Some? && input.bestAsk.Some?
  }

  function Mid(input: Input): real
    requires FullBook(input)
  {
    (input.bestBid.value + input.bestAsk.value) / 2.0
  }

  /** The quoter quotes on the first full book, on one whose mid has moved since, and on the timer after that. */
  predicate Quotes(tripped: bool, last: Option<real>, input: Input) {
    && ByQuoter(input) && !tripped && input.authenticated
    && (if input.QuoterTimer? then last.Some? else FullBook(input) && (last.None? || Moved(Mid(input), last.value)))
  }

  /** The mid last quoted around. */
  function LastMid(inputs: seq<Input>): Option<real> {
    if inputs == [] then None
    else
      var front, last := inputs[..|inputs| - 1], inputs[|inputs| - 1];
      if last.BookUpdate? && Quotes(TradingPosition.Tripped(front), LastMid(front), last) then Some(Mid(last))
      else LastMid(front)
  }

  function Batched(log: seq<Call>, bid: seq<Call>, ask: seq<Call>): seq<Call> {
    log + [Call(BatchBegun, true)] + bid + ask + [Call(BatchEnded, true)]
  }

  /** Fewer than 60 placements, or amends, were called for in the two seconds up to `now`. */
  predicate HasRoom(log: seq<Call>, amends: bool, now: int) {
    RateLimiter.CountIn(QuoteTimes(log, amends), now - 2_000_000_000, now) < 60
  }

  /** Each side asks for something exactly when it can: by the side as it was, and by the calls made so far. */
  ghost predicate WithRoom(s: State, input: Input, bid: seq<Call>, ask: seq<Call>)
    requires ByQuoter(input)
  {
    var begun := s.log + [Call(BatchBegun, true)];
    if input.BookUpdate? then
      && Decides(ViewOf(s, true), bid, HasRoom(begun, false, input.c1.steady), HasRoom(begun, true, input.c1.steady))
      && Decides(ViewOf(s, false), ask, HasRoom(begun + bid, false, input.c2.steady),
                 HasRoom(begun + bid, true, input.c2.steady))
    else
      && (bid != [] <==> ViewOf(s, true).slot.None? && HasRoom(begun, false, input.c1.steady))
      && (ask != [] <==> ViewOf(s, false).slot.None? && HasRoom(begun + bid, false, input.c2.steady))
  }

  lemma GrantedIff(s: State, last: int, now: int)
    requires Rates(s, last) && last <= now
    ensures TryAcquire(s.orderQueue, now).granted <==> HasRoom(s.log, false, now)
    ensures TryAcquire(s.amendQueue, now).granted <==> HasRoom(s.log, true, now)
  {
    hide RateLimiter.TryQueue, RateLimiter.CountIn, RateLimiter.Tracked, QuoteTimes;
    RateLimiter.CallKeepsTracked(60, 2_000_000_000, QuoteTimes(s.log, false), s.orderQueue, last, now);
    RateLimiter.CallKeepsTracked(60, 2_000_000_000, QuoteTimes(s.log, true), s.amendQueue, last, now);
  }

  lemma DecidedWithRoom(s: State, u: State, input: Input, bid: seq<Call>, ask: seq<Call>, last: int)
    requires ByQuoter(input) && last <= input.c1.steady <= input.c2.steady
    requires Rates(Sends(s, BatchBegun), last) && Rates(u, input.c1.steady) && u.log == Sends(s, BatchBegun).log + bid
    requires BothDecided(Sends(s, BatchBegun), u, input, bid, ask)
    ensures WithRoom(s, input, bid, ask)
  {
    hide Rates, HasRoom, TryAcquire, Lookup;
    GrantedIff(Sends(s, BatchBegun), last, input.c1.steady);
    GrantedIff(u, input.c1.steady, input.c2.steady);
  }

  /** One quoting step; with a clock that does not go back, also what decides it. */
  lemma QuotingStep(cfg: Config, s: State, input: Input, last: int) returns (bid: seq<Call>, ask: seq<Call>)
    requires Inv(s) && Allowed(cfg, s, input) && Quotes(s.triggered, s.mid, input) && Step(cfg, s, input).Done?
    ensures var t := Step(cfg, s, input).state;
            && t.log == Batched(s.log, bid, ask) && BothQuoted(cfg, s, t, input, bid, ask)
            && t.mid == (if input.BookUpdate? then Some(Mid(input)) else s.mid)
            && (Rates(s, last) && last <= input.c1.steady <= input.c2.steady ==> WithRoom(s, input, bid, ask))
  {
    hide Inv, ReplaceBoth, FillBoth, FreshCalls, Deviates, Moved, Rates, BothDecided, SideQuoted, WithRoom;
    assert s.seen + {} == s.seen;
    var begun := Sends(s, BatchBegun);
    var u;
    SendsKeepsInv(s, BatchBegun);
    SameViews(s, begun);
    if input.BookUpdate? {
      if s.mid.Some? {
        MovedIsDeviates(Mid(input), s.mid.value);
      }
      RequoteFresh(cfg, s, Mid(input), input.px, input.c1, input.c2);
      u, bid, ask := ReplaceBothQuotes(cfg, begun, input);
      var t := ReplaceBoth(cfg, begun, input.px, input.c1, input.c2).state;
      SameViews(t, Step(cfg, s, input).state);
      MidKept(cfg, begun, input.px, input.c1, input.c2);
    } else {
      TimerFresh(cfg, s, input.px, input.c1, input.c2);
      u, bid, ask := FillBothQuotes(cfg, begun, input);
      var t := FillBoth(cfg, begun, input.px, input.c1, input.c2).state;
      SameViews(t, Step(cfg, s, input).state);
      MidKept(cfg, begun, input.px, input.c1, input.c2);
    }
    if Rates(s, last) && last <= input.c1.steady <= input.c2.steady {
      RatesAfterBid(cfg, s, u, input, last);
      DecidedWithRoom(s, u, input, bid, ask, last);
    }
  }

  lemma SameViews(s: State, t: State)
    requires t.store == s.store && t.bid == s.bid && t.ask == s.ask
    ensures ViewOf(t, true) == ViewOf(s, true) && ViewOf(t, false) == ViewOf(s, false)
  {
  }

  lemma SideKeepsMid(cfg: Config, s: State, buy: bool, px: string, c: Turn)
    ensures var r := ReplaceSide(cfg, s, buy, px, c); r.Done? ==> r.state.mid == s.mid
    ensures var r := FillSide(cfg, s, buy, px, c); r.Done? ==> r.state.mid == s.mid
  {
    hide Lookup, Put, Insert, ToString, TryAcquire, OnAmendRequested;
  }

  lemma MidKept(cfg: Config, s: State, px: Prices, c1: Turn, c2: Turn)
    ensures var r := ReplaceBoth(cfg, s, px, c1, c2); r.Done? ==> r.state.mid == s.mid
    ensures var r := FillBoth(cfg, s, px, c1, c2); r.Done? ==> r.state.mid == s.mid
  {
    hide ReplaceSide, FillSide;
    SideKeepsMid(cfg, s, true, px.bid, c1);
    var r, f := ReplaceSide(cfg, s, true, px.bid, c1), FillSide(cfg, s, true, px.bid, c1);
    if r.Done? {
      SideKeepsMid(cfg, r.state, false, px.ask, c2);
    }
    if f.Done? {
      SideKeepsMid(cfg, f.state, false, px.ask, c2);
    }
  }

  lemma RatesAfterBid(cfg: Config, s: State, u: State, input: Input, last: int)
    requires ByQuoter(input) && Rates(s, last) && last <= input.c1.steady
    requires var begun := Sends(s, BatchBegun);
             Done(u) == (if input.BookUpdate? then ReplaceSide(cfg, begun, true, input.px.bid, input.c1)
                         else FillSide(cfg, begun, true, input.px.bid, input.c1))
    ensures Rates(Sends(s, BatchBegun), last) && Rates(u, input.c1.steady)
  {
    hide Rates, ReplaceSide, FillSide;
    BatchRates(s, BatchBegun, last);
    ReplaceRates(cfg, Sends(s, BatchBegun), true, input.px.bid, input.c1, last);
    FillSideRates(cfg, Sends(s, BatchBegun), true, input.px.bid, input.c1, last);
  }

  lemma IdleStep(cfg: Config, s: State, input: Input)
    requires ByQuoter(input) && !Quotes(s.triggered, s.mid, input)
    ensures Step(cfg, s, input) == Done(s)
  {
    hide ReplaceBoth, FillBoth, Deviates, Moved;
    if FullBook(input) && s.mid.Some? {
      MovedIsDeviates(Mid(input), s.mid.value);
    }
  }

  lemma ResponseKeepsMid(cfg: Config, s: State, input: Input)
    requires input.Response?
    ensures var r := Step(cfg, s, input); r.Done? ==> r.state.mid == s.mid
  {
    hide Lookup, Put, ToString, OnAmendRequested, OnCancelRequested, OnRequestRejected, Track;
  }

  lemma EventKeepsMid(s: State, e: OrderEvent, good: nat)
    ensures var r := HandleOrderEvent(s, e, good); r.Done? ==> r.state.mid == s.mid
  {
    hide ApplyOrderEvent, Cancels, AfterFill;
    match if HasFill(e) then ApplyFill(s, e.side, e.fill.value, good) else Done(s)
    case Threw(_) =>
    case Done(t) => ApplySends(t, e);
  }

  lemma OtherKeepsMid(cfg: Config, s: State, input: Input)
    requires !ByQuoter(input)
    ensures var r := Step(cfg, s, input); r.Done? ==> r.state.mid == s.mid
  {
    hide ReconcileState, HandleOrderEvent, Dispatch, Cancels, AnyOverdue, Insert, ToString, Track;
    match input
    case Login(_, _, listed, _, _, _) => ReconcileSends(Sends(s, Subscribed), listed);
    case OrderMessage(event, good) => EventKeepsMid(s, event, good);
    case Response(_, _, _, _) => ResponseKeepsMid(cfg, s, input);
    case Timeout(_, listed) => ReconcileSends(s, listed);
    case Shutdown(_) =>
  }

  /** In every run the quoter remembers the mid of the last book it quoted around. */
  lemma {:induction false} MidIsLast(cfg: Config, states: seq<State>, inputs: seq<Input>, i: nat)
    requires Trading.IsRun(cfg, states, inputs) && i <= |inputs|
    ensures states[i].mid == LastMid(inputs[..i])
  {
    hide Step, Allowed, Inv, Quotes, TradingPosition.Tripped, Batched, BothQuoted, WithRoom, Rates;
    if i > 0 {
      var s, input := states[i - 1], inputs[i - 1];
      MidIsLast(cfg, states, inputs, i - 1);
      TradingPosition.TriggeredIff(cfg, states, inputs, i - 1);
      RunKeepsInv(cfg, states, inputs, i - 1);
      assert Trading.StepAt(cfg, states, inputs, i - 1);
      assert inputs[..i][..i - 1] == inputs[..i - 1];
      if Quotes(s.triggered, s.mid, input) {
        var _, _ := QuotingStep(cfg, s, input, 0);
      } else if ByQuoter(input) {
        IdleStep(cfg, s, input);
      } else {
        OtherKeepsMid(cfg, s, input);
      }
    }
  }

  /**
    In every run the quoter calls for something exactly when a book or the timer makes it, by the inputs
    alone: one batch, first of at most one message for the bid and then of at most one for the ask. A
    placement names the order then stored in the slot of its side, with the side, price, instrument and
    size asked for; an amend names the exchange id of the order in the slot of its side, which then waits.
    With a clock that does not go back a side asks for nothing exactly when it waits for an amend, the
    timer finds it taken, or 60 such calls lie in the last two seconds.
  */
  lemma QuoterAsksFor(cfg: Config, states: seq<State>, inputs: seq<Input>, i: nat, first: int)
    returns (bid: seq<Call>, ask: seq<Call>)
    requires Trading.IsRun(cfg, states, inputs) && i < |inputs| && ByQuoter(inputs[i])
    ensures var s, t, input := states[i], states[i + 1], inputs[i];
            if Quotes(TradingPosition.Tripped(inputs[..i]), LastMid(inputs[..i]), input) then
              && t.log == Batched(s.log, bid, ask) && BothQuoted(cfg, s, t, input, bid, ask)
              && (Clocked(inputs[..i + 1], first) ==> WithRoom(s, input, bid, ask))
            else t == s
  {
    hide Step, Allowed, Inv, Quotes, TradingPosition.Tripped, Batched, BothQuoted, WithRoom, Rates, LastMid, LastClock;
    var s, input := states[i], inputs[i];
    MidIsLast(cfg, states, inputs, i);
    TradingPosition.TriggeredIff(cfg, states, inputs, i);
    RunKeepsInv(cfg, states, inputs, i);
    assert Trading.StepAt(cfg, states, inputs, i);
    if Quotes(s.triggered, s.mid, input) {
      bid, ask := QuotingStep(cfg, s, input, LastClock(inputs[..i], first));
      assert inputs[..i + 1][..i] == inputs[..i];
      if Clocked(inputs[..i + 1], first) {
        RunRates(cfg, states, inputs, first, i);
      }
    } else {
      IdleStep(cfg, s, input);
      bid, ask := [], [];
    }
  }

  /** Nothing but the quoter's handlers quotes. */
  lemma OnlyQuoterQuotes(cfg: Config, states: seq<State>, inputs: seq<Input>, i: nat, k: nat)
    requires Trading.IsRun(cfg, states, inputs) && i < |inputs| && !ByQuoter(inputs[i])
    requires |states[i].log| <= k < |states[i + 1].log|
    ensures !states[i + 1].log[k].action.QuotePlaced? && !states[i + 1].log[k].action.QuoteAmended?
  {
    hide Step, Allowed, Inv, Triggers, CancelsMade;
    RunKeepsInv(cfg, states, inputs, i);
    assert Trading.StepAt(cfg, states, inputs, i);
    OtherSends(cfg, states[i], inputs[i]);
  }
}
