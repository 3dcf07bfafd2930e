/** The quoter's messages on the transmit ring: when its handlers find the room they need. */
module TradingWire {
  import opened Common
  import opened OrderLifecycle
  import opened OrderStore
  import opened Trading
  import opened TradingSafety
  import opened TradingLimits
  import WsSend
  import WebSocketFrame

  type Bytes = WebSocketFrame.Bytes

  /** Half of the transmit ring, 8 KiB. */
  const HALF := 0x2000

  /** What a call does to the sender, with the frame its message is encoded as; REST calls do nothing. */
  function OpOf(encode: Action -> Bytes, a: Action): Option<WsSend.Op> {
    match a
    case BatchBegun => Some(WsSend.BeginBatch)
    case BatchEnded => Some(WsSend.EndBatch)
    case RestPlaced(_) | RestCanceled(_, _) | RestListed => None
    case _ => Some(WsSend.WriteRaw(encode(a)))
  }

  /** The sender after the calls, none of which lets the event loop complete a write. */
  function Replay(encode: Action -> Bytes, w: WsSend.Sender, calls: seq<Call>): WsSend.Sender {
    if calls == [] then w
    else
      var v := Replay(encode, w, calls[..|calls| - 1]);
      match OpOf(encode, calls[|calls| - 1].action)
      case None => v
      case Some(op) => if WsSend.Shaped(v) && WsSend.Enabled(v, op) then WsSend.Apply(v, op) else v
  }

  /** The sender takes the action. */
  predicate Takes(encode: Action -> Bytes, w: WsSend.Sender, a: Action) {
    OpOf(encode, a).Some? ==> WsSend.Enabled(w, OpOf(encode, a).value)
  }

  /** The calls on the socket went through exactly when the sender took them. */
  ghost predicate Honest(encode: Action -> Bytes, w: WsSend.Sender, calls: seq<Call>) {
    forall k :: 0 <= k < |calls| ==> HonestAt(encode, w, calls, k)
  }

  ghost predicate HonestAt(encode: Action -> Bytes, w: WsSend.Sender, calls: seq<Call>, k: nat)
    requires k < |calls|
  {
    OpOf(encode, calls[k].action).Some? ==> (calls[k].ok <==> Takes(encode, Replay(encode, w, calls[..k]), calls[k].action))
  }

  ghost predicate Bounded(encode: Action -> Bytes) {
    forall a :: IsQuote(a) ==> |encode(a)| <= HALF
  }

  function CountQuotes(calls: seq<Call>): nat {
    if calls == [] then 0
    else CountQuotes(calls[..|calls| - 1]) + if IsQuote(calls[|calls| - 1].action) then 1 else 0
  }

  ghost predicate OnlyQuotes(calls: seq<Call>) {
    forall k :: 0 <= k < |calls| ==> IsQuote(calls[k].action) || IsBatch(calls[k].action)
  }

  lemma {:induction false} CountGrows(calls: seq<Call>, k: nat)
    requires k <= |calls|
    ensures CountQuotes(calls[..k]) <= CountQuotes(calls)
    ensures k < |calls| && IsQuote(calls[k].action) ==> CountQuotes(calls[..k]) < CountQuotes(calls)
    decreases |calls| - k
  {
    if k == |calls| {
      assert calls[..k] == calls;
    } else {
      assert calls[..k + 1][..k] == calls[..k];
      CountGrows(calls, k + 1);
    }
  }

  /** From an empty ring every quote of at most two is taken. */
  lemma {:induction false} ReplayHasRoom(encode: Action -> Bytes, w: WsSend.Sender, calls: seq<Call>, k: nat)
    requires WsSend.Inv(w) && w.queued == [] && Bounded(encode)
    requires OnlyQuotes(calls) && CountQuotes(calls) <= 2 && k <= |calls|
    ensures var v := Replay(encode, w, calls[..k]); WsSend.Inv(v) && |v.queued| <= 0x2000 * CountQuotes(calls[..k])
    ensures k < |calls| ==> Takes(encode, Replay(encode, w, calls[..k]), calls[k].action)
  {
    hide OnlyQuotes, WsSend.Inv;
    if k > 0 {
      assert calls[..k][..k - 1] == calls[..k - 1];
      ReplayHasRoom(encode, w, calls, k - 1);
      assert IsQuote(calls[k - 1].action) || IsBatch(calls[k - 1].action) by { OnlyAt(calls, k - 1); }
      OneMore(encode, Replay(encode, w, calls[..k - 1]), calls[k - 1].action);
    }
    if k < |calls| {
      CountGrows(calls, k);
      OnlyAt(calls, k);
    }
  }

  lemma OnlyAt(calls: seq<Call>, k: nat)
    requires OnlyQuotes(calls) && k < |calls|
    ensures IsQuote(calls[k].action) || IsBatch(calls[k].action)
  {
  }

  lemma OneMore(encode: Action -> Bytes, v: WsSend.Sender, a: Action)
    requires WsSend.Inv(v) && Bounded(encode) && (IsQuote(a) || IsBatch(a)) && Takes(encode, v, a)
    ensures WsSend.Shaped(v)
    ensures var t := WsSend.Apply(v, OpOf(encode, a).value);
            WsSend.Inv(t) && |t.queued| <= |v.queued| + if IsQuote(a) then HALF else 0
  {
    WsSend.StepKeepsInv(v, OpOf(encode, a).value);
  }

  // What a handler of the quoter calls.

  ghost predicate AllOk(calls: seq<Call>) {
    forall k :: 0 <= k < |calls| ==> calls[k].ok
  }

  /** On top of the log there are quotes and batches only, of the quotes no more than `most`. */
  ghost predicate AddsQuotes(log: seq<Call>, after: seq<Call>, most: nat) {
    log <= after && OnlyQuotes(after[|log|..]) && CountQuotes(after[|log|..]) <= most
  }

  /** A side with the room it asks for. */
  function Roomy(c: Turn): Turn {
    c.(fits := true)
  }

  lemma {:induction false} CountSplit(a: seq<Call>, b: seq<Call>)
    ensures CountQuotes(a + b) == CountQuotes(a) + CountQuotes(b)
    decreases |b|
  {
    if b == [] {
      assert a + b == a;
    } else {
      var n := |b| - 1;
      assert (a + b)[..|a| + n] == a + b[..n];
      CountSplit(a, b[..n]);
    }
  }

  lemma AddsNothing(log: seq<Call>, most: nat)
    ensures AddsQuotes(log, log, most)
  {
  }

  lemma AddsOne(log: seq<Call>, c: Call)
    requires IsQuote(c.action) || IsBatch(c.action)
    ensures AddsQuotes(log, log + [c], if IsQuote(c.action) then 1 else 0)
  {
    assert (log + [c])[|log|..] == [c];
    assert [c][..0] == [];
  }

  /** Calls on top of calls: their quotes add up, and all went through when both parts did. */
  lemma AddsMore(a: seq<Call>, b: seq<Call>, c: seq<Call>, m: nat, n: nat)
    requires AddsQuotes(a, b, m) && AddsQuotes(b, c, n)
    ensures AddsQuotes(a, c, m + n)
    ensures AllOk(c[|a|..]) ==> AllOk(b[|a|..]) && AllOk(c[|b|..])
  {
    hide CountQuotes;
    var front, back, all := b[|a|..], c[|b|..], c[|a|..];
    assert all == front + back;
    CountSplit(front, back);
    assert forall k :: 0 <= k < |front| ==> front[k] == all[k];
    assert forall k :: 0 <= k < |back| ==> back[k] == all[|front| + k];
  }

  /** At most so many quotes on top of the log; if they went through, it went as with room. */
  ghost predicate AsWithRoom(log: seq<Call>, r: Outcome, roomy: Outcome, most: nat) {
    AddsQuotes(log, Calls(r), most) && (AllOk(Calls(r)[|log|..]) ==> r == roomy)
  }

  lemma PlaceAsWithRoom(cfg: Config, s: State, buy: bool, px: string, c: Turn)
    ensures AsWithRoom(s.log, PlaceInto(cfg, s, buy, px, c), PlaceInto(cfg, s, buy, px, Roomy(c)), 1)
  {
    hide Insert, TryAcquire, OrderIds.ToString, AddsQuotes;
    var out := QuotePlaced(OrderIds.ToString(OrderIds.NextId(s.lastId, c.wall)), Side(buy), px, c.steady);
    OneAsWithRoom(s.log, Call(out, c.fits));
  }

  lemma OneAsWithRoom(log: seq<Call>, c: Call)
    requires IsQuote(c.action)
    ensures AddsQuotes(log, log, 1) && AddsQuotes(log, log + [c], 1)
    ensures AllOk((log + [c])[|log|..]) <==> c.ok
  {
    AddsOne(log, c);
    assert (log + [c])[|log|..] == [c];
  }

  lemma AmendAsWithRoom(s: State, o: Order, px: string, c: Turn)
    ensures AsWithRoom(s.log, AmendSide(s, o, px, c), AmendSide(s, o, px, Roomy(c)), 1)
  {
    hide Put, TryAcquire, OnAmendRequested, AddsQuotes;
    OneAsWithRoom(s.log, Call(QuoteAmended(o.ordId, px, c.steady), c.fits));
  }

  lemma SideAsWithRoom(cfg: Config, s: State, buy: bool, px: string, c: Turn)
    ensures AsWithRoom(s.log, ReplaceSide(cfg, s, buy, px, c), ReplaceSide(cfg, s, buy, px, Roomy(c)), 1)
    ensures AsWithRoom(s.log, FillSide(cfg, s, buy, px, c), FillSide(cfg, s, buy, px, Roomy(c)), 1)
  {
    hide Lookup, PlaceInto, AmendSide;
    PlaceAsWithRoom(cfg, s, buy, px, c);
    AddsNothing(s.log, 1);
    if !NeedsOrder(s, buy) {
      AmendAsWithRoom(s, Lookup(s.store, SlotOf(s, buy).value).value, px, c);
    }
  }

  /** Two outcomes in a row, each as with room. */
  lemma ThenAsWithRoom(log: seq<Call>, r: Outcome, r': Outcome, next: Outcome, next': Outcome)
    requires AsWithRoom(log, r, r', 1)
    requires r.Done? ==> AsWithRoom(r.state.log, next, next', 1)
    ensures r.Done? ==> AddsQuotes(log, Calls(next), 2) && (AllOk(Calls(next)[|log|..]) ==> r == r' && next == next')
  {
    hide AddsQuotes, AllOk;
    if r.Done? {
      AddsMore(log, r.state.log, Calls(next), 1, 1);
    }
  }

  lemma BothAsWithRoom(cfg: Config, s: State, px: Prices, c1: Turn, c2: Turn)
    ensures AsWithRoom(s.log, ReplaceBoth(cfg, s, px, c1, c2), ReplaceBoth(cfg, s, px, Roomy(c1), Roomy(c2)), 2)
    ensures AsWithRoom(s.log, FillBoth(cfg, s, px, c1, c2), FillBoth(cfg, s, px, Roomy(c1), Roomy(c2)), 2)
  {
    hide ReplaceSide, FillSide, AllOk, OnlyQuotes, CountQuotes;
    SideAsWithRoom(cfg, s, true, px.bid, c1);
    var r, r' := ReplaceSide(cfg, s, true, px.bid, c1), ReplaceSide(cfg, s, true, px.bid, Roomy(c1));
    if r.Done? {
      SideAsWithRoom(cfg, r.state, false, px.ask, c2);
      ThenAsWithRoom(s.log, r, r', ReplaceSide(cfg, r.state, false, px.ask, c2), ReplaceSide(cfg, r.state, false, px.ask, Roomy(c2)));
    }
    var f, f' := FillSide(cfg, s, true, px.bid, c1), FillSide(cfg, s, true, px.bid, Roomy(c1));
    if f.Done? {
      SideAsWithRoom(cfg, f.state, false, px.ask, c2);
      ThenAsWithRoom(s.log, f, f', FillSide(cfg, f.state, false, px.ask, c2), FillSide(cfg, f.state, false, px.ask, Roomy(c2)));
    }
  }

  /** The batch around two sides. */
  lemma BatchAround(s: State, r: Outcome, roomy: Outcome)
    requires AsWithRoom(Sends(s, BatchBegun).log, r, roomy, 2)
    ensures r.Threw? ==> AsWithRoom(s.log, r, roomy, 2)
    ensures r.Done? ==> var log := Sends(r.state, BatchEnded).log;
                        AddsQuotes(s.log, log, 2) && (AllOk(log[|s.log|..]) ==> r == roomy)
  {
    hide AddsQuotes, AllOk;
    var begun := Sends(s, BatchBegun).log;
    AddsOne(s.log, Call(BatchBegun, true));
    AddsMore(s.log, begun, Calls(r), 0, 2);
    if r.Done? {
      AddsOne(r.state.log, Call(BatchEnded, true));
      AddsMore(s.log, r.state.log, Sends(r.state, BatchEnded).log, 2, 0);
    }
  }

  /** The same input with room for both messages. */
  function RoomyInput(input: Input): Input
    requires ByQuoter(input)
  {
    input.(c1 := Roomy(input.c1), c2 := Roomy(input.c2))
  }

  lemma QuoterAsWithRoom(cfg: Config, s: State, input: Input)
    requires ByQuoter(input)
    ensures AsWithRoom(s.log, Step(cfg, s, input), Step(cfg, s, RoomyInput(input)), 2)
  {
    hide ReplaceBoth, FillBoth, Deviates, AddsQuotes, AllOk;
    AddsNothing(s.log, 2);
    var begun, c1, c2 := Sends(s, BatchBegun), input.c1, input.c2;
    BothAsWithRoom(cfg, begun, input.px, c1, c2);
    BatchAround(s, ReplaceBoth(cfg, begun, input.px, c1, c2), ReplaceBoth(cfg, begun, input.px, Roomy(c1), Roomy(c2)));
    BatchAround(s, FillBoth(cfg, begun, input.px, c1, c2), FillBoth(cfg, begun, input.px, Roomy(c1), Roomy(c2)));
  }

  // The sender holds back exactly between the two batch calls.

  /** Whether a batch begins or ends, call by call. */
  function BatchCalls(log: seq<Call>): seq<bool> {
    if log == [] then []
    else
      var a := log[|log| - 1].action;
      BatchCalls(log[..|log| - 1]) + (if IsBatch(a) then [a.BatchBegun?] else [])
  }

  function BatchOps(ops: seq<WsSend.Op>): seq<bool> {
    if ops == [] then []
    else
      var op := ops[|ops| - 1];
      BatchOps(ops[..|ops| - 1]) + (if op.BeginBatch? || op.EndBatch? then [op.BeginBatch?] else [])
  }

  predicate LastBegins(batches: seq<bool>) {
    batches != [] && batches[|batches| - 1]
  }

  lemma {:induction false} LogBatches(log: seq<Call>)
    ensures BatchOpen(log) <==> LastBegins(BatchCalls(log))
  {
    if log != [] {
      LogBatches(log[..|log| - 1]);
    }
  }

  lemma {:induction false} SenderBatches(senders: seq<WsSend.Sender>, ops: seq<WsSend.Op>, i: nat)
    requires WsSend.IsRun(senders, ops) && i <= |ops|
    ensures senders[i].batching <==> LastBegins(BatchOps(ops[..i]))
  {
    if i > 0 {
      SenderBatches(senders, ops, i - 1);
      assert WsSend.StepAt(senders, ops, i - 1);
      assert ops[..i][..i - 1] == ops[..i - 1];
    }
  }

  /**
    The engine and its connection side by side: whatever else was sent and completed, if no write is in
    flight when a handler of the quoter begins, the ring is empty. So with messages of half the ring at most,
    every call of the handler goes through and it ends as with a ring without bound: it cannot throw
    for want of room, and with two places free in the store it cannot throw at all.
  */
  lemma QuoterFindsRoom(cfg: Config, states: seq<State>, inputs: seq<Input>, next: Input,
                        senders: seq<WsSend.Sender>, ops: seq<WsSend.Op>, encode: Action -> Bytes)
    requires Trading.IsRun(cfg, states, inputs) && ByQuoter(next) && Allowed(cfg, states[|inputs|], next)
    requires WsSend.IsRun(senders, ops) && BatchOps(ops) == BatchCalls(states[|inputs|].log)
    requires !senders[|ops|].writeInFlight && Bounded(encode)
    requires var s := states[|inputs|];
             s.log <= Calls(Step(cfg, s, next)) ==> Honest(encode, senders[|ops|], Calls(Step(cfg, s, next))[|s.log|..])
    ensures senders[|ops|].queued == []
    ensures var s := states[|inputs|];
            && s.log <= Calls(Step(cfg, s, next)) && AllOk(Calls(Step(cfg, s, next))[|s.log|..])
            && Step(cfg, s, next) == Step(cfg, s, RoomyInput(next))
            && (|s.store| + 2 <= CAPACITY ==> Step(cfg, s, next).Done?)
  {
    hide Step, BatchOpen, BatchCalls, BatchOps, Inv, CountQuotes, Replay, Takes, Allowed;
    var s, w := states[|inputs|], senders[|ops|];
    NoBatchLeftOpen(cfg, states, inputs, |inputs|);
    LogBatches(s.log);
    assert ops[..|ops|] == ops;
    SenderBatches(senders, ops, |ops|);
    WsSend.RunKeepsInv(senders, ops, |ops|);
    QuoterAsWithRoom(cfg, s, next);
    var calls := Calls(Step(cfg, s, next))[|s.log|..];
    RoomForAll(encode, w, calls);
    if |s.store| + 2 <= CAPACITY {
      RunKeepsInv(cfg, states, inputs, |inputs|);
      EnoughToReturn(cfg, s, next);
    }
  }

  lemma RoomForAll(encode: Action -> Bytes, w: WsSend.Sender, calls: seq<Call>)
    requires WsSend.Inv(w) && w.queued == [] && Bounded(encode) && Honest(encode, w, calls)
    requires OnlyQuotes(calls) && CountQuotes(calls) <= 2
    ensures AllOk(calls)
  {
    hide CountQuotes, Replay, Takes, WsSend.Inv, Bounded;
    forall k | 0 <= k < |calls| ensures calls[k].ok {
      ReplayHasRoom(encode, w, calls, k);
      assert HonestAt(encode, w, calls, k);
    }
  }

  /** As with room, and with two places in the store, a handler of the quoter returns. */
  lemma EnoughToReturn(cfg: Config, s: State, input: Input)
    requires Inv(s) && ByQuoter(input) && Allowed(cfg, s, input) && |s.store| + 2 <= CAPACITY
    requires Step(cfg, s, input) == Step(cfg, s, RoomyInput(input))
    ensures Step(cfg, s, input).Done?
  {
    hide Step, Inv, FreshCalls, RequoteThrows, TimerThrows, Deviates;
    var roomy := RoomyInput(input);
    assert Allowed(cfg, s, roomy);
    StepKeepsInv(cfg, s, roomy);
    RoomEnough(s, roomy.c1, roomy.c2);
  }
}
