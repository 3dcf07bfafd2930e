/**
  The life of one order: exchange events and our own cancel and amend requests.

  Orders live by value in the slots of the store, so an order is a value here and a
  change gives the order after it, or nothing where the source throws.
*/
module OrderLifecycle {
  import opened Common
  import opened OrderIds

  datatype OrderState =
    | PendingNew | New | PartiallyFilled
    | Filled | Canceled | Rejected
    | PendingCancel | PendingAmend

  predicate Terminal(s: OrderState) {
    s == Filled || s == Canceled || s == Rejected
  }

  datatype EventType = Live | PartialFill | Fill | Cancel

  /** The parser reports a fill only when its size is positive. */
  type Size = x: real | x > 0.0 witness 1.0

  datatype Execution = Execution(px: real, sz: Size)

  /** Prices and sizes stay the text the exchange sent. */
  datatype OrderEvent = OrderEvent(kind: EventType, ordId: Id, clOrdId: Id, instId: string, side: string,
                                   px: string, sz: string, accFillSz: string, avgPx: string, fill: Option<Execution>)

  datatype Order = Order(clOrdId: Id, instId: string, side: string, px: string, sz: string,
                         ordId: Id, accFillSz: string, avgPx: string, state: OrderState, saved: OrderState)

  function Placed(clOrdId: Id, instId: string, side: string, px: string, sz: string): Order {
    Order(clOrdId, instId, side, px, sz, "", "", "", PendingNew, PendingNew)
  }

  function ApplyEvent(o: Order, e: OrderEvent): (r: Option<Order>)
    ensures Terminal(o.state) <==> r == None
  {
    var known := o.(ordId := if o.ordId == "" then e.ordId else o.ordId, accFillSz := e.accFillSz, avgPx := e.avgPx);
    if Terminal(o.state) then None
    else
      match e.kind
      case Live =>
        if o.state == PendingNew then Some(known.(state := New))
        else if o.state == PendingAmend then
          Some(known.(px := e.px, state := if o.saved == PendingNew then New else o.saved))
        else Some(known.(px := e.px))
      case PartialFill => Some(known.(state := PartiallyFilled))
      case Fill => Some(known.(state := Filled))
      case Cancel => Some(known.(state := if o.state == PendingNew then Rejected else Canceled))
  }

  function OnCancelRequested(o: Order): (r: Option<Order>)
    ensures r == None <==> Terminal(o.state) || o.state == PendingCancel
  {
    match o.state
    case PendingNew | New | PartiallyFilled => Some(o.(saved := o.state, state := PendingCancel))
    case PendingAmend => Some(o.(state := PendingCancel))
    case _ => None
  }

  function OnAmendRequested(o: Order): (r: Option<Order>)
    ensures r == None <==> Terminal(o.state) || o.state == PendingAmend
  {
    match o.state
    case PendingNew | New | PartiallyFilled => Some(o.(saved := o.state, state := PendingAmend))
    case PendingCancel => Some(o.(state := PendingAmend))
    case _ => None
  }

  function OnRequestRejected(o: Order): (r: Option<Order>)
    ensures r == None <==> o.state != PendingCancel && o.state != PendingAmend
  {
    if o.state == PendingCancel || o.state == PendingAmend then Some(o.(state := o.saved)) else None
  }

  datatype Change = Event(event: OrderEvent) | CancelRequested | AmendRequested | RequestRejected

  function Apply(o: Order, change: Change): Option<Order> {
    match change
    case Event(event) => ApplyEvent(o, event)
    case CancelRequested => OnCancelRequested(o)
    case AmendRequested => OnAmendRequested(o)
    case RequestRejected => OnRequestRejected(o)
  }

  /** `orders[i]` is the order after the first `i` changes; a throw ends the path. */
  ghost predicate IsPath(orders: seq<Order>, changes: seq<Change>) {
    && |orders| == |changes| + 1
    && forall i :: 0 <= i < |changes| ==> ChangeAt(orders, changes, i)
  }

  ghost predicate ChangeAt(orders: seq<Order>, changes: seq<Change>, i: nat)
    requires |orders| == |changes| + 1 && i < |changes|
  {
    Apply(orders[i], changes[i]) == Some(orders[i + 1])
  }

  /** A path from a newly placed order. */
  ghost predicate IsLife(orders: seq<Order>, changes: seq<Change>) {
    IsPath(orders, changes) && orders[0].state == PendingNew && orders[0].saved == PendingNew
  }

  predicate Restorable(s: OrderState) {
    s == PendingNew || s == New || s == PartiallyFilled
  }

  /** What a rejected request goes back to is always a state from before the request. */
  predicate Sound(o: Order) {
    Restorable(o.saved)
  }

  lemma ChangeKeepsSound(o: Order, change: Change)
    requires Sound(o)
    ensures Apply(o, change).Some? ==> Sound(Apply(o, change).value)
  {
  }

  /** What never changes: who the order is. */
  lemma ChangeKeepsIdentity(o: Order, change: Change)
    ensures var r := Apply(o, change);
            r.Some? ==>
              && (r.value.clOrdId, r.value.instId, r.value.side, r.value.sz) == (o.clOrdId, o.instId, o.side, o.sz)
              && (o.ordId != "" ==> r.value.ordId == o.ordId)
              && (r.value.px != o.px ==> change.Event? && change.event.kind == Live && r.value.px == change.event.px)
  {
  }

  lemma {:induction false} AlwaysSound(orders: seq<Order>, changes: seq<Change>, i: nat)
    requires IsLife(orders, changes) && i <= |changes|
    ensures Sound(orders[i])
  {
    if i > 0 {
      AlwaysSound(orders, changes, i - 1);
      assert ChangeAt(orders, changes, i - 1);
      ChangeKeepsSound(orders[i - 1], changes[i - 1]);
    }
  }

  /** Terminal states are absorbing: a path goes on only from a state that is not terminal. */
  lemma TerminalEndsPath(orders: seq<Order>, changes: seq<Change>, i: nat)
    requires IsPath(orders, changes) && i < |changes|
    ensures !Terminal(orders[i].state)
  {
    assert ChangeAt(orders, changes, i);
  }

  /** The orders that may follow a partial fill. */
  predicate AfterPartialFill(o: Order) {
    match o.state
    case PartiallyFilled | Filled | Canceled => true
    case PendingCancel | PendingAmend => o.saved == PartiallyFilled
    case _ => false
  }

  /** An order once partially filled never goes back to New or PendingNew and never ends Rejected. */
  lemma {:induction false} PartialFillIsForEver(orders: seq<Order>, changes: seq<Change>, i: nat, j: nat)
    requires IsPath(orders, changes) && i <= j <= |changes|
    requires orders[i].state == PartiallyFilled
    ensures AfterPartialFill(orders[j])
    decreases j - i
  {
    if i < j {
      PartialFillIsForEver(orders, changes, i, j - 1);
      assert ChangeAt(orders, changes, j - 1);
    }
  }

  /** The order is known to be live: no path leads back to PendingNew. */
  predicate KnownLive(o: Order) {
    match o.state
    case PendingNew | Rejected => false
    case PendingCancel | PendingAmend => o.saved != PendingNew
    case _ => true
  }

  ghost predicate CanEndRejected(o: Order) {
    exists orders: seq<Order>, changes: seq<Change> ::
      IsPath(orders, changes) && orders[0] == o && orders[|changes|].state == Rejected
  }

  lemma {:induction false} KnownLiveStays(orders: seq<Order>, changes: seq<Change>, j: nat)
    requires IsPath(orders, changes) && Sound(orders[0]) && KnownLive(orders[0]) && j <= |changes|
    ensures Sound(orders[j]) && KnownLive(orders[j])
  {
    if j > 0 {
      KnownLiveStays(orders, changes, j - 1);
      assert ChangeAt(orders, changes, j - 1);
    }
  }

  /** An order can still end Rejected exactly when it is not known to be live. */
  lemma RejectedReachable(o: Order)
    requires Sound(o)
    ensures CanEndRejected(o) <==> !KnownLive(o)
  {
    if KnownLive(o) {
      forall orders: seq<Order>, changes: seq<Change> | IsPath(orders, changes) && orders[0] == o
        ensures orders[|changes|].state != Rejected
      {
        KnownLiveStays(orders, changes, |changes|);
      }
    } else {
      WayToRejected(o);
    }
  }

  lemma WayToRejected(o: Order)
    requires Sound(o) && !KnownLive(o)
    ensures CanEndRejected(o)
  {
    var cancel := OrderEvent(Cancel, "", "", "", "", "", "", "", "", None);
    if o.state == Rejected {
      assert IsPath([o], []);
    } else if o.state == PendingNew {
      assert IsPath([o, ApplyEvent(o, cancel).value], [Event(cancel)]);
    } else {
      var back := OnRequestRejected(o).value;
      assert IsPath([o, back, ApplyEvent(back, cancel).value], [RequestRejected, Event(cancel)]);
    }
  }

  /**
    An order the exchange has reported live can still end Rejected exactly when the
    report came while a cancel was pending on an order not yet known to be live: only
    there is the saved state left as it was.
  */
  lemma LiveThenRejected(o: Order, e: OrderEvent)
    requires Sound(o) && e.kind == Live && !Terminal(o.state)
    ensures CanEndRejected(ApplyEvent(o, e).value) <==> o.state == PendingCancel && o.saved == PendingNew
  {
    RejectedReachable(ApplyEvent(o, e).value);
  }

  /** There is such a life: a cancel is asked for, the order reported live, the cancel refused, then the order canceled. */
  lemma LiveYetRejected(report: OrderEvent, cancel: OrderEvent) returns (orders: seq<Order>, changes: seq<Change>)
    requires report.kind == Live && cancel.kind == Cancel
    ensures IsLife(orders, changes) && orders[0] == Placed("1", "ETH-USDT", "buy", "100", "1")
    ensures changes == [CancelRequested, Event(report), RequestRejected, Event(cancel)] && orders[4].state == Rejected
  {
    var o := Placed("1", "ETH-USDT", "buy", "100", "1");
    var canceling := OnCancelRequested(o).value;
    var live := ApplyEvent(canceling, report).value;
    var back := OnRequestRejected(live).value;
    orders := [o, canceling, live, back, ApplyEvent(back, cancel).value];
    changes := [CancelRequested, Event(report), RequestRejected, Event(cancel)];
  }

  predicate IsEvent(change: Change, kind: EventType) {
    change.Event? && change.event.kind == kind
  }

  /** A partial fill has been reported. */
  ghost predicate SomePartial(changes: seq<Change>) {
    exists k :: 0 <= k < |changes| && IsEvent(changes[k], PartialFill)
  }

  /** In every life the order is, or goes back to, PartiallyFilled exactly when a partial fill was reported. */
  lemma {:induction false} PartialTellsHistory(orders: seq<Order>, changes: seq<Change>, i: nat)
    requires IsLife(orders, changes) && i <= |changes| && !Terminal(orders[i].state)
    ensures SomePartial(changes[..i]) <==> AfterPartialFill(orders[i])
  {
    if i > 0 {
      assert ChangeAt(orders, changes, i - 1);
      TerminalEndsPath(orders, changes, i - 1);
      PartialTellsHistory(orders, changes, i - 1);
      PartialStep(changes, i);
    }
  }

  lemma PartialStep(changes: seq<Change>, i: nat)
    requires 0 < i <= |changes|
    ensures SomePartial(changes[..i]) <==> SomePartial(changes[..i - 1]) || IsEvent(changes[i - 1], PartialFill)
  {
    var front, all := changes[..i - 1], changes[..i];
    if SomePartial(front) {
      var k :| 0 <= k < |front| && IsEvent(front[k], PartialFill);
      assert IsEvent(all[k], PartialFill);
    }
    if IsEvent(changes[i - 1], PartialFill) {
      assert IsEvent(all[i - 1], PartialFill);
    }
    if SomePartial(all) {
      var k :| 0 <= k < |all| && IsEvent(all[k], PartialFill);
      assert k < i - 1 ==> IsEvent(front[k], PartialFill);
    }
  }

  /**
    What a live report means: it confirms a new order, and any other order takes the price it tells. It
    ends a pending amend, in PartiallyFilled if a partial fill was ever reported and in New if not, and
    otherwise leaves the state alone.
  */
  lemma LiveReport(orders: seq<Order>, changes: seq<Change>, i: nat)
    requires IsLife(orders, changes) && i < |changes| && IsEvent(changes[i], Live)
    ensures var o, next := orders[i], orders[i + 1];
            && next.px == (if o.state == PendingNew then o.px else changes[i].event.px)
            && next.state == (if o.state == PendingNew then New
                              else if o.state != PendingAmend then o.state
                              else if SomePartial(changes[..i]) then PartiallyFilled else New)
  {
    hide SomePartial;
    assert ChangeAt(orders, changes, i);
    TerminalEndsPath(orders, changes, i);
    PartialTellsHistory(orders, changes, i);
    AlwaysSound(orders, changes, i);
  }

  predicate IsRequest(change: Change) {
    change.CancelRequested? || change.AmendRequested?
  }

  /** A request leaves the order waiting for its answer, and any number of them is undone by one rejection. */
  lemma {:induction false} RejectionUndoes(orders: seq<Order>, changes: seq<Change>, i: nat, j: nat)
    requires IsPath(orders, changes) && i < j <= |changes| && Restorable(orders[i].state)
    requires forall k :: i <= k < j ==> IsRequest(changes[k])
    ensures orders[j].state == (if changes[j - 1].CancelRequested? then PendingCancel else PendingAmend)
    ensures j < |changes| && changes[j].RequestRejected? ==> orders[j + 1] == orders[i].(saved := orders[i].state)
  {
    RequestsPend(orders, changes, i, j);
    if j < |changes| {
      assert ChangeAt(orders, changes, j);
    }
  }

  lemma {:induction false} RequestsPend(orders: seq<Order>, changes: seq<Change>, i: nat, j: nat)
    requires IsPath(orders, changes) && i < j <= |changes| && Restorable(orders[i].state)
    requires forall k :: i <= k < j ==> IsRequest(changes[k])
    ensures var pending := if changes[j - 1].CancelRequested? then PendingCancel else PendingAmend;
            orders[j] == orders[i].(saved := orders[i].state, state := pending)
    decreases j
  {
    assert ChangeAt(orders, changes, j - 1);
    if i < j - 1 {
      RequestsPend(orders, changes, i, j - 1);
    }
  }

  // What the fields of an order say of its history.

  /** The first exchange id reported. */
  function FirstOrdId(changes: seq<Change>): Id {
    if changes == [] then ""
    else
      var front, last := FirstOrdId(changes[..|changes| - 1]), changes[|changes| - 1];
      if front != "" then front else if last.Event? then last.event.ordId else ""
  }

  /** The filled size and average price reported last. */
  function LastFill(changes: seq<Change>): (string, string) {
    if changes == [] then ("", "")
    else
      var last := changes[|changes| - 1];
      if last.Event? then (last.event.accFillSz, last.event.avgPx) else LastFill(changes[..|changes| - 1])
  }

  lemma {:induction false} FieldsTellHistory(orders: seq<Order>, changes: seq<Change>, i: nat)
    requires IsPath(orders, changes) && i <= |changes|
    requires orders[0].ordId == "" && (orders[0].accFillSz, orders[0].avgPx) == ("", "")
    ensures orders[i].ordId == FirstOrdId(changes[..i])
    ensures (orders[i].accFillSz, orders[i].avgPx) == LastFill(changes[..i])
  {
    if i > 0 {
      FieldsTellHistory(orders, changes, i - 1);
      assert ChangeAt(orders, changes, i - 1);
      assert changes[..i][..i - 1] == changes[..i - 1];
    }
  }

  /** How a life ends: Filled by a fill, and by a cancel Rejected or Canceled as it was PendingNew or not. */
  lemma EndOfLife(orders: seq<Order>, changes: seq<Change>, i: nat)
    requires IsLife(orders, changes) && 0 < i <= |changes|
    ensures orders[i].state == Filled <==> IsEvent(changes[i - 1], Fill)
    ensures orders[i].state == Rejected <==> IsEvent(changes[i - 1], Cancel) && orders[i - 1].state == PendingNew
    ensures orders[i].state == Canceled <==> IsEvent(changes[i - 1], Cancel) && orders[i - 1].state != PendingNew
    ensures IsEvent(changes[i - 1], PartialFill) ==> orders[i].state == PartiallyFilled
  {
    AlwaysSound(orders, changes, i - 1);
    assert ChangeAt(orders, changes, i - 1);
  }

  /** The order as an object; its methods return false where the source throws. */
  class OrderObject {
    const clOrdId: Id
    const instId: string
    const side: string
    const sz: string
    var px: string
    var ordId: Id
    var accFillSz: string
    var avgPx: string
    var state: OrderState
    var saved: OrderState

    function View(): Order
      reads this
    {
      Order(clOrdId, instId, side, px, sz, ordId, accFillSz, avgPx, state, saved)
    }

    constructor (clOrdId: Id, instId: string, side: string, px: string, sz: string)
      ensures View() == Placed(clOrdId, instId, side, px, sz)
    {
      this.clOrdId, this.instId, this.side, this.px, this.sz := clOrdId, instId, side, px, sz;
      ordId, accFillSz, avgPx, state, saved := "", "", "", PendingNew, PendingNew;
    }

    method ApplyEvent(e: OrderEvent) returns (ok: bool)
      modifies this
      ensures ok == Apply(old(View()), Event(e)).Some?
      ensures ok ==> Apply(old(View()), Event(e)) == Some(View())
      ensures !ok ==> (state, saved) == old((state, saved))
    {
      if ordId == "" {
        ordId := e.ordId;
      }
      accFillSz, avgPx := e.accFillSz, e.avgPx;
      match e.kind {
        case Live =>
          if state == PendingNew {
            state := New;
          } else if state == PendingAmend {
            px := e.px;
            state := if saved == PendingNew then New else saved;
          } else if state == New || state == PartiallyFilled || state == PendingCancel {
            px := e.px;
          } else {
            return false;
          }
        case PartialFill =>
          if state == Filled || state == Canceled || state == Rejected {
            return false;
          }
          state := PartiallyFilled;
        case Fill =>
          if state == Filled || state == Canceled || state == Rejected {
            return false;
          }
          state := Filled;
        case Cancel =>
          if state == Filled || state == Canceled || state == Rejected {
            return false;
          }
          state := if state == PendingNew then Rejected else Canceled;
      }
      return true;
    }

    method OnCancelRequested() returns (ok: bool)
      modifies this
      ensures ok == Apply(old(View()), CancelRequested).Some?
      ensures if ok then Apply(old(View()), CancelRequested) == Some(View()) else View() == old(View())
    {
      if state != PendingNew && state != New && state != PartiallyFilled && state != PendingAmend {
        return false;
      }
      if state != PendingAmend {
        saved := state;
      }
      state := PendingCancel;
      return true;
    }

    method OnAmendRequested() returns (ok: bool)
      modifies this
      ensures ok == Apply(old(View()), AmendRequested).Some?
      ensures if ok then Apply(old(View()), AmendRequested) == Some(View()) else View() == old(View())
    {
      if state != PendingNew && state != New && state != PartiallyFilled && state != PendingCancel {
        return false;
      }
      if state != PendingCancel {
        saved := state;
      }
      state := PendingAmend;
      return true;
    }

    method OnRequestRejected() returns (ok: bool)
      modifies this
      ensures ok == Apply(old(View()), RequestRejected).Some?
      ensures if ok then Apply(old(View()), RequestRejected) == Some(View()) else View() == old(View())
    {
      if state != PendingCancel && state != PendingAmend {
        return false;
      }
      state := saved;
      return true;
    }
  }
}
