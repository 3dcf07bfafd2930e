/**
 The sliding-window limiter: a circular buffer of the latest grant times, the queue it stands
 for, and the policy over the whole history of grants that the queue carries out.
 */
module RateLimiter {
  import Ring

  /** Number of grants in the closed interval `[lo, hi]`. */
  function CountIn(grants: seq<int>, lo: int, hi: int): nat {
    if grants == [] then 0
    else CountIn(grants[..|grants| - 1], lo, hi) + (if lo <= grants[|grants| - 1] <= hi then 1 else 0)
  }

  function CountFrom(grants: seq<int>, lo: int, window: nat): nat {
    CountIn(grants, lo, lo + window)
  }

  ghost predicate Ordered(ts: seq<int>) {
    forall i, j :: 0 <= i < j < |ts| ==> ts[i] <= ts[j]
  }

  /** The policy: a call at `now` is granted iff fewer than `capacity` grants lie in `[now - window, now]`. */
  predicate Allows(capacity: nat, window: nat, grants: seq<int>, now: int) {
    CountIn(grants, now - window, now) < capacity
  }

  function Acquire(capacity: nat, window: nat, grants: seq<int>, now: int): seq<int> {
    if Allows(capacity, window, grants, now) then grants + [now] else grants
  }

  /** No closed interval as long as the window holds more than `capacity` grants. */
  ghost predicate WithinLimit(capacity: nat, window: nat, grants: seq<int>) {
    forall lo: int :: CountFrom(grants, lo, window) <= capacity
  }

  lemma {:induction false} CountNarrower(grants: seq<int>, lo: int, hi: int, lo': int, hi': int)
    requires forall i :: 0 <= i < |grants| && lo <= grants[i] <= hi ==> lo' <= grants[i] <= hi'
    ensures CountIn(grants, lo, hi) <= CountIn(grants, lo', hi')
  {
    if grants != [] {
      CountNarrower(grants[..|grants| - 1], lo, hi, lo', hi');
    }
  }

  lemma {:induction false} CountSplitAt(grants: seq<int>, k: nat, lo: int, hi: int)
    requires k <= |grants|
    requires forall i :: 0 <= i < k ==> grants[i] < lo
    requires forall i :: k <= i < |grants| ==> lo <= grants[i] <= hi
    ensures CountIn(grants, lo, hi) == |grants| - k
  {
    if grants != [] {
      var n := |grants| - 1;
      CountSplitAt(grants[..n], if k <= n then k else n, lo, hi);
    }
  }

  /** One more call at a time no earlier than every grant keeps the limit. */
  lemma AcquireKeepsLimit(capacity: nat, window: nat, grants: seq<int>, now: int)
    requires WithinLimit(capacity, window, grants)
    requires forall i :: 0 <= i < |grants| ==> grants[i] <= now
    ensures WithinLimit(capacity, window, Acquire(capacity, window, grants, now))
  {
    if Allows(capacity, window, grants, now) {
      var more := grants + [now];
      assert more[..|more| - 1] == grants;
      forall lo: int ensures CountFrom(more, lo, window) <= capacity {
        assert CountFrom(grants, lo, window) <= capacity;
        if lo <= now <= lo + window {
          CountNarrower(grants, lo, lo + window, now - window, now);
        }
      }
    }
  }

  /** What eviction leaves: times from the first one not older than `cutoff`. */
  function DropBefore(recent: seq<int>, cutoff: int): seq<int> {
    if recent == [] || recent[0] >= cutoff then recent else DropBefore(recent[1..], cutoff)
  }

  datatype Answer = Answer(granted: bool, queue: seq<int>)

  /** One call of the limiter on its queue of recent grants. */
  function TryQueue(capacity: nat, window: nat, queue: seq<int>, now: int): Answer {
    var kept := DropBefore(queue, now - window);
    if |kept| >= capacity then Answer(false, kept) else Answer(true, kept + [now])
  }

  /** `recent` is the end of the ordered `grants`, and everything before it is older than `cutoff`. */
  ghost predicate Recent(grants: seq<int>, recent: seq<int>, cutoff: int) {
    && Ordered(grants)
    && |recent| <= |grants|
    && recent == grants[|grants| - |recent|..]
    && forall i :: 0 <= i < |grants| - |recent| ==> grants[i] < cutoff
  }

  /** After eviction the queue holds exactly the grants inside the window. */
  lemma {:induction false} EvictionExact(grants: seq<int>, recent: seq<int>, from: int, cutoff: int, now: int)
    requires Recent(grants, recent, from) && from <= cutoff
    requires forall i :: 0 <= i < |grants| ==> grants[i] <= now
    ensures Recent(grants, DropBefore(recent, cutoff), cutoff)
    ensures CountIn(grants, cutoff, now) == |DropBefore(recent, cutoff)|
    decreases |recent|
  {
    if recent == [] || recent[0] >= cutoff {
      var k := |grants| - |recent|;
      assert recent != [] ==> recent[0] == grants[k];
      CountSplitAt(grants, k, cutoff, now);
    } else {
      EvictionExact(grants, recent[1..], cutoff, cutoff, now);
    }
  }

  lemma RecentPush(grants: seq<int>, recent: seq<int>, cutoff: int, now: int)
    requires Recent(grants, recent, cutoff)
    requires forall i :: 0 <= i < |grants| ==> grants[i] <= now
    ensures Recent(grants + [now], recent + [now], cutoff)
  {
    assert (grants + [now])[|grants| - |recent|..] == grants[|grants| - |recent|..] + [now];
  }

  /** The queue, which forgets, decides every call as the policy over the whole history does. */
  lemma QueueDecides(capacity: nat, window: nat, grants: seq<int>, queue: seq<int>, from: int, now: int)
    requires Recent(grants, queue, from) && from <= now - window
    requires forall i :: 0 <= i < |grants| ==> grants[i] <= now
    ensures var a := TryQueue(capacity, window, queue, now);
            && a.granted == Allows(capacity, window, grants, now)
            && Recent(Acquire(capacity, window, grants, now), a.queue, now - window)
  {
    EvictionExact(grants, queue, from, now - window, now);
    RecentPush(grants, DropBefore(queue, now - window), now - window, now);
  }

  /** `queues[i]` and `grants[i]` are the queue and every grant so far before call `i`. */
  ghost predicate IsQueueRun(capacity: nat, window: nat, calls: seq<int>, queues: seq<seq<int>>, grants: seq<seq<int>>) {
    && |queues| == |grants| == |calls| + 1
    && queues[0] == [] && grants[0] == []
    && forall i :: 0 <= i < |calls| ==> CallAt(capacity, window, calls, queues, grants, i)
  }

  ghost predicate CallAt(capacity: nat, window: nat, calls: seq<int>, queues: seq<seq<int>>, grants: seq<seq<int>>, i: nat)
    requires |queues| == |grants| == |calls| + 1 && i < |calls|
  {
    var a := TryQueue(capacity, window, queues[i], calls[i]);
    queues[i + 1] == a.queue && grants[i + 1] == grants[i] + (if a.granted then [calls[i]] else [])
  }

  /** What holds after calls up to and including the one at `last`. */
  ghost predicate Tracked(capacity: nat, window: nat, grants: seq<int>, queue: seq<int>, last: int) {
    && WithinLimit(capacity, window, grants)
    && Recent(grants, queue, last - window)
    && forall k :: 0 <= k < |grants| ==> grants[k] <= last
  }

  lemma CallKeepsTracked(capacity: nat, window: nat, grants: seq<int>, queue: seq<int>, last: int, now: int)
    requires Tracked(capacity, window, grants, queue, last) && last <= now
    ensures var a := TryQueue(capacity, window, queue, now);
            && (a.granted <==> CountIn(grants, now - window, now) < capacity)
            && Tracked(capacity, window, grants + (if a.granted then [now] else []), a.queue, now)
  {
    QueueDecides(capacity, window, grants, queue, last - window, now);
    AcquireKeepsLimit(capacity, window, grants, now);
    assert grants + [] == grants;
  }

  lemma NothingTracked(capacity: nat, window: nat, last: int)
    ensures Tracked(capacity, window, [], [], last)
  {
  }

  /**
   For every run with a non-decreasing clock: call `i` is granted exactly when fewer than
   `capacity` grants lie in the window ending at it, and no window ever holds more than `capacity`.
   */
  lemma {:induction false} LimiterSound(capacity: nat, window: nat, calls: seq<int>, queues: seq<seq<int>>, grants: seq<seq<int>>, i: nat)
    requires IsQueueRun(capacity, window, calls, queues, grants) && Ordered(calls)
    requires i < |calls|
    ensures TryQueue(capacity, window, queues[i], calls[i]).granted
            <==> CountIn(grants[i], calls[i] - window, calls[i]) < capacity
    ensures Tracked(capacity, window, grants[i + 1], queues[i + 1], calls[i])
  {
    hide Tracked, TryQueue, CountIn;
    var last := if i == 0 then calls[0] else calls[i - 1];
    if i == 0 {
      NothingTracked(capacity, window, last);
    } else {
      LimiterSound(capacity, window, calls, queues, grants, i - 1);
    }
    assert CallAt(capacity, window, calls, queues, grants, i);
    CallKeepsTracked(capacity, window, grants[i], queues[i], last, calls[i]);
  }

  class SlidingWindowLimiter {
    const capacity: nat
    const window: nat
    const timestamps: array<int>
    var head: nat
    var count: nat

    ghost predicate Valid()
      reads this
    {
      && timestamps.Length == capacity
      && (if capacity == 0 then head == 0 else head < capacity)
      && count <= capacity
    }

    /** The buffered grant times, oldest first. */
    function Queue(): seq<int>
      requires Valid()
      reads this, timestamps
    {
      Ring.Contents(timestamps[..], head, count)
    }

    constructor (capacity: nat, window: nat)
      ensures Valid() && fresh(timestamps) && Queue() == []
      ensures this.capacity == capacity && this.window == window
    {
      this.capacity, this.window := capacity, window;
      timestamps := new int[capacity];
      head, count := 0, 0;
    }

    method Evict(cutoff: int)
      requires Valid()
      modifies `head, `count
      ensures Valid() && Queue() == DropBefore(old(Queue()), cutoff)
    {
      while count > 0 && timestamps[head] < cutoff
        invariant Valid() && DropBefore(Queue(), cutoff) == DropBefore(old(Queue()), cutoff)
        decreases count
      {
        assert Queue()[0] == timestamps[..][Ring.Wrap(head + 0, capacity)];
        Ring.Drop(timestamps[..], head, count, 1);
        head := Ring.Wrap(head + 1, capacity);
        count := count - 1;
      }
      assert count > 0 ==> Queue()[0] == timestamps[..][Ring.Wrap(head + 0, capacity)];
    }

    method TryAcquire(now: int) returns (granted: bool)
      requires Valid()
      modifies this, timestamps
      ensures Valid() && Answer(granted, Queue()) == TryQueue(capacity, window, old(Queue()), now)
    {
      Evict(now - window);
      if count >= capacity {
        return false;
      }
      ghost var before := timestamps[..];
      timestamps[Ring.Wrap(head + count, capacity)] := now;
      Ring.Append(before, timestamps[..], head, count, [now]);
      count := count + 1;
      return true;
    }
  }

  datatype Verdict = Granted | Refused | UnknownOp

  /** One limiter per endpoint; an unknown operation throws. */
  class EndpointRateLimiter {
    const order: SlidingWindowLimiter
    const cancel: SlidingWindowLimiter
    const amend: SlidingWindowLimiter

    ghost function Footprint(): set<object> {
      {order, order.timestamps, cancel, cancel.timestamps, amend, amend.timestamps}
    }

    ghost predicate Valid()
      reads Footprint()
    {
      && order.Valid() && cancel.Valid() && amend.Valid()
      && order != cancel && cancel != amend && amend != order
      && order.timestamps != cancel.timestamps && cancel.timestamps != amend.timestamps && amend.timestamps != order.timestamps
    }

    constructor (capacity: nat, window: nat)
      ensures Valid() && fresh(Footprint())
      ensures order.Queue() == [] && cancel.Queue() == [] && amend.Queue() == []
      ensures forall l: SlidingWindowLimiter :: l in {order, cancel, amend} ==> l.capacity == capacity && l.window == window
    {
      order := new SlidingWindowLimiter(capacity, window);
      cancel := new SlidingWindowLimiter(capacity, window);
      amend := new SlidingWindowLimiter(capacity, window);
    }

    method TryAcquire(op: string, now: int) returns (v: Verdict)
      requires Valid()
      modifies Footprint()
      ensures Valid() && (v.UnknownOp? <==> op != "order" && op != "cancel-order" && op != "amend-order")
      ensures if op == "order" then Answer(v.Granted?, order.Queue()) == TryQueue(order.capacity, order.window, old(order.Queue()), now)
              else order.Queue() == old(order.Queue())
      ensures if op == "cancel-order" then Answer(v.Granted?, cancel.Queue()) == TryQueue(cancel.capacity, cancel.window, old(cancel.Queue()), now)
              else cancel.Queue() == old(cancel.Queue())
      ensures if op == "amend-order" then Answer(v.Granted?, amend.Queue()) == TryQueue(amend.capacity, amend.window, old(amend.Queue()), now)
              else amend.Queue() == old(amend.Queue())
    {
      hide TryQueue, Ring.Contents;
      var granted;
      if op == "order" {
        granted := order.TryAcquire(now);
      } else if op == "cancel-order" {
        granted := cancel.TryAcquire(now);
      } else if op == "amend-order" {
        granted := amend.TryAcquire(now);
      } else {
        return UnknownOp;
      }
      return if granted then Granted else Refused;
    }
  }
}
