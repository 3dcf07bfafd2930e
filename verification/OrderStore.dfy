/** The slab of open orders, sorted by client order id. */
module OrderStore {
  import opened Common
  import opened OrderIds
  import opened OrderLifecycle

  const CAPACITY := 1024

  ghost predicate Ordered(s: seq<Order>) {
    forall i, j :: 0 <= i < j < |s| ==> Less(s[i].clOrdId, s[j].clOrdId)
  }

  /** How many orders, from the front, come before `id`. */
  function Rank(s: seq<Order>, id: Id): (r: nat)
    ensures r <= |s|
  {
    if s == [] || !Less(s[0].clOrdId, id) then 0 else 1 + Rank(s[1..], id)
  }

  function Lookup(s: seq<Order>, id: Id): Option<Order> {
    var i := Rank(s, id);
    if i < |s| && s[i].clOrdId == id then Some(s[i]) else None
  }

  function Insert(s: seq<Order>, o: Order): seq<Order> {
    var i := Rank(s, o.clOrdId);
    s[..i] + [o] + s[i..]
  }

  function Without(s: seq<Order>, id: Id): seq<Order> {
    var i := Rank(s, id);
    if i < |s| && s[i].clOrdId == id then s[..i] + s[i + 1..] else s
  }

  /** The stored order with the same id, replaced. */
  function Put(s: seq<Order>, o: Order): seq<Order> {
    var i := Rank(s, o.clOrdId);
    if i < |s| && s[i].clOrdId == o.clOrdId then s[i := o] else s
  }

  /** Every order before position `i` precedes `id`, none from `i` on does. */
  ghost predicate Splits(s: seq<Order>, id: Id, i: nat) {
    && i <= |s|
    && (forall k :: 0 <= k < i ==> Less(s[k].clOrdId, id))
    && (forall k :: i <= k < |s| ==> !Less(s[k].clOrdId, id))
  }

  lemma BelowStaysBelow(s: seq<Order>, id: Id, mid: nat)
    requires Ordered(s) && mid < |s|
    ensures Less(s[mid].clOrdId, id) ==> forall k :: 0 <= k <= mid ==> Less(s[k].clOrdId, id)
    ensures !Less(s[mid].clOrdId, id) ==> forall k :: mid <= k < |s| ==> !Less(s[k].clOrdId, id)
  {
    hide Less;
    forall k | 0 <= k < |s|
      ensures Less(s[mid].clOrdId, id) && k <= mid ==> Less(s[k].clOrdId, id)
      ensures !Less(s[mid].clOrdId, id) && k >= mid ==> !Less(s[k].clOrdId, id)
    {
      if k < mid && Less(s[mid].clOrdId, id) {
        LessTrans(s[k].clOrdId, s[mid].clOrdId, id);
      } else if k > mid && Less(s[k].clOrdId, id) {
        LessTrans(s[mid].clOrdId, s[k].clOrdId, id);
      }
    }
  }

  lemma {:induction false} RankSplits(s: seq<Order>, id: Id)
    requires Ordered(s)
    ensures Splits(s, id, Rank(s, id))
  {
    hide Less;
    if s != [] {
      BelowStaysBelow(s, id, 0);
      if Less(s[0].clOrdId, id) {
        RankSplits(s[1..], id);
        var i := Rank(s[1..], id);
        forall k | 0 <= k < |s| ensures k < i + 1 <==> Less(s[k].clOrdId, id) {
          assert k > 0 ==> s[k] == s[1..][k - 1];
        }
      }
    }
  }

  lemma {:induction false} RankUnique(s: seq<Order>, id: Id, i: nat)
    requires Splits(s, id, i)
    ensures Rank(s, id) == i
  {
    hide Less;
    if i > 0 {
      RankUnique(s[1..], id, i - 1);
    }
  }

  /** Looking up finds exactly the order that has the id, wherever it stands. */
  lemma LookupAt(s: seq<Order>, k: nat)
    requires Ordered(s) && k < |s|
    ensures Rank(s, s[k].clOrdId) == k && Lookup(s, s[k].clOrdId) == Some(s[k])
  {
    hide Less, Rank;
    var id := s[k].clOrdId;
    LessTotal(id, id);
    BelowStaysBelow(s, id, k);
    RankUnique(s, id, k);
  }

  lemma LookupFinds(s: seq<Order>, id: Id)
    requires Ordered(s)
    ensures Lookup(s, id).Some? ==> Lookup(s, id).value.clOrdId == id && Lookup(s, id).value in s
    ensures Lookup(s, id).Some? <==> exists k :: 0 <= k < |s| && s[k].clOrdId == id
  {
    hide Less, Rank;
    if k :| 0 <= k < |s| && s[k].clOrdId == id {
      LookupAt(s, k);
    }
  }

  // The store behaves as a map from ids to orders.

  lemma InsertOrdered(s: seq<Order>, o: Order)
    requires Ordered(s) && Lookup(s, o.clOrdId) == None
    ensures Ordered(Insert(s, o))
  {
    hide Less, Rank;
    RankSplits(s, o.clOrdId);
    var i, t := Rank(s, o.clOrdId), Insert(s, o);
    forall a, b | 0 <= a < b < |t| ensures Less(t[a].clOrdId, t[b].clOrdId) {
      if a == i {
        LessTotal(o.clOrdId, s[i].clOrdId);
        if b - 1 > i {
          LessTrans(o.clOrdId, s[i].clOrdId, s[b - 1].clOrdId);
        }
        assert t[b] == s[b - 1];
      } else {
        assert t[a] == s[if a < i then a else a - 1];
        assert b == i || t[b] == s[if b < i then b else b - 1];
      }
    }
  }

  lemma LookupInsert(s: seq<Order>, o: Order, id: Id)
    requires Ordered(s) && Lookup(s, o.clOrdId) == None
    ensures Lookup(Insert(s, o), id) == if id == o.clOrdId then Some(o) else Lookup(s, id)
  {
    hide Less, Rank;
    var i, t := Rank(s, o.clOrdId), Insert(s, o);
    InsertOrdered(s, o);
    LookupAt(t, i);
    LookupFinds(s, id);
    LookupFinds(t, id);
    if k :| 0 <= k < |t| && t[k].clOrdId == id {
      LookupAt(t, k);
      if k != i {
        LookupAt(s, if k < i then k else k - 1);
      }
    }
    if k :| 0 <= k < |s| && s[k].clOrdId == id {
      assert t[if k < i then k else k + 1] == s[k];
    }
  }

  lemma WithoutOrdered(s: seq<Order>, id: Id)
    requires Ordered(s)
    ensures Ordered(Without(s, id))
  {
    hide Less, Rank;
    var i, t := Rank(s, id), Without(s, id);
    if t != s {
      forall a, b | 0 <= a < b < |t| ensures Less(t[a].clOrdId, t[b].clOrdId) {
        assert t[a] == s[if a < i then a else a + 1] && t[b] == s[if b < i then b else b + 1];
      }
    }
  }

  lemma LookupWithout(s: seq<Order>, gone: Id, id: Id)
    requires Ordered(s)
    ensures Lookup(Without(s, gone), id) == if id == gone then None else Lookup(s, id)
  {
    hide Less, Rank;
    var i, t := Rank(s, gone), Without(s, gone);
    WithoutOrdered(s, gone);
    LookupFinds(s, gone);
    if Lookup(s, gone).Some? {
      LookupFinds(s, id);
      LookupFinds(t, id);
      if k :| 0 <= k < |t| && t[k].clOrdId == id {
        LookupAt(t, k);
        LookupAt(s, if k < i then k else k + 1);
      }
      if k :| 0 <= k < |s| && s[k].clOrdId == id && k != i {
        assert t[if k < i then k else k - 1] == s[k];
      }
    }
  }

  lemma PutOrdered(s: seq<Order>, o: Order)
    requires Ordered(s)
    ensures Ordered(Put(s, o)) && |Put(s, o)| == |s|
  {
    hide Less, Rank;
    var t := Put(s, o);
    forall a, b | 0 <= a < b < |t| ensures Less(t[a].clOrdId, t[b].clOrdId) {
      assert t[a].clOrdId == s[a].clOrdId && t[b].clOrdId == s[b].clOrdId;
    }
  }

  lemma LookupPut(s: seq<Order>, o: Order, id: Id)
    requires Ordered(s) && Lookup(s, o.clOrdId).Some?
    ensures Lookup(Put(s, o), id) == if id == o.clOrdId then Some(o) else Lookup(s, id)
  {
    hide Less, Rank;
    var i, t := Rank(s, o.clOrdId), Put(s, o);
    PutOrdered(s, o);
    LookupAt(t, i);
    LookupFinds(s, id);
    LookupFinds(t, id);
    assert forall k :: 0 <= k < |s| ==> t[k].clOrdId == s[k].clOrdId;
    if k :| 0 <= k < |t| && t[k].clOrdId == id {
      LookupAt(s, k);
      LookupAt(t, k);
    }
  }

  /** The store itself: optional orders in a fixed array, the first `count` of them set. */
  class OrderStore {
    const slots: array<Option<Order>>
    var count: nat

    ghost predicate Shaped()
      reads this, slots
    {
      slots.Length == CAPACITY && count <= CAPACITY && forall k :: 0 <= k < count ==> slots[k].Some?
    }

    ghost predicate Valid()
      reads this, slots
    {
      Shaped() && Ordered(Contents())
    }

    function Contents(): (s: seq<Order>)
      requires Shaped()
      reads this, slots
    {
      seq(count, k requires 0 <= k < count reads this, slots requires Shaped() => slots[k].value)
    }

    constructor ()
      ensures Valid() && fresh(slots) && Contents() == []
    {
      slots := new Option<Order>[CAPACITY](_ => None);
      count := 0;
    }

    method LowerBound(id: Id) returns (begin: nat)
      requires Valid()
      ensures begin == Rank(Contents(), id)
    {
      hide Less;
      begin := 0;
      var end := count;
      while begin < end
        invariant begin <= end <= count
        invariant forall k :: 0 <= k < begin ==> Less(Contents()[k].clOrdId, id)
        invariant forall k :: end <= k < count ==> !Less(Contents()[k].clOrdId, id)
      {
        var mid := begin + (end - begin) / 2;
        BelowStaysBelow(Contents(), id, mid);
        if Less(slots[mid].value.clOrdId, id) {
          begin := mid + 1;
        } else {
          end := mid;
        }
      }
      RankUnique(Contents(), id, begin);
    }

    method FindByClOrdId(id: Id) returns (at: Option<nat>)
      requires Valid()
      ensures at.None? <==> Lookup(Contents(), id).None?
      ensures at.Some? ==> at.value < count && Lookup(Contents(), id) == Some(Contents()[at.value])
    {
      var i := LowerBound(id);
      return if i < count && slots[i].value.clOrdId == id then Some(i) else None;
    }

    method FindByOrdId(ordId: Id) returns (at: Option<nat>)
      requires Valid()
      ensures at.None? ==> forall k :: 0 <= k < count ==> Contents()[k].ordId != ordId
      ensures at.Some? ==> at.value < count && Contents()[at.value].ordId == ordId
      ensures at.Some? ==> forall k :: 0 <= k < at.value ==> Contents()[k].ordId != ordId
    {
      for i := 0 to count
        invariant forall k :: 0 <= k < i ==> Contents()[k].ordId != ordId
      {
        if slots[i].value.ordId == ordId {
          return Some(i);
        }
      }
      return None;
    }

    /** Moves the orders from `i` on up by one. */
    method OpenGap(i: nat)
      requires slots.Length == CAPACITY && i <= count < CAPACITY
      modifies slots
      ensures forall k :: 0 <= k < i ==> slots[k] == old(slots[k])
      ensures forall k :: i < k <= count ==> slots[k] == old(slots[k - 1])
    {
      var j := count;
      while j > i
        invariant i <= j <= count
        invariant forall k :: 0 <= k < j ==> slots[k] == old(slots[k])
        invariant forall k :: j < k <= count ==> slots[k] == old(slots[k - 1])
      {
        slots[j] := slots[j - 1];
        j := j - 1;
      }
    }

    /** Throws when full. An id that is not in the store yet keeps the ids apart. */
    method Add(o: Order) returns (ok: bool)
      requires Valid()
      modifies this, slots
      ensures Shaped() && ok == (old(count) < CAPACITY)
      ensures !ok || old(Lookup(Contents(), o.clOrdId)) == None ==> Valid()
      ensures Contents() == if ok then Insert(old(Contents()), o) else old(Contents())
    {
      hide Less, Rank, Lookup, Ordered;
      if count >= CAPACITY {
        return false;
      }
      var i := LowerBound(o.clOrdId);
      ghost var s := Contents();
      if Lookup(s, o.clOrdId) == None {
        InsertOrdered(s, o);
      }
      OpenGap(i);
      slots[i] := Some(o);
      count := count + 1;
      assert forall k :: 0 <= k < count ==> slots[k] == Some(Insert(s, o)[k]);
      assert Contents() == Insert(s, o);
      return true;
    }

    /** Moves the orders after `i` down by one. */
    method CloseGap(i: nat)
      requires slots.Length == CAPACITY && i < count <= CAPACITY
      modifies slots
      ensures forall k :: 0 <= k < i ==> slots[k] == old(slots[k])
      ensures forall k :: i <= k < count - 1 ==> slots[k] == old(slots[k + 1])
    {
      var j := i;
      while j + 1 < count
        invariant i <= j < count
        invariant forall k :: 0 <= k < count && (k < i || k >= j) ==> slots[k] == old(slots[k])
        invariant forall k :: i <= k < j ==> slots[k] == old(slots[k + 1])
      {
        slots[j] := slots[j + 1];
        j := j + 1;
      }
    }

    /** Says whether an order was removed, which is when the removal listener is called. */
    method Remove(id: Id) returns (removed: bool)
      requires Valid()
      modifies this, slots
      ensures Valid() && removed == old(Lookup(Contents(), id).Some?)
      ensures Contents() == Without(old(Contents()), id)
    {
      hide Less, Rank;
      var i := LowerBound(id);
      if i >= count || slots[i].value.clOrdId != id {
        return false;
      }
      ghost var s := Contents();
      WithoutOrdered(s, id);
      CloseGap(i);
      slots[count - 1] := None;
      count := count - 1;
      assert forall k :: 0 <= k < count ==> slots[k] == Some(Without(s, id)[k]);
      assert Contents() == Without(s, id);
      return true;
    }

    /** An update through the reference that a lookup returned. */
    method Update(i: nat, o: Order)
      requires Valid() && i < count && Contents()[i].clOrdId == o.clOrdId
      modifies slots
      ensures Valid() && Contents() == Put(old(Contents()), o)
    {
      ghost var s := Contents();
      LookupAt(s, i);
      PutOrdered(s, o);
      slots[i] := Some(o);
      assert Contents() == Put(s, o);
    }
  }
}
