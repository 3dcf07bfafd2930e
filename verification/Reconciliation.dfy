/**
  Reconciliation of the local store with the exchange's list of pending orders: adopt
  what only the exchange knows, drop what it no longer lists.
*/
module Reconciliation {
  import opened Common
  import opened OrderIds
  import opened OrderLifecycle
  import opened OrderStore

  /** One entry of the response; malformed when it lacks its id or its state. */
  datatype Listed =
    | Malformed
    | Listed(clOrdId: Id, state: string, ordId: Id, instId: string, side: string, px: string, sz: string,
             accFillSz: string, avgPx: string)

  function Classify(state: string): Option<EventType> {
    if state == "live" then Some(Live) else if state == "partially_filled" then Some(PartialFill) else None
  }

  predicate Adoptable(l: Listed) {
    l.Listed? && Classify(l.state).Some?
  }

  function EventOf(l: Listed): OrderEvent
    requires Adoptable(l)
  {
    OrderEvent(Classify(l.state).value, l.ordId, l.clOrdId, l.instId, l.side, l.px, l.sz, l.accFillSz, l.avgPx, None)
  }

  /** The order an unknown entry becomes. */
  function Adopted(l: Listed): (o: Order)
    requires Adoptable(l)
    ensures o.clOrdId == l.clOrdId && o.ordId == l.ordId && o.side == l.side && o.instId == l.instId
    ensures o.px == l.px && o.sz == l.sz && o.accFillSz == l.accFillSz && o.avgPx == l.avgPx
    ensures o.state == if l.state == "live" then New else PartiallyFilled
  {
    ApplyEvent(Placed(l.clOrdId, l.instId, l.side, l.px, l.sz), EventOf(l)).value
  }

  function Adopt(s: seq<Order>, l: Listed): Option<seq<Order>> {
    if l.Malformed? then None
    else if Lookup(s, l.clOrdId).Some? then Some(s)
    else if Classify(l.state).None? || |s| >= CAPACITY then None
    else Some(Insert(s, Adopted(l)))
  }

  function AdoptAll(s: seq<Order>, ls: seq<Listed>): Option<seq<Order>> {
    if ls == [] then Some(s)
    else
      match AdoptAll(s, ls[..|ls| - 1])
      case None => None
      case Some(t) => Adopt(t, ls[|ls| - 1])
  }

  function ListedIds(ls: seq<Listed>): set<Id> {
    if ls == [] then {}
    else ListedIds(ls[..|ls| - 1]) + (if ls[|ls| - 1].Listed? then {ls[|ls| - 1].clOrdId} else {})
  }

  function Keep(s: seq<Order>, ids: set<Id>): seq<Order> {
    if s == [] then []
    else Keep(s[..|s| - 1], ids) + (if s[|s| - 1].clOrdId in ids then [s[|s| - 1]] else [])
  }

  /** The ids of the orders that are dropped, in the order of the store. */
  function Drops(s: seq<Order>, ids: set<Id>): seq<Id> {
    if s == [] then []
    else Drops(s[..|s| - 1], ids) + (if s[|s| - 1].clOrdId in ids then [] else [s[|s| - 1].clOrdId])
  }

  /** The store after reconciliation, or nothing where it throws. */
  function Reconcile(s: seq<Order>, ls: seq<Listed>): Option<seq<Order>> {
    match AdoptAll(s, ls)
    case None => None
    case Some(t) => Some(Keep(t, ListedIds(ls)))
  }

  // What it achieves.

  /** The first entry for an id: the one that is adopted. */
  function First(ls: seq<Listed>, id: Id): (r: Option<Listed>)
    ensures r.Some? ==> r.value.Listed? && r.value.clOrdId == id && r.value in ls
    ensures r.Some? <==> id in ListedIds(ls)
  {
    if ls == [] then None
    else
      var last := ls[|ls| - 1];
      match First(ls[..|ls| - 1], id)
      case Some(l) => Some(l)
      case None => if last.Listed? && last.clOrdId == id then Some(last) else None
  }

  /** What a lookup finds after adopting: local orders first, then the exchange's. */
  function Merged(s: seq<Order>, ls: seq<Listed>, id: Id): Option<Order> {
    if Lookup(s, id).Some? then Lookup(s, id)
    else
      match First(ls, id)
      case None => None
      case Some(l) => if Adoptable(l) then Some(Adopted(l)) else None
  }

  /** Everything is there to be adopted: no entry malformed, no unknown first entry in another state. */
  ghost predicate Sane(s: seq<Order>, ls: seq<Listed>) {
    && (forall k :: 0 <= k < |ls| ==> ls[k].Listed?)
    && (forall id :: Lookup(s, id).None? && First(ls, id).Some? ==> Adoptable(First(ls, id).value))
  }

  function Ids(s: seq<Order>): set<Id> {
    if s == [] then {} else Ids(s[..|s| - 1]) + {s[|s| - 1].clOrdId}
  }

  lemma {:induction false} IdsHave(s: seq<Order>, id: Id)
    ensures id in Ids(s) <==> exists k :: 0 <= k < |s| && s[k].clOrdId == id
  {
    if s != [] {
      var n := |s| - 1;
      IdsHave(s[..n], id);
      assert forall k :: 0 <= k < n ==> s[..n][k] == s[k];
      assert s[n].clOrdId in Ids(s);
    }
  }

  lemma {:induction false} IdsCount(s: seq<Order>)
    requires Ordered(s)
    ensures |Ids(s)| == |s|
  {
    hide Less;
    if s != [] {
      var n := |s| - 1;
      IdsCount(s[..n]);
      IdsHave(s[..n], s[n].clOrdId);
      forall k | 0 <= k < n ensures s[..n][k].clOrdId != s[n].clOrdId {
        LessTotal(s[k].clOrdId, s[n].clOrdId);
      }
    }
  }

  lemma IdsAreKeys(s: seq<Order>, id: Id)
    requires Ordered(s)
    ensures |Ids(s)| == |s| && (id in Ids(s) <==> Lookup(s, id).Some?)
  {
    IdsCount(s);
    IdsHave(s, id);
    LookupFinds(s, id);
  }

  /** After adopting: `t` is ordered, fits, and holds the merge of both sides. */
  ghost predicate Merges(s: seq<Order>, ls: seq<Listed>, t: seq<Order>) {
    && Ordered(t) && |t| <= CAPACITY
    && Ids(t) == Ids(s) + ListedIds(ls)
    && forall id :: Lookup(t, id) == Merged(s, ls, id)
  }

  function Union(s: seq<Order>, ls: seq<Listed>): set<Id> {
    Ids(s) + ListedIds(ls)
  }

  lemma InsertIds(s: seq<Order>, o: Order)
    requires Ordered(s) && Lookup(s, o.clOrdId) == None
    ensures Ids(Insert(s, o)) == Ids(s) + {o.clOrdId}
  {
    hide Lookup, Insert, Ids;
    InsertOrdered(s, o);
    forall id ensures id in Ids(Insert(s, o)) <==> id in Ids(s) + {o.clOrdId} {
      IdsAreKeys(s, id);
      IdsAreKeys(Insert(s, o), id);
      LookupInsert(s, o, id);
    }
  }

  /** A known entry changes nothing. */
  lemma KnownStep(s: seq<Order>, ls: seq<Listed>, t: seq<Order>)
    requires ls != [] && ls[|ls| - 1].Listed?
    requires Merges(s, ls[..|ls| - 1], t) && Lookup(t, ls[|ls| - 1].clOrdId).Some?
    ensures Merges(s, ls, t)
  {
    hide Lookup, Ids;
    var l := ls[|ls| - 1];
    IdsAreKeys(t, l.clOrdId);
    assert Ids(t) == Ids(s) + ListedIds(ls);
  }

  /** An unknown entry is adopted. */
  lemma UnknownStep(s: seq<Order>, ls: seq<Listed>, t: seq<Order>)
    requires ls != [] && Adoptable(ls[|ls| - 1]) && |t| < CAPACITY
    requires Merges(s, ls[..|ls| - 1], t) && Lookup(t, ls[|ls| - 1].clOrdId).None?
    requires Ordered(s)
    ensures Merges(s, ls, Insert(t, Adopted(ls[|ls| - 1])))
  {
    hide Lookup, Ids, Rank, Less, Adopted;
    var l := ls[|ls| - 1];
    var o := Adopted(l);
    InsertOrdered(t, o);
    InsertIds(t, o);
    assert Ids(Insert(t, o)) == Ids(s) + ListedIds(ls);
    IdsAreKeys(t, l.clOrdId);
    IdsAreKeys(s, l.clOrdId);
    forall id ensures Lookup(Insert(t, o), id) == Merged(s, ls, id) {
      LookupInsert(t, o, id);
    }
  }

  lemma SaneStep(s: seq<Order>, ls: seq<Listed>)
    requires ls != []
    ensures var l := ls[|ls| - 1];
            var front := ls[..|ls| - 1];
            Sane(s, ls) <==>
              Sane(s, front) && l.Listed? && (Lookup(s, l.clOrdId).Some? || l.clOrdId in ListedIds(front) || Adoptable(l))
  {
    hide Lookup;
    var l := ls[|ls| - 1];
    var front := ls[..|ls| - 1];
    assert forall k :: 0 <= k < |front| ==> front[k] == ls[k];
    assert forall id :: First(front, id).Some? ==> First(ls, id) == First(front, id);
    if Sane(s, ls) {
      assert forall k :: 0 <= k < |front| ==> ls[k].Listed?;
      assert First(ls, l.clOrdId).Some?;
    }
  }

  lemma UnionStep(s: seq<Order>, ls: seq<Listed>)
    requires ls != [] && ls[|ls| - 1].Listed?
    ensures var u := Union(s, ls[..|ls| - 1]);
            |Union(s, ls)| == |u| + if ls[|ls| - 1].clOrdId in u then 0 else 1
  {
    var u, id := Union(s, ls[..|ls| - 1]), ls[|ls| - 1].clOrdId;
    assert Union(s, ls) == u + {id};
    if id in u {
      assert u + {id} == u;
    }
  }

  /** Adopting goes through exactly when nothing is wrong with the list and the union of both sides fits. */
  lemma {:induction false} AdoptAllMerges(s: seq<Order>, ls: seq<Listed>)
    requires Ordered(s) && |s| <= CAPACITY
    ensures AdoptAll(s, ls).Some? <==> Sane(s, ls) && |Union(s, ls)| <= CAPACITY
    ensures AdoptAll(s, ls).Some? ==> Merges(s, ls, AdoptAll(s, ls).value)
  {
    if ls == [] {
      IdsCount(s);
      assert Union(s, ls) == Ids(s);
    } else {
      var front, l := ls[..|ls| - 1], ls[|ls| - 1];
      AdoptAllMerges(s, front);
      SaneStep(s, ls);
      if l.Listed? {
        UnionStep(s, ls);
        match AdoptAll(s, front)
        case None =>
        case Some(t) => LastMerges(s, ls, t);
      }
    }
  }

  lemma LastMerges(s: seq<Order>, ls: seq<Listed>, t: seq<Order>)
    requires Ordered(s) && ls != [] && ls[|ls| - 1].Listed? && Merges(s, ls[..|ls| - 1], t)
    ensures var l := ls[|ls| - 1];
            var u := Union(s, ls[..|ls| - 1]);
            && |t| == |u| && (l.clOrdId in u <==> Lookup(s, l.clOrdId).Some? || l.clOrdId in ListedIds(ls[..|ls| - 1]))
            && (Adopt(t, l).Some? <==> l.clOrdId in u || (Adoptable(l) && |u| < CAPACITY))
            && (Adopt(t, l).Some? ==> Merges(s, ls, Adopt(t, l).value))
  {
    hide Lookup, Ids, ListedIds, Merges;
    var l := ls[|ls| - 1];
    TellsKeys(s, ls[..|ls| - 1], t, l.clOrdId);
    if Lookup(t, l.clOrdId).Some? {
      KnownStep(s, ls, t);
    } else if Adoptable(l) && |t| < CAPACITY {
      UnknownStep(s, ls, t);
    }
  }

  lemma TellsKeys(s: seq<Order>, ls: seq<Listed>, t: seq<Order>, id: Id)
    requires Ordered(s) && Merges(s, ls, t)
    ensures |t| == |Union(s, ls)| && (id in Union(s, ls) <==> Lookup(t, id).Some?)
    ensures id in Union(s, ls) <==> Lookup(s, id).Some? || id in ListedIds(ls)
  {
    IdsAreKeys(t, id);
    IdsAreKeys(s, id);
  }

  // Dropping.

  lemma {:induction false} KeepWithin(s: seq<Order>, ids: set<Id>)
    ensures |Keep(s, ids)| <= |s|
    ensures forall o :: o in Keep(s, ids) <==> o in s && o.clOrdId in ids
  {
    if s != [] {
      KeepWithin(s[..|s| - 1], ids);
      assert s == s[..|s| - 1] + [s[|s| - 1]];
    }
  }

  lemma {:induction false} KeepOrdered(s: seq<Order>, ids: set<Id>)
    requires Ordered(s)
    ensures Ordered(Keep(s, ids))
  {
    hide Less;
    if s != [] {
      var n := |s| - 1;
      KeepOrdered(s[..n], ids);
      KeepWithin(s[..n], ids);
      var kept := Keep(s[..n], ids);
      forall k | 0 <= k < |kept| ensures Less(kept[k].clOrdId, s[n].clOrdId) {
        assert kept[k] in s[..n];
      }
    }
  }

  lemma LookupKeep(s: seq<Order>, ids: set<Id>, id: Id)
    requires Ordered(s)
    ensures Lookup(Keep(s, ids), id) == if id in ids then Lookup(s, id) else None
  {
    hide Less, Lookup, Keep;
    var t := Keep(s, ids);
    KeepOrdered(s, ids);
    KeepWithin(s, ids);
    LookupFinds(s, id);
    LookupFinds(t, id);
    if k :| 0 <= k < |t| && t[k].clOrdId == id {
      assert t[k] in s;
      var j :| 0 <= j < |s| && s[j] == t[k];
      LookupAt(t, k);
      LookupAt(s, j);
    }
    if k :| 0 <= k < |s| && s[k].clOrdId == id && id in ids {
      assert s[k] in t;
    }
  }

  lemma {:induction false} KeepAll(s: seq<Order>, ids: set<Id>)
    requires forall k :: 0 <= k < |s| ==> s[k].clOrdId in ids
    ensures Keep(s, ids) == s
  {
    if s != [] {
      KeepAll(s[..|s| - 1], ids);
      assert s == s[..|s| - 1] + [s[|s| - 1]];
    }
  }

  // The theorem.

  /** Reconciliation throws exactly when the list is not sane or both sides together do not fit. */
  lemma ReconcileSucceeds(s: seq<Order>, ls: seq<Listed>)
    requires Ordered(s) && |s| <= CAPACITY
    ensures Reconcile(s, ls).Some? <==> Sane(s, ls) && |Union(s, ls)| <= CAPACITY
  {
    AdoptAllMerges(s, ls);
  }

  /**
    Afterwards the store's ids are exactly the exchange's; an order both knew is as it
    was; an adopted order is New or PartiallyFilled as reported.
  */
  lemma ReconcileAgrees(s: seq<Order>, ls: seq<Listed>, id: Id)
    requires Ordered(s) && |s| <= CAPACITY && Reconcile(s, ls).Some?
    ensures var r := Reconcile(s, ls).value;
            && Ordered(r) && |r| <= CAPACITY
            && (Lookup(r, id).Some? <==> id in ListedIds(ls))
            && (id in ListedIds(ls) && Lookup(s, id).Some? ==> Lookup(r, id) == Lookup(s, id))
            && (id in ListedIds(ls) && Lookup(s, id).None? ==>
                  var l := First(ls, id).value; Adoptable(l) && Lookup(r, id) == Some(Adopted(l)))
  {
    hide Lookup, Keep, AdoptAll;
    AdoptAllMerges(s, ls);
    var t := AdoptAll(s, ls).value;
    KeepOrdered(t, ListedIds(ls));
    KeepWithin(t, ListedIds(ls));
    LookupKeep(t, ListedIds(ls), id);
    assert Lookup(t, id) == Merged(s, ls, id);
  }

  lemma {:induction false} KnownAdoptsNothing(s: seq<Order>, ls: seq<Listed>)
    requires forall k :: 0 <= k < |ls| ==> ls[k].Listed? && Lookup(s, ls[k].clOrdId).Some?
    ensures AdoptAll(s, ls) == Some(s)
  {
    hide Lookup;
    if ls != [] {
      assert forall k :: 0 <= k < |ls| - 1 ==> ls[..|ls| - 1][k] == ls[k];
      KnownAdoptsNothing(s, ls[..|ls| - 1]);
    }
  }

  lemma {:induction false} ListedIdsMean(ls: seq<Listed>, k: nat)
    requires k < |ls| && ls[k].Listed?
    ensures ls[k].clOrdId in ListedIds(ls)
  {
    if k < |ls| - 1 {
      ListedIdsMean(ls[..|ls| - 1], k);
    }
  }

  /** A second run with the same list changes nothing. */
  lemma ReconcileTwice(s: seq<Order>, ls: seq<Listed>)
    requires Ordered(s) && |s| <= CAPACITY && Reconcile(s, ls).Some?
    ensures Reconcile(Reconcile(s, ls).value, ls) == Reconcile(s, ls)
  {
    hide Lookup, Keep, AdoptAll;
    var r := Reconcile(s, ls).value;
    AdoptAllMerges(s, ls);
    KeepOrdered(AdoptAll(s, ls).value, ListedIds(ls));
    forall k | 0 <= k < |ls| ensures ls[k].Listed? && Lookup(r, ls[k].clOrdId).Some? {
      ListedIdsMean(ls, k);
      ReconcileAgrees(s, ls, ls[k].clOrdId);
    }
    KnownAdoptsNothing(r, ls);
    forall k | 0 <= k < |r| ensures r[k].clOrdId in ListedIds(ls) {
      LookupAt(r, k);
      ReconcileAgrees(s, ls, r[k].clOrdId);
    }
    KeepAll(r, ListedIds(ls));
  }

  // The loops.

  lemma {:induction false} AdoptFails(s: seq<Order>, ls: seq<Listed>, i: nat)
    requires i <= |ls| && AdoptAll(s, ls[..i]).None?
    ensures AdoptAll(s, ls).None?
    decreases |ls| - i
  {
    hide Adopt;
    if i == |ls| {
      assert ls[..i] == ls;
    } else {
      assert ls[..i + 1][..i] == ls[..i];
      AdoptFails(s, ls, i + 1);
    }
  }

  method AdoptOne(store: OrderStore, l: Listed) returns (ok: bool)
    requires store.Valid()
    modifies store, store.slots
    ensures store.Valid() && ok == Adopt(old(store.Contents()), l).Some?
    ensures ok ==> Adopt(old(store.Contents()), l) == Some(store.Contents())
  {
    if l.Malformed? {
      return false;
    }
    var known := store.FindByClOrdId(l.clOrdId);
    if known.Some? {
      return true;
    }
    if Classify(l.state).None? {
      return false;
    }
    ghost var s := store.Contents();
    var placed := Placed(l.clOrdId, l.instId, l.side, l.px, l.sz);
    ok := store.Add(placed);
    if !ok {
      return;
    }
    var at := store.FindByClOrdId(l.clOrdId);
    LookupInsert(s, placed, l.clOrdId);
    var adopted := ApplyEvent(store.slots[at.value].value, EventOf(l));
    store.Update(at.value, adopted.value);
    PutInserted(s, placed, Adopted(l));
  }

  lemma PutInserted(s: seq<Order>, o: Order, o': Order)
    requires Ordered(s) && Lookup(s, o.clOrdId) == None && o.clOrdId == o'.clOrdId
    ensures Put(Insert(s, o), o') == Insert(s, o')
  {
    hide Less, Rank;
    InsertOrdered(s, o);
    LookupAt(Insert(s, o), Rank(s, o.clOrdId));
  }

  method AdoptListed(store: OrderStore, ls: seq<Listed>) returns (ok: bool, ids: set<Id>)
    requires store.Valid()
    modifies store, store.slots
    ensures store.Valid() && ok == AdoptAll(old(store.Contents()), ls).Some?
    ensures ok ==> AdoptAll(old(store.Contents()), ls) == Some(store.Contents()) && ids == ListedIds(ls)
  {
    hide Adopt;
    ids := {};
    for i := 0 to |ls|
      invariant store.Valid() && ids == ListedIds(ls[..i])
      invariant AdoptAll(old(store.Contents()), ls[..i]) == Some(store.Contents())
    {
      assert ls[..i + 1][..i] == ls[..i];
      if ls[i].Listed? {
        ids := ids + {ls[i].clOrdId};
      }
      ok := AdoptOne(store, ls[i]);
      if !ok {
        AdoptFails(old(store.Contents()), ls, i + 1);
        return;
      }
    }
    assert ls[..|ls|] == ls;
    ok := true;
  }

  // Two slabs that answer every lookup alike are the same slab.

  function Below(s: seq<Order>, id: Id): set<Id> {
    set x | x in Ids(s) && Less(x, id)
  }

  lemma RankCounts(s: seq<Order>, id: Id)
    requires Ordered(s)
    ensures Rank(s, id) == |Below(s, id)|
  {
    hide Less, Rank, Ids;
    var r := Rank(s, id);
    RankSplits(s, id);
    IdsCount(s[..r]);
    forall x ensures x in Below(s, id) <==> x in Ids(s[..r]) {
      IdsHave(s, x);
      IdsHave(s[..r], x);
      if k :| 0 <= k < |s| && s[k].clOrdId == x && k < r {
        assert s[..r][k] == s[k];
      }
    }
    assert Below(s, id) == Ids(s[..r]);
  }

  lemma SameLookupsSameSlab(a: seq<Order>, b: seq<Order>)
    requires Ordered(a) && Ordered(b)
    requires forall id :: Lookup(a, id) == Lookup(b, id)
    ensures a == b
  {
    hide Less, Rank, Ids;
    forall id ensures id in Ids(a) <==> id in Ids(b) {
      IdsAreKeys(a, id);
      IdsAreKeys(b, id);
    }
    assert Ids(a) == Ids(b);
    IdsCount(a);
    IdsCount(b);
    forall k | 0 <= k < |a| ensures a[k] == b[k] {
      LookupAt(a, k);
      RankCounts(a, a[k].clOrdId);
      RankCounts(b, a[k].clOrdId);
    }
  }

  function WithoutAll(s: seq<Order>, gone: seq<Id>): seq<Order> {
    if gone == [] then s else Without(WithoutAll(s, gone[..|gone| - 1]), gone[|gone| - 1])
  }

  lemma {:induction false} LookupWithoutAll(s: seq<Order>, gone: seq<Id>, id: Id)
    requires Ordered(s)
    ensures Ordered(WithoutAll(s, gone))
    ensures Lookup(WithoutAll(s, gone), id) == if id in gone then None else Lookup(s, id)
  {
    hide Lookup, Without, Less;
    if gone != [] {
      var n := |gone| - 1;
      LookupWithoutAll(s, gone[..n], id);
      WithoutOrdered(WithoutAll(s, gone[..n]), gone[n]);
      LookupWithout(WithoutAll(s, gone[..n]), gone[n], id);
      assert gone == gone[..n] + [gone[n]];
    }
  }

  lemma {:induction false} DropsHave(s: seq<Order>, ids: set<Id>, id: Id)
    ensures id in Drops(s, ids) <==> id !in ids && exists k :: 0 <= k < |s| && s[k].clOrdId == id
  {
    if s != [] {
      var n := |s| - 1;
      DropsHave(s[..n], ids, id);
      assert forall k :: 0 <= k < n ==> s[..n][k] == s[k];
      if s[n].clOrdId == id {
        assert exists k :: 0 <= k < |s| && s[k].clOrdId == id;
      }
    }
  }

  /** Removing the dropped ids one by one keeps the rest. */
  lemma DropsLeaveKept(s: seq<Order>, ids: set<Id>)
    requires Ordered(s)
    ensures WithoutAll(s, Drops(s, ids)) == Keep(s, ids)
  {
    hide Lookup, Without, Less, WithoutAll, Drops, Keep;
    var gone := Drops(s, ids);
    KeepOrdered(s, ids);
    LookupWithoutAll(s, gone, "");
    forall id ensures Lookup(WithoutAll(s, gone), id) == Lookup(Keep(s, ids), id) {
      LookupWithoutAll(s, gone, id);
      LookupKeep(s, ids, id);
      DropsHave(s, ids, id);
      LookupFinds(s, id);
    }
    SameLookupsSameSlab(WithoutAll(s, gone), Keep(s, ids));
  }

  lemma {:induction false} DropsAscend(s: seq<Order>, ids: set<Id>)
    requires Ordered(s)
    ensures forall a, b :: 0 <= a < b < |Drops(s, ids)| ==> Less(Drops(s, ids)[a], Drops(s, ids)[b])
  {
    hide Less;
    if s != [] {
      var n := |s| - 1;
      DropsAscend(s[..n], ids);
      var gone := Drops(s[..n], ids);
      forall k | 0 <= k < |gone| ensures Less(gone[k], s[n].clOrdId) {
        DropsHave(s[..n], ids, gone[k]);
        var j :| 0 <= j < n && s[..n][j].clOrdId == gone[k];
        assert s[..n][j] == s[j];
      }
    }
  }

  /** Each order to drop is still in the store when its turn comes, so the listener hears of it. */
  lemma DropStillThere(s: seq<Order>, ids: set<Id>, i: nat)
    requires Ordered(s) && i < |Drops(s, ids)|
    ensures Lookup(WithoutAll(s, Drops(s, ids)[..i]), Drops(s, ids)[i]).Some?
  {
    hide Less, Lookup, Drops;
    var gone := Drops(s, ids);
    DropsAscend(s, ids);
    forall k | 0 <= k < i ensures gone[k] != gone[i] {
      LessTotal(gone[k], gone[i]);
    }
    LookupWithoutAll(s, gone[..i], gone[i]);
    DropsHave(s, ids, gone[i]);
    LookupFinds(s, gone[i]);
  }

  method CollectDrops(store: OrderStore, ids: set<Id>) returns (toDrop: seq<Id>)
    requires store.Valid()
    ensures toDrop == Drops(store.Contents(), ids)
  {
    toDrop := [];
    ghost var s := store.Contents();
    for i := 0 to store.count
      invariant toDrop == Drops(s[..i], ids)
    {
      assert s[..i + 1][..i] == s[..i];
      if store.slots[i].value.clOrdId !in ids {
        toDrop := toDrop + [store.slots[i].value.clOrdId];
      }
    }
    assert s[..|s|] == s;
  }

  /** Reconciles in place; `removed` lists the removals as the store's listener sees them. */
  method ReconcileOrders(store: OrderStore, ls: seq<Listed>) returns (ok: bool, removed: seq<Id>)
    requires store.Valid()
    modifies store, store.slots
    ensures store.Valid() && ok == Reconcile(old(store.Contents()), ls).Some?
    ensures ok ==> Reconcile(old(store.Contents()), ls) == Some(store.Contents())
    ensures ok ==> removed == Drops(AdoptAll(old(store.Contents()), ls).value, ListedIds(ls))
  {
    hide Lookup, Without, Less, Keep, Drops, AdoptAll;
    var ids;
    ok, ids := AdoptListed(store, ls);
    if !ok {
      return false, [];
    }
    ghost var s := store.Contents();
    var toDrop := CollectDrops(store, ids);
    removed := [];
    for i := 0 to |toDrop|
      invariant store.Valid() && store.Contents() == WithoutAll(s, toDrop[..i])
      invariant removed == toDrop[..i]
    {
      DropStillThere(s, ids, i);
      var wasThere := store.Remove(toDrop[i]);
      assert toDrop[..i + 1][..i] == toDrop[..i];
      if wasThere {
        removed := removed + [toDrop[i]];
      }
    }
    assert toDrop[..|toDrop|] == toDrop;
    DropsLeaveKept(s, ids);
  }
}
