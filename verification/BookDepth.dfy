/**
 How far the capped array can be trusted: the array against an unbounded book kept as a map.
 */
module BookDepth {
  import opened Common
  import opened PriceLevels

  /** One level of a message: a new size for a price, or size zero to delete it. */
  datatype Update = Update(price: real, size: real)

  /** The reference: every price with its size. */
  type Book = map<real, real>

  function Apply(m: Book, u: Update): Book {
    if u.size == 0.0 then m - {u.price} else m[u.price := u.size]
  }

  function ReplayMap(us: seq<Update>): Book {
    if us == [] then map[] else Apply(ReplayMap(us[..|us| - 1]), us[|us| - 1])
  }

  /** The array after the updates since the last snapshot began. */
  function ReplayArray(desc: bool, us: seq<Update>): seq<Level> {
    if us == [] then []
    else SetLevel(desc, ReplayArray(desc, us[..|us| - 1]), us[|us| - 1].price, us[|us| - 1].size)
  }

  function Deletions(us: seq<Update>): nat {
    if us == [] then 0 else Deletions(us[..|us| - 1]) + (if us[|us| - 1].size == 0.0 then 1 else 0)
  }

  /** The feed deletes only prices that are in the book. */
  ghost predicate DeletesPresent(us: seq<Update>) {
    forall i :: 0 <= i < |us| && us[i].size == 0.0 ==> us[i].price in ReplayMap(us[..i])
  }

  /** `f` lists the whole book, best price first. */
  ghost predicate Lists(desc: bool, f: seq<Level>, m: Book) {
    && Sorted(desc, f)
    && (forall i :: 0 <= i < |f| ==> f[i].price in m && m[f[i].price] == f[i].size)
    && (forall p :: p in m ==> Has(desc, f, p))
  }

  /** The update on the listing without a cap. */
  function SetListing(desc: bool, f: seq<Level>, u: Update): seq<Level> {
    var i := Rank(desc, f, u.price);
    if Has(desc, f, u.price) then
      if u.size == 0.0 then Remove(f, i) else f[i := Level(u.price, u.size)]
    else if u.size == 0.0 then f
    else Insert(f, i, Level(u.price, u.size))
  }

  lemma HasWitness(desc: bool, f: seq<Level>, k: nat)
    requires Sorted(desc, f) && k < |f|
    ensures Has(desc, f, f[k].price) && Rank(desc, f, f[k].price) == k
  {
    RankUnique(desc, f, f[k].price, k);
  }

  /** A book has one listing. */
  lemma {:induction false} ListingUnique(desc: bool, f: seq<Level>, g: seq<Level>, m: Book)
    requires Lists(desc, f, m) && Lists(desc, g, m)
    ensures f == g
  {
    ListingPrefix(desc, f, g, m, |f|);
    ListingPrefix(desc, g, f, m, |g|);
  }

  lemma {:induction false} ListingPrefix(desc: bool, f: seq<Level>, g: seq<Level>, m: Book, n: nat)
    requires Lists(desc, f, m) && Lists(desc, g, m) && n <= |f|
    ensures n <= |g| && f[..n] == g[..n]
  {
    if n > 0 {
      var k := n - 1;
      ListingPrefix(desc, f, g, m, k);
      CommonFront(f, g, k);
      var i := Rank(desc, g, f[k].price);
      RankSplits(desc, g, f[k].price);
      assert Has(desc, g, f[k].price);
      assert forall t :: 0 <= t < k ==> Before(desc, f[t].price, f[k].price);
      var j := Rank(desc, f, g[k].price);
      RankSplits(desc, f, g[k].price);
      assert Has(desc, f, g[k].price);
      assert forall t :: 0 <= t < k ==> Before(desc, g[t].price, g[k].price);
      assert i == k || Before(desc, g[k].price, g[i].price);
      assert j == k || Before(desc, f[k].price, f[j].price);
      assert f[..n] == f[..k] + [f[k]] && g[..n] == g[..k] + [g[k]];
    }
  }

  lemma CommonFront(c: seq<Level>, f: seq<Level>, k: nat)
    requires k <= |c| && k <= |f| && c[..k] == f[..k]
    ensures forall t :: 0 <= t < k ==> c[t] == f[t]
  {
    forall t | 0 <= t < k ensures c[t] == f[t] {
      assert c[..k][t] == f[..k][t];
    }
  }

  lemma SetListingSorted(desc: bool, f: seq<Level>, u: Update)
    requires Sorted(desc, f)
    ensures Sorted(desc, SetListing(desc, f, u))
  {
    hide Rank, Sorted, Insert, Remove;
    var p, i := u.price, Rank(desc, f, u.price);
    RankSplits(desc, f, p);
    if Has(desc, f, p) {
      if u.size == 0.0 { RemoveSorted(desc, f, i); } else { UpdateSorted(desc, f, i, Level(p, u.size)); }
    } else if u.size != 0.0 {
      InsertSorted(desc, f, i, Level(p, u.size));
    }
  }

  /** Each level of the new listing is the update's own, or one of another price. */
  lemma ListedLevel(desc: bool, f: seq<Level>, u: Update, k: nat)
    requires Sorted(desc, f) && k < |SetListing(desc, f, u)|
    ensures var l := SetListing(desc, f, u)[k];
            (l == Level(u.price, u.size) && u.size != 0.0) || (l.price != u.price && l in f)
  {
    hide Rank;
    RankSplits(desc, f, u.price);
    var i, g := Rank(desc, f, u.price), SetListing(desc, f, u);
    var j := if Has(desc, f, u.price) && u.size == 0.0 && k >= i then k + 1
             else if !Has(desc, f, u.price) && u.size != 0.0 && k > i then k - 1 else k;
    if k != i || u.size == 0.0 {
      assert g[k] == f[j];
    }
  }

  lemma SetListingLists(desc: bool, f: seq<Level>, m: Book, u: Update)
    requires Lists(desc, f, m)
    ensures Lists(desc, SetListing(desc, f, u), Apply(m, u))
  {
    hide Sorted, Rank, SetListing, Has;
    var g, n := SetListing(desc, f, u), Apply(m, u);
    SetListingSorted(desc, f, u);
    forall k | 0 <= k < |g| ensures g[k].price in n && n[g[k].price] == g[k].size {
      ListedLevel(desc, f, u, k);
    }
    forall q | q in n ensures Has(desc, g, q) {
      ListedPrice(desc, f, m, u, q);
    }
  }

  lemma ListedPrice(desc: bool, f: seq<Level>, m: Book, u: Update, q: real)
    requires Lists(desc, f, m) && q in Apply(m, u) && Sorted(desc, SetListing(desc, f, u))
    ensures Has(desc, SetListing(desc, f, u), q)
  {
    var p, i, g := u.price, Rank(desc, f, u.price), SetListing(desc, f, u);
    RankSplits(desc, f, p);
    var k: nat;
    if q == p {
      k := i;
    } else {
      var j := Rank(desc, f, q);
      assert Has(desc, f, q);
      k := if Has(desc, f, p) && u.size == 0.0 then (if j < i then j else j - 1)
           else if !Has(desc, f, p) && u.size != 0.0 then (if j < i then j else j + 1)
           else j;
      RankSplits(desc, f, q);
      assert Has(desc, f, p) ==> j != i;
      assert g[k] == f[j];
    }
    HasWitness(desc, g, k);
  }

  /** Every book that a feed leads to can be listed. */
  lemma {:induction false} ListingExists(desc: bool, us: seq<Update>) returns (list: seq<Level>)
    ensures Lists(desc, list, ReplayMap(us))
  {
    if us == [] {
      return [];
    }
    var front := ListingExists(desc, us[..|us| - 1]);
    SetListingLists(desc, front, ReplayMap(us[..|us| - 1]), us[|us| - 1]);
    list := SetListing(desc, front, us[|us| - 1]);
  }

  /**
   With `d` deletions so far: if nothing was ever evicted the array is the whole listing,
   otherwise the two agree on the first `32 - d` levels.
   */
  ghost predicate Agrees(desc: bool, c: seq<Level>, f: seq<Level>, d: nat) {
    && Sorted(desc, c) && Sorted(desc, f) && |c| <= CAPACITY
    && (|f| + d <= CAPACITY ==> c == f)
    && (|f| + d > CAPACITY && d <= CAPACITY ==> CAPACITY - d <= |c| && c[..CAPACITY - d] == f[..CAPACITY - d])
  }

  /** Sorted sequences with a common front rank a price that falls inside it alike. */
  lemma SameRank(desc: bool, c: seq<Level>, f: seq<Level>, k: nat, p: real)
    requires Sorted(desc, c) && Sorted(desc, f) && k <= |c| && k <= |f| && c[..k] == f[..k]
    ensures Rank(desc, c, p) < k || Rank(desc, f, p) < k ==>
              Rank(desc, c, p) == Rank(desc, f, p) && Has(desc, c, p) == Has(desc, f, p)
  {
    RankSplits(desc, c, p);
    RankSplits(desc, f, p);
    CommonFront(c, f, k);
  }

  /** A change at or past `k` leaves the first `k` levels alone. */
  lemma ChangeBehind(desc: bool, c: seq<Level>, p: real, size: real, k: nat)
    requires |c| <= CAPACITY && k <= CAPACITY && k <= |c| && k <= Rank(desc, c, p)
    ensures var c' := SetLevel(desc, c, p, size); k <= |c'| && c'[..k] == c[..k]
  {
  }

  lemma ListingBehind(desc: bool, f: seq<Level>, u: Update, k: nat)
    requires k < |f| && k <= Rank(desc, f, u.price)
    ensures var f' := SetListing(desc, f, u); k <= |f'| && f'[..k] == f[..k]
  {
  }

  /** The same change inside the common front keeps a common front, one shorter for a deletion. */
  lemma ChangeInside(desc: bool, c: seq<Level>, f: seq<Level>, u: Update, k: nat)
    requires |c| <= CAPACITY && k <= CAPACITY && k <= |c| && k < |f| && c[..k] == f[..k]
    requires Rank(desc, c, u.price) == Rank(desc, f, u.price) < k
    requires Has(desc, c, u.price) == Has(desc, f, u.price)
    requires u.size == 0.0 ==> Has(desc, f, u.price)
    ensures var c', f' := SetLevel(desc, c, u.price, u.size), SetListing(desc, f, u);
            var n := if u.size == 0.0 then k - 1 else k;
            n <= |c'| && n <= |f'| && c'[..n] == f'[..n]
  {
    var i := Rank(desc, c, u.price);
    var l := Level(u.price, u.size);
    assert c[..i] == c[..k][..i] == f[..k][..i] == f[..i];
    assert c[i..k] == c[..k][i..] == f[..k][i..] == f[i..k];
    if u.size == 0.0 {
      assert Remove(c, i)[..k - 1] == c[..i] + c[i..k][1..];
      assert Remove(f, i)[..k - 1] == f[..i] + f[i..k][1..];
    } else if Has(desc, c, u.price) {
      assert c[i := l][..k] == c[..k][i := l];
      assert f[i := l][..k] == f[..k][i := l];
    } else {
      assert Insert(c, i, l)[..k] == c[..i] + [l] + c[i..k][..k - i - 1];
      assert Insert(f, i, l)[..k] == f[..i] + [l] + f[i..k][..k - i - 1];
    }
  }

  /** While nothing was evicted the array and the listing take the same step, up to the cap. */
  lemma WholeStep(desc: bool, f: seq<Level>, u: Update)
    requires |f| <= CAPACITY && (u.size == 0.0 ==> Has(desc, f, u.price))
    ensures SetLevel(desc, f, u.price, u.size) == Cap(SetListing(desc, f, u))
  {
    var i, l := Rank(desc, f, u.price), Level(u.price, u.size);
    if !Has(desc, f, u.price) && i >= CAPACITY {
      assert Insert(f, i, l) == f + [l];
    }
  }

  lemma FrontStep(desc: bool, c: seq<Level>, f: seq<Level>, u: Update, k: nat)
    requires Sorted(desc, c) && Sorted(desc, f) && |c| <= CAPACITY && k <= CAPACITY && k <= |c| && k < |f|
    requires c[..k] == f[..k] && (u.size == 0.0 ==> Has(desc, f, u.price))
    ensures var c', f' := SetLevel(desc, c, u.price, u.size), SetListing(desc, f, u);
            var n := if u.size == 0.0 then k - 1 else k;
            n < 0 || (n <= |c'| && n <= |f'| && c'[..n] == f'[..n])
  {
    SameRank(desc, c, f, k, u.price);
    if Rank(desc, f, u.price) < k {
      ChangeInside(desc, c, f, u, k);
    } else {
      ChangeBehind(desc, c, u.price, u.size, k);
      ListingBehind(desc, f, u, k);
      var c', f' := SetLevel(desc, c, u.price, u.size), SetListing(desc, f, u);
      if k > 0 {
        assert c'[..k - 1] == c'[..k][..k - 1] && f'[..k - 1] == f'[..k][..k - 1];
      }
    }
  }

  lemma ListingLength(desc: bool, f: seq<Level>, u: Update)
    ensures |SetListing(desc, f, u)|
            == |f| + (if Has(desc, f, u.price) then (if u.size == 0.0 then -1 else 0) else if u.size == 0.0 then 0 else 1)
  {
  }

  lemma StepAgrees(desc: bool, c: seq<Level>, f: seq<Level>, d: nat, u: Update)
    requires Agrees(desc, c, f, d) && (u.size == 0.0 ==> Has(desc, f, u.price))
    requires Sorted(desc, SetListing(desc, f, u))
    ensures Agrees(desc, SetLevel(desc, c, u.price, u.size), SetListing(desc, f, u),
                   if u.size == 0.0 then d + 1 else d)
  {
    SetKeepsSorted(desc, c, u.price, u.size);
    ListingLength(desc, f, u);
    if |f| + d <= CAPACITY {
      WholeStep(desc, f, u);
    } else if d <= CAPACITY {
      FrontStep(desc, c, f, u, CAPACITY - d);
    }
  }

  lemma {:induction false} ReplayAgrees(desc: bool, us: seq<Update>) returns (f: seq<Level>)
    requires DeletesPresent(us)
    ensures Lists(desc, f, ReplayMap(us))
    ensures Agrees(desc, ReplayArray(desc, us), f, Deletions(us))
  {
    if us == [] {
      f := [];
    } else {
      var before, u := us[..|us| - 1], us[|us| - 1];
      assert forall i :: 0 <= i < |before| ==> before[..i] == us[..i];
      var g := ReplayAgrees(desc, before);
      assert before == us[..|us| - 1];
      SetListingLists(desc, g, ReplayMap(before), u);
      f := SetListing(desc, g, u);
      StepAgrees(desc, ReplayArray(desc, before), g, Deletions(before), u);
    }
  }

  /**
   The depth bound.  With `d` deletions since the snapshot began, the first `32 - d` levels of the
   array, price and size, are those of the full book, and the array is the whole book while the
   book's size and `d` together have not passed 32.
   */
  lemma DepthBound(desc: bool, us: seq<Update>, f: seq<Level>)
    requires DeletesPresent(us) && Lists(desc, f, ReplayMap(us))
    ensures var c, d := ReplayArray(desc, us), Deletions(us);
            && (|f| + d <= CAPACITY ==> c == f)
            && (d <= CAPACITY ==>
                  var n := Min(CAPACITY - d, |f|);
                  n <= |c| && c[..n] == f[..n])
  {
    hide ReplayMap, ReplayArray, Deletions, DeletesPresent, Lists;
    var g := ReplayAgrees(desc, us);
    ListingUnique(desc, f, g, ReplayMap(us));
    if Deletions(us) <= CAPACITY {
      AgreesOnFront(desc, ReplayArray(desc, us), f, Deletions(us));
    }
  }

  lemma AgreesOnFront(desc: bool, c: seq<Level>, f: seq<Level>, d: nat)
    requires Agrees(desc, c, f, d) && d <= CAPACITY
    ensures var n := Min(CAPACITY - d, |f|);
            n <= |c| && c[..n] == f[..n]
  {
  }

  /** The best price is right, and present when there is one, while fewer than 32 prices were deleted. */
  lemma BestIsRight(desc: bool, us: seq<Update>, f: seq<Level>)
    requires DeletesPresent(us) && Lists(desc, f, ReplayMap(us)) && Deletions(us) < CAPACITY
    ensures var c := ReplayArray(desc, us);
            if f == [] then c == [] else c != [] && c[0] == f[0]
  {
    DepthBound(desc, us, f);
    var c, n := ReplayArray(desc, us), Min(CAPACITY - Deletions(us), |f|);
    if f != [] {
      assert c[..n][0] == f[..n][0];
    }
  }

  lemma {:induction false} NoDeletions(us: seq<Update>)
    requires forall i :: 0 <= i < |us| ==> us[i].size != 0.0
    ensures Deletions(us) == 0
  {
    if us != [] {
      NoDeletions(us[..|us| - 1]);
    }
  }

  /** A freshly loaded snapshot is the exact top 32, whatever order its levels arrived in. */
  lemma SnapshotExact(desc: bool, us: seq<Update>, f: seq<Level>)
    requires forall i :: 0 <= i < |us| ==> us[i].size != 0.0
    requires Lists(desc, f, ReplayMap(us))
    ensures ReplayArray(desc, us) == Cap(f)
  {
    NoDeletions(us);
    var g := ReplayAgrees(desc, us);
    ListingUnique(desc, f, g, ReplayMap(us));
    var c := ReplayArray(desc, us);
    if |f| > CAPACITY {
      assert c[..CAPACITY] == c;
    }
  }

  /** Two arrival orders of the same book give the same array. */
  lemma SnapshotOrderIrrelevant(desc: bool, us: seq<Update>, vs: seq<Update>)
    requires forall i :: 0 <= i < |us| ==> us[i].size != 0.0
    requires forall i :: 0 <= i < |vs| ==> vs[i].size != 0.0
    requires ReplayMap(us) == ReplayMap(vs)
    ensures ReplayArray(desc, us) == ReplayArray(desc, vs)
  {
    var f := ReplayAgrees(desc, us);
    SnapshotExact(desc, us, f);
    SnapshotExact(desc, vs, f);
  }

  // ---------- The bound is tight ----------

  function Ladder(lo: nat, hi: nat): seq<Level>
    requires lo <= hi
  {
    seq(hi - lo, i requires 0 <= i < hi - lo => Level((lo + i) as real, 1.0))
  }

  /** Asks at 1, 2, ..., `n`, then the best `d` of them deleted. */
  function Climb(n: nat, d: nat): seq<Update> {
    if d > 0 then Climb(n, d - 1) + [Update(d as real, 0.0)]
    else if n > 0 then Climb(n - 1, 0) + [Update(n as real, 1.0)]
    else []
  }

  lemma LadderTop(lo: nat, hi: nat)
    requires lo <= hi
    ensures Sorted(false, Ladder(lo, hi)) && Rank(false, Ladder(lo, hi), hi as real) == hi - lo
    ensures SetListing(false, Ladder(lo, hi), Update(hi as real, 1.0)) == Ladder(lo, hi + 1)
    ensures hi - lo <= CAPACITY ==> SetLevel(false, Ladder(lo, hi), hi as real, 1.0) == Cap(Ladder(lo, hi + 1))
  {
    RankUnique(false, Ladder(lo, hi), hi as real, hi - lo);
  }

  lemma LadderBottom(lo: nat, hi: nat)
    requires lo < hi
    ensures Has(false, Ladder(lo, hi), lo as real)
    ensures SetListing(false, Ladder(lo, hi), Update(lo as real, 0.0)) == Ladder(lo + 1, hi)
    ensures SetLevel(false, Ladder(lo, hi), lo as real, 0.0) == Ladder(lo + 1, hi)
  {
    RankUnique(false, Ladder(lo, hi), lo as real, 0);
  }

  lemma ExtendFeed(us: seq<Update>, u: Update)
    requires DeletesPresent(us) && (u.size == 0.0 ==> u.price in ReplayMap(us))
    ensures DeletesPresent(us + [u]) && ReplayMap(us + [u]) == Apply(ReplayMap(us), u)
    ensures Deletions(us + [u]) == Deletions(us) + (if u.size == 0.0 then 1 else 0)
    ensures forall desc :: ReplayArray(desc, us + [u]) == SetLevel(desc, ReplayArray(desc, us), u.price, u.size)
  {
    var all := us + [u];
    assert all[..|all| - 1] == us;
    assert forall i :: 0 <= i <= |us| ==> all[..i] == us[..i];
    assert us[..|us|] == us;
  }

  /** After `us` the book holds the ladder from `d + 1` to `n`, and the array at most its first 32 rungs. */
  ghost predicate Climbed(us: seq<Update>, n: nat, d: nat)
    requires d <= n && d <= CAPACITY
  {
    && DeletesPresent(us) && Deletions(us) == d
    && Lists(false, Ladder(d + 1, n + 1), ReplayMap(us))
    && ReplayArray(false, us) == Ladder(d + 1, if n <= CAPACITY then n + 1 else CAPACITY + 1)
  }

  lemma DropOne(us: seq<Update>, n: nat, d: nat)
    requires d < n && d < CAPACITY && Climbed(us, n, d)
    ensures Climbed(us + [Update((d + 1) as real, 0.0)], n, d + 1)
  {
    var u, f := Update((d + 1) as real, 0.0), Ladder(d + 1, n + 1);
    LadderBottom(d + 1, n + 1);
    LadderBottom(d + 1, if n <= CAPACITY then n + 1 else CAPACITY + 1);
    assert f[0].price == u.price;
    ExtendFeed(us, u);
    SetListingLists(false, f, ReplayMap(us), u);
  }

  lemma AddOne(us: seq<Update>, n: nat)
    requires n <= CAPACITY && Climbed(us, n, 0)
    ensures Climbed(us + [Update((n + 1) as real, 1.0)], n + 1, 0)
  {
    var u := Update((n + 1) as real, 1.0);
    LadderTop(1, n + 1);
    ExtendFeed(us, u);
    SetListingLists(false, Ladder(1, n + 1), ReplayMap(us), u);
    assert Cap(Ladder(1, n + 2)) == Ladder(1, if n + 1 <= CAPACITY then n + 2 else CAPACITY + 1);
  }

  lemma {:induction false} ClimbState(n: nat, d: nat)
    requires n <= CAPACITY + 1 && d <= n && d <= CAPACITY
    ensures Climbed(Climb(n, d), n, d)
    decreases n + d
  {
    hide Climbed;
    if d > 0 {
      ClimbState(n, d - 1);
      DropOne(Climb(n, d - 1), n, d - 1);
    } else if n > 0 {
      ClimbState(n - 1, 0);
      AddOne(Climb(n - 1, 0), n - 1);
    } else {
      ClimbStart();
    }
  }

  lemma ClimbStart()
    ensures Climbed([], 0, 0)
  {
  }

  /** For every `d` up to 32 a feed with `d` deletions leaves the array one level short of the bound plus one. */
  lemma BoundIsTight(d: nat)
    requires d <= CAPACITY
    ensures var us, f := Climb(33, d), Ladder(d + 1, 34);
            && DeletesPresent(us) && Deletions(us) == d && Lists(false, f, ReplayMap(us))
            && |ReplayArray(false, us)| == CAPACITY - d < |f|
  {
    ClimbState(33, d);
  }

  lemma {:induction false} BookHasNoZero(us: seq<Update>, p: real)
    requires p in ReplayMap(us)
    ensures ReplayMap(us)[p] != 0.0
  {
    var u := us[|us| - 1];
    if u.size == 0.0 || u.price != p {
      BookHasNoZero(us[..|us| - 1], p);
    }
  }

  /** No zero-size level is held while the size of the book and the deletions together have not passed 32. */
  lemma NoZeroWhileWhole(desc: bool, us: seq<Update>, f: seq<Level>)
    requires DeletesPresent(us) && Lists(desc, f, ReplayMap(us)) && |f| + Deletions(us) <= CAPACITY
    ensures NoZero(ReplayArray(desc, us))
  {
    hide ReplayMap, ReplayArray, Deletions, DeletesPresent;
    DepthBound(desc, us, f);
    forall i | 0 <= i < |f| ensures f[i].size != 0.0 {
      BookHasNoZero(us, f[i].price);
    }
  }

  /** A feed that deletes only prices of the book can still leave a zero-size level: it deletes one the array forgot. */
  lemma ZeroLevelReached(n: nat)
    requires n == CAPACITY + 1
    ensures var us := Climb(n, 1) + [Update(n as real, 0.0)];
            DeletesPresent(us) && !NoZero(ReplayArray(false, us))
  {
    hide Climb, ReplayMap, ReplayArray, Deletions, DeletesPresent, Rank;
    var us, u := Climb(n, 1), Update(n as real, 0.0);
    var c, f := Ladder(2, n), Ladder(2, n + 1);
    ClimbState(n, 1);
    assert f[n - 2] == Level(n as real, 1.0);
    LadderTop(2, n);
    ExtendFeed(us, u);
    assert !Has(false, c, n as real);
    NoZeroKeptIff(false, c, n as real, 0.0);
  }
}
