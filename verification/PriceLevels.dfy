/**
 One side of the incremental book: at most 32 price levels in a sorted array, found by binary
 search and shifted in place.
 */
module PriceLevels {

  import opened Common

  /** Prices and sizes are exact. */
  datatype Level = Level(price: real, size: real)

  const CAPACITY := 32

  /** The side's order: bids descend, asks ascend. */
  predicate Before(desc: bool, a: real, b: real) {
    if desc then a > b else a < b
  }

  ghost predicate Sorted(desc: bool, s: seq<Level>) {
    forall i, j :: 0 <= i < j < |s| ==> Before(desc, s[i].price, s[j].price)
  }

  /** How many levels, from the front, come before `p`. */
  function Rank(desc: bool, s: seq<Level>, p: real): (r: nat)
    ensures r <= |s|
  {
    if s == [] || !Before(desc, s[0].price, p) then 0 else 1 + Rank(desc, s[1..], p)
  }

  predicate Has(desc: bool, s: seq<Level>, p: real) {
    var i := Rank(desc, s, p);
    i < |s| && s[i].price == p
  }

  function Insert(s: seq<Level>, i: nat, l: Level): seq<Level>
    requires i <= |s|
  {
    s[..i] + [l] + s[i..]
  }

  function Remove(s: seq<Level>, i: nat): seq<Level>
    requires i < |s|
  {
    s[..i] + s[i + 1..]
  }

  function Cap(s: seq<Level>): seq<Level> {
    if |s| <= CAPACITY then s else s[..CAPACITY]
  }

  /** What the array does with one update; note that deleting a price it does not hold inserts it. */
  function SetLevel(desc: bool, s: seq<Level>, p: real, size: real): seq<Level> {
    var i := Rank(desc, s, p);
    if Has(desc, s, p) then
      if size == 0.0 then Remove(s, i) else s[i := Level(p, size)]
    else if i >= CAPACITY then s
    else Cap(Insert(s, i, Level(p, size)))
  }

  /** Every level before position `i` precedes `p`, none from `i` on does. */
  ghost predicate Splits(desc: bool, s: seq<Level>, p: real, i: nat) {
    && i <= |s|
    && (forall k :: 0 <= k < i ==> Before(desc, s[k].price, p))
    && (forall k :: i <= k < |s| ==> !Before(desc, s[k].price, p))
  }

  lemma {:induction false} RankSplits(desc: bool, s: seq<Level>, p: real)
    requires Sorted(desc, s)
    ensures Splits(desc, s, p, Rank(desc, s, p))
    ensures Has(desc, s, p) <==> exists k :: 0 <= k < |s| && s[k].price == p
  {
    if s != [] && Before(desc, s[0].price, p) {
      RankSplits(desc, s[1..], p);
      var i := Rank(desc, s[1..], p);
      forall k | 0 <= k < |s| ensures (k < 1 + i ==> Before(desc, s[k].price, p)) && (k >= 1 + i ==> !Before(desc, s[k].price, p)) {
        if k > 0 {
          assert s[1..][k - 1] == s[k];
        }
      }
    } else if s != [] {
      assert forall k :: 0 < k < |s| ==> Before(desc, s[0].price, s[k].price);
    }
  }

  lemma {:induction false} RankUnique(desc: bool, s: seq<Level>, p: real, i: nat)
    requires Splits(desc, s, p, i)
    ensures Rank(desc, s, p) == i
  {
    if i > 0 {
      RankUnique(desc, s[1..], p, i - 1);
    }
  }

  lemma InsertSorted(desc: bool, s: seq<Level>, i: nat, l: Level)
    requires Sorted(desc, s) && Splits(desc, s, l.price, i) && (i < |s| ==> s[i].price != l.price)
    ensures Sorted(desc, Insert(s, i, l))
  {
    var t := Insert(s, i, l);
    forall a, b | 0 <= a < b < |t| ensures Before(desc, t[a].price, t[b].price) {
      if a == i {
        assert t[b] == s[b - 1];
        assert b - 1 == i || Before(desc, s[i].price, s[b - 1].price);
      } else if b == i {
        assert t[a] == s[a];
      } else {
        assert t[a] == s[if a < i then a else a - 1] && t[b] == s[if b < i then b else b - 1];
      }
    }
  }

  lemma RemoveSorted(desc: bool, s: seq<Level>, i: nat)
    requires Sorted(desc, s) && i < |s|
    ensures Sorted(desc, Remove(s, i))
  {
    var t := Remove(s, i);
    forall a, b | 0 <= a < b < |t| ensures Before(desc, t[a].price, t[b].price) {
      assert t[a] == s[if a < i then a else a + 1] && t[b] == s[if b < i then b else b + 1];
    }
  }

  lemma UpdateSorted(desc: bool, s: seq<Level>, i: nat, l: Level)
    requires Sorted(desc, s) && i < |s| && s[i].price == l.price
    ensures Sorted(desc, s[i := l])
  {
  }

  /** An update keeps the array sorted and within its capacity. */
  lemma SetKeepsSorted(desc: bool, s: seq<Level>, p: real, size: real)
    requires Sorted(desc, s) && |s| <= CAPACITY
    ensures Sorted(desc, SetLevel(desc, s, p, size)) && |SetLevel(desc, s, p, size)| <= CAPACITY
  {
    RankSplits(desc, s, p);
    var i := Rank(desc, s, p);
    if !Has(desc, s, p) {
      InsertSorted(desc, s, i, Level(p, size));
    } else if size == 0.0 {
      RemoveSorted(desc, s, i);
    } else {
      UpdateSorted(desc, s, i, Level(p, size));
    }
  }

  ghost predicate NoZero(s: seq<Level>) {
    forall i :: 0 <= i < |s| ==> s[i].size != 0.0
  }

  /**
   A side free of zero-size levels stays so under an update if and only if the update is not the
   deletion of a price that the side does not hold and that ranks within the capacity.
   */
  lemma NoZeroKeptIff(desc: bool, s: seq<Level>, p: real, size: real)
    requires Sorted(desc, s) && |s| <= CAPACITY && NoZero(s)
    ensures NoZero(SetLevel(desc, s, p, size))
            <==> !(size == 0.0 && !Has(desc, s, p) && Rank(desc, s, p) < CAPACITY)
  {
    RankSplits(desc, s, p);
    var i, t := Rank(desc, s, p), SetLevel(desc, s, p, size);
    if !Has(desc, s, p) && i < CAPACITY {
      assert t[i] == Level(p, size);
    }
  }

  /** Inserting into a full side drops its last level. */
  lemma InsertShape(s: seq<Level>, i: nat, l: Level, last: nat)
    requires i < CAPACITY && i <= |s| <= CAPACITY
    requires last == if |s| == CAPACITY then |s| - 1 else |s|
    ensures Cap(Insert(s, i, l)) == s[..i] + [l] + s[i..last]
  {
    var t := Insert(s, i, l);
    assert s[i..] == s[i..last] + s[last..];
    assert t == s[..i] + [l] + s[i..last] + s[last..];
  }

  class PriceLevels {
    const desc: bool
    const levels: array<Level>
    var count: nat

    ghost predicate Valid()
      reads this, levels
    {
      levels.Length == CAPACITY && count <= CAPACITY && Sorted(desc, levels[..count])
    }

    function Contents(): seq<Level>
      requires count <= levels.Length
      reads this, levels
    {
      levels[..count]
    }

    constructor (desc: bool)
      ensures Valid() && fresh(levels) && this.desc == desc && Contents() == []
    {
      this.desc := desc;
      levels := new Level[CAPACITY](i => Level(0.0, 0.0));
      count := 0;
    }

    method Clear()
      requires Valid()
      modifies `count
      ensures Valid() && Contents() == []
    {
      count := 0;
    }

    method LowerBound(price: real) returns (begin: nat)
      requires Valid()
      ensures begin == Rank(desc, Contents(), price)
    {
      begin := 0;
      var end := count;
      while begin < end
        invariant begin <= end <= count
        invariant forall k :: 0 <= k < begin ==> Before(desc, levels[k].price, price)
        invariant forall k :: end <= k < count ==> !Before(desc, levels[k].price, price)
      {
        var mid := begin + (end - begin) / 2;
        if Before(desc, levels[mid].price, price) {
          assert forall k :: 0 <= k < mid ==> Before(desc, Contents()[k].price, Contents()[mid].price);
          begin := mid + 1;
        } else {
          assert forall k :: mid < k < count ==> Before(desc, Contents()[mid].price, Contents()[k].price);
          end := mid;
        }
      }
      RankUnique(desc, Contents(), price, begin);
    }

    /** Moves the levels at `i` up to `last` one place on, onto `last`. */
    method ShiftUp(i: nat, last: nat)
      requires i <= last < levels.Length
      modifies levels
      ensures levels[..i] == old(levels[..i])
      ensures levels[i + 1..last + 1] == old(levels[i..last])
    {
      var j := last;
      while j > i
        invariant i <= j <= last
        invariant levels[..j] == old(levels[..j])
        invariant levels[j + 1..last + 1] == old(levels[j..last])
      {
        assert levels[..j][j - 1] == old(levels[..j])[j - 1];
        levels[j] := levels[j - 1];
        j := j - 1;
      }
    }

    method InsertAt(i: nat, level: Level)
      requires levels.Length == CAPACITY && i <= count <= CAPACITY
      modifies this, levels
      ensures count <= CAPACITY
      ensures Contents() == if i >= CAPACITY then old(Contents()) else Cap(Insert(old(Contents()), i, level))
    {
      if i >= CAPACITY {
        return;
      }
      var last := if count == CAPACITY then count - 1 else count;
      ghost var was := Contents();
      ShiftUp(i, last);
      levels[i] := level;
      assert levels[..last + 1] == levels[..i] + [level] + levels[i + 1..last + 1];
      if count < CAPACITY {
        count := count + 1;
      }
      InsertShape(was, i, level, last);
    }

    method RemoveAt(i: nat)
      requires levels.Length == CAPACITY && i < count <= CAPACITY
      modifies this, levels
      ensures count == old(count) - 1
      ensures Contents() == Remove(old(Contents()), i)
    {
      var j := i;
      while j + 1 < count
        invariant i <= j < count == old(count)
        invariant forall k :: 0 <= k < i ==> levels[k] == old(levels[k])
        invariant forall k :: i <= k < j ==> levels[k] == old(levels[k + 1])
        invariant forall k :: j <= k < count ==> levels[k] == old(levels[k])
      {
        levels[j] := levels[j + 1];
        j := j + 1;
      }
      count := count - 1;
    }

    method Set(price: real, size: real)
      requires Valid()
      modifies this, levels
      ensures Valid() && Contents() == SetLevel(desc, old(Contents()), price, size)
    {
      SetKeepsSorted(desc, Contents(), price, size);
      var i := LowerBound(price);
      if i < count && levels[i].price == price {
        if size == 0.0 {
          RemoveAt(i);
        } else {
          levels[i] := Level(price, size);
          assert Contents() == old(Contents())[i := Level(price, size)];
        }
        return;
      }
      InsertAt(i, Level(price, size));
    }

    /** The price that comes before every other price held. */
    method Best() returns (best: Option<real>)
      requires Valid()
      ensures best.None? <==> Contents() == []
      ensures best.Some? ==> Has(desc, Contents(), best.value)
      ensures best.Some? ==> forall k :: 0 <= k < count ==> best.value == Contents()[k].price || Before(desc, best.value, Contents()[k].price)
    {
      if count == 0 {
        return None;
      }
      RankSplits(desc, Contents(), levels[0].price);
      return Some(levels[0].price);
    }
  }
}
