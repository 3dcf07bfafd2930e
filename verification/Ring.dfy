/** The contents of a circular buffer, shared by the transmit ring and the rate limiter. */
module Ring {

  /** `i % n` for an index that has run past the end of a ring at most once. */
  function Wrap(i: nat, n: nat): nat
    requires i < 2 * n
  {
    if i < n then i else i - n
  }

  lemma WrapIsRemainder(i: nat, n: nat)
    requires i < 2 * n
    ensures Wrap(i, n) == i % n
  {
    if i >= n {
      assert i == n + (i - n);
    }
  }

  /** The `count` entries from `head` on, in order, past the wrap point if need be. */
  function Contents<T>(cells: seq<T>, head: nat, count: nat): (c: seq<T>)
    requires count <= |cells| && (count > 0 ==> head < |cells|)
    ensures |c| == count
    ensures forall k :: 0 <= k < count ==> c[k] == cells[Wrap(head + k, |cells|)]
  {
    seq(count, k requires 0 <= k < count => cells[Wrap(head + k, |cells|)])
  }

  lemma Drop<T>(cells: seq<T>, head: nat, count: nat, n: nat)
    requires head < |cells| && n <= count <= |cells|
    ensures Contents(cells, Wrap(head + n, |cells|), count - n) == Contents(cells, head, count)[n..]
  {
    var a := Contents(cells, Wrap(head + n, |cells|), count - n);
    var b := Contents(cells, head, count)[n..];
    forall k | 0 <= k < |a| ensures a[k] == b[k] {
      assert b[k] == Contents(cells, head, count)[n + k] == cells[Wrap(head + (n + k), |cells|)];
      assert Wrap(head + (n + k), |cells|) == Wrap(Wrap(head + n, |cells|) + k, |cells|);
    }
  }

  /** Overwriting free cells after the last entry appends. */
  lemma Append<T>(cells: seq<T>, cells': seq<T>, head: nat, count: nat, added: seq<T>)
    requires |cells'| == |cells| && head < |cells| && count + |added| <= |cells|
    requires Wrap(head + count, |cells|) + |added| <= |cells|
    requires var w := Wrap(head + count, |cells|);
             cells' == cells[..w] + added + cells[w + |added|..]
    ensures Contents(cells', head, count + |added|) == Contents(cells, head, count) + added
  {
    var a := Contents(cells', head, count + |added|);
    var b := Contents(cells, head, count) + added;
    forall k | 0 <= k < |a| ensures a[k] == b[k] {
      var at := Wrap(head + k, |cells|);
      if k < count {
        assert cells'[at] == cells[at];
      } else {
        assert at == Wrap(head + count, |cells|) + (k - count);
      }
    }
  }
}
