/**
 The log-bucket latency histogram: 64 buckets of width one, then 28 octaves of 64 buckets whose
 width doubles from octave to octave, covering the nanosecond values below 2^34.
 */
module LatencyHistogram {

  type Uint64 = n: int | 0 <= n < 0x1_0000_0000_0000_0000

  /** 64 + 28 * 64. */
  const BUCKETS := 1856
  /** 2^34: the first value past the last octave. */
  const LIMIT := 0x4_0000_0000

  /** `n << k`, without a width: every shift below stays inside 64 bits. */
  function Shl(n: nat, k: nat): (r: nat)
    ensures n >= 1 ==> r >= 1
  {
    if k == 0 then n else 2 * Shl(n, k - 1)
  }

  /** `n >> k`. */
  function Shr(n: nat, k: nat): nat {
    if k == 0 then n else Shr(n / 2, k - 1)
  }

  /** Position of the highest set bit, `63 - countl_zero(n)`. */
  function Msb(n: nat): (k: nat)
    requires n > 0
    ensures Shl(1, k) <= n < Shl(1, k + 1)
  {
    if n == 1 then 0 else Msb(n / 2) + 1
  }

  function BucketIndex(nanos: Uint64): nat {
    if nanos < 64 then nanos
    else
      var octave := Msb(nanos) - 5;
      if octave > 28 then BUCKETS - 1
      else
        ShiftRange(nanos);
        var shift := octave - 1;
        var subOffset := Shr(nanos, shift) - 64;
        64 + (octave - 1) * 64 + subOffset
  }

  function BucketUpperBound(index: nat): nat {
    if index < 64 then index
    else
      var offset := index - 64;
      var shift := offset / 64;
      var lower := Shl(64 + offset % 64, shift);
      lower + Shl(1, shift) - 1
  }

  lemma {:induction false} ShlAdds(m: nat, n: nat, k: nat)
    ensures Shl(m + n, k) == Shl(m, k) + Shl(n, k)
  {
    if k > 0 {
      ShlAdds(m, n, k - 1);
    }
  }

  lemma {:induction false} ShlGrows(n: nat, j: nat, k: nat)
    requires j <= k
    ensures Shl(n, j) <= Shl(n, k)
  {
    if j < k {
      ShlGrows(n, j, k - 1);
    }
  }

  lemma {:induction false} ShlByOctave(k: nat)
    ensures Shl(1, k + 6) == Shl(64, k) == 64 * Shl(1, k)
    ensures Shl(1, k + 7) == Shl(128, k) == 128 * Shl(1, k)
  {
    if k > 0 {
      ShlByOctave(k - 1);
    } else {
      assert Shl(1, 6) == 2 * Shl(1, 5) == 4 * Shl(1, 4) == 8 * Shl(1, 3);
      assert Shl(1, 3) == 2 * Shl(1, 2) == 4 * Shl(1, 1) == 8;
    }
  }

  lemma LimitIsPowerOfTwo()
    ensures Shl(1, 34) == LIMIT
  {
    ShlByOctave(0);
    ShlByOctave(6);
    ShlByOctave(13);
    ShlByOctave(20);
    ShlByOctave(27);
  }

  /** `n >> k` is the quotient: shifting it back brackets `n`. */
  lemma {:induction false} ShrBracket(n: nat, k: nat)
    ensures Shl(Shr(n, k), k) <= n < Shl(Shr(n, k) + 1, k)
  {
    if k > 0 {
      ShrBracket(n / 2, k - 1);
    }
  }

  lemma ShlOrder(m: nat, n: nat, k: nat)
    ensures Shl(m, k) < Shl(n, k) <==> m < n
  {
    if m < n {
      ShlAdds(m, n - m, k);
    } else {
      ShlAdds(n, m - n, k);
    }
  }

  /** The bracket determines the quotient. */
  lemma ShrUnique(n: nat, k: nat, q: nat)
    requires Shl(q, k) <= n < Shl(q + 1, k)
    ensures Shr(n, k) == q
  {
    ShrBracket(n, k);
    ShlOrder(q, Shr(n, k) + 1, k);
    ShlOrder(Shr(n, k), q + 1, k);
  }

  lemma MsbUnique(n: nat, k: nat)
    requires Shl(1, k) <= n < Shl(1, k + 1)
    ensures Msb(n) == k
  {
    if Msb(n) < k {
      ShlGrows(1, Msb(n) + 1, k);
    } else if Msb(n) > k {
      ShlGrows(1, k + 1, Msb(n));
    }
  }

  lemma MsbMonotone(m: nat, n: nat)
    requires 0 < m <= n
    ensures Msb(m) <= Msb(n)
  {
    if Msb(n) < Msb(m) {
      ShlGrows(1, Msb(n) + 1, Msb(m));
    }
  }

  /** Seven significant bits remain after the octave's shift. */
  lemma ShiftRange(n: nat)
    requires n >= 64
    ensures Msb(n) >= 6
    ensures 64 <= Shr(n, Msb(n) - 6) < 128
  {
    if Msb(n) < 6 {
      ShlGrows(1, Msb(n) + 1, 6);
      ShlByOctave(0);
    }
    var k := Msb(n) - 6;
    ShlByOctave(k);
    ShrBracket(n, k);
    ShlOrder(64, Shr(n, k) + 1, k);
    ShlOrder(Shr(n, k), 128, k);
  }

  /** Below the limit there are at most 28 octaves; from the limit on, more. */
  lemma MsbBelowLimit(n: nat)
    requires n > 0
    ensures n < LIMIT <==> Msb(n) <= 33
  {
    LimitIsPowerOfTwo();
    if Msb(n) <= 33 {
      ShlGrows(1, Msb(n) + 1, 34);
    } else {
      ShlGrows(1, 34, Msb(n));
    }
  }

  lemma BucketInRange(nanos: Uint64)
    ensures BucketIndex(nanos) < BUCKETS
    ensures nanos >= LIMIT ==> BucketIndex(nanos) == BUCKETS - 1
  {
    if nanos >= 64 {
      ShiftRange(nanos);
      MsbBelowLimit(nanos);
    }
  }

  lemma ShrMonotone(m: nat, n: nat, k: nat)
    requires m <= n
    ensures Shr(m, k) <= Shr(n, k)
  {
    ShrBracket(m, k);
    ShrBracket(n, k);
    ShlOrder(Shr(m, k), Shr(n, k) + 1, k);
  }

  lemma BucketShape(n: Uint64)
    requires 64 <= n < LIMIT
    ensures 6 <= Msb(n) <= 33
    ensures 64 <= Shr(n, Msb(n) - 6) < 128
    ensures BucketIndex(n) == 64 * (Msb(n) - 6) + Shr(n, Msb(n) - 6)
  {
    ShiftRange(n);
    MsbBelowLimit(n);
  }

  lemma SmallBucket(n: Uint64)
    requires n < 64
    ensures BucketIndex(n) == n
  {
  }

  lemma BucketMonotone(m: Uint64, n: Uint64)
    requires m <= n
    ensures BucketIndex(m) <= BucketIndex(n)
  {
    hide BucketIndex, Msb, Shr;
    if n >= LIMIT {
      BucketInRange(m);
      BucketInRange(n);
    } else if n < 64 {
      SmallBucket(m);
      SmallBucket(n);
    } else {
      BucketShape(n);
      if m < 64 {
        SmallBucket(m);
      } else {
        BucketShape(m);
        MsbMonotone(m, n);
        ShrMonotone(m, n, Msb(n) - 6);
      }
    }
  }

  /**
   A value below the limit is at most its bucket's upper bound, and the bound exceeds it by at
   most one part in 64.
   */
  lemma BucketError(n: Uint64)
    requires n < LIMIT
    ensures var upper := BucketUpperBound(BucketIndex(n));
            n <= upper && 64 * (upper - n) <= n
  {
    if n >= 64 {
      ShiftRange(n);
      MsbBelowLimit(n);
      var k := Msb(n) - 6;
      var q := Shr(n, k);
      var offset := BucketIndex(n) - 64;
      assert offset / 64 == k && offset % 64 == q - 64;
      ShrBracket(n, k);
      ShlAdds(q, 1, k);
      ShlByOctave(k);
      ShlOrder(q, 64, k);
    }
  }

  /** The upper bound of bucket `i` lies in bucket `i`. */
  lemma UpperBoundInBucket(i: nat)
    requires i < BUCKETS
    ensures BucketUpperBound(i) < LIMIT
    ensures BucketIndex(BucketUpperBound(i)) == i
  {
    if i >= 64 {
      var offset := i - 64;
      var k, q := offset / 64, 64 + offset % 64;
      var n := BucketUpperBound(i);
      ShlAdds(q, 1, k);
      ShlByOctave(k);
      ShlOrder(q, 64, k);
      ShlOrder(128, q + 1, k);
      MsbUnique(n, k + 6);
      MsbBelowLimit(n);
      ShrUnique(n, k, q);
    }
  }

  lemma UpperBoundMonotone(i: nat, j: nat)
    requires i < j < BUCKETS
    ensures BucketUpperBound(i) < BucketUpperBound(j)
  {
    UpperBoundInBucket(i);
    UpperBoundInBucket(j);
    if BucketUpperBound(j) <= BucketUpperBound(i) {
      BucketMonotone(BucketUpperBound(j), BucketUpperBound(i));
    }
  }

  function BucketLowerBound(i: nat): nat {
    if i == 0 then 0 else BucketUpperBound(i - 1) + 1
  }

  /** The buckets split the values below the limit with no gap and no overlap. */
  lemma BucketsPartition(n: Uint64, i: nat)
    requires n < LIMIT && i < BUCKETS
    ensures BucketIndex(n) == i <==> BucketLowerBound(i) <= n <= BucketUpperBound(i)
  {
    BucketError(n);
    BucketInRange(n);
    UpperBoundInBucket(i);
    if i > 0 {
      UpperBoundInBucket(i - 1);
      if BucketIndex(n) == i && n <= BucketUpperBound(i - 1) {
        BucketMonotone(n, BucketUpperBound(i - 1));
      }
    }
    if n <= BucketUpperBound(i) {
      BucketMonotone(n, BucketUpperBound(i));
      if 0 < i && BucketIndex(n) < i - 1 {
        UpperBoundMonotone(BucketIndex(n), i - 1);
      }
    }
  }

  /** Number of samples that satisfy `p`. */
  ghost function Count(samples: seq<Uint64>, p: Uint64 -> bool): nat {
    if samples == [] then 0
    else Count(samples[..|samples| - 1], p) + (if p(samples[|samples| - 1]) then 1 else 0)
  }

  lemma {:induction false} CountImplies(samples: seq<Uint64>, p: Uint64 -> bool, q: Uint64 -> bool)
    requires forall x: Uint64 :: p(x) ==> q(x)
    ensures Count(samples, p) <= Count(samples, q) <= |samples|
  {
    if samples != [] {
      CountImplies(samples[..|samples| - 1], p, q);
    }
  }

  lemma {:induction false} CountSplit(samples: seq<Uint64>, p: Uint64 -> bool, q: Uint64 -> bool, r: Uint64 -> bool)
    requires forall x: Uint64 :: r(x) == (p(x) || q(x)) && !(p(x) && q(x))
    ensures Count(samples, r) == Count(samples, p) + Count(samples, q)
  {
    if samples != [] {
      CountSplit(samples[..|samples| - 1], p, q, r);
    }
  }

  ghost function Under(s: Uint64): Uint64 -> bool {
    x => x < s
  }

  ghost function AtMost(s: Uint64): Uint64 -> bool {
    x => x <= s
  }

  ghost function BucketBelow(i: nat): Uint64 -> bool {
    (x: Uint64) => BucketIndex(x) < i
  }

  ghost function BucketIs(i: nat): Uint64 -> bool {
    (x: Uint64) => BucketIndex(x) == i
  }

  /** `s` is the `r`-th smallest sample, counting from one and repeating equal samples. */
  ghost predicate IsRank(samples: seq<Uint64>, r: nat, s: Uint64) {
    Count(samples, Under(s)) < r <= Count(samples, AtMost(s))
  }

  lemma {:induction false} CountConcat(a: seq<Uint64>, b: seq<Uint64>, p: Uint64 -> bool)
    ensures Count(a + b, p) == Count(a, p) + Count(b, p)
  {
    if b == [] {
      assert a + b == a;
    } else {
      CountConcat(a, b[..|b| - 1], p);
      assert (a + b)[..|a + b| - 1] == a + b[..|b| - 1];
    }
  }

  lemma {:induction false} CountPermutation(a: seq<Uint64>, b: seq<Uint64>, p: Uint64 -> bool)
    requires multiset(a) == multiset(b)
    ensures Count(a, p) == Count(b, p)
  {
    if a == [] {
      assert |multiset(b)| == 0;
    } else {
      var last := a[|a| - 1];
      assert a == a[..|a| - 1] + [last];
      assert last in multiset(b);
      var k :| 0 <= k < |b| && b[k] == last;
      var rest := b[..k] + b[k + 1..];
      assert b == b[..k] + [last] + b[k + 1..];
      assert multiset(a) == multiset(a[..|a| - 1]) + multiset{last};
      assert multiset(b) == multiset(b[..k]) + multiset{last} + multiset(b[k + 1..]);
      assert multiset(rest) == multiset(b) - multiset{last};
      assert multiset(a[..|a| - 1]) == multiset(a) - multiset{last};
      CountPermutation(a[..|a| - 1], rest, p);
      CountConcat(b[..k], b[k + 1..], p);
      CountConcat(b[..k] + [last], b[k + 1..], p);
      CountConcat(b[..k], [last], p);
      assert Count([last], p) == if p(last) then 1 else 0 by {
        assert [last][..0] == [];
      }
    }
  }

  lemma {:induction false} CountPrefix(a: seq<Uint64>, k: nat, p: Uint64 -> bool)
    requires k <= |a|
    requires forall i :: 0 <= i < |a| ==> (p(a[i]) ==> i < k)
    ensures Count(a, p) <= k
  {
    if a != [] {
      var n := |a| - 1;
      if k == |a| {
        CountImplies(a, p, p);
      } else {
        CountPrefix(a[..n], k, p);
      }
    }
  }

  lemma {:induction false} CountNone(samples: seq<Uint64>, p: Uint64 -> bool)
    requires forall x: Uint64 :: !p(x)
    ensures Count(samples, p) == 0
  {
    if samples != [] {
      CountNone(samples[..|samples| - 1], p);
    }
  }

  lemma {:induction false} CountAll(a: seq<Uint64>, k: nat, p: Uint64 -> bool)
    requires k <= |a|
    requires forall i :: 0 <= i < k ==> p(a[i])
    ensures Count(a, p) >= k
  {
    if a != [] {
      var n := |a| - 1;
      CountAll(a[..n], if k <= n then k else n, p);
    }
  }

  /** `IsRank` means what it says: the `r`-th entry of the sorted samples has rank `r`. */
  lemma RankOfSorted(samples: seq<Uint64>, sorted: seq<Uint64>, r: nat)
    requires multiset(samples) == multiset(sorted)
    requires forall i, j :: 0 <= i < j < |sorted| ==> sorted[i] <= sorted[j]
    requires 1 <= r <= |sorted|
    ensures IsRank(samples, r, sorted[r - 1])
  {
    var s := sorted[r - 1];
    CountPermutation(samples, sorted, Under(s));
    CountPermutation(samples, sorted, AtMost(s));
    CountPrefix(sorted, r - 1, Under(s));
    CountAll(sorted, r, AtMost(s));
  }

  /** The bucket where the cumulative count reaches `r` holds the `r`-th smallest sample. */
  lemma RankBucket(samples: seq<Uint64>, r: nat, s: Uint64, i: nat)
    requires IsRank(samples, r, s)
    requires Count(samples, BucketBelow(i)) < r <= Count(samples, BucketBelow(i + 1))
    ensures BucketIndex(s) == i
  {
    if BucketIndex(s) > i {
      forall x: Uint64 | BucketIndex(x) <= i ensures x < s {
        if s <= x {
          BucketMonotone(s, x);
        }
      }
      CountImplies(samples, BucketBelow(i + 1), Under(s));
    } else if BucketIndex(s) < i {
      forall x: Uint64 | x <= s ensures BucketIndex(x) < i {
        BucketMonotone(x, s);
      }
      CountImplies(samples, AtMost(s), BucketBelow(i));
    }
  }

  function Ceiling(x: real): int {
    -(-x).Floor
  }

  /** Rank asked for by percentile `p` of `n` samples. */
  function TargetRank(p: real, n: nat): nat
    requires p >= 0.0
  {
    var t := Ceiling(p * n as real);
    if t < 1 then 1 else t
  }

  /**
   `s` is the sample that percentile `p` asks for: at least the share `p` of the samples is at most `s`
   and less than that share is below it; for `p` zero it is the smallest.
   */
  ghost predicate IsPercentile(samples: seq<Uint64>, p: real, s: Uint64) {
    && s in samples
    && p * |samples| as real <= Count(samples, AtMost(s)) as real
    && (if p == 0.0 then forall x :: x in samples ==> s <= x
        else Count(samples, Under(s)) as real < p * |samples| as real)
  }

  lemma CeilingSplits(x: real, c: int)
    ensures c < Ceiling(x) <==> c as real < x
    ensures Ceiling(x) <= c <==> x <= c as real
  {
  }

  lemma {:induction false} CountSome(samples: seq<Uint64>, p: Uint64 -> bool)
    ensures Count(samples, p) > 0 <==> exists x :: x in samples && p(x)
  {
    if samples != [] {
      var front, last := samples[..|samples| - 1], samples[|samples| - 1];
      CountSome(front, p);
      assert samples == front + [last];
      assert last in samples;
    }
  }

  lemma {:induction false} RankIsSample(samples: seq<Uint64>, r: nat, s: Uint64)
    requires IsRank(samples, r, s)
    ensures s in samples
  {
    if s !in samples {
      CountAlike(samples, AtMost(s), Under(s));
    }
  }

  lemma {:induction false} CountAlike(samples: seq<Uint64>, p: Uint64 -> bool, q: Uint64 -> bool)
    requires forall x :: x in samples ==> p(x) == q(x)
    ensures Count(samples, p) == Count(samples, q)
  {
    if samples != [] {
      assert samples[|samples| - 1] in samples;
      CountAlike(samples[..|samples| - 1], p, q);
    }
  }

  /** The rank of the percentile is the ceiling of its share, and one for the smallest sample. */
  lemma PercentileIsRank(samples: seq<Uint64>, p: real, s: Uint64)
    requires p >= 0.0 && samples != []
    ensures IsPercentile(samples, p, s) <==> IsRank(samples, TargetRank(p, |samples|), s)
  {
    var x := p * |samples| as real;
    CeilingSplits(x, Count(samples, Under(s)));
    CeilingSplits(x, Count(samples, AtMost(s)));
    CeilingSplits(x, 0);
    CountSome(samples, Under(s));
    CountSome(samples, AtMost(s));
    assert p == 0.0 <==> x == 0.0;
    if IsRank(samples, TargetRank(p, |samples|), s) {
      RankIsSample(samples, TargetRank(p, |samples|), s);
    }
  }

  /** Every rank up to the number of samples belongs to a sample. */
  lemma {:induction false} RankExists(samples: seq<Uint64>, r: nat, bound: Uint64) returns (s: Uint64)
    requires 1 <= r <= Count(samples, AtMost(bound))
    ensures IsRank(samples, r, s)
    decreases bound
  {
    if Count(samples, Under(bound)) < r {
      return bound;
    }
    CountSome(samples, Under(bound));
    CountAlike(samples, Under(bound), AtMost(bound - 1));
    s := RankExists(samples, r, bound - 1);
  }

  lemma PercentileExists(samples: seq<Uint64>, p: real, max: Uint64) returns (s: Uint64)
    requires samples != [] && 0.0 <= p <= 1.0 && forall x :: x in samples ==> x <= max
    ensures IsPercentile(samples, p, s)
  {
    var r := TargetRank(p, |samples|);
    forall i | 0 <= i < |samples| ensures AtMost(max)(samples[i]) {
      assert samples[i] in samples;
    }
    CountAll(samples, |samples|, AtMost(max));
    CeilingSplits(p * |samples| as real, |samples|);
    assert p * |samples| as real <= |samples| as real;
    s := RankExists(samples, r, max);
    PercentileIsRank(samples, p, s);
  }

  /** What a percentile query may answer for the sample `s` it was asked for. */
  ghost predicate Accurate(s: Uint64, answer: nat) {
    && (s < LIMIT ==> s <= answer && 64 * (answer - s) <= s)
    && (s >= LIMIT ==> answer == LIMIT - 1)
  }

  lemma LastUpperBound()
    ensures BucketUpperBound(BUCKETS - 1) == LIMIT - 1
  {
    LimitIsPowerOfTwo();
    ShlByOctave(27);
    ShlAdds(127, 1, 27);
  }

  lemma BucketAccurate(s: Uint64)
    ensures Accurate(s, BucketUpperBound(BucketIndex(s)))
  {
    if s < LIMIT {
      BucketError(s);
    } else {
      BucketInRange(s);
      LastUpperBound();
    }
  }

  class Histogram {
    const counts: array<nat>
    var totalCount: nat
    var max: Uint64
    /** Everything recorded so far, in order. */
    ghost var samples: seq<Uint64>

    ghost predicate Valid()
      reads this, counts
    {
      && counts.Length == BUCKETS
      && totalCount == |samples|
      && (forall x :: x in samples ==> x <= max)
      && (samples == [] ==> max == 0)
      && (samples != [] ==> max in samples)
      && forall i :: 0 <= i < BUCKETS ==> counts[i] == Count(samples, BucketIs(i))
    }

    constructor ()
      ensures Valid() && fresh(counts) && samples == []
    {
      counts := new nat[BUCKETS](i => 0);
      totalCount, max := 0, 0;
      samples := [];
    }

    method RecordNanos(nanos: Uint64)
      requires Valid()
      modifies this, counts
      ensures Valid() && samples == old(samples) + [nanos]
    {
      totalCount := totalCount + 1;
      max := if nanos > max then nanos else max;
      BucketInRange(nanos);
      counts[BucketIndex(nanos)] := counts[BucketIndex(nanos)] + 1;
      samples := samples + [nanos];
      assert samples[..|samples| - 1] == old(samples);
    }

    /** Walks the buckets up to the one where the cumulative count reaches `target`. */
    method AtRank(target: nat) returns (answer: nat)
      requires Valid() && target >= 1
      ensures target > |samples| ==> answer == max
      ensures forall s: Uint64 :: IsRank(samples, target, s)
                ==> answer == BucketUpperBound(BucketIndex(s)) && Accurate(s, answer)
    {
      var cumulative := 0;
      CountNone(samples, BucketBelow(0));
      for i := 0 to BUCKETS
        invariant cumulative == Count(samples, BucketBelow(i)) < target
      {
        CountSplit(samples, BucketBelow(i), BucketIs(i), BucketBelow(i + 1));
        cumulative := cumulative + counts[i];
        if cumulative >= target {
          CountImplies(samples, BucketBelow(i + 1), BucketBelow(i + 1));
          forall s: Uint64 | IsRank(samples, target, s)
            ensures BucketIndex(s) == i && Accurate(s, BucketUpperBound(i))
          {
            RankBucket(samples, target, s, i);
            BucketAccurate(s);
          }
          return BucketUpperBound(i);
        }
      }
      forall x: Uint64 ensures BucketIndex(x) < BUCKETS { BucketInRange(x); }
      CountAll(samples, |samples|, BucketBelow(BUCKETS));
      forall s: Uint64 ensures Count(samples, AtMost(s)) <= |samples| {
        CountImplies(samples, AtMost(s), AtMost(s));
      }
      answer := max;
    }

    /**
     Up to `p` one the answer is the upper bound of the bucket of the sample asked for: never below it and
     at most one part in 64 above it, exactly when that sample is below the limit. Beyond, it is the maximum.
     */
    method Percentile(p: real) returns (answer: nat)
      requires Valid() && p >= 0.0
      ensures samples == [] ==> answer == 0
      ensures samples != [] && p > 1.0 ==> answer == max
      ensures samples != [] && p <= 1.0 ==> exists s :: IsPercentile(samples, p, s)
      ensures forall s: Uint64 :: IsPercentile(samples, p, s)
                ==> answer == BucketUpperBound(BucketIndex(s)) && Accurate(s, answer)
    {
      hide IsPercentile, IsRank, Accurate, BucketUpperBound, BucketIndex, Count, TargetRank;
      if totalCount == 0 {
        NoPercentile(p);
        return 0;
      }
      PercentileCases(samples, p, max);
      answer := AtRank(TargetRank(p, totalCount));
    }
  }

  lemma NoPercentile(p: real)
    ensures forall s :: !IsPercentile([], p, s)
  {
  }

  lemma PercentileCases(samples: seq<Uint64>, p: real, max: Uint64)
    requires samples != [] && p >= 0.0 && forall x :: x in samples ==> x <= max
    ensures TargetRank(p, |samples|) >= 1 && (p > 1.0 ==> TargetRank(p, |samples|) > |samples|)
    ensures p <= 1.0 ==> exists s :: IsPercentile(samples, p, s)
    ensures forall s :: IsPercentile(samples, p, s) ==> IsRank(samples, TargetRank(p, |samples|), s)
  {
    hide IsPercentile, IsRank, Count;
    CeilingSplits(p * |samples| as real, |samples|);
    if p <= 1.0 {
      var _ := PercentileExists(samples, p, max);
    } else {
      assert p * |samples| as real > |samples| as real;
    }
    forall s ensures IsPercentile(samples, p, s) <==> IsRank(samples, TargetRank(p, |samples|), s) {
      PercentileIsRank(samples, p, s);
    }
  }
}
