/** Client order ids: their order in the store, and how new ones are made. */
module OrderIds {
  type Id = string

  /** The order of std::string. */
  predicate Less(a: Id, b: Id) {
    if a == "" then b != ""
    else if b == "" then false
    else if a[0] != b[0] then a[0] < b[0]
    else Less(a[1..], b[1..])
  }

  lemma {:induction false} LessTotal(a: Id, b: Id)
    ensures Less(a, b) || a == b || Less(b, a)
    ensures !(Less(a, b) && Less(b, a)) && !Less(a, a)
    decreases |a|
  {
    if a != "" {
      LessTotal(a[1..], a[1..]);
      if b != "" && a[0] == b[0] {
        LessTotal(a[1..], b[1..]);
        assert a == [a[0]] + a[1..] && b == [b[0]] + b[1..];
      }
    }
  }

  lemma {:induction false} LessTrans(a: Id, b: Id, c: Id)
    requires Less(a, b) && Less(b, c)
    ensures Less(a, c)
    decreases |a|
  {
    if a != "" && a[0] == b[0] && b[0] == c[0] {
      LessTrans(a[1..], b[1..], c[1..]);
    }
  }

  function Digit(d: nat): char
    requires d < 10
  {
    ['0', '1', '2', '3', '4', '5', '6', '7', '8', '9'][d]
  }

  /** std::to_string. */
  function ToString(n: nat): (r: Id)
    ensures |r| > 0 && (n >= 10 ==> |r| > 1)
  {
    if n < 10 then [Digit(n)] else ToString(n / 10) + [Digit(n % 10)]
  }

  /** The number that decimal digits stand for, the most significant first. */
  function Value(s: string): int {
    if s == "" then 0 else 10 * Value(s[..|s| - 1]) + (s[|s| - 1] as int - '0' as int)
  }

  lemma DigitValue(d: nat)
    requires d < 10
    ensures Digit(d) as int - '0' as int == d
  {
  }

  /** The text is the number in decimal, without leading zeros. */
  lemma {:induction false} ToStringIsDecimal(n: nat)
    ensures Value(ToString(n)) == n && (n > 0 ==> ToString(n)[0] != '0')
  {
    var s := ToString(n);
    DigitValue(n % 10);
    if n < 10 {
      assert s[..0] == "";
    } else {
      ToStringIsDecimal(n / 10);
      assert s[..|s| - 1] == ToString(n / 10);
    }
  }

  lemma ToStringInjective(m: nat, n: nat)
    ensures ToString(m) == ToString(n) ==> m == n
  {
    ToStringIsDecimal(m);
    ToStringIsDecimal(n);
  }

  /** GenerateId on its static counter, with the wall clock in milliseconds. */
  function NextId(last: nat, nowMs: int): (next: nat)
    ensures next > last && next >= nowMs && (next == last + 1 || next == nowMs)
  {
    if nowMs > last + 1 then nowMs else last + 1
  }

  /** No id generated after `last` will be this one. */
  ghost predicate NotFuture(id: Id, last: nat) {
    forall n: nat :: n > last ==> ToString(n) != id
  }

  /** A generated id differs from every id seen before it, and is not generated again. */
  lemma GeneratedIsFresh(last: nat, nowMs: int)
    ensures NotFuture(ToString(NextId(last, nowMs)), NextId(last, nowMs))
    ensures forall id :: NotFuture(id, last) ==> id != ToString(NextId(last, nowMs)) && NotFuture(id, NextId(last, nowMs))
  {
    var next := NextId(last, nowMs);
    forall n: nat | n > next ensures ToString(n) != ToString(next) {
      ToStringInjective(n, next);
    }
  }
}
