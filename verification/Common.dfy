/** Shared vocabulary. */
module Common {
  datatype Option<T> = None | Some(value: T)

  function Min(a: nat, b: nat): nat {
    if a < b then a else b
  }

  /** `part` stands in `data` at `offset`. */
  ghost predicate At<T>(data: seq<T>, offset: nat, part: seq<T>) {
    offset + |part| <= |data| && data[offset..offset + |part|] == part
  }

  lemma AtSplit<T>(data: seq<T>, offset: nat, a: seq<T>, b: seq<T>)
    ensures At(data, offset, a + b) <==> At(data, offset, a) && At(data, offset + |a|, b)
  {
    if offset + |a| + |b| <= |data| {
      var whole := data[offset..offset + |a| + |b|];
      assert whole == data[offset..offset + |a|] + data[offset + |a|..offset + |a| + |b|];
      if whole == a + b {
        assert whole[..|a|] == a && whole[|a|..] == b;
      }
    }
  }
}
