// Byte strings, and what stands where in one.
module ByteStrings {

  type Byte = x: int | 0 <= x < 256

  type Bytes = seq<Byte>

  // `s` stands in the data at `start`.
  predicate Holds(data: Bytes, start: nat, s: Bytes) {
    start + |s| <= |data| && data[start..start + |s|] == s
  }

  lemma HoldsConcat(data: Bytes, start: nat, a: Bytes, b: Bytes)
    ensures Holds(data, start, a + b) <==> Holds(data, start, a) && Holds(data, start + |a|, b)
  {
    if start + |a| + |b| <= |data| {
      var s := data[start..start + |a| + |b|];
      assert s[..|a|] == data[start..start + |a|] && s[|a|..] == data[start + |a|..start + |a| + |b|];
      assert (a + b)[..|a|] == a && (a + b)[|a|..] == b;
      assert s == s[..|a|] + s[|a|..];
    }
  }
}
