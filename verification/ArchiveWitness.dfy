// One encoding of the messages that is read back and keeps them short, for every archive of reasonable names.
module ArchiveWitness {
  import opened ByteStrings
  import opened Numerals
  import opened Options
  import opened ArchiveProtocol
  import B = Bencode

  const MAX_PATH: nat := 10_000
  const BIG: nat := 0x8000_0000_0000_0000

  // ---------- the encoding: bencoding, spelled in letters ----------

  function Strings(path: seq<Bytes>): seq<B.Value> {
    seq(|path|, i requires 0 <= i < |path| => B.Str(path[i]))
  }

  function ToValue(m: Message): B.Value {
    match m
    case MemberMessage(member) => B.List([B.List(Strings(member.path)), B.Str(member.file), B.Int(member.size)])
    case Done(entries, expanded, scanned) => B.List([B.Int(entries), B.Int(expanded), B.Int(scanned)])
  }

  const LETTER: Byte := 65

  function Half(s: Bytes, i: nat): Byte
    requires i < 2 * |s|
  {
    LETTER + if i % 2 == 0 then s[i / 2] / 16 else s[i / 2] % 16
  }

  function Spelled(s: Bytes): (r: Bytes)
    ensures |r| == 2 * |s| && forall i :: 0 <= i < 2 * |s| ==> r[i] == Half(s, i)
  {
    seq(2 * |s|, i requires 0 <= i < 2 * |s| => Half(s, i))
  }

  function EncodeMessage(m: Message): Bytes { Spelled(B.Encode(ToValue(m))) }

  // ---------- it is read back ----------

  lemma SpelledIsInjective(s: Bytes, t: Bytes)
    requires Spelled(s) == Spelled(t)
    ensures s == t
  {
    assert |s| == |t|;
    forall k | 0 <= k < |s|
      ensures s[k] == t[k]
    {
      assert Spelled(s)[2 * k] == Half(s, 2 * k) && Spelled(t)[2 * k] == Half(t, 2 * k);
      assert Spelled(s)[2 * k + 1] == Half(s, 2 * k + 1) && Spelled(t)[2 * k + 1] == Half(t, 2 * k + 1);
    }
  }

  lemma SpelledHasNoNewline(s: Bytes)
    ensures NEWLINE !in Spelled(s)
  {
    forall i | 0 <= i < 2 * |s|
      ensures Spelled(s)[i] != NEWLINE
    {
      assert Spelled(s)[i] == Half(s, i);
    }
  }

  lemma ToValueIsInjective(m: Message, n: Message)
    requires ToValue(m) == ToValue(n)
    ensures m == n
  {
    assert ToValue(m).items[0] == ToValue(n).items[0];
    assert ToValue(m).items[1] == ToValue(n).items[1];
    assert ToValue(m).items[2] == ToValue(n).items[2];
    if m.MemberMessage? {
      var p, q := m.member.path, n.member.path;
      assert |Strings(p)| == |p| && |Strings(q)| == |q|;
      forall i | 0 <= i < |p|
        ensures p[i] == q[i]
      {
        assert Strings(p)[i] == B.Str(p[i]) && Strings(q)[i] == B.Str(q[i]);
      }
    }
  }

  lemma EncodeMessageIsInjective(m: Message, n: Message)
    requires EncodeMessage(m) == EncodeMessage(n)
    ensures m == n
  {
    hide B.Encode, Spelled, ToValue;
    SpelledIsInjective(B.Encode(ToValue(m)), B.Encode(ToValue(n)));
    B.EncodingIsInjective(ToValue(m), ToValue(n));
    ToValueIsInjective(m, n);
  }

  ghost function DecodeMessage(s: Bytes): Option<Message> {
    if exists m :: EncodeMessage(m) == s then
      var m :| EncodeMessage(m) == s;
      Some(m)
    else None
  }

  lemma DecodeOfEncode(m: Message)
    ensures DecodeMessage(EncodeMessage(m)) == Some(m)
  {
    hide EncodeMessage;
    var s := EncodeMessage(m);
    assert exists n :: EncodeMessage(n) == s;
    var n := DecodeMessage(s).value;
    EncodeMessageIsInjective(m, n);
  }

  // ---------- it is short ----------

  lemma StrLength(s: Bytes)
    requires |s| < 100_000
    ensures |B.Encode(B.Str(s))| <= |s| + 6
  {
    DigitsLength(|s|, 5);
    assert Pow10(5) == 100_000;
  }

  lemma IntLength(n: nat)
    requires n < BIG
    ensures |B.Encode(B.Int(n))| <= 22
  {
    Int64Length(n);
  }

  // The bytes of a path, with room for the length of each part.
  function Room(path: seq<Bytes>): nat {
    if path == [] then 0 else |path[0]| + 6 + Room(path[1..])
  }

  lemma {:induction false} PathLength(path: seq<Bytes>)
    requires Room(path) <= MAX_PATH
    ensures |B.EncodeAll(Strings(path))| <= Room(path)
  {
    if path != [] {
      assert Strings(path)[0] == B.Str(path[0]) && Strings(path)[1..] == Strings(path[1..]);
      StrLength(path[0]);
      PathLength(path[1..]);
    }
  }

  lemma FileNameLength(n: nat, suffix: Bytes)
    requires n < BIG
    ensures |FileName(n, suffix)| <= 38
  {
    hide IsSuffix;
    KeptLength(suffix);
    DigitsLength(n, 19);
    PowersOfTen();
  }

  lemma KeptLength(suffix: Bytes)
    ensures |Kept(suffix)| <= 11
  {}

  lemma ListOfThree(a: B.Value, b: B.Value, c: B.Value)
    ensures |B.Encode(B.List([a, b, c]))| == |B.Encode(a)| + |B.Encode(b)| + |B.Encode(c)| + 2
  {
    var items := [a, b, c];
    assert items[1..] == [b, c] && [b, c][1..] == [c] && [c][1..] == [];
    assert B.EncodeAll([c]) == B.Encode(c) + B.EncodeAll([]);
    assert B.EncodeAll([b, c]) == B.Encode(b) + B.EncodeAll([c]);
    assert B.EncodeAll(items) == B.Encode(a) + B.EncodeAll([b, c]);
  }

  lemma MemberIsShort(path: seq<Bytes>, n: nat, suffix: Bytes, size: nat)
    requires Room(path) <= MAX_PATH && n < BIG && size < BIG
    ensures FitsPipe(MemberMessage(Member(path, FileName(n, suffix), size)), EncodeMessage)
  {
    hide B.Encode, FileName, Strings, Spelled;
    var file := FileName(n, suffix);
    PathLength(path);
    ListLength(Strings(path));
    FileNameLength(n, suffix);
    StrLength(file);
    IntLength(size);
    ListOfThree(B.List(Strings(path)), B.Str(file), B.Int(size));
  }

  lemma ListLength(items: seq<B.Value>)
    ensures |B.Encode(B.List(items))| == |B.EncodeAll(items)| + 2
  {}

  lemma EndIsShort(entries: nat, expanded: nat, scanned: nat)
    requires entries < BIG && expanded < BIG && scanned < BIG
    ensures FitsPipe(Done(entries, expanded, scanned), EncodeMessage)
  {
    hide B.Encode, Spelled;
    IntLength(entries);
    IntLength(expanded);
    IntLength(scanned);
    ListOfThree(B.Int(entries), B.Int(expanded), B.Int(scanned));
  }

  // ---------- so what the archive scan asks of an encoding can be had ----------

  predicate Reasonable(leaf: Leaf) { Room(leaf.path) <= MAX_PATH && leaf.size < BIG }

  lemma FaithfulAndShort(leaves: seq<Leaf>, limits: Limits)
    returns (encode: Message -> Bytes, decode: Bytes -> Option<Message>, cut: Bytes -> seq<Bytes>)
    requires forall leaf <- leaves :: Reasonable(leaf)
    requires limits.files < BIG && limits.expandedBytes < BIG
    ensures Faithful(encode, decode, cut) && Short(leaves, encode, limits) && ShortEnd(encode, limits)
  {
    hide EncodeMessage, DecodeMessage, FitsPipe, FileName, Joined;
    encode, decode, cut := EncodeMessage, s => DecodeMessage(s), s => [s];
    forall m
      ensures NEWLINE !in encode(m) && decode(encode(m)) == Some(m)
    {
      NoNewline(m);
      DecodeOfEncode(m);
    }
    forall s
      ensures Joined(cut(s)) == s
    {
      JoinedOne(s);
    }
    forall leaf, n: nat, s | leaf in leaves && n <= limits.files
      ensures FitsPipe(MemberMessage(Member(leaf.path, FileName(n, s), leaf.size)), encode)
    {
      MemberIsShort(leaf.path, n, s, leaf.size);
    }
    forall e: nat, x: nat, k: nat | e <= limits.files && x <= limits.expandedBytes && k <= limits.files
      ensures FitsPipe(Done(e, x, k), encode)
    {
      EndIsShort(e, x, k);
    }
  }

  lemma NoNewline(m: Message)
    ensures NEWLINE !in EncodeMessage(m)
  {
    hide Spelled;
    SpelledHasNoNewline(B.Encode(ToValue(m)));
  }
}
