// The strict metainfo decoder: bencoded values and their one canonical encoding.
module Bencode {
  import opened ByteStrings
  import opened Options
  import opened Numerals

  datatype Pair = Pair(key: Bytes, value: Value)

  datatype Value = Int(n: int) | Str(s: Bytes) | List(items: seq<Value>) | Dict(pairs: seq<Pair>)

  datatype Malformed = Malformed

  const MAX_NODES: nat := 300_000
  const MAX_DEPTH: nat := 64
  const MAX_STRING: nat := 100_000_000_000

  const DICT: Byte := 100
  const END: Byte := 101
  const INT: Byte := 105
  const LIST: Byte := 108

  // ---------- the canonical encoding ----------

  function EncodeStr(s: Bytes): Bytes { Digits(|s|) + [COLON] + s }

  function Encode(v: Value): Bytes
    decreases v
  {
    match v
    case Int(n) => [INT] + Decimal(n) + [END]
    case Str(s) => EncodeStr(s)
    case List(items) => [LIST] + EncodeAll(items) + [END]
    case Dict(pairs) => [DICT] + EncodePairs(pairs) + [END]
  }

  function EncodeAll(items: seq<Value>): Bytes
    decreases items
  {
    if items == [] then [] else Encode(items[0]) + EncodeAll(items[1..])
  }

  function EncodePair(p: Pair): Bytes
    decreases p
  {
    EncodeStr(p.key) + Encode(p.value)
  }

  function EncodePairs(pairs: seq<Pair>): Bytes
    decreases pairs
  {
    if pairs == [] then [] else EncodePair(pairs[0]) + EncodePairs(pairs[1..])
  }

  // Entries counted against the node limit; every dictionary key is one.
  function Nodes(v: Value): nat
    decreases v
  {
    match v
    case Int(_) => 1
    case Str(_) => 1
    case List(items) => 1 + NodesOfAll(items)
    case Dict(pairs) => 1 + NodesOfPairs(pairs)
  }

  function NodesOfAll(items: seq<Value>): nat
    decreases items
  {
    if items == [] then 0 else Nodes(items[0]) + NodesOfAll(items[1..])
  }

  function NodesOfPair(p: Pair): nat
    decreases p
  {
    1 + Nodes(p.value)
  }

  function NodesOfPairs(pairs: seq<Pair>): nat
    decreases pairs
  {
    if pairs == [] then 0 else NodesOfPair(pairs[0]) + NodesOfPairs(pairs[1..])
  }

  // Python's order on byte strings.
  predicate Less(a: Bytes, b: Bytes) {
    b != [] && (a == [] || a[0] < b[0] || (a[0] == b[0] && Less(a[1..], b[1..])))
  }

  predicate Ordered(pairs: seq<Pair>) {
    forall i, j :: 0 <= i < j < |pairs| ==> Less(pairs[i].key, pairs[j].key)
  }

  // Values within the decoder's limits, when met at the given depth.
  predicate Fits(v: Value, depth: nat)
    decreases v
  {
    depth <= MAX_DEPTH &&
    match v
    case Int(n) => -0x8000_0000_0000_0000 <= n < 0x8000_0000_0000_0000
    case Str(s) => |s| < MAX_STRING
    case List(items) => forall i :: 0 <= i < |items| ==> Fits(items[i], depth + 1)
    case Dict(pairs) => Ordered(pairs) && forall i :: 0 <= i < |pairs| ==> FitsPair(pairs[i], depth + 1)
  }

  predicate FitsPair(p: Pair, depth: nat)
    decreases p
  {
    depth <= MAX_DEPTH && |p.key| < MAX_STRING && Fits(p.value, depth)
  }

  // The value whose encoding starts at `start`, met after `nodes` earlier entries.
  predicate Reads(v: Value, data: Bytes, start: nat, depth: nat, nodes: nat) {
    Holds(data, start, Encode(v)) && Fits(v, depth) && nodes + Nodes(v) <= MAX_NODES
  }

  function Get(pairs: seq<Pair>, key: Bytes): Option<Value> {
    if pairs == [] then None
    else if pairs[0].key == key then Some(pairs[0].value)
    else Get(pairs[1..], key)
  }

  // ---------- unique decoding ----------

  lemma Regroup(a: Bytes, b: Bytes, c: Bytes, d: Bytes, e: Bytes)
    ensures (((a + b) + c) + d) + e == a + (b + (c + d + e))
  {}

  lemma DropFirst(first: Byte, body: Bytes, x: Bytes)
    ensures (([first] + body + [END]) + x)[1..] == body + [END] + x
  {}

  // A marker that cannot occur inside ends a numeral at one place only.
  lemma SamePrefix(a: Bytes, b: Bytes, marker: Byte, x: Bytes, y: Bytes)
    requires marker !in a && marker !in b
    requires a + [marker] + x == b + [marker] + y
    ensures a == b && x == y
  {
    var s, t := a + [marker] + x, b + [marker] + y;
    assert forall i :: 0 <= i < |a| ==> s[i] == a[i];
    assert forall i :: 0 <= i < |b| ==> t[i] == b[i];
    assert s[|a|] == marker && t[|b|] == marker;
    assert s[..|a|] == a && t[..|b|] == b;
    assert s[|a| + 1..] == x && t[|b| + 1..] == y;
  }

  lemma SameStr(a: Bytes, b: Bytes, x: Bytes, y: Bytes)
    requires EncodeStr(a) + x == EncodeStr(b) + y
    ensures a == b && x == y
  {
    assert EncodeStr(a) + x == Digits(|a|) + [COLON] + (a + x);
    assert EncodeStr(b) + y == Digits(|b|) + [COLON] + (b + y);
    SamePrefix(Digits(|a|), Digits(|b|), COLON, a + x, b + y);
    NumberOfDigits(|a|);
    NumberOfDigits(|b|);
    assert (a + x)[..|a|] == a && (b + y)[..|b|] == b;
    assert (a + x)[|a|..] == x && (b + y)[|b|..] == y;
  }

  lemma FirstByte(v: Value)
    ensures Encode(v) != [] && Encode(v)[0] != END
    ensures v.Int? <==> Encode(v)[0] == INT
    ensures v.List? <==> Encode(v)[0] == LIST
    ensures v.Dict? <==> Encode(v)[0] == DICT
    ensures v.Str? <==> IsDigit(Encode(v)[0])
  {
    if v.Str? { assert Encode(v)[0] == Digits(|v.s|)[0]; }
  }

  lemma {:induction false} Unique(v: Value, w: Value, x: Bytes, y: Bytes)
    requires Encode(v) + x == Encode(w) + y
    ensures v == w && x == y
    decreases v
  {
    FirstByte(v);
    FirstByte(w);
    var s, t := Encode(v) + x, Encode(w) + y;
    assert s[0] == Encode(v)[0] && t[0] == Encode(w)[0];
    match v {
      case Int(n) =>
        DropFirst(INT, Decimal(n), x);
        DropFirst(INT, Decimal(w.n), y);
        SamePrefix(Decimal(n), Decimal(w.n), END, x, y);
        DecimalIsInjective(n, w.n);
      case Str(b) => SameStr(b, w.s, x, y);
      case List(items) =>
        DropFirst(LIST, EncodeAll(items), x);
        DropFirst(LIST, EncodeAll(w.items), y);
        UniqueItems(items, w.items, x, y);
      case Dict(pairs) =>
        DropFirst(DICT, EncodePairs(pairs), x);
        DropFirst(DICT, EncodePairs(w.pairs), y);
        UniquePairs(pairs, w.pairs, x, y);
    }
  }

  lemma {:induction false} UniqueItems(a: seq<Value>, b: seq<Value>, x: Bytes, y: Bytes)
    requires EncodeAll(a) + [END] + x == EncodeAll(b) + [END] + y
    ensures a == b && x == y
    decreases a
  {
    var s, t := EncodeAll(a) + [END] + x, EncodeAll(b) + [END] + y;
    ItemsStart(a, x);
    ItemsStart(b, y);
    if a == [] || b == [] {
      assert s[1..] == x && t[1..] == y;
    } else {
      Unique(a[0], b[0], EncodeAll(a[1..]) + [END] + x, EncodeAll(b[1..]) + [END] + y);
      UniqueItems(a[1..], b[1..], x, y);
      assert a == [a[0]] + a[1..] && b == [b[0]] + b[1..];
    }
  }

  // A list continues exactly when the next byte is not the end marker.
  lemma ItemsStart(a: seq<Value>, x: Bytes)
    ensures var s := EncodeAll(a) + [END] + x;
            (a == [] <==> s[0] == END) && (a == [] ==> s == [END] + x)
            && (a != [] ==> s == Encode(a[0]) + (EncodeAll(a[1..]) + [END] + x))
  {
    hide Encode;
    if a != [] {
      FirstByte(a[0]);
      var first, rest := Encode(a[0]), EncodeAll(a[1..]);
      assert EncodeAll(a) == first + rest;
      Regrouped(first, rest, x);
      assert (first + (rest + [END] + x))[0] == first[0];
    }
  }

  lemma Regrouped(a: Bytes, b: Bytes, x: Bytes)
    ensures a + b + [END] + x == a + (b + [END] + x)
  {}

  lemma {:induction false} UniquePairs(a: seq<Pair>, b: seq<Pair>, x: Bytes, y: Bytes)
    requires EncodePairs(a) + [END] + x == EncodePairs(b) + [END] + y
    ensures a == b && x == y
    decreases a
  {
    var s, t := EncodePairs(a) + [END] + x, EncodePairs(b) + [END] + y;
    PairsStart(a, x);
    PairsStart(b, y);
    if a == [] || b == [] {
      assert s[1..] == x && t[1..] == y;
    } else {
      var p, q := EncodePairs(a[1..]) + [END] + x, EncodePairs(b[1..]) + [END] + y;
      SameStr(a[0].key, b[0].key, Encode(a[0].value) + p, Encode(b[0].value) + q);
      Unique(a[0].value, b[0].value, p, q);
      UniquePairs(a[1..], b[1..], x, y);
      assert a == [a[0]] + a[1..] && b == [b[0]] + b[1..];
    }
  }

  lemma PairsStart(a: seq<Pair>, x: Bytes)
    ensures var s := EncodePairs(a) + [END] + x;
            (a == [] <==> s[0] == END) && (a == [] ==> s == [END] + x)
            && (a != [] ==> s == EncodeStr(a[0].key) + (Encode(a[0].value) + (EncodePairs(a[1..]) + [END] + x)))
  {
    if a != [] {
      var s := EncodePairs(a) + [END] + x;
      Regroup(EncodeStr(a[0].key), Encode(a[0].value), EncodePairs(a[1..]), [END], x);
      assert s[0] == EncodeStr(a[0].key)[0] == Digits(|a[0].key|)[0];
    }
  }

  lemma ReadsOneValue(v: Value, w: Value, data: Bytes, start: nat)
    requires Holds(data, start, Encode(v)) && Holds(data, start, Encode(w))
    ensures v == w
  {
    var s := data[start..];
    assert s[..|Encode(v)|] == Encode(v) && s[..|Encode(w)|] == Encode(w);
    assert s == s[..|Encode(v)|] + s[|Encode(v)|..] && s == s[..|Encode(w)|] + s[|Encode(w)|..];
    Unique(v, w, s[|Encode(v)|..], s[|Encode(w)|..]);
  }

  lemma {:induction false} EncodeAllSplit(a: seq<Value>, b: seq<Value>)
    ensures EncodeAll(a + b) == EncodeAll(a) + EncodeAll(b)
    ensures NodesOfAll(a + b) == NodesOfAll(a) + NodesOfAll(b)
  {
    if a == [] {
      assert a + b == b;
    } else {
      assert (a + b)[1..] == a[1..] + b;
      EncodeAllSplit(a[1..], b);
    }
  }

  lemma {:induction false} EncodePairsSplit(a: seq<Pair>, b: seq<Pair>)
    ensures EncodePairs(a + b) == EncodePairs(a) + EncodePairs(b)
    ensures NodesOfPairs(a + b) == NodesOfPairs(a) + NodesOfPairs(b)
  {
    if a == [] {
      assert a + b == b;
    } else {
      assert (a + b)[1..] == a[1..] + b;
      EncodePairsSplit(a[1..], b);
    }
  }

  lemma {:induction false} GetSplit(a: seq<Pair>, b: seq<Pair>, key: Bytes)
    ensures Get(a + b, key) == if Get(a, key).Some? then Get(a, key) else Get(b, key)
  {
    if a == [] {
      assert a + b == b;
    } else {
      assert (a + b)[1..] == a[1..] + b;
      GetSplit(a[1..], b, key);
    }
  }

  lemma {:induction false} LessIsTransitive(a: Bytes, b: Bytes, c: Bytes)
    requires Less(a, b) && Less(b, c)
    ensures Less(a, c)
  {
    if a != [] && a[0] == b[0] && b[0] == c[0] { LessIsTransitive(a[1..], b[1..], c[1..]); }
  }

  lemma {:induction false} LessIsStrict(a: Bytes)
    ensures !Less(a, a)
  {
    if a != [] { LessIsStrict(a[1..]); }
  }

  // An earlier key is not found again later.
  lemma {:induction false} GetFresh(pairs: seq<Pair>, key: Bytes)
    requires forall i :: 0 <= i < |pairs| ==> Less(pairs[i].key, key)
    ensures Get(pairs, key).None?
  {
    if pairs != [] {
      LessIsStrict(key);
      assert Less(pairs[0].key, key);
      GetFresh(pairs[1..], key);
    }
  }

  lemma HoldsWrapped(data: Bytes, start: nat, first: Byte, a: Bytes, b: Bytes)
    requires Holds(data, start, [first] + (a + b) + [END])
    ensures Holds(data, start + 1 + |a|, b) && Holds(data, start + 1 + |a| + |b|, [END])
  {
    HoldsConcat(data, start, [first] + (a + b), [END]);
    HoldsConcat(data, start, [first], a + b);
    HoldsConcat(data, start + 1, a, b);
  }

  // Where a reader stands after `k` items of a list it is inside.
  lemma ListCursor(data: Bytes, start: nat, all: seq<Value>, k: nat, at: nat)
    requires Holds(data, start, Encode(List(all)))
    requires k <= |all| && at == start + 1 + |EncodeAll(all[..k])|
    ensures at < |data| && (data[at] == END <==> k == |all|)
    ensures k < |all| ==> Holds(data, at, Encode(all[k]))
    ensures NodesOfAll(all) == NodesOfAll(all[..k]) + NodesOfAll(all[k..])
  {
    assert all == all[..k] + all[k..];
    EncodeAllSplit(all[..k], all[k..]);
    HoldsWrapped(data, start, LIST, EncodeAll(all[..k]), EncodeAll(all[k..]));
    if k < |all| {
      HoldsConcat(data, at, Encode(all[k]), EncodeAll(all[k..][1..]));
      FirstByte(all[k]);
      assert data[at..at + |Encode(all[k])|][0] == data[at];
    } else {
      assert data[at..at + 1][0] == data[at];
    }
  }

  lemma DictCursor(data: Bytes, start: nat, all: seq<Pair>, k: nat, at: nat)
    requires Holds(data, start, Encode(Dict(all)))
    requires k <= |all| && at == start + 1 + |EncodePairs(all[..k])|
    ensures at < |data| && (data[at] == END <==> k == |all|)
    ensures k < |all| ==> Holds(data, at, Encode(Str(all[k].key)))
                          && Holds(data, at + |Encode(Str(all[k].key))|, Encode(all[k].value))
    ensures NodesOfPairs(all) == NodesOfPairs(all[..k]) + NodesOfPairs(all[k..])
  {
    assert all == all[..k] + all[k..];
    EncodePairsSplit(all[..k], all[k..]);
    HoldsWrapped(data, start, DICT, EncodePairs(all[..k]), EncodePairs(all[k..]));
    if k < |all| {
      var p := all[k];
      HoldsConcat(data, at, EncodePair(p), EncodePairs(all[k..][1..]));
      HoldsConcat(data, at, EncodeStr(p.key), Encode(p.value));
      FirstByte(Str(p.key));
      assert data[at..at + |EncodeStr(p.key)|][0] == data[at];
    } else {
      assert data[at..at + 1][0] == data[at];
    }
  }

  const INFO: Bytes := [105, 110, 102, 111]

  // The bytes kept for the identity hash once a value has been read.
  function InfoBytes(v: Value, depth: nat, before: Bytes): Bytes {
    if depth == 0 && v.Dict? && Get(v.pairs, INFO).Some? then Encode(Get(v.pairs, INFO).value) else before
  }

  // ---------- the decoder ----------

  method Find(data: Bytes, c: Byte, lo: nat, hi: nat) returns (at: Option<nat>)
    requires lo <= |data| && lo <= hi
    ensures at.Some? ==> lo <= at.value < hi && at.value < |data| && data[at.value] == c
                         && forall i :: lo <= i < at.value ==> data[i] != c
    ensures at.None? ==> forall i :: lo <= i < hi && i < |data| ==> data[i] != c
  {
    var n := lo;
    while n < hi && n < |data|
      invariant lo <= n <= |data|
      invariant forall i :: lo <= i < n ==> data[i] != c
    {
      if data[n] == c { return Some(n); }
      n := n + 1;
    }
    return None;
  }

  predicate IsInt64(n: int) { -0x8000_0000_0000_0000 <= n < 0x8000_0000_0000_0000 }

  // int(raw) where raw without its leading minus signs is a string of digits.
  function ParseInt(raw: Bytes): Option<int> {
    if raw != [] && raw[0] == MINUS then
      if |raw| > 1 && AllDigits(raw[1..]) then
        var n: int := Number(raw[1..]);
        Some(-n)
      else None
    else if raw != [] && AllDigits(raw) then Some(Number(raw))
    else None
  }

  lemma ParseIntOfDecimal(n: int)
    ensures ParseInt(Decimal(n)) == Some(n) && END !in Decimal(n)
  {
    DecimalStart(n);
    NumberOfDigits(if n < 0 then -n else n);
    if n < 0 { assert Decimal(n)[1..] == Digits(-n); }
  }

  // Where a marker is found when a body without it stands before it.
  lemma FirstMarker(data: Bytes, start: nat, body: Bytes, marker: Byte)
    requires Holds(data, start, body + [marker]) && marker !in body
    ensures start + |body| < |data| && data[start + |body|] == marker && data[start..start + |body|] == body
    ensures forall i :: start <= i < start + |body| ==> data[i] != marker
  {
    HoldsConcat(data, start, body, [marker]);
    assert forall i :: start <= i < start + |body| ==> data[i] == data[start..start + |body|][i - start];
    var n := start + |body|;
    assert data[n..n + 1][0] == data[n];
  }

  // The part of the data an integer leaves between its markers.
  lemma IntWindow(data: Bytes, start: nat, n: int)
    requires Holds(data, start, Encode(Int(n))) && IsInt64(n)
    ensures var end := start + 1 + |Decimal(n)|;
            end < start + 22 && end < |data| && data[end] == END && data[start + 1..end] == Decimal(n)
            && forall i :: start + 1 <= i < end ==> data[i] != END
  {
    Int64Length(n);
    ParseIntOfDecimal(n);
    assert Encode(Int(n)) == [INT] + (Decimal(n) + [END]);
    HoldsConcat(data, start, [INT], Decimal(n) + [END]);
    FirstMarker(data, start + 1, Decimal(n), END);
  }

  lemma StrWindow(data: Bytes, start: nat, s: Bytes)
    requires Holds(data, start, EncodeStr(s)) && |s| < MAX_STRING
    ensures var end := start + |Digits(|s|)|;
            end < start + 12 && end + 1 + |s| <= |data| && data[end] == COLON && data[start..end] == Digits(|s|)
            && forall i :: start <= i < end ==> data[i] != COLON
  {
    DigitsLength(|s|, 11);
    PowersOfTen();
    HoldsConcat(data, start, Digits(|s|) + [COLON], s);
    FirstMarker(data, start, Digits(|s|), COLON);
  }

  lemma IntIsHeld(data: Bytes, start: nat, n: int, end: nat)
    requires start < end < |data| && data[start] == INT && data[start + 1..end] == Decimal(n) && data[end] == END
    ensures Holds(data, start, Encode(Int(n))) && end + 1 == start + |Encode(Int(n))|
  {
    assert data[start..end + 1] == [data[start]] + data[start + 1..end] + [data[end]];
  }

  lemma EncodeOfStr(s: Bytes)
    ensures Encode(Str(s)) == EncodeStr(s)
  {}

  lemma StrIsHeld(data: Bytes, start: nat, end: nat, length: nat)
    requires start < end < |data| && end <= start + 11 && end + 1 + length <= |data| && data[end] == COLON
    requires var raw := data[start..end];
             AllDigits(raw) && (|raw| > 1 ==> raw[0] != ZERO) && length == Number(raw)
    ensures var s := data[end + 1..end + 1 + length];
            length < MAX_STRING && Holds(data, start, Encode(Str(s))) && end + 1 + length == start + |Encode(Str(s))|
  {
    hide Digits, Number, AllDigits, EncodeStr;
    var raw, s := data[start..end], data[end + 1..end + 1 + length];
    NumeralOfLength(raw);
    assert data[end..end + 1] == [COLON];
    HoldsConcat(data, start, raw, [COLON]);
    HoldsConcat(data, start, raw + [COLON], s);
    EncodeOfStr(s);
    StrParts(s);
  }

  lemma StrParts(s: Bytes)
    ensures EncodeStr(s) == Digits(|s|) + [COLON] + s
  {}

  // At most eleven digits name a length below the limit, and are the ones printed for it.
  lemma NumeralOfLength(raw: Bytes)
    requires 0 < |raw| <= 11 && AllDigits(raw) && (|raw| > 1 ==> raw[0] != ZERO)
    ensures Number(raw) < MAX_STRING && Digits(Number(raw)) == raw
  {
    DigitsOfNumber(raw);
    DigitsLength(Number(raw), 11);
    PowersOfTen();
  }

  // ---------- a list or dictionary read so far ----------

  // What a reader knows of a list it has read `items` of, up to `at`.
  ghost predicate ListSoFar(data: Bytes, start: nat, at: nat, items: seq<Value>, depth: nat) {
    at == start + 1 + |EncodeAll(items)| && Holds(data, start, [LIST] + EncodeAll(items))
    && forall i :: 0 <= i < |items| ==> Fits(items[i], depth + 1)
  }

  lemma EncodeAllSnoc(items: seq<Value>, item: Value)
    ensures EncodeAll(items + [item]) == EncodeAll(items) + Encode(item)
    ensures NodesOfAll(items + [item]) == NodesOfAll(items) + Nodes(item)
  {
    EncodeAllSplit(items, [item]);
    assert EncodeAll([item]) == Encode(item) + EncodeAll([]);
    assert NodesOfAll([item]) == Nodes(item) + NodesOfAll([]);
  }

  lemma EncodePairsSnoc(pairs: seq<Pair>, p: Pair)
    ensures EncodePairs(pairs + [p]) == EncodePairs(pairs) + EncodePair(p)
    ensures NodesOfPairs(pairs + [p]) == NodesOfPairs(pairs) + NodesOfPair(p)
  {
    EncodePairsSplit(pairs, [p]);
    assert EncodePairs([p]) == EncodePair(p) + EncodePairs([]);
    assert NodesOfPairs([p]) == NodesOfPair(p) + NodesOfPairs([]);
  }

  lemma HoldsMore(data: Bytes, start: nat, first: Byte, body: Bytes, more: Bytes)
    requires Holds(data, start, [first] + body) && Holds(data, start + 1 + |body|, more)
    ensures Holds(data, start, [first] + (body + more))
  {
    HoldsConcat(data, start, [first] + body, more);
    assert [first] + (body + more) == ([first] + body) + more;
  }

  lemma ListGrows(data: Bytes, start: nat, at: nat, items: seq<Value>, depth: nat, item: Value)
    requires ListSoFar(data, start, at, items, depth) && Holds(data, at, Encode(item)) && Fits(item, depth + 1)
    ensures ListSoFar(data, start, at + |Encode(item)|, items + [item], depth)
  {
    hide Holds, Fits, EncodeAll, Encode;
    EncodeAllSnoc(items, item);
    HoldsMore(data, start, LIST, EncodeAll(items), Encode(item));
  }

  // The item a complete list has next, and what it costs.
  lemma ListNext(data: Bytes, start: nat, at: nat, items: seq<Value>, all: seq<Value>, depth: nat, before: nat)
    requires Reads(List(all), data, start, depth, before) && items <= all && ListSoFar(data, start, at, items, depth)
    ensures at < |data| && (data[at] == END <==> items == all)
    ensures items != all ==> Reads(all[|items|], data, at, depth + 1, before + 1 + NodesOfAll(items))
    ensures NodesOfAll(items) <= NodesOfAll(all)
  {
    hide Holds, Encode, EncodeAll, NodesOfAll;
    assert all[..|items|] == items;
    ListCursor(data, start, all, |items|, at);
    if items != all { ItemCost(all, |items|); }
  }

  lemma ItemCost(all: seq<Value>, k: nat)
    requires k < |all|
    ensures NodesOfAll(all) >= NodesOfAll(all[..k]) + Nodes(all[k])
  {
    assert all == all[..k] + all[k..];
    EncodeAllSplit(all[..k], all[k..]);
    assert NodesOfAll(all[k..]) == Nodes(all[k]) + NodesOfAll(all[k..][1..]);
  }

  lemma EmptyList(data: Bytes, start: nat, depth: nat)
    requires start < |data| && data[start] == LIST
    ensures ListSoFar(data, start, start + 1, [], depth) && NodesOfAll([]) == 0
  {
    assert data[start..start + 1] == [LIST] + EncodeAll([]);
  }

  lemma OneReading(v: Value, w: Value, data: Bytes, start: nat, depth: nat, nodes: nat)
    requires Reads(v, data, start, depth, nodes) && Reads(w, data, start, depth, nodes)
    ensures v == w
  {
    ReadsOneValue(v, w, data, start);
  }

  lemma ItemRead(v: Value, data: Bytes, start: nat, depth: nat, nodes: nat)
    requires Reads(v, data, start, depth, nodes)
    ensures Holds(data, start, Encode(v)) && Fits(v, depth) && nodes + Nodes(v) <= MAX_NODES
    ensures start + |Encode(v)| <= |data| && |Encode(v)| > 0
  {
    FirstByte(v);
  }

  lemma ListDone(data: Bytes, start: nat, at: nat, items: seq<Value>, depth: nat, before: nat)
    requires ListSoFar(data, start, at, items, depth) && at < |data| && data[at] == END && depth <= MAX_DEPTH
    requires before + 1 + NodesOfAll(items) <= MAX_NODES
    ensures Reads(List(items), data, start, depth, before) && at + 1 == start + |Encode(List(items))|
  {
    HoldsConcat(data, start, [LIST] + EncodeAll(items), [END]);
  }

  ghost predicate DictSoFar(data: Bytes, start: nat, at: nat, pairs: seq<Pair>, depth: nat) {
    at == start + 1 + |EncodePairs(pairs)| && Holds(data, start, [DICT] + EncodePairs(pairs))
    && Ordered(pairs) && forall i :: 0 <= i < |pairs| ==> FitsPair(pairs[i], depth + 1)
  }

  function LastKey(pairs: seq<Pair>): Option<Bytes> {
    if pairs == [] then None else Some(pairs[|pairs| - 1].key)
  }

  predicate After(previous: Option<Bytes>, key: Bytes) {
    previous.None? || Less(previous.value, key)
  }

  // The pair that stands in the data at `at`, after the previous key.
  predicate PairReads(p: Pair, previous: Option<Bytes>, data: Bytes, at: nat, depth: nat, nodes: nat) {
    Reads(Str(p.key), data, at, depth + 1, nodes) && After(previous, p.key)
    && Reads(p.value, data, at + |Encode(Str(p.key))|, depth + 1, nodes + 1)
  }

  lemma OrderedGrows(pairs: seq<Pair>, p: Pair)
    requires Ordered(pairs) && After(LastKey(pairs), p.key)
    ensures Ordered(pairs + [p]) && Get(pairs, p.key).None?
  {
    forall i | 0 <= i < |pairs|
      ensures Less(pairs[i].key, p.key)
    {
      if i < |pairs| - 1 { LessIsTransitive(pairs[i].key, pairs[|pairs| - 1].key, p.key); }
    }
    GetFresh(pairs, p.key);
  }

  lemma DictGrows(data: Bytes, start: nat, at: nat, pairs: seq<Pair>, depth: nat, p: Pair)
    requires DictSoFar(data, start, at, pairs, depth) && After(LastKey(pairs), p.key) && FitsPair(p, depth + 1)
    requires Holds(data, at, EncodeStr(p.key)) && Holds(data, at + |EncodeStr(p.key)|, Encode(p.value))
    ensures DictSoFar(data, start, at + |EncodePair(p)|, pairs + [p], depth)
  {
    hide Holds, FitsPair, EncodePairs, Encode, Ordered, EncodeStr;
    EncodePairsSnoc(pairs, p);
    OrderedGrows(pairs, p);
    HoldsConcat(data, at, EncodeStr(p.key), Encode(p.value));
    HoldsMore(data, start, DICT, EncodePairs(pairs), EncodePair(p));
  }

  lemma InfoGrows(pairs: seq<Pair>, p: Pair, depth: nat, before: Bytes)
    requires Get(pairs, p.key).None?
    ensures InfoBytes(Dict(pairs + [p]), depth, before)
         == if depth == 0 && p.key == INFO then Encode(p.value) else InfoBytes(Dict(pairs), depth, before)
  {
    GetSplit(pairs, [p], INFO);
  }

  lemma SoFarEnds(data: Bytes, start: nat, at: nat, pairs: seq<Pair>, depth: nat)
    requires DictSoFar(data, start, at, pairs, depth)
    ensures at == start + 1 + |EncodePairs(pairs)|
  {}

  lemma PairCost(all: seq<Pair>, k: nat)
    requires k < |all|
    ensures NodesOfPairs(all) >= NodesOfPairs(all[..k]) + 1 + Nodes(all[k].value)
  {
    assert all == all[..k] + all[k..];
    EncodePairsSplit(all[..k], all[k..]);
    assert NodesOfPairs(all[k..]) == NodesOfPair(all[k]) + NodesOfPairs(all[k..][1..]);
  }

  // The pair a complete dictionary has next, and what it costs.
  lemma DictNext(data: Bytes, start: nat, at: nat, pairs: seq<Pair>, all: seq<Pair>, depth: nat, before: nat)
    requires Reads(Dict(all), data, start, depth, before) && pairs <= all && DictSoFar(data, start, at, pairs, depth)
    ensures at < |data| && (data[at] == END <==> pairs == all)
    ensures pairs != all ==>
              PairReads(all[|pairs|], LastKey(pairs), data, at, depth, before + 1 + NodesOfPairs(pairs))
  {
    hide Holds, Encode, EncodePairs, NodesOfPairs, Less, DictSoFar;
    assert all[..|pairs|] == pairs;
    SoFarEnds(data, start, at, pairs, depth);
    DictCursor(data, start, all, |pairs|, at);
    if pairs != all {
      PairCost(all, |pairs|);
      assert FitsPair(all[|pairs|], depth + 1);
      if pairs != [] { assert Less(all[|pairs| - 1].key, all[|pairs|].key); }
    }
  }

  lemma EmptyDict(data: Bytes, start: nat, depth: nat)
    requires start < |data| && data[start] == DICT
    ensures DictSoFar(data, start, start + 1, [], depth) && NodesOfPairs([]) == 0
  {
    assert data[start..start + 1] == [DICT] + EncodePairs([]);
  }

  lemma DictDone(data: Bytes, start: nat, at: nat, pairs: seq<Pair>, depth: nat, before: nat)
    requires DictSoFar(data, start, at, pairs, depth) && at < |data| && data[at] == END && depth <= MAX_DEPTH
    requires before + 1 + NodesOfPairs(pairs) <= MAX_NODES
    ensures Reads(Dict(pairs), data, start, depth, before) && at + 1 == start + |Encode(Dict(pairs))|
  {
    HoldsConcat(data, start, [DICT] + EncodePairs(pairs), [END]);
  }

  lemma NestedInfo(depth: nat)
    requires depth > 0
    ensures forall v, before :: InfoBytes(v, depth, before) == before
  {}

  lemma NoInfoYet(depth: nat, before: Bytes)
    ensures InfoBytes(Dict([]), depth, before) == before
  {}

  lemma OnePair(p: Pair, q: Pair, previous: Option<Bytes>, data: Bytes, at: nat, depth: nat, nodes: nat)
    requires PairReads(p, previous, data, at, depth, nodes) && PairReads(q, previous, data, at, depth, nodes)
    ensures p == q
  {
    OneReading(Str(p.key), Str(q.key), data, at, depth + 1, nodes);
    OneReading(p.value, q.value, data, at + |Encode(Str(p.key))|, depth + 1, nodes + 1);
  }

  lemma NodesOfStr(s: Bytes)
    ensures Nodes(Str(s)) == 1
  {}

  // One key and its value extend what has been read.
  lemma PairRead(data: Bytes, start: nat, at: nat, pairs: seq<Pair>, depth: nat, nodes: nat, p: Pair, before: Bytes)
    requires DictSoFar(data, start, at, pairs, depth) && PairReads(p, LastKey(pairs), data, at, depth, nodes)
    ensures DictSoFar(data, start, at + |EncodePair(p)|, pairs + [p], depth)
    ensures NodesOfPairs(pairs + [p]) == NodesOfPairs(pairs) + 1 + Nodes(p.value)
    ensures nodes + 1 + Nodes(p.value) <= MAX_NODES
    ensures InfoBytes(Dict(pairs + [p]), depth, before)
         == if depth == 0 && p.key == INFO then Encode(p.value) else InfoBytes(Dict(pairs), depth, before)
  {
    hide DictSoFar, InfoBytes, Get;
    DictGrows(data, start, at, pairs, depth, p);
    EncodePairsSnoc(pairs, p);
    SoFarOrdered(data, start, at, pairs, depth);
    OrderedGrows(pairs, p);
    InfoGrows(pairs, p, depth, before);
  }

  lemma SoFarOrdered(data: Bytes, start: nat, at: nat, pairs: seq<Pair>, depth: nat)
    requires DictSoFar(data, start, at, pairs, depth)
    ensures Ordered(pairs)
  {}

  class Decoder {
    const data: Bytes
    var offset: nat
    var nodes: nat
    var infoBytes: Bytes

    constructor (data: Bytes)
      ensures this.data == data && offset == 0 && nodes == 0 && infoBytes == []
    {
      this.data := data;
      offset, nodes, infoBytes := 0, 0, [];
    }

    method ReadInt() returns (r: Result<Value, Malformed>)
      requires offset < |data| && data[offset] == INT
      modifies this`offset
      ensures r.Ok? ==> r.value.Int? && IsInt64(r.value.n) && Holds(data, old(offset), Encode(r.value))
                        && offset == old(offset) + |Encode(r.value)|
      ensures r.Err? ==> forall v: Value | v.Int? && IsInt64(v.n) :: !Holds(data, old(offset), Encode(v))
    {
      hide Holds, Encode;
      var end := Find(data, END, offset + 1, offset + 23);
      forall v: Value | v.Int? && IsInt64(v.n) && Holds(data, offset, Encode(v))
        ensures end.Some? && data[offset + 1..end.value] == Decimal(v.n) && ParseInt(Decimal(v.n)) == Some(v.n)
      {
        IntWindow(data, offset, v.n);
        ParseIntOfDecimal(v.n);
      }
      if end.None? { return Err(Malformed); }
      var raw := data[offset + 1..end.value];
      var value := ParseInt(raw);
      if value.None? { return Err(Malformed); }
      if Decimal(value.value) != raw || !IsInt64(value.value) { return Err(Malformed); }
      IntIsHeld(data, offset, value.value, end.value);
      offset := end.value + 1;
      return Ok(Int(value.value));
    }

    method ReadStr() returns (r: Result<Value, Malformed>)
      requires offset < |data| && IsDigit(data[offset])
      modifies this`offset
      ensures r.Ok? ==> r.value.Str? && |r.value.s| < MAX_STRING && Holds(data, old(offset), Encode(r.value))
                        && offset == old(offset) + |Encode(r.value)|
      ensures r.Err? ==> forall v: Value | v.Str? && |v.s| < MAX_STRING :: !Holds(data, old(offset), Encode(v))
    {
      hide Holds, Encode, Digits, Number, AllDigits;
      var end := Find(data, COLON, offset, offset + 12);
      forall v: Value | v.Str? && |v.s| < MAX_STRING && Holds(data, offset, Encode(v))
        ensures end.Some? && data[offset..end.value] == Digits(|v.s|) && Number(Digits(|v.s|)) == |v.s|
                && end.value + 1 + |v.s| <= |data|
      {
        assert Encode(v) == EncodeStr(v.s) by { EncodeOfStr(v.s); }
        StrWindow(data, offset, v.s);
        NumberOfDigits(|v.s|);
      }
      if end.None? { return Err(Malformed); }
      var raw := data[offset..end.value];
      if !AllDigits(raw) || (|raw| > 1 && raw[0] == ZERO) { return Err(Malformed); }
      var length := Number(raw);
      if length > |data| - (end.value + 1) { return Err(Malformed); }
      var value := data[end.value + 1..end.value + 1 + length];
      StrIsHeld(data, offset, end.value, length);
      offset := end.value + 1 + length;
      return Ok(Str(value));
    }

    method Read(depth: nat) returns (r: Result<Value, Malformed>)
      requires offset <= |data|
      modifies this
      ensures r.Ok? ==> Reads(r.value, data, old(offset), depth, old(nodes))
                        && offset == old(offset) + |Encode(r.value)| && nodes == old(nodes) + Nodes(r.value)
                        && infoBytes == InfoBytes(r.value, depth, old(infoBytes))
      ensures r.Err? ==> forall v :: !Reads(v, data, old(offset), depth, old(nodes))
      decreases |data| - offset, 1
    {
      ghost var start, before := offset, nodes;
      nodes := nodes + 1;
      if depth > MAX_DEPTH || nodes > MAX_NODES { return Err(Malformed); }
      forall v | Reads(v, data, start, depth, before)
        ensures start < |data| && data[start] != END && (v.Int? <==> data[start] == INT)
                && (v.List? <==> data[start] == LIST) && (v.Dict? <==> data[start] == DICT)
                && (v.Str? <==> IsDigit(data[start]))
      {
        FirstByte(v);
        assert data[start..start + |Encode(v)|][0] == data[start];
      }
      if offset >= |data| { return Err(Malformed); }
      var token := data[offset];
      if token == DICT {
        r := ReadDict(depth);
      } else if token == LIST {
        r := ReadList(depth);
      } else if token == INT {
        r := ReadInt();
      } else if IsDigit(token) {
        r := ReadStr();
      } else {
        return Err(Malformed);
      }
    }

    method ReadList(depth: nat) returns (r: Result<Value, Malformed>)
      requires offset < |data| && data[offset] == LIST && depth <= MAX_DEPTH && 1 <= nodes <= MAX_NODES
      modifies this
      ensures r.Ok? ==> Reads(r.value, data, old(offset), depth, old(nodes) - 1) && r.value.List?
                        && offset == old(offset) + |Encode(r.value)| && nodes == old(nodes) - 1 + Nodes(r.value)
                        && infoBytes == old(infoBytes)
      ensures r.Err? ==> forall v: Value | v.List? :: !Reads(v, data, old(offset), depth, old(nodes) - 1)
      decreases |data| - offset, 0
    {
      hide Reads, Holds, EncodeAll, NodesOfAll;
      ghost var start, before := offset, nodes - 1;
      ghost var target: Option<seq<Value>> :=
        if exists v: Value :: v.List? && Reads(v, data, start, depth, before)
        then var v: Value :| v.List? && Reads(v, data, start, depth, before); Some(v.items)
        else None;
      offset := offset + 1;
      var items: seq<Value> := [];
      EmptyList(data, start, depth);
      while offset < |data| && data[offset] != END
        invariant start < offset <= |data| && ListSoFar(data, start, offset, items, depth)
        invariant nodes == before + 1 + NodesOfAll(items) && nodes <= MAX_NODES && infoBytes == old(infoBytes)
        invariant target.Some? ==> items <= target.value
        decreases |data| - offset
      {
        ghost var at := offset;
        if target.Some? { ListNext(data, start, at, items, target.value, depth, before); }
        var item := Read(depth + 1);
        if item.Err? { return item; }
        if target.Some? { OneReading(item.value, target.value[|items|], data, at, depth + 1, before + 1
            + NodesOfAll(items)); }
        ItemRead(item.value, data, at, depth + 1, before + 1 + NodesOfAll(items));
        EncodeAllSnoc(items, item.value);
        ListGrows(data, start, at, items, depth, item.value);
        items := items + [item.value];
      }
      if target.Some? { ListNext(data, start, offset, items, target.value, depth, before); }
      if offset >= |data| { return Err(Malformed); }
      ListDone(data, start, offset, items, depth, before);
      offset := offset + 1;
      r := Ok(List(items));
    }

    // One key, which must come after the previous one, and its value.
    method ReadPair(depth: nat, previous: Option<Bytes>) returns (r: Result<Pair, Malformed>)
      requires offset <= |data|
      modifies this
      ensures r.Ok? ==> PairReads(r.value, previous, data, old(offset), depth, old(nodes))
                        && offset == old(offset) + |EncodePair(r.value)| <= |data|
                        && nodes == old(nodes) + 1 + Nodes(r.value.value)
                        && infoBytes == if depth == 0 && r.value.key == INFO then Encode(r.value.value)
                                        else old(infoBytes)
      ensures r.Ok? ==> old(offset) < offset
      ensures r.Err? ==> forall p :: !PairReads(p, previous, data, old(offset), depth, old(nodes))
      decreases |data| - offset, 2
    {
      hide Reads, Encode, Nodes, Fits, Less, InfoBytes;
      ghost var at, counted := offset, nodes;
      ghost var target: Option<Pair> :=
        if exists p :: PairReads(p, previous, data, at, depth, counted)
        then var p :| PairReads(p, previous, data, at, depth, counted); Some(p)
        else None;
      NestedInfo(depth + 1);
      var key := Read(depth + 1);
      if key.Err? { return Err(key.error); }
      if target.Some? { OneReading(key.value, Str(target.value.key), data, at, depth + 1, counted); }
      ItemRead(key.value, data, at, depth + 1, counted);
      if !key.value.Str? || (previous.Some? && !Less(previous.value, key.value.s)) { return Err(Malformed); }
      NodesOfStr(key.value.s);
      var from := offset;
      var value := Read(depth + 1);
      if value.Err? { return Err(value.error); }
      if target.Some? { OneReading(value.value, target.value.value, data, from, depth + 1, counted + 1); }
      ItemRead(value.value, data, from, depth + 1, counted + 1);
      if depth == 0 && key.value.s == INFO { infoBytes := data[from..offset]; }
      EncodeOfStr(key.value.s);
      r := Ok(Pair(key.value.s, value.value));
    }

    method ReadDict(depth: nat) returns (r: Result<Value, Malformed>)
      requires offset < |data| && data[offset] == DICT && depth <= MAX_DEPTH && 1 <= nodes <= MAX_NODES
      modifies this
      ensures r.Ok? ==> Reads(r.value, data, old(offset), depth, old(nodes) - 1) && r.value.Dict?
                        && offset == old(offset) + |Encode(r.value)| && nodes == old(nodes) - 1 + Nodes(r.value)
                        && infoBytes == InfoBytes(r.value, depth, old(infoBytes))
      ensures r.Err? ==> forall v: Value | v.Dict? :: !Reads(v, data, old(offset), depth, old(nodes) - 1)
      decreases |data| - offset, 0
    {
      hide Reads, PairReads, EncodePairs, EncodePair, NodesOfPairs, InfoBytes, DictSoFar;
      ghost var start, before := offset, nodes - 1;
      ghost var target: Option<seq<Pair>> :=
        if exists v: Value :: v.Dict? && Reads(v, data, start, depth, before)
        then var v: Value :| v.Dict? && Reads(v, data, start, depth, before); Some(v.pairs)
        else None;
      offset := offset + 1;
      var pairs: seq<Pair> := [];
      var previous: Option<Bytes> := None;
      EmptyDict(data, start, depth);
      NoInfoYet(depth, infoBytes);
      while offset < |data| && data[offset] != END
        invariant start < offset <= |data| && DictSoFar(data, start, offset, pairs, depth)
        invariant nodes == before + 1 + NodesOfPairs(pairs) && nodes <= MAX_NODES
        invariant previous == LastKey(pairs)
        invariant infoBytes == InfoBytes(Dict(pairs), depth, old(infoBytes))
        invariant target.Some? ==> pairs <= target.value
        decreases |data| - offset
      {
        ghost var at, counted := offset, nodes;
        if target.Some? { DictNext(data, start, at, pairs, target.value, depth, before); }
        var pair := ReadPair(depth, previous);
        if pair.Err? { return Err(pair.error); }
        if target.Some? { OnePair(pair.value, target.value[|pairs|], previous, data, at, depth, counted); }
        PairRead(data, start, at, pairs, depth, counted, pair.value, old(infoBytes));
        previous := Some(pair.value.key);
        pairs := pairs + [pair.value];
      }
      if target.Some? { DictNext(data, start, offset, pairs, target.value, depth, before); }
      if offset >= |data| { return Err(Malformed); }
      DictDone(data, start, offset, pairs, depth, before);
      offset := offset + 1;
      r := Ok(Dict(pairs));
    }
  }

  // The values a whole input can hold.
  predicate Decodable(v: Value) { Fits(v, 0) && Nodes(v) <= MAX_NODES }

  // One complete value with nothing after it, and the bytes kept for the identity hash.
  method DecodeWhole(data: Bytes) returns (r: Result<(Value, Bytes), Malformed>)
    ensures r.Ok? ==> Decodable(r.value.0) && Encode(r.value.0) == data && r.value.1 == InfoBytes(r.value.0, 0, [])
    ensures r.Err? ==> forall v :: Decodable(v) ==> Encode(v) != data
  {
    hide Encode, Fits, Nodes, InfoBytes;
    var decoder := new Decoder(data);
    var read := decoder.Read(0);
    forall v | Decodable(v) && Encode(v) == data
      ensures read.Ok? && read.value == v
    {
      assert Reads(v, data, 0, 0, 0);
      if read.Ok? { OneReading(read.value, v, data, 0, 0, 0); }
    }
    if read.Err? { return Err(read.error); }
    if decoder.offset != |data| { return Err(Malformed); }
    return Ok((read.value, decoder.infoBytes));
  }

  // A value is recovered from its encoding, and no two values share one.
  lemma EncodingIsInjective(v: Value, w: Value)
    requires Encode(v) == Encode(w)
    ensures v == w
  {
    Unique(v, w, [], []);
  }
}
