// The fixture writers, and the validator as their inverse.
module RarWriter {
  import opened ByteStrings
  import opened Options
  import opened RarFraming

  // One member to store: its encoded name and its data.
  datatype Entry = Entry(name: Bytes, data: Bytes)

  const SIGNATURE4: Bytes := [0x52, 0x61, 0x72, 0x21, 0x1a, 0x07, 0x00]
  const SIGNATURE5: Bytes := [0x52, 0x61, 0x72, 0x21, 0x1a, 0x07, 0x01, 0x00]

  const REGULAR_FILE: nat := 33188

  function Le16(v: nat): Bytes { [v % 256, v / 256 % 256] }

  function Le32(v: nat): Bytes { [v % 256, v / 256 % 256, v / 0x1_0000 % 256, v / 0x100_0000 % 256] }

  lemma Le16IsRead(v: nat)
    requires v < 0x1_0000
    ensures LittleEndian(Le16(v)) == v
  {
    assert LittleEndian(Le16(v)[1..][1..]) == 0;
  }

  lemma Le32IsRead(v: nat)
    requires v < 0x1_0000_0000
    ensures LittleEndian(Le32(v)) == v
  {
    var s := Le32(v);
    assert LittleEndian(s[1..][1..][1..][1..]) == 0;
    assert LittleEndian(s[1..][1..][1..]) == s[3];
    assert LittleEndian(s[1..][1..]) == s[2] as int + 256 * (s[3] as int);
    assert v == v % 256 + 256 * (v / 256) && v / 256 / 256 == v / 0x1_0000 && v / 0x1_0000 / 256 == v / 0x100_0000;
  }

  // ---------- headers ----------

  function Body4(kind: Byte, flags: nat, payload: Bytes): Bytes {
    [kind] + (Le16(flags) + (Le16(|payload| + 7) + payload))
  }

  function Header4(kind: Byte, flags: nat, payload: Bytes, crc: Bytes -> Word32): Bytes {
    Le16(crc(Body4(kind, flags, payload)) % 0x1_0000) + Body4(kind, flags, payload)
  }

  function FilePayload4(e: Entry, crc: Bytes -> Word32): Bytes {
    Le32(|e.data|) + (Le32(|e.data|) + ([3] + (Le32(crc(e.data)) + (Le32(0) + ([20, 0x30] + (Le16(|e.name|)
        + (Le32(REGULAR_FILE) + e.name)))))))
  }

  function Body5(payload: Bytes): Bytes { EncodeVint(|payload|) + payload }

  function Header5(payload: Bytes, crc: Bytes -> Word32): Bytes {
    Le32(crc(Body5(payload))) + Body5(payload)
  }

  function FilePayload5(e: Entry, crc: Bytes -> Word32): Bytes {
    [2] + ([2] + (EncodeVint(|e.data|) + ([4] + (EncodeVint(|e.data|) + (EncodeVint(REGULAR_FILE)
    + (Le32(crc(e.data)) + ([0, 1] + (EncodeVint(|e.name|) + e.name))))))))
  }

  function MainHeader(kind: Kind, flags: nat, crc: Bytes -> Word32): Bytes {
    match kind
    case Rar4 => Header4(0x73, flags, [0, 0, 0, 0, 0, 0], crc)
    case Rar5 => Header5([1] + ([0] + EncodeVint(flags)), crc)
  }

  function FileHeader(kind: Kind, e: Entry, crc: Bytes -> Word32): Bytes {
    match kind
    case Rar4 => Header4(0x74, 0x8000, FilePayload4(e, crc), crc)
    case Rar5 => Header5(FilePayload5(e, crc), crc)
  }

  function EndHeader(kind: Kind, crc: Bytes -> Word32): Bytes {
    match kind
    case Rar4 => Header4(0x7b, 0, [], crc)
    case Rar5 => Header5([5] + ([0] + [0]), crc)
  }

  function Signature(kind: Kind): Bytes { if kind == Rar4 then SIGNATURE4 else SIGNATURE5 }

  // Every field of the version-4 structures holds its value.
  predicate Writable(kind: Kind, entries: seq<Entry>, flags: nat) {
    kind == Rar4 ==> flags < 0x1_0000 && forall e <- entries :: |e.data| < 0x1_0000_0000 && |e.name| + 32 < 0x1_0000
  }

  function Stored(kind: Kind, entries: seq<Entry>, crc: Bytes -> Word32): Bytes {
    if entries == [] then []
    else
      var last := entries[|entries| - 1];
      Stored(kind, entries[..|entries| - 1], crc) + (FileHeader(kind, last, crc) + last.data)
  }

  function Archive(kind: Kind, entries: seq<Entry>, flags: nat, crc: Bytes -> Word32): Bytes {
    Signature(kind) + MainHeader(kind, flags, crc) + Stored(kind, entries, crc) + EndHeader(kind, crc)
  }

  lemma AppendLast(a: Bytes, b: Bytes, c: Bytes)
    ensures (a + b) + c == a + (b + c)
  {}

  // The writers' loop; packing a value into a field that is too small fails.
  method WriteArchive(kind: Kind, entries: seq<Entry>, flags: nat, crc: Bytes -> Word32) returns (r: Option<Bytes>)
    ensures r == if Writable(kind, entries, flags) then Some(Archive(kind, entries, flags, crc)) else None
  {
    hide MainHeader, FileHeader, EndHeader, Signature;
    if kind == Rar4 && flags >= 0x1_0000 { return None; }
    var result := Signature(kind) + MainHeader(kind, flags, crc);
    for n := 0 to |entries|
      invariant result == Signature(kind) + MainHeader(kind, flags, crc) + Stored(kind, entries[..n], crc)
      invariant Writable(kind, entries[..n], flags)
    {
      var e := entries[n];
      assert entries[..n + 1][..n] == entries[..n] && entries[..n + 1] == entries[..n] + [e];
      if kind == Rar4 && !(|e.data| < 0x1_0000_0000 && |e.name| + 32 < 0x1_0000) { return None; }
      var start := Signature(kind) + MainHeader(kind, flags, crc);
      AppendLast(start, Stored(kind, entries[..n], crc), FileHeader(kind, e, crc) + e.data);
      result := result + (FileHeader(kind, e, crc) + e.data);
    }
    assert entries[..|entries|] == entries;
    return Some(result + EndHeader(kind, crc));
  }

  // ---------- reading a header back ----------

  lemma PreadOfHeld(file: Bytes, position: nat, s: Bytes)
    requires Holds(file, position, s)
    ensures Pread(file, |s|, position) == s
  {}

  lemma {:induction false} EncodedContinues(v: nat, i: nat)
    requires i + 1 < |EncodeVint(v)|
    ensures EncodeVint(v)[i] >= 128
  {
    if i > 0 { EncodedContinues(v / 128, i - 1); }
  }

  lemma {:induction false} VintEnds(data: Bytes, at: nat, count: nat)
    ensures var r := Vint(data, at, count); r.Some? ==> data[r.value.1 - 1] < 128
    decreases count
  {
    if count > 0 && at < |data| && data[at] >= 128 { VintEnds(data, at + 1, count - 1); }
  }

  // The length of a version-5 header is read from its first sixteen bytes if it has at most three digits.
  lemma LengthIsRead(file: Bytes, position: nat, v: nat)
    requires Holds(file, position + 4, EncodeVint(v)) && position + 7 <= |file|
    ensures var r := ReadVint(Pread(file, 16, position), 4);
            if v < 0x20_0000 then r == Some((v, 4 + |EncodeVint(v)|)) && 4 + |EncodeVint(v)| <= 7
            else r.None? || r.value.1 > 7
  {
    var prefix, digits := Pread(file, 16, position), EncodeVint(v);
    forall i | 4 <= i < |prefix| && i - 4 < |digits|
      ensures prefix[i] == digits[i - 4]
    {
      assert file[position + 4..position + 4 + |digits|][i - 4] == file[position + i];
    }
    EncodedLength(v, 3);
    Scales();
    if v < 0x20_0000 {
      assert prefix[4..4 + |digits|] == digits;
      VintOfEncoded(prefix, 4, v, 9);
    } else {
      VintEnds(prefix, 4, 9);
      var r := ReadVint(prefix, 4);
      if r.Some? && r.value.1 <= 7 {
        EncodedContinues(v, r.value.1 - 5);
      }
    }
  }

  lemma HeaderOfPayload(file: Bytes, position: nat, payload: Bytes, crc: Bytes -> Word32)
    requires Holds(file, position, Header5(payload, crc)) && |payload| >= 2
    ensures Rar5Header(file, position, crc)
         == if |payload| < 0x20_0000 then Some((Header5(payload, crc), 4 + |EncodeVint(|payload|)|)) else None
  {
    hide EncodeVint, ReadVint, LittleEndian, Le32;
    var header, body := Header5(payload, crc), Body5(payload);
    Le32Length(crc(body));
    ShortFlags(|payload|);
    HoldsConcat(file, position, Le32(crc(body)), body);
    HoldsConcat(file, position + 4, EncodeVint(|payload|), payload);
    LengthIsRead(file, position, |payload|);
    if |payload| < 0x20_0000 {
      PreadOfHeld(file, position, header);
      Le32IsRead(crc(body));
      assert header[..4] == Le32(crc(body)) && header[4..] == body;
    }
  }

  // ---------- the fields of the three version-5 headers ----------

  lemma SmallVint(data: Bytes, at: nat, b: Byte)
    requires Holds(data, at, [b]) && b < 128
    ensures ReadVint(data, at) == Some((b as nat, at + 1))
  {
    assert EncodeVint(b) == [b];
    VintRoundTrip(data, at, b);
  }

  lemma MainFields(header: Bytes, at: nat, flags: nat, first: bool)
    requires Holds(header, at, [1] + ([0] + EncodeVint(flags)))
    ensures Rar5Fields(header, at, first)
         == if flags % 4 == 0 && flags < 0x8000_0000_0000_0000 then Some(Fields(0, None, false)) else None
  {
    hide Holds, ReadVint, Rar5Member, EncodeVint;
    HoldsConcat(header, at, [1], [0] + EncodeVint(flags));
    HoldsConcat(header, at + 1, [0], EncodeVint(flags));
    SmallVint(header, at, 1);
    SmallVint(header, at + 1, 0);
    VintRoundTrip(header, at + 2, flags);
  }

  lemma EndFields(header: Bytes, at: nat)
    requires Holds(header, at, [5] + ([0] + [0]))
    ensures Rar5Fields(header, at, false) == Some(Fields(0, None, true))
  {
    hide Holds, ReadVint, Rar5Member, EncodeVint;
    HoldsConcat(header, at, [5], [0] + [0]);
    HoldsConcat(header, at + 1, [0], [0]);
    SmallVint(header, at, 5);
    SmallVint(header, at + 1, 0);
    SmallVint(header, at + 2, 0);
  }

  lemma FileMember(header: Bytes, at: nat, e: Entry, crc: Bytes -> Word32)
    requires Holds(header, at, [4] + (EncodeVint(|e.data|) + (EncodeVint(REGULAR_FILE) + (Le32(crc(e.data))
                               + ([0, 1] + (EncodeVint(|e.name|) + e.name))))))
    ensures Rar5Member(header, at)
         == if |e.data| < 0x8000_0000_0000_0000 then Some(Member(|e.data|, Some(crc(e.data)))) else None
  {
    hide Holds, ReadVint, EncodeVint, Le32;
    var rest := [0, 1] + (EncodeVint(|e.name|) + e.name);
    var digits := EncodeVint(|e.data|);
    HoldsConcat(header, at, [4], digits + (EncodeVint(REGULAR_FILE) + (Le32(crc(e.data)) + rest)));
    HoldsConcat(header, at + 1, digits, EncodeVint(REGULAR_FILE) + (Le32(crc(e.data)) + rest));
    HoldsConcat(header, at + 1 + |digits|, EncodeVint(REGULAR_FILE), Le32(crc(e.data)) + rest);
    HoldsConcat(header, at + 1 + |digits| + |EncodeVint(REGULAR_FILE)|, Le32(crc(e.data)), rest);
    SmallVint(header, at, 4);
    VintRoundTrip(header, at + 1, |e.data|);
    VintRoundTrip(header, at + 1 + |digits|, REGULAR_FILE);
    Le32Length(crc(e.data));
    HeldSlice(header, at + 1 + |digits| + |EncodeVint(REGULAR_FILE)|, Le32(crc(e.data)), 4);
    Le32IsRead(crc(e.data));
  }

  lemma HeldSlice(data: Bytes, at: nat, s: Bytes, n: nat)
    requires Holds(data, at, s) && |s| == n
    ensures at + n <= |data| && data[at..at + n] == s
  {}

  lemma Le32Length(v: nat)
    ensures |Le32(v)| == 4
  {}

  lemma FileFields(header: Bytes, at: nat, e: Entry, crc: Bytes -> Word32)
    requires Holds(header, at, FilePayload5(e, crc))
    ensures Rar5Fields(header, at, false)
         == if |e.data| < 0x8000_0000_0000_0000
            then Some(Fields(|e.data|, Some(Member(|e.data|, Some(crc(e.data)))), false)) else None
  {
    hide Holds, ReadVint, EncodeVint, Le32, Rar5Member;
    var digits := EncodeVint(|e.data|);
    var rest := [4] + (digits + (EncodeVint(REGULAR_FILE) + (Le32(crc(e.data)) + ([0, 1] + (EncodeVint(|e.name|)
        + e.name)))));
    HoldsConcat(header, at, [2], [2] + (digits + rest));
    HoldsConcat(header, at + 1, [2], digits + rest);
    HoldsConcat(header, at + 2, digits, rest);
    SmallVint(header, at, 2);
    SmallVint(header, at + 1, 2);
    VintRoundTrip(header, at + 2, |e.data|);
    FileMember(header, at + 2 + |digits|, e, crc);
  }

  // ---------- version-4 headers ----------

  lemma Header4Parts(kind: Byte, flags: nat, payload: Bytes, crc: Bytes -> Word32)
    ensures var h := Header4(kind, flags, payload, crc);
            |h| == 7 + |payload| && h[..2] == Le16(crc(h[2..]) % 0x1_0000) && h[2] == kind
            && h[3..5] == Le16(flags) && h[5..7] == Le16(|payload| + 7) && h[7..] == payload
  {
    var h, body := Header4(kind, flags, payload, crc), Body4(kind, flags, payload);
    assert h[2..] == body;
    assert body[1..] == Le16(flags) + (Le16(|payload| + 7) + payload);
    assert h[3..5] == body[1..][..2] && h[5..7] == body[1..][2..4] && h[7..] == body[1..][4..];
  }

  lemma SameStart(file: Bytes, position: nat, h: Bytes, prefix: Bytes)
    requires Holds(file, position, h) && |h| >= 7 && prefix == Pread(file, 16, position)
    ensures |prefix| >= 7 && prefix[..2] == h[..2] && prefix[5..7] == h[5..7]
  {
    forall i | 0 <= i < 7
      ensures prefix[i] == h[i]
    {
      assert file[position..position + |h|][i] == file[position + i];
    }
  }

  lemma Header4IsRead(file: Bytes, position: nat, kind: Byte, flags: nat, payload: Bytes, crc: Bytes -> Word32)
    requires Holds(file, position, Header4(kind, flags, payload, crc)) && |payload| + 7 < 0x1_0000
    ensures Rar4Header(file, position, crc) == Some(Header4(kind, flags, payload, crc))
  {
    hide Header4, Le16;
    var h, prefix := Header4(kind, flags, payload, crc), Pread(file, 16, position);
    Header4Parts(kind, flags, payload, crc);
    PreadOfHeld(file, position, h);
    SameStart(file, position, h, prefix);
    Le16IsRead(crc(h[2..]) % 0x1_0000);
    Le16IsRead(|payload| + 7);
  }

  lemma Main4Fields(flags: nat, crc: Bytes -> Word32, first: bool)
    requires flags < 0x1_0000
    ensures Rar4Fields(Header4(0x73, flags, [0, 0, 0, 0, 0, 0], crc), first)
         == if flags % 2 == 0 && flags / 0x80 % 2 == 0 then Some(Fields(0, None, false)) else None
  {
    hide Header4, LittleEndian;
    Header4Parts(0x73, flags, [0, 0, 0, 0, 0, 0], crc);
    var h := Header4(0x73, flags, [0, 0, 0, 0, 0, 0], crc);
    Le16IsRead(flags);
    Le32IsRead(0);
    assert h[7..11] == h[7..][..4] == Le32(0);
  }

  lemma End4Fields(crc: Bytes -> Word32)
    ensures Rar4Fields(Header4(0x7b, 0, [], crc), false) == Some(Fields(0, None, true))
  {
    hide Header4, LittleEndian, Le16;
    Header4Parts(0x7b, 0, [], crc);
    Le16IsRead(0);
  }

  lemma FilePayload4Parts(e: Entry, crc: Bytes -> Word32)
    ensures var p := FilePayload4(e, crc);
            |p| == 25 + |e.name| && p[..4] == Le32(|e.data|) && p[4..8] == Le32(|e.data|)
            && p[9..13] == Le32(crc(e.data))
  {
    hide Le32, Le16;
    Le32Length(|e.data|);
    Le32Length(crc(e.data));
    Le32Length(0);
    Le32Length(REGULAR_FILE);
    Le16Length(|e.name|);
    var rest := Le32(0) + ([20, 0x30] + (Le16(|e.name|) + (Le32(REGULAR_FILE) + e.name)));
    FirstParts(Le32(|e.data|), Le32(|e.data|), [3], Le32(crc(e.data)), rest);
  }

  lemma Le16Length(v: nat)
    ensures |Le16(v)| == 2
  {}

  lemma FirstParts(a: Bytes, b: Bytes, c: Bytes, d: Bytes, rest: Bytes)
    requires |a| == 4 && |b| == 4 && |c| == 1 && |d| == 4
    ensures var p := a + (b + (c + (d + rest)));
            |p| == 13 + |rest| && p[..4] == a && p[4..8] == b && p[9..13] == d
  {}

  lemma File4Fields(e: Entry, crc: Bytes -> Word32)
    requires |e.data| < 0x1_0000_0000
    ensures Rar4Fields(Header4(0x74, 0x8000, FilePayload4(e, crc), crc), false)
         == Some(Fields(|e.data|, Some(Member(|e.data|, Some(crc(e.data)))), false))
  {
    hide Header4, LittleEndian, Le16, Le32, FilePayload4;
    var payload := FilePayload4(e, crc);
    var h := Header4(0x74, 0x8000, payload, crc);
    Header4Parts(0x74, 0x8000, payload, crc);
    FilePayload4Parts(e, crc);
    Le16IsRead(0x8000);
    Le32IsRead(|e.data|);
    Le32IsRead(crc(e.data));
    assert h[7..11] == payload[..4] && h[11..15] == payload[4..8] && h[16..20] == payload[9..13];
  }

  // ---------- one block of either version ----------

  // What the validator accepts of a written archive: no volume or encryption flag, and for version 5
  // a header below two megabytes and sizes below 2^63.
  predicate ReadableFlags(kind: Kind, flags: nat) {
    match kind
    case Rar4 => flags % 2 == 0 && flags / 0x80 % 2 == 0
    case Rar5 => flags % 4 == 0 && flags < 0x8000_0000_0000_0000
  }

  predicate ReadableEntry(kind: Kind, e: Entry, crc: Bytes -> Word32) {
    kind == Rar5 ==> |e.data| < 0x8000_0000_0000_0000 && |FilePayload5(e, crc)| < 0x20_0000
  }

  function MainBlock(kind: Kind, flags: nat, crc: Bytes -> Word32): Block {
    Block(|MainHeader(kind, flags, crc)|, None, false)
  }

  function FileBlock(kind: Kind, e: Entry, crc: Bytes -> Word32): Block {
    Block(|FileHeader(kind, e, crc)| + |e.data|, Some(Member(|e.data|, Some(crc(e.data)))), false)
  }

  function EndBlock(kind: Kind, crc: Bytes -> Word32): Block {
    Block(|EndHeader(kind, crc)|, None, true)
  }

  lemma HeaderHoldsPayload(payload: Bytes, crc: Bytes -> Word32)
    ensures Holds(Header5(payload, crc), 4 + |EncodeVint(|payload|)|, payload)
  {
    var h := Header5(payload, crc);
    assert h == (Le32(crc(Body5(payload))) + EncodeVint(|payload|)) + payload;
  }

  lemma ShortFlags(flags: nat)
    ensures 1 <= |EncodeVint(flags)|
    ensures flags < 0x8000_0000_0000_0000 ==> |EncodeVint(flags)| <= 9
  {
    EncodedLength(flags, 9);
    Scales();
  }

  lemma MainIsRead(file: Bytes, kind: Kind, position: nat, flags: nat, crc: Bytes -> Word32)
    requires Holds(file, position, MainHeader(kind, flags, crc)) && (kind == Rar4 ==> flags < 0x1_0000)
    ensures BlockAt(file, kind, position, true, crc)
         == if ReadableFlags(kind, flags) then Some(MainBlock(kind, flags, crc)) else None
  {
    hide Holds, Rar4Header, Rar5Header, Rar4Fields, Rar5Fields, Header4, Header5, EncodeVint;
    match kind {
      case Rar4 =>
        Header4IsRead(file, position, 0x73, flags, [0, 0, 0, 0, 0, 0], crc);
        Main4Fields(flags, crc, true);
      case Rar5 =>
        var payload := [1] + ([0] + EncodeVint(flags));
        ShortFlags(flags);
        HeaderOfPayload(file, position, payload, crc);
        HeaderHoldsPayload(payload, crc);
        MainFields(Header5(payload, crc), 4 + |EncodeVint(|payload|)|, flags, true);
    }
  }

  lemma FileIsRead(file: Bytes, kind: Kind, position: nat, e: Entry, crc: Bytes -> Word32)
    requires Holds(file, position, FileHeader(kind, e, crc)) && Writable(kind, [e], 0)
    ensures BlockAt(file, kind, position, false, crc)
         == if ReadableEntry(kind, e, crc) then Some(FileBlock(kind, e, crc)) else None
  {
    hide Holds, Rar4Header, Rar5Header, Rar4Fields, Rar5Fields, Header4, Header5, EncodeVint, FilePayload4,
         FilePayload5;
    match kind {
      case Rar4 =>
        assert e in [e];
        FilePayload4Parts(e, crc);
        Header4IsRead(file, position, 0x74, 0x8000, FilePayload4(e, crc), crc);
        File4Fields(e, crc);
      case Rar5 =>
        var payload := FilePayload5(e, crc);
        FilePayloadLength(e, crc);
        HeaderOfPayload(file, position, payload, crc);
        HeaderHoldsPayload(payload, crc);
        FileFields(Header5(payload, crc), 4 + |EncodeVint(|payload|)|, e, crc);
    }
  }

  lemma FilePayloadLength(e: Entry, crc: Bytes -> Word32)
    ensures |FilePayload5(e, crc)| >= 2
  {}

  lemma EndIsRead(file: Bytes, kind: Kind, position: nat, crc: Bytes -> Word32)
    requires Holds(file, position, EndHeader(kind, crc))
    ensures BlockAt(file, kind, position, false, crc) == Some(EndBlock(kind, crc))
  {
    hide Holds, Rar4Header, Rar5Header, Rar4Fields, Rar5Fields, Header4, Header5, EncodeVint;
    match kind {
      case Rar4 =>
        Header4IsRead(file, position, 0x7b, 0, [], crc);
        End4Fields(crc);
      case Rar5 =>
        var payload := [5] + ([0] + [0]);
        HeaderOfPayload(file, position, payload, crc);
        HeaderHoldsPayload(payload, crc);
        EndFields(Header5(payload, crc), 4 + |EncodeVint(|payload|)|);
    }
  }

  // ---------- a whole archive ----------

  function Manifest(entries: seq<Entry>, crc: Bytes -> Word32): seq<Member> {
    if entries == [] then []
    else
      var last := entries[|entries| - 1];
      Manifest(entries[..|entries| - 1], crc) + [Member(|last.data|, Some(crc(last.data)))]
  }

  // The blocks up to the last of these entries.
  function BlocksSoFar(kind: Kind, entries: seq<Entry>, flags: nat, crc: Bytes -> Word32): seq<Block> {
    if entries == [] then [MainBlock(kind, flags, crc)]
    else BlocksSoFar(kind, entries[..|entries| - 1], flags, crc) + [FileBlock(kind, entries[|entries| - 1], crc)]
  }

  // The archive starts with its signature, its main header and what these entries leave behind.
  predicate StartsWith(file: Bytes, kind: Kind, entries: seq<Entry>, flags: nat, crc: Bytes -> Word32) {
    Holds(file, 0, Signature(kind) + MainHeader(kind, flags, crc) + Stored(kind, entries, crc))
  }

  // What the walk has seen after the blocks of some entries.
  predicate Walked(file: Bytes, kind: Kind, entries: seq<Entry>, flags: nat, crc: Bytes -> Word32) {
    var blocks := BlocksSoFar(kind, entries, flags, crc);
    Chained(file, kind, blocks, crc) && |blocks| == |entries| + 1 && Members(blocks) == Manifest(entries, crc)
    && (forall i :: 0 <= i < |blocks| ==> !blocks[i].end)
    && FirstPosition(kind) + TotalSize(blocks)
       == |Signature(kind)| + |MainHeader(kind, flags, crc)| + |Stored(kind, entries, crc)|
  }

  lemma StartWalk(file: Bytes, kind: Kind, flags: nat, crc: Bytes -> Word32)
    requires StartsWith(file, kind, [], flags, crc) && (kind == Rar4 ==> flags < 0x1_0000)
    ensures ReadableFlags(kind, flags) ==> Walked(file, kind, [], flags, crc)
    ensures !ReadableFlags(kind, flags) ==> BlockAt(file, kind, FirstPosition(kind), true, crc).None?
  {
    hide BlockAt, MainHeader, Holds, Chained, TotalSize, Members;
    assert Signature(kind) + MainHeader(kind, flags, crc) + Stored(kind, [], crc) == Signature(kind)
        + MainHeader(kind, flags, crc);
    HoldsConcat(file, 0, Signature(kind), MainHeader(kind, flags, crc));
    MainIsRead(file, kind, |Signature(kind)|, flags, crc);
    NothingWalked(file, kind, crc);
    if ReadableFlags(kind, flags) {
      ChainGrows(file, kind, [], MainBlock(kind, flags, crc), crc);
      assert [] + [MainBlock(kind, flags, crc)] == BlocksSoFar(kind, [], flags, crc);
      assert Members([]) + Listed(None) == [];
    }
  }

  lemma NextIsRead(file: Bytes, kind: Kind, entries: seq<Entry>, flags: nat, crc: Bytes -> Word32)
    requires entries != [] && StartsWith(file, kind, entries, flags, crc) && Writable(kind, entries, flags)
    ensures var front, last := entries[..|entries| - 1], entries[|entries| - 1];
            var position := |Signature(kind)| + |MainHeader(kind, flags, crc)| + |Stored(kind, front, crc)|;
            BlockAt(file, kind, position, false, crc)
            == if ReadableEntry(kind, last, crc) then Some(FileBlock(kind, last, crc)) else None
  {
    hide BlockAt, MainHeader, FileHeader, Holds, ReadableEntry, FileBlock, Signature;
    var front, last := entries[..|entries| - 1], entries[|entries| - 1];
    var start := Signature(kind) + MainHeader(kind, flags, crc) + Stored(kind, front, crc);
    AppendLast(Signature(kind) + MainHeader(kind, flags, crc), Stored(kind, front, crc), FileHeader(kind, last,
        crc) + last.data);
    HoldsConcat(file, 0, start, FileHeader(kind, last, crc) + last.data);
    HoldsConcat(file, |start|, FileHeader(kind, last, crc), last.data);
    assert last in entries;
    FileIsRead(file, kind, |start|, last, crc);
  }

  lemma WalkGrows(file: Bytes, kind: Kind, entries: seq<Entry>, flags: nat, crc: Bytes -> Word32)
    requires entries != []
    requires var front, last := entries[..|entries| - 1], entries[|entries| - 1];
             Walked(file, kind, front, flags, crc)
             && BlockAt(file, kind, FirstPosition(kind) + TotalSize(BlocksSoFar(kind, front, flags, crc)), false, crc)
                == Some(FileBlock(kind, last, crc))
    ensures Walked(file, kind, entries, flags, crc)
  {
    hide BlockAt, MainHeader, FileHeader, Chained, TotalSize, Members, Signature, FirstPosition;
    var front, last := entries[..|entries| - 1], entries[|entries| - 1];
    var blocks, block := BlocksSoFar(kind, front, flags, crc), FileBlock(kind, last, crc);
    ChainGrows(file, kind, blocks, block, crc);
    assert BlocksSoFar(kind, entries, flags, crc) == blocks + [block];
  }

  lemma StepWalk(file: Bytes, kind: Kind, entries: seq<Entry>, flags: nat, crc: Bytes -> Word32)
    requires entries != [] && StartsWith(file, kind, entries, flags, crc) && Writable(kind, entries, flags)
    requires Walked(file, kind, entries[..|entries| - 1], flags, crc)
    ensures var last := entries[|entries| - 1];
            if ReadableEntry(kind, last, crc) then Walked(file, kind, entries, flags, crc)
            else BlockAt(file, kind, FirstPosition(kind) + TotalSize(BlocksSoFar(kind, entries[..|entries| - 1],
                flags, crc)), false, crc).None?
  {
    hide BlockAt, MainHeader, Chained, TotalSize, Members, ReadableEntry, FileBlock, Signature, FirstPosition,
        Stored, StartsWith;
    NextIsRead(file, kind, entries, flags, crc);
    if ReadableEntry(kind, entries[|entries| - 1], crc) { WalkGrows(file, kind, entries, flags, crc); }
  }

  predicate Readable(kind: Kind, entries: seq<Entry>, flags: nat, crc: Bytes -> Word32) {
    ReadableFlags(kind, flags) && forall e <- entries :: ReadableEntry(kind, e, crc)
  }

  lemma FrontStarts(file: Bytes, kind: Kind, entries: seq<Entry>, flags: nat, crc: Bytes -> Word32)
    requires entries != [] && StartsWith(file, kind, entries, flags, crc)
    ensures StartsWith(file, kind, entries[..|entries| - 1], flags, crc)
  {
    hide MainHeader, FileHeader, Holds;
    var front, last := entries[..|entries| - 1], entries[|entries| - 1];
    AppendLast(Signature(kind) + MainHeader(kind, flags, crc), Stored(kind, front, crc), FileHeader(kind, last,
        crc) + last.data);
    HoldsConcat(file, 0, Signature(kind) + MainHeader(kind, flags, crc) + Stored(kind, front, crc), FileHeader(kind,
        last, crc) + last.data);
  }

  // Where the walk finds no next block, there is no framing at all.
  lemma NoFraming(file: Bytes, kind: Kind, walked: seq<Block>, crc: Bytes -> Word32)
    requires Chained(file, kind, walked, crc) && forall i :: 0 <= i < |walked| ==> !walked[i].end
    requires BlockAt(file, kind, FirstPosition(kind) + TotalSize(walked), walked == [], crc).None?
    ensures forall blocks :: !Framed(file, kind, blocks, crc)
  {
    hide *;
    forall blocks | Framed(file, kind, blocks, crc)
      ensures false
    {
      WalkFollows(file, kind, walked, blocks, crc);
    }
  }

  lemma WalkedIsChained(file: Bytes, kind: Kind, entries: seq<Entry>, flags: nat, crc: Bytes -> Word32)
    requires Walked(file, kind, entries, flags, crc)
    ensures var blocks := BlocksSoFar(kind, entries, flags, crc);
            Chained(file, kind, blocks, crc) && blocks != [] && forall i :: 0 <= i < |blocks| ==> !blocks[i].end
  {
    hide Chained, TotalSize, Members, MainHeader, Stored;
  }

  lemma ReadableSnoc(kind: Kind, front: seq<Entry>, last: Entry, flags: nat, crc: Bytes -> Word32)
    ensures Readable(kind, front + [last], flags, crc) <==> Readable(kind, front, flags, crc)
                                                             && ReadableEntry(kind, last, crc)
    ensures Writable(kind, front + [last], flags) ==> Writable(kind, front, flags)
  {
    hide ReadableEntry, ReadableFlags;
    assert forall e <- front :: e in front + [last];
    assert last in front + [last];
  }

  // The entries are walked, or no framing of the file exists.
  ghost predicate WalkedOrNone(file: Bytes, kind: Kind, entries: seq<Entry>, flags: nat, crc: Bytes -> Word32) {
    if Readable(kind, entries, flags, crc) then Walked(file, kind, entries, flags, crc)
    else forall blocks :: !Framed(file, kind, blocks, crc)
  }

  lemma {:induction false} WalkOrFail(file: Bytes, kind: Kind, entries: seq<Entry>, flags: nat, crc: Bytes -> Word32)
    requires StartsWith(file, kind, entries, flags, crc) && Writable(kind, entries, flags)
    ensures WalkedOrNone(file, kind, entries, flags, crc)
  {
    hide *;
    if entries == [] {
      NoEntriesWalked(file, kind, flags, crc);
    } else {
      var front, last := entries[..|entries| - 1], entries[|entries| - 1];
      assert entries == front + [last];
      ReadableSnoc(kind, front, last, flags, crc);
      FrontStarts(file, kind, entries, flags, crc);
      WalkOrFail(file, kind, front, flags, crc);
      WalkOneFurther(file, kind, front, last, flags, crc);
    }
  }

  lemma WalkOneFurther(file: Bytes, kind: Kind, front: seq<Entry>, last: Entry, flags: nat, crc: Bytes -> Word32)
    requires StartsWith(file, kind, front + [last], flags, crc) && Writable(kind, front + [last], flags)
    requires WalkedOrNone(file, kind, front, flags, crc)
    ensures WalkedOrNone(file, kind, front + [last], flags, crc)
  {
    hide StartsWith, Walked, Framed, Readable, ReadableEntry, Writable, BlockAt, Chained, TotalSize, BlocksSoFar,
         FirstPosition, Members;
    var entries := front + [last];
    assert entries[..|entries| - 1] == front;
    ReadableSnoc(kind, front, last, flags, crc);
    if Readable(kind, front, flags, crc) {
      StepWalk(file, kind, entries, flags, crc);
      WalkedIsChained(file, kind, front, flags, crc);
      if !ReadableEntry(kind, last, crc) { NoFraming(file, kind, BlocksSoFar(kind, front, flags, crc), crc); }
    }
  }

  lemma NoEntriesWalked(file: Bytes, kind: Kind, flags: nat, crc: Bytes -> Word32)
    requires StartsWith(file, kind, [], flags, crc) && Writable(kind, [], flags)
    ensures WalkedOrNone(file, kind, [], flags, crc)
  {
    hide StartsWith, BlockAt, Chained, Members, TotalSize, Stored, MainHeader, ReadableFlags, Framed, Walked;
    StartWalk(file, kind, flags, crc);
    NothingWalked(file, kind, crc);
    if !ReadableFlags(kind, flags) { NoFraming(file, kind, [], crc); }
  }

  // The whole archive is framed by its own blocks when every part is readable, and not at all otherwise.
  lemma ArchiveIsFramed(kind: Kind, entries: seq<Entry>, flags: nat, crc: Bytes -> Word32)
    requires Writable(kind, entries, flags)
    ensures var file, blocks := Archive(kind, entries, flags, crc), BlocksSoFar(kind, entries, flags, crc)
        + [EndBlock(kind, crc)];
            if Readable(kind, entries, flags, crc) then
              Framed(file, kind, blocks, crc) && |blocks| == |entries| + 2 && Members(blocks) == Manifest(entries, crc)
            else forall other :: !Framed(file, kind, other, crc)
  {
    hide BlockAt, Chained, Members, TotalSize, Stored, MainHeader, EndHeader, BlocksSoFar, Readable, Holds;
    var file := Archive(kind, entries, flags, crc);
    var start := Signature(kind) + MainHeader(kind, flags, crc) + Stored(kind, entries, crc);
    WholeIsHeld(file);
    HoldsConcat(file, 0, start, EndHeader(kind, crc));
    WalkOrFail(file, kind, entries, flags, crc);
    if Readable(kind, entries, flags, crc) {
      var blocks := BlocksSoFar(kind, entries, flags, crc);
      EndIsRead(file, kind, |start|, crc);
      ChainGrows(file, kind, blocks, EndBlock(kind, crc), crc);
    }
  }

  lemma WholeIsHeld(file: Bytes)
    ensures Holds(file, 0, file)
  {}

  lemma {:induction false} OneFraming(file: Bytes, kind: Kind, a: seq<Block>, b: seq<Block>, crc: Bytes -> Word32)
    requires Framed(file, kind, a, crc) && Framed(file, kind, b, crc)
    ensures a == b
  {
    hide BlockAt, TotalSize;
    var front := a[..|a| - 1];
    forall i | 0 <= i < |front|
      ensures front[..i] == a[..i]
    {}
    WalkFollows(file, kind, front, b, crc);
    assert a == front + [a[|a| - 1]];
    NextInFrame(file, kind, a, |a| - 1, crc);
  }

  // Validating what the writer produced gives back exactly the sizes and checksums it stored, as long
  // as the header limit allows; anything unreadable is refused.
  method ValidateWritten(kind: Kind, entries: seq<Entry>, flags: nat, maxHeaders: nat, crc: Bytes -> Word32)
    returns (r: Option<seq<Member>>)
    requires Writable(kind, entries, flags)
    ensures r == if Readable(kind, entries, flags, crc) && |entries| + 2 <= maxHeaders
                 then Some(Manifest(entries, crc)) else None
  {
    hide Framed, Members, Archive, BlocksSoFar, Writable, Readable;
    var file := WriteArchive(kind, entries, flags, crc);
    r := ValidateRar(file.value, kind, maxHeaders, crc);
    ArchiveIsFramed(kind, entries, flags, crc);
    if Readable(kind, entries, flags, crc) {
      var blocks := BlocksSoFar(kind, entries, flags, crc) + [EndBlock(kind, crc)];
      forall other | Framed(file.value, kind, other, crc)
        ensures other == blocks
      {
        OneFraming(file.value, kind, other, blocks, crc);
      }
    }
  }

  // ---------- what a version-5 header is refused for ----------

  // One record of the extra area.
  datatype ExtraRecord = ExtraRecord(kind: nat, body: Bytes)

  const ENCRYPTION: nat := 1

  function RecordPayload(r: ExtraRecord): Bytes { EncodeVint(r.kind) + r.body }

  function RecordBytes(r: ExtraRecord): Bytes { EncodeVint(|RecordPayload(r)|) + RecordPayload(r) }

  function ExtraBytes(records: seq<ExtraRecord>): Bytes {
    if records == [] then [] else RecordBytes(records[0]) + ExtraBytes(records[1..])
  }

  predicate FitsVint(r: ExtraRecord) {
    r.kind < 0x8000_0000_0000_0000 && |RecordPayload(r)| < 0x8000_0000_0000_0000
  }

  // The record's size and kind are read at its place, and it ends where the next one begins.
  predicate RecordStands(header: Bytes, at: nat, r: ExtraRecord, end: nat)
    requires end <= |header|
  {
    match ReadVint(header, at)
    case None => false
    case Some((size, start)) =>
      size > 0 && start + size == end
      && match ReadVint(header[..end], start) case None => false case Some((kind, _)) => kind == r.kind
  }

  lemma RecordIsRead(header: Bytes, at: nat, r: ExtraRecord)
    requires Holds(header, at, RecordBytes(r)) && FitsVint(r)
    ensures at + |RecordBytes(r)| <= |header| && RecordStands(header, at, r, at + |RecordBytes(r)|)
  {
    hide ReadVint, EncodeVint;
    var payload := RecordPayload(r);
    var start, end := at + |EncodeVint(|payload|)|, at + |RecordBytes(r)|;
    HoldsConcat(header, at, EncodeVint(|payload|), payload);
    VintRoundTrip(header, at, |payload|);
    HoldsConcat(header, start, EncodeVint(r.kind), r.body);
    EncodedIsSome(r.kind);
    assert header[..end][start..start + |EncodeVint(r.kind)|] == header[start..start + |EncodeVint(r.kind)|];
    VintRoundTrip(header[..end], start, r.kind);
  }

  lemma EncodedIsSome(v: nat)
    ensures |EncodeVint(v)| > 0
  {}

  // An extra area is accepted exactly when none of its records is the encryption record.
  lemma {:induction false} ExtraIsRead(header: Bytes, at: nat, records: seq<ExtraRecord>)
    requires at <= |header| && header[at..] == ExtraBytes(records) && forall r <- records :: FitsVint(r)
    ensures ExtraReadable(header, at) <==> forall r <- records :: r.kind != ENCRYPTION
    decreases |records|
  {
    hide ReadVint, FitsVint, RecordBytes, RecordPayload;
    if records != [] {
      var first, rest := records[0], records[1..];
      var next := at + |RecordBytes(first)|;
      assert header[at..next] == header[at..][..|RecordBytes(first)|] == RecordBytes(first);
      RecordIsRead(header, at, first);
      assert header[next..] == header[at..][|RecordBytes(first)|..] == ExtraBytes(rest);
      ExtraIsRead(header, next, rest);
      assert records == [first] + rest;
    }
  }

  // Encrypted headers, parts of a multi-volume archive and a file that does not begin with a main header.
  lemma RefusedHeaders(header: Bytes, at: nat, kind: nat, flags: nat, first: bool)
    requires Holds(header, at, EncodeVint(kind) + EncodeVint(flags))
    requires kind == 4 || (first && kind != 1) || flags / 8 % 2 == 1 || flags / 16 % 2 == 1
    ensures Rar5Fields(header, at, first).None?
  {
    hide ReadVint, EncodeVint, Rar5Member, ExtraReadable;
    HoldsConcat(header, at, EncodeVint(kind), EncodeVint(flags));
    VintRoundTrip(header, at, kind);
    if kind < 0x8000_0000_0000_0000 { VintRoundTrip(header, at + |EncodeVint(kind)|, flags); }
  }

  // The fields of a version-5 file, whatever its flags: the size, and the checksum behind the time stamp, if there
  // is one.  A file of unknown size is refused, and one without a checksum unless it is a directory.
  lemma MemberIsRead(header: Bytes, at: nat, flags: nat, size: nat, attributes: nat, time: Bytes, sum: Bytes)
    requires Holds(header, at, EncodeVint(flags) + (EncodeVint(size) + (EncodeVint(attributes) + (time + sum))))
    requires flags < 0x8000_0000_0000_0000 && attributes < 0x8000_0000_0000_0000
    requires |time| == (if flags / 2 % 2 == 1 then 4 else 0) && |sum| == (if flags / 4 % 2 == 1 then 4 else 0)
    ensures Rar5Member(header, at)
         == if size >= 0x8000_0000_0000_0000 || flags / 8 % 2 == 1 then None
            else if flags / 4 % 2 == 1 then Some(Member(size, Some(LittleEndian(sum))))
            else if flags % 2 == 1 then Some(Member(size, None)) else None
  {
    hide ReadVint, EncodeVint, LittleEndian, Holds;
    var o1 := at + |EncodeVint(flags)|;
    var o2 := o1 + |EncodeVint(size)|;
    var o3 := o2 + |EncodeVint(attributes)|;
    HoldsConcat(header, at, EncodeVint(flags), EncodeVint(size) + (EncodeVint(attributes) + (time + sum)));
    HoldsConcat(header, o1, EncodeVint(size), EncodeVint(attributes) + (time + sum));
    HoldsConcat(header, o2, EncodeVint(attributes), time + sum);
    HoldsConcat(header, o3, time, sum);
    VintRoundTrip(header, at, flags);
    VintRoundTrip(header, o1, size);
    VintRoundTrip(header, o2, attributes);
    assert o3 + |time| + |sum| <= |header| && header[o3 + |time|..o3 + |time| + |sum|] == sum by {
      StandsThere(header, o3 + |time|, sum);
    }
  }

  lemma StandsThere(data: Bytes, at: nat, s: Bytes)
    requires Holds(data, at, s)
    ensures at + |s| <= |data| && data[at..at + |s|] == s
  {}

  // Encrypted or multi-volume version-4 headers, split or encrypted files, and unknown blocks.
  lemma RefusedHeaders4(header: Bytes, first: bool)
    requires |header| >= 7
    requires var kind, flags := header[2], LittleEndian(header[3..5]);
             (kind == 0x73 && (flags % 2 == 1 || flags / 0x80 % 2 == 1))
             || (kind == 0x74 && (flags % 2 == 1 || flags / 2 % 2 == 1 || flags / 4 % 2 == 1))
             || (kind == 0x7b && flags % 2 == 1) || (first && kind != 0x73) || !(0x73 <= kind < 0x7c)
    ensures Rar4Fields(header, first).None?
  {
    hide LittleEndian;
  }

  const LARGE_FLAGS: nat := 0x8100

  // Sizes of version-4 files that need more than four bytes are put together from their two halves.
  lemma LargeFileIsRead(header: Bytes, packed: nat, packedHigh: nat, size: nat, sizeHigh: nat, sum: nat)
    requires |header| >= 40 && header[2] == 0x74 && LittleEndian(header[3..5]) == LARGE_FLAGS
    requires packed < 0x1_0000_0000 && packedHigh < 0x1_0000_0000 && size < 0x1_0000_0000 && sizeHigh < 0x1_0000_0000
    requires sum < 0x1_0000_0000
    requires header[7..11] == Le32(packed) && header[32..36] == Le32(packedHigh)
    requires header[11..15] == Le32(size) && header[36..40] == Le32(sizeHigh) && header[16..20] == Le32(sum)
    ensures Rar4Fields(header, false)
         == Some(Fields(packed + 0x1_0000_0000 * packedHigh,
                        Some(Member(size + 0x1_0000_0000 * sizeHigh, Some(sum))), false))
  {
    hide Le32, LittleEndian, Rar4Fields;
    LargeFields(header);
    Le32IsRead(packed);
    Le32IsRead(packedHigh);
    Le32IsRead(size);
    Le32IsRead(sizeHigh);
    Le32IsRead(sum);
  }

  lemma LargeFields(header: Bytes)
    requires |header| >= 40 && header[2] == 0x74 && LittleEndian(header[3..5]) == LARGE_FLAGS
    ensures Rar4Fields(header, false)
         == Some(Fields(LittleEndian(header[7..11]) + 0x1_0000_0000 * LittleEndian(header[32..36]),
                        Some(Member(LittleEndian(header[11..15]) + 0x1_0000_0000 * LittleEndian(header[36..40]),
                                    Some(LittleEndian(header[16..20])))), false))
  {
    hide LittleEndian;
  }
}
