// The framing of single-volume RAR archives: blocks walked by the validator, and the writers it inverts.
module RarFraming {
  import opened ByteStrings
  import opened Options

  type Word32 = x: int | 0 <= x < 0x1_0000_0000

  // Unpacked size and checksum of one file block.
  datatype Member = Member(size: nat, crc: Option<nat>)

  // What a header says besides its own length.
  datatype Fields = Fields(dataSize: nat, member: Option<Member>, end: bool)

  datatype Block = Block(size: nat, member: Option<Member>, end: bool)

  datatype Kind = Rar4 | Rar5

  const MAX_HEADER: nat := 2 * 1024 * 1024

  // os.pread: as many bytes as there are.
  function Pread(file: Bytes, count: nat, position: nat): Bytes {
    if position >= |file| then [] else file[position..if position + count <= |file| then position + count else |file|]
  }

  function LittleEndian(s: Bytes): nat {
    if s == [] then 0 else s[0] + 256 * LittleEndian(s[1..])
  }

  // ---------- variable-length integers ----------

  function Vint(data: Bytes, at: nat, count: nat): (r: Option<(nat, nat)>)
    ensures r.Some? ==> at < r.value.1 <= |data| && r.value.1 <= at + count
    decreases count
  {
    if count == 0 || at >= |data| then None
    else if data[at] < 128 then Some((data[at], at + 1))
    else match Vint(data, at + 1, count - 1)
      case None => None
      case Some((high, next)) => Some((data[at] - 128 + 128 * high, next))
  }

  // Seven bits a byte, nine bytes at most.
  function ReadVint(data: Bytes, at: nat): (r: Option<(nat, nat)>)
    ensures r.Some? ==> at < r.value.1 <= |data|
  {
    Vint(data, at, 9)
  }

  function Scale(k: nat): nat { if k == 0 then 1 else 128 * Scale(k - 1) }

  function EncodeVint(v: nat): Bytes {
    if v < 128 then [v] else [v % 128 + 128] + EncodeVint(v / 128)
  }

  lemma {:induction false} EncodedLength(v: nat, k: nat)
    requires k > 0
    ensures |EncodeVint(v)| <= k <==> v < Scale(k)
  {
    assert Scale(1) == 128 * Scale(0) == 128;
    if v < 128 {
      ScaleGrows(k);
    } else if k > 1 {
      EncodedLength(v / 128, k - 1);
    }
  }

  lemma {:induction false} ScaleGrows(k: nat)
    ensures Scale(k) >= 1 && (k > 0 ==> Scale(k) >= 128)
  {
    if k > 0 { ScaleGrows(k - 1); }
  }

  // Reading an encoded number gives it back when it fits into the allowed bytes, and nothing otherwise.
  lemma {:induction false} VintOfEncoded(data: Bytes, at: nat, v: nat, count: nat)
    requires Holds(data, at, EncodeVint(v))
    ensures Vint(data, at, count)
         == if |EncodeVint(v)| <= count then Some((v, at + |EncodeVint(v)|)) else None
    decreases count
  {
    assert data[at..at + |EncodeVint(v)|][0] == data[at];
    if v >= 128 && count > 0 {
      HoldsConcat(data, at, [v % 128 + 128], EncodeVint(v / 128));
      VintOfEncoded(data, at + 1, v / 128, count - 1);
      assert v % 128 + 128 * (v / 128) == v;
    }
  }

  lemma VintRoundTrip(data: Bytes, at: nat, v: nat)
    requires Holds(data, at, EncodeVint(v))
    ensures ReadVint(data, at)
         == if v < 0x8000_0000_0000_0000 then Some((v, at + |EncodeVint(v)|)) else None
  {
    VintOfEncoded(data, at, v, 9);
    EncodedLength(v, 9);
    Scales();
  }

  lemma Scales()
    ensures Scale(3) == 0x20_0000 && Scale(9) == 0x8000_0000_0000_0000
  {
    assert Scale(3) == 0x20_0000;
    assert Scale(6) == 0x400_0000_0000;
    assert Scale(9) == 0x8000_0000_0000_0000;
  }

  // The program's loop: each byte adds its seven bits at the next scale.
  method DecodeVint(data: Bytes, start: nat) returns (r: Option<(nat, nat)>)
    ensures r == ReadVint(data, start)
  {
    var value: nat, scale: nat, offset: nat := 0, 1, start;
    for n := 0 to 9
      invariant ReadVint(data, start) == match Vint(data, offset, 9 - n)
                                         case None => None
                                         case Some((high, next)) => Some((value + scale * high, next))
    {
      if offset >= |data| { break; }
      var byte := data[offset];
      offset := offset + 1;
      Distribute(value, scale, byte, Vint(data, offset, 8 - n));
      value := value + byte % 128 * scale;
      if byte < 128 { return Some((value, offset)); }
      scale := scale * 128;
    }
    return None;
  }

  lemma Distribute(value: nat, scale: nat, byte: Byte, rest: Option<(nat, nat)>)
    ensures byte < 128 ==> value + scale * byte == value + byte % 128 * scale
    ensures byte >= 128 && rest.Some? ==>
              value + scale * (byte - 128 + 128 * rest.value.0)
              == (value + byte % 128 * scale) + (scale * 128) * rest.value.0
  {
    if byte >= 128 && rest.Some? {
      var h := rest.value.0;
      assert scale * (byte - 128 + 128 * h) == scale * (byte - 128) + scale * (128 * h);
      assert scale * (128 * h) == (scale * 128) * h;
    }
  }

  method WriteVint(v: nat) returns (data: Bytes)
    ensures data == EncodeVint(v)
  {
    data := [];
    var value := v;
    while value > 127
      invariant data + EncodeVint(value) == EncodeVint(v)
    {
      assert data + EncodeVint(value) == (data + [value % 128 + 128]) + EncodeVint(value / 128);
      data := data + [value % 128 + 128];
      value := value / 128;
    }
    data := data + [value];
  }

  // ---------- one RAR5 header ----------

  // No record of the extra area is malformed or marks an encrypted file.
  predicate ExtraReadable(header: Bytes, at: nat)
    decreases |header| - at
  {
    at >= |header| ||
    match ReadVint(header, at)
    case None => false
    case Some((size, start)) =>
      size > 0 && start + size <= |header|
      && (match ReadVint(header[..start + size], start) case None => false case Some((kind, _)) => kind != 1)
      && ExtraReadable(header, start + size)
  }

  method CheckExtra(header: Bytes, start: nat) returns (ok: bool)
    ensures ok == ExtraReadable(header, start)
  {
    hide ReadVint;
    var at := start;
    while at < |header|
      invariant ExtraReadable(header, start) == ExtraReadable(header, at)
      decreases |header| - at
    {
      var size := DecodeVint(header, at);
      if size.None? { return false; }
      var end := size.value.1 + size.value.0;
      if size.value.0 == 0 || end > |header| { return false; }
      var kind := DecodeVint(header[..end], size.value.1);
      if kind.None? || kind.value.0 == 1 { return false; }
      at := end;
    }
    return true;
  }

  function Rar5Member(header: Bytes, at: nat): Option<Member> {
    var (flags, o1) :- ReadVint(header, at);
    var (size, o2) :- ReadVint(header, o1);
    var (attributes, o3) :- ReadVint(header, o2);
    var _ :- Need(flags / 8 % 2 == 0);
    var o4 := if flags / 2 % 2 == 1 then o3 + 4 else o3;
    if flags / 4 % 2 == 1 then
      if o4 + 4 > |header| then None else Some(Member(size, Some(LittleEndian(header[o4..o4 + 4]))))
    else if flags % 2 == 1 then Some(Member(size, None))
    else None
  }

  function Rar5Fields(header: Bytes, start: nat, first: bool): Option<Fields> {
    var (kind, o1) :- ReadVint(header, start);
    var _ :- Need(kind != 4 && (first ==> kind == 1));
    var (flags, o2) :- ReadVint(header, o1);
    var _ :- Need(flags / 8 % 4 == 0);
    var (extraSize, o3) :- if flags % 2 == 1 then ReadVint(header, o2) else Some((0, o2));
    var (dataSize, o4) :- if flags / 2 % 2 == 1 then ReadVint(header, o3) else Some((0, o3));
    var _ :- Need(extraSize <= |header| - o4);
    var _ :- Need(kind == 2 && extraSize > 0 ==> ExtraReadable(header, |header| - extraSize));
    match kind
    case 1 =>
      var (mainFlags, o5) :- ReadVint(header, o4);
      var _ :- Need(mainFlags % 4 == 0);
      Some(Fields(dataSize, None, false))
    case 2 =>
      var member :- Rar5Member(header, o4);
      Some(Fields(dataSize, Some(member), false))
    case 3 => Some(Fields(dataSize, None, false))
    case 5 =>
      var (endFlags, o5) :- ReadVint(header, o4);
      var _ :- Need(endFlags % 2 == 0);
      Some(Fields(dataSize, None, true))
    case _ => None
  }

  // The header at a position, with its length and the place its fields start.
  function Rar5Header(file: Bytes, position: nat, crc: Bytes -> Word32): Option<(Bytes, nat)> {
    var prefix := Pread(file, 16, position);
    var _ :- Need(|prefix| >= 7);
    var (headerDataSize, offset) :- ReadVint(prefix, 4);
    var _ :- Need(offset <= 7 && headerDataSize <= MAX_HEADER);
    var header := Pread(file, offset + headerDataSize, position);
    var _ :- Need(|header| == offset + headerDataSize && crc(header[4..]) == LittleEndian(header[..4]));
    Some((header, offset))
  }

  // ---------- one RAR4 header ----------

  function Rar4Header(file: Bytes, position: nat, crc: Bytes -> Word32): Option<Bytes> {
    var prefix := Pread(file, 16, position);
    var _ :- Need(|prefix| >= 7);
    var size := LittleEndian(prefix[5..7]);
    var _ :- Need(size >= 7);
    var header := Pread(file, size, position);
    var _ :- Need(|header| == size && crc(header[2..]) % 0x1_0000 == LittleEndian(prefix[..2]));
    Some(header)
  }

  function Rar4Fields(header: Bytes, first: bool): Option<Fields>
    requires |header| >= 7
  {
    var kind, flags := header[2], LittleEndian(header[3..5]);
    var large := (kind == 0x74 || kind == 0x7a) && flags / 0x100 % 2 == 1;
    var _ :- Need(first ==> kind == 0x73 && |header| >= 13);
    var _ :- Need(kind == 0x73 ==> flags / 0x80 % 2 == 0 && flags % 2 == 0);
    var _ :- Need(kind == 0x74 ==> flags % 4 == 0 && flags / 4 % 2 == 0);
    var hasData := flags / 0x8000 % 2 == 1;
    var _ :- Need(hasData ==> |header| >= 11);
    var _ :- Need(large ==> |header| >= 40);
    var low := if hasData then LittleEndian(header[7..11]) else 0;
    var dataSize := if large then low + 0x1_0000_0000 * LittleEndian(header[32..36]) else low;
    var _ :- Need(kind == 0x74 ==> |header| >= 32);
    var _ :- Need(kind == 0x7b ==> flags % 2 == 0);
    var _ :- Need(0x73 <= kind < 0x7c);
    if kind != 0x74 then Some(Fields(dataSize, None, kind == 0x7b))
    else
      var size := LittleEndian(header[11..15]) + if large then 0x1_0000_0000 * LittleEndian(header[36..40]) else 0;
      Some(Fields(dataSize, Some(Member(size, Some(LittleEndian(header[16..20])))), false))
  }

  // ---------- the walk over the blocks ----------

  function BlockAt(file: Bytes, kind: Kind, position: nat, first: bool, crc: Bytes -> Word32): Option<Block> {
    match kind
    case Rar4 =>
      var header :- Rar4Header(file, position, crc);
      var fields :- Rar4Fields(header, first);
      Some(Block(|header| + fields.dataSize, fields.member, fields.end))
    case Rar5 =>
      var (header, offset) :- Rar5Header(file, position, crc);
      var fields :- Rar5Fields(header, offset, first);
      Some(Block(|header| + fields.dataSize, fields.member, fields.end))
  }

  function FirstPosition(kind: Kind): nat { if kind == Rar4 then 7 else 8 }

  function Listed(member: Option<Member>): seq<Member> { if member.Some? then [member.value] else [] }

  method ValidateRar(file: Bytes, kind: Kind, maxHeaders: nat, crc: Bytes -> Word32) returns (r: Option<seq<Member>>)
    ensures r.Some? ==> exists blocks :: Framed(file, kind, blocks, crc) && |blocks| <= maxHeaders
                                         && r.value == Members(blocks)
    ensures r.None? ==> forall blocks :: |blocks| <= maxHeaders ==> !Framed(file, kind, blocks, crc)
  {
    hide BlockAt, Chained, Listed, TotalSize, Members;
    var position := FirstPosition(kind);
    var members: seq<Member> := [];
    ghost var walked: seq<Block> := [];
    NothingWalked(file, kind, crc);
    for number := 0 to maxHeaders
      invariant |walked| == number && members == Members(walked)
      invariant Chained(file, kind, walked, crc) && position == FirstPosition(kind) + TotalSize(walked)
      invariant forall i :: 0 <= i < |walked| ==> !walked[i].end
    {
      var found := BlockAt(file, kind, position, number == 0, crc);
      forall blocks: seq<Block> | Framed(file, kind, blocks, crc)
        ensures walked < blocks && found == Some(blocks[number])
        ensures position + blocks[number].size <= |file|
        ensures blocks[number].end ==> blocks == walked + [blocks[number]]
      {
        WalkFollows(file, kind, walked, blocks, crc);
      }
      if found.None? { return None; }
      var block := found.value;
      ChainGrows(file, kind, walked, block, crc);
      walked := walked + [block];
      members := members + Listed(block.member);
      position := position + block.size;
      if position > |file| { return None; }
      if block.end {
        if position != |file| { return None; }
        return Some(members);
      }
    }
    forall blocks: seq<Block> | Framed(file, kind, blocks, crc)
      ensures |blocks| > maxHeaders
    {
      WalkFollows(file, kind, walked, blocks, crc);
    }
    return None;
  }

  function TotalSize(blocks: seq<Block>): nat {
    if blocks == [] then 0 else TotalSize(blocks[..|blocks| - 1]) + blocks[|blocks| - 1].size
  }

  // The manifest entries, in the order of their blocks.
  function Members(blocks: seq<Block>): seq<Member> {
    if blocks == [] then [] else Members(blocks[..|blocks| - 1]) + Listed(blocks[|blocks| - 1].member)
  }

  // Each block starts where the one before it ends.
  predicate Chained(file: Bytes, kind: Kind, blocks: seq<Block>, crc: Bytes -> Word32) {
    forall i :: 0 <= i < |blocks| ==>
      BlockAt(file, kind, FirstPosition(kind) + TotalSize(blocks[..i]), i == 0, crc) == Some(blocks[i])
  }

  // The blocks tile the file from the signature to its end, and only the last is an end block.
  predicate Framed(file: Bytes, kind: Kind, blocks: seq<Block>, crc: Bytes -> Word32) {
    blocks != [] && Chained(file, kind, blocks, crc)
    && (forall i :: 0 <= i < |blocks| ==> (blocks[i].end <==> i == |blocks| - 1))
    && FirstPosition(kind) + TotalSize(blocks) == |file|
  }

  lemma NothingWalked(file: Bytes, kind: Kind, crc: Bytes -> Word32)
    ensures Chained(file, kind, [], crc) && TotalSize([]) == 0 && Members([]) == []
  {}

  lemma ChainGrows(file: Bytes, kind: Kind, walked: seq<Block>, block: Block, crc: Bytes -> Word32)
    requires Chained(file, kind, walked, crc)
    requires BlockAt(file, kind, FirstPosition(kind) + TotalSize(walked), walked == [], crc) == Some(block)
    ensures Chained(file, kind, walked + [block], crc)
    ensures TotalSize(walked + [block]) == TotalSize(walked) + block.size
    ensures Members(walked + [block]) == Members(walked) + Listed(block.member)
  {
    hide BlockAt, Listed, TotalSize;
    var all := walked + [block];
    assert all[..|walked|] == walked;
    SizeSnoc(walked, block);
    forall i | 0 <= i < |walked|
      ensures all[..i] == walked[..i]
    {}
  }

  lemma SizeSnoc(blocks: seq<Block>, block: Block)
    ensures TotalSize(blocks + [block]) == TotalSize(blocks) + block.size
  {
    assert (blocks + [block])[..|blocks|] == blocks;
  }

  lemma {:induction false} SizesGrow(blocks: seq<Block>, k: nat)
    requires k <= |blocks|
    ensures TotalSize(blocks[..k]) <= TotalSize(blocks)
  {
    if k < |blocks| {
      SizesGrow(blocks[..|blocks| - 1], k);
      assert blocks[..|blocks| - 1][..k] == blocks[..k];
    } else {
      assert blocks[..k] == blocks;
    }
  }

  // Any other way to frame the file starts with the blocks already walked.
  lemma {:induction false} WalkIsPrefix(file: Bytes, kind: Kind, walked: seq<Block>, blocks: seq<Block>,
      crc: Bytes -> Word32)
    requires Chained(file, kind, walked, crc) && Framed(file, kind, blocks, crc)
    requires forall i :: 0 <= i < |walked| ==> !walked[i].end
    ensures walked < blocks
  {
    hide BlockAt, TotalSize;
    var n := |walked|;
    if n > 0 {
      var before := walked[..n - 1];
      forall i | 0 <= i < n - 1
        ensures before[..i] == walked[..i]
      {}
      WalkIsPrefix(file, kind, before, blocks, crc);
      assert before == blocks[..n - 1];
      assert blocks[n - 1] == walked[n - 1];
      assert walked == before + [walked[n - 1]];
    }
  }

  lemma NextInFrame(file: Bytes, kind: Kind, blocks: seq<Block>, n: nat, crc: Bytes -> Word32)
    requires Framed(file, kind, blocks, crc) && n < |blocks|
    ensures var position := FirstPosition(kind) + TotalSize(blocks[..n]);
            BlockAt(file, kind, position, n == 0, crc) == Some(blocks[n]) && position + blocks[n].size <= |file|
    ensures blocks[n].end ==> n == |blocks| - 1
  {
    hide BlockAt, TotalSize;
    SizeSnoc(blocks[..n], blocks[n]);
    assert blocks[..n + 1] == blocks[..n] + [blocks[n]];
    SizesGrow(blocks, n + 1);
  }

  lemma PrefixParts(walked: seq<Block>, blocks: seq<Block>)
    requires walked < blocks
    ensures blocks[..|walked|] == walked
    ensures |walked| == |blocks| - 1 ==> blocks == walked + [blocks[|walked|]]
  {}

  // So the block found next is the next one of any framing, and lies within the file.
  lemma WalkFollows(file: Bytes, kind: Kind, walked: seq<Block>, blocks: seq<Block>, crc: Bytes -> Word32)
    requires Chained(file, kind, walked, crc) && Framed(file, kind, blocks, crc)
    requires forall i :: 0 <= i < |walked| ==> !walked[i].end
    ensures walked < blocks
    ensures var next := blocks[|walked|];
            BlockAt(file, kind, FirstPosition(kind) + TotalSize(walked), walked == [], crc) == Some(next)
            && FirstPosition(kind) + TotalSize(walked) + next.size <= |file|
            && (next.end ==> blocks == walked + [next])
  {
    hide *;
    WalkIsPrefix(file, kind, walked, blocks, crc);
    NextInFrame(file, kind, blocks, |walked|, crc);
    PrefixParts(walked, blocks);
  }
}
