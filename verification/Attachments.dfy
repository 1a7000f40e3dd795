// Attachments of a large media file: reserved when the file is probed, extracted under one budget afterwards.
module Attachments {
  import opened ByteStrings
  import opened Options

  // One stream of a probed file.  Pictures and chapter text declare no size.
  datatype Stream =
    | Track
    | Declared(index: int, size: int)
    | Picture(index: int)
    | ChapterText(index: int, samples: int)

  datatype Attachment = Attachment(index: int, size: Option<nat>, samples: Option<nat>)

  datatype Budget = Budget(perObject: nat, total: nat, native: nat)
  {
    // The settings check made before any scan.
    predicate Valid() { 1 <= perObject <= total && native >= 1 }
  }

  datatype Refused = TooMany | BadIndex | BadSamples | BadSize | OverBudget | Incomplete

  const MAX_ATTACHMENTS: nat := 64
  const MAX_CHAPTER_SAMPLES: int := 4096

  // What one attachment reserves.
  function Reserve(a: Attachment, budget: Budget): nat {
    match a.size case Some(n) => n case None => budget.perObject
  }

  function Reserved(attachments: seq<Attachment>, budget: Budget): nat {
    if attachments == [] then 0
    else Reserved(attachments[..|attachments| - 1], budget) + Reserve(attachments[|attachments| - 1], budget)
  }

  // Attachments within every limit of the probe.
  predicate Admissible(attachments: seq<Attachment>, budget: Budget) {
    |attachments| <= MAX_ATTACHMENTS && Reserved(attachments, budget) <= budget.total
    && forall a <- attachments :: a.size.Some? ==> 0 < a.size.value <= budget.perObject
  }

  function Object(s: Stream): Attachment
    requires s != Track
  {
    match s
    case Declared(index, size) => Attachment(index, if size > 0 then Some(size) else None, None)
    case Picture(index) => Attachment(index, None, None)
    case ChapterText(index, samples) => Attachment(index, None, if samples > 0 then Some(samples) else None)
  }

  // The attachments of a file, in stream order.
  function Objects(streams: seq<Stream>): seq<Attachment> {
    if streams == [] then []
    else
      var front, last := streams[..|streams| - 1], streams[|streams| - 1];
      Objects(front) + if last == Track then [] else [Object(last)]
  }

  predicate Sound(s: Stream, budget: Budget) {
    match s
    case Track => true
    case Declared(index, size) => index >= 0 && 0 < size <= budget.perObject
    case Picture(index) => index >= 0
    case ChapterText(index, samples) => index >= 0 && 0 < samples <= MAX_CHAPTER_SAMPLES
  }

  function Indices(attachments: seq<Attachment>): set<int> { set a <- attachments :: a.index }

  predicate DistinctIndices(attachments: seq<Attachment>) {
    forall i, j :: 0 <= i < j < |attachments| ==> attachments[i].index != attachments[j].index
  }

  predicate Accepted(streams: seq<Stream>, budget: Budget) {
    (forall s <- streams :: Sound(s, budget)) && DistinctIndices(Objects(streams))
    && Admissible(Objects(streams), budget)
  }

  lemma AdmissibleGrows(attachments: seq<Attachment>, a: Attachment, budget: Budget)
    ensures Admissible(attachments + [a], budget)
       <==> Admissible(attachments, budget) && |attachments| < MAX_ATTACHMENTS
            && Reserved(attachments, budget) + Reserve(a, budget) <= budget.total
            && (a.size.Some? ==> 0 < a.size.value <= budget.perObject)
    ensures Reserved(attachments + [a], budget) == Reserved(attachments, budget) + Reserve(a, budget)
  {
    var all := attachments + [a];
    assert all[..|attachments|] == attachments;
    assert forall b :: b in all <==> b in attachments || b == a;
  }

  lemma IndicesGrow(attachments: seq<Attachment>, a: Attachment)
    ensures Indices(attachments + [a]) == Indices(attachments) + {a.index}
    ensures DistinctIndices(attachments + [a]) <==> DistinctIndices(attachments) && a.index !in Indices(attachments)
  {
    var all := attachments + [a];
    assert forall b :: b in all <==> b in attachments || b == a;
    if DistinctIndices(all) {
      assert forall i :: 0 <= i < |attachments| ==>
          all[i] == attachments[i] && all[i].index != all[|attachments|].index;
    }
  }

  // One more stream is accepted exactly when the checks made for it hold.
  lemma AcceptedGrows(front: seq<Stream>, s: Stream, budget: Budget)
    ensures Accepted(front + [s], budget)
       <==> Accepted(front, budget) && Sound(s, budget)
            && (s != Track ==> |Objects(front)| < MAX_ATTACHMENTS && s.index !in Indices(Objects(front))
                               && Reserved(Objects(front), budget) + Reserve(Object(s), budget) <= budget.total)
    ensures Objects(front + [s]) == Objects(front) + if s == Track then [] else [Object(s)]
  {
    hide Admissible, DistinctIndices, Indices;
    var all := front + [s];
    assert all[..|front|] == front;
    assert forall t :: t in all <==> t in front || t == s;
    if s != Track {
      AdmissibleGrows(Objects(front), Object(s), budget);
      IndicesGrow(Objects(front), Object(s));
    } else {
      assert Objects(all) == Objects(front);
    }
  }

  lemma {:induction false} AcceptedFront(streams: seq<Stream>, n: nat, budget: Budget)
    requires n <= |streams| && Accepted(streams, budget)
    ensures Accepted(streams[..n], budget)
  {
    hide Accepted;
    if n < |streams| {
      var front := streams[..|streams| - 1];
      assert streams == front + [streams[|streams| - 1]];
      AcceptedGrows(front, streams[|streams| - 1], budget);
      AcceptedFront(front, n, budget);
      assert front[..n] == streams[..n];
    } else {
      assert streams[..n] == streams;
    }
  }

  method ParseProbe(streams: seq<Stream>, budget: Budget) returns (r: Result<seq<Attachment>, Refused>)
    ensures r.Ok? <==> Accepted(streams, budget)
    ensures r.Ok? ==> r.value == Objects(streams)
  {
    hide Accepted, Objects, Indices;
    var attachments: seq<Attachment> := [];
    var reserved := 0;
    var indices: set<int> := {};
    NothingAccepted(budget);
    assert streams[..0] == [];
    for n := 0 to |streams|
      invariant attachments == Objects(streams[..n]) && Accepted(streams[..n], budget)
      invariant reserved == Reserved(attachments, budget) && indices == Indices(attachments)
    {
      var stream := streams[n];
      if Accepted(streams, budget) { AcceptedFront(streams, n + 1, budget); }
      assert streams[..n + 1] == streams[..n] + [stream];
      AcceptedGrows(streams[..n], stream, budget);
      if stream == Track { continue; }
      if |attachments| >= MAX_ATTACHMENTS { return Err(TooMany); }
      if stream.index < 0 || stream.index in indices { return Err(BadIndex); }
      IndicesGrow(attachments, Object(stream));
      AdmissibleGrows(attachments, Object(stream), budget);
      indices := indices + {stream.index};
      var size: Option<nat>, samples: Option<nat> := None, None;
      if stream.ChapterText? {
        if !(0 < stream.samples <= MAX_CHAPTER_SAMPLES) { return Err(BadSamples); }
        samples := Some(stream.samples);
      }
      if stream.Declared? {
        if !(0 < stream.size <= budget.perObject) { return Err(BadSize); }
        size := Some(stream.size);
        reserved := reserved + stream.size;
      } else {
        reserved := reserved + budget.perObject;
      }
      if reserved > budget.total { return Err(OverBudget); }
      attachments := attachments + [Attachment(stream.index, size, samples)];
    }
    assert streams[..|streams|] == streams;
    return Ok(attachments);
  }

  lemma NothingAccepted(budget: Budget)
    ensures Accepted([], budget) && Objects([]) == [] && Reserved([], budget) == 0 && Indices([]) == {}
  {}

  // How many bytes may be extracted for an attachment once `extracted` bytes are spent.
  function Allowance(a: Attachment, budget: Budget, extracted: int): int {
    var open := Min3(budget.perObject, budget.total - extracted, budget.native);
    match a.size case Some(n) => Min3(open, n, open) case None => open
  }

  function Least(a: int, b: int): int { if a <= b then a else b }

  function Min3(a: int, b: int, c: int): int {
    if a <= b && a <= c then a else if b <= c then b else c
  }

  // What an attachment is allowed before anything is spent.
  function FullAllowance(a: Attachment, budget: Budget): int { Allowance(a, budget, 0) }

  // Extraction result of one attachment: its bytes, and whether the native scan found malware in them.
  datatype Content = Content(length: nat, infected: bool)

  predicate Complete(a: Attachment, length: nat, allowance: int) {
    0 < length <= allowance && (a.size.Some? ==> length == a.size.value)
  }

  function Spent(contents: seq<Content>): nat {
    if contents == [] then 0 else Spent(contents[..|contents| - 1]) + contents[|contents| - 1].length
  }

  // For every admitted probe the budget check never fires: each attachment is offered its full allowance,
  // and the extracted bytes stay within the budget.
  method ScanAttachments(attachments: seq<Attachment>, budget: Budget, contents: seq<Content>)
    returns (r: Result<bool, Refused>, extracted: nat, scanned: nat)
    requires budget.Valid() && Admissible(attachments, budget) && |contents| == |attachments|
    ensures r != Err(OverBudget)
    ensures extracted <= budget.total && scanned <= |attachments| && extracted == Spent(contents[..scanned])
    ensures r == Ok(true) ==> scanned > 0 && contents[scanned - 1].infected
    ensures r == Ok(false) <==> forall i :: 0 <= i < |attachments| ==>
                                  !contents[i].infected
                                  && Complete(attachments[i], contents[i].length, FullAllowance(attachments[i], budget))
    ensures r == Ok(false) ==> scanned == |attachments|
    ensures r == Ok(false) ==> forall i :: 0 <= i < |attachments| ==>
              0 < contents[i].length <= budget.perObject && contents[i].length <= budget.native
              && (attachments[i].size.Some? ==> contents[i].length == attachments[i].size.value)
    ensures forall i :: 0 <= i < scanned ==>
              Complete(attachments[i], contents[i].length, FullAllowance(attachments[i], budget))
  {
    hide Allowance, FullAllowance, Admissible, Complete, Reserved;
    extracted, scanned := 0, 0;
    NothingReserved(budget);
    assert attachments[..0] == [] && contents[..0] == [];
    for n := 0 to |attachments|
      invariant scanned == n && extracted == Spent(contents[..n])
      invariant extracted <= Reserved(attachments[..n], budget) && extracted <= budget.total
      invariant forall i :: 0 <= i < n ==>
                  0 < contents[i].length <= budget.perObject && contents[i].length <= budget.native
                  && (attachments[i].size.Some? ==> contents[i].length == attachments[i].size.value)
      invariant forall i :: 0 <= i < n ==>
                  !contents[i].infected
                  && Complete(attachments[i], contents[i].length, FullAllowance(attachments[i], budget))
    {
      var a := attachments[n];
      assert contents[..n + 1][..n] == contents[..n];
      AllowanceIsFull(attachments, n, budget, extracted);
      var maximum := Allowance(a, budget, extracted);
      if maximum <= 0 { return Err(OverBudget), extracted, scanned; }
      if !Complete(a, contents[n].length, maximum) { return Err(Incomplete), extracted, scanned; }
      WithinReserve(a, contents[n].length, maximum, budget, extracted);
      WholeContent(a, contents[n].length, maximum, budget);
      extracted := extracted + contents[n].length;
      scanned := scanned + 1;
      if contents[n].infected {
        assert attachments[..|attachments|] == attachments;
        return Ok(true), extracted, scanned;
      }
    }
    assert attachments[..|attachments|] == attachments;
    return Ok(false), extracted, scanned;
  }

  lemma NothingReserved(budget: Budget)
    ensures Reserved([], budget) == 0
  {}

  // While no more is spent than was reserved, the budget has room for the next attachment.
  lemma AllowanceIsFull(attachments: seq<Attachment>, n: nat, budget: Budget, extracted: nat)
    requires budget.Valid() && Admissible(attachments, budget) && n < |attachments|
    requires extracted <= Reserved(attachments[..n], budget)
    ensures var a := attachments[n];
            Allowance(a, budget, extracted) == FullAllowance(a, budget) > 0
            && (a.size.Some? ==> a.size.value <= budget.perObject)
            && FullAllowance(a, budget)
               == Least(if a.size.Some? then a.size.value else budget.perObject, budget.native)
            && Reserved(attachments[..n + 1], budget) == Reserved(attachments[..n], budget) + Reserve(a, budget)
            && Reserved(attachments[..n + 1], budget) <= budget.total
  {
    assert attachments[..n + 1][..n] == attachments[..n];
    ReservedGrows(attachments, n + 1, budget);
    assert attachments[n] in attachments;
  }

  lemma WithinReserve(a: Attachment, length: nat, allowance: int, budget: Budget, extracted: int)
    requires allowance == Allowance(a, budget, extracted) && Complete(a, length, allowance)
    ensures length <= Reserve(a, budget)
  {}

  lemma WholeContent(a: Attachment, length: nat, allowance: int, budget: Budget)
    requires Complete(a, length, allowance)
    requires allowance == Least(if a.size.Some? then a.size.value else budget.perObject, budget.native)
    requires a.size.Some? ==> a.size.value <= budget.perObject
    ensures 0 < length <= budget.perObject && length <= budget.native && (a.size.Some? ==> length == a.size.value)
  {}

  lemma {:induction false} ReservedGrows(attachments: seq<Attachment>, n: nat, budget: Budget)
    requires n <= |attachments|
    ensures Reserved(attachments[..n], budget) <= Reserved(attachments, budget)
  {
    if n < |attachments| {
      var front := attachments[..|attachments| - 1];
      ReservedGrows(front, n, budget);
      assert front[..n] == attachments[..n];
    } else {
      assert attachments[..n] == attachments;
    }
  }

  // ---------- chapter text ----------

  // One packet of a chapter track, as ffprobe reports it.
  datatype Packet = Packet(stream: int, position: int, size: int, corrupt: bool)

  // The packet is whole, lies after the previous one and inside the file, and states a text that fits into it.
  predicate ValidPacket(p: Packet, file: Bytes, index: int, previousEnd: nat) {
    p.stream == index && !p.corrupt && p.size >= 2 && p.position >= previousEnd && p.position + p.size <= |file|
    && file[p.position] as int * 256 + file[p.position + 1] as int <= p.size - 2
  }

  function EndOf(packets: seq<Packet>): int {
    if packets == [] then 0 else packets[|packets| - 1].position + packets[|packets| - 1].size
  }

  predicate ValidPackets(packets: seq<Packet>, file: Bytes, index: int) {
    forall i :: 0 <= i < |packets| ==> EndOf(packets[..i]) >= 0 && ValidPacket(packets[i], file, index,
        EndOf(packets[..i]))
  }

  // The bytes of the packets, prefixes and trailing boxes included.
  function Bodies(packets: seq<Packet>, file: Bytes, index: int): Bytes
    requires ValidPackets(packets, file, index)
  {
    if packets == [] then []
    else
      var p := packets[|packets| - 1];
      FrontIsValid(packets, file, index);
      Bodies(packets[..|packets| - 1], file, index) + file[p.position..p.position + p.size]
  }

  lemma FrontIsValid(packets: seq<Packet>, file: Bytes, index: int)
    requires packets != [] && ValidPackets(packets, file, index)
    ensures ValidPackets(packets[..|packets| - 1], file, index)
  {
    var front := packets[..|packets| - 1];
    forall i | 0 <= i < |front|
      ensures EndOf(front[..i]) >= 0 && ValidPacket(front[i], file, index, EndOf(front[..i]))
    {
      assert front[..i] == packets[..i];
    }
  }

  // The packets are all those that the track declares and the demuxer reports.
  predicate WholeTrack(packets: seq<Packet>, reported: int, declared: int) {
    0 < |packets| == reported == declared <= MAX_CHAPTER_SAMPLES
  }

  method ReadChapterTrack(packets: seq<Packet>, reported: int, declared: int, file: Bytes, index: int, maximum: nat)
    returns (r: Result<Bytes, Refused>)
    ensures r.Ok? <==> WholeTrack(packets, reported, declared) && ValidPackets(packets, file, index)
                       && |Bodies(packets, file, index)| <= maximum
    ensures r.Ok? ==> r.value == Bodies(packets, file, index)
  {
    if !(0 < |packets| == reported == declared <= MAX_CHAPTER_SAMPLES) { return Err(Incomplete); }
    r := ReadPackets(packets, file, index, maximum);
  }

  method ReadPackets(packets: seq<Packet>, file: Bytes, index: int, maximum: nat) returns (r: Result<Bytes, Refused>)
    ensures r.Ok? <==> ValidPackets(packets, file, index) && |Bodies(packets, file, index)| <= maximum
    ensures r.Ok? ==> r.value == Bodies(packets, file, index)
  {
    hide ValidPackets, Bodies, EndOf;
    var content: Bytes := [];
    var previousEnd: nat := 0;
    NoPackets(file, index);
    assert packets[..0] == [];
    for n := 0 to |packets|
      invariant ValidPackets(packets[..n], file, index) && content == Bodies(packets[..n], file, index)
      invariant previousEnd == EndOf(packets[..n]) && |content| <= maximum
    {
      var p := packets[n];
      if !ValidPacket(p, file, index, previousEnd) {
        InvalidPacket(packets, n, file, index);
        return Err(Incomplete);
      }
      PacketAdded(packets, n, file, index);
      EndOfNext(packets, n);
      if |content| + p.size > maximum {
        if ValidPackets(packets, file, index) { BodiesGrow(packets, n + 1, file, index); }
        return Err(Incomplete);
      }
      content := content + file[p.position..p.position + p.size];
      previousEnd := p.position + p.size;
    }
    assert packets[..|packets|] == packets;
    return Ok(content);
  }

  lemma NoPackets(file: Bytes, index: int)
    ensures ValidPackets([], file, index) && Bodies([], file, index) == [] && EndOf([]) == 0
  {}

  lemma InvalidPacket(packets: seq<Packet>, n: nat, file: Bytes, index: int)
    requires n < |packets| && EndOf(packets[..n]) >= 0
    requires !ValidPacket(packets[n], file, index, EndOf(packets[..n]))
    ensures !ValidPackets(packets, file, index)
  {
    hide ValidPacket;
  }

  lemma EndOfNext(packets: seq<Packet>, n: nat)
    requires n < |packets|
    ensures EndOf(packets[..n + 1]) == packets[n].position + packets[n].size
  {}

  lemma PacketAdded(packets: seq<Packet>, n: nat, file: Bytes, index: int)
    requires n < |packets| && ValidPackets(packets[..n], file, index) && EndOf(packets[..n]) >= 0
    requires ValidPacket(packets[n], file, index, EndOf(packets[..n]))
    ensures ValidPackets(packets[..n + 1], file, index)
    ensures var p := packets[n];
            Bodies(packets[..n + 1], file, index) == Bodies(packets[..n], file, index)
                + file[p.position..p.position + p.size]
  {
    hide ValidPacket;
    var all := packets[..n + 1];
    forall i | 0 <= i < |all|
      ensures EndOf(all[..i]) >= 0 && ValidPacket(all[i], file, index, EndOf(all[..i]))
    {
      if i < n { assert all[..i] == packets[..n][..i]; } else { assert all[..i] == packets[..n]; }
    }
    assert all[..n] == packets[..n];
  }

  lemma {:induction false} BodiesGrow(packets: seq<Packet>, n: nat, file: Bytes, index: int)
    requires n <= |packets| && ValidPackets(packets, file, index)
    ensures ValidPackets(packets[..n], file, index)
    ensures |Bodies(packets[..n], file, index)| <= |Bodies(packets, file, index)|
  {
    if n < |packets| {
      var front := packets[..|packets| - 1];
      FrontIsValid(packets, file, index);
      BodiesGrow(front, n, file, index);
      assert front[..n] == packets[..n];
    } else {
      assert packets[..n] == packets;
    }
  }

  // Read one by one: every packet is of this track, whole, inside the file and behind the one before it, and the
  // text it states fits into it.
  lemma PacketsExactly(packets: seq<Packet>, file: Bytes, index: int)
    ensures ValidPackets(packets, file, index)
       <==> forall i :: 0 <= i < |packets| ==>
              var p := packets[i];
              p.stream == index && !p.corrupt && p.size >= 2 && 0 <= p.position && p.position + p.size <= |file|
              && (i > 0 ==> packets[i - 1].position + packets[i - 1].size <= p.position)
              && 2 + 256 * (file[p.position] as int) + file[p.position + 1] as int <= p.size
  {
    forall i | 0 <= i < |packets|
      ensures EndOf(packets[..i]) == if i == 0 then 0 else packets[i - 1].position + packets[i - 1].size
    {}
  }

  // What the probe admits: each stream by itself, no index twice, and all of them within the limits together.
  lemma AcceptedLimits(streams: seq<Stream>, budget: Budget)
    requires Accepted(streams, budget)
    ensures forall s <- streams :: s != Track ==> s.index >= 0
    ensures forall s <- streams :: s.Declared? ==> 0 < s.size <= budget.perObject
    ensures forall s <- streams :: s.ChapterText? ==> 0 < s.samples <= 4096
    ensures |Objects(streams)| <= 64 && Reserved(Objects(streams), budget) <= budget.total
    ensures forall i, j :: 0 <= i < j < |Objects(streams)| ==> Objects(streams)[i].index != Objects(streams)[j].index
  {
    hide Objects, Reserved;
  }

  // No byte of the file is taken twice: the packets follow one another.
  lemma {:induction false} PacketsAreDisjoint(packets: seq<Packet>, file: Bytes, index: int, i: nat, j: nat)
    requires ValidPackets(packets, file, index) && i < j < |packets|
    ensures packets[i].position + packets[i].size <= packets[j].position
    ensures |Bodies(packets, file, index)| <= |file|
  {
    BodiesFit(packets, file, index);
    assert packets[..j][|packets[..j]| - 1] == packets[j - 1];
    assert EndOf(packets[..j]) == packets[j - 1].position + packets[j - 1].size;
    if i < j - 1 { PacketsAreDisjoint(packets, file, index, i, j - 1); }
  }

  lemma {:induction false} BodiesFit(packets: seq<Packet>, file: Bytes, index: int)
    requires ValidPackets(packets, file, index)
    ensures |Bodies(packets, file, index)| <= EndOf(packets) <= |file|
  {
    if packets != [] {
      var front := packets[..|packets| - 1];
      FrontIsValid(packets, file, index);
      BodiesFit(front, file, index);
      assert ValidPacket(packets[|packets| - 1], file, index, EndOf(front));
    }
  }
}
