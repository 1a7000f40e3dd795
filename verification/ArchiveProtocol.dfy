// Archive inspection: a helper extracts one member at a time, and the parent scans it before the helper goes on.
module ArchiveProtocol {
  import opened ByteStrings
  import opened Numerals
  import opened Options

  datatype Limits = Limits(expandedBytes: nat, files: nat, depth: nat)

  // What a stored member turns out to be once it is written out.
  datatype Node = Plain | Nested(framed: bool, entries: seq<Entry>)

  datatype EntryKind = File | Directory

  // One entry as libarchive reports it.  `sound` stands for the name, encryption, link and manifest checks,
  // `chunks` for the bytes each read returns before the end of the data.
  datatype Entry = Entry(name: Bytes, suffix: Bytes, kind: EntryKind, sound: bool, size: int,
                         chunks: seq<nat>, checksumOk: bool, node: Node)

  datatype Problem =
    | TooDeep | BadContainer | TooManyEntries | Unsupported | OverBudget | BadDirectory | FileExists
    | TooMuchData | Truncated | BadChecksum | NotAcknowledged

  // A member handed to the parent: where it stands in the archive, its file and its size.
  datatype Member = Member(path: seq<Bytes>, file: Bytes, size: nat)

  datatype Leaf = Leaf(path: seq<Bytes>, size: nat)

  // ---------- what an archive holds ----------

  // The plain files of an archive in archive order, nested archives included.
  function Leaves(entries: seq<Entry>, parents: seq<Bytes>): seq<Leaf>
    decreases entries
  {
    if entries == [] then []
    else LeavesOf(entries[0], parents) + Leaves(entries[1..], parents)
  }

  function LeavesOf(e: Entry, parents: seq<Bytes>): seq<Leaf>
    decreases e
  {
    if e.kind == Directory || e.size < 0 then []
    else match e.node
      case Plain => [Leaf(parents + [e.name], e.size)]
      case Nested(_, inner) => Leaves(inner, parents + [e.name])
  }

  lemma {:induction false} LeavesSnoc(entries: seq<Entry>, e: Entry, parents: seq<Bytes>)
    ensures Leaves(entries + [e], parents) == Leaves(entries, parents) + LeavesOf(e, parents)
  {
    if entries == [] {
      assert entries + [e] == [e];
      assert Leaves([e], parents) == LeavesOf(e, parents) + Leaves([], parents);
    } else {
      assert (entries + [e])[1..] == entries[1..] + [e];
      LeavesSnoc(entries[1..], e, parents);
    }
  }

  function AsLeaves(members: seq<Member>): seq<Leaf> {
    seq(|members|, i requires 0 <= i < |members| => Leaf(members[i].path, members[i].size))
  }

  // ---------- file names ----------

  const MEMBER: Bytes := [109, 101, 109, 98, 101, 114, 45]  // "member-"
  const DOT: Byte := 46

  // The number with at least six digits.
  function Padded(n: nat): Bytes {
    var digits := Digits(n);
    if |digits| < 6 then seq(6 - |digits|, _ => ZERO) + digits else digits
  }

  // A file name suffix the helper keeps: nothing, or a dot and one to ten lower-case letters or digits.
  predicate IsSuffix(s: Bytes) {
    s == [] || (s[0] == DOT && 2 <= |s| <= 11 && forall i :: 1 <= i < |s| ==> IsDigit(s[i]) || 97 <= s[i] <= 122)
  }

  function Kept(suffix: Bytes): (s: Bytes)
    ensures IsSuffix(s)
  {
    if IsSuffix(suffix) then suffix else []
  }

  function FileName(n: nat, suffix: Bytes): Bytes { MEMBER + Padded(n) + Kept(suffix) }

  lemma {:induction false} NumberOfPadded(zeros: nat, digits: Bytes)
    requires AllDigits(digits)
    ensures AllDigits(seq(zeros, _ => ZERO) + digits)
    ensures Number(seq(zeros, _ => ZERO) + digits) == Number(digits)
  {
    var s: Bytes := seq(zeros, _ => ZERO) + digits;
    if digits != [] {
      var front := digits[..|digits| - 1];
      assert s[..|s| - 1] == seq(zeros, _ => ZERO) + front;
      NumberOfPadded(zeros, front);
    } else if zeros > 0 {
      assert s[..|s| - 1] == seq(zeros - 1, _ => ZERO) + [];
      NumberOfPadded(zeros - 1, []);
    }
  }

  lemma PaddedIsNumber(n: nat)
    ensures AllDigits(Padded(n)) && Number(Padded(n)) == n && |Padded(n)| >= 6
  {
    var digits := Digits(n);
    NumberOfDigits(n);
    if |digits| < 6 { NumberOfPadded(6 - |digits|, digits); }
  }

  // Different entries never share a file name, whatever their suffixes.
  lemma FileNamesDiffer(n: nat, m: nat, s: Bytes, t: Bytes)
    requires FileName(n, s) == FileName(m, t)
    ensures n == m
  {
    var p, q := Padded(n), Padded(m);
    PaddedIsNumber(n);
    PaddedIsNumber(m);
    hide Padded, Kept, Number;
    Strip(MEMBER, p, Kept(s));
    Strip(MEMBER, q, Kept(t));
    SameDigits(p, q, Kept(s), Kept(t));
  }

  lemma Strip(a: Bytes, b: Bytes, c: Bytes)
    ensures ((a + b) + c)[|a|..] == b + c
  {}

  lemma SameDigits(p: Bytes, q: Bytes, s: Bytes, t: Bytes)
    requires AllDigits(p) && AllDigits(q) && IsSuffix(s) && IsSuffix(t) && p + s == q + t
    ensures p == q
  {
    var all := p + s;
    assert forall i :: 0 <= i < |p| ==> all[i] == p[i] && IsDigit(all[i]);
    assert forall i :: 0 <= i < |q| ==> (q + t)[i] == q[i] && IsDigit((q + t)[i]);
    assert s != [] ==> all[|p|] == DOT;
    assert t != [] ==> (q + t)[|q|] == DOT;
    assert all[..|p|] == p && (q + t)[..|q|] == q;
  }

  // Every file on disk was numbered by one of the first entries.
  ghost predicate Numbered(disk: set<Bytes>, entries: nat) {
    forall f <- disk :: exists n: nat, s :: n <= entries && f == FileName(n, s)
  }

  lemma NumberedGrows(disk: set<Bytes>, more: set<Bytes>, n: nat, m: nat)
    requires Numbered(more, n) && disk <= more && n <= m
    ensures Numbered(disk, m)
  {
    hide FileName;
    forall f <- disk
      ensures exists k: nat, s :: k <= m && f == FileName(k, s)
    {
      var k: nat, s :| k <= n && f == FileName(k, s);
    }
  }

  lemma NameIsNew(disk: set<Bytes>, n: nat, suffix: Bytes)
    requires n > 0 && Numbered(disk, n - 1)
    ensures FileName(n, suffix) !in disk && Numbered(disk + {FileName(n, suffix)}, n)
  {
    hide FileName;
    forall f <- disk
      ensures f != FileName(n, suffix) && exists k: nat, s :: k <= n && f == FileName(k, s)
    {
      var k: nat, s :| k <= n - 1 && f == FileName(k, s);
      if f == FileName(n, suffix) { FileNamesDiffer(k, n, s, suffix); }
    }
  }

  // ---------- the parent ----------

  const MAX_MESSAGE_BYTES: nat := 64 * 1024
  const NEWLINE: Byte := 10

  datatype Message = MemberMessage(member: Member) | Done(entries: nat, expanded: nat, scanned: nat)

  datatype Failure = Oversized | BadMessage | BadMember | TooMany | HelperFailed | NoManifest

  // `decode` reads one line; `acceptable` and `infected` are the identity check and the scan of the n-th member.
  datatype World = World(decode: Bytes -> Option<Message>, acceptable: nat -> bool, infected: nat -> bool)

  // The complete lines of the output, and what follows the last one.
  function Lines(s: Bytes): (seq<Bytes>, Bytes) {
    if s == [] then ([], [])
    else
      var (lines, rest) := Lines(s[..|s| - 1]);
      if s[|s| - 1] == NEWLINE then (lines + [rest], []) else (lines, rest + [s[|s| - 1]])
  }

  lemma {:induction false} LinesOfTail(done: Bytes, tail: Bytes)
    requires NEWLINE !in tail && Lines(done).1 == []
    ensures Lines(done + tail) == (Lines(done).0, tail)
  {
    if tail == [] {
      assert done + tail == done;
    } else {
      var front := tail[..|tail| - 1];
      assert (done + tail)[..|done + tail| - 1] == done + front;
      LinesOfTail(done, front);
      assert tail == front + [tail[|tail| - 1]];
    }
  }

  lemma LineEnds(done: Bytes, line: Bytes)
    requires NEWLINE !in line && Lines(done).1 == []
    ensures Lines(done + line + [NEWLINE]) == (Lines(done).0 + [line], [])
  {
    LinesOfTail(done, line);
    var s := done + line + [NEWLINE];
    assert s[..|s| - 1] == done + line;
  }

  function Joined(chunks: seq<Bytes>): Bytes {
    if chunks == [] then [] else Joined(chunks[..|chunks| - 1]) + chunks[|chunks| - 1]
  }

  // No later byte changes the lines that are complete.
  lemma {:induction false} CompleteLinesStay(done: Bytes, more: Bytes)
    requires Lines(done).1 == []
    ensures Lines(done).0 <= Lines(done + more).0
  {
    if more == [] {
      assert done + more == done;
    } else {
      assert (done + more)[..|done + more| - 1] == done + more[..|more| - 1];
      CompleteLinesStay(done, more[..|more| - 1]);
    }
  }

  // What the parent knows: the members scanned, the closing message, and `Ok(false)` for nothing found so far,
  // `Ok(true)` for an infection.
  datatype Seen = Seen(members: seq<Member>, completed: Option<Message>, answer: Result<bool, Failure>)

  function AfterLine(s: Seen, line: Bytes, w: World, limits: Limits): Seen {
    var m := w.decode(line);
    if m.None? || s.completed.Some? then s.(answer := Err(BadMessage))
    else match m.value
      case Done(_, _, _) => s.(completed := m)
      case MemberMessage(member) =>
        if member.size > limits.expandedBytes || !w.acceptable(|s.members|) then s.(answer := Err(BadMember))
        else if |s.members| + 1 > limits.files then s.(answer := Err(TooMany))
        else Seen(s.members + [member], None, Ok(w.infected(|s.members|)))
  }

  // What these lines amount to, up to the first one that ends the inspection.
  function Replay(lines: seq<Bytes>, w: World, limits: Limits): Seen {
    if lines == [] then Seen([], None, Ok(false))
    else
      var before := Replay(lines[..|lines| - 1], w, limits);
      if before.answer != Ok(false) then before else AfterLine(before, lines[|lines| - 1], w, limits)
  }

  lemma {:induction false} EndedStaysEnded(lines: seq<Bytes>, all: seq<Bytes>, w: World, limits: Limits)
    requires lines <= all && Replay(lines, w, limits).answer != Ok(false)
    ensures Replay(all, w, limits) == Replay(lines, w, limits)
  {
    if |lines| < |all| {
      EndedStaysEnded(lines, all[..|all| - 1], w, limits);
    } else {
      assert lines == all;
    }
  }

  lemma {:induction false} NeverOversized(lines: seq<Bytes>, w: World, limits: Limits)
    ensures Replay(lines, w, limits).answer != Err(Oversized)
  {
    if lines != [] { NeverOversized(lines[..|lines| - 1], w, limits); }
  }

  // The lines tell of these members, each acceptable and not infected, and of nothing else.
  predicate Reported(lines: seq<Bytes>, members: seq<Member>, w: World, limits: Limits) {
    |lines| == |members| <= limits.files
    && forall n :: 0 <= n < |members| ==>
         w.decode(lines[n]) == Some(MemberMessage(members[n])) && w.acceptable(n) && !w.infected(n)
  }

  // As long as nothing is found, the lines tell of the members, and then perhaps of the end.
  lemma {:induction false} ReplayReports(lines: seq<Bytes>, w: World, limits: Limits)
    requires Replay(lines, w, limits).answer == Ok(false)
    ensures var s := Replay(lines, w, limits);
            if s.completed.None? then Reported(lines, s.members, w, limits)
            else lines != [] && s.completed.value.Done? && w.decode(lines[|lines| - 1]) == s.completed
                 && Reported(lines[..|lines| - 1], s.members, w, limits)
  {
    if lines != [] { ReplayReports(lines[..|lines| - 1], w, limits); }
  }

  class Parent {
    const limits: Limits
    const world: World
    var buffer: Bytes
    var completed: Option<Message>
    var members: seq<Member>
    ghost var done: Bytes

    constructor (limits: Limits, world: World)
      ensures this.limits == limits && this.world == world && Valid([]) && members == [] && buffer == []
      ensures completed.None?
    {
      this.limits, this.world := limits, world;
      buffer, completed, members, done := [], None, [], [];
    }

    // What has been received is the lines handled so far, which ended nothing, and the buffer.
    ghost predicate Valid(received: Bytes)
      reads this
    {
      received == done + buffer && Lines(done).1 == []
      && Replay(Lines(done).0, world, limits) == Seen(members, completed, Ok(false))
    }

    // One complete line; a member is scanned before the next line is looked at.
    method Handle(line: Bytes) returns (r: Result<bool, Failure>)
      modifies this`completed, this`members
      ensures Seen(members, completed, r)
           == AfterLine(Seen(old(members), old(completed), Ok(false)), line, world, limits)
    {
      var message := world.decode(line);
      if message.None? || completed.Some? { return Err(BadMessage); }
      match message.value {
        case Done(_, _, _) =>
          completed := message;
          return Ok(false);
        case MemberMessage(member) =>
          if member.size > limits.expandedBytes || !world.acceptable(|members|) { return Err(BadMember); }
          if |members| + 1 > limits.files { return Err(TooMany); }
          members := members + [member];
          return Ok(world.infected(|members| - 1));
      }
    }

    // Takes the complete lines out of the buffer, one at a time.
    method Drain(ghost received: Bytes) returns (r: Result<bool, Failure>)
      requires Valid(received)
      modifies this
      ensures Seen(members, completed, r) == Replay(Lines(received).0, world, limits)
      ensures r == Ok(false) ==> Valid(received) && NEWLINE !in buffer
      ensures |buffer| <= |old(buffer)|
    {
      hide AfterLine;
      var at: nat := FindNewline(buffer);
      while at < |buffer|
        invariant Valid(received) && at <= |buffer|
        invariant at < |buffer| ==> buffer[at] == NEWLINE
        invariant NEWLINE !in buffer[..at] && |buffer| <= |old(buffer)|
        decreases |buffer|
      {
        var line, rest := buffer[..at], buffer[at + 1..];
        assert buffer == line + [NEWLINE] + rest;
        assert done + buffer == (done + line + [NEWLINE]) + rest;
        LineEnds(done, line);
        CompleteLinesStay(done + line + [NEWLINE], rest);
        ghost var handled := Lines(done).0 + [line];
        assert handled[..|handled| - 1] == Lines(done).0;
        r := Handle(line);
        buffer := rest;
        if r != Ok(false) {
          EndedStaysEnded(handled, Lines(received).0, world, limits);
          return r;
        }
        done := done + line + [NEWLINE];
        at := FindNewline(buffer);
      }
      assert buffer[..at] == buffer;
      LinesOfTail(done, buffer);
      return Ok(false);
    }

    // Reads what the helper printed, however the pipe cuts it: the answer is what its lines amount to.
    method Receive(chunks: seq<Bytes>, ghost received: Bytes) returns (r: Result<bool, Failure>)
      requires Valid(received) && NEWLINE !in buffer
      modifies this
      ensures r == Err(Oversized) ==> |old(buffer)| + |Joined(chunks)| > MAX_MESSAGE_BYTES
      ensures r != Err(Oversized) ==>
                Seen(members, completed, r) == Replay(Lines(received + Joined(chunks)).0, world, limits)
      ensures r == Ok(false) ==> Valid(received + Joined(chunks)) && NEWLINE !in buffer
    {
      hide Replay, Lines, Joined;
      NoChunks();
      assert chunks[..0] == [] && received + [] == received;
      Quiet(received);
      for n := 0 to |chunks|
        invariant Valid(received + Joined(chunks[..n])) && NEWLINE !in buffer
        invariant |buffer| <= |old(buffer)| + |Joined(chunks[..n])|
      {
        JoinedFrom(chunks, n);
        assert done + (buffer + chunks[n]) == (done + buffer) + chunks[n];
        assert (received + Joined(chunks[..n])) + chunks[n] == received + (Joined(chunks[..n]) + chunks[n]);
        buffer := buffer + chunks[n];
        if |buffer| > MAX_MESSAGE_BYTES { return Err(Oversized); }
        r := Drain(received + Joined(chunks[..n + 1]));
        if r != Ok(false) {
          assert received + Joined(chunks) == received + Joined(chunks[..n + 1]) + Joined(chunks[n + 1..]);
          EndsHere(received + Joined(chunks[..n + 1]), Joined(chunks[n + 1..]));
          NeverOversized(Lines(received + Joined(chunks)).0, world, limits);
          return r;
        }
      }
      assert chunks[..|chunks|] == chunks;
      Quiet(received + Joined(chunks));
      return Ok(false);
    }

    // The helper has ended.
    method Close(ghost received: Bytes, exitStatus: int) returns (r: Result<bool, Failure>)
      requires Valid(received)
      ensures r == Ok(false) <==> exitStatus == 0 && buffer == [] && completed.Some?
                                  && completed.value.Done? && completed.value.scanned == |members|
      ensures r == Ok(false) ==> CleanRun(received, members, world, limits)
      ensures r != Ok(true)
    {
      ReplayReports(Lines(done).0, world, limits);
      if exitStatus != 0 { return Err(HelperFailed); }
      if buffer != [] || completed.None? || completed.value.scanned != |members| { return Err(NoManifest); }
      assert done + [] == done;
      return Ok(false);
    }

    // The whole exchange with any helper: its output in chunks, then its exit status.
    method Run(chunks: seq<Bytes>, exitStatus: int) returns (r: Result<bool, Failure>)
      requires Valid([]) && buffer == []
      modifies this
      ensures r == Ok(true) ==> |members| > 0 && world.infected(|members| - 1)
      ensures r == Ok(false) ==> exitStatus == 0 && CleanRun(Joined(chunks), members, world, limits)
    {
      r := Receive(chunks, []);
      assert [] + Joined(chunks) == Joined(chunks);
      if r != Ok(false) {
        if r == Ok(true) { InfectedIsLast(Lines(Joined(chunks)).0, world, limits); }
        return;
      }
      r := Close(Joined(chunks), exitStatus);
    }

    // With no complete line left in the buffer, the lines handled are all the lines received.
    lemma Quiet(received: Bytes)
      requires Valid(received) && NEWLINE !in buffer
      ensures Replay(Lines(received).0, world, limits) == Seen(members, completed, Ok(false))
      ensures Lines(received).1 == buffer
    {
      LinesOfTail(done, buffer);
    }

    lemma EndsHere(received: Bytes, more: Bytes)
      requires Replay(Lines(received).0, world, limits).answer != Ok(false)
      ensures Replay(Lines(received + more).0, world, limits) == Replay(Lines(received).0, world, limits)
    {
      LinesGrow(received, more);
      EndedStaysEnded(Lines(received).0, Lines(received + more).0, world, limits);
    }
  }

  lemma {:induction false} LinesGrow(s: Bytes, more: Bytes)
    ensures Lines(s).0 <= Lines(s + more).0
  {
    if more == [] {
      assert s + more == s;
    } else {
      assert (s + more)[..|s + more| - 1] == s + more[..|more| - 1];
      LinesGrow(s, more[..|more| - 1]);
    }
  }

  lemma {:induction false} JoinedConcat(a: seq<Bytes>, b: seq<Bytes>)
    ensures Joined(a + b) == Joined(a) + Joined(b)
  {
    if b == [] {
      assert a + b == a;
    } else {
      assert (a + b)[..|a + b| - 1] == a + b[..|b| - 1];
      JoinedConcat(a, b[..|b| - 1]);
    }
  }

  lemma NoChunks()
    ensures Joined([]) == []
  {}

  lemma JoinedFrom(chunks: seq<Bytes>, n: nat)
    requires n < |chunks|
    ensures Joined(chunks[..n + 1]) == Joined(chunks[..n]) + chunks[n]
    ensures Joined(chunks) == Joined(chunks[..n + 1]) + Joined(chunks[n + 1..])
  {
    hide Joined;
    Parts(chunks, n);
    JoinedOne(chunks[n]);
    JoinedConcat(chunks[..n], [chunks[n]]);
    JoinedConcat(chunks[..n + 1], chunks[n + 1..]);
  }

  lemma Parts<T>(s: seq<T>, n: nat)
    requires n < |s|
    ensures s[..n + 1] == s[..n] + [s[n]] && s == s[..n + 1] + s[n + 1..]
  {}

  lemma JoinedOne(chunk: Bytes)
    ensures Joined([chunk]) == chunk
  {
    assert [chunk][..0] == [] && [] + chunk == chunk;
  }

  // An infection is that of the last member scanned; all members before it were clean.
  lemma {:induction false} InfectedIsLast(lines: seq<Bytes>, w: World, limits: Limits)
    ensures var s := Replay(lines, w, limits);
            (forall n :: 0 <= n < |s.members| - 1 ==> w.acceptable(n) && !w.infected(n))
            && (s.answer == Ok(false) ==> forall n :: 0 <= n < |s.members| ==> w.acceptable(n) && !w.infected(n))
            && (s.answer == Ok(true) ==> s.members != [] && w.infected(|s.members| - 1))
  {
    if lines != [] { InfectedIsLast(lines[..|lines| - 1], w, limits); }
  }

  method FindNewline(s: Bytes) returns (at: nat)
    ensures at <= |s| && NEWLINE !in s[..at] && (at < |s| ==> s[at] == NEWLINE)
  {
    at := 0;
    while at < |s| && s[at] != NEWLINE
      invariant at <= |s| && NEWLINE !in s[..at]
    {
      at := at + 1;
    }
  }

  // The output is exactly the members' lines and a closing line that counts them, and every member
  // was scanned once, in order, and found clean.
  ghost predicate CleanRun(output: Bytes, members: seq<Member>, w: World, limits: Limits) {
    var (lines, rest) := Lines(output);
    rest == [] && lines != [] && Reported(lines[..|lines| - 1], members, w, limits)
    && w.decode(lines[|lines| - 1]).Some? && w.decode(lines[|lines| - 1]).value.Done?
    && w.decode(lines[|lines| - 1]).value.scanned == |members|
  }

  // ---------- the helper, while the parent listens ----------

  // Messages are one line each and are read back as they were written; the pipe may cut a line anywhere.
  ghost predicate Faithful(encode: Message -> Bytes, decode: Bytes -> Option<Message>, cut: Bytes -> seq<Bytes>) {
    (forall m :: NEWLINE !in encode(m) && decode(encode(m)) == Some(m)) && forall s :: Joined(cut(s)) == s
  }

  predicate FitsPipe(m: Message, encode: Message -> Bytes) { |encode(m)| < MAX_MESSAGE_BYTES }

  // No message about one of these files exceeds the parent's limit, whatever number its copy gets.
  ghost predicate Short(leaves: seq<Leaf>, encode: Message -> Bytes, limits: Limits) {
    forall leaf <- leaves, n: nat, s :: n <= limits.files ==>
      FitsPipe(MemberMessage(Member(leaf.path, FileName(n, s), leaf.size)), encode)
  }

  // Nor does the closing message.
  ghost predicate ShortEnd(encode: Message -> Bytes, limits: Limits) {
    forall e: nat, x: nat, k: nat :: e <= limits.files && x <= limits.expandedBytes && k <= limits.files ==>
      FitsPipe(Done(e, x, k), encode)
  }

  lemma ShortParts(part: seq<Leaf>, whole: seq<Leaf>, encode: Message -> Bytes, limits: Limits)
    requires Short(whole, encode, limits) && forall leaf <- part :: leaf in whole
    ensures Short(part, encode, limits)
  {
    hide FitsPipe, FileName;
  }

  // The n-th member is what it is said to be, and not infected.
  predicate Passes(w: World, n: nat) { w.acceptable(n) && !w.infected(n) }

  function Sum(chunks: seq<nat>): nat {
    if chunks == [] then 0 else Sum(chunks[..|chunks| - 1]) + chunks[|chunks| - 1]
  }

  datatype Use = Use(entries: nat, expanded: nat)

  // What the entries use up, or None when one of them must be refused.
  function Cost(entries: seq<Entry>, used: Use, depth: nat, limits: Limits): Option<Use>
    decreases entries
  {
    if entries == [] then Some(used)
    else
      var first := CostOf(entries[0], used, depth, limits);
      if first.None? then None else Cost(entries[1..], first.value, depth, limits)
  }

  function CostOf(e: Entry, used: Use, depth: nat, limits: Limits): Option<Use>
    decreases e, 1
  {
    if used.entries + 1 > limits.files || !e.sound || e.size < 0 || e.size > limits.expandedBytes - used.expanded then
      None
    else if e.kind == Directory then
      if e.size > 0 || e.chunks != [] then None else Some(Use(used.entries + 1, used.expanded))
    else CostOfFile(e, Use(used.entries + 1, used.expanded), depth, limits)
  }

  // The entry is counted already.
  function CostOfFile(e: Entry, used: Use, depth: nat, limits: Limits): Option<Use>
    decreases e, 0
  {
    if Sum(e.chunks) != e.size || !e.checksumOk then None
    else
      var after := Use(used.entries, used.expanded + e.size);
      match e.node
      case Plain => Some(after)
      case Nested(framed, inner) =>
        if depth + 1 > limits.depth || !framed then None else Cost(inner, after, depth + 1, limits)
  }

  lemma {:induction false} CostConcat(a: seq<Entry>, b: seq<Entry>, used: Use, depth: nat, limits: Limits)
    ensures var first := Cost(a, used, depth, limits);
            Cost(a + b, used, depth, limits) == if first.None? then None else Cost(b, first.value, depth, limits)
  {
    if a == [] {
      assert a + b == b;
    } else {
      assert (a + b)[1..] == a[1..] + b;
      var first := CostOf(a[0], used, depth, limits);
      if first.Some? { CostConcat(a[1..], b, first.value, depth, limits); }
    }
  }

  lemma {:induction false} LeavesConcat(a: seq<Entry>, b: seq<Entry>, parents: seq<Bytes>)
    ensures Leaves(a + b, parents) == Leaves(a, parents) + Leaves(b, parents)
  {
    if b == [] {
      assert a + b == a;
    } else {
      var front, last := b[..|b| - 1], b[|b| - 1];
      assert a + b == (a + front) + [last] && b == front + [last];
      LeavesConcat(a, front, parents);
      LeavesSnoc(a + front, last, parents);
      LeavesSnoc(front, last, parents);
    }
  }

  lemma NoEntries(parents: seq<Bytes>, used: Use, depth: nat, limits: Limits)
    ensures Leaves([], parents) == [] && Cost([], used, depth, limits) == Some(used)
  {}

  lemma NoLeaves(e: Entry, parents: seq<Bytes>)
    requires e.kind == Directory
    ensures LeavesOf(e, parents) == []
  {}

  // One of these members does not pass.
  ghost predicate OneFails(w: World, first: nat, count: nat) {
    exists n: nat :: first <= n < first + count && !Passes(w, n)
  }

  lemma OneFailsAmongMore(w: World, first: nat, count: nat, from: nat, more: nat)
    requires OneFails(w, first, count) && from <= first && first + count <= from + more
    ensures OneFails(w, from, more)
  {}

  class Extractor {
    const limits: Limits
    const parent: Parent
    const encode: Message -> Bytes
    const cut: Bytes -> seq<Bytes>

    var entries: nat
    var expanded: nat
    var scanned: nat
    var members: seq<Member>
    var disk: set<Bytes>
    var answer: Result<bool, Failure>
    ghost var peak: nat
    ghost var output: Bytes
    ghost var onDisk: seq<set<Bytes>>

    constructor (limits: Limits, parent: Parent, encode: Message -> Bytes, cut: Bytes -> seq<Bytes>)
      requires parent.Valid([]) && parent.members == [] && parent.buffer == [] && parent.completed.None?
      requires parent.limits == limits && Faithful(encode, parent.world.decode, cut)
      ensures this.limits == limits && this.parent == parent && this.encode == encode && this.cut == cut
      ensures Going() && entries == 0 && expanded == 0 && members == [] && disk == {}
    {
      this.limits, this.parent, this.encode, this.cut := limits, parent, encode, cut;
      entries, expanded, scanned, members, disk, answer := 0, 0, 0, [], {}, Ok(false);
      peak, output, onDisk := 0, [], [];
    }

    // Every file on disk was numbered by an earlier entry, the limits held so far, and each member handed
    // over was still on disk when the parent had it.
    ghost predicate Valid()
      reads this
    {
      expanded <= limits.expandedBytes && peak <= limits.depth && scanned <= entries && Numbered(disk, entries)
      && |onDisk| == |members| && forall n :: 0 <= n < |members| ==> members[n].file in onDisk[n]
    }

    // The parent has read all that was printed, has scanned every member handed over and found nothing.
    ghost predicate Going()
      reads this, parent
    {
      Valid() && answer == Ok(false) && scanned == |members| && parent.limits == limits
      && parent.Valid(output) && parent.buffer == [] && parent.completed.None? && parent.members == members
      && Faithful(encode, parent.world.decode, cut)
    }

    // Writes the data of one entry, never more than declared nor than the budget allows.
    method WriteOut(e: Entry) returns (r: Result<(), Problem>)
      requires e.size >= 0 && expanded + e.size <= limits.expandedBytes
      modifies this`expanded
      ensures old(expanded) <= expanded <= limits.expandedBytes
      ensures r.Ok? ==> expanded == old(expanded) + e.size
      ensures r.Ok? <==> Sum(e.chunks) == e.size && e.checksumOk
      ensures r != Err(FileExists) && r != Err(NotAcknowledged)
    {
      var written: nat := 0;
      assert e.chunks[..0] == [];
      for n := 0 to |e.chunks|
        invariant written == Sum(e.chunks[..n]) <= e.size && expanded == old(expanded) + written
      {
        var count := e.chunks[n];
        assert e.chunks[..n + 1][..n] == e.chunks[..n];
        SumGrows(e.chunks, n + 1);
        if count > e.size - written || count > limits.expandedBytes - expanded { return Err(TooMuchData); }
        written := written + count;
        expanded := expanded + count;
      }
      assert e.chunks[..|e.chunks|] == e.chunks;
      if written != e.size { return Err(Truncated); }
      if !e.checksumOk { return Err(BadChecksum); }
      return Ok(());
    }

    // Names a file for the current entry; the name is new.
    method Create(suffix: Bytes) returns (file: Bytes, created: bool)
      requires Valid() && |disk| < limits.depth && entries > 0 && Numbered(disk, entries - 1)
      modifies this`disk, this`peak
      ensures created && file == FileName(entries, suffix) && file !in old(disk) && disk == old(disk) + {file}
      ensures Valid()
    {
      hide Numbered, FileName;
      file := FileName(entries, suffix);
      NameIsNew(disk, entries, suffix);
      created := file !in disk;
      disk := disk + {file};
      peak := if |disk| > peak then |disk| else peak;
    }

    // Prints one message and waits until the parent has dealt with it.
    method Say(message: Message)
      requires Going()
      modifies this`answer, this`output, parent
      ensures answer != Err(Oversized) ==>
                Seen(parent.members, parent.completed, answer)
                == AfterLine(Seen(members, None, Ok(false)), encode(message), parent.world, limits)
      ensures answer == Err(Oversized) ==> !FitsPipe(message, encode)
      ensures answer == Ok(false) ==> parent.Valid(output) && parent.buffer == []
    {
      hide AfterLine, Joined;
      var line := encode(message);
      var chunks := cut(line + [NEWLINE]);
      parent.Quiet(output);
      LineEnds(output, line);
      ghost var lines := Lines(output).0 + [line];
      assert lines[..|lines| - 1] == Lines(output).0;
      assert output + (line + [NEWLINE]) == output + line + [NEWLINE];
      answer := parent.Receive(chunks, output);
      output := output + (line + [NEWLINE]);
      if answer == Ok(false) { parent.Quiet(output); }
    }

    // Hands over a member: it is scanned, and only then acknowledged, while its copy is still on disk.
    method Hand(path: seq<Bytes>, file: Bytes, size: nat) returns (r: Result<(), Problem>)
      requires Going() && scanned < entries <= limits.files && file in disk && size <= limits.expandedBytes
      modifies this`members, this`scanned, this`answer, this`output, this`onDisk, parent
      ensures Valid() && members == old(members) + [Member(path, file, size)] && |onDisk| == |members|
      ensures r.Ok? ==> Going() && Passes(parent.world, |old(members)|)
      ensures r.Err? ==> r == Err(NotAcknowledged) && answer != Ok(false) && scanned == old(scanned)
      ensures r.Err? && FitsPipe(MemberMessage(Member(path, file, size)), encode) ==>
                !Passes(parent.world, |old(members)|)
      ensures answer == Ok(true) ==> parent.members == members && parent.world.infected(|old(members)|)
    {
      hide Numbered;
      Say(MemberMessage(Member(path, file, size)));
      members := members + [Member(path, file, size)];
      onDisk := onDisk + [disk];
      if answer != Ok(false) { return Err(NotAcknowledged); }
      scanned := scanned + 1;
      return Ok(());
    }

    method Extract(archive: Node, depth: nat, parents: seq<Bytes>) returns (r: Result<(), Problem>)
      requires archive.Nested? && depth > 0 && Going() && |disk| == depth - 1 && entries <= limits.files
      modifies this, parent
      ensures Valid() && old(entries) <= entries && old(members) <= members && r != Err(FileExists)
      ensures r.Ok? ==> Going() && entries <= limits.files && disk == old(disk)
      ensures r.Ok? ==> AsLeaves(members) == AsLeaves(old(members)) + Leaves(archive.entries, parents)
      ensures r.Ok? ==> depth <= limits.depth && archive.framed
                        && Cost(archive.entries, Use(old(entries), old(expanded)), depth, limits)
                           == Some(Use(entries, expanded))
      ensures UsedUp(Cost(archive.entries, Use(old(entries), old(expanded)), depth, limits),
                     AllEntries(archive.entries, depth), Use(old(entries), old(expanded)), limits)
      ensures r.Ok? ==> forall n :: |old(members)| <= n < |members| ==> Passes(parent.world, n)
      ensures r.Err? && Short(Leaves(archive.entries, parents), encode, limits) ==>
                depth > limits.depth || !archive.framed
                || Cost(archive.entries, Use(old(entries), old(expanded)), depth, limits).None?
                || OneFails(parent.world, |old(members)|, |Leaves(archive.entries, parents)|)
      ensures r == Err(NotAcknowledged) <==> answer != Ok(false)
      ensures answer == Ok(true) ==>
                parent.members == members && members != [] && parent.world.infected(|members| - 1)
                && forall n :: |old(members)| <= n < |members| - 1 ==> Passes(parent.world, n)
      ensures r.Err? && r != Err(NotAcknowledged) ==> parent.Valid(output)
      decreases archive
    {
      hide UsedUp, AllEntries;
      hide Numbered, LeavesOf, CostOf, OneFails, Passes, Faithful, Short, Parent.Valid, Leaves, Cost;
      CostExactly(archive.entries, Use(entries, expanded), depth, limits);
      if depth > limits.depth { return Err(TooDeep); }
      if !archive.framed { return Err(BadContainer); }
      ghost var start := Use(entries, expanded);
      NoEntries(parents, start, depth, limits);
      assert archive.entries[..0] == [] && AsLeaves(members) + [] == AsLeaves(members);
      for n := 0 to |archive.entries|
        invariant Going() && disk == old(disk) && entries <= limits.files
        invariant old(entries) <= entries && old(members) <= members
        invariant AsLeaves(members) == AsLeaves(old(members)) + Leaves(archive.entries[..n], parents)
        invariant Cost(archive.entries[..n], start, depth, limits) == Some(Use(entries, expanded))
        invariant forall i :: |old(members)| <= i < |members| ==> Passes(parent.world, i)
      {
        ghost var count := |members|;
        r := ExtractEntry(archive.entries[n], depth, parents);
        Halves(archive.entries, n, parents, start, depth, limits);
        if r.Err? {
          if Short(Leaves(archive.entries, parents), encode, limits) {
            ShortParts(LeavesOf(archive.entries[n], parents), Leaves(archive.entries, parents), encode, limits);
          }
          if OneFails(parent.world, count, |LeavesOf(archive.entries[n], parents)|) {
            OneFailsAmongMore(parent.world, count, |LeavesOf(archive.entries[n], parents)|, |old(members)|,
                |Leaves(archive.entries, parents)|);
          }
          return;
        }
      }
      assert archive.entries[..|archive.entries|] == archive.entries;
      return Ok(());
    }

    method ExtractEntry(e: Entry, depth: nat, parents: seq<Bytes>) returns (r: Result<(), Problem>)
      requires 0 < depth <= limits.depth && Going() && |disk| == depth - 1 && entries <= limits.files
      modifies this, parent
      ensures Valid() && old(entries) <= entries && old(members) <= members && r != Err(FileExists)
      ensures r.Ok? ==> Going() && entries <= limits.files && disk == old(disk)
      ensures r.Ok? ==> AsLeaves(members) == AsLeaves(old(members)) + LeavesOf(e, parents)
      ensures r.Ok? ==> CostOf(e, Use(old(entries), old(expanded)), depth, limits) == Some(Use(entries, expanded))
      ensures r.Ok? ==> forall n :: |old(members)| <= n < |members| ==> Passes(parent.world, n)
      ensures r.Err? && Short(LeavesOf(e, parents), encode, limits) ==>
                CostOf(e, Use(old(entries), old(expanded)), depth, limits).None?
                || OneFails(parent.world, |old(members)|, |LeavesOf(e, parents)|)
      ensures r == Err(NotAcknowledged) <==> answer != Ok(false)
      ensures answer == Ok(true) ==>
                parent.members == members && members != [] && parent.world.infected(|members| - 1)
                && forall n :: |old(members)| <= n < |members| - 1 ==> Passes(parent.world, n)
      ensures r.Err? && r != Err(NotAcknowledged) ==> parent.Valid(output)
      decreases e, 2
    {
      hide Numbered, FileName, LeavesOf, CostOfFile, Passes, Faithful, Short, Parent.Valid, OneFails;
      NumberedGrows(disk, disk, entries, entries + 1);
      entries := entries + 1;
      if entries > limits.files { return Err(TooManyEntries); }
      if !e.sound || e.size < 0 { return Err(Unsupported); }
      if e.size > limits.expandedBytes - expanded { return Err(OverBudget); }
      if e.kind == Directory {
        if e.size > 0 || e.chunks != [] { return Err(BadDirectory); }
        assert LeavesOf(e, parents) == [] by { NoLeaves(e, parents); }
        assert AsLeaves(members) + [] == AsLeaves(members);
        return Ok(());
      }
      r := ExtractFile(e, depth, parents);
    }

    method ExtractFile(e: Entry, depth: nat, parents: seq<Bytes>) returns (r: Result<(), Problem>)
      requires 0 < depth <= limits.depth && Going() && |disk| == depth - 1 && 0 < entries <= limits.files
      requires Numbered(disk, entries - 1) && scanned < entries
      requires e.kind != Directory && e.size >= 0 && expanded + e.size <= limits.expandedBytes
      modifies this, parent
      ensures Valid() && old(entries) <= entries && old(members) <= members && r != Err(FileExists)
      ensures r.Ok? ==> Going() && entries <= limits.files && disk == old(disk)
      ensures r.Ok? ==> AsLeaves(members) == AsLeaves(old(members)) + LeavesOf(e, parents)
      ensures r.Ok? ==> CostOfFile(e, Use(old(entries), old(expanded)), depth, limits) == Some(Use(entries, expanded))
      ensures r.Ok? ==> forall n :: |old(members)| <= n < |members| ==> Passes(parent.world, n)
      ensures r.Err? && Short(LeavesOf(e, parents), encode, limits) ==>
                CostOfFile(e, Use(old(entries), old(expanded)), depth, limits).None?
                || OneFails(parent.world, |old(members)|, |LeavesOf(e, parents)|)
      ensures r == Err(NotAcknowledged) <==> answer != Ok(false)
      ensures answer == Ok(true) ==>
                parent.members == members && members != [] && parent.world.infected(|members| - 1)
                && forall n :: |old(members)| <= n < |members| - 1 ==> Passes(parent.world, n)
      ensures r.Err? && r != Err(NotAcknowledged) ==> parent.Valid(output)
      decreases e, 1
    {
      hide Numbered, FileName, LeavesOf, CostOfFile, Passes, Faithful, Short, OneFails, Parent.Valid, Sum;
      ghost var before, used := disk, Use(entries, expanded);
      UnwrittenCostsNothing(e, used, depth, limits);
      var file, created := Create(e.suffix);
      if !created { return Err(FileExists); }
      var written := WriteOut(e);
      if written.Err? { return written; }
      var handled := PassOn(e, file, depth, parents);
      if handled.Err? { return handled; }
      NumberedGrows(disk - {file}, disk, entries, entries);
      disk := disk - {file};
      assert disk == before;
      return Ok(());
    }

    // The copy is extracted in turn, or handed over.
    method PassOn(e: Entry, file: Bytes, depth: nat, parents: seq<Bytes>) returns (r: Result<(), Problem>)
      requires 0 < depth <= limits.depth && Going() && |disk| == depth && file in disk
      requires scanned < entries <= limits.files
      requires e.kind != Directory && 0 <= e.size <= expanded && Sum(e.chunks) == e.size && e.checksumOk
      requires file == FileName(entries, e.suffix)
      modifies this, parent
      ensures Valid() && old(entries) <= entries && old(members) <= members && r != Err(FileExists)
      ensures r.Ok? ==> Going() && entries <= limits.files && disk == old(disk)
      ensures r.Ok? ==> AsLeaves(members) == AsLeaves(old(members)) + LeavesOf(e, parents)
      ensures r.Ok? ==> CostOfFile(e, Use(old(entries), old(expanded) - e.size), depth, limits)
                        == Some(Use(entries, expanded))
      ensures r.Ok? ==> forall n :: |old(members)| <= n < |members| ==> Passes(parent.world, n)
      ensures r.Err? && Short(LeavesOf(e, parents), encode, limits) ==>
                CostOfFile(e, Use(old(entries), old(expanded) - e.size), depth, limits).None?
                || OneFails(parent.world, |old(members)|, |LeavesOf(e, parents)|)
      ensures r == Err(NotAcknowledged) <==> answer != Ok(false)
      ensures answer == Ok(true) ==>
                parent.members == members && members != [] && parent.world.infected(|members| - 1)
                && forall n :: |old(members)| <= n < |members| - 1 ==> Passes(parent.world, n)
      ensures r.Err? && r != Err(NotAcknowledged) ==> parent.Valid(output)
      decreases e, 0
    {
      hide Numbered, FileName, Leaves, Cost, Passes, Faithful, Short, FitsPipe, Parent.Valid, Sum;
      match e.node {
        case Nested(_, _) => r := Extract(e.node, depth + 1, parents + [e.name]);
        case Plain =>
          r := Hand(parents + [e.name], file, e.size);
          if Short(LeavesOf(e, parents), encode, limits) { ShortLeaf(e, parents, entries, encode, limits); }
      }
    }
  }

  lemma UnwrittenCostsNothing(e: Entry, used: Use, depth: nat, limits: Limits)
    requires e.kind != Directory && e.size >= 0
    ensures Sum(e.chunks) != e.size || !e.checksumOk ==> CostOfFile(e, used, depth, limits).None?
  {
    hide Cost, Sum;
  }

  lemma {:induction false} SumGrows(chunks: seq<nat>, n: nat)
    requires n <= |chunks|
    ensures Sum(chunks[..n]) <= Sum(chunks)
  {
    if n < |chunks| {
      SumGrows(chunks[..|chunks| - 1], n);
      assert chunks[..|chunks| - 1][..n] == chunks[..n];
    } else {
      assert chunks[..n] == chunks;
    }
  }

  // The entries up to the n-th one, that one, and the rest.
  lemma Halves(entries: seq<Entry>, n: nat, parents: seq<Bytes>, start: Use, depth: nat, limits: Limits)
    requires n < |entries| && Cost(entries[..n], start, depth, limits).Some?
    ensures Leaves(entries[..n + 1], parents) == Leaves(entries[..n], parents) + LeavesOf(entries[n], parents)
    ensures |Leaves(entries[..n + 1], parents)| <= |Leaves(entries, parents)|
    ensures forall leaf <- LeavesOf(entries[n], parents) :: leaf in Leaves(entries, parents)
    ensures Cost(entries[..n + 1], start, depth, limits)
         == CostOf(entries[n], Cost(entries[..n], start, depth, limits).value, depth, limits)
    ensures Cost(entries[..n + 1], start, depth, limits).None? ==> Cost(entries, start, depth, limits).None?
  {
    hide CostOf, LeavesOf;
    assert entries[..n + 1] == entries[..n] + [entries[n]];
    LeavesSnoc(entries[..n], entries[n], parents);
    CostConcat(entries[..n], [entries[n]], start, depth, limits);
    CostOfOne(entries[n], Cost(entries[..n], start, depth, limits).value, depth, limits);
    assert entries == entries[..n + 1] + entries[n + 1..];
    LeavesConcat(entries[..n + 1], entries[n + 1..], parents);
    CostConcat(entries[..n + 1], entries[n + 1..], start, depth, limits);
  }

  lemma ShortLeaf(e: Entry, parents: seq<Bytes>, n: nat, encode: Message -> Bytes, limits: Limits)
    requires e.kind != Directory && e.size >= 0 && e.node.Plain? && n <= limits.files
    requires Short(LeavesOf(e, parents), encode, limits)
    ensures FitsPipe(MemberMessage(Member(parents + [e.name], FileName(n, e.suffix), e.size)), encode)
  {
    hide FileName, FitsPipe;
    assert Leaf(parents + [e.name], e.size) in LeavesOf(e, parents);
  }

  lemma CostOfOne(e: Entry, used: Use, depth: nat, limits: Limits)
    ensures Cost([e], used, depth, limits) == CostOf(e, used, depth, limits)
  {
    hide CostOf;
    assert [e][1..] == [];
  }

  // ---------- what must be refused ----------

  // An entry at some depth of an archive.
  datatype Found = Found(entry: Entry, depth: nat)

  // The entries of an archive in archive order, those of nested archives at once after their own entry.
  function AllEntries(entries: seq<Entry>, depth: nat): seq<Found>
    decreases entries
  {
    if entries == [] then [] else EntriesOf(entries[0], depth) + AllEntries(entries[1..], depth)
  }

  function EntriesOf(e: Entry, depth: nat): seq<Found>
    decreases e
  {
    [Found(e, depth)]
    + if e.kind == File && e.node.Nested? then AllEntries(e.node.entries, depth + 1) else []
  }

  // The bytes of all files, nested archives included.
  function FileBytes(found: seq<Found>): int {
    if found == [] then 0 else (if found[0].entry.kind == File then found[0].entry.size else 0) + FileBytes(found[1..])
  }

  // A supported entry: an empty directory, or a file with its declared data that is plain or an archive in turn.
  predicate Supported(f: Found, limits: Limits) {
    var e := f.entry;
    e.sound && e.size >= 0
    && if e.kind == Directory then e.size == 0 && e.chunks == []
       else Sum(e.chunks) == e.size && e.checksumOk
            && (e.node.Nested? ==> e.node.framed && f.depth + 1 <= limits.depth)
  }

  predicate AllSupported(found: seq<Found>, limits: Limits) {
    forall f <- found :: Supported(f, limits)
  }

  // Everything in the archive is supported, and all of it together is within the limits.
  predicate Unobjectionable(entries: seq<Entry>, limits: Limits) {
    var all := AllEntries(entries, 1);
    AllSupported(all, limits) && |all| <= limits.files && FileBytes(all) <= limits.expandedBytes
  }

  lemma {:induction false} FileBytesConcat(a: seq<Found>, b: seq<Found>)
    ensures FileBytes(a + b) == FileBytes(a) + FileBytes(b)
  {
    if a == [] {
      assert a + b == b;
    } else {
      assert (a + b)[1..] == a[1..] + b;
      FileBytesConcat(a[1..], b);
    }
  }

  lemma {:induction false} FileBytesOfSupported(found: seq<Found>, limits: Limits)
    requires AllSupported(found, limits)
    ensures FileBytes(found) >= 0
  {
    if found != [] {
      assert Supported(found[0], limits);
      FileBytesOfSupported(found[1..], limits);
    }
  }

  lemma SupportedConcat(a: seq<Found>, b: seq<Found>, limits: Limits)
    ensures AllSupported(a + b, limits) <==> AllSupported(a, limits) && AllSupported(b, limits)
  {
    hide Supported;
    assert forall f <- a :: f in a + b;
    assert forall f <- b :: f in a + b;
  }

  // These entries are supported and fit into what is left.
  predicate Fits(all: seq<Found>, used: Use, limits: Limits) {
    AllSupported(all, limits) && used.entries + |all| <= limits.files
    && used.expanded + FileBytes(all) <= limits.expandedBytes
  }

  predicate Within(used: Use, limits: Limits) {
    used.entries <= limits.files && used.expanded <= limits.expandedBytes
  }

  // What is used afterwards, if anything is to be said at all.
  predicate UsedUp(cost: Option<Use>, all: seq<Found>, used: Use, limits: Limits) {
    (cost.Some? <==> Fits(all, used, limits))
    && (cost.Some? ==> Within(cost.value, limits) && cost.value.entries == used.entries + |all|
                       && cost.value.expanded == used.expanded + FileBytes(all))
  }

  lemma FitsInTurn(a: seq<Found>, b: seq<Found>, used: Use, after: Use, limits: Limits)
    requires UsedUp(Some(after), a, used, limits)
    ensures Fits(a + b, used, limits) <==> Fits(b, after, limits)
    ensures FileBytes(a + b) == FileBytes(a) + FileBytes(b)
  {
    SupportedConcat(a, b, limits);
    FileBytesConcat(a, b);
  }

  lemma NoFitNoMore(a: seq<Found>, b: seq<Found>, used: Use, limits: Limits)
    requires !Fits(a, used, limits)
    ensures !Fits(a + b, used, limits)
  {
    SupportedConcat(a, b, limits);
    FileBytesConcat(a, b);
    if AllSupported(b, limits) { FileBytesOfSupported(b, limits); }
  }

  // The running check of each entry refuses exactly what is unsupported or does not fit as a whole.
  lemma {:induction false} CostExactly(entries: seq<Entry>, used: Use, depth: nat, limits: Limits)
    requires Within(used, limits)
    ensures UsedUp(Cost(entries, used, depth, limits), AllEntries(entries, depth), used, limits)
    decreases entries
  {
    hide CostOf, EntriesOf, Fits, AllSupported;
    if entries == [] {
      NothingFits(used, limits);
    } else {
      CostOfExactly(entries[0], used, depth, limits);
      var first, rest := CostOf(entries[0], used, depth, limits), AllEntries(entries[1..], depth);
      if first.Some? {
        CostExactly(entries[1..], first.value, depth, limits);
        FitsInTurn(EntriesOf(entries[0], depth), rest, used, first.value, limits);
      } else {
        NoFitNoMore(EntriesOf(entries[0], depth), rest, used, limits);
      }
    }
  }

  lemma NothingFits(used: Use, limits: Limits)
    requires Within(used, limits)
    ensures Fits([], used, limits) && FileBytes([]) == 0
  {}

  lemma {:induction false} CostOfExactly(e: Entry, used: Use, depth: nat, limits: Limits)
    requires Within(used, limits)
    ensures UsedUp(CostOf(e, used, depth, limits), EntriesOf(e, depth), used, limits)
    decreases e
  {
    hide Fits, AllSupported, Cost, AllEntries, Sum;
    var own := [Found(e, depth)];
    OneFits(e, used, depth, limits);
    if e.kind == File && e.node.Nested? {
      var inner := AllEntries(e.node.entries, depth + 1);
      if Fits(own, used, limits) {
        var after := Use(used.entries + 1, used.expanded + e.size);
        CostExactly(e.node.entries, after, depth + 1, limits);
        FitsInTurn(own, inner, used, after, limits);
      } else {
        NoFitNoMore(own, inner, used, limits);
      }
    } else {
      assert own + [] == own;
    }
  }

  lemma OneFits(e: Entry, used: Use, depth: nat, limits: Limits)
    ensures var own := [Found(e, depth)];
            FileBytes(own) == (if e.kind == File then e.size else 0)
            && (Fits(own, used, limits) <==>
                  Supported(Found(e, depth), limits) && used.entries + 1 <= limits.files
                  && used.expanded + FileBytes(own) <= limits.expandedBytes)
  {
    hide Supported;
    var own := [Found(e, depth)];
    assert own[1..] == [];
    assert Found(e, depth) in own;
  }

  // An archive costs anything at all exactly when nothing in it is objectionable.
  lemma RefusedExactly(entries: seq<Entry>, limits: Limits)
    ensures Cost(entries, Use(0, 0), 1, limits).Some? <==> Unobjectionable(entries, limits)
  {
    hide Cost, AllEntries, AllSupported, FileBytes;
    CostExactly(entries, Use(0, 0), 1, limits);
  }

  // ---------- helper and parent together ----------

  // An archive is clean only when every plain file in it, at any depth, was scanned exactly once, in archive
  // order, while its copy was on disk, and found clean; and, if no message the archive can cause is too long,
  // whenever nothing in the archive must be refused and every member passes.  An infection is that of the last
  // member scanned.
  method ScanArchive(archive: Node, limits: Limits, w: World, encode: Message -> Bytes, cut: Bytes -> seq<Bytes>)
    returns (r: Result<bool, Failure>, scanned: seq<Member>, ghost onDisk: seq<set<Bytes>>)
    requires archive.Nested? && Faithful(encode, w.decode, cut)
    ensures r == Ok(false) ==>
              AsLeaves(scanned) == Leaves(archive.entries, []) && forall n :: 0 <= n < |scanned| ==> Passes(w, n)
    ensures Short(Leaves(archive.entries, []), encode, limits) && ShortEnd(encode, limits) ==>
              (r == Ok(false) <==>
                 limits.depth > 0 && archive.framed && Unobjectionable(archive.entries, limits)
                 && forall n :: 0 <= n < |Leaves(archive.entries, [])| ==> Passes(w, n))
    ensures r == Ok(true) ==>
              scanned != [] && w.infected(|scanned| - 1) && forall n :: 0 <= n < |scanned| - 1 ==> Passes(w, n)
    ensures r == Ok(false) || r == Ok(true) ==>
              |onDisk| == |scanned| && forall n :: 0 <= n < |scanned| ==> scanned[n].file in onDisk[n]
  {
    RefusedExactly(archive.entries, limits);
    hide Unobjectionable, AllEntries, UsedUp, Lines, Leaves, Joined, FileName, Cost, Passes, Numbered, Replay,
         AfterLine;
    var parent := new Parent(limits, w);
    var helper := new Extractor(limits, parent, encode, cut);
    assert AsLeaves([]) == [];
    var extracted := helper.Extract(archive, 1, []);
    if helper.answer != Ok(false) { return helper.answer, parent.members, helper.onDisk; }
    if extracted.Err? {
      r := parent.Close(helper.output, 1);
      return r, parent.members, helper.onDisk;
    }
    ghost var members := helper.members;
    var closing := Done(helper.entries, helper.expanded, helper.scanned);
    ClosingLine(members, closing, encode, w, cut, limits);
    helper.Say(closing);
    if helper.answer != Ok(false) { return helper.answer, parent.members, helper.onDisk; }
    r := parent.Close(helper.output, 0);
    scanned, onDisk := parent.members, helper.onDisk;
    assert |AsLeaves(members)| == |members|;
  }

  lemma ClosingLine(members: seq<Member>, closing: Message, encode: Message -> Bytes, w: World,
                    cut: Bytes -> seq<Bytes>, limits: Limits)
    requires Faithful(encode, w.decode, cut) && closing.Done?
    ensures AfterLine(Seen(members, None, Ok(false)), encode(closing), w, limits)
         == Seen(members, Some(closing), Ok(false))
  {}
}
