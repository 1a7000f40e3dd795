// Large media are scanned in overlapping windows, which are split again where ClamAV reaches a limit.
module MediaWindows {
  import opened ByteStrings
  import opened Options

  datatype Window = Window(offset: nat, length: nat)

  datatype BadWindow = BadWindow

  function Least(a: int, b: int): int { if a <= b then a else b }

  // ---------- coverage ----------

  predicate Contains(w: Window, i: int, n: int) { w.offset <= i && i + n <= w.offset + w.length }

  predicate Inside(ws: seq<Window>, i: int, n: int) {
    exists k :: 0 <= k < |ws| && Contains(ws[k], i, n)
  }

  // Every run of at most `overlap + 1` bytes of the range lies inside one window.
  ghost predicate Covers(ws: seq<Window>, range: Window, overlap: int) {
    forall i, n :: 0 < n <= overlap + 1 && Contains(range, i, n) ==> Inside(ws, i, n)
  }

  // ---------- the initial plan ----------

  // Each window starts one step after the one before it and is cut at the end of the file.
  ghost predicate Stepped(r: seq<Window>, total: nat, window: nat, overlap: nat) {
    (r != [] ==> r[0].offset == 0)
    && (forall j, k :: 0 <= j < k < |r| && k == j + 1 ==> r[k].offset == r[j].offset + (window - overlap))
    && (forall k :: 0 <= k < |r| ==> r[k].offset <= total && r[k].length == Least(window, total - r[k].offset))
  }

  // Only the last window reaches the end.
  ghost predicate IsPlan(r: seq<Window>, total: nat, window: nat, overlap: nat) {
    overlap < window && r != [] && Stepped(r, total, window, overlap)
    && (forall k :: 0 <= k < |r| - 1 ==> r[k].offset + window < total)
    && r[|r| - 1].offset + r[|r| - 1].length == total
  }

  method WindowRanges(total: int, window: int, overlap: int) returns (r: Result<seq<Window>, BadWindow>)
    ensures r.Err? <==> total < 0 || window <= 0 || overlap < 0 || overlap >= window
    ensures r.Ok? ==> IsPlan(r.value, total, window, overlap)
  {
    if total < 0 || window <= 0 || overlap < 0 || overlap >= window { return Err(BadWindow); }
    if total == 0 { return Ok([Window(0, 0)]); }
    hide PlanSoFar, IsPlan;
    var ranges: seq<Window> := [];
    var offset := 0;
    var step := window - overlap;
    PlanStarts(total, window, overlap);
    while offset < total
      invariant PlanSoFar(ranges, total, window, overlap, offset) && 0 <= offset < total
      decreases total - offset
    {
      var length := Least(window, total - offset);
      PlanGrows(ranges, total, window, overlap, offset);
      ranges := ranges + [Window(offset, length)];
      if offset + length >= total { break; }
      offset := offset + step;
    }
    return Ok(ranges);
  }

  // The windows planned so far, the next one starting at `offset`.
  ghost predicate PlanSoFar(r: seq<Window>, total: nat, window: nat, overlap: nat, offset: nat) {
    overlap < window && offset < total && Stepped(r, total, window, overlap)
    && offset == (if r == [] then 0 else r[|r| - 1].offset + (window - overlap))
    && (forall k :: 0 <= k < |r| ==> r[k].offset + window < total)
  }

  lemma PlanStarts(total: nat, window: nat, overlap: nat)
    requires overlap < window && total > 0
    ensures PlanSoFar([], total, window, overlap, 0)
  {}

  lemma PlanGrows(r: seq<Window>, total: nat, window: nat, overlap: nat, offset: nat)
    requires PlanSoFar(r, total, window, overlap, offset)
    ensures var length := Least(window, total - offset);
            var r' := r + [Window(offset, length)];
            if offset + length >= total then IsPlan(r', total, window, overlap)
            else PlanSoFar(r', total, window, overlap, offset + (window - overlap))
  {
    var w := Window(offset, Least(window, total - offset));
    SteppedGrows(r, w, total, window, overlap);
    hide Stepped, Least;
    var r' := r + [w];
    assert forall k :: 0 <= k < |r| ==> r'[k] == r[k];
    assert r'[|r|] == w;
    ShortLast(window, total - offset);
  }

  lemma ShortLast(window: nat, left: int)
    requires 0 < left
    ensures Least(window, left) >= left ==> Least(window, left) == left
    ensures Least(window, left) < left ==> window < left
  {}

  lemma SteppedGrows(r: seq<Window>, w: Window, total: nat, window: nat, overlap: nat)
    requires Stepped(r, total, window, overlap) && w.offset <= total && w.length == Least(window, total - w.offset)
    requires w.offset == (if r == [] then 0 else r[|r| - 1].offset + (window - overlap))
    ensures Stepped(r + [w], total, window, overlap)
  {
    var r' := r + [w];
    forall j, k | 0 <= j < k < |r'| && k == j + 1
      ensures r'[k].offset == r'[j].offset + (window - overlap)
    {
      assert r'[j] == r[j];
      if k < |r| { assert r'[k] == r[k]; }
    }
  }

  lemma PlanCovers(r: seq<Window>, total: nat, window: nat, overlap: nat)
    requires IsPlan(r, total, window, overlap)
    ensures Covers(r, Window(0, total), overlap)
  {
    forall i, n | 0 < n <= overlap + 1 && 0 <= i && i + n <= total
      ensures Inside(r, i, n)
    {
      PlanContains(r, total, window, overlap, i, n, |r| - 1);
    }
  }

  // Some window up to the k-th contains a run that starts no later than the k-th window's overlap ends.
  lemma {:induction false} PlanContains(r: seq<Window>, total: nat, window: nat, overlap: nat, i: nat, n: nat, k: nat)
    requires IsPlan(r, total, window, overlap) && k < |r|
    requires 0 < n <= overlap + 1 && i + n <= r[k].offset + r[k].length
    ensures Inside(r, i, n)
  {
    if r[k].offset <= i {
      assert Contains(r[k], i, n);
    } else {
      PlanContains(r, total, window, overlap, i, n, k - 1);
    }
  }

  lemma {:induction false} OffsetsAreMultiples(r: seq<Window>, total: nat, window: nat, overlap: nat, k: nat)
    requires overlap < window && Stepped(r, total, window, overlap) && k < |r|
    ensures r[k].offset == k * (window - overlap)
  {
    if k > 0 {
      OffsetsAreMultiples(r, total, window, overlap, k - 1);
      assert k * (window - overlap) == (k - 1) * (window - overlap) + (window - overlap);
    }
  }

  // A file above the window size takes exactly ceil((total - overlap) / (window - overlap)) windows.
  lemma PlanCount(r: seq<Window>, total: nat, window: nat, overlap: nat)
    requires IsPlan(r, total, window, overlap)
    ensures total > window ==> |r| == (total - overlap + (window - overlap) - 1) / (window - overlap)
    ensures total <= window ==> |r| == 1
  {
    var step, last := window - overlap, |r| - 1;
    if last > 0 {
      OffsetsAreMultiples(r, total, window, overlap, last);
      assert r[last].offset == r[last - 1].offset + step;
      assert |r| * step == last * step + step;
      assert r[last].length == total - last * step <= window;
      Quotient(total - overlap + step - 1, step, |r|);
    }
  }

  lemma TimesGrows(a: nat, b: nat, step: nat)
    requires a <= b
    ensures a * step <= b * step
  {}

  lemma Quotient(a: nat, step: nat, q: nat)
    requires step > 0 && q * step <= a < q * step + step
    ensures a / step == q
  {
    var d := a / step;
    assert a == d * step + a % step;
    if d > q {
      TimesGrows(q + 1, d, step);
    } else if d < q {
      TimesGrows(d + 1, q, step);
    }
  }

  // ---------- splitting ----------

  function Split(w: Window, minimum: int, overlap: int): (r: Result<Option<(Window, Window)>, BadWindow>)
    ensures r.Err? <==> w.length == 0 || minimum <= 0 || overlap < 0 || overlap >= minimum
    ensures r.Ok? ==> (r.value.Some? <==> (w.length + overlap) / 2 >= minimum)
    ensures r.Ok? && r.value.Some? ==>
              var (left, right) := r.value.value;
              left.offset == w.offset && right.offset + right.length == w.offset + w.length
              && left.offset + left.length == right.offset + overlap
              && minimum <= left.length < w.length && minimum <= right.length < w.length
  {
    if w.length == 0 || minimum <= 0 || overlap < 0 || overlap >= minimum then Err(BadWindow)
    else
      var leftLength := (w.length + overlap) / 2;
      var rightOffset := w.offset + leftLength - overlap;
      var rightLength := w.offset + w.length - rightOffset;
      if leftLength < minimum || rightLength < minimum || leftLength >= w.length || rightLength >= w.length
      then Ok(None)
      else Ok(Some((Window(w.offset, leftLength), Window(rightOffset, rightLength))))
  }

  lemma SplitCovers(w: Window, left: Window, right: Window, overlap: nat, a: seq<Window>, b: seq<Window>)
    requires left.offset == w.offset && right.offset + right.length == w.offset + w.length
    requires left.offset + left.length == right.offset + overlap
    requires Covers(a, left, overlap) && Covers(b, right, overlap)
    ensures Covers(a + b, w, overlap)
  {
    forall i, n | 0 < n <= overlap + 1 && Contains(w, i, n)
      ensures Inside(a + b, i, n)
    {
      if Contains(left, i, n) {
        var k :| 0 <= k < |a| && Contains(a[k], i, n);
        assert (a + b)[k] == a[k];
      } else {
        assert Contains(right, i, n);
        var k :| 0 <= k < |b| && Contains(b[k], i, n);
        assert (a + b)[|a| + k] == b[k];
      }
    }
  }

  // ---------- sending one window ----------

  const COMMAND: Bytes := [122, 73, 78, 83, 84, 82, 69, 65, 77, 0]  // "zINSTREAM\0"
  const STREAM_CHUNK_BYTES: nat := 1024 * 1024

  function BigEndian32(v: nat): Bytes { [v / 0x100_0000 % 256, v / 0x1_0000 % 256, v / 256 % 256, v % 256] }

  function BigEndian(s: Bytes): nat
    requires |s| >= 4
  {
    s[0] as int * 0x100_0000 + s[1] as int * 0x1_0000 + s[2] as int * 256 + s[3] as int
  }

  function Frame(chunk: Bytes): Bytes { BigEndian32(|chunk|) + chunk }

  function Frames(chunks: seq<Bytes>): Bytes {
    if chunks == [] then [] else Frames(chunks[..|chunks| - 1]) + Frame(chunks[|chunks| - 1])
  }

  function Joined(chunks: seq<Bytes>): Bytes {
    if chunks == [] then [] else Joined(chunks[..|chunks| - 1]) + chunks[|chunks| - 1]
  }

  // What ClamD reads: length-prefixed chunks up to an empty one, with nothing after it.
  function Unframed(s: Bytes): Option<Bytes>
    decreases |s|
  {
    if |s| < 4 then None
    else
      var n := BigEndian(s);
      if n == 0 then if |s| == 4 then Some([]) else None
      else if |s| < 4 + n then None
      else
        var rest :- Unframed(s[4 + n..]);
        Some(s[4..4 + n] + rest)
  }

  function Received(wire: Bytes): Option<Bytes> {
    if COMMAND <= wire then Unframed(wire[|COMMAND|..]) else None
  }

  lemma BigEndianIsRead(v: nat, rest: Bytes)
    requires v < 0x1_0000_0000
    ensures BigEndian(BigEndian32(v) + rest) == v
  {
    var s := BigEndian32(v) + rest;
    assert v / 256 == v / 0x1_0000 * 256 + v / 256 % 256;
    assert v / 0x1_0000 == v / 0x100_0000 * 256 + v / 0x1_0000 % 256;
  }

  lemma FrameIsRead(chunk: Bytes, rest: Bytes)
    requires 0 < |chunk| < 0x1_0000_0000
    ensures Unframed(Frame(chunk) + rest)
         == match Unframed(rest) case None => None case Some(more) => Some(chunk + more)
  {
    var s := Frame(chunk) + rest;
    assert s == BigEndian32(|chunk|) + (chunk + rest);
    BigEndianIsRead(|chunk|, chunk + rest);
    assert s[4..4 + |chunk|] == chunk && s[4 + |chunk|..] == rest;
  }

  lemma {:induction false} FramesAreRead(chunks: seq<Bytes>, rest: Bytes)
    requires forall c <- chunks :: 0 < |c| < 0x1_0000_0000
    ensures Unframed(Frames(chunks) + rest)
         == match Unframed(rest) case None => None case Some(more) => Some(Joined(chunks) + more)
  {
    hide Unframed, Frame;
    if chunks == [] {
      assert Frames(chunks) + rest == rest;
      match Unframed(rest) {
        case None =>
        case Some(more) => assert [] + more == more;
      }
    } else {
      var front, last := chunks[..|chunks| - 1], chunks[|chunks| - 1];
      assert Frames(chunks) + rest == Frames(front) + (Frame(last) + rest);
      FramesAreRead(front, Frame(last) + rest);
      FrameIsRead(last, rest);
      match Unframed(rest) {
        case None =>
        case Some(more) => assert Joined(front) + (last + more) == Joined(chunks) + more;
      }
    }
  }

  // `served` is what each read returns: any number of bytes up to the number asked for.
  method SendWindow(file: Bytes, w: Window, served: nat -> nat) returns (wire: Option<Bytes>)
    requires w.offset + w.length <= |file|
    ensures wire.Some? ==> Received(wire.value) == Some(file[w.offset..w.offset + w.length])
    ensures wire.None? ==> exists at :: w.offset <= at < w.offset + w.length && served(at) == 0
  {
    hide Unframed, Frames, Joined, BigEndian32;
    ghost var chunks: seq<Bytes> := [];
    var sent: Bytes := COMMAND;
    var current, remaining := w.offset, w.length;
    NoFrames();
    while remaining > 0
      invariant current + remaining == w.offset + w.length && w.offset <= current && 0 <= remaining
      invariant sent == COMMAND + Frames(chunks) && Joined(chunks) == file[w.offset..current]
      invariant forall c <- chunks :: 0 < |c| < 0x1_0000_0000
    {
      var count := Least(served(current), Least(STREAM_CHUNK_BYTES, remaining));
      var chunk := file[current..current + count];
      if chunk == [] {
        assert served(current) == 0;
        return None;
      }
      FramesSnoc(chunks, chunk);
      assert file[w.offset..current + count] == file[w.offset..current] + chunk;
      sent := sent + (BigEndian32(|chunk|) + chunk);
      current := current + |chunk|;
      remaining := remaining - |chunk|;
      chunks := chunks + [chunk];
    }
    EndIsRead(chunks);
    AfterCommand(Frames(chunks), BigEndian32(0));
    return Some(sent + BigEndian32(0));
  }

  lemma NoFrames()
    ensures Frames([]) == [] && Joined([]) == []
  {}

  lemma AfterCommand(body: Bytes, end: Bytes)
    ensures Received((COMMAND + body) + end) == Unframed(body + end)
  {
    var wire := (COMMAND + body) + end;
    assert wire[|COMMAND|..] == body + end;
  }

  lemma FramesSnoc(chunks: seq<Bytes>, chunk: Bytes)
    ensures Frames(chunks + [chunk]) == Frames(chunks) + Frame(chunk)
    ensures Joined(chunks + [chunk]) == Joined(chunks) + chunk
    ensures COMMAND + Frames(chunks + [chunk]) == (COMMAND + Frames(chunks)) + Frame(chunk)
  {
    assert (chunks + [chunk])[..|chunks|] == chunks;
  }

  lemma EndIsRead(chunks: seq<Bytes>)
    requires forall c <- chunks :: 0 < |c| < 0x1_0000_0000
    ensures Unframed(Frames(chunks) + BigEndian32(0)) == Some(Joined(chunks))
  {
    FramesAreRead(chunks, BigEndian32(0));
    assert Unframed(BigEndian32(0)) == Some([]);
    assert Joined(chunks) + [] == Joined(chunks);
  }

  // ---------- receiving the reply ----------

  const MAX_REPLY_BYTES: nat := 1024 * 1024

  // One call of recv: a timeout at which the scan may be interrupted, or bytes; none mean a closed connection.
  datatype Receipt = Timeout(interrupted: bool) | Chunk(bytes: Bytes)

  datatype Broken = Interrupted | Closed | Oversized

  // The bytes before the first terminator.
  function UntilNul(s: Bytes): (r: Bytes)
    ensures |r| <= |s| && r == s[..|r|] && 0 !in r && (|r| < |s| ==> s[|r|] == 0)
  {
    if s == [] || s[0] == 0 then [] else [s[0]] + UntilNul(s[1..])
  }

  // Everything received by the first receipts.
  function Stream(receipts: seq<Receipt>): Bytes {
    if receipts == [] then []
    else Stream(receipts[..|receipts| - 1])
         + match receipts[|receipts| - 1] case Timeout(_) => [] case Chunk(bytes) => bytes
  }

  // An interruption, or a closed connection.
  predicate Broke(r: Receipt) { match r case Timeout(interrupted) => interrupted case Chunk(bytes) => bytes == [] }

  predicate Alive(receipts: seq<Receipt>) { forall r <- receipts :: !Broke(r) }

  // A reply is returned exactly when it is complete, bounded, and everything up to its end was received.
  ghost predicate Replied(receipts: seq<Receipt>, reply: Bytes) {
    exists n :: 0 <= n <= |receipts| && Alive(receipts[..n]) && Answered(Stream(receipts[..n]), reply)
  }

  predicate Answered(stream: Bytes, reply: Bytes) {
    0 in stream && reply == UntilNul(stream) && |reply| <= MAX_REPLY_BYTES
  }

  lemma UntilNulOfConcat(a: Bytes, b: Bytes)
    requires 0 !in a
    ensures UntilNul(a + b) == a + UntilNul(b) && (0 in a + b <==> 0 in b)
  {
    if a == [] {
      assert a + b == b;
    } else {
      assert (a + b)[0] in a && (a + b)[1..] == a[1..] + b;
      UntilNulOfConcat(a[1..], b);
    }
  }

  lemma StreamGrows(receipts: seq<Receipt>, n: nat, m: nat)
    requires n <= m <= |receipts|
    ensures Stream(receipts[..n]) <= Stream(receipts[..m])
  {
    if n < m {
      StreamGrows(receipts, n, m - 1);
      assert receipts[..m][..m - 1] == receipts[..m - 1];
    }
  }

  lemma StreamSnoc(receipts: seq<Receipt>, n: nat)
    requires n < |receipts|
    ensures Stream(receipts[..n + 1])
         == Stream(receipts[..n]) + match receipts[n] case Timeout(_) => [] case Chunk(bytes) => bytes
    ensures Alive(receipts[..n + 1]) <==> Alive(receipts[..n]) && !Broke(receipts[n])
  {
    assert receipts[..n + 1][..n] == receipts[..n];
    var all := receipts[..n + 1];
    assert all == receipts[..n] + [receipts[n]] && receipts[n] in all;
    if Alive(all) { assert forall r <- receipts[..n] :: r in all; }
    if Alive(receipts[..n]) && !Broke(receipts[n]) { assert forall r <- all :: r in receipts[..n] || r == receipts[n]; }
  }

  method ReceiveReply(receipts: seq<Receipt>) returns (r: Result<Bytes, Broken>)
    ensures r.Ok? ==> Replied(receipts, r.value)
    ensures r.Err? ==> forall reply :: !Replied(receipts, reply)
  {
    hide Stream, UntilNul, Replied, Alive;
    var collected: Bytes := [];
    NothingReceived();
    assert receipts[..0] == [];
    for n := 0 to |receipts|
      invariant Alive(receipts[..n]) && collected == Stream(receipts[..n]) && 0 !in collected
      invariant |collected| <= MAX_REPLY_BYTES
    {
      StreamSnoc(receipts, n);
      match receipts[n] {
        case Timeout(interrupted) =>
          if interrupted {
            NeverReplied(receipts, n);
            return Err(Interrupted);
          }
        case Chunk(chunk) =>
          if chunk == [] {
            NeverReplied(receipts, n);
            return Err(Closed);
          }
          var selected := UntilNul(chunk);
          UntilNulOfConcat(collected, chunk);
          if |collected| + |selected| > MAX_REPLY_BYTES {
            TooLong(receipts, n + 1);
            return Err(Oversized);
          }
          if |selected| < |chunk| {
            assert 0 in chunk;
            RepliedAt(receipts, n + 1, collected + selected);
            return Ok(collected + selected);
          }
          collected := collected + selected;
      }
    }
    NeverReplied(receipts, |receipts|);
    return Err(Closed);
  }

  lemma NothingReceived()
    ensures Alive([]) && Stream([]) == []
  {}

  lemma RepliedAt(receipts: seq<Receipt>, n: nat, reply: Bytes)
    requires n <= |receipts| && Alive(receipts[..n]) && Answered(Stream(receipts[..n]), reply)
    ensures Replied(receipts, reply)
  {}

  // Without a terminator so far, an interruption, a closed connection or the end of the receipts ends all hope.
  lemma NeverReplied(receipts: seq<Receipt>, n: nat)
    requires n <= |receipts| && 0 !in Stream(receipts[..n]) && (n < |receipts| ==> Broke(receipts[n]))
    ensures forall reply :: !Replied(receipts, reply)
  {
    NotYet(receipts, n);
  }

  // While no terminator has come, only a longer stream can hold the reply, past the next receipt.
  lemma NotYet(receipts: seq<Receipt>, n: nat)
    requires n <= |receipts| && 0 !in Stream(receipts[..n])
    ensures forall m :: 0 <= m <= |receipts| && 0 in Stream(receipts[..m]) ==> m > n
    ensures forall m :: n < m <= |receipts| ==> receipts[n] in receipts[..m]
  {
    forall m | 0 <= m <= |receipts| && 0 in Stream(receipts[..m])
      ensures m > n
    {
      if m <= n { StreamGrows(receipts, m, n); }
    }
    forall m | n < m <= |receipts|
      ensures receipts[n] in receipts[..m]
    {
      assert receipts[..m][n] == receipts[n];
    }
  }

  lemma TooLong(receipts: seq<Receipt>, n: nat)
    requires 0 < n <= |receipts| && 0 !in Stream(receipts[..n - 1])
    requires |UntilNul(Stream(receipts[..n]))| > MAX_REPLY_BYTES
    ensures forall reply :: !Replied(receipts, reply)
  {
    forall reply, m | 0 <= m <= |receipts| && Alive(receipts[..m])
      ensures !Answered(Stream(receipts[..m]), reply)
    {
      if 0 in Stream(receipts[..m]) {
        NotYet(receipts, n - 1);
        StreamGrows(receipts, n, m);
        LongerReply(Stream(receipts[..n]), Stream(receipts[..m]));
      }
    }
  }

  lemma LongerReply(a: Bytes, b: Bytes)
    requires a <= b
    ensures |UntilNul(a)| <= |UntilNul(b)|
  {
    if a != [] && a[0] != 0 { LongerReply(a[1..], b[1..]); }
  }
}
