// One range of a large file: scanned whole, or split for as long as ClamAV reaches a limit on a part.
module RangeScan {
  import opened ByteStrings
  import opened Options
  import opened MediaWindows
  import ScanReply

  // How one request ended.
  datatype Reply = Text(response: string) | Interrupted(stopAsked: bool) | Unreadable

  datatype Stop = Cancelled | Failed

  // One reply kept for the report; an unresolved window is subdivided.
  datatype Line = Line(window: Window, resolved: bool)

  datatype Outcome = Outcome(infected: bool, lines: seq<Line>)

  // A window, what was sent for it, and what ClamD answered.
  datatype Sent = Sent(window: Window, wire: Bytes, response: string)

  function Leaves(lines: seq<Line>): seq<Window> {
    if lines == [] then []
    else Leaves(lines[..|lines| - 1]) + if lines[|lines| - 1].resolved then [lines[|lines| - 1].window] else []
  }

  // The bytes of each window beyond its overlap.
  function Excess(ws: seq<Window>, overlap: int): int {
    if ws == [] then 0 else Excess(ws[..|ws| - 1], overlap) + ws[|ws| - 1].length - overlap
  }

  // ClamD received the window exactly as it is in the file.
  predicate Delivered(s: Sent, w: Window, file: Bytes) {
    s.window == w && w.offset + w.length <= |file| && Received(s.wire) == Some(file[w.offset..w.offset + w.length])
  }

  // And answered OK.
  predicate Matches(s: Sent, w: Window, file: Bytes) {
    Delivered(s, w, file) && ScanReply.Parse(s.response) == ScanReply.NoThreat
  }

  // A part of the file was delivered and answered with a threat.
  ghost predicate Detected(file: Bytes, exchanges: set<Sent>) {
    exists s <- exchanges :: Delivered(s, s.window, file) && ScanReply.Parse(s.response).Threat?
  }

  lemma OneThreat(w: Window, file: Bytes, exchanges: set<Sent>, s: Sent)
    requires s in exchanges && Delivered(s, w, file) && ScanReply.Parse(s.response).Threat?
    ensures Detected(file, exchanges)
  {}

  lemma DetectedGrows(file: Bytes, before: set<Sent>, after: set<Sent>)
    requires Detected(file, before) && before <= after
    ensures Detected(file, after)
  {}

  // ClamD answers OK, or that the window is too large for it while it may still be split.
  ghost predicate Smooth(reply: Reply, w: Window, minimum: int, overlap: int) {
    reply.Text?
    && (ScanReply.Parse(reply.response) == ScanReply.NoThreat
        || (ScanReply.TooLarge(reply.response) && 0 <= overlap < minimum && (w.length + overlap) / 2 >= minimum))
  }

  // Every reply is smooth, reads return something, nobody asks to stop and the file stays the same.
  ghost predicate Calm(replies: (nat, Window) -> Reply, served: nat -> (nat -> nat), siblingStopped: nat -> bool,
                       sameFile: nat -> bool, minimum: int, overlap: int) {
    (forall n: nat, w: Window :: Smooth(replies(n, w), w, minimum, overlap))
    && (forall n: nat, at: nat :: served(n)(at) > 0)
    && (forall n :: !siblingStopped(n)) && forall n :: sameFile(n)
  }

  // What a ClamD does that inspects at most so many bytes of a stream, and finds nothing.
  ghost predicate Bounded(replies: (nat, Window) -> Reply, most: nat) {
    forall n: nat, w: Window ::
      replies(n, w).Text?
      && if w.length <= most then replies(n, w).response == "stream: OK" else ScanReply.TooLarge(replies(n, w).response)
  }

  // That is smooth when anything beyond the limit may be split.
  lemma BoundedIsSmooth(replies: (nat, Window) -> Reply, most: nat, minimum: int, overlap: int, n: nat, w: Window)
    requires Bounded(replies, most) && 0 <= overlap < minimum && most + 1 >= 2 * minimum - overlap
    ensures Smooth(replies(n, w), w, minimum, overlap)
  {
    hide ScanReply.Parse, ScanReply.TooLarge;
    ScanReply.OkIsClean();
    assert replies(n, w).Text?;
  }

  // So with such a ClamD, steady reads and nobody asking to stop, all goes well.
  lemma BoundedIsCalm(replies: (nat, Window) -> Reply, served: nat -> (nat -> nat), siblingStopped: nat -> bool,
                      sameFile: nat -> bool, most: nat, minimum: int, overlap: int)
    requires Bounded(replies, most) && 0 <= overlap < minimum && most + 1 >= 2 * minimum - overlap
    requires forall n: nat, at: nat :: served(n)(at) > 0
    requires forall n :: !siblingStopped(n) && sameFile(n)
    ensures Calm(replies, served, siblingStopped, sameFile, minimum, overlap)
  {
    hide Smooth, Bounded;
    forall n: nat, w: Window
      ensures Smooth(replies(n, w), w, minimum, overlap)
    {
      BoundedIsSmooth(replies, most, minimum, overlap, n, w);
    }
  }

  // ClamD reached a limit that smaller windows cannot resolve.
  ghost predicate Hopeless(reply: Reply) { reply.Text? && ScanReply.OtherLimit(reply.response) }

  // ClamD names a threat.
  predicate Alarming(reply: Reply) { reply.Text? && ScanReply.Parse(reply.response).Threat? }

  ghost predicate Steady(served: nat -> nat) { forall at: nat :: served(at) > 0 }

  // From this request on, a reply with a limit that splitting cannot resolve, or about a file that has changed, was
  // the last one and failed the range; and one that names a threat in the file as opened was the last one and
  // infected it.
  ghost predicate Heeded(replies: (nat, Window) -> Reply, served: nat -> (nat -> nat), sameFile: nat -> bool,
                         asked: seq<Window>, from: nat, failed: bool, infected: bool) {
    forall n :: from <= n < |asked| ==>
      (Hopeless(replies(n, asked[n])) || (replies(n, asked[n]).Text? && !sameFile(n + 1)) ==>
         n == |asked| - 1 && failed)
      && (Alarming(replies(n, asked[n])) && sameFile(n + 1) && Steady(served(n)) ==> n == |asked| - 1 && infected)
  }

  // What calm means for one request.
  lemma CalmRequest(replies: (nat, Window) -> Reply, served: nat -> (nat -> nat), siblingStopped: nat -> bool,
                    sameFile: nat -> bool, minimum: int, overlap: int, n: nat, w: Window)
    requires Calm(replies, served, siblingStopped, sameFile, minimum, overlap)
    ensures Steady(served(n)) && !siblingStopped(n) && !siblingStopped(n + 1) && sameFile(n + 1)
    ensures replies(n, w).Text?
            && var finding := ScanReply.Parse(replies(n, w).response);
               finding.NoThreat?
               || (finding.Limit? && ScanReply.Divisible(finding.limit)
                   && 0 <= overlap < minimum && (w.length + overlap) / 2 >= minimum)
  {
    hide ScanReply.Parse, ScanReply.TooLarge, ScanReply.Divisible;
    assert Smooth(replies(n, w), w, minimum, overlap);
    ScanReply.LimitsDecide(replies(n, w).response);
  }

  lemma ReplyDecides(reply: Reply)
    ensures Hopeless(reply) ==>
              reply.Text? && ScanReply.Parse(reply.response).Limit?
              && !ScanReply.Divisible(ScanReply.Parse(reply.response).limit)
    ensures Alarming(reply) ==> reply.Text? && ScanReply.Parse(reply.response).Threat?
  {
    hide ScanReply.Parse, ScanReply.OtherLimit, ScanReply.TooLarge, ScanReply.Divisible;
    if reply.Text? { ScanReply.LimitsDecide(reply.response); }
  }

  lemma Unsteady(served: nat -> nat)
    requires exists at :: served(at) == 0
    ensures !Steady(served)
  {}

  lemma HeededOn(replies: (nat, Window) -> Reply, served: nat -> (nat -> nat), sameFile: nat -> bool,
                 first: seq<Window>, asked: seq<Window>, from: nat, failed: bool, infected: bool)
    requires first <= asked && from <= |first|
    requires Heeded(replies, served, sameFile, first, from, false, false)
    requires Heeded(replies, served, sameFile, asked, |first|, failed, infected)
    ensures Heeded(replies, served, sameFile, asked, from, failed, infected)
  {
    hide Hopeless, Alarming, Steady;
  }

  ghost predicate Answered(w: Window, file: Bytes, exchanges: set<Sent>) {
    exists s <- exchanges :: Matches(s, w, file)
  }

  ghost predicate AllAnswered(ws: seq<Window>, file: Bytes, exchanges: set<Sent>) {
    forall k :: 0 <= k < |ws| ==> Answered(ws[k], file, exchanges)
  }

  // How a range is cut up: the windows cover it, each was answered, and the cut cost nothing but overlaps.
  ghost predicate Resolved(w: Window, lines: seq<Line>, minimum: int, overlap: int, file: Bytes, exchanges: set<Sent>) {
    var ws := Leaves(lines);
    Covers(ws, w, overlap) && AllAnswered(ws, file, exchanges)
    && Excess(ws, overlap) == w.length - overlap && |lines| == 2 * |ws| - 1
    && (ws == [w] || (0 <= overlap < minimum && forall k :: 0 <= k < |ws| ==> ws[k].length >= minimum))
  }

  lemma {:induction false} LeavesConcat(a: seq<Line>, b: seq<Line>)
    ensures Leaves(a + b) == Leaves(a) + Leaves(b)
  {
    if b == [] {
      assert a + b == a;
    } else {
      assert (a + b)[..|a + b| - 1] == a + b[..|b| - 1];
      LeavesConcat(a, b[..|b| - 1]);
    }
  }

  lemma {:induction false} ExcessConcat(a: seq<Window>, b: seq<Window>, overlap: int)
    ensures Excess(a + b, overlap) == Excess(a, overlap) + Excess(b, overlap)
  {
    if b == [] {
      assert a + b == a;
    } else {
      assert (a + b)[..|a + b| - 1] == a + b[..|b| - 1];
      ExcessConcat(a, b[..|b| - 1], overlap);
    }
  }

  lemma AnsweredGrows(ws: seq<Window>, file: Bytes, before: set<Sent>, after: set<Sent>)
    requires AllAnswered(ws, file, before) && before <= after
    ensures AllAnswered(ws, file, after)
  {
    forall k | 0 <= k < |ws|
      ensures Answered(ws[k], file, after)
    {
      assert Answered(ws[k], file, before);
      var s :| s in before && Matches(s, ws[k], file);
      assert s in after;
    }
  }

  lemma OneWindow(w: Window, minimum: int, overlap: int, file: Bytes, exchanges: set<Sent>, s: Sent)
    requires s in exchanges && Matches(s, w, file)
    ensures Resolved(w, [Line(w, true)], minimum, overlap, file, exchanges)
  {
    hide Matches, Answered, Covers;
    OneLeaf(w, overlap);
    assert Answered(w, file, exchanges) by { OneAnswered(w, file, exchanges, s); }
  }

  lemma OneAnswered(w: Window, file: Bytes, exchanges: set<Sent>, s: Sent)
    requires s in exchanges && Matches(s, w, file)
    ensures Answered(w, file, exchanges)
  {}

  lemma OneLeaf(w: Window, overlap: int)
    ensures Leaves([Line(w, true)]) == [w] && Excess([w], overlap) == w.length - overlap && Covers([w], w, overlap)
  {
    assert [Line(w, true)][..0] == [] && [w][..0] == [];
    forall i, n | 0 < n <= overlap + 1 && Contains(w, i, n)
      ensures Inside([w], i, n)
    {
      assert Contains([w][0], i, n);
    }
  }

  // A resolved range stays resolved when more windows are answered.
  lemma ResolvedGrows(w: Window, lines: seq<Line>, minimum: int, overlap: int, file: Bytes, before: set<Sent>,
      after: set<Sent>)
    requires Resolved(w, lines, minimum, overlap, file, before) && before <= after
    ensures Resolved(w, lines, minimum, overlap, file, after)
  {
    AnsweredGrows(Leaves(lines), file, before, after);
  }

  lemma HalvesLeaves(w: Window, a: seq<Line>, b: seq<Line>)
    ensures Leaves([Line(w, false)] + a + b) == Leaves(a) + Leaves(b)
  {
    assert Leaves([Line(w, false)]) == Leaves([]) + [] == [];
    LeavesConcat([Line(w, false)], a);
    LeavesConcat([Line(w, false)] + a, b);
  }

  lemma AnsweredConcat(a: seq<Window>, b: seq<Window>, file: Bytes, exchanges: set<Sent>)
    requires AllAnswered(a, file, exchanges) && AllAnswered(b, file, exchanges)
    ensures AllAnswered(a + b, file, exchanges)
  {
    hide Answered;
  }

  lemma TwoHalves(w: Window, left: Window, right: Window, a: seq<Line>, b: seq<Line>, minimum: int, overlap: int,
                  file: Bytes, exchanges: set<Sent>)
    requires Split(w, minimum, overlap) == Ok(Some((left, right)))
    requires Resolved(left, a, minimum, overlap, file, exchanges)
    requires Resolved(right, b, minimum, overlap, file, exchanges)
    ensures Resolved(w, [Line(w, false)] + a + b, minimum, overlap, file, exchanges)
  {
    hide Answered, Covers, Split, Leaves, Excess;
    HalvesLeaves(w, a, b);
    AnsweredConcat(Leaves(a), Leaves(b), file, exchanges);
    ExcessConcat(Leaves(a), Leaves(b), overlap);
    SplitCovers(w, left, right, overlap, Leaves(a), Leaves(b));
  }

  class RangeScanner {
    const file: Bytes
    const minimum: int
    const overlap: int

    // The environment, by the number of requests made so far; a reply depends on the window asked about.
    const replies: (nat, Window) -> Reply
    const served: nat -> (nat -> nat)
    const siblingStopped: nat -> bool
    const sameFile: nat -> bool

    var cancellation: bool
    var requests: nat
    var exchanges: set<Sent>
    ghost var asked: seq<Window>

    constructor (file: Bytes, minimum: int, overlap: int, replies: (nat, Window) -> Reply,
                 served: nat -> (nat -> nat), siblingStopped: nat -> bool, sameFile: nat -> bool)
      ensures this.file == file && this.minimum == minimum && this.overlap == overlap
      ensures this.replies == replies && this.served == served
      ensures this.siblingStopped == siblingStopped && this.sameFile == sameFile
      ensures !cancellation && requests == 0 && exchanges == {} && asked == []
    {
      this.file, this.minimum, this.overlap := file, minimum, overlap;
      this.replies, this.served, this.siblingStopped, this.sameFile := replies, served, siblingStopped, sameFile;
      cancellation, requests, exchanges, asked := false, 0, {}, [];
    }

    // One request for one window, remembered with what was sent and what came back.
    method ScanWindow(w: Window) returns (r: Result<Reply, Stop>)
      requires w.offset + w.length <= |file|
      modifies this`requests, this`exchanges, this`asked
      ensures requests == old(requests) + 1 && old(exchanges) <= exchanges && asked == old(asked) + [w]
      ensures r.Ok? ==> r.value == replies(old(requests), w)
      ensures r.Ok? && r.value.Text? ==>
                exists s <- exchanges :: Delivered(s, w, file) && s.response == r.value.response
      ensures r.Err? ==> exists at :: served(old(requests))(at) == 0
    {
      hide ScanReply.Parse;
      var wire := SendWindow(file, w, served(requests));
      var reply := replies(requests, w);
      requests, asked := requests + 1, asked + [w];
      if wire.None? { return Err(Failed); }
      if reply.Text? {
        exchanges := exchanges + {Sent(w, wire.value, reply.response)};
        assert Delivered(Sent(w, wire.value, reply.response), w, file);
      }
      return Ok(reply);
    }

    lemma NothingToHeed(asked: seq<Window>)
      ensures Heeded(replies, served, sameFile, asked, |asked|, false, false)
    {}

    // What must follow from the last reply.
    lemma HeedOwn(asked: seq<Window>, w: Window)
      requires asked != [] && asked[|asked| - 1] == w
      ensures var n := |asked| - 1;
              forall failed, infected ::
                (Hopeless(replies(n, w)) || (replies(n, w).Text? && !sameFile(n + 1)) ==> failed)
                && (Alarming(replies(n, w)) && sameFile(n + 1) && Steady(served(n)) ==> infected) ==>
                  Heeded(replies, served, sameFile, asked, n, failed, infected)
    {
      hide Hopeless, Alarming, Steady;
    }

    method ScanRange(w: Window) returns (r: Result<Outcome, Stop>)
      requires w.offset + w.length <= |file| && |asked| == requests
      modifies this`cancellation, this`requests, this`exchanges, this`asked
      ensures old(exchanges) <= exchanges && old(asked) <= asked && |asked| == requests
      ensures r.Ok? && !r.value.infected ==>
                Resolved(w, r.value.lines, minimum, overlap, file, exchanges)
                && requests == old(requests) + |r.value.lines|
      ensures r.Ok? && r.value.infected ==> cancellation && Detected(file, exchanges)
      ensures old(cancellation) ==> r == Err(Cancelled)
      ensures r == Err(Cancelled) ==> cancellation
      ensures Calm(replies, served, siblingStopped, sameFile, minimum, overlap) && !old(cancellation) ==>
                r.Ok? && !r.value.infected && !cancellation
      ensures Heeded(replies, served, sameFile, asked, old(requests), r == Err(Failed), r.Ok? && r.value.infected)
      decreases w.length
    {
      hide Resolved, Delivered, Detected, ScanReply.Parse, ScanReply.TooLarge, ScanReply.OtherLimit,
           ScanReply.Divisible, Hopeless, Alarming, Steady, Heeded, Calm, Smooth;
      if Calm(replies, served, siblingStopped, sameFile, minimum, overlap) {
        CalmRequest(replies, served, siblingStopped, sameFile, minimum, overlap, requests, w);
      }
      cancellation := cancellation || siblingStopped(requests);
      if cancellation {
        NothingToHeed(asked);
        return Err(Cancelled);
      }
      ghost var before := requests;
      var raw := ScanWindow(w);
      ghost var own := asked;
      ReplyDecides(replies(before, w));
      if raw.Err? { Unsteady(served(before)); }
      HeedOwn(asked, w);
      cancellation := cancellation || siblingStopped(requests);
      if raw.Err? { return Err(Failed); }
      match raw.value {
        case Interrupted(stopAsked) =>
          return Err(if cancellation && !stopAsked then Cancelled else Failed);
        case Unreadable => return Err(Failed);
        case Text(response) =>
          if !sameFile(requests) { return Err(Failed); }
          var finding := ScanReply.Parse(response);
          if finding.Threat? {
            ghost var s :| s in exchanges && Delivered(s, w, file) && s.response == response;
            OneThreat(w, file, exchanges, s);
            cancellation := true;
            return Ok(Outcome(true, [Line(w, true)]));
          }
          if finding.NoThreat? {
            ghost var s :| s in exchanges && Delivered(s, w, file) && s.response == response;
            OneWindow(w, minimum, overlap, file, exchanges, s);
            return Ok(Outcome(false, [Line(w, true)]));
          }
          if !finding.Limit? || !ScanReply.Divisible(finding.limit) { return Err(Failed); }
          var split := Split(w, minimum, overlap);
          if split.Err? || split.value.None? { return Err(Failed); }
          var (left, right) := split.value.value;
          var lines := [Line(w, false)];
          var first := ScanRange(left);
          HeededOn(replies, served, sameFile, own, asked, before, first == Err(Failed),
              first.Ok? && first.value.infected);
          if first.Err? { return first; }
          lines := lines + first.value.lines;
          if first.value.infected {
            cancellation := true;
            return Ok(Outcome(true, lines));
          }
          ghost var half, asked1 := exchanges, asked;
          var second := ScanRange(right);
          HeededOn(replies, served, sameFile, asked1, asked, before, second == Err(Failed),
              second.Ok? && second.value.infected);
          if second.Err? { return second; }
          lines := lines + second.value.lines;
          if second.value.infected {
            cancellation := true;
            return Ok(Outcome(true, lines));
          }
          ResolvedGrows(left, first.value.lines, minimum, overlap, file, half, exchanges);
          TwoHalves(w, left, right, first.value.lines, second.value.lines, minimum, overlap, file, exchanges);
          return Ok(Outcome(false, lines));
      }
    }
  }

  // ---------- what a clean range means ----------

  lemma {:induction false} ExcessAtLeast(ws: seq<Window>, minimum: nat, overlap: nat)
    requires forall k :: 0 <= k < |ws| ==> ws[k].length >= minimum
    requires overlap < minimum
    ensures Excess(ws, overlap) >= |ws| * (minimum - overlap)
  {
    if ws != [] {
      ExcessAtLeast(ws[..|ws| - 1], minimum, overlap);
      assert |ws| * (minimum - overlap) == (|ws| - 1) * (minimum - overlap) + (minimum - overlap);
    }
  }

  // A fully resolved window costs at most max(1, (length - overlap) / (minimum - overlap)) windows,
  // and one request more than twice their number less two.
  lemma SplittingCost(w: Window, lines: seq<Line>, minimum: nat, overlap: nat, file: Bytes, exchanges: set<Sent>)
    requires overlap < minimum && Resolved(w, lines, minimum, overlap, file, exchanges)
    ensures |lines| == 2 * |Leaves(lines)| - 1
    ensures |Leaves(lines)| <= 1 || |Leaves(lines)| <= (w.length - overlap) / (minimum - overlap)
  {
    var ws := Leaves(lines);
    if |ws| > 1 {
      ExcessAtLeast(ws, minimum, overlap);
      AtMostQuotient(|ws|, minimum - overlap, w.length - overlap);
    }
  }

  lemma AtMostQuotient(n: nat, unit: nat, total: int)
    requires unit > 0 && n * unit <= total
    ensures n <= total / unit
  {
    var q := total / unit;
    assert total == q * unit + total % unit;
    if q < n { TimesGrows(q + 1, n, unit); }
  }

  // When every range of the plan is resolved, every byte and every run of at most `overlap + 1` bytes
  // of the file lies in one window that was sent to ClamD exactly as it is in the file and answered OK.
  lemma CleanMeansInspected(file: Bytes, window: nat, minimum: int, overlap: nat, ranges: seq<Window>,
                            lines: seq<seq<Line>>, exchanges: set<Sent>, i: nat, n: nat) returns (s: Sent)
    requires IsPlan(ranges, |file|, window, overlap) && |lines| == |ranges|
    requires forall k :: 0 <= k < |ranges| ==> Resolved(ranges[k], lines[k], minimum, overlap, file, exchanges)
    requires 0 < n <= overlap + 1 && i + n <= |file|
    ensures s in exchanges && Matches(s, s.window, file) && Contains(s.window, i, n)
  {
    PlanCovers(ranges, |file|, window, overlap);
    assert Contains(Window(0, |file|), i, n);
    assert Inside(ranges, i, n);
    var k :| 0 <= k < |ranges| && Contains(ranges[k], i, n);
    assert Resolved(ranges[k], lines[k], minimum, overlap, file, exchanges);
    var ws := Leaves(lines[k]);
    assert Inside(ws, i, n);
    var j :| 0 <= j < |ws| && Contains(ws[j], i, n);
    assert Answered(ws[j], file, exchanges);
    s :| s in exchanges && Matches(s, ws[j], file);
  }
}
