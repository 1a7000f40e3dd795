// What the text of a ClamD reply means.
module ScanReply {
  import opened Options

  // A limit or a policy refusal is neither clean nor infected.
  datatype Finding = NoThreat | Threat(name: string) | Limit(limit: string) | Policy(warning: string) | Unusable

  const MARKERS: seq<string> := ["heuristics.limits.exceeded", "size limit exceeded", "scan limit exceeded",
                                 "limits exceeded", "stream size limit exceeded"]

  const WARNINGS: seq<string> := ["heuristics.encrypted.", "heuristics.broken.", "broken.executable", "broken.media"]

  const LIMIT_PREFIX := "heuristics.limits.exceeded."
  const STREAM_LIMIT := "instream size limit exceeded"

  // ---------- text ----------

  predicate IsSpace(c: char) {
    var k := c as int;
    9 <= k <= 13 || 28 <= k <= 32 || k == 0x85 || k == 0xA0 || k == 0x1680 || 0x2000 <= k <= 0x200A
    || k == 0x2028 || k == 0x2029 || k == 0x202F || k == 0x205F || k == 0x3000
  }

  predicate IsNul(c: char) { c == '\0' }

  predicate IsWord(c: char) { 'a' <= c <= 'z' || 'A' <= c <= 'Z' || '0' <= c <= '9' || c == '_' }

  // The long s and the Kelvin sign are the only letters outside ASCII that fold to a single letter inside it.
  function Fold(c: char): char {
    if 'A' <= c <= 'Z' then (c as int + 32) as char
    else if c as int == 0x17F then 's'
    else if c as int == 0x212A then 'k'
    else c
  }

  // Letters that fold to several characters, some of them in ASCII: the sharp s, ligatures and accented letters.
  predicate FoldsToSeveral(c: char) {
    var k := c as int;
    k == 0xDF || k == 0x130 || k == 0x149 || k == 0x1F0 || 0x1E96 <= k <= 0x1E9A || k == 0x1E9E || 0xFB00 <= k <= 0xFB06
  }

  function Lower(s: string): (r: string)
    ensures |r| == |s| && forall i :: 0 <= i < |s| ==> r[i] == Fold(s[i])
  {
    seq(|s|, i requires 0 <= i < |s| => Fold(s[i]))
  }

  function StripFront(s: string, drop: char -> bool): string {
    if s != "" && drop(s[0]) then StripFront(s[1..], drop) else s
  }

  function StripBack(s: string, drop: char -> bool): string {
    if s != "" && drop(s[|s| - 1]) then StripBack(s[..|s| - 1], drop) else s
  }

  function Strip(s: string, drop: char -> bool): string { StripBack(StripFront(s, drop), drop) }

  predicate At(s: string, i: int, t: string) { 0 <= i <= |s| - |t| && s[i..i + |t|] == t }

  predicate Mentions(s: string, t: string) { exists i :: 0 <= i <= |s| && At(s, i, t) }

  predicate EndsWith(s: string, t: string) { At(s, |s| - |t|, t) }

  // What follows the last separator before position `end`.
  function AfterLast(s: string, separator: string, end: nat): string
    requires end <= |s|
    decreases end
  {
    if At(s, end, separator) then s[end + |separator|..]
    else if end == 0 then s
    else AfterLast(s, separator, end - 1)
  }

  function WithoutSuffix(s: string, t: string): string { if EndsWith(s, t) then s[..|s| - |t|] else s }

  // The longest run of word characters from `i` on.
  function WordAt(s: string, i: nat): string
    decreases |s| - i
  {
    if i < |s| && IsWord(s[i]) then [s[i]] + WordAt(s, i + 1) else ""
  }

  // ---------- replies ----------

  predicate NamesLimit(lower: string) { exists k :: 0 <= k < |MARKERS| && Mentions(lower, MARKERS[k]) }

  predicate IsWarning(lower: string) { exists k :: 0 <= k < |WARNINGS| && WARNINGS[k] <= lower }

  // The name after the first limit prefix, from `i` on, that a word follows.
  function NamedLimit(lower: string, i: nat): Option<string>
    decreases |lower| - i
  {
    if i >= |lower| then None
    else if At(lower, i, LIMIT_PREFIX) && WordAt(lower, i + |LIMIT_PREFIX|) != "" then
      Some(WordAt(lower, i + |LIMIT_PREFIX|))
    else NamedLimit(lower, i + 1)
  }

  function LimitName(lower: string): string {
    if Mentions(lower, STREAM_LIMIT) then "streammaxlength" else NamedLimit(lower, 0).GetOr("unknown")
  }

  // Only the limits that a smaller window can resolve.
  predicate Divisible(limit: string) { limit == "maxfilesize" || limit == "streammaxlength" }

  function ThreatOf(text: string): string {
    var name := Strip(WithoutSuffix(AfterLast(text, ": ", |text|), " FOUND"), IsSpace);
    if name == "" then "unknown" else name
  }

  function Parse(response: string): Finding {
    var text := Strip(Strip(response, IsSpace), IsNul);
    if text == "" then Unusable
    else if NamesLimit(Lower(text)) then Limit(LimitName(Lower(text)))
    else if EndsWith(text, ": OK") || text == "OK" then NoThreat
    else if EndsWith(text, " FOUND") then
      var threat := ThreatOf(text);
      if IsWarning(Lower(threat)) then Policy(threat) else Threat(threat)
    else Unusable
  }

  // ---------- what a detection is taken for ----------

  // The reply to a stream in which ClamD found `name`.
  function Detection(name: string): string { "stream: " + name + " FOUND" }

  // A signature name as ClamD prints it.
  predicate IsName(name: string) {
    name != "" && !IsSpace(name[0]) && !IsSpace(name[|name| - 1]) && !Mentions(name + " FOUND", ": ")
    && forall c <- name :: !FoldsToSeveral(c)
  }

  lemma StripKeeps(s: string, drop: char -> bool)
    requires s != "" && !drop(s[0]) && !drop(s[|s| - 1])
    ensures Strip(s, drop) == s
  {}

  lemma NotAt(s: string, i: int, t: string, k: nat)
    requires k < |t| && 0 <= i + k < |s| && s[i + k] != t[k]
    ensures !At(s, i, t)
  {}

  lemma Outside(s: string, i: nat, t: string)
    requires i + |t| > |s|
    ensures !At(s, i, t)
  {}

  lemma AtInPart(s: string, start: nat, part: string, i: nat, m: string)
    requires start + |part| <= |s| && s[start..start + |part|] == part
    requires start <= i && i + |m| <= start + |part|
    ensures At(s, i, m) <==> At(part, i - start, m)
  {
    var here, there := s[i..i + |m|], part[i - start..i - start + |m|];
    forall k | 0 <= k < |m|
      ensures here[k] == there[k]
    {
      assert there[k] == part[i - start + k] == s[start..start + |part|][i - start + k] == s[i + k];
    }
    assert here == there;
  }

  lemma DetectionText(name: string)
    ensures var text := Detection(name);
            Strip(Strip(text, IsSpace), IsNul) == text && text != "OK"
            && EndsWith(text, " FOUND") && !EndsWith(text, ": OK")
  {
    var text := Detection(name);
    StripKeeps(text, IsSpace);
    StripKeeps(text, IsNul);
    assert text[|text| - 6..] == " FOUND";
    NotAt(text, |text| - 4, ": OK", 3);
  }

  lemma {:induction false} AfterLastIsHere(s: string, separator: string, end: nat, at: nat)
    requires at <= end <= |s| && At(s, at, separator) && forall i :: at < i <= end ==> !At(s, i, separator)
    ensures AfterLast(s, separator, end) == s[at + |separator|..]
    decreases end
  {
    if at < end { AfterLastIsHere(s, separator, end - 1, at); }
  }

  lemma LastColonOfDetection(name: string)
    requires IsName(name)
    ensures var text := Detection(name); AfterLast(text, ": ", |text|) == name + " FOUND"
  {
    hide IsName, At;
    var text, tail := Detection(name), name + " FOUND";
    assert text == "stream: " + tail;
    assert At(text, 6, ": ") by { ColonInFrame(tail); }
    forall i | 6 < i <= |text|
      ensures !At(text, i, ": ")
    {
      if i == 7 {
        NotAt(text, 7, ": ", 0);
      } else if i + 2 > |text| {
        Outside(text, i, ": ");
      } else {
        assert text[8..8 + |tail|] == tail;
        AtInPart(text, 8, tail, i, ": ");
        NoColonInName(name, i - 8);
      }
    }
    AfterLastIsHere(text, ": ", |text|, 6);
    assert text[8..] == tail;
  }

  lemma ColonInFrame(tail: string)
    ensures At("stream: " + tail, 6, ": ")
  {
    assert ("stream: " + tail)[6..8] == ": ";
  }

  lemma NoColonInName(name: string, i: nat)
    requires IsName(name) && i <= |name + " FOUND"|
    ensures !At(name + " FOUND", i, ": ")
  {}

  lemma ThreatOfDetection(name: string)
    requires IsName(name)
    ensures ThreatOf(Detection(name)) == name
  {
    hide Detection, AfterLast, Mentions, IsSpace, Strip;
    var tail := name + " FOUND";
    LastColonOfDetection(name);
    assert tail[|tail| - 6..] == " FOUND" && tail[..|tail| - 6] == name;
    StripKeeps(name, IsSpace);
  }

  // Such a marker cannot lie across the ends of a name in a reply.
  predicate StaysInside(m: string) {
    |m| > 7 && forall i {:trigger m[i]} :: 0 <= i < |m| ==>
      m[i] != ':' && (m[i] == ' ' ==> 0 < i < |m| - 1 && m[i + 1] != 'f')
  }

  lemma MarkersStayInside()
    ensures forall k :: 0 <= k < |MARKERS| ==> StaysInside(MARKERS[k])
  {}

  lemma OnlyInsideName(name: string, m: string, i: nat)
    requires StaysInside(m) && (i < 8 || i + |m| > 8 + |name|)
    ensures !At(Lower(Detection(name)), i, m)
  {
    hide StaysInside, At;
    var text, end := Lower(Detection(name)), 8 + |name|;
    if i + |m| > |text| {
      Outside(text, i, m);
    } else {
      Boundary(m, 6 - i);
      Boundary(m, 7 - i);
      Boundary(m, end - i);
      assert text[6] == ':' && text[7] == ' ' && text[end] == ' ' && text[end + 1] == 'f';
      if i <= 6 {
        NotAt(text, i, m, 6 - i);
      } else if i == 7 {
        NotAt(text, i, m, 0);
      } else if m[end - i] == ' ' {
        NotAt(text, i, m, end - i + 1);
      } else {
        NotAt(text, i, m, end - i);
      }
    }
  }

  lemma Boundary(m: string, i: int)
    requires StaysInside(m)
    ensures |m| > 7
    ensures 0 <= i < |m| ==> m[i] != ':' && (m[i] == ' ' ==> 0 < i < |m| - 1 && m[i + 1] != 'f')
  {}

  lemma MentionedInPart(s: string, start: nat, part: string, m: string)
    requires start + |part| <= |s| && s[start..start + |part|] == part
    requires forall i: nat :: i < start || i + |m| > start + |part| ==> !At(s, i, m)
    ensures Mentions(s, m) <==> Mentions(part, m)
  {
    if Mentions(s, m) {
      var i :| 0 <= i <= |s| && At(s, i, m);
      AtInPart(s, start, part, i, m);
      assert At(part, i - start, m);
    }
    if Mentions(part, m) {
      var i :| 0 <= i <= |part| && At(part, i, m);
      AtInPart(s, start, part, start + i, m);
      assert At(s, start + i, m);
    }
  }

  lemma MentionedInName(name: string, m: string)
    requires StaysInside(m)
    ensures Mentions(Lower(Detection(name)), m) <==> Mentions(Lower(name), m)
  {
    hide StaysInside, At, Mentions;
    var text, lower := Lower(Detection(name)), Lower(name);
    assert text[8..8 + |name|] == lower;
    forall i: nat | i < 8 || i + |m| > 8 + |lower|
      ensures !At(text, i, m)
    {
      OnlyInsideName(name, m, i);
    }
    MentionedInPart(text, 8, lower, m);
  }

  // A detection is a threat under its own name, unless the name itself tells of a limit that kept ClamD from
  // looking, or of content that needs a review.
  lemma DetectionIsExact(name: string)
    requires IsName(name)
    ensures Parse(Detection(name)).Limit? <==> NamesLimit(Lower(name))
    ensures Parse(Detection(name)) == Policy(name) <==> !NamesLimit(Lower(name)) && IsWarning(Lower(name))
    ensures Parse(Detection(name)) == Threat(name) <==> !NamesLimit(Lower(name)) && !IsWarning(Lower(name))
  {
    hide Strip, EndsWith, Lower, ThreatOf, IsWarning, Mentions, IsName;
    DetectionText(name);
    ThreatOfDetection(name);
    MarkersStayInside();
    forall k | 0 <= k < |MARKERS|
      ensures Mentions(Lower(Detection(name)), MARKERS[k]) <==> Mentions(Lower(name), MARKERS[k])
    {
      MentionedInName(name, MARKERS[k]);
    }
  }

  // The reply to a stream in which ClamD found nothing.
  lemma OkIsClean()
    ensures Parse("stream: OK") == NoThreat
  {
    hide Strip, Lower;
    var text := "stream: OK";
    StripKeeps(text, IsSpace);
    StripKeeps(text, IsNul);
    assert text[6..] == ": OK";
    forall k | 0 <= k < |MARKERS|
      ensures !Mentions(Lower(text), MARKERS[k])
    {
      assert |MARKERS[k]| > |text|;
    }
  }

  // ---------- what is taken for clean ----------

  predicate IsBlank(c: char) { IsSpace(c) || IsNul(c) }

  predicate AllBlank(s: string) { forall c <- s :: IsBlank(c) }

  lemma {:induction false} StripFrontCuts(s: string, drop: char -> bool) returns (cut: string)
    ensures s == cut + StripFront(s, drop) && forall c <- cut :: drop(c)
  {
    if s != "" && drop(s[0]) {
      var rest := StripFrontCuts(s[1..], drop);
      cut := [s[0]] + rest;
    } else {
      cut := "";
    }
  }

  lemma {:induction false} StripBackCuts(s: string, drop: char -> bool) returns (cut: string)
    ensures s == StripBack(s, drop) + cut && forall c <- cut :: drop(c)
  {
    if s != "" && drop(s[|s| - 1]) {
      var rest := StripBackCuts(s[..|s| - 1], drop);
      cut := rest + [s[|s| - 1]];
      assert s == s[..|s| - 1] + [s[|s| - 1]];
    } else {
      cut := "";
    }
  }

  lemma StripCuts(s: string, drop: char -> bool) returns (before: string, after: string)
    ensures s == before + Strip(s, drop) + after
    ensures (forall c <- before :: drop(c)) && forall c <- after :: drop(c)
  {
    before := StripFrontCuts(s, drop);
    after := StripBackCuts(StripFront(s, drop), drop);
    assert s == before + (Strip(s, drop) + after);
  }

  // A reply that reads "OK", or ends so after a colon, and names no limit.
  ghost predicate SaysOk(response: string) {
    exists before, text, after ::
      response == before + text + after && AllBlank(before) && AllBlank(after)
      && (text == "OK" || (|text| >= 4 && text[|text| - 4..] == ": OK")) && !NamesLimit(Lower(text))
  }

  // Nothing else is taken for clean: no empty reply, no error, no unknown text.
  lemma CleanSaysOk(response: string)
    requires Parse(response) == NoThreat
    ensures SaysOk(response)
  {
    hide Strip, NamesLimit, Lower, ThreatOf, IsWarning;
    var inner := Strip(response, IsSpace);
    var text := Strip(inner, IsNul);
    var a, d := StripCuts(response, IsSpace);
    var b, c := StripCuts(inner, IsNul);
    assert response == (a + b) + text + (c + d);
    assert AllBlank(a + b) && AllBlank(c + d);
    assert text == "OK" || EndsWith(text, ": OK");
  }

  // And such a text is clean.
  lemma OkIsTaken(text: string)
    requires text == "OK" || (|text| >= 4 && text[|text| - 4..] == ": OK")
    requires !IsBlank(text[0]) && !NamesLimit(Lower(text))
    ensures Parse(text) == NoThreat
  {
    hide Strip, NamesLimit, Lower;
    assert text[|text| - 1] == 'K';
    StripKeeps(text, IsSpace);
    StripKeeps(text, IsNul);
  }

  // ---------- which limits may be resolved by smaller windows ----------

  lemma {:induction false} WordIsWhole(s: string, i: nat, word: string)
    requires i + |word| < |s| && s[i..i + |word|] == word && !IsWord(s[i + |word|]) && forall c <- word :: IsWord(c)
    ensures WordAt(s, i) == word
    decreases |word|
  {
    if word != "" {
      assert s[i] == word[0] && word[0] in word;
      assert s[i + 1..i + 1 + |word[1..]|] == word[1..];
      WordIsWhole(s, i + 1, word[1..]);
    }
  }

  lemma {:induction false} FirstNamedLimit(lower: string, i: nat, at: nat)
    requires i <= at && At(lower, at, LIMIT_PREFIX) && WordAt(lower, at + |LIMIT_PREFIX|) != ""
    requires forall j :: i <= j < at ==> lower[j] != 'h'
    ensures NamedLimit(lower, i) == Some(WordAt(lower, at + |LIMIT_PREFIX|))
    decreases at - i
  {
    if i < at {
      NotAt(lower, i, LIMIT_PREFIX, 0);
      FirstNamedLimit(lower, i + 1, at);
    }
  }

  lemma LowerConcat(a: string, b: string)
    ensures Lower(a + b) == Lower(a) + Lower(b)
  {}

  lemma LowerOfLimit(spelling: string, word: string)
    requires Lower(spelling) == LIMIT_PREFIX
    ensures Lower(Detection(spelling + word)) == "stream: " + LIMIT_PREFIX + Lower(word) + " found"
  {
    hide Lower, Fold;
    var text := Detection(spelling + word);
    assert text == "stream: " + spelling + word + " FOUND";
    LowerConcat("stream: " + spelling + word, " FOUND");
    LowerConcat("stream: " + spelling, word);
    LowerConcat("stream: ", spelling);
    LowerOfFrame();
  }

  lemma LowerOfFrame()
    ensures Lower("stream: ") == "stream: " && Lower(" FOUND") == " found"
  {}

  // Two spaces of the stream marker are five apart, those of a limit's reply are not.
  lemma NoStreamMarker(lower: string, word: string)
    requires lower == "stream: " + LIMIT_PREFIX + word + " found" && forall c <- word :: IsWord(c)
    ensures !Mentions(lower, STREAM_LIMIT)
  {
    assert STREAM_LIMIT[8] == ' ' && STREAM_LIMIT[13] == ' ';
    forall i | 0 <= i <= |lower| - |STREAM_LIMIT|
      ensures !At(lower, i, STREAM_LIMIT)
    {
      var j := i + 8;
      if j < 35 + |word| {
        if j < 35 {
          assert lower[j] == LIMIT_PREFIX[j - 8] != ' ';
        } else {
          assert lower[j] == word[j - 35] && word[j - 35] in word;
        }
        NotAt(lower, i, STREAM_LIMIT, 8);
      }
    }
  }

  // ClamD's report of a limit, in any casing, is a limit of that name, whatever the limit.
  lemma LimitIsNamed(spelling: string, word: string)
    requires Lower(spelling) == LIMIT_PREFIX && word != "" && forall c <- word :: IsWord(c)
    ensures Parse(Detection(spelling + word)) == Limit(Lower(word))
  {
    hide Strip, EndsWith, ThreatOf, IsWarning, Lower, IsWord, Detection, LimitName, NamesLimit;
    DetectionText(spelling + word);
    LowerOfLimit(spelling, word);
    LowerIsWord(word);
    NameOfLimit(Lower(Detection(spelling + word)), Lower(word));
  }

  lemma NameOfLimit(lower: string, limit: string)
    requires lower == "stream: " + LIMIT_PREFIX + limit + " found" && limit != "" && forall c <- limit :: IsWord(c)
    ensures NamesLimit(lower) && LimitName(lower) == limit
  {
    hide IsWord, At, WordAt;
    NoStreamMarker(lower, limit);
    assert !IsWord(' ') by { Blank(); }
    assert At(lower, 8, LIMIT_PREFIX) by { PrefixInFrame(limit); }
    MarkerInPrefix(lower);
    assert lower[35..35 + |limit|] == limit && lower[35 + |limit|] == ' ';
    WordIsWhole(lower, 35, limit);
    FirstNamedLimit(lower, 0, 8);
  }

  lemma Blank()
    ensures !IsWord(' ')
  {}

  lemma PrefixInFrame(limit: string)
    ensures At("stream: " + LIMIT_PREFIX + limit + " found", 8, LIMIT_PREFIX)
  {
    assert ("stream: " + LIMIT_PREFIX + limit + " found")[8..35] == LIMIT_PREFIX;
  }

  lemma MarkerInPrefix(lower: string)
    requires At(lower, 8, LIMIT_PREFIX)
    ensures NamesLimit(lower)
  {
    assert LIMIT_PREFIX == MARKERS[0] + ".";
    assert lower[8..34] == lower[8..35][..26] == MARKERS[0];
    assert At(lower, 8, MARKERS[0]);
  }

  lemma LowerIsWord(word: string)
    requires forall c <- word :: IsWord(c)
    ensures forall c <- Lower(word) :: IsWord(c)
  {
    forall c <- Lower(word)
      ensures IsWord(c)
    {
      var i :| 0 <= i < |word| && Lower(word)[i] == c;
      assert word[i] in word;
    }
  }

  // ClamD detects that this limit was reached.
  ghost predicate Reports(response: string, limit: string) {
    exists spelling, word :: Lower(spelling) == LIMIT_PREFIX && Lower(word) == limit && IsWholeWord(word)
                             && response == Detection(spelling + word)
  }

  predicate IsWholeWord(word: string) { word != "" && forall c <- word :: IsWord(c) }

  const STREAM_REFUSAL := "INSTREAM size limit exceeded. ERROR"

  // ClamD was given too much at once: its file limit was reached, or it refused the stream.
  ghost predicate TooLarge(response: string) { Reports(response, "maxfilesize") || response == STREAM_REFUSAL }

  // ClamD reached a limit that is not about the size of the stream.
  ghost predicate OtherLimit(response: string) {
    exists limit :: limit != "maxfilesize" && limit != "streammaxlength" && Reports(response, limit)
  }

  lemma ReportIsLimit(response: string, limit: string)
    requires Reports(response, limit)
    ensures Parse(response) == Limit(limit)
  {
    hide Parse, Detection, Lower, IsWord;
    var spelling, word :| Lower(spelling) == LIMIT_PREFIX && Lower(word) == limit && IsWholeWord(word)
                          && response == Detection(spelling + word);
    LimitIsNamed(spelling, word);
  }

  lemma RefusalText()
    ensures Strip(Strip(STREAM_REFUSAL, IsSpace), IsNul) == STREAM_REFUSAL
    ensures Lower(STREAM_REFUSAL) == "instream size limit exceeded. error"
  {
    StripKeeps(STREAM_REFUSAL, IsSpace);
    StripKeeps(STREAM_REFUSAL, IsNul);
  }

  lemma RefusalIsLimit()
    ensures Parse(STREAM_REFUSAL) == Limit("streammaxlength")
  {
    hide Strip, Lower;
    RefusalText();
    var lower := Lower(STREAM_REFUSAL);
    assert lower[0..28] == STREAM_LIMIT && At(lower, 0, STREAM_LIMIT);
    assert lower[9..28] == MARKERS[1] && At(lower, 9, MARKERS[1]);
  }

  // A window that was too large for ClamD is one that smaller windows may resolve.
  lemma TooLargeIsDivisible(response: string)
    requires TooLarge(response)
    ensures Parse(response).Limit? && Divisible(Parse(response).limit)
  {
    hide Parse, Reports;
    if response == STREAM_REFUSAL { RefusalIsLimit(); } else { ReportIsLimit(response, "maxfilesize"); }
  }

  // Any other limit is not.
  lemma OtherLimitIsNot(response: string)
    requires OtherLimit(response)
    ensures Parse(response).Limit? && !Divisible(Parse(response).limit)
  {
    hide Parse, Reports;
    var limit :| limit != "maxfilesize" && limit != "streammaxlength" && Reports(response, limit);
    ReportIsLimit(response, limit);
  }

  lemma LimitsDecide(response: string)
    ensures TooLarge(response) ==> Parse(response).Limit? && Divisible(Parse(response).limit)
    ensures OtherLimit(response) ==> Parse(response).Limit? && !Divisible(Parse(response).limit)
  {
    hide TooLarge, OtherLimit, Parse, Divisible;
    if TooLarge(response) { TooLargeIsDivisible(response); }
    if OtherLimit(response) { OtherLimitIsNot(response); }
  }

  const PREFIX_AS_PRINTED := "Heuristics.Limits.Exceeded."

  lemma LowerOfPrefix()
    ensures Lower(PREFIX_AS_PRINTED) == LIMIT_PREFIX
  {}

  lemma LowerOfWords()
    ensures Lower("MaxFileSize") == "maxfilesize" && IsWholeWord("MaxFileSize")
    ensures Lower("MaxRecursion") == "maxrecursion" && IsWholeWord("MaxRecursion")
  {}

  lemma PrintedReport(word: string, limit: string)
    requires Lower(word) == limit && IsWholeWord(word)
    ensures Reports(Detection(PREFIX_AS_PRINTED + word), limit)
  {
    LowerOfPrefix();
    hide Lower, IsWord, Detection;
  }

  // The words ClamD uses: "stream: Heuristics.Limits.Exceeded.MaxFileSize FOUND", and the like.
  lemma FileLimitIsTooLarge()
    ensures TooLarge(Detection(PREFIX_AS_PRINTED + "MaxFileSize"))
  {
    LowerOfWords();
    PrintedReport("MaxFileSize", "maxfilesize");
    hide Lower, IsWord, Reports, Detection;
  }

  lemma RecursionLimitIsOther()
    ensures OtherLimit(Detection(PREFIX_AS_PRINTED + "MaxRecursion"))
  {
    LowerOfWords();
    PrintedReport("MaxRecursion", "maxrecursion");
    hide Lower, IsWord, Reports, Detection;
  }
}
