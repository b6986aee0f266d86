/** The event-stream reader of the closeout script and the server generator it reads from. */
module EventStream {
  import opened Prelude
  import opened Text

  // The reader keeps a text buffer, cuts off a block whenever the buffer holds a blank line (two
  // consecutive LF characters), and turns a block into at most one event. Lines are split as
  // Python's `str.splitlines` does and values trimmed as `str.strip` does, so characters such as
  // U+0085 and U+2028 end a line as well.

  predicate IsLineBreak(c: char) {
    var n := c as int;
    10 <= n <= 13 || 0x1C <= n <= 0x1E || n == 0x85 || n == 0x2028 || n == 0x2029
  }

  ghost predicate OneLine(s: string) { forall i :: 0 <= i < |s| ==> !IsLineBreak(s[i]) }

  /** The index of the first line break, or the length. */
  function LineEnd(s: string): (k: nat)
    ensures k <= |s|
    ensures k < |s| ==> IsLineBreak(s[k])
    ensures OneLine(s[..k])
  {
    if s == "" || IsLineBreak(s[0]) then 0
    else
      var k := 1 + LineEnd(s[1..]);
      assert s[..k] == [s[0]] + s[1..][..k - 1];
      k
  }

  /** The width of the line break at `k`: CR LF counts as one. */
  function BreakWidth(s: string, k: nat): (w: nat)
    requires k < |s|
    ensures w > 0 && k + w <= |s|
  {
    if s[k] == '\r' && k + 1 < |s| && s[k + 1] == '\n' then 2 else 1
  }

  /** `str.splitlines`. */
  function SplitLines(s: string): (lines: seq<string>)
    ensures forall l :: l in lines ==> |l| <= |s|
    decreases |s|
  {
    if s == "" then []
    else
      var k := LineEnd(s);
      if k == |s| then [s] else [s[..k]] + SplitLines(s[k + BreakWidth(s, k)..])
  }

  lemma {:induction false} LineEndUnique(s: string, k: nat)
    requires k <= |s| && OneLine(s[..k]) && (k < |s| ==> IsLineBreak(s[k]))
    ensures LineEnd(s) == k
  {
    if k > 0 {
      assert s[..k][0] == s[0];
      var tail := s[1..][..k - 1];
      forall i | 0 <= i < k - 1 ensures !IsLineBreak(tail[i]) {
        assert s[..k][i + 1] == tail[i];
      }
      LineEndUnique(s[1..], k - 1);
    }
  }

  lemma SplitOne(line: string)
    requires OneLine(line) && line != ""
    ensures SplitLines(line) == [line]
  {
    assert line[..|line|] == line;
    LineEndUnique(line, |line|);
  }

  lemma SplitFirst(line: string, rest: string)
    requires OneLine(line)
    ensures SplitLines(line + "\n" + rest) == [line] + SplitLines(rest)
  {
    var s := line + "\n" + rest;
    assert s[..|line|] == line && s[|line|] == '\n';
    SplitAt(s, |line|);
    assert s[|line| + 1..] == rest;
  }

  lemma SplitAt(s: string, k: nat)
    requires k < |s| && OneLine(s[..k]) && IsLineBreak(s[k])
    ensures SplitLines(s) == [s[..k]] + SplitLines(s[k + BreakWidth(s, k)..])
  {
    LineEndUnique(s, k);
  }

  // ---------- blocks ----------

  /** `data` is the text of the last data line; the reader parses it as JSON, or gives an
      empty object when it is empty. */
  datatype Event = Event(id: Option<string>, kind: string, data: string)

  datatype Fields = Fields(event: Option<string>, id: Option<string>, data: Option<string>)

  predicate StartsWith(line: string, prefix: string) { prefix <= line }

  function TakeLine(f: Fields, line: string): Fields {
    if StartsWith(line, "event:") then f.(event := Some(Strip(line[6..])))
    else if StartsWith(line, "id:") then f.(id := Some(Strip(line[3..])))
    else if StartsWith(line, "data:") then f.(data := Some(Strip(line[5..])))
    else f
  }

  function TakeLines(f: Fields, lines: seq<string>): Fields
    decreases |lines|
  {
    if lines == [] then f else TakeLines(TakeLine(f, lines[0]), lines[1..])
  }

  function ParseBlock(block: string): (events: seq<Event>)
    ensures |events| <= 1
  {
    var f := TakeLines(Fields(None, None, None), SplitLines(block));
    if f.event.GetOr("") == "" then [] else [Event(f.id, f.event.value, f.data.GetOr(""))]
  }

  // ---------- the buffer ----------

  predicate BlankAt(s: string, i: nat) { i + 1 < |s| && s[i] == '\n' && s[i + 1] == '\n' }

  /** Where the first blank line starts. */
  function FirstBlank(s: string): (k: Option<nat>)
    ensures k.Some? ==> BlankAt(s, k.value) && forall i: nat :: i < k.value ==> !BlankAt(s, i)
    ensures k.None? ==> forall i: nat :: !BlankAt(s, i)
  {
    if |s| < 2 then None
    else if BlankAt(s, 0) then Some(0)
    else
      assert forall i: nat :: 0 < i ==> (BlankAt(s, i) <==> BlankAt(s[1..], i - 1));
      match FirstBlank(s[1..])
      case None => None
      case Some(k) => Some(k + 1)
  }

  datatype Reading = Reading(events: seq<Event>, buf: string)

  /** Cut off and parse every complete block. */
  function Drain(buf: string): Reading
    decreases |buf|
  {
    match FirstBlank(buf)
    case None => Reading([], buf)
    case Some(k) =>
      var rest := Drain(buf[k + 2..]);
      Reading(ParseBlock(buf[..k]) + rest.events, rest.buf)
  }

  function Feed(r: Reading, chunk: string): Reading {
    var d := Drain(r.buf + chunk);
    Reading(r.events + d.events, d.buf)
  }

  function FeedAll(r: Reading, chunks: seq<string>): Reading
    decreases |chunks|
  {
    if chunks == [] then r else FeedAll(Feed(r, chunks[0]), chunks[1..])
  }

  function Concat(chunks: seq<string>): string {
    if chunks == [] then "" else chunks[0] + Concat(chunks[1..])
  }

  lemma FirstBlankUnique(s: string, k: nat)
    requires BlankAt(s, k) && forall i: nat :: i < k ==> !BlankAt(s, i)
    ensures FirstBlank(s) == Some(k)
  {
  }

  lemma FirstBlankStays(a: string, b: string)
    requires FirstBlank(a).Some?
    ensures FirstBlank(a + b) == FirstBlank(a)
  {
    var k := FirstBlank(a).value;
    assert forall i: nat :: i <= k ==> BlankAt(a + b, i) == BlankAt(a, i);
    FirstBlankUnique(a + b, k);
  }

  lemma DrainUnfold(s: string, k: nat)
    requires FirstBlank(s) == Some(k)
    ensures Drain(s) == Reading(ParseBlock(s[..k]) + Drain(s[k + 2..]).events, Drain(s[k + 2..]).buf)
  {
  }

  lemma Cut(a: string, b: string, k: nat)
    requires k + 2 <= |a|
    ensures (a + b)[..k] == a[..k] && (a + b)[k + 2..] == a[k + 2..] + b
  {
  }

  /** Draining early and then going on is draining everything at once, also when a blank
      line straddles the two parts. */
  lemma {:induction false} DrainAppend(a: string, b: string)
    ensures var first := Drain(a); var more := Drain(first.buf + b);
      Drain(a + b) == Reading(first.events + more.events, more.buf)
    decreases |a|
  {
    hide ParseBlock;
    match FirstBlank(a)
    case None =>
      assert [] + Drain(a + b).events == Drain(a + b).events;
    case Some(k) =>
      FirstBlankStays(a, b);
      DrainUnfold(a, k);
      DrainUnfold(a + b, k);
      hide Drain, FirstBlank;
      Cut(a, b, k);
      DrainAppend(a[k + 2..], b);
      var rest := Drain(a[k + 2..]);
      Associative(ParseBlock(a[..k]), rest.events, Drain(rest.buf + b).events);
  }

  lemma {:induction false} FeedAllIsDrain(r: Reading, chunks: seq<string>)
    requires FirstBlank(r.buf).None?
    ensures var d := Drain(r.buf + Concat(chunks));
      FeedAll(r, chunks) == Reading(r.events + d.events, d.buf)
    decreases |chunks|
  {
    if chunks == [] {
      assert r.buf + "" == r.buf;
      assert r.events + [] == r.events;
    } else {
      var c, more, next := chunks[0], Concat(chunks[1..]), Feed(r, chunks[0]);
      assert FeedAll(r, chunks) == FeedAll(next, chunks[1..]);
      assert Concat(chunks) == c + more;
      hide Drain, FeedAll, FirstBlank, Concat;
      DrainLeavesNoBlank(r.buf + c);
      Associative(r.buf, c, more);
      FeedAllIsDrain(next, chunks[1..]);
      DrainAppend(r.buf + c, more);
      Associative(r.events, Drain(r.buf + c).events, Drain(next.buf + more).events);
    }
  }

  lemma {:induction false} DrainLeavesNoBlank(buf: string)
    ensures FirstBlank(Drain(buf).buf).None?
    decreases |buf|
  {
    if FirstBlank(buf).Some? {
      DrainLeavesNoBlank(buf[FirstBlank(buf).value + 2..]);
    }
  }

  /** How a text is cut into chunks does not matter. */
  lemma ChunkingIsIrrelevant(chunks: seq<string>)
    ensures FeedAll(Reading([], ""), chunks) == Drain(Concat(chunks))
  {
    FeedAllIsDrain(Reading([], ""), chunks);
    assert "" + Concat(chunks) == Concat(chunks);
    assert [] + Drain(Concat(chunks)).events == Drain(Concat(chunks)).events;
  }

  // ---------- the server side ----------

  /** What the event generator yields: a heartbeat comment, or an event with its JSON text. */
  datatype Frame = KeepAlive | Sent(id: string, kind: string, json: string)

  function Body(f: Frame): string {
    match f
    case KeepAlive => ": keepalive"
    case Sent(id, kind, json) => "id: " + id + "\n" + ("event: " + kind + "\n" + ("data: " + json))
  }

  function Render(frames: seq<Frame>): string {
    if frames == [] then "" else Body(frames[0]) + "\n\n" + Render(frames[1..])
  }

  /** The events a stream is meant to carry. */
  function EventsOf(frames: seq<Frame>): seq<Event> {
    if frames == [] then []
    else (if frames[0].KeepAlive? then [] else [Event(Some(frames[0].id), frames[0].kind, frames[0].json)])
         + EventsOf(frames[1..])
  }

  /** Identifiers and kinds are single words, and JSON text has no raw LF and no outer space. */
  ghost predicate WellFormed(f: Frame) {
    f.Sent? ==>
      && OneLine(f.id) && Trimmed(f.id)
      && OneLine(f.kind) && Trimmed(f.kind) && f.kind != ""
      && '\n' !in f.json && Trimmed(f.json)
  }

  ghost predicate NoBlank(s: string) {
    s != "" && s[|s| - 1] != '\n' && forall i: nat :: !BlankAt(s, i)
  }

  lemma NoBlankLine(line: string)
    requires line != "" && '\n' !in line
    ensures NoBlank(line)
  {
    forall i | 0 <= i < |line| ensures line[i] != '\n' {
      assert line[i] in line;
    }
  }

  lemma NoBlankJoin(line: string, rest: string)
    requires '\n' !in line && line != "" && NoBlank(rest) && rest[0] != '\n'
    ensures NoBlank(line + "\n" + rest)
  {
    var s := line + "\n" + rest;
    forall i: nat ensures !BlankAt(s, i) {
      if i < |line| {
        assert s[i] == line[i] && line[i] in line;
      } else if i > |line| {
        assert BlankAt(s, i) == BlankAt(rest, i - |line| - 1);
      }
    }
  }

  lemma OneLineNoLf(s: string)
    requires OneLine(s)
    ensures '\n' !in s
  {
    if '\n' in s {
      var i :| 0 <= i < |s| && s[i] == '\n';
      assert IsLineBreak(s[i]);
    }
  }

  lemma OneLineConcat(a: string, b: string)
    requires OneLine(a) && OneLine(b)
    ensures OneLine(a + b)
  {
  }

  lemma BodyNoBlank(f: Frame)
    requires WellFormed(f)
    ensures NoBlank(Body(f))
  {
    match f
    case KeepAlive =>
      NoBlankLine(": keepalive");
    case Sent(id, kind, json) =>
      OneLineNoLf(id);
      OneLineNoLf(kind);
      NoBlankLine("data: " + json);
      NoBlankJoin("event: " + kind, "data: " + json);
      NoBlankJoin("id: " + id, "event: " + kind + "\n" + ("data: " + json));
  }

  /** The first blank line of a rendered stream ends its first frame. */
  lemma FirstFrame(body: string, rest: string)
    requires NoBlank(body)
    ensures var s := body + "\n\n" + rest;
      FirstBlank(s) == Some(|body|) && s[..|body|] == body && s[|body| + 2..] == rest
  {
    var s := body + "\n\n" + rest;
    forall i: nat | i < |body| ensures !BlankAt(s, i) {
      assert s[i] == body[i];
      if i + 1 < |body| {
        assert !BlankAt(body, i);
      }
    }
    FirstBlankUnique(s, |body|);
  }

  lemma HeadLines(id: string, kind: string, json: string)
    requires OneLine(id) && Trimmed(id) && OneLine(kind) && Trimmed(kind)
    ensures TakeLines(Fields(None, None, None), SplitLines(Body(Sent(id, kind, json)))) ==
            TakeLines(Fields(Some(kind), Some(id), None), SplitLines("data: " + json))
  {
    var line1, line2, last := "id: " + id, "event: " + kind, SplitLines("data: " + json);
    OneLineConcat("id: ", id);
    OneLineConcat("event: ", kind);
    SplitFirst(line2, "data: " + json);
    SplitFirst(line1, line2 + "\n" + ("data: " + json));
    var lines := SplitLines(Body(Sent(id, kind, json)));
    assert lines == [line1] + ([line2] + last);
    TakeHead(id, kind);
    TwoLines(Fields(None, None, None), line1, line2, last);
  }

  lemma TwoLines(f: Fields, a: string, b: string, rest: seq<string>)
    ensures TakeLines(f, [a] + ([b] + rest)) == TakeLines(TakeLine(TakeLine(f, a), b), rest)
  {
    assert ([a] + ([b] + rest))[1..] == [b] + rest;
    assert ([b] + rest)[1..] == rest;
  }

  lemma TakeHead(id: string, kind: string)
    requires Trimmed(id) && Trimmed(kind)
    ensures TakeLine(TakeLine(Fields(None, None, None), "id: " + id), "event: " + kind) ==
        Fields(Some(kind), Some(id), None)
  {
    assert ("id: " + id)[3..] == " " + id;
    assert ("event: " + kind)[6..] == " " + kind;
    assert ("id: " + id)[0] == 'i';
    StripSpace(id);
    StripSpace(kind);
  }

  lemma DataLine(f: Fields, text: string)
    ensures TakeLine(f, "data: " + text) == f.(data := Some(Strip(" " + text)))
    ensures |Strip(" " + text)| <= |text|
  {
    assert ("data: " + text)[5..] == " " + text;
    assert ("data: " + text)[0] == 'd';
    assert (" " + text)[1..] == text;
  }

  /** No value is longer than the longest line. */
  lemma {:induction false} DataBound(f: Fields, lines: seq<string>, n: nat)
    requires |f.data.GetOr("")| < n && forall l :: l in lines ==> |l| < n
    ensures |TakeLines(f, lines).data.GetOr("")| < n
    decreases |lines|
  {
    if lines != [] {
      assert lines[0] in lines && forall l :: l in lines[1..] ==> l in lines;
      DataBound(TakeLine(f, lines[0]), lines[1..], n);
    }
  }

  lemma KeepAliveIsSilent()
    ensures ParseBlock(": keepalive") == []
  {
    hide LineEnd, SplitLines, Strip;
    var line := ": keepalive";
    SplitOne(line);
    assert line[0] == ':';
    IgnoredLine(Fields(None, None, None), line);
  }

  lemma IgnoredLine(f: Fields, line: string)
    requires line != "" && line[0] == ':'
    ensures TakeLines(f, [line]) == f
  {
    var lines: seq<string> := [line];
    assert lines[1..] == [];
  }

  lemma SentParses(id: string, kind: string, json: string)
    requires WellFormed(Sent(id, kind, json))
    ensures var f := TakeLines(Fields(Some(kind), Some(id), None), SplitLines("data: " + json));
      ParseBlock(Body(Sent(id, kind, json))) ==
      if f.event.GetOr("") == "" then [] else [Event(f.id, f.event.value, f.data.GetOr(""))]
  {
    hide TakeLines, SplitLines, Body;
    HeadLines(id, kind, json);
  }

  /** A frame comes back as it was sent if and only if its JSON text is a single line. */
  lemma FrameRoundTrip(f: Frame)
    requires WellFormed(f)
    ensures f.Sent? ==> (ParseBlock(Body(f)) == [Event(Some(f.id), f.kind, f.json)] <==> OneLine(f.json))
    ensures f.KeepAlive? ==> ParseBlock(Body(f)) == []
  {
    match f
    case KeepAlive =>
      KeepAliveIsSilent();
    case Sent(id, kind, json) =>
      var start := Fields(Some(kind), Some(id), None);
      SentParses(id, kind, json);
      hide ParseBlock, TakeLines, SplitLines, Body;
      if OneLine(json) {
        SingleData(start, json);
      } else {
        hide OneLine;
        CutData(start, json);
      }
  }

  lemma SingleData(f: Fields, json: string)
    requires OneLine(json) && Trimmed(json)
    ensures TakeLines(f, SplitLines("data: " + json)) == f.(data := Some(json))
  {
    OneLineConcat("data: ", json);
    SplitOne("data: " + json);
    assert ["data: " + json][1..] == [];
    DataLine(f, json);
    StripSpace(json);
  }

  /** A line break in the text ends the line that starts before it. */
  lemma BreaksAt(json: string)
    requires !OneLine(json)
    ensures LineEnd(json) < |json| && OneLine(json[..LineEnd(json)]) && IsLineBreak(json[LineEnd(json)])
  {
    assert json[..|json|] == json;
  }

  lemma PrefixCut(prefix: string, json: string, k: nat)
    requires k < |json|
    ensures var line := prefix + json; line[..|prefix| + k] == prefix + json[..k] && line[|prefix| + k] == json[k]
  {
  }

  lemma CutAfter(prefix: string, json: string) returns (rest: string)
    requires OneLine(prefix) && !OneLine(json)
    ensures SplitLines(prefix + json) == [prefix + json[..LineEnd(json)]] + SplitLines(rest)
    ensures |rest| < |json| && LineEnd(json) < |json|
  {
    var line, at := prefix + json, |prefix| + LineEnd(json);
    hide *;
    BreaksAt(json);
    PrefixCut(prefix, json, LineEnd(json));
    OneLineConcat(prefix, json[..LineEnd(json)]);
    rest := CutLine(line, at);
  }

  lemma CutLine(s: string, k: nat) returns (rest: string)
    requires k < |s| && OneLine(s[..k]) && IsLineBreak(s[k])
    ensures SplitLines(s) == [s[..k]] + SplitLines(rest) && |rest| < |s| - k
  {
    hide *;
    SplitAt(s, k);
    rest := s[k + BreakWidth(s, k)..];
  }

  lemma CutLines(json: string) returns (rest: string)
    requires !OneLine(json)
    ensures SplitLines("data: " + json) == ["data: " + json[..LineEnd(json)]] + SplitLines(rest)
    ensures |rest| < |json| && LineEnd(json) < |json|
  {
    assert OneLine("data: ");
    hide *;
    rest := CutAfter("data: ", json);
  }

  lemma CutData(f: Fields, json: string)
    requires !OneLine(json)
    ensures |TakeLines(f, SplitLines("data: " + json)).data.GetOr("")| < |json|
  {
    var rest := CutLines(json);
    hide LineEnd, OneLine;
    var first, more := "data: " + json[..LineEnd(json)], SplitLines(rest);
    hide SplitLines;
    DataLine(f, json[..LineEnd(json)]);
    assert TakeLines(f, [first] + more) == TakeLines(TakeLine(f, first), more) by {
      assert ([first] + more)[1..] == more;
    }
    hide TakeLines, TakeLine;
    DataBound(TakeLine(f, first), more, |json|);
  }

  lemma {:induction false} AtMostOnePerFrame(frames: seq<Frame>)
    requires forall f :: f in frames ==> WellFormed(f)
    ensures |Drain(Render(frames)).events| <= |EventsOf(frames)|
    ensures Drain(Render(frames)).buf == ""
  {
    if frames == [] {
      assert FirstBlank("") == None;
    } else {
      assert frames[0] in frames && forall f :: f in frames[1..] ==> f in frames;
      DrainFrame(frames);
      AtMostOnePerFrame(frames[1..]);
      FrameRoundTrip(frames[0]);
    }
  }

  lemma DrainFrame(frames: seq<Frame>)
    requires frames != [] && WellFormed(frames[0])
    ensures var rest := Drain(Render(frames[1..]));
      Drain(Render(frames)) == Reading(ParseBlock(Body(frames[0])) + rest.events, rest.buf)
  {
    BodyNoBlank(frames[0]);
    FirstFrame(Body(frames[0]), Render(frames[1..]));
    DrainUnfold(Render(frames), |Body(frames[0])|);
  }

  lemma EqualFirst<T>(a: seq<T>, e: T, r: seq<T>, s: seq<T>)
    requires |a| <= 1 && |r| <= |s|
    ensures a + r == [e] + s <==> a == [e] && r == s
  {
    if a + r == [e] + s {
      assert |a| == 1;
      assert (a + r)[0] == e && (a + r)[1..] == r && ([e] + s)[1..] == s;
    }
  }

  /** The reader recovers exactly the sent events if and only if every JSON text is a single
      line in the sense of `splitlines`. */
  lemma {:induction false} StreamRoundTrip(frames: seq<Frame>)
    requires forall f :: f in frames ==> WellFormed(f)
    ensures Drain(Render(frames)).events == EventsOf(frames) <==> forall f :: f in frames && f.Sent? ==> OneLine(f.json)
  {
    if frames == [] {
      assert FirstBlank("") == None;
    } else {
      hide Drain, Render, Body, ParseBlock, WellFormed, OneLine;
      var f := frames[0];
      assert forall g :: g in frames <==> g == f || g in frames[1..];
      StreamRoundTrip(frames[1..]);
      FirstOfStream(frames);
    }
  }

  lemma FirstOfStream(frames: seq<Frame>)
    requires frames != [] && forall f :: f in frames ==> WellFormed(f)
    ensures Drain(Render(frames)).events == EventsOf(frames) <==>
            Drain(Render(frames[1..])).events == EventsOf(frames[1..]) && (frames[0].Sent? ==> OneLine(frames[0].json))
  {
    hide Drain, Render, Body, ParseBlock, WellFormed, OneLine;
    var f, rest := frames[0], Drain(Render(frames[1..])).events;
    assert f in frames && forall g :: g in frames[1..] ==> g in frames;
    DrainFrame(frames);
    FrameRoundTrip(f);
    AtMostOnePerFrame(frames[1..]);
    if f.Sent? {
      EqualFirst(ParseBlock(Body(f)), Event(Some(f.id), f.kind, f.json), rest, EventsOf(frames[1..]));
    } else {
      assert [] + rest == rest && [] + EventsOf(frames[1..]) == EventsOf(frames[1..]);
    }
  }

  /** End to end: however the rendered stream is cut into chunks. */
  lemma ChunkedRoundTrip(frames: seq<Frame>, chunks: seq<string>)
    requires forall f :: f in frames ==> WellFormed(f) && (f.Sent? ==> OneLine(f.json))
    requires Concat(chunks) == Render(frames)
    ensures FeedAll(Reading([], ""), chunks) == Reading(EventsOf(frames), "")
  {
    ChunkingIsIrrelevant(chunks);
    StreamRoundTrip(frames);
    AtMostOnePerFrame(frames);
  }

  // ---------- the reading loop ----------

  class Reader {
    var buf: string
    var events: seq<Event>

    constructor ()
      ensures buf == "" && events == []
    {
      buf, events := "", [];
    }

    /** The inner loop: cut off blocks while the buffer holds a blank line. */
    method Take(chunk: string)
      modifies this
      ensures Reading(events, buf) == Feed(old(Reading(events, buf)), chunk)
    {
      hide ParseBlock;
      buf := buf + chunk;
      ghost var all, had := Drain(buf), events;
      assert [] + all.events == all.events;
      var blank := FirstBlank(buf);
      while blank.Some?
        invariant blank == FirstBlank(buf)
        invariant Drain(buf).buf == all.buf && events + Drain(buf).events == had + all.events
        decreases |buf|
      {
        var block, rest := buf[..blank.value], buf[blank.value + 2..];
        Associative(events, ParseBlock(block), Drain(rest).events);
        buf := rest;
        events := events + ParseBlock(block);
        blank := FirstBlank(buf);
      }
      assert events + [] == events;
    }

    /** Chunks arrive until one is empty or the time is over; `inTime(k)` is what the clock says
        before chunk `k` is read. */
    method ReadAll(chunks: seq<string>, inTime: nat -> bool) returns (n: nat)
      requires buf == "" && events == []
      modifies this
      ensures n <= |chunks| && forall i: nat :: i < n ==> inTime(i) && |chunks[i]| > 0
      ensures n < |chunks| ==> !inTime(n) || |chunks[n]| == 0
      ensures Reading(events, buf) == Drain(Concat(chunks[..n]))
    {
      hide Feed, FeedAll, Drain, Concat, FirstBlank;
      ghost var start := Reading([], "");
      n := 0;
      FeedNone(start);
      assert chunks[..0] == [];
      while n < |chunks| && inTime(n) && |chunks[n]| > 0
        invariant n <= |chunks| && forall i: nat :: i < n ==> inTime(i) && |chunks[i]| > 0
        invariant Reading(events, buf) == FeedAll(start, chunks[..n])
      {
        FeedPrefix(chunks, n);
        Take(chunks[n]);
        n := n + 1;
      }
      ChunkingIsIrrelevant(chunks[..n]);
    }
  }

  lemma FeedNone(r: Reading)
    ensures FeedAll(r, []) == r
  {
  }

  lemma {:induction false} FeedOneMore(r: Reading, chunks: seq<string>, chunk: string)
    ensures FeedAll(r, chunks + [chunk]) == Feed(FeedAll(r, chunks), chunk)
    decreases |chunks|
  {
    if chunks == [] {
      assert ([] + [chunk])[1..] == [];
    } else {
      assert (chunks + [chunk])[1..] == chunks[1..] + [chunk];
      FeedOneMore(Feed(r, chunks[0]), chunks[1..], chunk);
    }
  }

  lemma FeedPrefix(chunks: seq<string>, n: nat)
    requires n < |chunks|
    ensures FeedAll(Reading([], ""), chunks[..n + 1]) == Feed(FeedAll(Reading([], ""), chunks[..n]), chunks[n])
  {
    assert chunks[..n] + [chunks[n]] == chunks[..n + 1];
    FeedOneMore(Reading([], ""), chunks[..n], chunks[n]);
  }
}
