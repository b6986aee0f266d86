/** What a block of the event stream means, line by line. */
module StreamBlocks {
  import opened Prelude
  import opened Text
  import opened EventStream

  // ---------- lines ----------

  /** The characters that end a line. */
  lemma LineBreaksAre(c: char)
    ensures IsLineBreak(c) <==>
      c in {'\n', '\U{0B}', '\U{0C}', '\r', '\U{1C}', '\U{1D}', '\U{1E}', '\U{85}', '\U{2028}', '\U{2029}'}
  {
  }

  /** A line ends at its first break, where CR LF is one break; the rest is split on its own. */
  lemma SplitBreak(line: string, end: string, rest: string)
    requires OneLine(line)
    requires end == "\r\n" || (|end| == 1 && IsLineBreak(end[0]) && !(end[0] == '\r' && rest != "" && rest[0] == '\n'))
    ensures SplitLines(line + end + rest) == [line] + SplitLines(rest)
  {
    var s, k := line + end + rest, |line|;
    assert s[..k] == line && s[k] == end[0];
    SplitAt(s, k);
    assert |end| == 1 && rest != "" ==> s[k + 1] == rest[0];
    assert BreakWidth(s, k) == |end|;
    assert s[k + |end|..] == rest;
  }

  /** A last line without a break is a line unless it is empty. */
  lemma SplitEnd(line: string)
    requires OneLine(line)
    ensures SplitLines(line) == if line == "" then [] else [line]
  {
    if line != "" {
      SplitOne(line);
    }
  }

  // ---------- fields ----------

  /** `v` is the stripped text behind the prefix in the last line that has it. */
  ghost predicate LastField(lines: seq<string>, prefix: string, v: string) {
    exists i :: LastWith(lines, prefix, i) && v == Strip(lines[i][|prefix|..])
  }

  ghost predicate LastWith(lines: seq<string>, prefix: string, i: int) {
    0 <= i < |lines| && prefix <= lines[i] && forall j :: i < j < |lines| ==> !(prefix <= lines[j])
  }

  ghost predicate NoField(lines: seq<string>, prefix: string) {
    forall i :: 0 <= i < |lines| ==> !(prefix <= lines[i])
  }

  ghost predicate IsField(lines: seq<string>, prefix: string, v: Option<string>) {
    if v.Some? then LastField(lines, prefix, v.value) else NoField(lines, prefix)
  }

  lemma FieldSnoc(lines: seq<string>, line: string, prefix: string, v: Option<string>)
    requires IsField(lines, prefix, v)
    ensures IsField(lines + [line], prefix, if prefix <= line then Some(Strip(line[|prefix|..])) else v)
  {
    var all := lines + [line];
    hide Strip;
    if prefix <= line {
      assert LastWith(all, prefix, |lines|);
    } else if v.Some? {
      var i :| LastWith(lines, prefix, i) && v.value == Strip(lines[i][|prefix|..]);
      assert LastWith(all, prefix, i) && all[i] == lines[i];
    }
  }

  lemma {:induction false} TakeSnoc(f: Fields, lines: seq<string>, line: string)
    ensures TakeLines(f, lines + [line]) == TakeLine(TakeLines(f, lines), line)
    decreases |lines|
  {
    if lines == [] {
      assert ([] + [line])[1..] == [];
    } else {
      assert (lines + [line])[1..] == lines[1..] + [line];
      hide TakeLine;
      TakeSnoc(TakeLine(f, lines[0]), lines[1..], line);
    }
  }

  lemma TakeLineIs(f: Fields, line: string)
    ensures var g := TakeLine(f, line);
      && g.event == (if "event:" <= line then Some(Strip(line[|"event:"|..])) else f.event)
      && g.id == (if "id:" <= line then Some(Strip(line[|"id:"|..])) else f.id)
      && g.data == (if "data:" <= line then Some(Strip(line[|"data:"|..])) else f.data)
  {
    hide Strip;
    assert "event:" <= line ==> line[0] == 'e';
    assert "id:" <= line ==> line[0] == 'i';
    assert "data:" <= line ==> line[0] == 'd';
  }

  /** Every field of a block holds its last line. */
  lemma {:induction false} FieldsAre(lines: seq<string>)
    ensures var f := TakeLines(Fields(None, None, None), lines);
      IsField(lines, "event:", f.event) && IsField(lines, "id:", f.id) && IsField(lines, "data:", f.data)
    decreases |lines|
  {
    if lines != [] {
      var n := |lines| - 1;
      var f := TakeLines(Fields(None, None, None), lines[..n]);
      assert lines == lines[..n] + [lines[n]];
      FieldsAre(lines[..n]);
      TakeSnoc(Fields(None, None, None), lines[..n], lines[n]);
      TakeLineIs(f, lines[n]);
      hide TakeLines, TakeLine, IsField, Strip;
      FieldSnoc(lines[..n], lines[n], "event:", f.event);
      FieldSnoc(lines[..n], lines[n], "id:", f.id);
      FieldSnoc(lines[..n], lines[n], "data:", f.data);
    }
  }

  lemma FieldUnique(lines: seq<string>, prefix: string, v: Option<string>, u: Option<string>)
    requires IsField(lines, prefix, v) && IsField(lines, prefix, u)
    ensures v == u
  {
    hide Strip;
    if v.Some? && u.Some? {
      var i :| LastWith(lines, prefix, i) && v.value == Strip(lines[i][|prefix|..]);
      var j :| LastWith(lines, prefix, j) && u.value == Strip(lines[j][|prefix|..]);
      assert i == j;
    }
  }

  /** A block is an event if its last event line names a kind, and is dropped otherwise. The event
      has that kind, the id of the last id line if there is one, and the text of the last data
      line or none. */
  lemma BlockIs(block: string, kind: Option<string>, id: Option<string>, data: Option<string>)
    requires var lines := SplitLines(block);
      IsField(lines, "event:", kind) && IsField(lines, "id:", id) && IsField(lines, "data:", data)
    ensures ParseBlock(block) ==
      if kind == None || kind == Some("") then []
      else [Event(id, kind.value, if data == None then "" else data.value)]
  {
    var lines := SplitLines(block);
    var f := TakeLines(Fields(None, None, None), lines);
    FieldsAre(lines);
    hide IsField, TakeLines, SplitLines;
    FieldUnique(lines, "event:", kind, f.event);
    FieldUnique(lines, "id:", id, f.id);
    FieldUnique(lines, "data:", data, f.data);
  }

  // ---------- the stream that is sent ----------

  /** The text of one frame. */
  ghost function Wire(f: Frame): string {
    match f
    case KeepAlive => ": keepalive" + "\n\n"
    case Sent(id, kind, json) => "id: " + id + "\n" + ("event: " + kind + "\n" + ("data: " + json)) + "\n\n"
  }

  /** The event one frame carries, if any. */
  ghost function Carried(f: Frame): seq<Event> {
    match f
    case KeepAlive => []
    case Sent(id, kind, json) => [Event(Some(id), kind, json)]
  }

  /** The text of a stream, frame by frame, and the events it is meant to carry. */
  lemma {:induction false} SentIs(frames: seq<Frame>, f: Frame)
    ensures Render([]) == "" && EventsOf([]) == []
    ensures Render(frames + [f]) == Render(frames) + Wire(f)
    ensures EventsOf(frames + [f]) == EventsOf(frames) + Carried(f)
  {
    assert Render([]) == "" && EventsOf([]) == [];
    hide *;
    if frames == [] {
      OneSent(f);
      assert frames + [f] == [f];
    } else {
      var all, rest := frames + [f], frames[1..];
      assert all[0] == frames[0] && all[1..] == rest + [f];
      SentUnfolds(frames);
      SentUnfolds(all);
      SentIs(rest, f);
      Associative(Wire(frames[0]), Render(rest), Wire(f));
      Associative(Carried(frames[0]), EventsOf(rest), Carried(f));
    }
  }

  lemma SentUnfolds(frames: seq<Frame>)
    requires frames != []
    ensures Render(frames) == Wire(frames[0]) + Render(frames[1..])
    ensures EventsOf(frames) == Carried(frames[0]) + EventsOf(frames[1..])
  {
  }

  lemma OneSent(f: Frame)
    ensures Render([f]) == Wire(f) && EventsOf([f]) == Carried(f)
  {
    assert [f][1..] == [];
    assert Render([]) == "" && EventsOf([]) == [];
    SentUnfolds([f]);
    hide *;
    assert Wire(f) + "" == Wire(f) && Carried(f) + [] == Carried(f);
  }
}
