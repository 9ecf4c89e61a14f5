/** How the reassembler of apps/ai-engine/sagemaker.go reads the frames that a payload is cut
    into: which texts it parses, one after the other. */
module StreamFrames {
  import opened Bytes
  import opened Splits
  import opened Stream
  import opened StreamTexts

  // ---------- what is known of the texts ----------

  // Which texts are valid JSON, and which of them a decoder may take as chunks.
  datatype Rules = Rules(valid: Text -> bool, takes: Text -> bool)

  const BRACE: byte := 123

  // RFC 8259: no valid text is a beginning or a continuation of [DONE] or starts with the
  // letter d (sections 2, 3 and 5); a chunk is an object; and, with no white space around
  // them, no valid object is the beginning of another valid text (section 4).
  ghost predicate Facts(r: Rules) {
    && (forall t | r.valid(t) :: !(t <= DONE) && !(DONE <= t) && t[0] != DATA[0])
    && (forall t | r.takes(t) :: r.valid(t) && First(t) == Some(BRACE))
    && (forall a, b | r.valid(a) && r.valid(b) && Trim(a) == a && Trim(b) == b && a <= b && a[0] == BRACE :: a == b)
  }

  // The text decodes to a chunk that the parser goes on with.
  predicate Taken(j: Json, text: Text) {
    var c := j.decode(text);
    c.Some? && c.value.objectType == "chat.completion.chunk" && c.value.choices <= 1
    && (c.value.choices > 0 || c.value.usage.Some?)
  }

  // A decoder that keeps to the rules.
  ghost predicate Decodes(r: Rules, j: Json) {
    j.valid == r.valid && forall t | Taken(j, t) :: r.takes(t)
  }

  // A text that no decoder that keeps to the rules gets past.
  predicate Refused(r: Rules, text: Text) {
    var t := TrimPrefix(text, DATA);
    t != DONE && !r.takes(t)
  }

  lemma RefusedIsBad(r: Rules, j: Json, model: string, st: State, text: Text)
    requires Decodes(r, j) && Refused(r, Trim(text))
    ensures Parse(j, model, st, text) == (st, false)
  {
    assert !Taken(j, TrimPrefix(Trim(text), DATA));
  }

  // ---------- frames ----------

  function Flat(frames: seq<Text>): Text {
    if frames == [] then [] else frames[0] + Flat(frames[1..])
  }

  function Events(frames: seq<Text>): seq<Event> {
    if frames == [] then [] else [Frame(true, frames[0])] + Events(frames[1..])
  }

  // No frame trips a size check, as long as no text is refused.
  ghost predicate Fits(valid: Text -> bool, pending: Text, count: nat, frames: seq<Text>)
    decreases |frames|
  {
    frames == [] ||
    var text := pending + frames[0];
    count + |frames[0]| <= 1024 * 1024 && |text| <= 65536
    && Fits(valid, if valid(Trim(text)) then [] else Rest(text), count + |frames[0]|, frames[1..])
  }

  lemma EventsHead(frame: Text, frames: seq<Text>)
    ensures var events := Events([frame] + frames);
            events == [Frame(true, frame)] + Events(frames) && events[1..] == Events(frames)
  {
    assert ([frame] + frames)[1..] == frames;
  }

  predicate EndsWell(items: seq<Item>) {
    items != [] && items[|items| - 1].Final?
  }

  lemma FirstFits(j: Json, model: string, st: State, pending: Text, count: nat, events: seq<Event>)
    requires events != [] && EndsWell(Run(j, model, st, pending, count, events))
    ensures events[0].Frame? && events[0].part
    ensures count + |events[0].payload| <= 1024 * 1024 && |pending + events[0].payload| <= 65536
  {
  }

  lemma FirstAndRest(events: seq<Event>, frames: seq<Text>)
    requires events != [] && events[0].Frame? && events[0].part && events[1..] == Events(frames)
    ensures events == Events([events[0].payload] + frames) && ([events[0].payload] + frames)[1..] == frames
  {
    EventsHead(events[0].payload, frames);
    assert events == [events[0]] + events[1..];
  }

  /** A stream that ends well consists of payload events that trip no size check. */
  lemma {:induction false} FinalFits(j: Json, model: string, st: State, pending: Text, count: nat, events: seq<Event>)
      returns (frames: seq<Text>)
    requires EndsWell(Run(j, model, st, pending, count, events))
    ensures events == Events(frames) && Fits(j.valid, pending, count, frames)
    decreases |events|
  {
    frames := [];
    if events != [] {
      FirstFits(j, model, st, pending, count, events);
      var text, total := pending + events[0].payload, count + |events[0].payload|;
      RunStep(j, model, st, pending, count, events, total);
      var whole := j.valid(Trim(text));
      var read := if whole then Parse(j, model, st, text) else ParseLines(j, model, st, Whole(text));
      frames := FinalFits(j, model, read.0, if whole then [] else Rest(text), total, events[1..]);
      FirstAndRest(events, frames);
      frames := [events[0].payload] + frames;
    }
  }

  lemma FlatHead(frame: Text, frames: seq<Text>)
    ensures Flat([frame] + frames) == frame + Flat(frames)
  {
    assert ([frame] + frames)[1..] == frames;
  }

  lemma FullLine(line: Text)
    requires NEWLINE !in line
    ensures var full := line + [NEWLINE]; Trim(full) == Trim(line) && Whole(full) == [line] && Rest(full) == []
  {
    var full := line + [NEWLINE];
    SpaceBehind(line, NEWLINE);
    assert full == line + [NEWLINE] + [];
    CutLines(full, line, []);
    NoNewline([]);
    assert [line] + [] == [line];
  }

  // A line with its newline is parsed as a line, whichever way it is parsed.
  lemma FullLineParsed(r: Rules, j: Json, model: string, st: State, line: Text)
    requires Facts(r) && j.valid == r.valid && NEWLINE !in line
    ensures var full := line + [NEWLINE];
            Rest(full) == [] && LineRead(j, model, st, line) ==
            if j.valid(Trim(full)) then Parse(j, model, st, full) else ParseLines(j, model, st, Whole(full))
  {
    var full := line + [NEWLINE];
    FullLine(line);
    if j.valid(Trim(full)) {
      assert KindOf(j, full) == KindOf(j, line);
    } else {
      ParseOneLine(j, model, st, line);
    }
  }

  // A line in a frame of its own is parsed as a line, and nothing is carried over.
  lemma LineFrame(r: Rules, j: Json, model: string, st: State, line: Text, read: (State, bool), count: nat, total: nat,
                  frames: seq<Text>)
    requires Facts(r) && j.valid == r.valid && NEWLINE !in line && |line| < MAX_TEXT && total == count + |line| + 1 <= MAX_BODY
    requires read == LineRead(j, model, st, line)
    ensures Run(j, model, st, [], count, Events([line + [NEWLINE]] + frames))
         == if read.1 then Run(j, model, read.0, [], total, Events(frames)) else read.0.out + [Failed]
  {
    var full := line + [NEWLINE];
    var events := Events([full] + frames);
    FullLineParsed(r, j, model, st, line);
    EventsHead(full, frames);
    assert [] + full == full;
    RunStep(j, model, st, [], count, events, total);
  }

  lemma LineFits(valid: Text -> bool, line: Text, count: nat, total: nat, frames: seq<Text>)
    requires NEWLINE !in line && |line| < MAX_TEXT && total == count + |line| + 1 <= MAX_BODY
    requires Fits(valid, [], total, frames)
    ensures Fits(valid, [], count, [line + [NEWLINE]] + frames)
  {
    var full := line + [NEWLINE];
    assert ([full] + frames)[1..] == frames && [] + full == full;
    FullLine(line);
  }

  // A frame that is valid JSON is parsed as it is, and nothing is carried over.
  lemma WholeFrame(j: Json, model: string, st: State, text: Text, read: (State, bool), count: nat, total: nat,
                   frames: seq<Text>)
    requires j.valid(Trim(text)) && |text| <= MAX_TEXT && total == count + |text| <= MAX_BODY
    requires read == Parse(j, model, st, text)
    ensures Run(j, model, st, [], count, Events([text] + frames))
         == if read.1 then Run(j, model, read.0, [], total, Events(frames)) else read.0.out + [Failed]
  {
    var events := Events([text] + frames);
    EventsHead(text, frames);
    assert [] + text == text;
    RunStep(j, model, st, [], count, events, total);
  }

  lemma WholeFits(valid: Text -> bool, text: Text, count: nat, total: nat, frames: seq<Text>)
    requires valid(Trim(text)) && |text| <= MAX_TEXT && total == count + |text| <= MAX_BODY
    requires Fits(valid, [], total, frames)
    ensures Fits(valid, [], count, [text] + frames)
  {
    assert ([text] + frames)[1..] == frames && [] + text == text;
  }

  // ---------- cuts and the texts they are read as ----------

  // Cut so, a text is read as these texts.
  ghost predicate ReadsLike(j: Json, model: string, st: State, count: nat, frames: seq<Text>, texts: seq<Text>) {
    Run(j, model, st, [], count, Events(frames)) == Finished(model, ParseLines(j, model, st, texts))
  }

  /** Whatever is decoded, these frames trip no size check and are read as these texts. */
  ghost predicate ReadAs(r: Rules, count: nat, frames: seq<Text>, texts: seq<Text>) {
    && Fits(r.valid, [], count, frames)
    && forall j: Json, model: string, st: State | j.valid == r.valid :: ReadsLike(j, model, st, count, frames, texts)
  }

  lemma LineThenFrames(r: Rules, j: Json, model: string, st: State, line: Text, read: (State, bool), count: nat,
                       total: nat, frames: seq<Text>, more: seq<Text>, all: seq<Text>, texts: seq<Text>)
    requires Facts(r) && j.valid == r.valid && NEWLINE !in line && |line| < MAX_TEXT && total == count + |line| + 1 <= MAX_BODY
    requires read == LineRead(j, model, st, line)
    requires !read.1 || ReadsLike(j, model, read.0, total, frames, more)
    requires all == [line + [NEWLINE]] + frames && texts == TextOf(line) + more
    ensures ReadsLike(j, model, st, count, all, texts)
  {
    LineFrame(r, j, model, st, line, read, count, total, frames);
    LineThenTexts(j, model, st, line, more);
  }

  lemma LineReadAs(r: Rules, line: Text, count: nat, total: nat, frames: seq<Text>, more: seq<Text>)
    requires Facts(r) && NEWLINE !in line && |line| < MAX_TEXT && total == count + |line| + 1 <= MAX_BODY
    requires ReadAs(r, total, frames, more)
    ensures ReadAs(r, count, [line + [NEWLINE]] + frames, TextOf(line) + more)
  {
    LineFits(r.valid, line, count, total, frames);
    var all, texts := [line + [NEWLINE]] + frames, TextOf(line) + more;
    forall j: Json, model: string, st: State | j.valid == r.valid ensures ReadsLike(j, model, st, count, all, texts) {
      var read := LineRead(j, model, st, line);
      assert ReadsLike(j, model, read.0, total, frames, more);
      LineThenFrames(r, j, model, st, line, read, count, total, frames, more, all, texts);
    }
  }

  lemma WholeThenFrames(j: Json, model: string, st: State, text: Text, read: (State, bool), count: nat, total: nat,
                        frames: seq<Text>, more: seq<Text>, all: seq<Text>, texts: seq<Text>)
    requires j.valid(Trim(text)) && !Blank(text) && |text| <= MAX_TEXT && total == count + |text| <= MAX_BODY
    requires read == Parse(j, model, st, text)
    requires !read.1 || ReadsLike(j, model, read.0, total, frames, more)
    requires all == [text] + frames && texts == [Trim(text)] + more
    ensures ReadsLike(j, model, st, count, all, texts)
  {
    WholeFrame(j, model, st, text, read, count, total, frames);
    ParsesFirst(j, model, st, text, more);
  }

  lemma WholeReadAs(r: Rules, text: Text, count: nat, total: nat, frames: seq<Text>, more: seq<Text>)
    requires Facts(r) && r.valid(Trim(text)) && |text| <= MAX_TEXT && total == count + |text| <= MAX_BODY
    requires ReadAs(r, total, frames, more)
    ensures ReadAs(r, count, [text] + frames, [Trim(text)] + more)
  {
    WholeFits(r.valid, text, count, total, frames);
    var all, texts := [text] + frames, [Trim(text)] + more;
    forall j: Json, model: string, st: State | j.valid == r.valid ensures ReadsLike(j, model, st, count, all, texts) {
      var read := Parse(j, model, st, text);
      assert ReadsLike(j, model, read.0, total, frames, more);
      WholeThenFrames(j, model, st, text, read, count, total, frames, more, all, texts);
    }
  }

  // ---------- one frame for each line ----------

  // No line is too long to be read, with its newline, at once.
  ghost predicate Modest(s: Text) {
    forall line | line in Lines(s) :: |line| < MAX_TEXT
  }

  lemma ModestLater(s: Text, n: nat)
    requires Modest(s) && n <= |s|
    ensures Modest(s[n..])
  {
    var a, b := s[..n], s[n..];
    assert s == a + b;
    SplitContinue(a, b, NEWLINE);
    RestIsOneLine(a);
    SplitPrefix(Rest(a), b, NEWLINE);
    var lines := Lines(b);
    forall line | line in lines ensures |line| < MAX_TEXT {
      if line == lines[0] {
        assert Rest(a) + lines[0] in Lines(s);
      } else {
        assert line in lines[1..];
        assert line in Lines(s);
      }
    }
  }

  lemma ModestAfter(s: Text)
    requires NEWLINE in s && Modest(s)
    ensures Modest(AfterLine(s)) && |Lines(s)[0]| < MAX_TEXT
  {
    AfterLineIs(s);
    assert Lines(s)[0] in Lines(s);
    forall line | line in Lines(AfterLine(s)) ensures |line| < MAX_TEXT {
      assert line in Lines(s);
    }
  }

  // One frame for each line.
  function ByLine(s: Text): seq<Text>
    decreases |s|
  {
    if NEWLINE in s then [Lines(s)[0] + [NEWLINE]] + ByLine(AfterLine(s)) else [s]
  }

  lemma {:induction false} ByLineIsCut(s: Text)
    ensures Flat(ByLine(s)) == s
    decreases |s|
  {
    if NEWLINE in s {
      AfterLineIs(s);
      ByLineIsCut(AfterLine(s));
      assert ByLine(s)[1..] == ByLine(AfterLine(s));
    } else {
      assert [s][1..] == [] && s + [] == s;
    }
  }

  lemma LastLineRuns(r: Rules, j: Json, model: string, st: State, s: Text, count: nat)
    requires Facts(r) && j.valid == r.valid && NEWLINE !in s && |s| <= MAX_TEXT && count + |s| <= MAX_BODY
    ensures ReadsLike(j, model, st, count, [s], Texts(s))
  {
    NoNewline(s);
    var events := Events([s]);
    assert [s][1..] == [] && events[0] == Frame(true, s) && events[1..] == [] && [] + s == s;
    LastPending(j, model, st, s);
    RunStep(j, model, st, [], count, events, count + |s|);
    assert Whole(s) == [] && Rest(s) == s;
  }

  lemma LastReadAs(r: Rules, s: Text, count: nat)
    requires Facts(r) && NEWLINE !in s && |s| <= MAX_TEXT && count + |s| <= MAX_BODY
    ensures ReadAs(r, count, [s], Texts(s))
  {
    assert [s][1..] == [] && [] + s == s;
    forall j: Json, model: string, st: State | j.valid == r.valid ensures ReadsLike(j, model, st, count, [s], Texts(s)) {
      LastLineRuns(r, j, model, st, s, count);
    }
  }

  lemma ModestLast(s: Text)
    requires NEWLINE !in s && Modest(s)
    ensures |s| < MAX_TEXT
  {
    NoNewline(s);
    assert s in Lines(s);
  }

  /** Cut line by line, any payload of modest lines is read as its texts. */
  lemma {:induction false} ByLineReadAs(r: Rules, s: Text, count: nat)
    requires Facts(r) && Modest(s) && count + |s| <= MAX_BODY
    ensures ReadAs(r, count, ByLine(s), Texts(s))
    decreases |s|
  {
    if NEWLINE in s {
      AfterLineIs(s);
      ModestAfter(s);
      var line, more := Lines(s)[0], AfterLine(s);
      var total := count + |line| + 1;
      ByLineReadAs(r, more, total);
      LineReadAs(r, line, count, total, ByLine(more), Texts(more));
    } else {
      ModestLast(s);
      LastReadAs(r, s, count);
    }
  }
}
