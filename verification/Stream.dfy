/** The event-stream reassembler of apps/ai-engine/sagemaker.go (ChatCompletionStream).

    JSON is uninterpreted: a Json value says which texts are valid and what they decode
    to.  Two facts about it are used, both from RFC 8259: a valid text is not empty
    (section 2) and does not start with the letter d (section 3). */
module Stream {
  import opened Bytes
  import opened Splits

  type Text = seq<byte>

  datatype Usage = Usage(prompt: int, completion: int)

  // What the reassembler looks at in a decoded chunk; content is everything else.
  datatype Chunk = Chunk(objectType: string, choices: nat, finish: bool, usage: Option<Usage>, content: string)

  datatype Json = Json(valid: Text -> bool, decode: Text -> Option<Chunk>)

  // One event frame (part: its headers are those of a PayloadPart event), or a read error.
  datatype Event = Frame(part: bool, payload: Text) | Broken

  datatype Item =
    | Delta(index: nat, model: string, content: string)
    | Final(index: nat, model: string, content: string, usage: Usage)
    | Failed

  const MAX_BODY := 1024 * 1024
  const MAX_TEXT := 65536
  const NO_USAGE := Usage(0, 0)
  const NEWLINE: byte := 10
  const DATA: Text := [100, 97, 116, 97, 58, 32]     // "data: "
  const DONE: Text := [91, 68, 79, 78, 69, 93]       // "[DONE]"

  // ---------- trimming ----------

  predicate IsSpace(b: byte) { 9 <= b <= 13 || b == 32 }

  function TrimLeft(s: Text): Text {
    if s != [] && IsSpace(s[0]) then TrimLeft(s[1..]) else s
  }

  function TrimRight(s: Text): (r: Text)
    ensures r <= s
    ensures s != [] && !IsSpace(s[0]) ==> r != []
  {
    if s != [] && IsSpace(s[|s| - 1]) then TrimRight(s[..|s| - 1]) else s
  }

  // bytes.TrimSpace on ASCII white space.
  function Trim(s: Text): Text { TrimRight(TrimLeft(s)) }

  function TrimPrefix(s: Text, p: Text): Text { if p <= s then s[|p|..] else s }

  // The first byte that is not white space.
  function First(s: Text): Option<byte> {
    if s == [] then None else if IsSpace(s[0]) then First(s[1..]) else Some(s[0])
  }

  lemma {:induction false} FirstOfTrimLeft(s: Text)
    ensures First(s) == if TrimLeft(s) == [] then None else Some(TrimLeft(s)[0])
    ensures TrimLeft(s) != [] ==> !IsSpace(TrimLeft(s)[0])
  {
    if s != [] && IsSpace(s[0]) {
      FirstOfTrimLeft(s[1..]);
    }
  }

  lemma FirstOfTrim(s: Text)
    ensures First(s) == if Trim(s) == [] then None else Some(Trim(s)[0])
  {
  }

  lemma {:induction false} TrimRightTwice(s: Text)
    ensures TrimRight(TrimRight(s)) == TrimRight(s)
  {
    if s != [] && IsSpace(s[|s| - 1]) {
      TrimRightTwice(s[..|s| - 1]);
    }
  }

  lemma TrimTwice(s: Text)
    ensures Trim(Trim(s)) == Trim(s)
  {
    FirstOfTrimLeft(s);
    TrimRightTwice(TrimLeft(s));
    assert TrimLeft(Trim(s)) == Trim(s);
  }

  lemma {:induction false} FirstOfAppend(s: Text, t: Text)
    ensures First(s + t) == if First(s).Some? then First(s) else First(t)
  {
    if s == [] {
      assert s + t == t;
    } else if IsSpace(s[0]) {
      assert (s + t)[1..] == s[1..] + t;
      FirstOfAppend(s[1..], t);
    }
  }

  // ---------- lines ----------

  // The pieces between newlines; the last one is not ended by a newline.
  function Lines(s: Text): (r: seq<Text>)
    ensures r != []
  {
    Split(s, NEWLINE)
  }

  function Whole(s: Text): seq<Text> { Lines(s)[..|Lines(s)| - 1] }
  function Rest(s: Text): Text { Lines(s)[|Lines(s)| - 1] }

  // ---------- parse ----------

  datatype State = State(terminal: Option<(nat, Chunk)>, index: nat, usage: Usage, out: seq<Item>)

  const START := State(None, 0, NO_USAGE, [])

  // What one text means to the parser.
  datatype Kind = Bad | Done | Finish(chunk: Chunk) | UsageOnly(chunk: Chunk) | Content(chunk: Chunk)

  function KindOf(j: Json, raw: Text): Kind {
    var text := TrimPrefix(Trim(raw), DATA);
    if text == DONE then Done
    else if |text| > MAX_TEXT then Bad
    else
      match j.decode(text)
      case None => Bad
      case Some(c) =>
        if c.objectType != "chat.completion.chunk" || c.choices > 1 || (c.choices == 0 && c.usage == None) then Bad
        else if c.choices == 0 then UsageOnly(c)
        else if c.finish then Finish(c)
        else Content(c)
  }

  function Accept(model: string, st: State, kind: Kind): (State, bool) {
    match kind
    case Bad => (st, false)
    case Done => (st, st.terminal.Some?)
    case _ =>
      var next := st.(index := st.index + 1, usage := if kind.chunk.usage.Some? then kind.chunk.usage.value else st.usage);
      match kind
      case Finish(c) => (next.(terminal := Some((st.index, c))), true)
      case UsageOnly(c) => (next, true)
      case Content(c) =>
        if st.terminal.Some? then (next, false)
        else (next.(out := st.out + [Delta(st.index, model, c.content)]), true)
      case _ => (next, true)
  }

  function Parse(j: Json, model: string, st: State, raw: Text): (State, bool) {
    Accept(model, st, KindOf(j, raw))
  }

  // Blank lines are skipped; the first refused line ends the parse.
  function ParseLines(j: Json, model: string, st: State, lines: seq<Text>): (State, bool)
    decreases |lines|
  {
    if lines == [] then (st, true)
    else if Trim(lines[0]) == [] then ParseLines(j, model, st, lines[1..])
    else
      var (next, ok) := Parse(j, model, st, Trim(lines[0]));
      if ok then ParseLines(j, model, next, lines[1..]) else (next, false)
  }

  function Finished(model: string, result: (State, bool)): seq<Item> {
    var (st, ok) := result;
    if !ok || st.terminal == None then st.out + [Failed]
    else st.out + [Final(st.terminal.value.0, model, st.terminal.value.1.content, st.usage)]
  }

  // Reading the whole payload at once.
  function Batch(j: Json, model: string, payload: Text): seq<Item> {
    Finished(model, ParseLines(j, model, START, Lines(payload)))
  }

  // ---------- the stream loop on values ----------

  function Run(j: Json, model: string, st: State, pending: Text, count: nat, events: seq<Event>): seq<Item>
    decreases |events|
  {
    if events == [] then
      Finished(model, if Trim(pending) == [] then (st, true) else Parse(j, model, st, pending))
    else if events[0].Broken? || count + |events[0].payload| > MAX_BODY || !events[0].part
            || |pending + events[0].payload| > MAX_TEXT then st.out + [Failed]
    else
      var text := pending + events[0].payload;
      var whole := j.valid(Trim(text));
      var (next, ok) := if whole then Parse(j, model, st, text) else ParseLines(j, model, st, Whole(text));
      if !ok then next.out + [Failed]
      else Run(j, model, next, if whole then [] else Rest(text), count + |events[0].payload|, events[1..])
  }

  function Stream(j: Json, model: string, events: seq<Event>): seq<Item> {
    Run(j, model, START, [], 0, events)
  }

  // ---------- the goroutine ----------

  class Reassembler {
    const json: Json
    const model: string
    var terminal: Option<(nat, Chunk)>
    var pending: Text
    var count: nat
    var index: nat
    var usage: Usage
    var out: seq<Item>

    constructor (json: Json, model: string)
      ensures this.json == json && this.model == model
      ensures Now() == START && pending == [] && count == 0
    {
      this.json, this.model := json, model;
      terminal, pending, count, index, usage, out := None, [], 0, 0, NO_USAGE, [];
    }

    function Now(): State
      reads this
    {
      State(terminal, index, usage, out)
    }

    method ParseText(raw: Text) returns (ok: bool)
      modifies this
      ensures (Now(), ok) == Parse(json, model, old(Now()), raw)
      ensures pending == old(pending) && count == old(count)
    {
      var text := TrimPrefix(Trim(raw), DATA);
      if text == DONE { return terminal.Some?; }
      if |text| > MAX_TEXT { return false; }
      var decoded := json.decode(text);
      if decoded == None { return false; }
      var chunk := decoded.value;
      if chunk.objectType != "chat.completion.chunk" || chunk.choices > 1 || (chunk.choices == 0 && chunk.usage == None) {
        return false;
      }
      if chunk.usage.Some? { usage := chunk.usage.value; }
      var position := index;
      index := index + 1;
      if chunk.choices == 1 && chunk.finish {
        terminal := Some((position, chunk));
        return true;
      }
      if chunk.choices == 0 { return true; }
      if terminal.Some? { return false; }
      out := out + [Delta(position, model, chunk.content)];
      return true;
    }

    // Takes complete lines off pending until none is left.
    method ParsePending() returns (ok: bool)
      modifies this
      ensures (Now(), ok) == ParseLines(json, model, old(Now()), Whole(old(pending)))
      ensures ok ==> pending == Rest(old(pending))
      ensures count == old(count)
    {
      ghost var result := ParseLines(json, model, Now(), Whole(pending));
      while NEWLINE in pending
        invariant ParseLines(json, model, Now(), Whole(pending)) == result
        invariant Rest(pending) == Rest(old(pending)) && count == old(count)
        decreases |pending|
      {
        var line, remaining := Cut(pending);
        CutLines(pending, line, remaining);
        ParseLinesStep(json, model, Now(), line, Whole(remaining));
        pending := remaining;
        line := Trim(line);
        if line == [] { continue; }
        ok := ParseText(line);
        if !ok { return false; }
      }
      NoNewline(pending);
      assert Whole(pending) == [];
      return true;
    }

    method Cut(s: Text) returns (line: Text, remaining: Text)
      requires NEWLINE in s
      ensures s == line + [NEWLINE] + remaining && NEWLINE !in line
    {
      var i := 0;
      while s[i] != NEWLINE
        invariant 0 <= i < |s| && NEWLINE in s[i..] && NEWLINE !in s[..i]
        decreases |s| - i
      {
        i := i + 1;
      }
      return s[..i], s[i + 1..];
    }

    // One frame, the first of events; false when it ends the stream in failure.
    method TakeFrame(event: Event, ghost events: seq<Event>) returns (ok: bool)
      requires events != [] && event == events[0]
      modifies this
      ensures Run(json, model, old(Now()), old(pending), old(count), events)
           == if ok then Run(json, model, Now(), pending, count, events[1..]) else out + [Failed]
    {
      if event.Broken? { return false; }
      count := count + |event.payload|;
      if count > MAX_BODY || !event.part { return false; }
      pending := pending + event.payload;
      if |pending| > MAX_TEXT { return false; }
      RunStep(json, model, Now(), old(pending), old(count), events, count);
      if json.valid(Trim(pending)) {
        ok := ParseText(pending);
        pending := [];
      } else {
        ok := ParsePending();
      }
    }

    /** Reads the events up to the end of the stream or the first failure. */
    method ReadAll(events: seq<Event>)
      requires Now() == START && pending == [] && count == 0
      modifies this
      ensures out == Stream(json, model, events)
    {
      assert events[0..] == events;
      for k := 0 to |events|
        invariant Run(json, model, Now(), pending, count, events[k..]) == Stream(json, model, events)
      {
        ghost var rest := events[k..];
        assert rest[1..] == events[k + 1..];
        var ok := TakeFrame(events[k], rest);
        if !ok {
          out := out + [Failed];
          return;
        }
      }
      var ok := true;
      if Trim(pending) != [] {
        ok := ParseText(pending);
      }
      if !ok || terminal == None {
        out := out + [Failed];
        return;
      }
      out := out + [Final(terminal.value.0, model, terminal.value.1.content, usage)];
    }
  }

  lemma ParseLinesStep(j: Json, model: string, st: State, line: Text, rest: seq<Text>)
    ensures ParseLines(j, model, st, [line] + rest)
         == if Trim(line) == [] then ParseLines(j, model, st, rest)
            else var (next, ok) := Parse(j, model, st, Trim(line));
                 if ok then ParseLines(j, model, next, rest) else (next, false)
  {
  }

  lemma CutLines(s: Text, line: Text, remaining: Text)
    requires s == line + [NEWLINE] + remaining && NEWLINE !in line
    ensures Lines(s) == [line] + Lines(remaining)
    ensures Whole(s) == [line] + Whole(remaining) && Rest(s) == Rest(remaining)
  {
    SplitAppend(line, remaining, NEWLINE);
    NoNewline(line);
  }

  lemma NoNewline(s: Text)
    requires NEWLINE !in s
    ensures Lines(s) == [s]
  {
    SplitPrefix(s, [], NEWLINE);
    assert s + [] == s;
  }

  // One good frame.
  lemma RunStep(j: Json, model: string, st: State, pending: Text, count: nat, events: seq<Event>, total: nat)
    requires events != [] && events[0].Frame? && events[0].part
    requires total == count + |events[0].payload| <= MAX_BODY && |pending + events[0].payload| <= MAX_TEXT
    ensures var text := pending + events[0].payload;
            var whole := j.valid(Trim(text));
            var (next, ok) := if whole then Parse(j, model, st, text) else ParseLines(j, model, st, Whole(text));
            Run(j, model, st, pending, count, events)
            == if ok then Run(j, model, next, if whole then [] else Rest(text), total, events[1..]) else next.out + [Failed]
  {
    var text := pending + events[0].payload;
    assert !(events[0].Broken? || count + |events[0].payload| > MAX_BODY || !events[0].part || |text| > MAX_TEXT);
    if j.valid(Trim(text)) {
      assert total == count + |events[0].payload|;
    } else {
      assert total == count + |events[0].payload|;
    }
  }

  // ---------- stream discipline ----------

  // Non-terminal chunks with increasing indices.
  ghost predicate Deltas(items: seq<Item>) {
    && (forall i | 0 <= i < |items| :: items[i].Delta?)
    && forall i, k | 0 <= i < k < |items| :: items[i].index < items[k].index
  }

  ghost predicate Below(items: seq<Item>, bound: nat) {
    forall i | 0 <= i < |items| :: items[i].Delta? && items[i].index < bound
  }

  ghost predicate InOrder(st: State) {
    && Deltas(st.out) && Below(st.out, st.index)
    && (st.terminal.Some? ==> Below(st.out, st.terminal.value.0) && st.terminal.value.0 < st.index)
  }

  // Chunks and then one item that ends the stream.
  ghost predicate Disciplined(items: seq<Item>) {
    && items != []
    && var chunks, last := items[..|items| - 1], items[|items| - 1];
       Deltas(chunks) && !last.Delta? && (last.Final? ==> Below(chunks, last.index))
  }

  lemma {:induction false} ParseLinesInOrder(j: Json, model: string, st: State, lines: seq<Text>)
    requires InOrder(st)
    ensures InOrder(ParseLines(j, model, st, lines).0)
    decreases |lines|
  {
    if lines != [] {
      var (next, ok) := Parse(j, model, st, Trim(lines[0]));
      ParseLinesInOrder(j, model, if Trim(lines[0]) == [] then st else next, lines[1..]);
    }
  }

  lemma FinishedDisciplined(model: string, result: (State, bool))
    requires InOrder(result.0)
    ensures Disciplined(Finished(model, result))
  {
  }

  lemma FailedDisciplined(st: State)
    requires InOrder(st)
    ensures Disciplined(st.out + [Failed])
  {
  }

  lemma StepInOrder(j: Json, model: string, st: State, text: Text, whole: bool)
    requires InOrder(st)
    ensures InOrder((if whole then Parse(j, model, st, text) else ParseLines(j, model, st, Whole(text))).0)
  {
    ParseLinesInOrder(j, model, st, Whole(text));
  }

  lemma {:induction false} RunDisciplined(j: Json, model: string, st: State, pending: Text, count: nat, events: seq<Event>)
    requires InOrder(st)
    ensures Disciplined(Run(j, model, st, pending, count, events))
    decreases |events|
  {
    FailedDisciplined(st);
    if events == [] {
      FinishedDisciplined(model, if Trim(pending) == [] then (st, true) else Parse(j, model, st, pending));
    } else if !events[0].Broken? {
      var text := pending + events[0].payload;
      var whole := j.valid(Trim(text));
      var (next, ok) := if whole then Parse(j, model, st, text) else ParseLines(j, model, st, Whole(text));
      StepInOrder(j, model, st, text, whole);
      if ok {
        RunDisciplined(j, model, next, if whole then [] else Rest(text), count + |events[0].payload|, events[1..]);
      } else {
        FailedDisciplined(next);
      }
    }
  }

  // ---------- what may follow a finish reason ----------

  // What a reader of the stream and of its source sees, in order: an item is emitted, or a
  // finish reason is read.
  datatype Mark = Emits(item: Item) | Finishes

  function MarksOf(model: string, st: State, kind: Kind): seq<Mark> {
    if kind.Finish? then [Finishes]
    else if kind.Content? && st.terminal == None then [Emits(Delta(st.index, model, kind.chunk.content))]
    else []
  }

  function LineMarks(j: Json, model: string, st: State, lines: seq<Text>): seq<Mark>
    decreases |lines|
  {
    if lines == [] then []
    else if Trim(lines[0]) == [] then LineMarks(j, model, st, lines[1..])
    else
      var kind := KindOf(j, Trim(lines[0]));
      var (next, ok) := Accept(model, st, kind);
      MarksOf(model, st, kind) + if ok then LineMarks(j, model, next, lines[1..]) else []
  }

  function LastMark(model: string, result: (State, bool)): Mark {
    var items := Finished(model, result);
    Emits(items[|items| - 1])
  }

  function RunMarks(j: Json, model: string, st: State, pending: Text, count: nat, events: seq<Event>): seq<Mark>
    decreases |events|
  {
    if events == [] then
      if Trim(pending) == [] then [LastMark(model, (st, true))]
      else MarksOf(model, st, KindOf(j, pending)) + [LastMark(model, Parse(j, model, st, pending))]
    else if events[0].Broken? || count + |events[0].payload| > MAX_BODY || !events[0].part
            || |pending + events[0].payload| > MAX_TEXT then [Emits(Failed)]
    else
      var text := pending + events[0].payload;
      var whole := j.valid(Trim(text));
      var (next, ok) := if whole then Parse(j, model, st, text) else ParseLines(j, model, st, Whole(text));
      (if whole then MarksOf(model, st, KindOf(j, text)) else LineMarks(j, model, st, Whole(text)))
      + if !ok then [Emits(Failed)]
        else RunMarks(j, model, next, if whole then [] else Rest(text), count + |events[0].payload|, events[1..])
  }

  function Items(marks: seq<Mark>): seq<Item> {
    if marks == [] then [] else (if marks[0].Emits? then [marks[0].item] else []) + Items(marks[1..])
  }

  // seen: a finish reason has been read.  Then no chunk follows; and one final item, the last.
  ghost predicate Ends(marks: seq<Mark>, seen: bool) {
    && marks != []
    && if marks[0].Finishes? then Ends(marks[1..], true)
       else if marks[0].item.Delta? then !seen && Ends(marks[1..], seen)
       else marks[1..] == []
  }

  // The marks before the last one: no final item, and no chunk after a finish reason.
  ghost predicate Continues(marks: seq<Mark>, seen: bool, after: bool) {
    if marks == [] then after == seen
    else if marks[0].Finishes? then Continues(marks[1..], true, after)
    else marks[0].item.Delta? && !seen && Continues(marks[1..], seen, after)
  }

  lemma {:induction false} ItemsAppend(a: seq<Mark>, b: seq<Mark>)
    ensures Items(a + b) == Items(a) + Items(b)
    decreases |a|
  {
    if a == [] {
      assert a + b == b;
    } else {
      assert (a + b)[1..] == a[1..] + b;
      ItemsAppend(a[1..], b);
      Assoc(if a[0].Emits? then [a[0].item] else [], Items(a[1..]), Items(b));
    }
  }

  lemma {:induction false} EndsAppend(a: seq<Mark>, b: seq<Mark>, seen: bool, after: bool)
    requires Continues(a, seen, after) && Ends(b, after)
    ensures Ends(a + b, seen)
    decreases |a|
  {
    if a == [] {
      assert a + b == b;
    } else {
      assert (a + b)[1..] == a[1..] + b;
      EndsAppend(a[1..], b, seen || a[0].Finishes?, after);
    }
  }

  lemma {:induction false} ContinuesAppend(a: seq<Mark>, b: seq<Mark>, seen: bool, between: bool, after: bool)
    requires Continues(a, seen, between) && Continues(b, between, after)
    ensures Continues(a + b, seen, after)
    decreases |a|
  {
    if a == [] {
      assert a + b == b;
    } else {
      assert (a + b)[1..] == a[1..] + b;
      ContinuesAppend(a[1..], b, seen || a[0].Finishes?, between, after);
    }
  }

  lemma AcceptMarked(model: string, st: State, kind: Kind)
    ensures var (next, marks) := (Accept(model, st, kind).0, MarksOf(model, st, kind));
            next.out == st.out + Items(marks) && Continues(marks, st.terminal.Some?, next.terminal.Some?)
  {
  }

  // Marks that lead from a state to the next, and on to the one after it.
  lemma MarksLead(st: State, next: State, last: State, first: seq<Mark>, more: seq<Mark>)
    requires next.out == st.out + Items(first) && Continues(first, st.terminal.Some?, next.terminal.Some?)
    requires last.out == next.out + Items(more) && Continues(more, next.terminal.Some?, last.terminal.Some?)
    ensures last.out == st.out + Items(first + more) && Continues(first + more, st.terminal.Some?, last.terminal.Some?)
  {
    ItemsAppend(first, more);
    ContinuesAppend(first, more, st.terminal.Some?, next.terminal.Some?, last.terminal.Some?);
    Assoc(st.out, Items(first), Items(more));
  }

  lemma {:induction false} LinesMarked(j: Json, model: string, st: State, lines: seq<Text>)
    ensures var (next, marks) := (ParseLines(j, model, st, lines).0, LineMarks(j, model, st, lines));
            next.out == st.out + Items(marks) && Continues(marks, st.terminal.Some?, next.terminal.Some?)
    decreases |lines|
  {
    if lines != [] {
      if Trim(lines[0]) == [] {
        LinesMarked(j, model, st, lines[1..]);
      } else {
        var kind := KindOf(j, Trim(lines[0]));
        var (next, ok) := Accept(model, st, kind);
        var first, more := MarksOf(model, st, kind), if ok then LineMarks(j, model, next, lines[1..]) else [];
        AcceptMarked(model, st, kind);
        if ok { LinesMarked(j, model, next, lines[1..]); }
        MarksLead(st, next, if ok then ParseLines(j, model, next, lines[1..]).0 else next, first, more);
      }
    }
  }

  // Marks that lead to a state, and marks that end a stream from there.
  lemma MarksJoin(st: State, next: State, first: seq<Mark>, more: seq<Mark>)
    requires next.out == st.out + Items(first) && Continues(first, st.terminal.Some?, next.terminal.Some?)
    requires Ends(more, next.terminal.Some?)
    ensures st.out + Items(first + more) == next.out + Items(more) && Ends(first + more, st.terminal.Some?)
  {
    ItemsAppend(first, more);
    EndsAppend(first, more, st.terminal.Some?, next.terminal.Some?);
    Assoc(st.out, Items(first), Items(more));
  }

  lemma LastMarked(model: string, result: (State, bool))
    ensures var last := LastMark(model, result);
            Finished(model, result) == result.0.out + Items([last]) && Ends([last], result.0.terminal.Some?)
  {
    var last := LastMark(model, result);
    assert [last][1..] == [] && Items([last]) == [last.item];
  }

  lemma {:induction false} RunMarked(j: Json, model: string, st: State, pending: Text, count: nat, events: seq<Event>)
    ensures var marks := RunMarks(j, model, st, pending, count, events);
            Run(j, model, st, pending, count, events) == st.out + Items(marks) && Ends(marks, st.terminal.Some?)
    decreases |events|
  {
    assert [Emits(Failed)][1..] == [] && Items([Emits(Failed)]) == [Failed];
    if events == [] {
      if Trim(pending) == [] {
        LastMarked(model, (st, true));
      } else {
        var kind, result := KindOf(j, pending), Parse(j, model, st, pending);
        AcceptMarked(model, st, kind);
        LastMarked(model, result);
        MarksJoin(st, result.0, MarksOf(model, st, kind), [LastMark(model, result)]);
      }
    } else if !(events[0].Broken? || count + |events[0].payload| > MAX_BODY || !events[0].part
                || |pending + events[0].payload| > MAX_TEXT) {
      FrameMarked(j, model, st, pending, count, events);
    }
  }

  lemma FrameMarked(j: Json, model: string, st: State, pending: Text, count: nat, events: seq<Event>)
    requires events != [] && events[0].Frame? && events[0].part
    requires count + |events[0].payload| <= MAX_BODY && |pending + events[0].payload| <= MAX_TEXT
    ensures var marks := RunMarks(j, model, st, pending, count, events);
            Run(j, model, st, pending, count, events) == st.out + Items(marks) && Ends(marks, st.terminal.Some?)
    decreases |events|, 0
  {
    var text, total := pending + events[0].payload, count + |events[0].payload|;
    var whole := j.valid(Trim(text));
    var (next, ok) := if whole then Parse(j, model, st, text) else ParseLines(j, model, st, Whole(text));
    var first := if whole then MarksOf(model, st, KindOf(j, text)) else LineMarks(j, model, st, Whole(text));
    var more := if !ok then [Emits(Failed)] else RunMarks(j, model, next, if whole then [] else Rest(text), total, events[1..]);
    if whole { AcceptMarked(model, st, KindOf(j, text)); } else { LinesMarked(j, model, st, Whole(text)); }
    if ok {
      RunMarked(j, model, next, if whole then [] else Rest(text), total, events[1..]);
    } else {
      assert [Emits(Failed)][1..] == [] && Items([Emits(Failed)]) == [Failed];
    }
    MarksJoin(st, next, first, more);
    RunStep(j, model, st, pending, count, events, total);
    assert RunMarks(j, model, st, pending, count, events) == first + more;
  }

  lemma {:induction false} OneItemLeft(marks: seq<Mark>)
    requires Ends(marks, true)
    ensures |Items(marks)| == 1 && !Items(marks)[0].Delta?
    decreases |marks|
  {
    if marks[0].Finishes? { OneItemLeft(marks[1..]); }
  }

  /** From any state in which a finish reason has been read, whatever arrives, the stream
      emits exactly one more item, and it is not a chunk. */
  lemma NothingFollowsFinish(j: Json, model: string, st: State, pending: Text, count: nat, events: seq<Event>)
    requires st.terminal.Some?
    ensures var items := Run(j, model, st, pending, count, events);
            |items| == |st.out| + 1 && st.out <= items && !items[|st.out|].Delta?
  {
    RunMarked(j, model, st, pending, count, events);
    OneItemLeft(RunMarks(j, model, st, pending, count, events));
  }

  /** Whatever arrives, the stream emits non-terminal chunks with increasing indices and
      then exactly one final item, a final chunk with the highest index of all; and in the
      order of what is read and emitted, no chunk comes after any finish reason, whether the
      stream ends well or not. */
  lemma StreamDisciplined(j: Json, model: string, events: seq<Event>)
    ensures Disciplined(Stream(j, model, events))
    ensures var marks := RunMarks(j, model, START, [], 0, events);
            Items(marks) == Stream(j, model, events) && Ends(marks, false)
  {
    RunDisciplined(j, model, START, [], 0, events);
    RunMarked(j, model, START, [], 0, events);
  }
}
