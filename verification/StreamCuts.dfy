/** When the stream of the reassembler of apps/ai-engine/sagemaker.go does not depend on how
    its payload is cut into frames: the exact condition on the payload. */
module StreamCuts {
  import opened Bytes
  import opened Splits
  import opened Stream
  import opened StreamTexts
  import opened StreamFrames

  // ---------- the condition ----------

  // A front that the reassembler parses at once when a frame ends with it.
  predicate Bite(r: Rules, s: Text, n: int) {
    0 < n <= |s| && n <= MAX_TEXT && r.valid(Trim(s[..n]))
  }

  // The front is the next text of the whole, or both are refused.
  predicate Agrees(r: Rules, front: Text, s: Text) {
    Texts(s) != [] && (front == Texts(s)[0] || (Refused(r, front) && Refused(r, Texts(s)[0])))
  }

  predicate Passes(r: Rules, line: Text) {
    Blank(line) || !Refused(r, Trim(line))
  }

  /** Whenever the text up to some position is valid JSON, it is exactly the first line that
      is not blank, or both are refused; and the same holds of what is left after such a text,
      and after the first line, as long as nothing is refused. */
  ghost predicate Severable(r: Rules, s: Text)
    decreases |s|
  {
    && (forall n | Bite(r, s, n) :: Agrees(r, Trim(s[..n]), s) && (!Refused(r, Trim(s[..n])) ==> Severable(r, s[n..])))
    && (NEWLINE in s && Passes(r, Lines(s)[0]) ==> Severable(r, AfterLine(s)))
  }

  /** Some way of reading it meets no refused text. */
  ghost predicate Acceptable(r: Rules, s: Text)
    decreases |s|
  {
    || Blank(s)
    || (NEWLINE !in s && !Refused(r, Trim(s)))
    || (exists n | Bite(r, s, n) :: !Refused(r, Trim(s[..n])) && Acceptable(r, s[n..]))
    || (NEWLINE in s && Passes(r, Lines(s)[0]) && Acceptable(r, AfterLine(s)))
  }

  // What has been read: nothing, a chunk, or [DONE], after which no chunk can be emitted.
  datatype Mode = Fresh | Begun | Ended

  // The mode after a text that may be accepted.
  function Next(r: Rules, mode: Mode, text: Text): Option<Mode> {
    var t := TrimPrefix(text, DATA);
    if t == DONE then (if mode.Fresh? then None else Some(Ended))
    else if r.takes(t) then Some(if mode.Ended? then Ended else Begun)
    else None
  }

  function NextLine(r: Rules, mode: Mode, line: Text): Option<Mode> {
    if Blank(line) then Some(mode) else Next(r, mode, Trim(line))
  }

  /** The exact condition.  It is the one of Severable, except that nothing is asked of what
      follows a [DONE] that comes first, and that after any other [DONE] it is enough that
      every way of reading the rest meets a refused text. */
  ghost predicate Unambiguous(r: Rules, s: Text, mode: Mode)
    decreases |s|
  {
    if mode.Ended? then Severable(r, s) || !Acceptable(r, s)
    else
      && (forall n | Bite(r, s, n) :: Agrees(r, Trim(s[..n]), s) && (!Refused(r, Trim(s[..n])) ==> Unambiguous(r, s[n..], Begun)))
      && (NEWLINE in s && NextLine(r, mode, Lines(s)[0]).Some? ==>
            Unambiguous(r, AfterLine(s), NextLine(r, mode, Lines(s)[0]).value))
  }

  /** A severable payload is unambiguous. */
  lemma {:induction false} SeverableSuffices(r: Rules, s: Text, mode: Mode)
    requires Severable(r, s)
    ensures Unambiguous(r, s, mode)
    decreases |s|
  {
    if !mode.Ended? {
      forall n | Bite(r, s, n)
        ensures Agrees(r, Trim(s[..n]), s) && (!Refused(r, Trim(s[..n])) ==> Unambiguous(r, s[n..], Begun))
      {
        if !Refused(r, Trim(s[..n])) { SeverableSuffices(r, s[n..], Begun); }
      }
      if NEWLINE in s && NextLine(r, mode, Lines(s)[0]).Some? {
        SeverableSuffices(r, AfterLine(s), NextLine(r, mode, Lines(s)[0]).value);
      }
    }
  }

  ghost predicate NoDone(s: Text) {
    forall t | t in Texts(s) :: TrimPrefix(t, DATA) != DONE
  }

  lemma NoDoneLater(s: Text, t: seq<Text>, rest: Text)
    requires NoDone(s) && Texts(s) == t + Texts(rest)
    ensures NoDone(rest) && forall u | u in t :: TrimPrefix(u, DATA) != DONE
  {
    forall u | u in Texts(rest) || u in t ensures u in Texts(s) {
    }
  }

  /** Without a [DONE] nothing less will do. */
  lemma {:induction false} SeverableNeeded(r: Rules, s: Text, mode: Mode)
    requires Facts(r) && Unambiguous(r, s, mode) && !mode.Ended? && NoDone(s)
    ensures Severable(r, s)
    decreases |s|, 1
  {
    forall n | Bite(r, s, n)
      ensures Agrees(r, Trim(s[..n]), s) && (!Refused(r, Trim(s[..n])) ==> Severable(r, s[n..]))
    {
      SplitAt(s, n);
      if !Refused(r, Trim(s[..n])) { NeededLater(r, s[..n], s[n..], s); }
    }
    if NEWLINE in s && Passes(r, Lines(s)[0]) { NeededAfterLine(r, s, mode); }
  }

  lemma {:induction false} NeededLater(r: Rules, front: Text, rest: Text, s: Text)
    requires Facts(r) && s == front + rest && front != [] && NoDone(s) && r.valid(Trim(front)) && Agrees(r, Trim(front), s)
    requires !Refused(r, Trim(front)) && Unambiguous(r, rest, Begun)
    ensures Severable(r, rest)
    decreases |s|, 0
  {
    Consumed(front, rest);
    NoDoneLater(s, [Trim(front)], rest);
    SeverableNeeded(r, rest, Begun);
  }

  lemma {:induction false} NeededAfterLine(r: Rules, s: Text, mode: Mode)
    requires Facts(r) && Unambiguous(r, s, mode) && !mode.Ended? && NoDone(s) && NEWLINE in s && Passes(r, Lines(s)[0])
    ensures Severable(r, AfterLine(s))
    decreases |s|, 0
  {
    AfterLineIs(s);
    var line := Lines(s)[0];
    NoDoneLater(s, TextOf(line), AfterLine(s));
    assert !Blank(line) ==> Trim(line) in TextOf(line);
    SeverableNeeded(r, AfterLine(s), NextLine(r, mode, line).value);
  }

  // ---------- independence ----------

  // The parser's state is one that the mode describes.
  predicate Suits(mode: Mode, st: State) {
    (mode.Fresh? ==> st.terminal == None) && (mode.Ended? ==> st.terminal.Some?)
  }

  lemma ModeAfterText(r: Rules, j: Json, model: string, st: State, text: Text, mode: Mode)
    requires Decodes(r, j) && Suits(mode, st) && Parse(j, model, st, text).1
    ensures Next(r, mode, Trim(text)).Some? && Suits(Next(r, mode, Trim(text)).value, Parse(j, model, st, text).0)
  {
    var t := TrimPrefix(Trim(text), DATA);
    if t != DONE { assert Taken(j, t); }
  }

  // What is left after a line that was accepted.
  lemma LineLater(r: Rules, s: Text, mode: Mode)
    requires Unambiguous(r, s, mode) && NEWLINE in s && NextLine(r, mode, Lines(s)[0]).Some?
    ensures Unambiguous(r, AfterLine(s), NextLine(r, mode, Lines(s)[0]).value)
  {
    assert Passes(r, Lines(s)[0]);
  }

  lemma {:induction false} LinesLater(r: Rules, j: Json, model: string, st: State, text: Text, later: Text, mode: Mode)
      returns (after: Mode)
    requires Decodes(r, j) && Suits(mode, st) && Unambiguous(r, text + later, mode)
    requires ParseLines(j, model, st, Whole(text)).1
    ensures Unambiguous(r, Rest(text) + later, after) && Suits(after, ParseLines(j, model, st, Whole(text)).0)
    decreases |text|
  {
    if NEWLINE in text {
      AfterLineIs(text);
      var line, more := Lines(text)[0], AfterLine(text);
      CutLines(text, line, more);
      FirstOfMore(text, later);
      var read := LineRead(j, model, st, line);
      FirstLineParsed(j, model, st, line, Whole(more));
      if !Blank(line) { ModeAfterText(r, j, model, st, line, mode); }
      LineLater(r, text + later, mode);
      after := LinesLater(r, j, model, read.0, more, later, NextLine(r, mode, line).value);
    } else {
      NoNewline(text);
      after := mode;
    }
  }

  lemma FirstOfMore(text: Text, later: Text)
    requires NEWLINE in text
    ensures Lines(text + later)[0] == Lines(text)[0] && AfterLine(text + later) == AfterLine(text) + later
  {
    AfterLineIs(text);
    var line, more := Lines(text)[0], AfterLine(text);
    assert text + later == line + [NEWLINE] + (more + later);
    AfterLineOf(text + later, line, more + later);
    CutLines(text + later, line, more + later);
  }

  lemma FirstLineParsed(j: Json, model: string, st: State, line: Text, more: seq<Text>)
    ensures var read := LineRead(j, model, st, line);
            ParseLines(j, model, st, [line] + more) == if read.1 then ParseLines(j, model, read.0, more) else read
  {
    ParseLinesStep(j, model, st, line, more);
    TrimTwice(line);
  }

  lemma FrontOfAll(text: Text, later: Text)
    ensures (text + later)[..|text|] == text && (text + later)[|text|..] == later
  {
  }

  // What is left after a front that was parsed at once and accepted.
  lemma FrontLater(r: Rules, text: Text, later: Text, mode: Mode, after: Mode)
    requires Unambiguous(r, text + later, mode) && Bite(r, text + later, |text|)
    requires Facts(r) && !Refused(r, Trim(text)) && Next(r, mode, Trim(text)) == Some(after)
    ensures Unambiguous(r, later, after)
  {
    FrontOfAll(text, later);
  }

  lemma FrontAgrees(r: Rules, text: Text, later: Text, mode: Mode)
    requires Unambiguous(r, text + later, mode) && Bite(r, text + later, |text|) && (mode.Ended? ==> Severable(r, text + later))
    ensures Agrees(r, Trim(text), text + later)
  {
    FrontOfAll(text, later);
  }

  // A text whose first text is refused is read no further.
  lemma RefusedFirst(r: Rules, j: Json, model: string, st: State, s: Text)
    requires Decodes(r, j) && Texts(s) != [] && Refused(r, Texts(s)[0])
    ensures ParseLines(j, model, st, Texts(s)) == (st, false)
  {
    TextsAreLines(Lines(s), Texts(s)[0]);
    var t, line :| t == Texts(s)[0] && line in Lines(s) && t == Trim(line);
    TrimTwice(line);
    RefusedIsBad(r, j, model, st, t);
  }

  lemma WholeAgreed(r: Rules, j: Json, model: string, st: State, text: Text, later: Text)
    requires Facts(r) && Decodes(r, j) && r.valid(Trim(text)) && Agrees(r, Trim(text), text + later)
    ensures var read := Parse(j, model, st, text);
            ParseLines(j, model, st, Texts(text + later)) ==
            if read.1 then ParseLines(j, model, read.0, Texts(later)) else read
  {
    if Trim(text) == Texts(text + later)[0] {
      Consumed(text, later);
      ParsesFirst(j, model, st, text, Texts(later));
    } else {
      RefusedIsBad(r, j, model, st, text);
      RefusedFirst(r, j, model, st, text + later);
    }
  }

  // A frame that is parsed at once.
  lemma WholeStep(r: Rules, j: Json, model: string, st: State, text: Text, later: Text, read: (State, bool), mode: Mode)
      returns (after: Mode)
    requires Facts(r) && Decodes(r, j) && Suits(mode, st) && Bite(r, text + later, |text|) && r.valid(Trim(text))
    requires Unambiguous(r, text + later, mode) && (mode.Ended? ==> Severable(r, text + later))
    requires read == Parse(j, model, st, text)
    ensures ParseLines(j, model, st, Texts(text + later)) == if read.1 then ParseLines(j, model, read.0, Texts(later)) else read
    ensures read.1 ==> Unambiguous(r, later, after) && Suits(after, read.0)
  {
    FrontAgrees(r, text, later, mode);
    WholeAgreed(r, j, model, st, text, later);
    after := mode;
    if read.1 {
      ModeAfterText(r, j, model, st, text, mode);
      after := Next(r, mode, Trim(text)).value;
      FrontLater(r, text, later, mode, after);
    }
  }

  // A frame that is parsed line by line.
  lemma LinesStep(r: Rules, j: Json, model: string, st: State, text: Text, later: Text, read: (State, bool), mode: Mode)
      returns (after: Mode)
    requires Decodes(r, j) && Suits(mode, st) && Unambiguous(r, text + later, mode)
    requires read == ParseLines(j, model, st, Whole(text))
    ensures ParseLines(j, model, st, Texts(text + later)) ==
            if read.1 then ParseLines(j, model, read.0, Texts(Rest(text) + later)) else read
    ensures read.1 ==> Unambiguous(r, Rest(text) + later, after) && Suits(after, read.0)
  {
    TextsLater(j, model, st, text, later);
    after := mode;
    if read.1 { after := LinesLater(r, j, model, st, text, later, mode); }
  }

  // From this state on the frames emit what parsing the texts emits.
  ghost predicate EmitsTexts(j: Json, model: string, st: State, pending: Text, count: nat, frames: seq<Text>, texts: seq<Text>) {
    Run(j, model, st, pending, count, Events(frames)) == Finished(model, ParseLines(j, model, st, texts))
  }

  lemma FrameEmits(j: Json, model: string, st: State, pending: Text, count: nat, frames: seq<Text>, texts: seq<Text>,
                   text: Text, total: nat, read: (State, bool), rest: Text, more: seq<Text>)
    requires frames != [] && text == pending + frames[0] && total == count + |frames[0]| <= MAX_BODY && |text| <= MAX_TEXT
    requires read == if j.valid(Trim(text)) then Parse(j, model, st, text) else ParseLines(j, model, st, Whole(text))
    requires rest == if j.valid(Trim(text)) then [] else Rest(text)
    requires ParseLines(j, model, st, texts) == if read.1 then ParseLines(j, model, read.0, more) else read
    requires !read.1 || EmitsTexts(j, model, read.0, rest, total, frames[1..], more)
    ensures EmitsTexts(j, model, st, pending, count, frames, texts)
  {
    FrameRun(j, model, st, pending, count, frames, text, total, read, rest);
  }

  lemma NoFrameEmits(j: Json, model: string, st: State, pending: Text, count: nat)
    requires NEWLINE !in pending
    ensures EmitsTexts(j, model, st, pending, count, [], Texts(pending))
  {
    LastPending(j, model, st, pending);
  }

  lemma HopelessEmits(r: Rules, j: Json, model: string, st: State, pending: Text, count: nat, frames: seq<Text>, all: Text)
    requires Decodes(r, j) && st.terminal.Some? && NEWLINE !in pending && all == pending + Flat(frames)
    requires !Acceptable(r, all) && Fits(r.valid, pending, count, frames)
    ensures EmitsTexts(j, model, st, pending, count, frames, Texts(all))
  {
    RunHopeless(r, j, model, st, pending, count, frames);
    TextsHopeless(r, j, model, st, all);
  }

  lemma FitsLater(valid: Text -> bool, pending: Text, count: nat, frames: seq<Text>, text: Text, total: nat, rest: Text)
    requires frames != [] && Fits(valid, pending, count, frames) && text == pending + frames[0] && total == count + |frames[0]|
    requires rest == if valid(Trim(text)) then [] else Rest(text)
    ensures total <= MAX_BODY && |text| <= MAX_TEXT && Fits(valid, rest, total, frames[1..]) && NEWLINE !in rest
  {
    RestIsOneLine(text);
  }

  // The first of the frames.
  lemma FrameStep(r: Rules, j: Json, model: string, st: State, text: Text, later: Text, read: (State, bool), rest: Text, mode: Mode)
      returns (after: Mode)
    requires Facts(r) && Decodes(r, j) && Suits(mode, st) && |text| <= MAX_TEXT
    requires Unambiguous(r, text + later, mode) && (mode.Ended? ==> Severable(r, text + later))
    requires read == if j.valid(Trim(text)) then Parse(j, model, st, text) else ParseLines(j, model, st, Whole(text))
    requires rest == if j.valid(Trim(text)) then [] else Rest(text)
    ensures ParseLines(j, model, st, Texts(text + later)) ==
            if read.1 then ParseLines(j, model, read.0, Texts(rest + later)) else read
    ensures read.1 ==> Unambiguous(r, rest + later, after) && Suits(after, read.0)
  {
    if j.valid(Trim(text)) {
      FrontOfAll(text, later);
      after := WholeStep(r, j, model, st, text, later, read, mode);
      assert [] + later == later;
    } else {
      after := LinesStep(r, j, model, st, text, later, read, mode);
    }
  }

  /** From any state: a stream whose text is unambiguous emits what parsing its texts one by
      one emits, however the text is cut. */
  lemma {:induction false} RunOfTexts(r: Rules, j: Json, model: string, st: State, pending: Text, count: nat, frames: seq<Text>,
                                      mode: Mode, all: Text)
    requires Facts(r) && Decodes(r, j) && Suits(mode, st) && NEWLINE !in pending && all == pending + Flat(frames)
    requires Unambiguous(r, all, mode) && Fits(r.valid, pending, count, frames)
    ensures EmitsTexts(j, model, st, pending, count, frames, Texts(all))
    decreases |frames|, 1
  {
    if frames == [] {
      assert all == pending;
      NoFrameEmits(j, model, st, pending, count);
    } else if mode.Ended? && !Severable(r, all) {
      HopelessEmits(r, j, model, st, pending, count, frames, all);
    } else {
      var text, later := pending + frames[0], Flat(frames[1..]);
      Assoc(pending, frames[0], later);
      RunOfFrame(r, j, model, st, pending, count, frames, mode, text, later);
    }
  }

  lemma {:induction false} RunOfFrame(r: Rules, j: Json, model: string, st: State, pending: Text, count: nat, frames: seq<Text>,
                                      mode: Mode, text: Text, later: Text)
    requires Facts(r) && Decodes(r, j) && Suits(mode, st)
    requires frames != [] && text == pending + frames[0] && later == Flat(frames[1..])
    requires Unambiguous(r, text + later, mode) && (mode.Ended? ==> Severable(r, text + later))
    requires Fits(r.valid, pending, count, frames)
    ensures EmitsTexts(j, model, st, pending, count, frames, Texts(text + later))
    decreases |frames|, 0
  {
    var total, whole := count + |frames[0]|, j.valid(Trim(text));
    var read := if whole then Parse(j, model, st, text) else ParseLines(j, model, st, Whole(text));
    var rest := if whole then [] else Rest(text);
    FitsLater(r.valid, pending, count, frames, text, total, rest);
    var after := FrameStep(r, j, model, st, text, later, read, rest, mode);
    if read.1 { RunOfTexts(r, j, model, read.0, rest, total, frames[1..], after, rest + later); }
    FrameEmits(j, model, st, pending, count, frames, Texts(text + later), text, total, read, rest, Texts(rest + later));
  }

  // ---------- what no reading accepts ----------

  lemma QuietAfterFinish(j: Json, model: string, st: State, text: Text)
    requires st.terminal.Some?
    ensures var next := Parse(j, model, st, text).0; next.out == st.out && next.terminal.Some?
  {
  }

  lemma PassedText(r: Rules, j: Json, model: string, st: State, text: Text)
    requires Decodes(r, j) && Parse(j, model, st, text).1
    ensures !Refused(r, Trim(text))
  {
    if Refused(r, Trim(text)) { RefusedIsBad(r, j, model, st, text); }
  }

  // A text that no reading accepts is refused when it is read line by line.
  lemma {:induction false} TextsHopeless(r: Rules, j: Json, model: string, st: State, s: Text)
    requires Decodes(r, j) && st.terminal.Some? && !Acceptable(r, s)
    ensures Finished(model, ParseLines(j, model, st, Texts(s))) == st.out + [Failed]
    decreases |s|
  {
    if NEWLINE in s {
      AfterLineIs(s);
      var line, more := Lines(s)[0], AfterLine(s);
      var read := LineRead(j, model, st, line);
      LineThenTexts(j, model, st, line, Texts(more));
      if !Blank(line) { QuietAfterFinish(j, model, st, line); }
      if read.1 {
        if !Blank(line) { PassedText(r, j, model, st, line); }
        TextsHopeless(r, j, model, read.0, more);
      }
    } else {
      LastPending(j, model, st, s);
      RefusedIsBad(r, j, model, st, s);
    }
  }

  lemma {:induction false} LinesHopeless(r: Rules, j: Json, model: string, st: State, text: Text, later: Text)
    requires Decodes(r, j) && st.terminal.Some? && !Acceptable(r, text + later)
    ensures var read := ParseLines(j, model, st, Whole(text));
            && read.0.out == st.out && read.0.terminal.Some? && (read.1 ==> !Acceptable(r, Rest(text) + later))
    decreases |text|
  {
    if NEWLINE in text {
      AfterLineIs(text);
      var line, more := Lines(text)[0], AfterLine(text);
      CutLines(text, line, more);
      FirstOfMore(text, later);
      var read := LineRead(j, model, st, line);
      FirstLineParsed(j, model, st, line, Whole(more));
      if !Blank(line) { QuietAfterFinish(j, model, st, line); }
      if read.1 {
        if !Blank(line) { PassedText(r, j, model, st, line); }
        LinesHopeless(r, j, model, read.0, more, later);
      }
    } else {
      NoNewline(text);
    }
  }

  // One frame leads nowhere either.
  lemma FrameHopeless(r: Rules, j: Json, model: string, st: State, text: Text, later: Text, read: (State, bool), rest: Text)
    requires Decodes(r, j) && st.terminal.Some? && !Acceptable(r, text + later) && |text| <= MAX_TEXT
    requires read == if j.valid(Trim(text)) then Parse(j, model, st, text) else ParseLines(j, model, st, Whole(text))
    requires rest == if j.valid(Trim(text)) then [] else Rest(text)
    ensures read.0.out == st.out && read.0.terminal.Some? && (read.1 ==> !Acceptable(r, rest + later))
  {
    if j.valid(Trim(text)) {
      QuietAfterFinish(j, model, st, text);
      if read.1 {
        PassedText(r, j, model, st, text);
        WholeHopeless(r, text, later);
      }
    } else {
      LinesHopeless(r, j, model, st, text, later);
    }
  }

  lemma FrameRun(j: Json, model: string, st: State, pending: Text, count: nat, frames: seq<Text>, text: Text, total: nat,
                 read: (State, bool), rest: Text)
    requires frames != [] && text == pending + frames[0] && total == count + |frames[0]| <= MAX_BODY && |text| <= MAX_TEXT
    requires read == if j.valid(Trim(text)) then Parse(j, model, st, text) else ParseLines(j, model, st, Whole(text))
    requires rest == if j.valid(Trim(text)) then [] else Rest(text)
    ensures Run(j, model, st, pending, count, Events(frames))
         == if read.1 then Run(j, model, read.0, rest, total, Events(frames[1..])) else read.0.out + [Failed]
  {
    var events := Events(frames);
    assert events[0] == Frame(true, frames[0]) && events[1..] == Events(frames[1..]);
    RunStep(j, model, st, pending, count, events, total);
  }

  // And however it is cut.
  lemma {:induction false} RunHopeless(r: Rules, j: Json, model: string, st: State, pending: Text, count: nat, frames: seq<Text>)
    requires Decodes(r, j) && st.terminal.Some? && NEWLINE !in pending
    requires !Acceptable(r, pending + Flat(frames)) && Fits(r.valid, pending, count, frames)
    ensures Run(j, model, st, pending, count, Events(frames)) == st.out + [Failed]
    decreases |frames|
  {
    if frames == [] {
      assert pending + [] == pending;
      RefusedIsBad(r, j, model, st, pending);
    } else {
      var text, later, total := pending + frames[0], Flat(frames[1..]), count + |frames[0]|;
      Assoc(pending, frames[0], later);
      var whole := j.valid(Trim(text));
      var read := if whole then Parse(j, model, st, text) else ParseLines(j, model, st, Whole(text));
      var rest := if whole then [] else Rest(text);
      FitsLater(r.valid, pending, count, frames, text, total, rest);
      FrameHopeless(r, j, model, st, text, later, read, rest);
      FrameRun(j, model, st, pending, count, frames, text, total, read, rest);
      if read.1 { RunHopeless(r, j, model, read.0, rest, total, frames[1..]); }
    }
  }

  lemma WholeHopeless(r: Rules, text: Text, later: Text)
    requires !Acceptable(r, text + later) && r.valid(Trim(text)) && !Refused(r, Trim(text)) && |text| <= MAX_TEXT
    ensures !Acceptable(r, [] + later)
  {
    FrontOfAll(text, later);
    assert [] + later == later;
    if text != [] {
      assert Bite(r, text + later, |text|);
    } else {
      assert text + later == later;
    }
  }

  /** However an unambiguous payload is cut into frames that trip no size check, the stream
      emits exactly what reading the whole payload at once would. */
  lemma CutsDoNotMatter(r: Rules, j: Json, model: string, frames: seq<Text>)
    requires Facts(r) && Decodes(r, j) && Unambiguous(r, Flat(frames), Fresh) && Fits(r.valid, [], 0, frames)
    ensures Stream.Stream(j, model, Events(frames)) == Batch(j, model, Flat(frames))
  {
    assert [] + Flat(frames) == Flat(frames);
    RunOfTexts(r, j, model, START, [], 0, frames, Fresh, Flat(frames));
    ParsesTexts(j, model, START, Lines(Flat(frames)));
  }

  // ---------- dependence: the texts that cuts are read as ----------

  // What the parser sees of a text: no white space around it, and not too long.
  ghost predicate Proper(texts: seq<Text>) {
    forall t | t in texts :: t != [] && Trim(t) == t && |t| <= MAX_TEXT
  }

  /** These frames cut s, and are read as these texts. */
  ghost predicate CutAs(r: Rules, s: Text, count: nat, frames: seq<Text>, texts: seq<Text>) {
    Flat(frames) == s && Proper(texts) && ReadAs(r, count, frames, texts)
  }

  ghost predicate AllPass(r: Rules, texts: seq<Text>) { forall t | t in texts :: !Refused(r, t) }

  ghost predicate SomeRefused(r: Rules, texts: seq<Text>) { exists t :: t in texts && Refused(r, t) }

  lemma TextsProper(s: Text)
    requires Modest(s)
    ensures Proper(Texts(s))
  {
    forall t | t in Texts(s) ensures t != [] && Trim(t) == t && |t| <= MAX_TEXT {
      TextsAreLines(Lines(s), t);
      var line :| line in Lines(s) && t == Trim(line);
      TrimTwice(line);
      TrimShorter(line);
    }
  }

  lemma ProperFront(text: Text, more: seq<Text>)
    requires !Blank(text) && |text| <= MAX_TEXT && Proper(more)
    ensures Proper([Trim(text)] + more)
  {
    TrimTwice(text);
    TrimShorter(text);
  }

  lemma LineCutAs(r: Rules, line: Text, rest: Text, count: nat, total: nat, frames: seq<Text>, more: seq<Text>)
    requires Facts(r) && NEWLINE !in line && |line| < MAX_TEXT && total == count + |line| + 1 <= MAX_BODY
    requires CutAs(r, rest, total, frames, more)
    ensures CutAs(r, line + [NEWLINE] + rest, count, [line + [NEWLINE]] + frames, TextOf(line) + more)
  {
    LineReadAs(r, line, count, total, frames, more);
    FlatHead(line + [NEWLINE], frames);
    if Blank(line) {
      assert [] + more == more;
    } else {
      ProperFront(line, more);
    }
  }

  lemma WholeCutAs(r: Rules, text: Text, rest: Text, count: nat, total: nat, frames: seq<Text>, more: seq<Text>)
    requires Facts(r) && r.valid(Trim(text)) && |text| <= MAX_TEXT && total == count + |text| <= MAX_BODY
    requires CutAs(r, rest, total, frames, more)
    ensures CutAs(r, text + rest, count, [text] + frames, [Trim(text)] + more)
  {
    WholeReadAs(r, text, count, total, frames, more);
    FlatHead(text, frames);
    ProperFront(text, more);
  }

  lemma ByLineCutAs(r: Rules, s: Text, count: nat)
    requires Facts(r) && Modest(s) && count + |s| <= MAX_BODY
    ensures CutAs(r, s, count, ByLine(s), Texts(s))
  {
    ByLineIsCut(s);
    TextsProper(s);
    ByLineReadAs(r, s, count);
  }

  lemma PassInFront(r: Rules, t: Text, texts: seq<Text>)
    ensures AllPass(r, [t] + texts) <==> !Refused(r, t) && AllPass(r, texts)
    ensures SomeRefused(r, texts) ==> SomeRefused(r, [t] + texts)
    ensures Refused(r, t) ==> SomeRefused(r, [t] + texts)
  {
    var all := [t] + texts;
    assert all[0] == t;
    forall u | u in texts ensures u in all {
    }
    if SomeRefused(r, texts) {
      var u :| u in texts && Refused(r, u);
      assert u in all;
    }
  }

  // The rest behind a front: shorter, modest and within the same bound.
  lemma FrontOff(s: Text, n: nat, count: nat) returns (front: Text, rest: Text, total: nat)
    requires 0 < n <= |s| && Modest(s) && count + |s| <= MAX_BODY
    ensures front == s[..n] && rest == s[n..] && s == front + rest && |rest| < |s| && Modest(rest)
    ensures total == count + |front| && total + |rest| == count + |s|
  {
    front, rest := s[..n], s[n..];
    total := count + |front|;
    ModestLater(s, n);
  }

  lemma LineOff(s: Text, count: nat) returns (line: Text, rest: Text, total: nat)
    requires NEWLINE in s && Modest(s) && count + |s| <= MAX_BODY
    ensures line == Lines(s)[0] && rest == AfterLine(s) && s == line + [NEWLINE] + rest && NEWLINE !in line
    ensures |rest| < |s| && Modest(rest) && |line| < MAX_TEXT && total == count + |line| + 1 && total + |rest| == count + |s|
  {
    AfterLineIs(s);
    ModestAfter(s);
    line, rest := Lines(s)[0], AfterLine(s);
    total := count + |line| + 1;
  }

  // A reading that meets no refused text, as a cut.
  lemma {:induction false} AcceptableCut(r: Rules, s: Text, count: nat) returns (frames: seq<Text>, texts: seq<Text>)
    requires Facts(r) && Acceptable(r, s) && Modest(s) && count + |s| <= MAX_BODY
    ensures CutAs(r, s, count, frames, texts) && AllPass(r, texts)
    decreases |s|
  {
    if Blank(s) {
      ByLineCutAs(r, s, count);
      frames, texts := ByLine(s), Texts(s);
      BlankHasNoTexts(s);
    } else if NEWLINE !in s && !Refused(r, Trim(s)) {
      ByLineCutAs(r, s, count);
      frames, texts := ByLine(s), Texts(s);
      OneText(s);
    } else if n: nat :| Bite(r, s, n) && !Refused(r, Trim(s[..n])) && Acceptable(r, s[n..]) {
      var front, rest, total := FrontOff(s, n, count);
      frames, texts := AcceptableCut(r, rest, total);
      WholeCutAs(r, front, rest, count, total, frames, texts);
      PassInFront(r, Trim(front), texts);
      frames, texts := [front] + frames, [Trim(front)] + texts;
    } else {
      var line, rest, total := LineOff(s, count);
      frames, texts := AcceptableCut(r, rest, total);
      LineCutAs(r, line, rest, count, total, frames, texts);
      PassInFront(r, Trim(line), texts);
      frames, texts := [line + [NEWLINE]] + frames, TextOf(line) + texts;
    }
  }

  lemma BlankHasNoTexts(s: Text)
    requires Blank(s)
    ensures Texts(s) == []
  {
    assert s + [] == s;
    BlankInFront(s, []);
    var none: Text := [];
    NoNewline(none);
    TextsHead(none, []);
    assert [none] + [] == [none];
  }

  lemma OneText(s: Text)
    requires NEWLINE !in s && !Blank(s)
    ensures Texts(s) == [Trim(s)]
  {
    NoNewline(s);
    TextsHead(s, []);
    assert [s] + [] == [s];
  }

  // The first text of a valid front, and the first text of the whole.
  lemma TwoFirstTexts(r: Rules, front: Text, rest: Text)
    requires Facts(r) && r.valid(Trim(front))
    ensures !Blank(front) && Texts(front + rest) != [] && Texts(front + rest)[0] != []
    ensures var a, b := Trim(front), Texts(front + rest)[0];
            && (a <= b || b <= a) && a[0] == b[0] != DATA[0] && Trim(a) == a && Trim(b) == b && b != DONE
  {
    var s, a := front + rest, Trim(front);
    FirstOfTrim(front);
    FirstOfAppend(front, rest);
    TextsFirst(s);
    var b := Texts(s)[0];
    var line :| line in Lines(s) && b == Trim(line);
    TrimTwice(line);
    TrimTwice(front);
    TrimLeftAppend(front, rest);
    FirstOfTrimLeft(front);
    PrefixesOfOne(a, b, TrimLeft(s));
  }

  // Where a valid front disagrees with the whole, one of the two texts is refused and the
  // other is a chunk.
  lemma OneRefused(r: Rules, front: Text, rest: Text)
    requires Facts(r) && r.valid(Trim(front)) && !Agrees(r, Trim(front), front + rest)
    ensures !Blank(front) && Texts(front + rest) != []
    ensures var a, b := Trim(front), Texts(front + rest)[0];
            a != b && if Refused(r, a) then TakenText(r, b) else TakenText(r, a) && Refused(r, b)
  {
    TwoFirstTexts(r, front, rest);
    var a, b := Trim(front), Texts(front + rest)[0];
    if !Refused(r, a) && !Refused(r, b) {
      assert r.takes(a) && r.takes(b);
      FirstOfTrim(a);
      FirstOfTrim(b);
    }
  }

  // A text that is a chunk as it stands.
  predicate TakenText(r: Rules, t: Text) {
    TrimPrefix(t, DATA) != DONE && r.takes(TrimPrefix(t, DATA))
  }

  // The two cuts at a front that disagrees: take it whole, or read on line by line.
  lemma DisagreeingCuts(r: Rules, front: Text, rest: Text, count: nat, total: nat)
    requires Facts(r) && r.valid(Trim(front)) && |front| <= MAX_TEXT && Modest(front + rest) && Modest(rest)
    requires count + |front + rest| <= MAX_BODY && total == count + |front|
    ensures CutAs(r, front + rest, count, [front] + ByLine(rest), [Trim(front)] + Texts(rest))
    ensures CutAs(r, front + rest, count, ByLine(front + rest), Texts(front + rest))
  {
    ByLineCutAs(r, rest, total);
    WholeCutAs(r, front, rest, count, total, ByLine(rest), Texts(rest));
    ByLineCutAs(r, front + rest, count);
  }

  // These frames cut s, and are read as texts of which one is refused.
  ghost predicate RefusedAs(r: Rules, s: Text, count: nat, frames: seq<Text>, texts: seq<Text>) {
    CutAs(r, s, count, frames, texts) && SomeRefused(r, texts)
  }

  lemma RefusedBehindFront(r: Rules, front: Text, rest: Text, count: nat, total: nat, frames: seq<Text>, texts: seq<Text>)
    requires Facts(r) && r.valid(Trim(front)) && |front| <= MAX_TEXT && total == count + |front| <= MAX_BODY
    requires RefusedAs(r, rest, total, frames, texts)
    ensures RefusedAs(r, front + rest, count, [front] + frames, [Trim(front)] + texts)
  {
    WholeCutAs(r, front, rest, count, total, frames, texts);
    PassInFront(r, Trim(front), texts);
  }

  lemma RefusedBehindLine(r: Rules, line: Text, rest: Text, count: nat, total: nat, frames: seq<Text>, texts: seq<Text>)
    requires Facts(r) && NEWLINE !in line && |line| < MAX_TEXT && total == count + |line| + 1 <= MAX_BODY
    requires RefusedAs(r, rest, total, frames, texts)
    ensures RefusedAs(r, line + [NEWLINE] + rest, count, [line + [NEWLINE]] + frames, TextOf(line) + texts)
  {
    LineCutAs(r, line, rest, count, total, frames, texts);
    PassInFront(r, Trim(line), texts);
    if Blank(line) { assert [] + texts == texts; }
  }

  // A reading that meets a refused text, as a cut.
  lemma {:induction false} RefusedCut(r: Rules, s: Text, count: nat) returns (frames: seq<Text>, texts: seq<Text>)
    requires Facts(r) && !Severable(r, s) && Modest(s) && count + |s| <= MAX_BODY
    ensures RefusedAs(r, s, count, frames, texts)
    decreases |s|
  {
    if n: nat :| Bite(r, s, n) && !(Agrees(r, Trim(s[..n]), s) && (Refused(r, Trim(s[..n])) || Severable(r, s[n..]))) {
      var front, rest, total := FrontOff(s, n, count);
      if Agrees(r, Trim(front), s) {
        frames, texts := RefusedCut(r, rest, total);
        RefusedBehindFront(r, front, rest, count, total, frames, texts);
        frames, texts := [front] + frames, [Trim(front)] + texts;
      } else {
        frames, texts := RefusedHere(r, front, rest, count, total);
      }
    } else {
      var line, rest, total := LineOff(s, count);
      frames, texts := RefusedCut(r, rest, total);
      RefusedBehindLine(r, line, rest, count, total, frames, texts);
      frames, texts := [line + [NEWLINE]] + frames, TextOf(line) + texts;
    }
  }

  lemma RefusedHere(r: Rules, front: Text, rest: Text, count: nat, total: nat) returns (frames: seq<Text>, texts: seq<Text>)
    requires Facts(r) && r.valid(Trim(front)) && |front| <= MAX_TEXT && !Agrees(r, Trim(front), front + rest)
    requires Modest(front + rest) && Modest(rest) && count + |front + rest| <= MAX_BODY && total == count + |front|
    ensures RefusedAs(r, front + rest, count, frames, texts)
  {
    OneRefused(r, front, rest);
    DisagreeingCuts(r, front, rest, count, total);
    if Refused(r, Trim(front)) {
      PassInFront(r, Trim(front), Texts(rest));
      frames, texts := [front] + ByLine(rest), [Trim(front)] + Texts(rest);
    } else {
      frames, texts := ByLine(front + rest), Texts(front + rest);
      assert texts[0] in texts;
    }
  }

  /** The texts part: at the first place where they differ, one goes on with a chunk and the
      other with a refused text; or, from a [DONE] on, one meets no refused text and the other
      does. */
  ghost predicate Part(r: Rules, mode: Mode, f: seq<Text>, g: seq<Text>)
    decreases |f|
  {
    if mode.Ended? then AllPass(r, f) && SomeRefused(r, g)
    else
      && f != [] && g != []
      && if f[0] == g[0] then Next(r, mode, f[0]).Some? && Part(r, Next(r, mode, f[0]).value, f[1..], g[1..])
         else TakenText(r, f[0]) && Refused(r, g[0])
  }

  lemma PartInFront(r: Rules, mode: Mode, t: Text, after: Mode, f: seq<Text>, g: seq<Text>)
    requires Next(r, mode, t) == Some(after) && Part(r, after, f, g)
    ensures Part(r, mode, [t] + f, [t] + g)
  {
    assert ([t] + f)[1..] == f && ([t] + g)[1..] == g;
    if mode.Ended? {
      PassInFront(r, t, f);
      PassInFront(r, t, g);
    }
  }

  lemma NextOfValid(r: Rules, mode: Mode, t: Text)
    requires Facts(r) && r.valid(t) && !Refused(r, t) && !mode.Ended?
    ensures Next(r, mode, t) == Some(Begun)
  {
  }

  /** An ambiguous payload is cut in two ways whose texts part. */
  lemma {:induction false} PartingCuts(r: Rules, s: Text, count: nat, mode: Mode)
      returns (f: seq<Text>, ft: seq<Text>, g: seq<Text>, gt: seq<Text>)
    requires Facts(r) && !Unambiguous(r, s, mode) && Modest(s) && count + |s| <= MAX_BODY
    ensures CutAs(r, s, count, f, ft) && CutAs(r, s, count, g, gt) && Part(r, mode, ft, gt)
    decreases |s|
  {
    if mode.Ended? {
      f, ft := AcceptableCut(r, s, count);
      g, gt := RefusedCut(r, s, count);
    } else if n: nat :| Bite(r, s, n) && !(Agrees(r, Trim(s[..n]), s) && (Refused(r, Trim(s[..n])) || Unambiguous(r, s[n..], Begun))) {
      var front, rest, total := FrontOff(s, n, count);
      if Agrees(r, Trim(front), s) {
        f, ft, g, gt := PartingCuts(r, rest, total, Begun);
        f, ft, g, gt := WholeInFront(r, front, rest, count, total, mode, f, ft, g, gt);
      } else {
        f, ft, g, gt := PartingHere(r, front, rest, count, total, mode);
      }
    } else {
      var line, rest, total := LineOff(s, count);
      var after := NextLine(r, mode, line).value;
      f, ft, g, gt := PartingCuts(r, rest, total, after);
      f, ft, g, gt := LineInFront(r, line, rest, count, total, mode, after, f, ft, g, gt);
    }
  }

  lemma PartingHere(r: Rules, front: Text, rest: Text, count: nat, total: nat, mode: Mode)
      returns (f: seq<Text>, ft: seq<Text>, g: seq<Text>, gt: seq<Text>)
    requires Facts(r) && r.valid(Trim(front)) && |front| <= MAX_TEXT && !Agrees(r, Trim(front), front + rest) && !mode.Ended?
    requires Modest(front + rest) && Modest(rest) && count + |front + rest| <= MAX_BODY && total == count + |front|
    ensures CutAs(r, front + rest, count, f, ft) && CutAs(r, front + rest, count, g, gt) && Part(r, mode, ft, gt)
  {
    OneRefused(r, front, rest);
    DisagreeingCuts(r, front, rest, count, total);
    f, ft, g, gt := [front] + ByLine(rest), [Trim(front)] + Texts(rest), ByLine(front + rest), Texts(front + rest);
    if Refused(r, Trim(front)) { f, ft, g, gt := g, gt, f, ft; }
  }

  lemma WholeInFront(r: Rules, front: Text, rest: Text, count: nat, total: nat, mode: Mode,
                     f: seq<Text>, ft: seq<Text>, g: seq<Text>, gt: seq<Text>)
      returns (f': seq<Text>, ft': seq<Text>, g': seq<Text>, gt': seq<Text>)
    requires Facts(r) && r.valid(Trim(front)) && |front| <= MAX_TEXT && !Refused(r, Trim(front)) && !mode.Ended?
    requires total == count + |front| <= MAX_BODY
    requires CutAs(r, rest, total, f, ft) && CutAs(r, rest, total, g, gt) && Part(r, Begun, ft, gt)
    ensures CutAs(r, front + rest, count, f', ft') && CutAs(r, front + rest, count, g', gt') && Part(r, mode, ft', gt')
  {
    WholeCutAs(r, front, rest, count, total, f, ft);
    WholeCutAs(r, front, rest, count, total, g, gt);
    NextOfValid(r, mode, Trim(front));
    PartInFront(r, mode, Trim(front), Begun, ft, gt);
    f', ft', g', gt' := [front] + f, [Trim(front)] + ft, [front] + g, [Trim(front)] + gt;
  }

  lemma LineInFront(r: Rules, line: Text, rest: Text, count: nat, total: nat, mode: Mode, after: Mode,
                    f: seq<Text>, ft: seq<Text>, g: seq<Text>, gt: seq<Text>)
      returns (f': seq<Text>, ft': seq<Text>, g': seq<Text>, gt': seq<Text>)
    requires Facts(r) && NEWLINE !in line && |line| < MAX_TEXT && total == count + |line| + 1 <= MAX_BODY
    requires NextLine(r, mode, line) == Some(after)
    requires CutAs(r, rest, total, f, ft) && CutAs(r, rest, total, g, gt) && Part(r, after, ft, gt)
    ensures var s := line + [NEWLINE] + rest;
            CutAs(r, s, count, f', ft') && CutAs(r, s, count, g', gt') && Part(r, mode, ft', gt')
  {
    LineCutAs(r, line, rest, count, total, f, ft);
    LineCutAs(r, line, rest, count, total, g, gt);
    if Blank(line) {
      assert [] + ft == ft && [] + gt == gt;
    } else {
      PartInFront(r, mode, Trim(line), after, ft, gt);
    }
    f', ft' := [line + [NEWLINE]] + f, TextOf(line) + ft;
    g', gt' := [line + [NEWLINE]] + g, TextOf(line) + gt;
  }

  // ---------- dependence: two decoders that tell parting texts apart ----------

  // Every text that is a chunk has content, or every one carries a finish reason.
  function Every(r: Rules, finish: bool): Json {
    Json(r.valid, (t: Text) => if r.takes(t) then Some(Chunk("chat.completion.chunk", 1, finish, None, "")) else None)
  }

  lemma EveryDecodes(r: Rules, finish: bool)
    ensures Decodes(r, Every(r, finish))
  {
  }

  lemma TakenParsed(r: Rules, model: string, st: State, text: Text, finish: bool)
    requires TakenText(r, text) && Trim(text) == text && |text| <= MAX_TEXT && (!finish ==> st.terminal == None)
    ensures var (next, ok) := Parse(Every(r, finish), model, st, text);
            && ok && (finish ==> next.terminal.Some? && next.out == st.out)
            && (!finish ==> next.terminal == None && next.out == st.out + [Delta(st.index, model, "")])
  {
  }

  lemma HeadParsed(j: Json, model: string, st: State, texts: seq<Text>)
    requires Proper(texts) && texts != []
    ensures var read := Parse(j, model, st, texts[0]);
            ParseLines(j, model, st, texts) == if read.1 then ParseLines(j, model, read.0, texts[1..]) else read
    ensures Proper(texts[1..]) && texts[0] != [] && Trim(texts[0]) == texts[0] && |texts[0]| <= MAX_TEXT
  {
    assert texts[0] in texts;
  }

  // Whether texts that part do so after a [DONE].
  ghost predicate PartAtEnd(r: Rules, mode: Mode, f: seq<Text>, g: seq<Text>)
    requires Part(r, mode, f, g)
    decreases |f|
  {
    mode.Ended? || (f[0] == g[0] && PartAtEnd(r, Next(r, mode, f[0]).value, f[1..], g[1..]))
  }

  lemma {:induction false} OutGrows(j: Json, model: string, st: State, lines: seq<Text>)
    ensures st.out <= ParseLines(j, model, st, lines).0.out
    decreases |lines|
  {
    if lines != [] {
      OutGrows(j, model, if Trim(lines[0]) == [] then st else Parse(j, model, st, Trim(lines[0])).0, lines[1..]);
    }
  }

  // Before any [DONE] the first decoder tells them apart.
  lemma {:induction false} ContentShows(r: Rules, model: string, st: State, mode: Mode, f: seq<Text>, g: seq<Text>)
    requires Part(r, mode, f, g) && !PartAtEnd(r, mode, f, g) && Proper(f) && Proper(g) && st.terminal == None
    ensures var j := Every(r, false);
            Finished(model, ParseLines(j, model, st, f)) != Finished(model, ParseLines(j, model, st, g))
    decreases |f|
  {
    var j := Every(r, false);
    HeadParsed(j, model, st, f);
    HeadParsed(j, model, st, g);
    EveryDecodes(r, false);
    var read := Parse(j, model, st, f[0]);
    if f[0] == g[0] {
      NotYetEnded(r, mode, f, g);
      TakenParsed(r, model, st, f[0], false);
      ContentShows(r, model, read.0, Next(r, mode, f[0]).value, f[1..], g[1..]);
    } else {
      TakenParsed(r, model, st, f[0], false);
      RefusedIsBad(r, j, model, st, g[0]);
      OutGrows(j, model, read.0, f[1..]);
      DeltaOrFailed(st, model, Finished(model, ParseLines(j, model, st, f)));
    }
  }

  lemma DeltaOrFailed(st: State, model: string, items: seq<Item>)
    requires st.out + [Delta(st.index, model, "")] <= items
    ensures items != st.out + [Failed]
  {
    assert items[|st.out|].Delta?;
  }

  lemma NotYetEnded(r: Rules, mode: Mode, f: seq<Text>, g: seq<Text>)
    requires Part(r, mode, f, g) && !PartAtEnd(r, mode, f, g) && f[0] == g[0]
    ensures TakenText(r, f[0])
  {
  }

  // After one the second does.
  lemma {:induction false} FinishShows(r: Rules, model: string, st: State, mode: Mode, f: seq<Text>, g: seq<Text>)
    requires Part(r, mode, f, g) && PartAtEnd(r, mode, f, g) && Proper(f) && Proper(g) && (!mode.Fresh? ==> st.terminal.Some?)
    ensures var j := Every(r, true);
            Finished(model, ParseLines(j, model, st, f)) != Finished(model, ParseLines(j, model, st, g))
    decreases |f|
  {
    var j := Every(r, true);
    if mode.Ended? {
      AllAccepted(r, model, st, f);
      SomeNotAccepted(r, j, model, st, g);
      EndsDiffer(model, ParseLines(j, model, st, f), ParseLines(j, model, st, g));
    } else {
      HeadParsed(j, model, st, f);
      HeadParsed(j, model, st, g);
      var read := Parse(j, model, st, f[0]);
      if TakenText(r, f[0]) { TakenParsed(r, model, st, f[0], true); }
      FinishShows(r, model, read.0, Next(r, mode, f[0]).value, f[1..], g[1..]);
    }
  }

  lemma EndsDiffer(model: string, a: (State, bool), b: (State, bool))
    requires a.1 && a.0.terminal.Some? && !b.1
    ensures Finished(model, a) != Finished(model, b)
  {
    var x, y := Finished(model, a), Finished(model, b);
    assert x[|x| - 1].Final? && y[|y| - 1].Failed?;
  }

  lemma {:induction false} AllAccepted(r: Rules, model: string, st: State, texts: seq<Text>)
    requires st.terminal.Some? && AllPass(r, texts) && Proper(texts)
    ensures var read := ParseLines(Every(r, true), model, st, texts); read.1 && read.0.terminal.Some?
    decreases |texts|
  {
    if texts != [] {
      var j := Every(r, true);
      HeadParsed(j, model, st, texts);
      assert texts[0] in texts;
      if TakenText(r, texts[0]) { TakenParsed(r, model, st, texts[0], true); }
      AllAccepted(r, model, Parse(j, model, st, texts[0]).0, texts[1..]);
    }
  }

  lemma {:induction false} SomeNotAccepted(r: Rules, j: Json, model: string, st: State, texts: seq<Text>)
    requires Decodes(r, j) && SomeRefused(r, texts) && Proper(texts)
    ensures !ParseLines(j, model, st, texts).1
    decreases |texts|
  {
    HeadParsed(j, model, st, texts);
    if Refused(r, texts[0]) {
      RefusedIsBad(r, j, model, st, texts[0]);
    } else {
      var t :| t in texts && Refused(r, t);
      assert t in texts[1..];
      SomeNotAccepted(r, j, model, Parse(j, model, st, texts[0]).0, texts[1..]);
    }
  }

  // ---------- the theorem ----------

  // A cut of the payload that trips no size check.
  ghost predicate Cut(r: Rules, payload: Text, frames: seq<Text>) {
    Flat(frames) == payload && Fits(r.valid, [], 0, frames)
  }

  ghost predicate SameStream(j: Json, model: string, f: seq<Text>, g: seq<Text>) {
    Stream.Stream(j, model, Events(f)) == Stream.Stream(j, model, Events(g))
  }

  lemma SameForBoth(r: Rules, j: Json, model: string, payload: Text, f: seq<Text>, g: seq<Text>)
    requires Facts(r) && Decodes(r, j) && Unambiguous(r, payload, Fresh) && Cut(r, payload, f) && Cut(r, payload, g)
    ensures SameStream(j, model, f, g)
  {
    CutsDoNotMatter(r, j, model, f);
    CutsDoNotMatter(r, j, model, g);
  }

  lemma StreamOfTexts(r: Rules, j: Json, model: string, payload: Text, frames: seq<Text>, texts: seq<Text>)
    requires CutAs(r, payload, 0, frames, texts) && j.valid == r.valid
    ensures Stream.Stream(j, model, Events(frames)) == Finished(model, ParseLines(j, model, START, texts))
    ensures Cut(r, payload, frames)
  {
    assert ReadsLike(j, model, START, 0, frames, texts);
  }

  lemma DifferentStreams(r: Rules, model: string, payload: Text) returns (j: Json, f: seq<Text>, g: seq<Text>)
    requires Facts(r) && !Unambiguous(r, payload, Fresh) && Modest(payload) && |payload| <= MAX_BODY
    ensures Decodes(r, j) && Cut(r, payload, f) && Cut(r, payload, g) && !SameStream(j, model, f, g)
  {
    var ft, gt;
    f, ft, g, gt := PartingCuts(r, payload, 0, Fresh);
    var finish := PartAtEnd(r, Fresh, ft, gt);
    j := Every(r, finish);
    EveryDecodes(r, finish);
    StreamOfTexts(r, j, model, payload, f, ft);
    StreamOfTexts(r, j, model, payload, g, gt);
    if finish { FinishShows(r, model, START, Fresh, ft, gt); } else { ContentShows(r, model, START, Fresh, ft, gt); }
  }

  /** Exactly the unambiguous payloads are read in one way only: whatever their chunks say,
      any two cuts that trip no size check emit the same stream. */
  lemma CutsMatterExactly(r: Rules, model: string, payload: Text)
    requires Facts(r) && |payload| <= MAX_BODY && Modest(payload)
    ensures Unambiguous(r, payload, Fresh) <==>
            forall j: Json, f, g | Decodes(r, j) && Cut(r, payload, f) && Cut(r, payload, g) :: SameStream(j, model, f, g)
  {
    if Unambiguous(r, payload, Fresh) {
      forall j: Json, f, g | Decodes(r, j) && Cut(r, payload, f) && Cut(r, payload, g) ensures SameStream(j, model, f, g) {
        SameForBoth(r, j, model, payload, f, g);
      }
    } else {
      var j, f, g := DifferentStreams(r, model, payload);
    }
  }
}
