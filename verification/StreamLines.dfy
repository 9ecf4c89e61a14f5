/** The condition on a payload of the reassembler of apps/ai-engine/sagemaker.go, read off its
    lines: payloads that meet it, and one that does not. */
module StreamLines {
  import opened Bytes
  import opened Splits
  import opened Stream
  import opened StreamTexts
  import opened StreamFrames
  import opened StreamCuts

  // ---------- the condition read off the lines ----------

  ghost predicate LineStart(s: Text, a: nat) { a == 0 || (a <= |s| && s[a - 1] == NEWLINE) }

  // If nothing before a is refused and the text from a to n is valid, it is exactly the next
  // line that is not blank, or both are refused.
  ghost predicate ValueAt(r: Rules, s: Text, a: nat, n: nat)
    requires a < n <= |s|
  {
    AllPass(r, Texts(s[..a])) && r.valid(Trim(s[a..n])) ==> Agrees(r, Trim(s[a..n]), s[a..])
  }

  /** It is so from the start of every line, for texts of at most limit octets with the white
      space around them. */
  ghost predicate LineValues(r: Rules, s: Text, limit: nat) {
    forall a: nat, n: nat | a < n <= |s| && n - a <= limit && LineStart(s, a) :: ValueAt(r, s, a, n)
  }

  lemma TextsApart(front: Text, s: Text)
    ensures Texts(front + [NEWLINE] + s) == Texts(front) + Texts(s)
  {
    SplitAppend(front, s, NEWLINE);
    TextsOfAppend(Lines(front), Lines(s));
  }

  lemma LineValuesLater(r: Rules, front: Text, s: Text, limit: nat)
    requires LineValues(r, front + [NEWLINE] + s, limit) && AllPass(r, Texts(front))
    ensures LineValues(r, s, limit)
  {
    var all, k := front + [NEWLINE] + s, |front| + 1;
    forall a: nat, n: nat | a < n <= |s| && n - a <= limit && LineStart(s, a) ensures ValueAt(r, s, a, n) {
      assert all[k + a..] == s[a..] && all[k + a..k + n] == s[a..n] && all[..k + a] == front + [NEWLINE] + s[..a];
      TextsApart(front, s[..a]);
      assert ValueAt(r, all, k + a, k + n);
    }
  }

  lemma LineValuesLess(r: Rules, s: Text, limit: nat)
    requires LineValues(r, s, limit) && |s| <= limit
    ensures LineValues(r, s, |s|)
  {
  }

  // ---------- it suffices ----------

  // A blank front changes nothing.
  lemma {:induction false} SeverableBehindBlank(r: Rules, blank: Text, s: Text)
    requires Facts(r) && Blank(blank) && Severable(r, s)
    ensures Severable(r, blank + s)
    decreases |blank|
  {
    var all := blank + s;
    forall n | Bite(r, all, n)
      ensures Agrees(r, Trim(all[..n]), all) && (!Refused(r, Trim(all[..n])) ==> Severable(r, all[n..]))
    {
      FrontBehindBlank(r, blank, s, n);
    }
    if NEWLINE in all && Passes(r, Lines(all)[0]) { AfterLineBehindBlank(r, blank, s); }
  }

  // The first n octets of a concatenation.
  lemma CutOf(a: Text, b: Text, n: nat)
    requires n <= |a| + |b|
    ensures n <= |a| ==> (a + b)[..n] + a[n..] == a
    ensures n > |a| ==> (a + b)[..n] == a + b[..n - |a|] && (a + b)[n..] == b[n - |a|..]
  {
  }

  lemma FrontBehindBlank(r: Rules, blank: Text, s: Text, n: nat)
    requires Facts(r) && Blank(blank) && Severable(r, s) && Bite(r, blank + s, n)
    ensures var all := blank + s;
            Agrees(r, Trim(all[..n]), all) && (!Refused(r, Trim(all[..n])) ==> Severable(r, all[n..]))
  {
    CutOf(blank, s, n);
    if n <= |blank| {
      BlankParts((blank + s)[..n], blank[n..]);
    } else {
      var m := n - |blank|;
      BlankThenTrim(blank, s[..m]);
      BlankInFront(blank, s);
      assert Bite(r, s, m);
    }
  }

  lemma {:induction false} AfterLineBehindBlank(r: Rules, blank: Text, s: Text)
    requires Facts(r) && Blank(blank) && Severable(r, s) && NEWLINE in blank + s && Passes(r, Lines(blank + s)[0])
    ensures Severable(r, AfterLine(blank + s))
    decreases |blank|, 0
  {
    if NEWLINE in blank {
      AfterLineInBlank(blank, s);
      SeverableBehindBlank(r, AfterLine(blank), s);
    } else {
      AfterLineBeyondBlank(blank, s);
      SplitPrefix(blank, s, NEWLINE);
      BlankThenTrim(blank, Lines(s)[0]);
    }
  }

  // What is left after the first text of the whole.
  lemma OneTextBefore(front: Text, s: Text, t: Text)
    requires Texts(front + [NEWLINE] + s) == [t] + Texts(s)
    ensures Texts(front) == [t]
  {
    TextsApart(front, s);
    var a, b := Texts(front), Texts(s);
    assert |a| == 1;
    assert a[0] == (a + b)[0];
  }

  /** The condition on lines, with no limit, suffices. */
  lemma LineValuesSuffice(r: Rules, s: Text)
    requires Facts(r) && LineValues(r, s, |s|)
    ensures Severable(r, s)
  {
    SeverableFrom(r, [], s, s);
  }

  // The same behind a blank part of a line.
  lemma {:induction false} SeverableFrom(r: Rules, blank: Text, s: Text, all: Text)
    requires Facts(r) && Blank(blank) && all == blank + s && LineValues(r, all, |all|)
    ensures Severable(r, s)
    decreases |s|, 2
  {
    forall n | Bite(r, s, n)
      ensures Agrees(r, Trim(s[..n]), s) && (!Refused(r, Trim(s[..n])) ==> Severable(r, s[n..]))
    {
      FrontFrom(r, blank, s, all, n);
    }
    if NEWLINE in s && Passes(r, Lines(s)[0]) {
      AfterLineIs(s);
      var line, more := Lines(s)[0], AfterLine(s);
      InFrontOfLine(blank, line, more);
      LineBehindBlank(r, blank, line);
      LineValuesLater(r, blank + line, more, |all|);
      LineValuesLess(r, more, |all|);
      SeverableFrom(r, [], more, more);
    }
  }

  lemma LineBehindBlank(r: Rules, blank: Text, line: Text)
    requires Blank(blank) && NEWLINE !in line && Passes(r, line)
    ensures AllPass(r, Texts(blank + line))
  {
    BlankInFront(blank, line);
    if Blank(line) { BlankHasNoTexts(line); } else { OneText(line); }
  }

  lemma {:induction false} FrontFrom(r: Rules, blank: Text, s: Text, all: Text, n: nat)
    requires Facts(r) && Blank(blank) && all == blank + s && LineValues(r, all, |all|) && Bite(r, s, n)
    ensures Agrees(r, Trim(s[..n]), s) && (!Refused(r, Trim(s[..n])) ==> Severable(r, s[n..]))
    decreases |s|, 1
  {
    var text, rest := s[..n], s[n..];
    SplitAt(s, n);
    FrontIsFirst(r, blank, text, rest, all);
    if !Refused(r, Trim(text)) {
      BlankThenTrim(blank, text);
      Assoc(blank, text, rest);
      AfterFirst(r, blank + text, rest, all);
    }
  }

  lemma FrontIsFirst(r: Rules, blank: Text, text: Text, rest: Text, all: Text)
    requires Blank(blank) && all == blank + (text + rest) && LineValues(r, all, |all|) && text != [] && r.valid(Trim(text))
    ensures Agrees(r, Trim(text), text + rest) && Texts(all) == Texts(text + rest)
  {
    var n := |blank + text|;
    assert all[0..n] == blank + text && all[0..] == all && all[..0] == [];
    BlankHasNoTexts([]);
    assert ValueAt(r, all, 0, n);
    BlankThenTrim(blank, text);
    BlankInFront(blank, text + rest);
  }

  // A whole line before, with one text that passes.
  lemma LineValuesBehind(r: Rules, front: Text, s: Text, all: Text, t: Text)
    requires all == front + [NEWLINE] + s && LineValues(r, all, |all|) && Texts(all) == [t] + Texts(s) && !Refused(r, t)
    ensures LineValues(r, s, |s|)
  {
    OneTextBefore(front, s, t);
    LineValuesLater(r, front, s, |all|);
    LineValuesLess(r, s, |all|);
  }

  lemma Regroup(a: Text, before: Text, last: Text, rest: Text)
    ensures a + (before + [NEWLINE] + last) + rest == (a + before) + [NEWLINE] + (last + rest)
  {
  }

  // What is left after a front that is the first text of the whole.
  lemma {:induction false} AfterFirst(r: Rules, front: Text, rest: Text, all: Text)
    requires Facts(r) && all == front + rest && LineValues(r, all, |all|) && !Blank(front)
    requires Texts(all) != [] && Texts(all)[0] == Trim(front) && !Refused(r, Trim(front))
    ensures Severable(r, rest)
    decreases |rest|, 4
  {
    Consumed(front, rest);
    var lead, t, trail := Around(front);
    if NEWLINE in trail {
      LinesBehind(r, lead, t, trail, rest, all);
    } else {
      RestOfLine(lead, t, trail, rest, all);
      LaterFrom(r, front, rest, all, t);
    }
  }

  lemma {:induction false} LinesBehind(r: Rules, lead: Text, t: Text, trail: Text, rest: Text, all: Text)
    requires Facts(r) && all == lead + t + trail + rest && Blank(trail) && NEWLINE in trail && LineValues(r, all, |all|)
    requires Texts(all) == [t] + Texts(rest) && !Refused(r, t)
    ensures Severable(r, rest)
    decreases |rest|, 3
  {
    var before, last := LastLine(trail);
    Regroup(lead + t, before, last, rest);
    BlankInFront(last, rest);
    LineValuesBehind(r, lead + t + before, last + rest, all, t);
    SeverableFrom(r, last, rest, last + rest);
  }

  lemma RestOfLine(lead: Text, t: Text, trail: Text, rest: Text, all: Text)
    requires all == lead + t + trail + rest && Blank(lead) && Blank(trail) && NEWLINE !in trail
    requires t != [] && !IsSpace(t[0]) && Texts(all) != [] && t == Texts(all)[0]
    ensures Blank(Lines(rest)[0])
  {
    assert all == lead + (t + (trail + rest));
    BlankInFront(lead, t + (trail + rest));
    RestOfLineBlank(t, trail + rest);
    SplitPrefix(trail, rest, NEWLINE);
    BlankParts(trail, Lines(rest)[0]);
  }

  lemma {:induction false} LaterFrom(r: Rules, front: Text, rest: Text, all: Text, t: Text)
    requires Facts(r) && all == front + rest && LineValues(r, all, |all|) && Blank(Lines(rest)[0])
    requires Texts(all) == [t] + Texts(rest) && !Refused(r, t)
    ensures Severable(r, rest)
    decreases |rest|, 3
  {
    if NEWLINE in rest {
      var line, more := BlankLineOff(rest);
      InFrontOfLine(front, line, more);
      LineValuesBehind(r, front + line, more, all, t);
      SeverableFrom(r, [], more, more);
      SeverableBehindBlank(r, line + [NEWLINE], more);
    } else {
      NoNewline(rest);
      assert rest + [] == rest;
      SeverableBehindBlank(r, rest, []);
    }
  }

  lemma BlankLineOff(s: Text) returns (line: Text, more: Text)
    requires NEWLINE in s && Blank(Lines(s)[0])
    ensures s == line + [NEWLINE] + more && Texts(s) == Texts(more) && Blank(line + [NEWLINE]) && |more| < |s|
  {
    AfterLineIs(s);
    line, more := Lines(s)[0], AfterLine(s);
    assert [] + Texts(more) == Texts(more);
    BlankLine(line);
  }

  // ---------- it is needed ----------

  /** And it is needed, for the texts that are short enough to be seen. */
  lemma {:induction false} LineValuesNeeded(r: Rules, s: Text)
    requires Severable(r, s)
    ensures LineValues(r, s, MAX_TEXT)
    decreases |s|
  {
    forall a: nat, n: nat | a < n <= |s| && n - a <= MAX_TEXT && LineStart(s, a) ensures ValueAt(r, s, a, n) {
      if a == 0 {
        assert s[0..n] == s[..n] && s[0..] == s;
        assert r.valid(Trim(s[..n])) ==> Bite(r, s, n);
      } else if r.valid(Trim(s[a..n])) && AllPass(r, Texts(s[..a])) {
        LaterLine(r, s, a, n);
      }
    }
  }

  lemma {:induction false} LaterLine(r: Rules, s: Text, a: nat, n: nat)
    requires Severable(r, s) && 0 < a < n <= |s| && s[a - 1] == NEWLINE && n - a <= MAX_TEXT && r.valid(Trim(s[a..n]))
    requires AllPass(r, Texts(s[..a]))
    ensures Agrees(r, Trim(s[a..n]), s[a..])
    decreases |s|, 0
  {
    var k := AfterLineStarts(s, a, n);
    var line, more := Lines(s)[0], AfterLine(s);
    FirstPasses(r, line, s[..a], more[..a - k]);
    LineValuesNeeded(r, more);
    assert ValueAt(r, more, a - k, n - k);
  }

  lemma FirstPasses(r: Rules, line: Text, s: Text, more: Text)
    requires NEWLINE !in line && s == line + [NEWLINE] + more && AllPass(r, Texts(s))
    ensures Passes(r, line) && AllPass(r, Texts(more))
  {
    TextsApart(line, more);
    if !Blank(line) {
      OneText(line);
      assert Trim(line) in Texts(line);
    }
  }

  lemma AfterLineStarts(s: Text, a: nat, n: nat) returns (k: nat)
    requires 0 < a < n <= |s| && s[a - 1] == NEWLINE
    ensures 0 < k <= a && NEWLINE in s && LineStart(AfterLine(s), a - k) && n - k <= |AfterLine(s)|
    ensures s[..a] == Lines(s)[0] + [NEWLINE] + AfterLine(s)[..a - k] && NEWLINE !in Lines(s)[0]
    ensures s[a..] == AfterLine(s)[a - k..] && s[a..n] == AfterLine(s)[a - k..n - k]
  {
    AfterLineIs(s);
    var line, more := Lines(s)[0], AfterLine(s);
    k := |line| + 1;
    forall i | 0 <= i < k - 1 ensures s[i] != NEWLINE {
      assert s[i] == line[i];
    }
    Tails(s, line + [NEWLINE], more, a, n);
    if a > k { assert s[a - 1] == more[a - 1 - k]; }
  }

  lemma Tails(s: Text, front: Text, more: Text, a: nat, n: nat)
    requires s == front + more && |front| <= a <= n <= |s|
    ensures s[a..] == more[a - |front|..] && s[a..n] == more[a - |front|..n - |front|]
  {
  }

  // ---------- payloads that meet it ----------

  // The rules that a decoder itself sets.
  function RulesOf(j: Json): Rules {
    Rules(j.valid, (t: Text) => Taken(j, t))
  }

  // A blank line, a line that starts with the letter d, as a data line does, or a bare object.
  ghost predicate Readable(valid: Text -> bool, line: Text) {
    var t := Trim(line);
    t == [] || t[0] == DATA[0] || (t[0] == BRACE && valid(t))
  }

  lemma LinesFrom(s: Text, a: nat)
    requires a <= |s| && LineStart(s, a)
    ensures forall line | line in Lines(s[a..]) :: line in Lines(s)
  {
    if a == 0 {
      assert s[0..] == s;
    } else {
      var front, tail := s[..a - 1], s[a..];
      assert s == front + [NEWLINE] + tail;
      SplitAppend(front, tail, NEWLINE);
    }
  }

  lemma ReadableFront(r: Rules, text: Text, rest: Text)
    requires Facts(r) && r.valid(Trim(text))
    requires forall line | line in Lines(text + rest) :: Readable(r.valid, line)
    ensures Agrees(r, Trim(text), text + rest)
  {
    var s := text + rest;
    TwoFirstTexts(r, text, rest);
    TextsAreLines(Lines(s), Texts(s)[0]);
    var line :| line in Lines(s) && Texts(s)[0] == Trim(line);
    assert Readable(r.valid, line);
  }

  lemma ReadableLines(r: Rules, s: Text)
    requires Facts(r) && forall line | line in Lines(s) :: Readable(r.valid, line)
    ensures LineValues(r, s, |s|)
  {
    forall a: nat, n: nat | a < n <= |s| && n - a <= |s| && LineStart(s, a) ensures ValueAt(r, s, a, n) {
      LinesFrom(s, a);
      assert s[a..] == s[a..n] + s[n..];
      if r.valid(Trim(s[a..n])) { ReadableFront(r, s[a..n], s[n..]); }
    }
  }

  /** However a payload of data lines and bare objects on lines of their own is cut into
      frames that trip no size check, the stream emits exactly what reading the whole payload
      at once would. */
  lemma FragmentationIndependent(j: Json, model: string, frames: seq<Text>)
    requires Facts(RulesOf(j)) && Fits(j.valid, [], 0, frames)
    requires forall line | line in Lines(Flat(frames)) :: Readable(j.valid, line)
    ensures Stream.Stream(j, model, Events(frames)) == Batch(j, model, Flat(frames))
  {
    var r := RulesOf(j);
    ReadableLines(r, Flat(frames));
    LineValuesSuffice(r, Flat(frames));
    SeverableSuffices(r, Flat(frames), Fresh);
    CutsDoNotMatter(r, j, model, frames);
  }

  // ---------- a payload that does not ----------

  // The octets of a string of ASCII characters.
  function Octets(s: string): Text {
    seq(|s|, (i: nat) requires i < |s| => s[i] as int % 256)
  }

  const STOP_HEAD := "{\"object\":\"chat."
  const STOP_OBJECT := "completion.chunk\","
  const STOP_CHOICE := "\"choices\":[{\"delta\":{},"
  const STOP_REASON := "\"finish_reason\":\"stop\"}]}"

  // A chunk object that carries a finish reason.
  const STOP := Octets(STOP_HEAD + STOP_OBJECT + STOP_CHOICE + STOP_REASON)

  const STOPPED := Chunk("chat.completion.chunk", 1, true, None, "")

  // Reads this one object.
  const STOPPING := Json((t: Text) => t == STOP,
                         (t: Text) => if t == STOP then Some(STOPPED) else None)

  /** Two bare chunk objects without a newline between them are accepted in two frames and
      refused in one. */
  lemma BareJsonDependsOnCuts(model: string)
    ensures Facts(RulesOf(STOPPING)) && !Unambiguous(RulesOf(STOPPING), STOP + STOP, Fresh)
    ensures Cut(RulesOf(STOPPING), STOP + STOP, [STOP, STOP]) && Cut(RulesOf(STOPPING), STOP + STOP, [STOP + STOP])
    ensures Stream.Stream(STOPPING, model, Events([STOP, STOP])) == [Final(1, model, "", NO_USAGE)]
    ensures Stream.Stream(STOPPING, model, Events([STOP + STOP])) == [Failed]
  {
    StopRules();
    StopCuts();
    CutInTwo(model);
    InOneFrame(model);
    if Unambiguous(RulesOf(STOPPING), STOP + STOP, Fresh) {
      SameForBoth(RulesOf(STOPPING), STOPPING, model, STOP + STOP, [STOP + STOP], [STOP, STOP]);
    }
  }

  lemma StopRules()
    ensures Facts(RulesOf(STOPPING))
  {
    StopText();
    assert First(STOP) == Some(BRACE);
  }

  // A text with no white space at its ends.
  lemma NothingToTrim(s: Text)
    requires s != [] && !IsSpace(s[0]) && !IsSpace(s[|s| - 1])
    ensures Trim(s) == s
  {
  }

  lemma StopText()
    ensures 0 < |STOP| < 200 && STOP[0] == BRACE && NEWLINE !in STOP && NEWLINE !in STOP + STOP
    ensures Trim(STOP) == STOP && Trim(STOP + STOP) == STOP + STOP
  {
    StopOctets(STOP_HEAD + STOP_OBJECT + STOP_CHOICE + STOP_REASON);
    NothingToTrim(STOP);
    NothingToTrim(STOP + STOP);
  }

  lemma StopOctets(all: string)
    requires all == STOP_HEAD + STOP_OBJECT + STOP_CHOICE + STOP_REASON
    ensures 0 < |STOP| < 200 && STOP[0] == BRACE && STOP[|STOP| - 1] == BRACE + 2 && NEWLINE !in STOP
  {
    StopCharacters();
    assert STOP[0] == all[0] as int % 256 && STOP[|STOP| - 1] == all[|all| - 1] as int % 256;
    forall i | 0 <= i < |STOP| ensures STOP[i] != NEWLINE {
      assert STOP[i] == all[i] as int % 256;
    }
  }

  ghost predicate Printable(s: string) { forall i | 0 <= i < |s| :: ' ' <= s[i] <= '~' }

  lemma PrintableAppend(a: string, b: string)
    requires Printable(a) && Printable(b)
    ensures Printable(a + b)
  {
  }

  lemma StopCharacters()
    ensures var all := STOP_HEAD + STOP_OBJECT + STOP_CHOICE + STOP_REASON;
            0 < |all| < 200 && all[0] == '{' && all[|all| - 1] == '}' && Printable(all)
  {
    PrintableAppend(STOP_HEAD, STOP_OBJECT);
    PrintableAppend(STOP_HEAD + STOP_OBJECT, STOP_CHOICE);
    PrintableAppend(STOP_HEAD + STOP_OBJECT + STOP_CHOICE, STOP_REASON);
  }

  lemma StopCuts()
    ensures Cut(RulesOf(STOPPING), STOP + STOP, [STOP, STOP]) && Cut(RulesOf(STOPPING), STOP + STOP, [STOP + STOP])
  {
    StopText();
    FlatHead(STOP, [STOP]);
    FlatHead(STOP, []);
    FlatHead(STOP + STOP, []);
    assert [STOP] + [STOP] == [STOP, STOP] && [STOP] + [] == [STOP] && [STOP + STOP] + [] == [STOP + STOP];
    assert STOP + [] == STOP && STOP + STOP + [] == STOP + STOP;
    WholeFits(STOPPING.valid, STOP, |STOP|, 2 * |STOP|, []);
    WholeFits(STOPPING.valid, STOP, 0, |STOP|, [STOP]);
    assert [STOP + STOP][1..] == [] && [] + (STOP + STOP) == STOP + STOP;
  }

  lemma StopParsed(model: string, st: State)
    ensures Parse(STOPPING, model, st, STOP) == (st.(index := st.index + 1, terminal := Some((st.index, STOPPED))), true)
  {
    StopText();
    assert KindOf(STOPPING, STOP) == Finish(STOPPED);
  }

  // One frame that is parsed at once, and no more.
  lemma LastFrame(j: Json, model: string, st: State, text: Text, count: nat, next: State)
    requires j.valid(Trim(text)) && |text| < 200 && count <= 200 && Parse(j, model, st, text) == (next, true)
    ensures Run(j, model, st, [], count, Events([text])) == Finished(model, (next, true))
  {
    assert [text] + [] == [text];
    WholeFrame(j, model, st, text, (next, true), count, count + |text|, []);
  }

  lemma TwoFrames(j: Json, model: string, st: State, text: Text, between: State, last: State)
    requires j.valid(Trim(text)) && |text| < 200
    requires Parse(j, model, st, text) == (between, true) && Parse(j, model, between, text) == (last, true)
    ensures Run(j, model, st, [], 0, Events([text, text])) == Finished(model, (last, true))
  {
    assert [text] + [text] == [text, text];
    WholeFrame(j, model, st, text, (between, true), 0, |text|, [text]);
    LastFrame(j, model, between, text, |text|, last);
  }

  lemma CutInTwo(model: string)
    ensures Stream.Stream(STOPPING, model, Events([STOP, STOP])) == [Final(1, model, "", NO_USAGE)]
  {
    StopText();
    var between, last := State(Some((0, STOPPED)), 1, NO_USAGE, []), State(Some((1, STOPPED)), 2, NO_USAGE, []);
    StopParsed(model, START);
    StopParsed(model, between);
    TwoFrames(STOPPING, model, START, STOP, between, last);
  }

  lemma InOneFrame(model: string)
    ensures Stream.Stream(STOPPING, model, Events([STOP + STOP])) == [Failed]
  {
    StopText();
    StopRules();
    var line := STOP + STOP;
    LastLineRuns(RulesOf(STOPPING), STOPPING, model, START, line, 0);
    LastPending(STOPPING, model, START, line);
  }
}
