/** The texts of a payload: its lines that are not blank, with the white space around them
    taken off.  They are what the reassembler of apps/ai-engine/sagemaker.go parses. */
module StreamTexts {
  import opened Bytes
  import opened Splits
  import opened Stream

  // ---------- the texts of a payload ----------

  predicate Blank(s: Text) { Trim(s) == [] }

  function TextsOf(lines: seq<Text>): seq<Text> {
    if lines == [] then [] else (if Blank(lines[0]) then [] else [Trim(lines[0])]) + TextsOf(lines[1..])
  }

  // The lines that are not blank, trimmed.
  function Texts(s: Text): seq<Text> { TextsOf(Lines(s)) }

  // The texts of one line.
  function TextOf(line: Text): seq<Text> { if Blank(line) then [] else [Trim(line)] }

  // What follows the first line.
  function AfterLine(s: Text): Text
    requires NEWLINE in s
    ensures |AfterLine(s)| < |s|
  {
    FirstPiece(s);
    assert Lines(s)[0] != s;
    s[|Lines(s)[0]| + 1..]
  }

  lemma {:induction false} TextsOfAppend(a: seq<Text>, b: seq<Text>)
    ensures TextsOf(a + b) == TextsOf(a) + TextsOf(b)
    decreases |a|
  {
    if a == [] {
      assert a + b == b;
    } else {
      assert (a + b)[1..] == a[1..] + b;
      TextsOfAppend(a[1..], b);
    }
  }

  lemma {:induction false} TextsAreLines(lines: seq<Text>, t: Text)
    requires t in TextsOf(lines)
    ensures t != [] && exists line :: line in lines && t == Trim(line)
    decreases |lines|
  {
    if Blank(lines[0]) || t != Trim(lines[0]) {
      TextsAreLines(lines[1..], t);
      var line :| line in lines[1..] && t == Trim(line);
      assert line in lines;
    } else {
      assert lines[0] in lines;
    }
  }

  lemma TextsHead(first: Text, more: seq<Text>)
    ensures TextsOf([first] + more) == (if Blank(first) then [] else [Trim(first)]) + TextsOf(more)
  {
    assert ([first] + more)[1..] == more;
  }

  // ---------- concatenations ----------

  lemma InFrontOfLine(a: Text, line: Text, more: Text)
    ensures a + (line + [NEWLINE] + more) == (a + line) + [NEWLINE] + more
  {
  }

  lemma SplitAt(s: Text, n: nat)
    requires n <= |s|
    ensures s[..n] + s[n..] == s
  {
  }

  // ---------- white space at the edges ----------

  lemma SpaceInFront(c: byte, s: Text)
    requires IsSpace(c)
    ensures Texts([c] + s) == Texts(s) && Trim([c] + s) == Trim(s)
  {
  }

  lemma {:induction false} FrontTrimmed(s: Text, more: Text)
    ensures Texts(s + more) == Texts(TrimLeft(s) + more)
    decreases |s|
  {
    if s != [] && IsSpace(s[0]) {
      assert s + more == [s[0]] + (s[1..] + more);
      SpaceInFront(s[0], s[1..] + more);
      FrontTrimmed(s[1..], more);
    }
  }

  lemma BlankIsSpace(s: Text)
    requires Blank(s)
    ensures TrimLeft(s) == [] && TrimRight(s) == []
    decreases |s|
  {
    FirstOfTrimLeft(s);
    AllSpaces(s);
  }

  lemma {:induction false} AllSpaces(s: Text)
    requires TrimLeft(s) == []
    ensures TrimRight(s) == [] && forall i | 0 <= i < |s| :: IsSpace(s[i])
    decreases |s|
  {
    if s != [] {
      AllSpaces(s[1..]);
      assert forall i | 0 < i < |s| :: s[i] == s[1..][i - 1];
      SpacesTrim(s);
    }
  }

  lemma {:induction false} SpacesTrim(s: Text)
    requires forall i | 0 <= i < |s| :: IsSpace(s[i])
    ensures TrimRight(s) == [] && Trim(s) == []
    decreases |s|
  {
    if s != [] {
      SpacesTrim(s[..|s| - 1]);
      SpacesTrimLeft(s);
    }
  }

  lemma {:induction false} SpacesTrimLeft(s: Text)
    requires forall i | 0 <= i < |s| :: IsSpace(s[i])
    ensures TrimLeft(s) == []
    decreases |s|
  {
    if s != [] { SpacesTrimLeft(s[1..]); }
  }

  lemma {:induction false} RightSpaces(y: Text)
    requires TrimRight(y) == []
    ensures forall i | 0 <= i < |y| :: IsSpace(y[i])
    decreases |y|
  {
    if y != [] {
      var front := y[..|y| - 1];
      RightSpaces(front);
      assert forall i | 0 <= i < |front| :: y[i] == front[i];
    }
  }

  lemma BlankInFront(blank: Text, s: Text)
    requires Blank(blank)
    ensures Texts(blank + s) == Texts(s)
  {
    BlankIsSpace(blank);
    FrontTrimmed(blank, s);
    assert [] + s == s;
  }

  lemma {:induction false} TrimRightAppend(t: Text, y: Text)
    ensures TrimRight(t + y) == if TrimRight(y) == [] then TrimRight(t) else t + TrimRight(y)
    decreases |y|
  {
    if y == [] {
      assert t + y == t;
    } else {
      var front := y[..|y| - 1];
      assert (t + y)[..|t + y| - 1] == t + front;
      if IsSpace(y[|y| - 1]) { TrimRightAppend(t, front); }
    }
  }

  lemma {:induction false} TrimLeftAppend(s: Text, t: Text)
    ensures TrimLeft(s + t) == if TrimLeft(s) == [] then TrimLeft(t) else TrimLeft(s) + t
    decreases |s|
  {
    if s == [] {
      assert s + t == t;
    } else if IsSpace(s[0]) {
      assert (s + t)[1..] == s[1..] + t;
      TrimLeftAppend(s[1..], t);
    }
  }

  lemma {:induction false} TrimRightRest(u: Text)
    ensures TrimRight(u[|TrimRight(u)|..]) == [] && TrimLeft(u[|TrimRight(u)|..]) == []
    decreases |u|
  {
    var t := TrimRight(u);
    if u != [] && IsSpace(u[|u| - 1]) {
      var front := u[..|u| - 1];
      TrimRightRest(front);
      var s := front[|t|..];
      assert u[|t|..] == s + [u[|u| - 1]];
      AllSpaces(s);
      SpacesTrim(s + [u[|u| - 1]]);
      SpacesTrimLeft(s + [u[|u| - 1]]);
    }
  }

  lemma SpaceBehind(s: Text, c: byte)
    requires IsSpace(c)
    ensures Trim(s + [c]) == Trim(s)
  {
    TrimLeftAppend(s, [c]);
    TrimRightAppend(TrimLeft(s), [c]);
    assert TrimLeft([c]) == [] by { SpacesTrimLeft([c]); }
    assert TrimRight([c]) == [] by { SpacesTrim([c]); }
  }

  lemma BlankThenTrim(blank: Text, s: Text)
    requires Blank(blank)
    ensures Trim(blank + s) == Trim(s)
  {
    BlankIsSpace(blank);
    TrimLeftAppend(blank, s);
  }

  lemma BlankParts(a: Text, b: Text)
    requires Blank(a + b)
    ensures Blank(a) && Blank(b)
  {
    BlankIsSpace(a + b);
    AllSpaces(a + b);
    assert forall i | 0 <= i < |a| :: a[i] == (a + b)[i];
    assert forall i | 0 <= i < |b| :: b[i] == (a + b)[|a| + i];
    SpacesTrim(a);
    SpacesTrim(b);
  }

  lemma BlankLine(line: Text)
    requires Blank(line)
    ensures Blank(line + [NEWLINE])
  {
    SpaceBehind(line, NEWLINE);
  }

  lemma TrimShorter(s: Text)
    ensures |Trim(s)| <= |s| && (NEWLINE !in s ==> NEWLINE !in Trim(s))
  {
    TrimLeftSuffix(s);
  }

  lemma {:induction false} TrimLeftSuffix(s: Text)
    ensures |TrimLeft(s)| <= |s| && TrimLeft(s) == s[|s| - |TrimLeft(s)|..]
    decreases |s|
  {
    if s != [] && IsSpace(s[0]) { TrimLeftSuffix(s[1..]); }
  }

  lemma {:induction false} LeadSpaces(s: Text)
    ensures forall i | 0 <= i < |s| - |TrimLeft(s)| :: IsSpace(s[i])
    decreases |s|
  {
    if s != [] && IsSpace(s[0]) {
      LeadSpaces(s[1..]);
      forall i | 0 < i < |s| - |TrimLeft(s)| ensures IsSpace(s[i]) {
        assert s[i] == s[1..][i - 1];
      }
    }
  }

  // A text, and the white space before and after it.
  lemma Around(s: Text) returns (lead: Text, t: Text, trail: Text)
    ensures s == lead + t + trail && t == Trim(s) && Blank(lead) && Blank(trail)
    ensures t != [] ==> !IsSpace(t[0])
  {
    TrimLeftSuffix(s);
    var u := TrimLeft(s);
    lead, t := s[..|s| - |u|], TrimRight(u);
    trail := u[|t|..];
    FirstOfTrimLeft(s);
    LeadSpaces(s);
    SpacesTrim(lead);
    TrimRightRest(u);
  }

  lemma LastLine(s: Text) returns (front: Text, last: Text)
    requires NEWLINE in s
    ensures s == front + [NEWLINE] + last
    ensures Blank(s) ==> Blank(last)
  {
    var i :| 0 <= i < |s| && s[i] == NEWLINE;
    front, last := s[..i], s[i + 1..];
    assert s == front + [NEWLINE] + last;
    if Blank(s) { BlankParts(front + [NEWLINE], last); }
  }

  lemma {:induction false} LastOfTrimRight(s: Text)
    requires TrimRight(s) != []
    ensures !IsSpace(TrimRight(s)[|TrimRight(s)| - 1])
    decreases |s|
  {
    if IsSpace(s[|s| - 1]) { LastOfTrimRight(s[..|s| - 1]); }
  }

  /** Trimming takes off the tabs, line breaks, feeds and blanks at both ends, and nothing else. */
  lemma TrimMeans(s: Text) returns (lead: Text, trail: Text)
    ensures s == lead + Trim(s) + trail
    ensures forall c | c in lead || c in trail :: c in {9, 10, 11, 12, 13, 32}
    ensures var t := Trim(s); t != [] ==> t[0] !in {9, 10, 11, 12, 13, 32} && t[|t| - 1] !in {9, 10, 11, 12, 13, 32}
  {
    var t;
    lead, t, trail := Around(s);
    BlankIsSpace(lead);
    BlankIsSpace(trail);
    AllSpaces(lead);
    AllSpaces(trail);
    if t != [] { LastOfTrimRight(TrimLeft(s)); }
  }

  // ---------- taking a line or a text off the front ----------

  lemma {:induction false} FirstPiece(s: Text)
    ensures Lines(s)[0] <= s && NEWLINE !in Lines(s)[0]
    decreases |s|
  {
    if s != [] && s[0] != NEWLINE {
      FirstPiece(s[1..]);
      assert [s[0]] + s[1..] == s;
    }
  }

  // A text that begins with no white space begins with the line it is in.
  lemma HeadLine(v: Text)
    requires v != [] && !IsSpace(v[0])
    ensures var line := Lines(v)[0];
            line <= v && NEWLINE !in line && line != [] && line[0] == v[0] && Trim(line) == TrimRight(line) != []
            && Texts(v) == [Trim(line)] + TextsOf(Lines(v)[1..])
  {
    var lines := Lines(v);
    FirstPiece(v);
    assert lines == [lines[0]] + lines[1..];
    TextsHead(lines[0], lines[1..]);
  }

  // The line that t and y make, when it trims to t.
  lemma NothingBehind(t: Text, y: Text)
    requires t != [] && !IsSpace(t[0]) && TrimRight(t + y) == t
    ensures Blank(y)
  {
    TrimRightAppend(t, y);
    RightSpaces(y);
    SpacesTrim(y);
  }

  // t is the first text of t + z: the rest of its line is blank.
  lemma RestOfLineBlank(t: Text, z: Text)
    requires t != [] && !IsSpace(t[0]) && Texts(t + z) != [] && Texts(t + z)[0] == t
    ensures Texts(t + z) == [t] + Texts(z) && Blank(Lines(z)[0])
  {
    var y, more := Lines(z)[0], Lines(z)[1..];
    HeadLine(t + z);
    SplitPrefix(t, z, NEWLINE) by { assert t <= Lines(t + z)[0]; }
    NothingBehind(t, y);
    assert Lines(z) == [y] + more;
    TextsHead(y, more);
  }

  /** A front whose trimmed text is the first text of the whole takes exactly that text. */
  lemma Consumed(front: Text, rest: Text)
    requires !Blank(front) && Texts(front + rest) != [] && Texts(front + rest)[0] == Trim(front)
    ensures Texts(front + rest) == [Trim(front)] + Texts(rest)
  {
    var u := TrimLeft(front);
    var t := TrimRight(u);
    var s := u[|t|..];
    FirstOfTrimLeft(front);
    FrontTrimmed(front, rest);
    TrimRightRest(u);
    assert u == t + s && u + rest == t + (s + rest);
    RestOfLineBlank(t, s + rest);
    BlankInFront(s, rest);
  }

  lemma AfterLineIs(s: Text)
    requires NEWLINE in s
    ensures s == Lines(s)[0] + [NEWLINE] + AfterLine(s) && NEWLINE !in Lines(s)[0]
    ensures Lines(s) == [Lines(s)[0]] + Lines(AfterLine(s))
    ensures Texts(s) == (if Blank(Lines(s)[0]) then [] else [Trim(Lines(s)[0])]) + Texts(AfterLine(s))
  {
    var line := Lines(s)[0];
    FirstPiece(s);
    if s[|line|] != NEWLINE {
      FirstPieceEnds(s, line);
    }
    CutLines(s, line, AfterLine(s));
    TextsHead(line, Lines(AfterLine(s)));
  }

  lemma FirstPieceEnds(s: Text, line: Text)
    requires NEWLINE in s && line == Lines(s)[0] && line <= s && |line| < |s|
    ensures s[|line|] == NEWLINE
  {
    var i := FirstAt(s, NEWLINE);
    CutLines(s, s[..i], s[i + 1..]);
  }

  lemma AfterLineOf(s: Text, line: Text, more: Text)
    requires s == line + [NEWLINE] + more && NEWLINE !in line
    ensures AfterLine(s) == more
  {
    CutLines(s, line, more);
  }

  lemma AfterLineBeyondBlank(blank: Text, s: Text)
    requires NEWLINE !in blank && NEWLINE in s
    ensures AfterLine(blank + s) == AfterLine(s)
  {
    AfterLineIs(s);
    AfterLineOf(blank + s, blank + Lines(s)[0], AfterLine(s));
  }

  lemma AfterLineInBlank(blank: Text, s: Text)
    requires Blank(blank) && NEWLINE in blank
    ensures Blank(AfterLine(blank)) && AfterLine(blank + s) == AfterLine(blank) + s
  {
    AfterLineIs(blank);
    var line, more := Lines(blank)[0], AfterLine(blank);
    BlankParts(line + [NEWLINE], more);
    AfterLineOf(blank + s, line, more + s);
  }

  lemma TextsFirst(s: Text)
    requires First(s).Some?
    ensures Texts(s) != [] && Texts(s)[0] != [] && Texts(s)[0][0] == First(s).value
    ensures exists line :: line in Lines(s) && Texts(s)[0] == Trim(line)
    ensures Texts(s)[0] <= TrimLeft(s)
  {
    FirstOfTrimLeft(s);
    FrontTrimmed(s, []);
    assert s + [] == s && TrimLeft(s) + [] == TrimLeft(s);
    HeadLine(TrimLeft(s));
    var line := Lines(TrimLeft(s))[0];
    FirstOfTrimLeft(line);
    TextsAreLines(Lines(s), Texts(s)[0]);
  }

  lemma PrefixesOfOne(a: Text, b: Text, s: Text)
    requires a <= s && b <= s
    ensures a <= b || b <= a
  {
  }

  lemma RestIsOneLine(s: Text)
    ensures NEWLINE !in Rest(s)
  {
    JoinSplit(s, NEWLINE);
    assert Rest(s) in Lines(s);
  }

  // ---------- parsing text by text ----------

  // Parsing lines is parsing their texts.
  lemma {:induction false} ParsesTexts(j: Json, model: string, st: State, lines: seq<Text>)
    ensures ParseLines(j, model, st, lines) == ParseLines(j, model, st, TextsOf(lines))
    decreases |lines|
  {
    if lines != [] {
      if Blank(lines[0]) {
        assert TextsOf(lines) == TextsOf(lines[1..]);
        ParsesTexts(j, model, st, lines[1..]);
      } else {
        var t := Trim(lines[0]);
        TrimTwice(lines[0]);
        assert TextsOf(lines)[0] == t && TextsOf(lines)[1..] == TextsOf(lines[1..]);
        ParsesTexts(j, model, Parse(j, model, st, t).0, lines[1..]);
      }
    }
  }

  lemma {:induction false} ParseLinesAppend(j: Json, model: string, st: State, a: seq<Text>, b: seq<Text>)
    ensures ParseLines(j, model, st, a + b)
         == var (next, ok) := ParseLines(j, model, st, a); if ok then ParseLines(j, model, next, b) else (next, false)
    decreases |a|
  {
    if a == [] {
      assert a + b == b;
    } else {
      assert (a + b)[1..] == a[1..] + b;
      var (next, ok) := Parse(j, model, st, Trim(a[0]));
      ParseLinesAppend(j, model, if Trim(a[0]) == [] then st else next, a[1..], b);
    }
  }

  // Parsing a text whole is parsing it as the first of its texts.
  lemma ParsesFirst(j: Json, model: string, st: State, text: Text, more: seq<Text>)
    requires !Blank(text)
    ensures ParseLines(j, model, st, [Trim(text)] + more) ==
            var (next, ok) := Parse(j, model, st, text); if ok then ParseLines(j, model, next, more) else (next, false)
  {
    var all := [Trim(text)] + more;
    TrimTwice(text);
    assert all[1..] == more && all[0] == Trim(text);
  }

  lemma LastPending(j: Json, model: string, st: State, pending: Text)
    requires NEWLINE !in pending
    ensures ParseLines(j, model, st, Texts(pending)) == if Blank(pending) then (st, true) else Parse(j, model, st, pending)
  {
    NoNewline(pending);
    TextsHead(pending, []);
    assert [pending] + [] == [pending];
    if !Blank(pending) {
      ParsesFirst(j, model, st, pending, []);
      assert [Trim(pending)] + [] == [Trim(pending)];
    }
  }

  // The state after some lines, and the texts that are left.
  lemma TextsLater(j: Json, model: string, st: State, text: Text, later: Text)
    ensures Texts(text + later) == TextsOf(Whole(text)) + Texts(Rest(text) + later)
    ensures ParseLines(j, model, st, Texts(text + later)) ==
            var (next, ok) := ParseLines(j, model, st, Whole(text));
            if ok then ParseLines(j, model, next, Texts(Rest(text) + later)) else (next, false)
  {
    SplitContinue(text, later, NEWLINE);
    TextsOfAppend(Whole(text), Lines(Rest(text) + later));
    ParsesTexts(j, model, st, Whole(text));
    ParseLinesAppend(j, model, st, TextsOf(Whole(text)), Texts(Rest(text) + later));
  }

  lemma ParseOneLine(j: Json, model: string, st: State, line: Text)
    ensures ParseLines(j, model, st, [line]) == if Blank(line) then (st, true) else Parse(j, model, st, line)
  {
    assert [line][1..] == [];
    TrimTwice(line);
  }

  // What one line does: nothing if it is blank.
  function LineRead(j: Json, model: string, st: State, line: Text): (State, bool) {
    if Blank(line) then (st, true) else Parse(j, model, st, line)
  }

  lemma LineThenTexts(j: Json, model: string, st: State, line: Text, more: seq<Text>)
    ensures var read := LineRead(j, model, st, line);
            ParseLines(j, model, st, TextOf(line) + more) ==
            if read.1 then ParseLines(j, model, read.0, more) else read
  {
    if Blank(line) {
      assert [] + more == more;
    } else {
      ParsesFirst(j, model, st, line, more);
    }
  }
}
