/** What the reassembler of apps/ai-engine/sagemaker.go makes of a payload that it reads at once,
    in terms of the fields of the decoded chunks. */
module StreamBatch {
  import opened Bytes
  import opened Stream
  import opened StreamTexts

  // ---------- what a text is ----------

  // Without the six octets "data: ".
  function Body(t: Text): Text {
    if [100, 97, 116, 97, 58, 32] <= t then t[6..] else t
  }

  // The six octets "[DONE]".
  predicate IsDone(t: Text) {
    Body(t) == [91, 68, 79, 78, 69, 93]
  }

  // A chunk of the right type and length, with one choice, or with none and its usage.
  predicate IsChunk(j: Json, t: Text) {
    !IsDone(t) && |Body(t)| <= 65536 &&
    match j.decode(Body(t))
    case None => false
    case Some(c) => c.objectType == "chat.completion.chunk" && (c.choices == 1 || (c.choices == 0 && c.usage.Some?))
  }

  function ChunkOf(j: Json, t: Text): Chunk
    requires IsChunk(j, t)
  {
    j.decode(Body(t)).value
  }

  predicate Finishes(j: Json, t: Text) {
    IsChunk(j, t) && ChunkOf(j, t).choices == 1 && ChunkOf(j, t).finish
  }

  predicate HasContent(j: Json, t: Text) {
    IsChunk(j, t) && ChunkOf(j, t).choices == 1 && !ChunkOf(j, t).finish
  }

  // ---------- what has been read of some texts ----------

  // Chunks are numbered; [DONE] is not.
  function Count(texts: seq<Text>): nat {
    if texts == [] then 0 else Count(texts[..|texts| - 1]) + if IsDone(texts[|texts| - 1]) then 0 else 1
  }

  // The last finish reason and its number.
  function LastFinish(j: Json, texts: seq<Text>): Option<(nat, Chunk)> {
    if texts == [] then None else
    var front, t := texts[..|texts| - 1], texts[|texts| - 1];
    if Finishes(j, t) then Some((Count(front), ChunkOf(j, t))) else LastFinish(j, front)
  }

  // The last usage that any chunk carries, one without choices too.
  function LastUsage(j: Json, texts: seq<Text>): Usage {
    if texts == [] then Usage(0, 0) else
    var front, t := texts[..|texts| - 1], texts[|texts| - 1];
    if IsChunk(j, t) && ChunkOf(j, t).usage.Some? then ChunkOf(j, t).usage.value else LastUsage(j, front)
  }

  // One item for each chunk with content.
  function Deltas(j: Json, model: string, texts: seq<Text>): seq<Item> {
    if texts == [] then [] else
    var front, t := texts[..|texts| - 1], texts[|texts| - 1];
    Deltas(j, model, front) + if HasContent(j, t) then [Delta(Count(front), model, ChunkOf(j, t).content)] else []
  }

  // A chunk; its content comes before any finish reason, and [DONE] after one.
  predicate InTurn(j: Json, texts: seq<Text>, k: nat)
    requires k < |texts|
  {
    var finished := LastFinish(j, texts[..k]).Some?;
    if IsDone(texts[k]) then finished else IsChunk(j, texts[k]) && (HasContent(j, texts[k]) ==> !finished)
  }

  // ---------- the parser does it ----------

  function After(j: Json, model: string, texts: seq<Text>): State {
    State(LastFinish(j, texts), Count(texts), LastUsage(j, texts), Deltas(j, model, texts))
  }

  lemma Read(j: Json, t: Text)
    requires Trim(t) == t
    ensures KindOf(j, t) ==
            if IsDone(t) then Done
            else if !IsChunk(j, t) then Bad
            else if HasContent(j, t) then Content(ChunkOf(j, t))
            else if Finishes(j, t) then Finish(ChunkOf(j, t))
            else UsageOnly(ChunkOf(j, t))
  {
  }

  lemma Longer(j: Json, model: string, texts: seq<Text>, k: nat)
    requires k < |texts|
    ensures var st, t, more := After(j, model, texts[..k]), texts[k], After(j, model, texts[..k + 1]);
            && more.terminal == (if Finishes(j, t) then Some((st.index, ChunkOf(j, t))) else st.terminal)
            && more.index == st.index + (if IsDone(t) then 0 else 1)
            && more.usage == (if IsChunk(j, t) && ChunkOf(j, t).usage.Some? then ChunkOf(j, t).usage.value else st.usage)
            && more.out == st.out + if HasContent(j, t) then [Delta(st.index, model, ChunkOf(j, t).content)] else []
  {
    var more := texts[..k + 1];
    assert more[..k] == texts[..k] && more[k] == texts[k];
  }

  lemma OneMore(j: Json, model: string, texts: seq<Text>, k: nat)
    requires k < |texts| && Trim(texts[k]) == texts[k]
    ensures var read := Parse(j, model, After(j, model, texts[..k]), texts[k]);
            if InTurn(j, texts, k) then read == (After(j, model, texts[..k + 1]), true)
            else !read.1 && read.0.out == Deltas(j, model, texts[..k])
  {
    Read(j, texts[k]);
    Longer(j, model, texts, k);
    assert After(j, model, texts[..k]).out + [] == After(j, model, texts[..k]).out;
  }

  lemma OneText(j: Json, model: string, st: State, t: Text)
    requires t != [] && Trim(t) == t
    ensures ParseLines(j, model, st, [t]) == Parse(j, model, st, t)
  {
    assert [t][1..] == [];
  }

  lemma UpTo(texts: seq<Text>, k: nat)
    requires k < |texts|
    ensures texts[..k] + [texts[k]] == texts[..k + 1]
  {
  }

  lemma {:induction false} AllInTurn(j: Json, model: string, texts: seq<Text>, n: nat)
    requires n <= |texts| && (forall t | t in texts :: t != [] && Trim(t) == t)
    requires forall k: nat | k < n :: InTurn(j, texts, k)
    ensures ParseLines(j, model, START, texts[..n]) == (After(j, model, texts[..n]), true)
    decreases n
  {
    if n > 0 {
      AllInTurn(j, model, texts, n - 1);
      UpTo(texts, n - 1);
      ParseLinesAppend(j, model, START, texts[..n - 1], [texts[n - 1]]);
      OneText(j, model, After(j, model, texts[..n - 1]), texts[n - 1]);
      OneMore(j, model, texts, n - 1);
    }
  }

  lemma FirstOutOfTurn(j: Json, model: string, texts: seq<Text>, k: nat)
    requires k < |texts| && (forall t | t in texts :: t != [] && Trim(t) == t)
    requires (forall i: nat | i < k :: InTurn(j, texts, i)) && !InTurn(j, texts, k)
    ensures Finished(model, ParseLines(j, model, START, texts)) == Deltas(j, model, texts[..k]) + [Failed]
  {
    AllInTurn(j, model, texts, k);
    OneMore(j, model, texts, k);
    var rest := texts[k..];
    assert texts == texts[..k] + rest && rest[0] == texts[k];
    ParseLinesAppend(j, model, START, texts[..k], rest);
  }

  lemma TextsTrimmed(s: Text)
    ensures forall t | t in Texts(s) :: t != [] && Trim(t) == t
  {
    forall t | t in Texts(s) ensures t != [] && Trim(t) == t {
      TextsAreLines(Lines(s), t);
      var line :| line in Lines(s) && t == Trim(line);
      TrimTwice(line);
    }
  }

  /** A payload read at once.  If every text is in turn, the contents are emitted in order, and
      then the last finish reason with the last usage, or a failure if there was no finish
      reason; otherwise the contents before the first text out of turn, and a failure. */
  lemma BatchMeans(j: Json, model: string, payload: Text)
    ensures var texts := Texts(payload);
            (forall k: nat | k < |texts| :: InTurn(j, texts, k)) ==>
              Batch(j, model, payload) == Deltas(j, model, texts) +
                match LastFinish(j, texts)
                case None => [Failed]
                case Some((index, c)) => [Final(index, model, c.content, LastUsage(j, texts))]
    ensures var texts := Texts(payload);
            forall k: nat | k < |texts| && !InTurn(j, texts, k) && (forall i: nat | i < k :: InTurn(j, texts, i)) ::
              Batch(j, model, payload) == Deltas(j, model, texts[..k]) + [Failed]
  {
    var texts := Texts(payload);
    TextsTrimmed(payload);
    ParsesTexts(j, model, START, Lines(payload));
    if forall k: nat | k < |texts| :: InTurn(j, texts, k) {
      AllInTurn(j, model, texts, |texts|);
      assert texts[..|texts|] == texts;
    }
    forall k: nat | k < |texts| && !InTurn(j, texts, k) && (forall i: nat | i < k :: InTurn(j, texts, i))
      ensures Batch(j, model, payload) == Deltas(j, model, texts[..k]) + [Failed]
    {
      FirstOutOfTurn(j, model, texts, k);
    }
  }

  /** The usual end of a stream: a chunk without choices brings the usage after the finish
      reason, and the final item carries the content of the one and the usage of the other. */
  lemma UsageAfterFinish(j: Json, model: string, payload: Text, n: nat)
    requires var texts := Texts(payload); n + 2 == |texts| && UsualEnd(j, texts, n)
    ensures var texts := Texts(payload);
            Batch(j, model, payload) == Deltas(j, model, texts[..n])
              + [Final(n, model, ChunkOf(j, texts[n]).content, ChunkOf(j, texts[n + 1]).usage.value)]
  {
    var texts := Texts(payload);
    UsualEndInTurn(j, model, texts, n);
    BatchMeans(j, model, payload);
  }

  // n chunks with content, one with the finish reason, and one with the usage.
  predicate UsualEnd(j: Json, texts: seq<Text>, n: nat) {
    && n + 2 == |texts| && (forall k: nat | k < n :: HasContent(j, texts[k])) && Finishes(j, texts[n])
    && IsChunk(j, texts[n + 1]) && ChunkOf(j, texts[n + 1]).choices == 0
  }

  lemma UsualTurn(j: Json, texts: seq<Text>, n: nat, k: nat)
    requires UsualEnd(j, texts, n) && k < |texts|
    ensures InTurn(j, texts, k)
  {
    if k < n { ContentsOnly(j, texts, k); }
  }

  lemma UsualEndInTurn(j: Json, model: string, texts: seq<Text>, n: nat)
    requires UsualEnd(j, texts, n)
    ensures forall k: nat | k < |texts| :: InTurn(j, texts, k)
    ensures LastFinish(j, texts) == Some((n, ChunkOf(j, texts[n]))) && Deltas(j, model, texts) == Deltas(j, model, texts[..n])
    ensures LastUsage(j, texts) == ChunkOf(j, texts[n + 1]).usage.value
  {
    forall k: nat | k < |texts| ensures InTurn(j, texts, k) { UsualTurn(j, texts, n, k); }
    UsualEndRead(j, model, texts, n, Deltas(j, model, texts[..n]));
  }

  lemma UsualEndRead(j: Json, model: string, texts: seq<Text>, n: nat, out: seq<Item>)
    requires UsualEnd(j, texts, n) && out == Deltas(j, model, texts[..n])
    ensures LastFinish(j, texts) == Some((n, ChunkOf(j, texts[n]))) && Deltas(j, model, texts) == out
    ensures LastUsage(j, texts) == ChunkOf(j, texts[n + 1]).usage.value
  {
    ContentsOnly(j, texts, n);
    Longer(j, model, texts, n);
    Longer(j, model, texts, n + 1);
    assert texts[..n + 2] == texts && out + [] == out;
  }

  lemma {:induction false} ContentsOnly(j: Json, texts: seq<Text>, n: nat)
    requires n <= |texts| && forall k: nat | k < n :: HasContent(j, texts[k])
    ensures LastFinish(j, texts[..n]) == None && Count(texts[..n]) == n
    decreases n
  {
    if n > 0 {
      ContentsOnly(j, texts, n - 1);
      assert texts[..n][..n - 1] == texts[..n - 1];
    }
  }
}
