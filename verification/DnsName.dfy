/** Domain names on the wire: question and decode_name of
    deploy/ipsec/gcp-cloud-dns-wire-probe.py, against sections 3.1 and 4.1.4 of RFC 1035. */
module DnsName {
  import opened Bytes
  import opened Splits

  type Label = seq<byte>

  // ---------- what a position of a message denotes (section 4.1.4) ----------

  // The two top bits of a length octet select a pointer (>= 192) or a label (< 64); the
  // other combinations are reserved.  The offset is the remaining 14 bits.
  function Offset(hi: byte, lo: byte): nat
    requires hi >= 192
  {
    (hi - 192) * 256 + lo
  }

  // The octets at pos spell labels, reading steps length octets on the way.
  ghost predicate Denotes(data: seq<byte>, pos: nat, steps: nat, labels: seq<Label>)
    decreases steps
  {
    && steps > 0
    && pos < |data|
    && var n := data[pos];
       if n >= 192 then
         pos + 1 < |data| && Denotes(data, Offset(n, data[pos + 1]), steps - 1, labels)
       else if n == 0 then
         steps == 1 && labels == []
       else
         && n < 64
         && pos + 1 + n <= |data|
         && labels != []
         && labels[0] == data[pos + 1..pos + 1 + n]
         && Denotes(data, pos + 1 + n, steps - 1, labels[1..])
  }

  // The position after the name: after its first pointer, or after its zero octet.
  function EndOf(data: seq<byte>, pos: nat): nat
    decreases |data| - pos
  {
    if pos >= |data| then pos
    else if data[pos] >= 192 then pos + 2
    else if data[pos] == 0 then pos + 1
    else EndOf(data, pos + 1 + data[pos])
  }

  lemma {:induction false} DenotesAtMostOnce(data: seq<byte>, pos: nat, m: nat, L: seq<Label>, n: nat, K: seq<Label>)
    requires Denotes(data, pos, m, L) && Denotes(data, pos, n, K)
    ensures m == n && L == K
    decreases m
  {
    var b := data[pos];
    if b >= 192 {
      DenotesAtMostOnce(data, Offset(b, data[pos + 1]), m - 1, L, n - 1, K);
    } else if b > 0 {
      DenotesAtMostOnce(data, pos + 1 + b, m - 1, L[1..], n - 1, K[1..]);
      assert L == [L[0]] + L[1..] && K == [K[0]] + K[1..];
    }
  }

  lemma {:induction false} EndOfInBounds(data: seq<byte>, pos: nat, steps: nat, labels: seq<Label>)
    requires Denotes(data, pos, steps, labels)
    ensures pos < EndOf(data, pos) <= |data|
    decreases |data| - pos
  {
    if 0 < data[pos] < 192 {
      EndOfInBounds(data, pos + 1 + data[pos], steps - 1, labels[1..]);
    }
  }

  // ---------- the text of a name ----------

  predicate AsciiLabel(word: Label) { forall j | 0 <= j < |word| :: word[j] < 128 }

  predicate Ascii(labels: seq<Label>) { forall i | 0 <= i < |labels| :: AsciiLabel(labels[i]) }

  function Chars(word: Label): string
    requires AsciiLabel(word)
  {
    seq(|word|, (j: nat) requires j < |word| => word[j] as char)
  }

  function Strings(labels: seq<Label>): seq<string>
    requires Ascii(labels)
  {
    seq(|labels|, (i: nat) requires i < |labels| => Chars(labels[i]))
  }

  // ASCII text in lower case.
  function Lower(s: string): string {
    seq(|s|, (i: nat) requires i < |s| => if 'A' <= s[i] <= 'Z' then s[i] + ('a' - 'A') else s[i])
  }

  function Text(labels: seq<Label>): string
    requires Ascii(labels)
  {
    Lower(Join(Strings(labels), '.')) + "."
  }

  /** Letter by letter, Lower changes the capitals to small letters and nothing else. */
  lemma LowerMeans(s: string)
    ensures |Lower(s)| == |s|
    ensures forall i | 0 <= i < |s| :: if 'A' <= s[i] <= 'Z' then Lower(s)[i] as int == s[i] as int + 32 else Lower(s)[i] == s[i]
    ensures forall i | 0 <= i < |s| :: !('A' <= Lower(s)[i] <= 'Z')
  {
  }

  const LIMIT := 128

  ghost predicate Named(data: seq<byte>, pos: nat, steps: nat, labels: seq<Label>) {
    steps <= LIMIT && Denotes(data, pos, steps, labels) && Ascii(labels)
  }

  // The name at pos and where it ends, or None: the meaning decode_name computes.
  ghost function NameAt(data: seq<byte>, pos: nat): (r: Option<(string, nat)>)
    ensures r.Some? ==> pos < r.value.1 <= |data|
  {
    if exists steps, labels :: Named(data, pos, steps, labels) then
      var steps, labels :| Named(data, pos, steps, labels);
      EndOfInBounds(data, pos, steps, labels);
      Some((Text(labels), EndOf(data, pos)))
    else None
  }

  lemma NameAtIs(data: seq<byte>, pos: nat, steps: nat, labels: seq<Label>)
    requires Named(data, pos, steps, labels)
    ensures NameAt(data, pos) == Some((Text(labels), EndOf(data, pos)))
  {
    forall m: nat, K | Named(data, pos, m, K) ensures K == labels {
      DenotesAtMostOnce(data, pos, m, K, steps, labels);
    }
  }

  /** The text of a name has no capitals, ends with a dot and, but for case, is the labels with
      dots between them. */
  lemma NameInLower(data: seq<byte>, pos: nat)
    requires NameAt(data, pos).Some?
    ensures var text := NameAt(data, pos).value.0;
            && (forall i | 0 <= i < |text| :: !('A' <= text[i] <= 'Z')) && text != "" && text[|text| - 1] == '.'
            && exists steps, labels :: Named(data, pos, steps, labels) && text == Lower(Join(Strings(labels), '.')) + "."
  {
    var steps, labels :| Named(data, pos, steps, labels);
    NameAtIs(data, pos, steps, labels);
    LowerMeans(Join(Strings(labels), '.'));
  }

  // ---------- decode_name ----------

  // One turn of the reader: from length octet p with labels before, to q with after.
  ghost predicate Hop(data: seq<byte>, p: nat, before: seq<Label>, q: nat, after: seq<Label>) {
    && p < |data|
    && if data[p] >= 192 then p + 1 < |data| && q == Offset(data[p], data[p + 1]) && after == before
       else 0 < data[p] < 64 && p + 1 + data[p] == q <= |data| && after == before + [data[p + 1..q]]
  }

  // The length octets visited so far, and the labels read before each.
  ghost predicate Walk(data: seq<byte>, trail: seq<nat>, read: seq<seq<Label>>) {
    && |trail| == |read| > 0
    && read[0] == []
    && forall i | 0 <= i < |trail| - 1 :: Hop(data, trail[i], read[i], trail[i + 1], read[i + 1])
  }

  lemma {:induction false} WalkReaches(data: seq<byte>, trail: seq<nat>, read: seq<seq<Label>>, i: nat, m: nat, L: seq<Label>)
    requires Walk(data, trail, read) && i < |trail| && Denotes(data, trail[0], m, L)
    ensures m > i && read[i] <= L && Denotes(data, trail[i], m - i, L[|read[i]|..])
  {
    if i == 0 {
      assert L[0..] == L;
    } else {
      WalkReaches(data, trail, read, i - 1, m, L);
      assert Hop(data, trail[i - 1], read[i - 1], trail[i], read[i]);
      var rest := L[|read[i - 1]|..];
      assert L == read[i - 1] + rest;
      if data[trail[i - 1]] < 192 {
        assert rest[1..] == L[|read[i]|..];
      }
    }
  }

  lemma HopLeads(data: seq<byte>, p: nat, before: seq<Label>, q: nat, after: seq<Label>, m: nat, L: seq<Label>)
    returns (K: seq<Label>)
    requires Hop(data, p, before, q, after) && Denotes(data, q, m, L)
    ensures Denotes(data, p, m + 1, K) && before + K == after + L
  {
    if data[p] >= 192 {
      K := L;
    } else {
      var word := data[p + 1..q];
      SpellLabel(data, p, word, m, L);
      K := [word] + L;
      assert before + K == after + L;
    }
  }

  lemma {:induction false} WalkLeads(data: seq<byte>, trail: seq<nat>, read: seq<seq<Label>>, i: nat, m: nat, L: seq<Label>)
    requires Walk(data, trail, read) && i < |trail| && Denotes(data, trail[i], m, L)
    ensures Denotes(data, trail[0], m + i, read[i] + L)
  {
    if i == 0 {
      assert [] + L == L;
    } else {
      var K := HopLeads(data, trail[i - 1], read[i - 1], trail[i], read[i], m, L);
      WalkLeads(data, trail, read, i - 1, m + 1, K);
    }
  }

  lemma SpellLabel(data: seq<byte>, pos: nat, word: Label, steps: nat, labels: seq<Label>)
    requires 0 < |word| < 64 && pos + 1 + |word| <= |data|
    requires data[pos] == |word| && data[pos + 1..pos + 1 + |word|] == word
    requires Denotes(data, pos + 1 + |word|, steps, labels)
    ensures Denotes(data, pos, steps + 1, [word] + labels)
    ensures EndOf(data, pos) == EndOf(data, pos + 1 + |word|)
  {
  }

  lemma ExtendWalk(data: seq<byte>, trail: seq<nat>, read: seq<seq<Label>>, pos: nat, labels: seq<Label>)
    requires Walk(data, trail, read) && Hop(data, trail[|trail| - 1], read[|trail| - 1], pos, labels)
    ensures Walk(data, trail + [pos], read + [labels])
  {
  }

  /** A position seen twice cannot spell a name: the seen set refuses nothing else. */
  lemma RevisitNeverEnds(data: seq<byte>, trail: seq<nat>, read: seq<seq<Label>>, i: nat, k: nat)
    requires Walk(data, trail, read) && i < k < |trail| && trail[i] == trail[k]
    ensures NameAt(data, trail[0]) == None
  {
    forall m: nat, L | Denotes(data, trail[0], m, L) ensures false {
      WalkReaches(data, trail, read, i, m, L);
      WalkReaches(data, trail, read, k, m, L);
      DenotesAtMostOnce(data, trail[i], m - i, L[|read[i]|..], m - k, L[|read[k]|..]);
    }
  }

  // No name is longer than the walk that reads it.
  lemma WalkNeverEnds(data: seq<byte>, trail: seq<nat>, read: seq<seq<Label>>)
    requires Walk(data, trail, read)
    requires var k := |trail| - 1; var p := trail[k];
             k >= LIMIT || p >= |data| || 64 <= data[p] < 192
             || (if data[p] >= 192 then p + 1 >= |data| else p + 1 + data[p] > |data|)
    ensures NameAt(data, trail[0]) == None
  {
    forall m: nat, L | Denotes(data, trail[0], m, L) ensures m > LIMIT {
      WalkReaches(data, trail, read, |trail| - 1, m, L);
    }
  }

  lemma WalkNotAscii(data: seq<byte>, trail: seq<nat>, read: seq<seq<Label>>, p: nat)
    requires Walk(data, trail, read) && p == trail[|trail| - 1]
    requires p < |data| && 0 < data[p] < 64 && p + 1 + data[p] <= |data|
    requires !AsciiLabel(data[p + 1..p + 1 + data[p]])
    ensures NameAt(data, trail[0]) == None
  {
    forall m: nat, L | Denotes(data, trail[0], m, L) ensures !Ascii(L) {
      var k := |trail| - 1;
      WalkReaches(data, trail, read, k, m, L);
      assert L[|read[k]|] == L[|read[k]|..][0] == data[p + 1..p + 1 + data[p]];
    }
  }

  lemma WalkFinishes(data: seq<byte>, trail: seq<nat>, read: seq<seq<Label>>, k: nat)
    requires Walk(data, trail, read) && k < |trail|
    requires trail[k] < |data| && data[trail[k]] == 0
    ensures Denotes(data, trail[0], k + 1, read[k])
  {
    WalkLeads(data, trail, read, k, 1, []);
    assert read[k] + [] == read[k];
  }

  method DecodeName(data: seq<byte>, pos: nat) returns (result: Option<(string, nat)>)
    ensures result == NameAt(data, pos)
  {
    var at: nat, labels: seq<Label>, end: Option<nat>, seen: set<nat> := pos, [], None, {};
    ghost var trail: seq<nat>, read: seq<seq<Label>> := [at], [labels];
    for k := 0 to LIMIT
      invariant Walk(data, trail, read) && |trail| == k + 1
      invariant trail[0] == pos && trail[k] == at && read[k] == labels
      invariant forall p | p in seen :: p in trail[..k]
      invariant Ascii(labels)
      invariant if end == None then EndOf(data, pos) == EndOf(data, at) else end == Some(EndOf(data, pos))
    {
      if at >= |data| {
        WalkNeverEnds(data, trail, read);
        return None;
      }
      if at in seen {
        ghost var i :| 0 <= i < k && trail[..k][i] == at;
        RevisitNeverEnds(data, trail, read, i, k);
        return None;
      }
      seen := seen + {at};
      var n := data[at];
      if n >= 192 {
        if at + 1 >= |data| {
          WalkNeverEnds(data, trail, read);
          return None;
        }
        if end == None { end := Some(at + 2); }
        at := Offset(n, data[at + 1]);
      } else {
        if n >= 64 || at + 1 + n > |data| {
          WalkNeverEnds(data, trail, read);
          return None;
        }
        if n == 0 {
          WalkFinishes(data, trail, read, k);
          NameAtIs(data, pos, k + 1, labels);
          return Some((Text(labels), if end == None then at + 1 else end.value));
        }
        var word := data[at + 1..at + 1 + n];
        if !AsciiLabel(word) {
          WalkNotAscii(data, trail, read, at);
          return None;
        }
        labels := labels + [word];
        at := at + 1 + n;
      }
      ExtendWalk(data, trail, read, at, labels);
      trail, read := trail + [at], read + [labels];
    }
    WalkNeverEnds(data, trail, read);
    return None;
  }

  // ---------- question ----------

  // Without the dots at its end.
  function Stripped(s: string): (r: string)
    ensures r <= s && (r != "" ==> r[|r| - 1] != '.')
  {
    if s != "" && s[|s| - 1] == '.' then Stripped(s[..|s| - 1]) else s
  }

  predicate Encodable(part: string) {
    0 < |part| < 64 && forall i | 0 <= i < |part| :: part[i] as int < 128
  }

  predicate AllEncodable(parts: seq<string>) {
    forall i | 0 <= i < |parts| :: Encodable(parts[i])
  }

  function Octets(part: string): Label
    requires Encodable(part)
  {
    seq(|part|, (i: nat) requires i < |part| => part[i] as int)
  }

  function WireLabels(labels: seq<string>): seq<byte>
    requires AllEncodable(labels)
  {
    if labels == [] then [0] else [|labels[0]|] + Octets(labels[0]) + WireLabels(labels[1..])
  }

  // The name part of question; None stands for ValueError and UnicodeEncodeError.
  function WireName(name: string): Option<seq<byte>> {
    var labels := Split(Stripped(name), '.');
    if AllEncodable(labels) then Some(WireLabels(labels)) else None
  }

  function AllOctets(labels: seq<string>): (r: seq<Label>)
    requires AllEncodable(labels)
    ensures Ascii(r)
  {
    seq(|labels|, (i: nat) requires i < |labels| => Octets(labels[i]))
  }

  lemma {:induction false} WireLabelsDenote(data: seq<byte>, pos: nat, labels: seq<string>)
    requires AllEncodable(labels)
    requires pos + |WireLabels(labels)| <= |data| && data[pos..pos + |WireLabels(labels)|] == WireLabels(labels)
    ensures Denotes(data, pos, |labels| + 1, AllOctets(labels))
    ensures EndOf(data, pos) == pos + |WireLabels(labels)|
    decreases |labels|
  {
    assert data[pos] == data[pos..pos + |WireLabels(labels)|][0];
    if labels != [] {
      var first, rest := Octets(labels[0]), WireLabels(labels[1..]);
      var next := pos + 1 + |first|;
      assert WireLabels(labels) == [|first|] + first + rest;
      SliceParts(data, pos, first, rest);
      WireLabelsDenote(data, next, labels[1..]);
      SpellLabel(data, pos, first, |labels|, AllOctets(labels[1..]));
      OctetsCons(labels);
    }
  }

  lemma SliceParts(data: seq<byte>, pos: nat, word: Label, rest: seq<byte>)
    requires |word| < 64 && pos + 1 + |word| + |rest| <= |data|
    requires data[pos..pos + 1 + |word| + |rest|] == [|word|] + word + rest
    ensures data[pos + 1..pos + 1 + |word|] == word
    ensures data[pos + 1 + |word|..pos + 1 + |word| + |rest|] == rest
  {
    var all := data[pos..pos + 1 + |word| + |rest|];
    forall i | 0 <= i < |word| ensures data[pos + 1 + i] == word[i] {
      assert data[pos + 1 + i] == all[1 + i] == ([|word|] + word)[1 + i];
    }
    forall i | 0 <= i < |rest| ensures data[pos + 1 + |word| + i] == rest[i] {
      assert data[pos + 1 + |word| + i] == all[1 + |word| + i] == ([|word|] + word + rest)[1 + |word| + i];
    }
  }

  lemma OctetsCons(labels: seq<string>)
    requires AllEncodable(labels) && labels != []
    ensures AllOctets(labels) == [Octets(labels[0])] + AllOctets(labels[1..])
  {
  }

  lemma StringsOfOctets(labels: seq<string>)
    requires AllEncodable(labels)
    ensures Strings(AllOctets(labels)) == labels
  {
    forall i | 0 <= i < |labels| ensures Strings(AllOctets(labels))[i] == labels[i] {
      assert Chars(Octets(labels[i])) == labels[i];
    }
  }

  lemma TooManySteps(data: seq<byte>, pos: nat, steps: nat, labels: seq<Label>)
    requires Denotes(data, pos, steps, labels) && steps > LIMIT
    ensures NameAt(data, pos) == None
  {
    forall m: nat, K | Named(data, pos, m, K) ensures false {
      DenotesAtMostOnce(data, pos, m, K, steps, labels);
    }
  }

  lemma NameWithin(data: seq<byte>, pos: nat, steps: nat, labels: seq<Label>)
    requires Denotes(data, pos, steps, labels) && Ascii(labels)
    ensures NameAt(data, pos) == if steps <= LIMIT then Some((Text(labels), EndOf(data, pos))) else None
  {
    if steps <= LIMIT { NameAtIs(data, pos, steps, labels); } else { TooManySteps(data, pos, steps, labels); }
  }

  lemma TextOfOctets(labels: seq<string>, s: string)
    requires AllEncodable(labels) && Join(labels, '.') == s
    ensures Ascii(AllOctets(labels)) && Text(AllOctets(labels)) == Lower(s) + "."
  {
    StringsOfOctets(labels);
  }

  /** Decoding a name written by question gives it back in lower case with one final dot
      exactly when it has at most 127 labels, wherever in a message it stands. */
  lemma DecodesQuestion(data: seq<byte>, pos: nat, name: string)
    requires WireName(name).Some? && pos <= |data| && WireName(name).value <= data[pos..]
    ensures NameAt(data, pos)
         == if |Split(Stripped(name), '.')| <= 127
            then Some((Lower(Stripped(name)) + ".", pos + |WireName(name).value|))
            else None
  {
    var labels := Split(Stripped(name), '.');
    WireLabelsDenote(data, pos, labels);
    JoinSplit(Stripped(name), '.');
    TextOfOctets(labels, Stripped(name));
    NameWithin(data, pos, |labels| + 1, AllOctets(labels));
  }

  // ---------- compression ----------

  function LabelOctets(labels: seq<string>): seq<byte>
    requires AllEncodable(labels)
  {
    if labels == [] then [] else [|labels[0]|] + Octets(labels[0]) + LabelOctets(labels[1..])
  }

  function Pointer(at: nat): seq<byte>
    requires at < 0x4000
  {
    [192 + at / 256, at % 256]
  }

  lemma PointerDenotes(data: seq<byte>, pos: nat, at: nat, steps: nat, suffix: seq<Label>)
    requires at < 0x4000 && Denotes(data, at, steps, suffix)
    requires pos + 2 <= |data| && data[pos..pos + 2] == Pointer(at)
    ensures Denotes(data, pos, steps + 1, suffix) && EndOf(data, pos) == pos + 2
  {
    assert data[pos] == data[pos..pos + 2][0] && data[pos + 1] == data[pos..pos + 2][1];
  }

  lemma FirstLabel(data: seq<byte>, pos: nat, labels: seq<string>, at: nat)
    requires AllEncodable(labels) && labels != [] && at < 0x4000
    requires var wire := LabelOctets(labels) + Pointer(at); pos + |wire| <= |data| && data[pos..pos + |wire|] == wire
    ensures var first, next, rest := Octets(labels[0]), pos + 1 + |labels[0]|, LabelOctets(labels[1..]) + Pointer(at);
            && next + |rest| <= |data| && data[pos] == |first| && data[pos + 1..next] == first
            && data[next..next + |rest|] == rest
  {
    var wire, first, rest := LabelOctets(labels) + Pointer(at), Octets(labels[0]), LabelOctets(labels[1..]) + Pointer(at);
    assert data[pos] == data[pos..pos + |wire|][0];
    Assoc([|first|] + first, LabelOctets(labels[1..]), Pointer(at));
    SliceParts(data, pos, first, rest);
  }

  lemma {:induction false} CompressedDenotes(data: seq<byte>, pos: nat, labels: seq<string>, at: nat, steps: nat, suffix: seq<Label>,
                                             total: nat, all: seq<Label>)
    requires AllEncodable(labels) && at < 0x4000 && Denotes(data, at, steps, suffix)
    requires total == |labels| + 1 + steps && all == AllOctets(labels) + suffix
    requires var wire := LabelOctets(labels) + Pointer(at); pos + |wire| <= |data| && data[pos..pos + |wire|] == wire
    ensures Denotes(data, pos, total, all) && EndOf(data, pos) == pos + |LabelOctets(labels)| + 2
    decreases |labels|
  {
    if labels == [] {
      assert LabelOctets(labels) + Pointer(at) == Pointer(at) && all == suffix;
      PointerDenotes(data, pos, at, steps, suffix);
    } else {
      FirstLabel(data, pos, labels, at);
      OctetsCons(labels);
      assert all[1..] == AllOctets(labels[1..]) + suffix;
      var next := pos + 1 + |labels[0]|;
      CompressedDenotes(data, next, labels[1..], at, steps, suffix, total - 1, all[1..]);
      LabelStep(data, pos, next, total, all);
    }
  }

  lemma LabelStep(data: seq<byte>, pos: nat, next: nat, steps: nat, labels: seq<Label>)
    requires pos < |data| && 0 < data[pos] < 64 && next == pos + 1 + data[pos] <= |data| && steps > 0
    requires labels != [] && labels[0] == data[pos + 1..next] && Denotes(data, next, steps - 1, labels[1..])
    ensures Denotes(data, pos, steps, labels) && EndOf(data, pos) == EndOf(data, next)
  {
  }

  /** A compressed name, some labels and a pointer to another name of the message, is read
      as the labels followed by the name pointed to, as long as 128 octets are enough. */
  lemma DecodesCompressed(data: seq<byte>, pos: nat, labels: seq<string>, at: nat, steps: nat, suffix: seq<Label>)
    requires AllEncodable(labels) && at < 0x4000 && Named(data, at, steps, suffix)
    requires var wire := LabelOctets(labels) + Pointer(at); pos + |wire| <= |data| && data[pos..pos + |wire|] == wire
    ensures Ascii(AllOctets(labels) + suffix)
    ensures NameAt(data, pos) ==
            if |labels| + 1 + steps <= LIMIT
            then Some((Text(AllOctets(labels) + suffix), pos + |LabelOctets(labels)| + 2))
            else None
  {
    var all, total := AllOctets(labels) + suffix, |labels| + 1 + steps;
    CompressedDenotes(data, pos, labels, at, steps, suffix, total, all);
    NameWithin(data, pos, total, all);
  }
}
