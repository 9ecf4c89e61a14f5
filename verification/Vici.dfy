/** The VICI event decoder of deploy/ipsec/qualify_scheduled_ike.py.

    The grammar (Element, Encode, Apply) is the independent reference: a byte string is
    a list of elements written one after the other, and a list of elements denotes a
    tree.  The decoder is a loop over a stack of mutable dictionaries that alias one
    another: a child is stored in its parent before it is filled in. */
module Vici {
  import opened Bytes

  // bytes.decode(): None stands for UnicodeDecodeError.
  type Decoder = seq<byte> -> Option<string>

  datatype Item = Text(text: string) | Section(entries: map<string, Item>)
  type Tree = map<string, Item>

  // ---------- the grammar ----------

  datatype Element =
    | Nested(key: seq<byte>, body: seq<Element>)
    | KeyValue(key: seq<byte>, value: seq<byte>)
    | ListStart(key: seq<byte>)
    | ListItem(value: seq<byte>)
    | ListEnd

  predicate WellFormed(dec: Decoder, e: Element) {
    match e
    case Nested(key, body) => KeyOk(dec, key) && AllWellFormed(dec, body)
    case KeyValue(key, value) => KeyOk(dec, key) && |value| < 65536 && dec(value).Some?
    case ListStart(key) => KeyOk(dec, key)
    case ListItem(value) => |value| < 65536
    case ListEnd => true
  }

  predicate AllWellFormed(dec: Decoder, es: seq<Element>) {
    es == [] || (WellFormed(dec, es[0]) && AllWellFormed(dec, es[1..]))
  }

  predicate KeyOk(dec: Decoder, key: seq<byte>) { |key| < 256 && dec(key).Some? }

  function Encode(dec: Decoder, e: Element): (s: seq<byte>)
    requires WellFormed(dec, e)
    ensures |s| > 0
  {
    match e
    case Nested(key, body) => Keyed(1, key) + EncodeAll(dec, body) + END
    case KeyValue(key, value) => Keyed(3, key) + Sized(value)
    case ListStart(key) => Keyed(4, key)
    case ListItem(value) => [5] + Sized(value)
    case ListEnd => [6]
  }

  const END: seq<byte> := [2]

  function Keyed(kind: byte, key: seq<byte>): seq<byte>
    requires |key| < 256
  {
    [kind, |key|] + key
  }

  function Sized(value: seq<byte>): seq<byte>
    requires |value| < 65536
  {
    FromU16(|value|) + value
  }

  function EncodeAll(dec: Decoder, es: seq<Element>): seq<byte>
    requires AllWellFormed(dec, es)
  {
    if es == [] then [] else Encode(dec, es[0]) + EncodeAll(dec, es[1..])
  }

  // What an element adds to the section it stands in: a later key replaces an earlier
  // one, and list elements add nothing.
  function Apply(dec: Decoder, t: Tree, e: Element): Tree
    requires WellFormed(dec, e)
    decreases e
  {
    match e
    case Nested(key, body) => t[dec(key).value := Section(ApplyAll(dec, map[], body))]
    case KeyValue(key, value) => t[dec(key).value := Text(dec(value).value)]
    case _ => t
  }

  function ApplyAll(dec: Decoder, t: Tree, es: seq<Element>): Tree
    requires AllWellFormed(dec, es)
    decreases es
  {
    if es == [] then t else ApplyAll(dec, Apply(dec, t, es[0]), es[1..])
  }

  ghost predicate Spells(dec: Decoder, es: seq<Element>, data: seq<byte>, t: Tree) {
    AllWellFormed(dec, es) && data == EncodeAll(dec, es) && t == ApplyAll(dec, map[], es)
  }

  // ---------- the decoder on values ----------

  // One open section: the key it has in its parent, and the entries completed so far.
  datatype Frame = Frame(key: string, entries: Tree)
  type Stack = s: seq<Frame> | |s| > 0 witness [Frame("", map[])]

  datatype Token = Open(key: string) | Close | Pair(key: string, value: string) | Ignored

  // The element at the front of rest, and how many bytes it takes.
  function Head(dec: Decoder, rest: seq<byte>): (r: Option<(Token, nat)>)
    requires rest != []
    ensures r.Some? ==> 0 < r.value.1 <= |rest|
  {
    var kind := rest[0];
    if kind == 1 || kind == 3 || kind == 4 then
      if |rest| < 2 then None else
      var n := rest[1] as nat + 2;
      if |rest| < n then None else
      match dec(rest[2..n])
      case None => None
      case Some(key) =>
        if kind == 1 then Some((Open(key), n))
        else if kind == 4 then Some((Ignored, n))
        else if |rest| < n + 2 then None else
          var m := n + 2 + U16(rest[n], rest[n + 1]);
          if |rest| < m then None else
          match dec(rest[n + 2..m])
          case None => None
          case Some(value) => Some((Pair(key, value), m))
    else if kind == 2 then Some((Close, 1))
    else if kind == 5 then
      if |rest| < 3 || |rest| < 3 + U16(rest[1], rest[2]) then None
      else Some((Ignored, 3 + U16(rest[1], rest[2])))
    else if kind == 6 then Some((Ignored, 1))
    else None
  }

  function Bind(stack: Stack, key: string, item: Item): (r: Stack)
  {
    var n := |stack| - 1;
    stack[n := stack[n].(entries := stack[n].entries[key := item])]
  }

  function Shift(stack: Stack, token: Token): Option<Stack> {
    match token
    case Open(key) => Some(stack + [Frame(key, map[])])
    case Close =>
      var n := |stack| - 1;
      if n == 0 then None else Some(Bind(stack[..n], stack[n].key, Section(stack[n].entries)))
    case Pair(key, value) => Some(Bind(stack, key, Text(value)))
    case Ignored => Some(stack)
  }

  function Run(dec: Decoder, stack: Stack, rest: seq<byte>): Option<Tree>
    decreases |rest|
  {
    if rest == [] then
      if |stack| == 1 then Some(stack[0].entries) else None
    else
      match Head(dec, rest)
      case None => None
      case Some((token, n)) =>
        match Shift(stack, token)
        case None => None
        case Some(next) => Run(dec, next, rest[n..])
  }

  const ROOT: Stack := [Frame("", map[])]

  function Decode(dec: Decoder, data: seq<byte>): Option<Tree> { Run(dec, ROOT, data) }

  // ---------- every spelled element list is decoded to its tree ----------

  function Top(stack: Stack): Frame { stack[|stack| - 1] }

  function WithTop(stack: Stack, entries: Tree): Stack {
    stack[|stack| - 1 := Top(stack).(entries := entries)]
  }

  lemma HeadOfListStart(dec: Decoder, key: seq<byte>, suffix: seq<byte>)
    requires KeyOk(dec, key)
    ensures Head(dec, Keyed(4, key) + suffix) == Some((Ignored, 2 + |key|))
  {
  }

  lemma HeadOfPair(dec: Decoder, key: seq<byte>, value: seq<byte>, suffix: seq<byte>)
    requires KeyOk(dec, key) && |value| < 65536 && dec(value).Some?
    ensures Head(dec, Keyed(3, key) + Sized(value) + suffix)
         == Some((Pair(dec(key).value, dec(value).value), 4 + |key| + |value|))
  {
    var rest, n := Keyed(3, key) + Sized(value) + suffix, 2 + |key|;
    assert rest[2..n] == key;
    assert rest[n..n + 2] == FromU16(|value|);
    assert rest[n] == rest[n..n + 2][0] && rest[n + 1] == rest[n..n + 2][1];
    assert rest[n + 2..n + 2 + |value|] == value;
  }

  lemma HeadOfItem(dec: Decoder, value: seq<byte>, suffix: seq<byte>)
    requires |value| < 65536
    ensures Head(dec, [5] + Sized(value) + suffix) == Some((Ignored, 3 + |value|))
  {
  }

  lemma HeadOfEncoding(dec: Decoder, e: Element, suffix: seq<byte>)
    requires WellFormed(dec, e) && !e.Nested?
    ensures Head(dec, Encode(dec, e) + suffix)
         == Some((if e.KeyValue? then Pair(dec(e.key).value, dec(e.value).value) else Ignored,
                  |Encode(dec, e)|))
  {
    match e
    case KeyValue(key, value) => HeadOfPair(dec, key, value, suffix);
    case ListStart(key) => HeadOfListStart(dec, key, suffix);
    case ListItem(value) => HeadOfItem(dec, value, suffix);
    case ListEnd =>
  }

  lemma {:induction false} RunsElements(dec: Decoder, stack: Stack, es: seq<Element>, suffix: seq<byte>)
    requires AllWellFormed(dec, es)
    ensures Run(dec, stack, EncodeAll(dec, es) + suffix)
         == Run(dec, WithTop(stack, ApplyAll(dec, Top(stack).entries, es)), suffix)
    decreases es
  {
    if es == [] {
      assert EncodeAll(dec, es) + suffix == suffix;
      assert WithTop(stack, Top(stack).entries) == stack;
    } else {
      var e, more := es[0], EncodeAll(dec, es[1..]) + suffix;
      assert EncodeAll(dec, es) + suffix == Encode(dec, e) + more;
      var next := WithTop(stack, Apply(dec, Top(stack).entries, e));
      if e.Nested? { RunsNested(dec, stack, e, more); } else { RunsFlat(dec, stack, e, more); }
      RunsElements(dec, next, es[1..], suffix);
      assert WithTop(next, ApplyAll(dec, Top(next).entries, es[1..]))
          == WithTop(stack, ApplyAll(dec, Top(stack).entries, es));
    }
  }

  lemma RunsToken(dec: Decoder, stack: Stack, wire: seq<byte>, more: seq<byte>, token: Token, next: Stack)
    requires wire != [] && Head(dec, wire + more) == Some((token, |wire|)) && Shift(stack, token) == Some(next)
    ensures Run(dec, stack, wire + more) == Run(dec, next, more)
  {
    assert (wire + more)[|wire|..] == more;
  }

  lemma RunsFlat(dec: Decoder, stack: Stack, e: Element, more: seq<byte>)
    requires WellFormed(dec, e) && !e.Nested?
    ensures Run(dec, stack, Encode(dec, e) + more)
         == Run(dec, WithTop(stack, Apply(dec, Top(stack).entries, e)), more)
  {
    var wire, next := Encode(dec, e), WithTop(stack, Apply(dec, Top(stack).entries, e));
    HeadOfEncoding(dec, e, more);
    if e.KeyValue? {
      RunsToken(dec, stack, wire, more, Pair(dec(e.key).value, dec(e.value).value), next);
    } else {
      assert next == stack;
      RunsToken(dec, stack, wire, more, Ignored, next);
    }
  }

  lemma OpensSection(dec: Decoder, stack: Stack, key: seq<byte>, rest: seq<byte>)
    requires KeyOk(dec, key)
    ensures Run(dec, stack, Keyed(1, key) + rest) == Run(dec, stack + [Frame(dec(key).value, map[])], rest)
  {
  }

  lemma ClosesSection(dec: Decoder, stack: Stack, open: Frame, rest: seq<byte>)
    ensures Run(dec, stack + [open], END + rest) == Run(dec, Bind(stack, open.key, Section(open.entries)), rest)
  {
  }

  lemma {:induction false} RunsNested(dec: Decoder, stack: Stack, e: Element, more: seq<byte>)
    requires WellFormed(dec, e) && e.Nested?
    ensures Run(dec, stack, Encode(dec, e) + more)
         == Run(dec, WithTop(stack, Apply(dec, Top(stack).entries, e)), more)
    decreases e
  {
    var name, body := dec(e.key).value, EncodeAll(dec, e.body);
    var open, full := Frame(name, map[]), Frame(name, ApplyAll(dec, map[], e.body));
    assert Encode(dec, e) + more == Keyed(1, e.key) + (body + (END + more));
    OpensSection(dec, stack, e.key, body + (END + more));
    RunsElements(dec, stack + [open], e.body, END + more);
    assert WithTop(stack + [open], full.entries) == stack + [full];
    ClosesSection(dec, stack, full, more);
  }

  // ---------- every accepted byte string is a spelled element list ----------

  // rest finishes every open section and ends the event with tree t.
  ghost predicate Closes(dec: Decoder, stack: Stack, rest: seq<byte>, t: Tree)
    decreases |stack|, 1
  {
    exists es :: ClosesWith(dec, stack, es, rest, t)
  }

  // The same, when es is what remains of the innermost open section.
  ghost predicate ClosesWith(dec: Decoder, stack: Stack, es: seq<Element>, rest: seq<byte>, t: Tree)
    decreases |stack|, 0
  {
    && AllWellFormed(dec, es)
    && var done := ApplyAll(dec, Top(stack).entries, es);
       if |stack| == 1 then rest == EncodeAll(dec, es) && t == done
       else
         var written := EncodeAll(dec, es) + END;
         && written <= rest
         && Closes(dec, Outer(stack, done), rest[|written|..], t)
  }

  function Outer(stack: Stack, done: Tree): Stack
    requires |stack| > 1
  {
    Bind(stack[..|stack| - 1], Top(stack).key, Section(done))
  }

  lemma Prepend(dec: Decoder, stack: Stack, e: Element, rest: seq<byte>, t: Tree)
    requires WellFormed(dec, e)
    requires Closes(dec, WithTop(stack, Apply(dec, Top(stack).entries, e)), rest, t)
    ensures Closes(dec, stack, Encode(dec, e) + rest, t)
  {
    var next := WithTop(stack, Apply(dec, Top(stack).entries, e));
    var es :| ClosesWith(dec, next, es, rest, t);
    var all := [e] + es;
    assert all[1..] == es;
    assert EncodeAll(dec, all) == Encode(dec, e) + EncodeAll(dec, es);
    assert ApplyAll(dec, Top(stack).entries, all) == ApplyAll(dec, Top(next).entries, es);
    if |stack| > 1 {
      var done, whole := ApplyAll(dec, Top(next).entries, es), Encode(dec, e) + rest;
      assert next[..|stack| - 1] == stack[..|stack| - 1];
      assert Outer(next, done) == Outer(stack, done);
      var written := EncodeAll(dec, es) + END;
      assert EncodeAll(dec, all) + END == Encode(dec, e) + written <= whole;
      assert whole[|EncodeAll(dec, all) + END|..] == rest[|written|..];
    }
    assert ClosesWith(dec, stack, all, Encode(dec, e) + rest, t);
  }

  lemma PrependSection(dec: Decoder, stack: Stack, name: seq<byte>, rest: seq<byte>, t: Tree)
    requires KeyOk(dec, name)
    requires Closes(dec, stack + [Frame(dec(name).value, map[])], rest, t)
    ensures Closes(dec, stack, Keyed(1, name) + rest, t)
  {
    var inner := stack + [Frame(dec(name).value, map[])];
    var es :| ClosesWith(dec, inner, es, rest, t);
    var written := EncodeAll(dec, es) + END;
    var more := rest[|written|..];
    assert inner[..|stack|] == stack;
    assert rest == written + more;
    assert Keyed(1, name) + rest == Encode(dec, Nested(name, es)) + more;
    Prepend(dec, stack, Nested(name, es), more, t);
  }

  lemma OpenCloses(dec: Decoder, stack: Stack, rest: seq<byte>, key: string, n: nat, t: Tree)
    requires rest != [] && Head(dec, rest) == Some((Open(key), n))
    requires Closes(dec, stack + [Frame(key, map[])], rest[n..], t)
    ensures Closes(dec, stack, rest, t)
  {
    assert rest == Keyed(1, rest[2..n]) + rest[n..];
    PrependSection(dec, stack, rest[2..n], rest[n..], t);
  }

  lemma EndCloses(dec: Decoder, stack: Stack, rest: seq<byte>, t: Tree)
    requires rest != [] && rest[0] == 2 && |stack| > 1
    requires Closes(dec, Outer(stack, Top(stack).entries), rest[1..], t)
    ensures Closes(dec, stack, rest, t)
  {
    assert EncodeAll(dec, []) + END == END <= rest;
    assert ClosesWith(dec, stack, [], rest, t);
  }

  lemma {:induction false} RunCloses(dec: Decoder, stack: Stack, rest: seq<byte>, t: Tree)
    requires Run(dec, stack, rest) == Some(t)
    ensures Closes(dec, stack, rest, t)
    decreases |rest|
  {
    if rest == [] {
      assert ClosesWith(dec, stack, [], rest, t);
    } else {
      var (token, n) := Head(dec, rest).value;
      var next := Shift(stack, token).value;
      RunCloses(dec, next, rest[n..], t);
      match token
      case Open(key) => OpenCloses(dec, stack, rest, key, n, t);
      case Close => EndCloses(dec, stack, rest, t);
      case _ =>
        var e := Lexeme(dec, rest);
        assert next == WithTop(stack, Apply(dec, Top(stack).entries, e));
        Prepend(dec, stack, e, rest[n..], t);
    }
  }

  lemma SizedBack(text: seq<byte>, hi: byte, lo: byte)
    requires |text| == U16(hi, lo)
    ensures Sized(text) == [hi, lo] + text
  {
    assert FromU16(|text|) == [hi, lo];
  }

  lemma PairLexeme(dec: Decoder, rest: seq<byte>, n: nat) returns (e: Element)
    requires rest != [] && rest[0] == 3 && Head(dec, rest).Some? && n == Head(dec, rest).value.1
    ensures e.KeyValue? && WellFormed(dec, e) && Encode(dec, e) == rest[..n]
    ensures Head(dec, rest).value.0 == Pair(dec(e.key).value, dec(e.value).value)
  {
    var k := rest[1] as nat + 2;
    e := KeyValue(rest[2..k], rest[k + 2..n]);
    assert Keyed(3, e.key) == rest[..k];
    SizedBack(e.value, rest[k], rest[k + 1]);
    assert rest[..n] == rest[..k] + ([rest[k], rest[k + 1]] + e.value);
  }

  lemma ItemLexeme(dec: Decoder, rest: seq<byte>, n: nat) returns (e: Element)
    requires rest != [] && rest[0] in {4, 5, 6} && Head(dec, rest).Some? && n == Head(dec, rest).value.1
    ensures !e.KeyValue? && !e.Nested? && WellFormed(dec, e) && Encode(dec, e) == rest[..n]
    ensures Head(dec, rest).value.0 == Ignored
  {
    if rest[0] == 4 {
      e := ListStart(rest[2..n]);
      assert Keyed(4, e.key) == rest[..n];
    } else if rest[0] == 5 {
      e := ListItem(rest[3..n]);
      SizedBack(e.value, rest[1], rest[2]);
      assert rest[..n] == [rest[0]] + ([rest[1], rest[2]] + e.value);
    } else {
      e := ListEnd;
    }
  }

  // The element that Head reads, when it is neither a section start nor a section end.
  lemma Lexeme(dec: Decoder, rest: seq<byte>) returns (e: Element)
    requires rest != [] && Head(dec, rest).Some?
    requires !Head(dec, rest).value.0.Open? && !Head(dec, rest).value.0.Close?
    ensures WellFormed(dec, e) && !e.Nested?
    ensures rest == Encode(dec, e) + rest[Head(dec, rest).value.1..]
    ensures Head(dec, rest).value.0
         == if e.KeyValue? then Pair(dec(e.key).value, dec(e.value).value) else Ignored
  {
    var n := Head(dec, rest).value.1;
    if rest[0] == 3 {
      e := PairLexeme(dec, rest, n);
    } else {
      e := ItemLexeme(dec, rest, n);
    }
    assert rest == rest[..n] + rest[n..];
  }

  /** The decoder accepts a byte string exactly when it is a complete balanced element
      list, and returns exactly the tree that list denotes. */
  lemma AcceptsExactlyTheGrammar(dec: Decoder, data: seq<byte>, t: Tree)
    ensures Decode(dec, data) == Some(t) <==> exists es :: Spells(dec, es, data, t)
  {
    if Decode(dec, data) == Some(t) {
      RunCloses(dec, ROOT, data, t);
      var es :| ClosesWith(dec, ROOT, es, data, t);
      assert Spells(dec, es, data, t);
    }
    forall es | Spells(dec, es, data, t) ensures Decode(dec, data) == Some(t) {
      RunsElements(dec, ROOT, es, []);
      assert EncodeAll(dec, es) + [] == data;
    }
  }

  // ---------- round trip on list-free trees ----------

  ghost predicate Encodable(dec: Decoder, enc: string -> seq<byte>, item: Item) {
    match item
    case Text(s) => |enc(s)| < 65536 && dec(enc(s)) == Some(s)
    case Section(entries) =>
      forall k | k in entries ::
        |enc(k)| < 256 && dec(enc(k)) == Some(k) && Encodable(dec, enc, entries[k])
  }

  // The elements write the given keys of a section, each once, in any order at every level.
  ghost predicate Lists(enc: string -> seq<byte>, item: Item, keys: set<string>, es: seq<Element>)
    requires item.Section? && keys <= item.entries.Keys
    decreases item, 0, es
  {
    if es == [] then keys == {}
    else exists k | k in keys :: Writes(enc, k, item.entries[k], es[0]) && Lists(enc, item, keys - {k}, es[1..])
  }

  ghost predicate Writes(enc: string -> seq<byte>, key: string, item: Item, e: Element)
    decreases item, 1
  {
    match item
    case Text(s) => e == KeyValue(enc(key), enc(s))
    case Section(entries) => e.Nested? && e.key == enc(key) && Lists(enc, item, entries.Keys, e.body)
  }

  ghost function Restrict(t: Tree, keys: set<string>): Tree { map k | k in keys && k in t :: t[k] }

  lemma RestrictStep(t: Tree, entries: Tree, keys: set<string>, k: string)
    requires k in keys && keys <= entries.Keys
    ensures t[k := entries[k]] + Restrict(entries, keys - {k}) == t + Restrict(entries, keys)
  {
  }

  lemma {:induction false} ListingDenotes(dec: Decoder, enc: string -> seq<byte>, item: Item, keys: set<string>, es: seq<Element>, t: Tree)
    requires item.Section? && keys <= item.entries.Keys && Encodable(dec, enc, item) && Lists(enc, item, keys, es)
    ensures AllWellFormed(dec, es) && ApplyAll(dec, t, es) == t + Restrict(item.entries, keys)
    decreases item, 0, es
  {
    if es != [] {
      var k :| k in keys && Writes(enc, k, item.entries[k], es[0]) && Lists(enc, item, keys - {k}, es[1..]);
      ElementDenotes(dec, enc, k, item.entries[k], es[0], t);
      ListingDenotes(dec, enc, item, keys - {k}, es[1..], t[k := item.entries[k]]);
      RestrictStep(t, item.entries, keys, k);
    }
  }

  lemma {:induction false} ElementDenotes(dec: Decoder, enc: string -> seq<byte>, key: string, item: Item, e: Element, t: Tree)
    requires |enc(key)| < 256 && dec(enc(key)) == Some(key) && Encodable(dec, enc, item) && Writes(enc, key, item, e)
    ensures WellFormed(dec, e) && Apply(dec, t, e) == t[key := item]
    decreases item, 1
  {
    if item.Section? {
      var sub := item.entries;
      ListingDenotes(dec, enc, item, sub.Keys, e.body, map[]);
      assert map[] + Restrict(sub, sub.Keys) == sub;
    }
  }

  // Every section can be written so.
  lemma {:induction false} CanBeListed(enc: string -> seq<byte>, item: Item, keys: set<string>) returns (es: seq<Element>)
    requires item.Section? && keys <= item.entries.Keys
    ensures Lists(enc, item, keys, es)
    decreases item, 0, keys
  {
    es := [];
    if keys != {} {
      var k :| k in keys;
      var e := CanBeWritten(enc, k, item.entries[k]);
      var more := CanBeListed(enc, item, keys - {k});
      es := [e] + more;
      assert es[1..] == more;
    }
  }

  lemma {:induction false} CanBeWritten(enc: string -> seq<byte>, key: string, item: Item) returns (e: Element)
    ensures Writes(enc, key, item, e)
    decreases item, 1
  {
    match item
    case Text(s) => e := KeyValue(enc(key), enc(s));
    case Section(entries) =>
      var body := CanBeListed(enc, item, entries.Keys);
      e := Nested(enc(key), body);
  }

  /** Every list-free tree survives encoding and decoding, in whatever order the keys of its
      sections are written; and it can be written. */
  lemma RoundTrip(dec: Decoder, enc: string -> seq<byte>, tree: Tree)
    requires Encodable(dec, enc, Section(tree))
    ensures exists es :: Lists(enc, Section(tree), tree.Keys, es)
    ensures forall es | Lists(enc, Section(tree), tree.Keys, es) ::
              AllWellFormed(dec, es) && Decode(dec, EncodeAll(dec, es)) == Some(tree)
  {
    var _ := CanBeListed(enc, Section(tree), tree.Keys);
    forall es | Lists(enc, Section(tree), tree.Keys, es)
      ensures AllWellFormed(dec, es) && Decode(dec, EncodeAll(dec, es)) == Some(tree)
    {
      ListingDenotes(dec, enc, Section(tree), tree.Keys, es, map[]);
      assert map[] + Restrict(tree, tree.Keys) == tree;
      assert Spells(dec, es, EncodeAll(dec, es), tree);
      AcceptsExactlyTheGrammar(dec, EncodeAll(dec, es), tree);
    }
  }

  // ---------- the loop over aliased dictionaries ----------

  datatype Value = Str(text: string) | Child(dict: Dict)

  class Dict {
    var entries: map<string, Value>

    constructor ()
      ensures entries == map[]
    {
      entries := map[];
    }
  }

  // Following references inside heap, v denotes item.
  ghost predicate Means(v: Value, item: Item, heap: set<Dict>)
    reads heap
    decreases item
  {
    match item
    case Text(s) => v == Str(s)
    case Section(entries) =>
      && v.Child? && v.dict in heap && v.dict.entries.Keys == entries.Keys
      && forall k | k in entries :: Means(v.dict.entries[k], entries[k], heap)
  }

  lemma {:induction false} MeansInLargerHeap(v: Value, item: Item, heap: set<Dict>, larger: set<Dict>)
    requires Means(v, item, heap) && heap <= larger
    ensures Means(v, item, larger)
    decreases item
  {
    if item.Section? {
      forall k | k in item.entries ensures Means(v.dict.entries[k], item.entries[k], larger) {
        MeansInLargerHeap(v.dict.entries[k], item.entries[k], heap, larger);
      }
    }
  }

  // Dictionary d holds the given entries.
  ghost predicate Holds(d: Dict, entries: Tree, heap: set<Dict>)
    reads d, heap
  {
    && d.entries.Keys == entries.Keys
    && forall k | k in entries :: Means(d.entries[k], entries[k], heap)
  }

  // The same, except that entry key is the unfinished section child.
  ghost predicate HoldsOpen(d: Dict, entries: Tree, key: string, child: Dict, heap: set<Dict>)
    reads d, heap
  {
    && d.entries.Keys == entries.Keys + {key}
    && d.entries[key] == Child(child)
    && forall k | k in entries :: k == key || Means(d.entries[k], entries[k], heap)
  }

  // Dictionary i holds what frame i records in terms of finished dictionaries; its one
  // unfinished entry is the next dictionary of the stack.
  ghost predicate Linked(dicts: seq<Dict>, frames: seq<Frame>, finished: set<Dict>)
    reads dicts, finished
  {
    && |dicts| == |frames| > 0
    && (forall i, j | 0 <= i < j < |dicts| :: dicts[i] != dicts[j])
    && (forall i | 0 <= i < |dicts| :: dicts[i] !in finished)
    && (forall i | 0 <= i < |dicts| - 1 ::
          HoldsOpen(dicts[i], frames[i].entries, frames[i + 1].key, dicts[i + 1], finished))
    && Holds(dicts[|dicts| - 1], frames[|dicts| - 1].entries, finished)
  }

  // A slice as in Python: indices past the end are clipped.
  function Slice(data: seq<byte>, a: nat, b: nat): seq<byte>
    requires a <= b
  {
    var n := |data|;
    data[if a < n then a else n..if b < n then b else n]
  }

  lemma KeepAll(dicts: seq<Dict>, frames: seq<Frame>, heap: set<Dict>, larger: set<Dict>)
    requires Linked(dicts, frames, heap) && heap <= larger
    ensures Holds(dicts[|dicts| - 1], frames[|dicts| - 1].entries, larger)
    ensures forall i | 0 <= i < |dicts| - 1 ::
              HoldsOpen(dicts[i], frames[i].entries, frames[i + 1].key, dicts[i + 1], larger)
  {
    forall v: Value, item: Item | Means(v, item, heap) ensures Means(v, item, larger) {
      MeansInLargerHeap(v, item, heap, larger);
    }
  }

  lemma SliceWithin(data: seq<byte>, start: nat, a: nat, b: nat)
    requires start <= a <= b
    ensures b <= |data| ==> Slice(data, a, b) == data[start..][a - start..b - start]
  {
  }

  lemma RunStep(dec: Decoder, stack: Stack, data: seq<byte>, pos: nat, token: Token, next: nat)
    requires pos < |data| && next <= |data| && pos <= next
    requires Head(dec, data[pos..]) == Some((token, next - pos)) && Shift(stack, token).Some?
    ensures Run(dec, stack, data[pos..]) == Run(dec, Shift(stack, token).value, data[next..])
  {
  }

  // A new section: it is entered in its parent, and only then filled in.
  method OpenSection(stack: seq<Dict>, key: string, ghost frames: Stack, ghost heap: set<Dict>)
    returns (deeper: seq<Dict>)
    requires Linked(stack, frames, heap)
    modifies stack[|stack| - 1]
    ensures Linked(deeper, frames + [Frame(key, map[])], heap)
    ensures |deeper| == |stack| + 1 && deeper[..|stack|] == stack && fresh(deeper[|stack|])
  {
    var child := new Dict();
    var top := stack[|stack| - 1];
    top.entries := top.entries[key := Child(child)];
    deeper := stack + [child];
    assert HoldsOpen(top, frames[|stack| - 1].entries, key, child, heap);
  }

  // A value, entered in the innermost open section.
  method StoreText(stack: seq<Dict>, key: string, value: string, ghost frames: Stack, ghost heap: set<Dict>)
    requires Linked(stack, frames, heap)
    modifies stack[|stack| - 1]
    ensures Linked(stack, Bind(frames, key, Text(value)), heap)
  {
    var top := stack[|stack| - 1];
    top.entries := top.entries[key := Str(value)];
  }

  // A section ends: the finished dictionary joins those that no longer change.
  lemma PopLinked(stack: seq<Dict>, frames: Stack, heap: set<Dict>)
    requires Linked(stack, frames, heap) && |stack| > 1
    ensures Linked(stack[..|stack| - 1], Shift(frames, Close).value, heap + {stack[|stack| - 1]})
  {
    KeepAll(stack, frames, heap, heap + {stack[|stack| - 1]});
  }

  /** Reads one element at pos.  As in Python a key or value cut short by the end of the
      data is still read, and next then lies beyond the end. */
  method ReadElement(dec: Decoder, data: seq<byte>, pos: nat) returns (token: Option<Token>, next: nat)
    requires pos < |data|
    ensures token.None? ==> Head(dec, data[pos..]) == None
    ensures token.Some? ==> pos < next
    ensures token.Some? ==> Head(dec, data[pos..]) == if next <= |data| then Some((token.value, next - pos)) else None
  {
    ghost var rest := data[pos..];
    var kind := data[pos];
    next := pos + 1;
    var key := "";
    if kind == 1 || kind == 3 || kind == 4 {
      if next >= |data| { return None, next; }
      var size := data[next];
      next := next + 1;
      var name := dec(Slice(data, next, next + size));
      SliceWithin(data, pos, next, next + size);
      if name == None { return None, next; }
      key := name.value;
      next := next + size;
    }
    if kind == 1 {
      token := Some(Open(key));
    } else if kind == 2 {
      token := Some(Close);
    } else if kind == 3 {
      if next + 2 > |data| { return None, next; }
      var size := U16(data[next], data[next + 1]);
      next := next + 2;
      var value := dec(Slice(data, next, next + size));
      SliceWithin(data, pos, next, next + size);
      if value == None { return None, next; }
      token := Some(Pair(key, value.value));
      next := next + size;
    } else if kind == 4 {
      token := Some(Ignored);
    } else if kind == 5 {
      if next + 2 > |data| { return None, next; }
      next := next + 2 + U16(data[next], data[next + 1]);
      token := Some(Ignored);
    } else if kind == 6 {
      token := Some(Ignored);
    } else {
      token := None;
    }
  }

  // What one element does to the stack; made are the dictionaries created so far.
  method TakeToken(stack: seq<Dict>, token: Token, ghost frames: Stack, ghost heap: set<Dict>, ghost made: set<Dict>)
    returns (ok: bool, after: seq<Dict>, ghost finished: set<Dict>, ghost all: set<Dict>)
    requires Linked(stack, frames, heap) && heap <= made && forall i | 0 <= i < |stack| :: stack[i] in made
    modifies stack[|stack| - 1]
    ensures ok == Shift(frames, token).Some?
    ensures ok ==> Linked(after, Shift(frames, token).value, finished) && after[0] == stack[0]
    ensures made <= all && fresh(all - made) && finished <= all && forall i | 0 <= i < |after| :: after[i] in all
  {
    after, finished, all := stack, heap, made;
    match token {
      case Open(key) =>
        after := OpenSection(stack, key, frames, heap);
        all := made + {after[|stack|]};
      case Close =>
        if |stack| <= 1 { return false, stack, heap, made; }
        PopLinked(stack, frames, heap);
        after, finished := stack[..|stack| - 1], heap + {stack[|stack| - 1]};
      case Pair(key, value) =>
        StoreText(stack, key, value, frames, heap);
      case Ignored =>
    }
    ok := true;
  }

  method DecodeVici(dec: Decoder, data: seq<byte>) returns (result: Option<Dict>, ghost heap: set<Dict>)
    ensures result.Some? <==> Decode(dec, data).Some?
    ensures fresh(heap)
    ensures result.Some? ==> Means(Child(result.value), Section(Decode(dec, data).value), heap)
  {
    var root := new Dict();
    var stack := [root];
    var pos: nat := 0;
    heap := {};
    ghost var frames: Stack, made := ROOT, {root};
    assert data[0..] == data;
    while pos < |data|
      invariant Linked(stack, frames, heap)
      invariant stack[0] == root && fresh(made) && heap <= made
      invariant forall i | 0 <= i < |stack| :: stack[i] in made
      invariant if pos <= |data| then Run(dec, frames, data[pos..]) == Decode(dec, data)
                else Decode(dec, data) == None
      decreases |data| - pos
    {
      var token, next := ReadElement(dec, data, pos);
      if token == None { return None, {}; }
      var ok;
      ok, stack, heap, made := TakeToken(stack, token.value, frames, heap, made);
      if !ok { return None, {}; }
      if next <= |data| {
        RunStep(dec, frames, data, pos, token.value, next);
      }
      frames := Shift(frames, token.value).value;
      pos := next;
    }
    if |stack| != 1 || pos != |data| {
      return None, {};
    }
    assert data[pos..] == [];
    KeepAll(stack, frames, heap, heap + {root});
    return Some(root), heap + {root};
  }
}
