/** Splitting a sequence at a separator: lines, path segments and the labels of a name. */
module Splits {
  lemma Assoc<T>(a: seq<T>, b: seq<T>, c: seq<T>)
    ensures a + (b + c) == a + b + c
  {
  }

  // The pieces between separators; a sequence without one is a single piece.
  function Split<T(==)>(s: seq<T>, sep: T): (parts: seq<seq<T>>)
    ensures parts != []
  {
    if s == [] then [[]]
    else
      var rest := Split(s[1..], sep);
      if s[0] == sep then [[]] + rest else [[s[0]] + rest[0]] + rest[1..]
  }

  function Join<T>(parts: seq<seq<T>>, sep: T): seq<T> {
    if parts == [] then [] else if |parts| == 1 then parts[0] else parts[0] + [sep] + Join(parts[1..], sep)
  }

  lemma {:induction false} JoinSplit<T>(s: seq<T>, sep: T)
    ensures Join(Split(s, sep), sep) == s
    ensures forall part | part in Split(s, sep) :: sep !in part
    decreases |s|
  {
    if s != [] {
      JoinSplit(s[1..], sep);
      var parts, rest := Split(s, sep), Split(s[1..], sep);
      if s[0] == sep {
        assert parts[1..] == rest;
      } else {
        assert parts[1..] == rest[1..];
      }
    }
  }

  // The first piece grows by a prefix without a separator.
  lemma {:induction false} SplitPrefix<T>(a: seq<T>, b: seq<T>, sep: T)
    requires sep !in a
    ensures Split(a + b, sep) == [a + Split(b, sep)[0]] + Split(b, sep)[1..]
    decreases |a|
  {
    if a == [] {
      var parts := Split(b, sep);
      assert a + b == b && a + parts[0] == parts[0] && [parts[0]] + parts[1..] == parts;
    } else {
      assert (a + b)[1..] == a[1..] + b;
      SplitPrefix(a[1..], b, sep);
      assert [a[0]] + (a[1..] + Split(b, sep)[0]) == a + Split(b, sep)[0];
    }
  }

  lemma {:induction false} SplitAppend<T>(a: seq<T>, b: seq<T>, sep: T)
    ensures Split(a + [sep] + b, sep) == Split(a, sep) + Split(b, sep)
    decreases |a|
  {
    var whole := a + [sep] + b;
    if a == [] {
      assert whole[1..] == b;
    } else {
      assert whole[1..] == a[1..] + [sep] + b;
      SplitAppend(a[1..], b, sep);
    }
  }

  lemma {:induction false} SplitJoin<T>(parts: seq<seq<T>>, sep: T)
    requires parts != [] && forall part | part in parts :: sep !in part
    ensures Split(Join(parts, sep), sep) == parts
    decreases |parts|
  {
    assert parts[0] in parts;
    if |parts| == 1 {
      SplitPrefix(parts[0], [], sep);
      assert parts[0] + [] == parts[0];
    } else {
      SplitJoin(parts[1..], sep);
      SplitAppend(parts[0], Join(parts[1..], sep), sep);
      SplitPrefix(parts[0], [], sep);
      assert parts[0] + [] == parts[0];
    }
  }

  // What is appended continues the last piece.
  lemma {:induction false} SplitContinue<T>(s: seq<T>, t: seq<T>, sep: T)
    ensures var parts := Split(s, sep);
            Split(s + t, sep) == parts[..|parts| - 1] + Split(parts[|parts| - 1] + t, sep)
    decreases |s|
  {
    if sep in s {
      var i := FirstAt(s, sep);
      var a, b := s[..i], s[i + 1..];
      assert s == a + [sep] + b && s + t == a + [sep] + (b + t);
      SplitAppend(a, b, sep);
      SplitAppend(a, b + t, sep);
      SplitContinue(b, t, sep);
    } else {
      SplitPrefix(s, [], sep);
      assert s + [] == s;
    }
  }

  lemma FirstAt<T>(s: seq<T>, sep: T) returns (i: nat)
    requires sep in s
    ensures i < |s| && s[i] == sep && sep !in s[..i]
  {
    i := 0;
    while s[i] != sep
      invariant i < |s| && sep in s[i..] && sep !in s[..i]
      decreases |s| - i
    {
      i := i + 1;
    }
  }
}
