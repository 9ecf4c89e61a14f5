/** Beam path routes: packages/apptransport/beam/routes.go, and the target checks of
    connector.go.  A path is read as its segments; path.Clean is modelled by the rules of
    Go's documentation for rooted paths. */
module Routes {
  import opened Bytes
  import opened Splits

  // ---------- segments ----------

  predicate Proper(part: string) {
    part != "" && part != "." && part != ".." && '/' !in part
  }

  predicate AllProper(parts: seq<string>) {
    forall i | 0 <= i < |parts| :: Proper(parts[i])
  }

  predicate Rooted(s: string) {
    s != "" && s[0] == '/'
  }

  function Segments(s: string): seq<string>
    requires Rooted(s)
  {
    Split(s[1..], '/')
  }

  // ---------- path.Clean ----------

  function Kept(done: seq<string>, part: string): seq<string> {
    if part == "" || part == "." then done
    else if part == ".." then (if done == [] then [] else done[..|done| - 1])
    else done + [part]
  }

  function Walk(parts: seq<string>, done: seq<string>): seq<string> {
    if parts == [] then done else Walk(parts[1..], Kept(done, parts[0]))
  }

  function Clean(s: string): string
    requires Rooted(s)
  {
    "/" + Join(Walk(Segments(s), []), '/')
  }

  lemma {:induction false} WalkProper(parts: seq<string>, done: seq<string>)
    requires AllProper(done) && forall i | 0 <= i < |parts| :: '/' !in parts[i]
    ensures AllProper(Walk(parts, done))
    ensures AllProper(parts) ==> Walk(parts, done) == done + parts
    decreases |parts|
  {
    if parts != [] {
      WalkProper(parts[1..], Kept(done, parts[0]));
      if AllProper(parts) {
        assert Proper(parts[0]);
        assert Kept(done, parts[0]) + parts[1..] == done + parts;
      }
    } else {
      assert done + parts == done;
    }
  }

  lemma CleanIsProper(s: string)
    requires Rooted(s) && AllProper(Segments(s))
    ensures Clean(s) == s
  {
    JoinSplit(s[1..], '/');
    WalkProper(Segments(s), []);
    assert [] + Segments(s) == Segments(s);
  }

  /** A rooted path is its own cleaning just when it is the root or all its segments are
      proper names. */
  lemma CleanFixed(s: string)
    requires Rooted(s)
    ensures Clean(s) == s <==> s == "/" || AllProper(Segments(s))
  {
    JoinSplit(s[1..], '/');
    WalkProper(Segments(s), []);
    var kept := Walk(Segments(s), []);
    if AllProper(Segments(s)) {
      CleanIsProper(s);
    } else if s == "/" {
      assert Segments(s) == [""];
      assert Walk([""], []) == Walk([], []);
    } else if Clean(s) == s {
      assert s == "/" + Join(kept, '/') && s[1..] == Join(kept, '/');
      if kept != [] { SplitJoin(kept, '/'); }
    }
  }

  // ---------- targets ----------

  const MAX_HEADERS: nat := 32768

  datatype Target = Target(protocol: string, address: string, port: int, ca: string, routes: seq<Route>)
  datatype Route = Route(prefix: string, target: Target)

  // A target on the loopback; pem says which texts the certificate pool takes.
  ghost predicate Plain(t: Target, pem: string -> bool) {
    && t.protocol in {"http", "https"} && t.address in {"127.0.0.1", "::1"} && 0 < t.port < 65536
    && (t.ca == "" || (t.protocol == "https" && |t.ca| <= 32768 && pem(t.ca)))
  }

  method CheckTarget(t: Target, pem: string -> bool) returns (ok: bool)
    ensures ok == Plain(t, pem)
  {
    if (t.protocol != "http" && t.protocol != "https") || (t.address != "127.0.0.1" && t.address != "::1")
       || t.port < 1 || t.port > 65535 || |t.ca| > MAX_HEADERS || (t.protocol == "http" && t.ca != "") {
      return false;
    }
    if t.ca != "" {
      if !pem(t.ca) { return false; }
    }
    return true;
  }

  predicate PathChar(c: char) {
    c == '/' || c == '-' || c == '_' || 'a' <= c <= 'z' || 'A' <= c <= 'Z' || '0' <= c <= '9'
  }

  // What a route prefix is: at least one segment, each of letters, digits, '-' and '_'.
  predicate PathPrefix(s: string) {
    2 <= |s| <= 128 && Rooted(s) && AllProper(Segments(s)) && forall i | 0 <= i < |s| :: PathChar(s[i])
  }

  predicate HasDoubleSlash(s: string) {
    exists i :: 0 < i < |s| && s[i - 1] == '/' && s[i] == '/'
  }

  lemma {:induction false} NoDoubleSlash(s: string)
    requires forall i | 0 <= i < |Split(s, '/')| :: Split(s, '/')[i] != ""
    ensures s != "" && s[0] != '/' && !HasDoubleSlash(s)
    decreases |s|
  {
    assert Split(s, '/')[0] != "";
    if |s| > 1 {
      var rest := Split(s[1..], '/');
      if s[1] == '/' {
        assert rest == [""] + Split(s[2..], '/') by { assert s[1..][1..] == s[2..]; }
        assert Split(s, '/')[1..] == rest[1..] == Split(s[2..], '/');
        assert forall i | 0 <= i < |Split(s[2..], '/')| :: Split(s[2..], '/')[i] == Split(s, '/')[i + 1];
        NoDoubleSlash(s[2..]);
        assert forall i | 2 <= i < |s| :: s[i] == s[2..][i - 2];
      } else {
        assert rest[0] != "" by { assert s[1..][0] == s[1]; }
        assert forall i | 1 <= i < |rest| :: rest[i] == Split(s, '/')[i];
        NoDoubleSlash(s[1..]);
        assert forall i | 1 <= i < |s| :: s[i] == s[1..][i - 1];
      }
    }
  }

  method ValidPathPrefix(s: string) returns (ok: bool)
    ensures ok == PathPrefix(s)
  {
    if |s| < 2 || |s| > 128 || s[0] != '/' { return false; }
    CleanFixed(s);
    if Clean(s) != s { return false; }
    for i := 0 to |s|
      invariant forall k | 0 <= k < i :: PathChar(s[k])
    {
      var c := s[i];
      if !(c == '/' || c == '-' || c == '_' || 'a' <= c <= 'z' || 'A' <= c <= 'Z' || '0' <= c <= '9') { return false; }
    }
    // The test for a double slash adds nothing to the test against Clean.
    NoDoubleSlash(s[1..]);
    var double := false;
    for i := 1 to |s|
      invariant !double
    {
      assert i > 1 ==> s[i - 1] == s[1..][i - 2] && s[i] == s[1..][i - 1];
      if s[i - 1] == '/' && s[i] == '/' { double := true; }
    }
    return !double;
  }

  ghost predicate Valid(t: Target, pem: string -> bool) {
    && Plain(t, pem) && |t.routes| <= 8
    && (forall i | 0 <= i < |t.routes| ::
          PathPrefix(t.routes[i].prefix) && Plain(t.routes[i].target, pem) && t.routes[i].target.routes == [])
    && (forall i, j | 0 <= i < j < |t.routes| :: t.routes[i].prefix != t.routes[j].prefix)
  }

  method ValidateTarget(t: Target, pem: string -> bool) returns (ok: bool)
    ensures ok == Valid(t, pem)
  {
    var plain := CheckTarget(t, pem);
    if !plain || |t.routes| > 8 { return false; }
    var seen: set<string> := {};
    for k := 0 to |t.routes|
      invariant seen == set i | 0 <= i < k :: t.routes[i].prefix
      invariant forall i | 0 <= i < k ::
                  PathPrefix(t.routes[i].prefix) && Plain(t.routes[i].target, pem) && t.routes[i].target.routes == []
      invariant forall i, j | 0 <= i < j < k :: t.routes[i].prefix != t.routes[j].prefix
    {
      var r := t.routes[k];
      var valid := ValidPathPrefix(r.prefix);
      if !valid || r.prefix in seen || |r.target.routes| > 0 { return false; }
      seen := seen + {r.prefix};
      plain := CheckTarget(r.target, pem);
      if !plain { return false; }
    }
    return true;
  }

  // ---------- matching ----------

  // The path is the prefix, or goes on after it with a slash.
  predicate Matches(prefix: string, path: string) {
    path == prefix || prefix + "/" <= path
  }

  /** Matching keeps to segment boundaries: a prefix matches a path just when its segments
      are the path's first segments. */
  lemma MatchesSegments(prefix: string, path: string)
    requires Rooted(prefix) && Rooted(path)
    ensures Matches(prefix, path) <==> Segments(prefix) <= Segments(path)
  {
    var p, s := prefix[1..], path[1..];
    if prefix + "/" <= path {
      var rest := path[|prefix| + 1..];
      assert path == prefix + "/" + rest;
      assert s == p + "/" + rest;
      SplitAppend(p, rest, '/');
    }
    if Split(p, '/') <= Split(s, '/') {
      SegmentsPrefix(p, s);
      assert prefix == "/" + p && path == "/" + s;
    }
  }

  lemma SegmentsPrefix(p: string, s: string)
    requires Split(p, '/') <= Split(s, '/')
    ensures s == p || p + "/" <= s
  {
    JoinSplit(p, '/');
    JoinSplit(s, '/');
    var more := Split(s, '/')[|Split(p, '/')|..];
    assert Split(s, '/') == Split(p, '/') + more;
    if more == [] {
      assert Split(p, '/') + more == Split(p, '/');
    } else {
      JoinAppend(Split(p, '/'), more);
    }
  }

  lemma {:induction false} JoinAppend(a: seq<string>, b: seq<string>)
    requires a != [] && b != []
    ensures Join(a + b, '/') == Join(a, '/') + "/" + Join(b, '/')
    decreases |a|
  {
    assert (a + b)[1..] == a[1..] + b;
    if |a| > 1 {
      JoinAppend(a[1..], b);
      var rest, last := Join(a[1..], '/'), Join(b, '/');
      assert a[0] + "/" + (rest + "/" + last) == a[0] + "/" + rest + "/" + last;
    } else {
      assert a[1..] + b == b;
    }
  }

  // ---------- the request path ----------

  // One slash at the end is dropped.
  function Trimmed(path: string): string {
    if path != "" && path[|path| - 1] == '/' then path[..|path| - 1] else path
  }

  predicate Refused(c: char) {
    c == '\\' || c == '\0' || c == '\r' || c == '\n'
  }

  // What is served: a rooted path with one slash at its front and without control characters;
  // with routes, one whose segments are proper names, but for a slash at its end.
  ghost predicate Servable(routed: bool, path: string) {
    && Rooted(path) && !("//" <= path) && (forall c | c in path :: c !in {'\\', '\0', '\r', '\n'})
    && (routed ==>
          || path == "/" || AllProper(Segments(path))
          || (|path| > 1 && path[|path| - 1] == '/' && AllProper(Segments(path[..|path| - 1]))))
  }

  lemma {:induction false} WalkLast(parts: seq<string>, last: string, done: seq<string>)
    ensures Walk(parts + [last], done) == Kept(Walk(parts, done), last)
    decreases |parts|
  {
    if parts == [] {
      assert [last][1..] == [] && parts + [last] == [last];
      assert Walk([], Kept(done, last)) == Kept(done, last);
    } else {
      assert (parts + [last])[1..] == parts[1..] + [last];
      WalkLast(parts[1..], last, Kept(done, parts[0]));
    }
  }

  /** With routes, a path other than the root passes the test against its cleaning only if all
      its segments are proper names, but for one slash at its end. */
  lemma ServableSegments(path: string)
    requires Rooted(path) && !("//" <= path) && path != "/"
    ensures Rooted(Trimmed(path))
    ensures Clean(path) == Trimmed(path) <==>
            AllProper(Segments(path)) || (path[|path| - 1] == '/' && AllProper(Segments(path[..|path| - 1])))
  {
    var trimmed := Trimmed(path);
    if trimmed != path {
      assert path[0] == '/' && path == trimmed + "/";
      assert path[1..] == trimmed[1..] + "/" + "";
      SplitAppend(trimmed[1..], "", '/');
      WalkLast(Segments(trimmed), "", []);
      assert Segments(path)[|Segments(path)| - 1] == "";
    }
    CleanFixed(trimmed);
  }

  // ---------- the choice ----------

  predicate Covers(prefix: string, path: string)
    requires Rooted(path)
  {
    Rooted(prefix) && Segments(prefix) <= Segments(path)
  }

  predicate Longest(routes: seq<Route>, path: string, i: nat)
    requires Rooted(path) && i < |routes|
  {
    && Covers(routes[i].prefix, path)
    && forall j | 0 <= j < |routes| && j != i && Covers(routes[j].prefix, path) ::
         |Segments(routes[j].prefix)| < |Segments(routes[i].prefix)|
  }

  ghost predicate Chosen(t: Target, path: string, best: Target)
    requires Rooted(path)
  {
    if forall i | 0 <= i < |t.routes| :: !Covers(t.routes[i].prefix, path)
    then best == t.(routes := [])
    else exists i :: 0 <= i < |t.routes| && Longest(t.routes, path, i) && best == t.routes[i].target.(routes := [])
  }

  lemma LongerIsDeeper(a: string, b: string, path: string)
    requires Rooted(path) && Covers(a, path) && Covers(b, path) && a != b && |a| <= |b|
    ensures |Segments(a)| < |Segments(b)|
  {
    MatchesSegments(b, a);
    assert !Matches(b, a) && !(Segments(b) <= Segments(a));
  }

  // The loop's choice among the first k routes.
  predicate Leading(routes: seq<Route>, path: string, k: nat, i: nat) {
    && i < k <= |routes| && Matches(routes[i].prefix, path)
    && forall j | 0 <= j < k && Matches(routes[j].prefix, path) :: |routes[j].prefix| <= |routes[i].prefix|
  }

  lemma LeadingIsLongest(routes: seq<Route>, path: string, i: nat)
    requires Rooted(path) && Leading(routes, path, |routes|, i)
    requires forall j | 0 <= j < |routes| :: Rooted(routes[j].prefix)
    requires forall j, m | 0 <= j < m < |routes| :: routes[j].prefix != routes[m].prefix
    ensures Longest(routes, path, i)
  {
    MatchesSegments(routes[i].prefix, path);
    forall j | 0 <= j < |routes| && j != i && Covers(routes[j].prefix, path)
      ensures |Segments(routes[j].prefix)| < |Segments(routes[i].prefix)|
    {
      MatchesSegments(routes[j].prefix, path);
      LongerIsDeeper(routes[j].prefix, routes[i].prefix, path);
    }
  }

  method BestRoute(t: Target, path: string) returns (best: Target)
    requires Rooted(path) && forall j | 0 <= j < |t.routes| :: Rooted(t.routes[j].prefix)
    requires forall j, m | 0 <= j < m < |t.routes| :: t.routes[j].prefix != t.routes[m].prefix
    ensures Chosen(t, path, best.(routes := []))
  {
    best := t;
    var length: nat := 0;
    ghost var at: nat := 0;
    for k := 0 to |t.routes|
      invariant length == 0 ==> best == t && forall j | 0 <= j < k :: !Matches(t.routes[j].prefix, path)
      invariant length > 0 ==>
                  Leading(t.routes, path, k, at) && length == |t.routes[at].prefix| && best == t.routes[at].target
    {
      var r := t.routes[k];
      assert Rooted(t.routes[k].prefix) && |r.prefix| > 0;
      if Matches(r.prefix, path) && |r.prefix| > length {
        best, length, at := r.target, |r.prefix|, k;
      }
    }
    if length > 0 {
      LeadingIsLongest(t.routes, path, at);
    } else {
      forall j | 0 <= j < |t.routes| ensures !Covers(t.routes[j].prefix, path) {
        MatchesSegments(t.routes[j].prefix, path);
      }
    }
  }

  /** The target of a request is that of the route with the most segments that the path
      starts with, or the plain target when no route covers it. */
  method TargetForPath(t: Target, path: string, pem: string -> bool) returns (best: Option<Target>)
    ensures best.Some? <==> Valid(t, pem) && Servable(t.routes != [], path)
    ensures best.Some? ==> Chosen(t, path, best.value)
  {
    var valid := ValidateTarget(t, pem);
    if !valid { return None; }
    if !Rooted(path) || "//" <= path { return None; }
    for i := 0 to |path|
      invariant forall k | 0 <= k < i :: !Refused(path[k])
    {
      if Refused(path[i]) {
        assert path[i] in path;
        return None;
      }
    }
    if path != "/" { ServableSegments(path); }
    if |t.routes| > 0 && Clean(path) != Trimmed(path) && path != "/" { return None; }
    var chosen := BestRoute(t, path);
    return Some(chosen.(routes := []));
  }

  /** The order of the routes does not matter, and the choice is unique. */
  lemma OrderIrrelevant(t: Target, u: Target, path: string, a: Target, b: Target)
    requires Rooted(path) && u == t.(routes := u.routes)
    requires forall r :: r in t.routes <==> r in u.routes
    requires Chosen(t, path, a) && Chosen(u, path, b)
    ensures a == b
  {
    if i :| 0 <= i < |t.routes| && Covers(t.routes[i].prefix, path) {
      assert t.routes[i] in u.routes;
      var x :| 0 <= x < |t.routes| && Longest(t.routes, path, x) && a == t.routes[x].target.(routes := []);
      var y :| 0 <= y < |u.routes| && Longest(u.routes, path, y) && b == u.routes[y].target.(routes := []);
      var yt :| 0 <= yt < |t.routes| && t.routes[yt] == u.routes[y] by { assert u.routes[y] in t.routes; }
      var xu :| 0 <= xu < |u.routes| && u.routes[xu] == t.routes[x] by { assert t.routes[x] in u.routes; }
      assert yt == x || xu == y;
    } else {
      forall i | 0 <= i < |u.routes| ensures !Covers(u.routes[i].prefix, path) {
        assert u.routes[i] in t.routes;
      }
    }
  }
}
