/** The verdict of deploy/ipsec/gcp-cloud-dns-wire-probe.py on a full response (validate_answers):
    for each of its questions, exactly which answer sections it takes. */
module DnsAnswers {
  import opened Bytes
  import opened Sets
  import opened DnsName
  import opened DnsMessage

  datatype Profile = Profile(classic: bool, zone: string, target: Address, prefix: seq<byte>)

  // ---------- validate_answers ----------

  // The addresses from lo up to hi, hi not included, under the prefix.
  function Addresses(prefix: seq<byte>, lo: nat, hi: nat): (s: set<Address>)
    requires lo <= hi <= 256
    decreases hi
  {
    if lo == hi then {} else Addresses(prefix, lo, hi - 1) + {prefix + [hi - 1]}
  }

  lemma {:induction false} AddressesWithin(prefix: seq<byte>, lo: nat, hi: nat)
    requires lo <= hi <= 256
    ensures |Addresses(prefix, lo, hi)| == hi - lo
    ensures forall x | x in Addresses(prefix, lo, hi) :: prefix < x && |x| == |prefix| + 1 && lo <= x[|prefix|] < hi
    ensures forall n: byte | lo <= n < hi :: prefix + [n] in Addresses(prefix, lo, hi)
    decreases hi
  {
    if lo < hi {
      AddressesWithin(prefix, lo, hi - 1);
    }
  }

  lemma AddressesAre(prefix: seq<byte>, lo: nat, hi: nat)
    requires lo <= hi <= 256
    ensures |Addresses(prefix, lo, hi)| == hi - lo
    ensures forall x :: x in Addresses(prefix, lo, hi) <==> exists n: byte :: lo <= n < hi && x == prefix + [n]
  {
    AddressesWithin(prefix, lo, hi);
    forall x | x in Addresses(prefix, lo, hi) ensures exists n: byte :: lo <= n < hi && x == prefix + [n] {
      var n := x[|prefix|];
      assert x == prefix + [n];
    }
  }

  function Expected(profile: Profile, query: string): set<Address> {
    if query == "tc-large" then Addresses(profile.prefix, 100, 200)
    else if query == "large" then Addresses(profile.prefix, 100, 140)
    else {profile.target}
  }

  // None stands for the ValueError about the profile.
  function Validate(full: Reply, profile: Profile, query: string): Option<bool> {
    var owner, app := query + "." + profile.zone, "app." + profile.zone;
    if full.other != [] then Some(false)
    else if query == "nx-qualification" then
      Some(full.rcode == 3 && full.answerCount == 0 && full.a == [] && full.cname == [])
    else if full.rcode != 0 then Some(false)
    else if query == "alias" then
      Some(full.answerCount == 2 && full.cname == [(owner, app)] && full.a == [(app, profile.target)])
    else if query == "tc-large" && !profile.classic then None
    else
      var expected := Expected(profile, query);
      Some(&& Found(full.a) == expected
           && full.cname == []
           && (forall x | x in full.a :: x.0 == owner)
           && full.answerCount == |expected|)
  }

  // ---------- the records of an answer section ----------

  // An address record of the Internet class.
  predicate IsAddress(r: Record, owner: string, address: Address) {
    r.cls == 1 && r.kind == 1 && r.owner == owner && r.rdata == Raw(address)
  }

  predicate IsAlias(r: Record, owner: string, target: string) {
    r.cls == 1 && r.kind == 5 && r.owner == owner && r.rdata == Alias(target)
  }

  predicate IsOther(r: Record) {
    r.cls == 1 && r.kind != 1 && r.kind != 5
  }

  // Records whose data has the shape of an answer.
  predicate Shaped(rs: seq<Record>) { forall r | r in rs :: RecordOk(r, true) }

  lemma ShapedRest(rs: seq<Record>)
    requires Shaped(rs) && rs != []
    ensures Shaped(rs[1..]) && RecordOk(rs[0], true)
  {
    assert rs[0] in rs;
  }

  lemma {:induction false} Others(rs: seq<Record>)
    ensures OtherRecords(rs) != [] <==> exists i :: 0 <= i < |rs| && IsOther(rs[i])
    decreases |rs|
  {
    if rs != [] {
      Others(rs[1..]);
      if IsOther(rs[0]) {
      } else if i :| 0 <= i < |rs[1..]| && IsOther(rs[1..][i]) {
        assert IsOther(rs[i + 1]);
      }
      forall i | 0 < i < |rs| && IsOther(rs[i]) ensures OtherRecords(rs[1..]) != [] {
        assert IsOther(rs[1..][i - 1]);
      }
    }
  }

  lemma {:induction false} Counted(rs: seq<Record>)
    requires Shaped(rs)
    ensures |AddressRecords(rs)| + |AliasRecords(rs)| + |OtherRecords(rs)| <= |rs|
    ensures |AddressRecords(rs)| == |rs| ==> forall i | 0 <= i < |rs| :: rs[i].cls == 1 && rs[i].kind == 1
    decreases |rs|
  {
    if rs != [] {
      ShapedRest(rs);
      Counted(rs[1..]);
      forall i | 0 < i < |rs| ensures rs[i] == rs[1..][i - 1] {
      }
    }
  }

  lemma {:induction false} OnlyAddresses(rs: seq<Record>)
    requires Shaped(rs) && forall i | 0 <= i < |rs| :: rs[i].cls == 1 && rs[i].kind == 1
    ensures AliasRecords(rs) == [] && OtherRecords(rs) == [] && |AddressRecords(rs)| == |rs|
    ensures forall i | 0 <= i < |rs| :: IsAddress(rs[i], AddressRecords(rs)[i].0, AddressRecords(rs)[i].1)
    decreases |rs|
  {
    if rs != [] {
      ShapedRest(rs);
      OnlyAddresses(rs[1..]);
      forall i | 0 < i < |rs| ensures IsAddress(rs[i], AddressRecords(rs)[i].0, AddressRecords(rs)[i].1) {
        assert rs[i] == rs[1..][i - 1] && AddressRecords(rs)[i] == AddressRecords(rs[1..])[i - 1];
      }
    }
  }

  lemma FirstRecord(rs: seq<Record>)
    requires Shaped(rs) && rs != []
    ensures Shaped([rs[0]]) && Shaped(rs[1..])
    ensures AddressRecords(rs) == AddressRecords([rs[0]]) + AddressRecords(rs[1..])
    ensures AliasRecords(rs) == AliasRecords([rs[0]]) + AliasRecords(rs[1..])
    ensures OtherRecords(rs) == OtherRecords([rs[0]]) + OtherRecords(rs[1..])
  {
    ShapedRest(rs);
    OneRecord(rs[0]);
  }

  lemma TwoRecords(rs: seq<Record>)
    requires Shaped(rs) && |rs| == 2
    ensures Shaped([rs[0]]) && Shaped([rs[1]])
    ensures AddressRecords(rs) == AddressRecords([rs[0]]) + AddressRecords([rs[1]])
    ensures AliasRecords(rs) == AliasRecords([rs[0]]) + AliasRecords([rs[1]])
    ensures OtherRecords(rs) == OtherRecords([rs[0]]) + OtherRecords([rs[1]])
  {
    FirstRecord(rs);
    assert rs[1..] == [rs[1]];
  }

  lemma OneRecord(r: Record)
    requires RecordOk(r, true)
    ensures Shaped([r])
    ensures AddressRecords([r]) == if r.cls == 1 && r.kind == 1 then [(r.owner, r.rdata.bytes)] else []
    ensures AliasRecords([r]) == if r.cls == 1 && r.kind == 5 then [(r.owner, r.rdata.target)] else []
    ensures OtherRecords([r]) == if IsOther(r) then [(r.owner, r.kind)] else []
  {
    assert [r][1..] == [];
  }

  // ---------- sets and sequences of addresses ----------

  function Found(s: seq<(string, Address)>): set<Address> { set x | x in s :: x.1 }

  lemma LastFound(front: seq<(string, Address)>, last: (string, Address))
    ensures Found(front + [last]) == Found(front) + {last.1}
    ensures last.1 in Found(front) <==> exists i :: 0 <= i < |front| && front[i].1 == last.1
  {
    var s := front + [last];
    forall x | x in Found(front) + {last.1} ensures x in Found(s) {
      if x == last.1 { assert s[|front|] == last; } else { var y :| y in front && y.1 == x; assert y in s; }
    }
    if last.1 in Found(front) {
      var x :| x in front && x.1 == last.1;
      var i :| 0 <= i < |front| && front[i] == x;
    }
  }

  lemma {:induction false} AddressSetSize(s: seq<(string, Address)>)
    ensures |Found(s)| <= |s|
    ensures |Found(s)| == |s| <==> forall i, j | 0 <= i < j < |s| :: s[i].1 != s[j].1
    decreases |s|
  {
    if s != [] {
      var front, last := s[..|s| - 1], s[|s| - 1];
      assert s == front + [last];
      AddressSetSize(front);
      LastFound(front, last);
      Distinct(front, last, s);
    }
  }

  lemma Distinct(front: seq<(string, Address)>, last: (string, Address), s: seq<(string, Address)>)
    requires s == front + [last]
    ensures (forall i, j | 0 <= i < j < |s| :: s[i].1 != s[j].1) <==>
            (forall i, j | 0 <= i < j < |front| :: front[i].1 != front[j].1) && !exists i :: 0 <= i < |front| && front[i].1 == last.1
  {
    if forall i, j | 0 <= i < j < |s| :: s[i].1 != s[j].1 {
      forall i, j | 0 <= i < j < |front| ensures front[i].1 != front[j].1 { assert s[i].1 != s[j].1; }
      forall i | 0 <= i < |front| ensures front[i].1 != last.1 { assert s[i].1 != s[|front|].1; }
    }
  }

  lemma SameSize<T>(a: set<T>, b: set<T>)
    requires a <= b && |a| == |b|
    ensures a == b
  {
    if x :| x in b && x !in a {
      Fewer(a + {x}, b);
    }
  }

  // ---------- the verdicts ----------

  // Address records of owner, with each address of the range lo up to hi exactly once.
  ghost predicate EachOnce(rs: seq<Record>, owner: string, prefix: seq<byte>, lo: nat, hi: nat) {
    && |rs| == hi - lo
    && (forall i | 0 <= i < |rs| :: exists n: byte :: lo <= n < hi && IsAddress(rs[i], owner, prefix + [n]))
    && (forall i, j | 0 <= i < j < |rs| :: rs[i].rdata != rs[j].rdata)
  }

  // The answer section that each question calls for, and the return code.
  ghost predicate Right(rs: seq<Record>, rcode: nat, profile: Profile, query: string) {
    var owner, app := query + "." + profile.zone, "app." + profile.zone;
    match query
    case "nx-qualification" => rcode == 3 && rs == []
    case "alias" =>
      rcode == 0 && |rs| == 2 &&
      ((IsAlias(rs[0], owner, app) && IsAddress(rs[1], app, profile.target))
       || (IsAddress(rs[0], app, profile.target) && IsAlias(rs[1], owner, app)))
    case "large" => rcode == 0 && EachOnce(rs, owner, profile.prefix, 100, 140)
    case "tc-large" => rcode == 0 && EachOnce(rs, owner, profile.prefix, 100, 200)
    case _ => rcode == 0 && |rs| == 1 && IsAddress(rs[0], owner, profile.target)
  }

  // The one question that is refused outright: it is meant for the other profile.
  ghost predicate Misplaced(rs: seq<Record>, rcode: nat, profile: Profile, query: string) {
    query == "tc-large" && !profile.classic && rcode == 0 && forall i | 0 <= i < |rs| :: !IsOther(rs[i])
  }

  /** The verdict is exact: a response is accepted if and only if its answer section and its
      return code are the right ones for the question, whatever else it carries. */
  lemma ValidateExactly(m: Message, profile: Profile, query: string)
    requires MessageOk(m) && Shaped(m.answers)
    ensures var rcode := m.flags % 16;
            Validate(ReplyOf(m), profile, query) ==
            if Misplaced(m.answers, rcode, profile, query) then None else Some(Right(m.answers, rcode, profile, query))
  {
    var rs := m.answers;
    Others(rs);
    Counted(rs);
    if OtherRecords(rs) != [] {
      OthersWrong(rs, m.flags % 16, profile, query);
    } else if query == "nx-qualification" {
    } else if m.flags % 16 != 0 {
    } else if query == "alias" {
      AliasExactly(rs, query + "." + profile.zone, "app." + profile.zone, profile.target);
    } else if query == "tc-large" {
      LargeExactly(rs, query + "." + profile.zone, profile.prefix, 100, 200);
    } else if query == "large" {
      LargeExactly(rs, query + "." + profile.zone, profile.prefix, 100, 140);
    } else {
      PlainExactly(rs, query + "." + profile.zone, profile.target);
    }
  }

  lemma OthersWrong(rs: seq<Record>, rcode: nat, profile: Profile, query: string)
    requires exists i :: 0 <= i < |rs| && IsOther(rs[i])
    ensures !Right(rs, rcode, profile, query) && !Misplaced(rs, rcode, profile, query)
  {
    var i :| 0 <= i < |rs| && IsOther(rs[i]);
  }

  lemma AliasExactly(rs: seq<Record>, owner: string, app: string, target: Address)
    requires Shaped(rs)
    ensures |rs| == 2 && AliasRecords(rs) == [(owner, app)] && AddressRecords(rs) == [(app, target)] <==>
            |rs| == 2 && ((IsAlias(rs[0], owner, app) && IsAddress(rs[1], app, target))
                          || (IsAddress(rs[0], app, target) && IsAlias(rs[1], owner, app)))
  {
    if |rs| == 2 {
      TwoRecords(rs);
      assert rs[0] in rs && rs[1] in rs;
      OneRecord(rs[0]);
      OneRecord(rs[1]);
      Singles(AddressRecords([rs[0]]), AddressRecords([rs[1]]), (app, target));
      Singles(AliasRecords([rs[0]]), AliasRecords([rs[1]]), (owner, app));
    }
  }

  // A sequence of one element in two parts.
  lemma Singles<T>(a: seq<T>, b: seq<T>, x: T)
    ensures a + b == [x] <==> (a == [x] && b == []) || (a == [] && b == [x])
  {
    if a + b == [x] {
      assert |a| + |b| == 1;
      if |a| == 1 { assert a[0] == (a + b)[0]; } else { assert b[0] == (a + b)[0]; }
    }
  }

  lemma PlainExactly(rs: seq<Record>, owner: string, target: Address)
    requires Shaped(rs)
    ensures (&& Found(AddressRecords(rs)) == {target} && AliasRecords(rs) == []
             && (forall x | x in AddressRecords(rs) :: x.0 == owner) && |rs| == |{target}|)
            <==> |rs| == 1 && IsAddress(rs[0], owner, target)
  {
    if |rs| == 1 {
      assert rs == [rs[0]] && rs[0] in rs;
      OneRecord(rs[0]);
      var found := Found(AddressRecords(rs));
      if IsAddress(rs[0], owner, target) {
        assert AddressRecords(rs) == [(owner, target)];
        assert found == {target};
      } else if found == {target} {
        assert target in found;
      }
    }
  }

  lemma LargeExactly(rs: seq<Record>, owner: string, prefix: seq<byte>, lo: nat, hi: nat)
    requires Shaped(rs) && lo < hi <= 256
    ensures var expected := Addresses(prefix, lo, hi);
            (&& Found(AddressRecords(rs)) == expected && AliasRecords(rs) == []
             && (forall x | x in AddressRecords(rs) :: x.0 == owner) && |rs| == |expected|)
            <==> EachOnce(rs, owner, prefix, lo, hi)
  {
    AddressesAre(prefix, lo, hi);
    Counted(rs);
    AddressSetSize(AddressRecords(rs));
    if forall i | 0 <= i < |rs| :: rs[i].cls == 1 && rs[i].kind == 1 { OnlyAddresses(rs); }
    if EachOnce(rs, owner, prefix, lo, hi) { EachOnceAccepted(rs, owner, prefix, lo, hi); }
    var found := Found(AddressRecords(rs));
    if found == Addresses(prefix, lo, hi) && (forall x | x in AddressRecords(rs) :: x.0 == owner) && |rs| == hi - lo {
      AcceptedEachOnce(rs, owner, prefix, lo, hi);
    }
  }

  lemma AcceptedEachOnce(rs: seq<Record>, owner: string, prefix: seq<byte>, lo: nat, hi: nat)
    requires Shaped(rs) && lo < hi <= 256 && |rs| == hi - lo
    requires Found(AddressRecords(rs)) == Addresses(prefix, lo, hi)
    requires forall x | x in AddressRecords(rs) :: x.0 == owner
    ensures EachOnce(rs, owner, prefix, lo, hi)
  {
    var records := AddressRecords(rs);
    AddressesAre(prefix, lo, hi);
    Counted(rs);
    AddressSetSize(records);
    OnlyAddresses(rs);
    forall i | 0 <= i < |rs| ensures exists n: byte :: lo <= n < hi && IsAddress(rs[i], owner, prefix + [n]) {
      assert records[i] in records;
      assert records[i].1 in Addresses(prefix, lo, hi);
      var n: byte :| lo <= n < hi && records[i].1 == prefix + [n];
      assert IsAddress(rs[i], owner, prefix + [n]);
    }
  }

  lemma EachOnceAccepted(rs: seq<Record>, owner: string, prefix: seq<byte>, lo: nat, hi: nat)
    requires Shaped(rs) && lo < hi <= 256 && EachOnce(rs, owner, prefix, lo, hi)
    ensures Found(AddressRecords(rs)) == Addresses(prefix, lo, hi) && AliasRecords(rs) == []
    ensures forall x | x in AddressRecords(rs) :: x.0 == owner
  {
    var records := AddressRecords(rs);
    AddressesAre(prefix, lo, hi);
    OnlyAddresses(rs);
    forall i | 0 <= i < |rs| ensures records[i].0 == owner && records[i].1 in Addresses(prefix, lo, hi) {
      var n: byte :| lo <= n < hi && IsAddress(rs[i], owner, prefix + [n]);
    }
    AddressSetSize(records);
    SameSize(Found(records), Addresses(prefix, lo, hi));
  }

  /** From the octets: a full response that is read is judged by the answers it carries. */
  lemma VerdictExactly(data: seq<byte>, id: nat, name: string, profile: Profile, query: string) returns (m: Message)
    requires Meaning(data, id, name, true).Some?
    ensures Responds(m, id, Lower(name)) && Carries(data, m)
    ensures Validate(Meaning(data, id, name, true).value, profile, query) ==
            if Misplaced(m.answers, m.flags % 16, profile, query) then None else Some(Right(m.answers, m.flags % 16, profile, query))
  {
    m := MessageSpelled(data, id, name);
    ReadsEveryMessage(data, m, id, name);
    ValidateExactly(m, profile, query);
  }
}
