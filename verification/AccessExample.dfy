/** The broker at work: a run in which a channel is admitted and handed over, so that what is
    proved of all runs is not proved of none. */
module AccessExample {
  import opened Bytes
  import opened AccessTable
  import opened Certificates
  import opened AccessRuns

  const B := Binding("org", "gateway", "app", "1", "digest", ORIGIN, 1, "host", 1)

  lemma {:induction false} Extend(s: System, steps: seq<Step>, step: Step)
    requires CanRun(s, steps) && Can(Final(s, steps), step)
    ensures CanRun(s, steps + [step]) && Final(s, steps + [step]) == Do(Final(s, steps), step)
    decreases |steps|
  {
    if steps != [] {
      assert (steps + [step])[1..] == steps[1..] + [step];
      Extend(Do(s, steps[0]), steps[1..], step);
    } else {
      assert steps + [step] == [step] && [step][1..] == [];
    }
  }

  lemma Admission() returns (steps: seq<Step>)
    ensures CanRun(Initial(ORIGIN, 0), steps)
    ensures var s := Final(Initial(ORIGIN, 0), steps);
            && s.now == 0 && !s.t.closed && s.t.channels == map[] && s.t.connections == {}
            && s.t.purpose == ORIGIN && s.dials == map[] && s.monitors == map[]
            && s.renewals == map[] && s.accepts == map[0 := Checked(B, "serial", None, None, 5000)]
  {
    var s := Initial(ORIGIN, 0);
    assert Admissible(s.t, B) by {
      assert Waiting(s.t.reserved, Exactly(B)) == {} && Open(s.t.channels, s.t.connections, Exactly(B)) == {};
    }
    steps := [];
    Extend(s, steps, OfAccept(0, Enter(B, "serial", None)));
    steps := steps + [OfAccept(0, Enter(B, "serial", None))];
    Extend(s, steps, OfAccept(0, Begin));
    steps := steps + [OfAccept(0, Begin)];
    Extend(s, steps, OfAccept(0, Decide(5000)));
    steps := steps + [OfAccept(0, Decide(5000))];
    Extend(s, steps, OfAccept(0, Check(None)));
    steps := steps + [OfAccept(0, Check(None))];
  }

  lemma Adding() returns (steps: seq<Step>)
    ensures CanRun(Initial(ORIGIN, 0), steps)
    ensures var s := Final(Initial(ORIGIN, 0), steps);
            && s.now == 0 && !s.t.closed && s.t.purpose == ORIGIN && s.dials == map[] && s.monitors == map[]
            && s.renewals == map[] && s.accepts == map[0 := Inserted(0)] && s.t.connections == {0}
            && s.t.channels == map[0 := Chan(B, "serial", None, 5000, false, false, false, None)]
  {
    steps := Admission();
    Extend(Initial(ORIGIN, 0), steps, OfAccept(0, Add(0)));
    steps := steps + [OfAccept(0, Add(0))];
  }

  lemma Offering() returns (steps: seq<Step>)
    ensures CanRun(Initial(ORIGIN, 0), steps)
    ensures var s := Final(Initial(ORIGIN, 0), steps);
            && s.now == 0 && !s.t.closed && s.t.purpose == ORIGIN && s.dials == map[] && s.monitors == map[0 := Reading]
            && s.t.connections == {0} && s.t.channels == map[0 := Chan(B, "serial", None, 5000, true, false, false, None)]
            && s.renewals == map[0 := Resting]
  {
    var s := Initial(ORIGIN, 0);
    steps := Adding();
    Extend(s, steps, OfAccept(0, Spawn));
    steps := steps + [OfAccept(0, Spawn)];
    Extend(s, steps, OfAccept(0, Offer));
    steps := steps + [OfAccept(0, Offer)];
  }

  lemma Claiming() returns (steps: seq<Step>)
    ensures CanRun(Initial(ORIGIN, 0), steps)
    ensures var s := Final(Initial(ORIGIN, 0), steps);
            && s.dials == map[0 := Selected(B, 0)] && s.monitors == map[0 := Reading]
            && 0 in s.t.channels && s.t.channels[0].claimed && !s.t.channels[0].closed
  {
    var s := Initial(ORIGIN, 0);
    steps := Offering();
    Extend(s, steps, OfDial(0, Call(B)));
    steps := steps + [OfDial(0, Call(B))];
    Extend(s, steps, OfDial(0, Scan(Some(0))));
    steps := steps + [OfDial(0, Scan(Some(0)))];
  }

  /** A channel is admitted, offered, claimed and returned. */
  lemma HandOverHappens() returns (steps: seq<Step>)
    ensures CanRun(Initial(ORIGIN, 0), steps) && Final(Initial(ORIGIN, 0), steps).dials == map[0 := Returned(B, 0)]
  {
    var s := Initial(ORIGIN, 0);
    steps := Claiming();
    Extend(s, steps, OfMonitor(0, EndRead(TimedOut)));
    steps := steps + [OfMonitor(0, EndRead(TimedOut))];
    Extend(s, steps, OfMonitor(0, Look));
    steps := steps + [OfMonitor(0, Look)];
    Extend(s, steps, OfDial(0, Recheck));
    steps := steps + [OfDial(0, Recheck)];
  }

  /** A lease is renewed: asked for again, granted, tested and taken. */
  lemma RenewalHappens() returns (steps: seq<Step>)
    ensures CanRun(Initial(ORIGIN, 0), steps)
    ensures var t := Final(Initial(ORIGIN, 0), steps).t;
            t.connections == {0} && 0 in t.channels && t.channels[0].expires == 4500
  {
    var s := Initial(ORIGIN, 0);
    steps := Offering();
    Extend(s, steps, OfRenewal(0, Ask));
    steps := steps + [OfRenewal(0, Ask)];
    Extend(s, steps, OfRenewal(0, Grant(4500)));
    steps := steps + [OfRenewal(0, Grant(4500))];
    Extend(s, steps, OfRenewal(0, Test));
    steps := steps + [OfRenewal(0, Test)];
    Extend(s, steps, OfRenewal(0, Apply));
    steps := steps + [OfRenewal(0, Apply)];
  }
}
