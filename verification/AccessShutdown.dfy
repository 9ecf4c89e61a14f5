/** Shutdown of the App Access broker, in every interleaving, and the progress of time. */
module AccessShutdown {
  import opened Bytes
  import opened AccessTable
  import opened AccessRuns
  import opened AccessAdmission

  // Every channel still in the table is on the list of every call of Broker.Close.
  ghost predicate Listed(s: System) {
    forall k | k in s.closers :: s.t.closed && s.t.connections <= s.closers[k]
  }

  // Once closed, a broker stays closed and its table only shrinks.
  ghost predicate Shrinks(t: Table<nat>, u: Table<nat>) {
    t.closed ==> u.closed && u.connections <= t.connections
  }

  lemma ShrinksAccept(s: System, a: nat, move: AcceptMove)
    requires Accounted(s) && CanAccept(s, a, move)
    ensures Shrinks(s.t, DoAccept(s, a, move).t)
  {
  }

  lemma ShrinksStep(s: System, step: Step)
    requires Accounted(s) && Can(s, step)
    ensures Shrinks(s.t, Do(s, step).t)
  {
    if step.OfAccept? {
      ShrinksAccept(s, step.a, step.accept);
    } else if Loud(step) {
    } else {
      QuietStep(s, step);
    }
  }

  lemma ListedClose(s: System, k: nat, move: CloserMove)
    requires Accounted(s) && Listed(s) && CanClose(s, k, move)
    ensures Listed(DoClose(s, k, move))
  {
  }

  lemma ListedKept(s: System, step: Step)
    requires Accounted(s) && Listed(s) && Can(s, step)
    ensures Listed(Do(s, step))
  {
    if step.OfCloser? {
      ListedClose(s, step.k, step.closer);
    } else {
      ShrinksStep(s, step);
      assert Do(s, step).closers == s.closers;
    }
  }

  lemma {:induction false} ListedRun(s: System, steps: seq<Step>)
    requires Accounted(s) && Listed(s) && CanRun(s, steps)
    ensures Accounted(Final(s, steps)) && Listed(Final(s, steps)) && Shrinks(s.t, Final(s, steps).t)
    decreases |steps|
  {
    if steps != [] {
      AccountedKept(s, steps[0]);
      ListedKept(s, steps[0]);
      ShrinksStep(s, steps[0]);
      ListedRun(Do(s, steps[0]), steps[1..]);
    }
  }

  /** Clean shutdown: from any reachable state in which the broker is closed, whatever
      follows inserts no channel; and when a call of Broker.Close has closed all it had
      listed, the table is empty. */
  lemma CleanShutdown(purpose: string, now: Time, before: seq<Step>, after: seq<Step>)
    requires CanRun(Initial(purpose, now), before)
    requires CanRun(Final(Initial(purpose, now), before), after)
    ensures var s := Final(Initial(purpose, now), before);
            var u := Final(s, after);
            && (s.t.closed ==> u.t.closed && u.t.connections <= s.t.connections)
            && (forall k | k in u.closers :: u.t.closed && (u.closers[k] == {} ==> u.t.connections == {}))
  {
    InitiallyAccounted(purpose, now);
    ListedRun(Initial(purpose, now), before);
    ListedRun(Final(Initial(purpose, now), before), after);
  }

  // Closing every channel on the list, one after another.
  ghost function CloseEach(cs: seq<nat>): seq<Step> {
    if cs == [] then [] else [Close(cs[0])] + CloseEach(cs[1..])
  }

  lemma Closed(s: System, c: nat)
    requires Accounted(s) && c in s.t.channels
    ensures Can(s, Close(c))
    ensures var u := Do(s, Close(c));
            Accounted(u) && u.now == s.now && u.t.channels.Keys == s.t.channels.Keys && c !in u.t.connections && Remains(s, u)
  {
    AccountedKept(s, Close(c));
    CloseOnceQuiet(s.t, c);
  }

  // What is left in the table is as it was.
  ghost predicate Remains(s: System, u: System) {
    forall c | c in u.t.connections ::
      c in s.t.connections && c in u.t.channels && c in s.t.channels && u.t.channels[c] == s.t.channels[c]
  }

  lemma {:induction false} CloseEachRuns(s: System, cs: seq<nat>)
    requires Accounted(s) && forall i | 0 <= i < |cs| :: cs[i] in s.t.channels
    ensures CanRun(s, CloseEach(cs))
    ensures var u := Final(s, CloseEach(cs));
            u.now == s.now && (forall i | 0 <= i < |cs| :: cs[i] !in u.t.connections) && Remains(s, u)
    decreases |cs|
  {
    if cs != [] {
      var next := Do(s, Close(cs[0]));
      Closed(s, cs[0]);
      CloseEachRuns(next, cs[1..]);
      assert CloseEach(cs)[1..] == CloseEach(cs[1..]);
      assert forall i | 0 < i < |cs| :: cs[i] == cs[1..][i - 1];
    }
  }

  lemma {:induction false} Enumerate(cs: set<nat>) returns (list: seq<nat>)
    ensures forall c :: c in cs <==> exists i :: 0 <= i < |list| && list[i] == c
  {
    if cs == {} {
      list := [];
    } else {
      var c :| c in cs;
      var rest := Enumerate(cs - {c});
      list := [c] + rest;
      forall d | d in cs ensures exists i :: 0 <= i < |list| && list[i] == d {
        if d == c {
          assert list[0] == d;
        } else {
          assert d in cs - {c};
          var j :| 0 <= j < |rest| && rest[j] == d;
          assert list[j + 1] == d;
        }
      }
    }
  }

  predicate Due(c: Chan, now: Time) {
    c.expires <= now || (c.active.Some? && c.active.value <= now)
  }

  /** Urgent timers never stop the clock: from every reachable state, closing the channels
      whose timers are due leads, within the present moment, to a state where time can pass. */
  lemma TimeCanPass(s: System) returns (steps: seq<Step>)
    requires Accounted(s)
    ensures CanRun(s, steps) && Final(s, steps).now == s.now && Can(Final(s, steps), Tick)
    ensures forall c | c in s.t.connections && !Due(s.t.channels[c], s.now) :: Close(c) !in steps
  {
    var due := set c | c in s.t.connections && Due(s.t.channels[c], s.now);
    var list := Enumerate(due);
    assert forall i | 0 <= i < |list| :: list[i] in due;
    steps := CloseEach(list);
    CloseEachRuns(s, list);
    OnlyClosed(list);
    var u := Final(s, steps);
    forall c | c in due ensures c !in u.t.connections {
      var i :| 0 <= i < |list| && list[i] == c;
    }
    forall c | c in u.t.connections ensures !Due(u.t.channels[c], u.now) {
      assert c !in due;
    }
  }

  lemma {:induction false} OnlyClosed(cs: seq<nat>)
    ensures forall c :: Close(c) in CloseEach(cs) ==> c in cs
    decreases |cs|
  {
    if cs != [] { OnlyClosed(cs[1..]); }
  }
}
