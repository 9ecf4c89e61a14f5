/** Hand-off and wake-up in every reachable state of the App Access broker. */
module AccessHandoff {
  import opened Bytes
  import opened AccessTable
  import opened Certificates
  import opened AccessRuns
  import opened AccessAdmission

  // ---------- what no step takes back ----------

  // A channel keeps its binding, stays claimed and stays closed; whoever is not woken has
  // missed nothing.
  ghost predicate Onward(t: Table<nat>, u: Table<nat>) {
    && u.purpose == t.purpose && t.notify <= u.notify
    && (forall c | c in t.channels ::
          c in u.channels && u.channels[c].binding == t.channels[c].binding
          && (t.channels[c].claimed ==> u.channels[c].claimed) && (t.channels[c].closed ==> u.channels[c].closed))
    && (u.notify == t.notify ==>
          u.closed == t.closed &&
          forall c | c in u.connections && c in u.channels && u.channels[c].idle ::
            c in t.connections && c in t.channels && t.channels[c].idle)
  }

  lemma QuietOnward(t: Table<nat>, u: Table<nat>)
    requires Quiet(t, u)
    ensures Onward(t, u)
  {
  }

  lemma OnwardAccept(s: System, a: nat, move: AcceptMove)
    requires Accounted(s) && CanAccept(s, a, move)
    ensures Onward(s.t, DoAccept(s, a, move).t)
  {
    if move.Abandon? {
      CloseOnceQuiet(s.t, s.accepts[a].channel);
    }
  }

  lemma OnwardStep(s: System, step: Step)
    requires Accounted(s) && Can(s, step)
    ensures Onward(s.t, Do(s, step).t)
  {
    if step.OfAccept? {
      OnwardAccept(s, step.a, step.accept);
    } else if !Loud(step) {
      QuietStep(s, step);
      QuietOnward(s.t, Do(s, step).t);
    }
  }

  // ---------- monitors ----------

  // monitorDone is closed only after the peer's silence was cut short by a claim, or after
  // the channel is closed.
  ghost predicate Watched(s: System) {
    forall c | c in s.monitors && s.monitors[c].Finished? ::
      c in s.t.channels && if s.monitors[c].kept then s.monitors[c].end == TimedOut && s.t.channels[c].claimed
                           else s.t.channels[c].closed
  }

  ghost predicate FinishedStay(s: System, u: System) {
    forall c | c in s.monitors && s.monitors[c].Finished? :: c in u.monitors && u.monitors[c] == s.monitors[c]
  }

  lemma WatchedElsewhere(s: System, u: System)
    requires Watched(s) && Onward(s.t, u.t)
    requires forall c | c in u.monitors && u.monitors[c].Finished? :: c in s.monitors && s.monitors[c] == u.monitors[c]
    ensures Watched(u)
  {
  }

  lemma WatchedSpawn(s: System, a: nat)
    requires Accounted(s) && Watched(s) && CanAccept(s, a, Spawn)
    ensures Watched(DoAccept(s, a, Spawn)) && FinishedStay(s, DoAccept(s, a, Spawn))
  {
  }

  lemma WatchedMonitor(s: System, c: nat, move: MonitorMove)
    requires Accounted(s) && Watched(s) && CanMonitor(s, c, move)
    ensures Watched(DoMonitor(s, c, move)) && FinishedStay(s, DoMonitor(s, c, move))
  {
  }

  lemma WatchedKept(s: System, step: Step)
    requires Accounted(s) && Watched(s) && Can(s, step)
    ensures Watched(Do(s, step)) && FinishedStay(s, Do(s, step))
  {
    var u := Do(s, step);
    if step.OfMonitor? {
      WatchedMonitor(s, step.c, step.monitor);
    } else if step.OfAccept? && step.accept.Spawn? {
      WatchedSpawn(s, step.a);
    } else {
      assert u.monitors == s.monitors;
      OnwardStep(s, step);
      WatchedElsewhere(s, u);
    }
  }

  // ---------- dials ----------

  predicate Holds(d: Dialing) {
    d.Selected? || d.Returned?
  }

  ghost predicate Bound(s: System) {
    forall d | d in s.dials && Holds(s.dials[d]) ::
      var c := s.dials[d].channel;
      c in s.t.channels && s.t.channels[c].claimed && s.t.channels[c].binding == s.dials[d].binding
  }

  ghost predicate Waited(s: System) {
    forall d | d in s.dials && s.dials[d].Returned? ::
      s.dials[d].channel in s.monitors && s.monitors[s.dials[d].channel] == Finished(TimedOut, true)
  }

  ghost predicate Apart(s: System) {
    forall d, e | d in s.dials && e in s.dials && d != e && Holds(s.dials[d]) && Holds(s.dials[e]) ::
      s.dials[d].channel != s.dials[e].channel
  }

  // Every channel handed to a Dial has its binding, belongs to no other Dial, and is
  // returned only after its monitor ended by a timeout that the claim had caused.
  ghost predicate HandedOver(s: System) {
    Bound(s) && Waited(s) && Apart(s)
  }

  // A blocked Dial whose notify channel is still the current one has missed nothing.
  ghost predicate MissedNothing(t: Table<nat>, x: Dialing) {
    x.Blocked? ==>
      x.generation <= t.notify
      && (x.generation == t.notify ==> !t.closed && forall c | c in t.connections :: !Claimable(t, c, x.binding))
  }

  ghost predicate Awake(s: System) {
    forall d | d in s.dials :: MissedNothing(s.t, s.dials[d])
  }

  lemma DialsElsewhere(s: System, u: System)
    requires HandedOver(s) && Awake(s) && Onward(s.t, u.t) && FinishedStay(s, u) && u.dials == s.dials
    ensures HandedOver(u) && Awake(u)
  {
  }

  lemma HandedOverScan(s: System, d: nat, c: nat)
    requires Accounted(s) && HandedOver(s) && CanDial(s, d, Scan(Some(c)))
    ensures HandedOver(DoDial(s, d, Scan(Some(c))))
  {
  }

  // Only the final recheck returns a channel, the one selected, and only an open one.
  ghost predicate Rechecked(s: System, u: System, d: nat) {
    && u.dials.Keys == s.dials.Keys + {d}
    && (forall e | e in s.dials && e != d :: u.dials[e] == s.dials[e])
    && (Holds(u.dials[d]) ==>
          && d in s.dials && s.dials[d].Selected? && u.dials[d] == Returned(s.dials[d].binding, s.dials[d].channel)
          && s.dials[d].channel in s.monitors && s.monitors[s.dials[d].channel].Finished?
          && s.dials[d].channel in s.t.channels && !s.t.channels[s.dials[d].channel].closed)
  }

  lemma DialsChange(s: System, d: nat, move: DialMove)
    requires CanDial(s, d, move) && !(move.Scan? && move.choice.Some?)
    ensures Rechecked(s, DoDial(s, d, move), d)
  {
  }

  lemma BoundOthers(s: System, u: System, d: nat)
    requires Bound(s) && Quiet(s.t, u.t) && Rechecked(s, u, d)
    ensures Bound(u)
  {
  }

  lemma WaitedOthers(s: System, u: System, d: nat)
    requires Watched(s) && Bound(s) && Waited(s) && u.monitors == s.monitors && Rechecked(s, u, d)
    ensures Waited(u)
  {
  }

  lemma ApartOthers(s: System, u: System, d: nat)
    requires Apart(s) && Rechecked(s, u, d)
    ensures Apart(u)
  {
  }

  lemma HandedOverOthers(s: System, u: System, d: nat)
    requires Watched(s) && HandedOver(s) && Quiet(s.t, u.t) && u.monitors == s.monitors && Rechecked(s, u, d)
    ensures HandedOver(u)
  {
    BoundOthers(s, u, d);
    WaitedOthers(s, u, d);
    ApartOthers(s, u, d);
  }

  lemma HandedOverDial(s: System, d: nat, move: DialMove)
    requires Accounted(s) && Watched(s) && HandedOver(s) && CanDial(s, d, move) && !(move.Scan? && move.choice.Some?)
    ensures HandedOver(DoDial(s, d, move))
  {
    QuietDial(s, d, move);
    DialsChange(s, d, move);
    HandedOverOthers(s, DoDial(s, d, move), d);
  }

  lemma MissedNothingLater(t: Table<nat>, u: Table<nat>, x: Dialing)
    requires MissedNothing(t, x) && Onward(t, u)
    ensures MissedNothing(u, x)
  {
  }

  lemma NewlyBlocked(s: System, d: nat, move: DialMove)
    requires CanDial(s, d, move)
    ensures MissedNothing(DoDial(s, d, move).t, DoDial(s, d, move).dials[d])
    ensures DoDial(s, d, move).dials == s.dials[d := DoDial(s, d, move).dials[d]]
  {
  }

  lemma AwakeDial(s: System, d: nat, move: DialMove)
    requires Accounted(s) && Awake(s) && CanDial(s, d, move)
    ensures Awake(DoDial(s, d, move))
  {
    var u := DoDial(s, d, move);
    OnwardStep(s, OfDial(d, move));
    NewlyBlocked(s, d, move);
    forall e | e in u.dials ensures MissedNothing(u.t, u.dials[e]) {
      if e != d { MissedNothingLater(s.t, u.t, s.dials[e]); }
    }
  }

  ghost predicate Ordered(s: System) {
    Accounted(s) && Watched(s) && HandedOver(s) && Awake(s)
  }

  lemma OrderedKept(s: System, step: Step)
    requires Ordered(s) && Can(s, step)
    ensures Ordered(Do(s, step))
  {
    AccountedKept(s, step);
    WatchedKept(s, step);
    if step.OfDial? {
      if Loud(step) { HandedOverScan(s, step.d, step.dial.choice.value); } else { HandedOverDial(s, step.d, step.dial); }
      AwakeDial(s, step.d, step.dial);
    } else {
      OnwardStep(s, step);
      assert Do(s, step).dials == s.dials;
      DialsElsewhere(s, Do(s, step));
    }
  }

  lemma {:induction false} OrderedRun(s: System, steps: seq<Step>)
    requires Ordered(s) && CanRun(s, steps)
    ensures Ordered(Final(s, steps))
    decreases |steps|
  {
    if steps != [] {
      OrderedKept(s, steps[0]);
      OrderedRun(Do(s, steps[0]), steps[1..]);
    }
  }

  /** Hand-off safety: over every run no channel is returned by two calls of Dial, and a
      returned channel has exactly the binding asked for; its monitor had ended by a
      timeout, so that it took no byte from the peer. */
  lemma HandOffSafety(purpose: string, now: Time, steps: seq<Step>, d: nat)
    requires CanRun(Initial(purpose, now), steps)
    requires var s := Final(Initial(purpose, now), steps); d in s.dials && s.dials[d].Returned?
    ensures var s := Final(Initial(purpose, now), steps);
            var c := s.dials[d].channel;
            && c in s.t.channels && s.t.channels[c].binding == s.dials[d].binding
            && c in s.monitors && s.monitors[c] == Finished(TimedOut, true)
            && forall e | e in s.dials && e != d && Holds(s.dials[e]) :: s.dials[e].channel != c
  {
    InitiallyAccounted(purpose, now);
    OrderedRun(Initial(purpose, now), steps);
  }

  /** No lost wake-up: whenever a Dial is blocked on the current notify channel, the broker
      is not closed and no channel in the table could be claimed for it. */
  lemma NoLostWakeUp(purpose: string, now: Time, steps: seq<Step>, d: nat)
    requires CanRun(Initial(purpose, now), steps)
    requires var s := Final(Initial(purpose, now), steps); d in s.dials && s.dials[d].Blocked?
    ensures var s := Final(Initial(purpose, now), steps);
            s.dials[d].generation == s.t.notify ==>
              !s.t.closed
              && s.t.connections <= s.t.channels.Keys
              && forall c | c in s.t.connections :: !(s.t.channels[c].idle && s.t.channels[c].binding == s.dials[d].binding)
  {
    InitiallyAccounted(purpose, now);
    OrderedRun(Initial(purpose, now), steps);
  }

  /** The other half: an offer wakes every Dial that waits for its binding, and the woken
      Dial can claim the channel offered. */
  lemma OfferReachesDials(s: System, a: nat, d: nat)
    requires Ordered(s) && CanAccept(s, a, Offer) && !s.t.closed
    requires d in s.dials && s.dials[d].Blocked?
    requires var c := s.accepts[a].channel; c in s.t.connections && s.t.channels[c].binding == s.dials[d].binding
    ensures var u := DoAccept(s, a, Offer);
            && CanDial(u, d, Wake)
            && CanDial(DoDial(u, d, Wake), d, Scan(Some(s.accepts[a].channel)))
  {
  }
}
