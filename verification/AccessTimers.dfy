/** The two timers of an App Access channel and the tests against the clock, in milliseconds:
    what Accept and renew demand of the authority's answer, and which channels have an active
    deadline. */
module AccessTimers {
  import opened Bytes
  import opened AccessTable
  import opened Certificates
  import opened AccessRuns
  import opened AccessAdmission
  import opened AccessLeases

  // How far ahead an authority may grant.
  function Reach(purpose: string): Time {
    if purpose == "browser_proxy" || purpose == "beam_proxy" then 4000 else 5000
  }

  // ---------- the tests ----------

  /** Admission: the answer is taken exactly when it came within two seconds of the question,
      reaches into the future, also under the certificates, and no further than an authority
      may grant; the lease is then the smaller of answer and certificate expiry. */
  lemma CheckExactly(s: System, a: nat, credential: Option<Time>)
    requires CanAccept(s, a, Check(credential))
    ensures var x, y := s.accepts[a], DoAccept(s, a, Check(credential)).accepts[a];
            var lease := if credential.Some? && credential.value < x.issued then credential.value else x.issued;
            if s.now < x.start + 2000 && s.now < lease && x.issued <= s.now + Reach(s.t.purpose)
            then y == Checked(x.binding, x.serial, x.tls, credential, lease) else y == Failing(x.binding)
  {
  }

  /** Renewal: the answer is taken exactly when the old lease still runs and the same holds of
      the new one. */
  lemma TestExactly(s: System, c: nat)
    requires CanRenew(s, c, Test)
    ensures var chan, issued, y := s.t.channels[c], s.renewals[c].issued, DoRenew(s, c, Test).renewals[c];
            var lease := if chan.credential.Some? && chan.credential.value < issued then chan.credential.value else issued;
            y == if s.now < chan.expires && s.now < lease && issued <= s.now + Reach(s.t.purpose) then CheckedAgain(lease) else GivingUp
  {
  }

  /** The new lease replaces the old one exactly when the channel is open and the old lease has
      not run out meanwhile; nothing else of the table changes. */
  lemma ApplyExactly(s: System, c: nat)
    requires CanRenew(s, c, Apply)
    ensures var chan, u := s.t.channels[c], DoRenew(s, c, Apply);
            if !chan.closed && s.now < chan.expires
            then u.t == s.t.(channels := s.t.channels[c := chan.(expires := s.renewals[c].lease)]) && u.renewals[c] == Resting
            else u.t == s.t && u.renewals[c] == GivingUp
  {
  }

  /** The authority is asked again exactly while no active deadline has come. */
  lemma AskExactly(s: System, c: nat)
    requires c in s.renewals && c in s.t.channels && s.renewals[c] == Resting
    ensures CanRenew(s, c, Ask) <==> match s.t.channels[c].active case None => true case Some(deadline) => s.now < deadline
  {
  }

  // ---------- the active deadline ----------

  // Exactly the claimed channels of an origin check broker have one.
  ghost predicate Timed(s: System) {
    forall c | c in s.t.channels :: s.t.channels[c].active.Some? <==> s.t.purpose == "origin_check" && s.t.channels[c].claimed
  }

  lemma TimedAccept(s: System, a: nat, move: AcceptMove)
    requires Timed(s) && CanAccept(s, a, move)
    ensures Timed(DoAccept(s, a, move))
  {
  }

  lemma TimedKept(s: System, step: Step)
    requires Accounted(s) && Timed(s) && Can(s, step)
    ensures Timed(Do(s, step))
  {
    if step.OfAccept? {
      TimedAccept(s, step.a, step.accept);
    } else if !Loud(step) {
      QuietStep(s, step);
    }
  }

  lemma {:induction false} TimedRun(s: System, steps: seq<Step>)
    requires Accounted(s) && Timed(s) && CanRun(s, steps)
    ensures Accounted(Final(s, steps)) && Timed(Final(s, steps))
    decreases |steps|
  {
    if steps != [] {
      AccountedKept(s, steps[0]);
      TimedKept(s, steps[0]);
      TimedRun(Do(s, steps[0]), steps[1..]);
    }
  }

  /** In every reachable state a channel has an active deadline exactly when the broker is for
      origin checks and the channel has been claimed; and time can pass exactly as long as
      every lease in the table runs and no such deadline has come. */
  lemma ActiveExactly(purpose: string, now: Time, steps: seq<Step>)
    requires CanRun(Initial(purpose, now), steps)
    ensures var s := Final(Initial(purpose, now), steps);
            && (forall c | c in s.t.channels :: s.t.channels[c].active.Some? <==> purpose == "origin_check" && s.t.channels[c].claimed)
            && s.t.connections <= s.t.channels.Keys
            && (Can(s, Tick) <==> forall c | c in s.t.connections ::
                  s.now < s.t.channels[c].expires
                  && (purpose == "origin_check" && s.t.channels[c].claimed ==> s.now < s.t.channels[c].active.value))
  {
    InitiallyAccounted(purpose, now);
    TimedRun(Initial(purpose, now), steps);
    PurposeFixed(Initial(purpose, now), steps);
    var s := Final(Initial(purpose, now), steps);
    TicksWhile(s.t, s);
  }

  lemma TicksWhile(t: Table<nat>, s: System)
    requires Proper(t) && s.t == t && Timed(s)
    ensures Can(s, Tick) <==> forall c | c in t.connections ::
              s.now < t.channels[c].expires && (t.purpose == "origin_check" && t.channels[c].claimed ==> s.now < t.channels[c].active.value)
  {
    assert forall c | c in t.connections :: c in t.channels;
  }

  // ---------- the time an origin check may hold a channel ----------

  // A claimed channel keeps its deadline, and is in the table only until then.
  ghost predicate HeldUntil(s: System, c: nat, deadline: Time) {
    && c in s.t.channels && s.t.channels[c].claimed && s.t.channels[c].active == Some(deadline)
    && (c in s.t.connections ==> s.now <= deadline)
  }

  lemma HeldAccept(s: System, a: nat, move: AcceptMove, c: nat, deadline: Time)
    requires Accounted(s) && HeldUntil(s, c, deadline) && CanAccept(s, a, move)
    ensures HeldUntil(DoAccept(s, a, move), c, deadline)
  {
  }

  lemma HeldKept(s: System, step: Step, c: nat, deadline: Time)
    requires Accounted(s) && HeldUntil(s, c, deadline) && Can(s, step)
    ensures HeldUntil(Do(s, step), c, deadline)
  {
    if step.OfAccept? {
      HeldAccept(s, step.a, step.accept, c, deadline);
    } else if Loud(step) {
      assert step.dial.choice.value != c;
    } else {
      QuietStep(s, step);
    }
  }

  lemma {:induction false} HeldRun(s: System, steps: seq<Step>, c: nat, deadline: Time)
    requires Accounted(s) && HeldUntil(s, c, deadline) && CanRun(s, steps)
    ensures HeldUntil(Final(s, steps), c, deadline)
    decreases |steps|
  {
    if steps != [] {
      AccountedKept(s, steps[0]);
      HeldKept(s, steps[0], c, deadline);
      HeldRun(Do(s, steps[0]), steps[1..], c, deadline);
    }
  }

  /** The active bound: a channel of the origin_check broker that a Dial claims has its deadline
      ten seconds later, whatever happens in between, and is out of the table after it. */
  lemma ActiveBound(now: Time, before: seq<Step>, d: nat, c: nat, after: seq<Step>)
    requires CanRun(Initial(ORIGIN, now), before)
    requires Can(Final(Initial(ORIGIN, now), before), OfDial(d, Scan(Some(c))))
    requires CanRun(Do(Final(Initial(ORIGIN, now), before), OfDial(d, Scan(Some(c)))), after)
    ensures var s := Final(Initial(ORIGIN, now), before);
            var u := Final(Do(s, OfDial(d, Scan(Some(c)))), after);
            && c in u.t.channels && u.t.channels[c].active == Some(s.now + 10000)
            && (u.now > s.now + 10000 ==> c !in u.t.connections)
  {
    InitiallyAccounted(ORIGIN, now);
    AccountedRun(Initial(ORIGIN, now), before);
    PurposeFixed(Initial(ORIGIN, now), before);
    var s := Final(Initial(ORIGIN, now), before);
    AccountedKept(s, OfDial(d, Scan(Some(c))));
    HeldRun(Do(s, OfDial(d, Scan(Some(c)))), after, c, s.now + 10000);
  }
}
