/** Leases in every reachable state of the App Access broker: how stale an authority's answer
    can be, and how certificates bound every channel. */
module AccessLeases {
  import opened Bytes
  import opened AccessTable
  import opened Certificates
  import opened AccessRuns
  import opened AccessAdmission

  // The authority grants nothing after the moment end.
  ghost predicate RefusesAfter(s: System, steps: seq<Step>, end: Time)
    requires CanRun(s, steps)
    decreases |steps|
  {
    steps == [] ||
    ((Grants(steps[0]) ==> s.now <= end) && RefusesAfter(Do(s, steps[0]), steps[1..], end))
  }

  predicate Grants(step: Step) {
    (step.OfAccept? && step.accept.Decide?) || (step.OfRenewal? && step.renew.Grant?)
  }

  // ---------- what holds of each admission, channel and renewal ----------

  // A TLS request has well-formed chains, and every certificate in them outlives the lease.
  ghost predicate Vouched(tls: Option<Chains>, credential: Option<Time>, lease: Time) {
    tls.Some? ==>
      && AllDated(tls.value) && (exists i :: 0 <= i < |tls.value| && tls.value[i] != [])
      && credential.Some? && Covered(tls.value, credential.value) && lease <= credential.value
  }

  datatype Clock = Clock(now: Time, longest: Time, end: Time)

  function ClockOf(s: System, end: Time): Clock {
    Clock(s.now, MaxLease(s.t.purpose), end)
  }

  predicate LeaseInTime(lease: Time, k: Clock) {
    lease <= k.now + k.longest && lease < k.end + 2 * k.longest
  }

  ghost predicate AcceptInTime(x: Accept, k: Clock) {
    match x
    case Asking(_, _, _, start) => start <= k.now
    case Granted(_, _, _, start, _) => start <= k.now && start <= k.end
    case Checked(_, _, tls, credential, lease) => LeaseInTime(lease, k) && Vouched(tls, credential, lease)
    case _ => true
  }

  ghost predicate ChanInTime(c: Chan, tls: Option<Chains>, k: Clock) {
    LeaseInTime(c.expires, k) && Vouched(tls, c.credential, c.expires)
  }

  predicate RenewalInTime(r: Renewal, c: Chan, k: Clock) {
    match r
    case GrantedAgain(_) => c.expires <= k.end + k.longest
    case CheckedAgain(lease) => LeaseInTime(lease, k) && (c.credential.Some? ==> lease <= c.credential.value)
    case _ => true
  }

  ghost predicate InTime(s: System, end: Time) {
    && s.tls.Keys == s.t.channels.Keys
    && (forall a | a in s.accepts :: AcceptInTime(s.accepts[a], ClockOf(s, end)))
    && (forall c | c in s.t.channels :: ChanInTime(s.t.channels[c], s.tls[c], ClockOf(s, end)))
    && (forall c | c in s.renewals :: c in s.t.channels && RenewalInTime(s.renewals[c], s.t.channels[c], ClockOf(s, end)))
  }

  // ---------- one step ----------

  // No lease changes.
  ghost predicate SameLeases(t: Table<nat>, u: Table<nat>) {
    && u.purpose == t.purpose && u.channels.Keys == t.channels.Keys
    && forall c | c in t.channels ::
         u.channels[c].expires == t.channels[c].expires && u.channels[c].credential == t.channels[c].credential
  }

  lemma InTimeElsewhere(s: System, u: System, end: Time)
    requires InTime(s, end) && SameLeases(s.t, u.t) && u.now == s.now
    requires u.accepts == s.accepts && u.renewals == s.renewals && u.tls == s.tls
    ensures InTime(u, end)
  {
  }

  lemma InTimeTick(s: System, end: Time)
    requires InTime(s, end)
    ensures InTime(s.(now := s.now + 1), end)
  {
  }

  lemma SameLeasesAccept(s: System, a: nat, move: AcceptMove)
    requires CanAccept(s, a, move) && !move.Add?
    ensures SameLeases(s.t, DoAccept(s, a, move).t)
  {
  }

  /** Admission: a lease granted by the moment end, tested within the admission timeout. */
  lemma CheckInTime(x: Accept, purpose: string, credential: Option<Time>, now: Time, end: Time)
    requires x.Granted? && IsExpiry(x.tls, now, credential) && x.start <= end
    ensures var lease := CapCredentialLease(x.issued, credential);
            Admitted(purpose, x.start, x.issued, lease, now) ==>
              LeaseInTime(lease, Clock(now, MaxLease(purpose), end)) && Vouched(x.tls, credential, lease)
  {
    var lease := CapCredentialLease(x.issued, credential);
    if Admitted(purpose, x.start, x.issued, lease, now) && x.tls.Some? {
      CappedLease(x.tls.value, now, credential, x.issued);
    }
  }

  lemma MovedInTime(s: System, a: nat, move: AcceptMove, end: Time)
    requires InTime(s, end) && CanAccept(s, a, move) && (move.Decide? ==> s.now <= end)
    ensures AcceptInTime(DoAccept(s, a, move).accepts[a], ClockOf(s, end))
  {
    if move.Check? {
      assert AcceptInTime(s.accepts[a], ClockOf(s, end));
      CheckInTime(s.accepts[a], s.t.purpose, move.credential, s.now, end);
    }
  }

  lemma AddInTime(s: System, a: nat, c: nat, end: Time)
    requires Accounted(s) && InTime(s, end) && CanAccept(s, a, Add(c))
    ensures InTime(DoAccept(s, a, Add(c)), end)
  {
    assert AcceptInTime(s.accepts[a], ClockOf(s, end));
    InTimeAdded(s, DoAccept(s, a, Add(c)), a, c, NewChan(s.accepts[a]), end);
  }

  // A new channel that is in time, of an admission that needs to be so no longer.
  lemma InTimeAdded(s: System, u: System, a: nat, c: nat, chan: Chan, end: Time)
    requires Offered(s) && InTime(s, end) && c !in s.t.channels && a in s.accepts && s.accepts[a].Checked?
    requires u.now == s.now && u.renewals == s.renewals && u.accepts == s.accepts[a := Inserted(c)]
    requires u.tls == s.tls[c := s.accepts[a].tls]
    requires u.t.purpose == s.t.purpose && u.t.channels == s.t.channels[c := chan]
    requires ChanInTime(chan, s.accepts[a].tls, ClockOf(s, end))
    ensures InTime(u, end)
  {
    var k := ClockOf(s, end);
    forall b | b in u.accepts ensures AcceptInTime(u.accepts[b], k) {
      assert b == a || u.accepts[b] == s.accepts[b];
    }
    forall d | d in u.t.channels ensures ChanInTime(u.t.channels[d], u.tls[d], k) {
      assert d == c || (u.t.channels[d] == s.t.channels[d] && u.tls[d] == s.tls[d]);
    }
  }

  lemma NewRenewals(s: System, a: nat, move: AcceptMove)
    requires CanAccept(s, a, move)
    ensures forall c | c in DoAccept(s, a, move).renewals ::
              (c in s.renewals && DoAccept(s, a, move).renewals[c] == s.renewals[c])
              || (DoAccept(s, a, move).renewals[c] == Resting && HasChannel(s.accepts[a]) && c == s.accepts[a].channel)
  {
  }

  lemma InTimeMoved(s: System, u: System, a: nat, end: Time)
    requires InTime(s, end) && SameLeases(s.t, u.t) && u.now == s.now && u.tls == s.tls
    requires a in u.accepts && u.accepts == s.accepts[a := u.accepts[a]] && AcceptInTime(u.accepts[a], ClockOf(s, end))
    requires forall c | c in u.renewals :: (c in s.renewals && u.renewals[c] == s.renewals[c])
                                           || (c in s.t.channels && u.renewals[c] == Resting)
    ensures InTime(u, end)
  {
  }

  lemma InTimeAccept(s: System, a: nat, move: AcceptMove, end: Time)
    requires Accounted(s) && InTime(s, end) && CanAccept(s, a, move) && (move.Decide? ==> s.now <= end)
    ensures InTime(DoAccept(s, a, move), end)
  {
    if move.Add? {
      AddInTime(s, a, move.channel, end);
    } else {
      SameLeasesAccept(s, a, move);
      MovedInTime(s, a, move, end);
      NewRenewals(s, a, move);
      InTimeMoved(s, DoAccept(s, a, move), a, end);
    }
  }

  /** Renewal: only a lease that still runs is prolonged, so a grant by the moment end reaches
      less than two leases past it. */
  lemma TestInTime(purpose: string, c: Chan, issued: Time, now: Time, end: Time)
    requires c.expires <= end + MaxLease(purpose)
    ensures var lease := CapCredentialLease(issued, c.credential);
            Prolonged(purpose, c, issued, lease, now) ==>
              RenewalInTime(CheckedAgain(lease), c, Clock(now, MaxLease(purpose), end))
  {
  }

  lemma RenewalMoved(s: System, c: nat, move: RenewMove, end: Time)
    requires InTime(s, end) && CanRenew(s, c, move) && (move.Grant? ==> s.now <= end)
    ensures RenewalInTime(DoRenew(s, c, move).renewals[c], s.t.channels[c], ClockOf(s, end))
  {
    assert RenewalInTime(s.renewals[c], s.t.channels[c], ClockOf(s, end));
    if move.Test? {
      TestInTime(s.t.purpose, s.t.channels[c], s.renewals[c].issued, s.now, end);
    }
  }

  lemma ApplyInTime(s: System, c: nat, end: Time)
    requires InTime(s, end) && CanRenew(s, c, Apply)
    ensures InTime(DoRenew(s, c, Apply), end)
  {
    var u := DoRenew(s, c, Apply);
    assert ClockOf(u, end) == ClockOf(s, end);
    assert RenewalInTime(s.renewals[c], s.t.channels[c], ClockOf(s, end));
    assert ChanInTime(s.t.channels[c], s.tls[c], ClockOf(s, end));
  }

  lemma SameLeasesRenew(s: System, c: nat, move: RenewMove)
    requires CanRenew(s, c, move) && !move.Apply?
    ensures SameLeases(s.t, DoRenew(s, c, move).t)
    ensures DoRenew(s, c, move).renewals == s.renewals[c := DoRenew(s, c, move).renewals[c]]
  {
  }

  lemma InTimeRenew(s: System, c: nat, move: RenewMove, end: Time)
    requires InTime(s, end) && CanRenew(s, c, move) && (move.Grant? ==> s.now <= end)
    ensures InTime(DoRenew(s, c, move), end)
  {
    if move.Apply? {
      ApplyInTime(s, c, end);
    } else {
      SameLeasesRenew(s, c, move);
      RenewalMoved(s, c, move, end);
      assert ClockOf(DoRenew(s, c, move), end) == ClockOf(s, end);
    }
  }

  lemma SameLeasesMonitor(s: System, c: nat, move: MonitorMove)
    requires CanMonitor(s, c, move)
    ensures SameLeases(s.t, DoMonitor(s, c, move).t)
  {
  }

  lemma SameLeasesDial(s: System, d: nat, move: DialMove)
    requires CanDial(s, d, move)
    ensures SameLeases(s.t, DoDial(s, d, move).t)
  {
  }

  lemma SameLeasesClose(s: System, k: nat, move: CloserMove)
    requires CanClose(s, k, move)
    ensures SameLeases(s.t, DoClose(s, k, move).t)
  {
  }

  lemma SameLeasesOtherwise(s: System, step: Step)
    requires Can(s, step) && !step.OfAccept? && !step.OfRenewal? && !step.Tick?
    ensures SameLeases(s.t, Do(s, step).t)
  {
    match step
    case Turn =>
    case Close(c) =>
    case OfMonitor(c, move) => SameLeasesMonitor(s, c, move);
    case OfDial(d, move) => SameLeasesDial(s, d, move);
    case OfCloser(k, move) => SameLeasesClose(s, k, move);
  }

  lemma InTimeOtherwise(s: System, step: Step, end: Time)
    requires InTime(s, end) && Can(s, step) && !step.OfAccept? && !step.OfRenewal? && !step.Tick?
    ensures InTime(Do(s, step), end)
  {
    var u := Do(s, step);
    SameLeasesOtherwise(s, step);
    assert u.now == s.now && u.accepts == s.accepts && u.renewals == s.renewals && u.tls == s.tls;
    InTimeElsewhere(s, u, end);
  }

  lemma InTimeKept(s: System, step: Step, end: Time)
    requires Accounted(s) && InTime(s, end) && Can(s, step) && (Grants(step) ==> s.now <= end)
    ensures InTime(Do(s, step), end)
  {
    if step.Tick? {
      InTimeTick(s, end);
    } else if step.OfAccept? {
      InTimeAccept(s, step.a, step.accept, end);
    } else if step.OfRenewal? {
      InTimeRenew(s, step.c, step.renew, end);
    } else {
      InTimeOtherwise(s, step, end);
    }
  }

  lemma {:induction false} InTimeRun(s: System, steps: seq<Step>, end: Time)
    requires Accounted(s) && InTime(s, end) && CanRun(s, steps) && RefusesAfter(s, steps, end)
    ensures Accounted(Final(s, steps)) && InTime(Final(s, steps), end)
    decreases |steps|
  {
    if steps != [] {
      AccountedKept(s, steps[0]);
      InTimeKept(s, steps[0], end);
      InTimeRun(Do(s, steps[0]), steps[1..], end);
    }
  }

  /** The revocation bound: when the authority grants nothing after the moment end, every
      lease timer is due less than two maximal leases after end (eight seconds for a proxy,
      ten for an origin check), in every interleaving, and time passes that moment only with
      an empty table. */
  lemma RevocationBound(purpose: string, now: Time, steps: seq<Step>, end: Time)
    requires CanRun(Initial(purpose, now), steps) && RefusesAfter(Initial(purpose, now), steps, end)
    ensures var s := Final(Initial(purpose, now), steps);
            var bound := if purpose == "browser_proxy" || purpose == "beam_proxy" then 8000 else 10000;
            && (forall c | c in s.t.connections :: c in s.t.channels && s.t.channels[c].expires < end + bound)
            && (Can(s, Tick) && s.now + 1 >= end + bound ==> s.t.connections == {})
  {
    InitiallyAccounted(purpose, now);
    InTimeRun(Initial(purpose, now), steps, end);
    PurposeFixed(Initial(purpose, now), steps);
    var s := Final(Initial(purpose, now), steps);
    forall c | c in s.t.connections ensures c in s.t.channels && s.t.channels[c].expires < end + 2 * MaxLease(purpose) {
      assert ChanInTime(s.t.channels[c], s.tls[c], ClockOf(s, end));
    }
  }

  // A run of n steps takes at most n milliseconds.
  lemma {:induction false} EveryRunEnds(s: System, steps: seq<Step>, end: Time)
    requires CanRun(s, steps) && s.now + |steps| <= end
    ensures RefusesAfter(s, steps, end)
    decreases |steps|
  {
    if steps != [] {
      PurposeKept(s, steps[0]);
      assert |steps[1..]| == |steps| - 1;
      EveryRunEnds(Do(s, steps[0]), steps[1..], end);
    }
  }

  /** Certificates: in every reachable state a channel that came from a TLS request came with
      well-formed chains, and its lease ends no later than any certificate in them; no lease
      reaches further than the longest one from the present. */
  lemma CertificatesBound(purpose: string, now: Time, steps: seq<Step>, c: nat)
    requires CanRun(Initial(purpose, now), steps)
    requires c in Final(Initial(purpose, now), steps).t.channels
    ensures var s := Final(Initial(purpose, now), steps);
            && c in s.tls
            && s.t.channels[c].expires <= s.now + (if purpose == "browser_proxy" || purpose == "beam_proxy" then 4000 else 5000)
            && (s.tls[c].Some? ==>
                  && AllDated(s.tls[c].value) && (exists i :: 0 <= i < |s.tls[c].value| && s.tls[c].value[i] != [])
                  && Covered(s.tls[c].value, s.t.channels[c].expires))
  {
    var start := Initial(purpose, now);
    InitiallyAccounted(purpose, now);
    EveryRunEnds(start, steps, now + |steps|);
    InTimeRun(start, steps, now + |steps|);
    PurposeFixed(start, steps);
    var s := Final(start, steps);
    assert ChanInTime(s.t.channels[c], s.tls[c], ClockOf(s, now + |steps|));
  }
}
