/** Admission accounting in every reachable state of the App Access broker. */
module AccessAdmission {
  import opened Bytes
  import opened AccessTable
  import opened Certificates
  import opened AccessRuns

  // The reservations of the table are exactly the admissions that have not released theirs.
  ghost predicate Ledger(accepts: map<nat, Accept>, reserved: map<nat, Binding>) {
    && (forall a | a in reserved :: a in accepts)
    && (forall a | a in accepts :: Holding(accepts[a]) <==> a in reserved)
    && (forall a | a in accepts && Holding(accepts[a]) :: reserved[a] == accepts[a].binding)
  }

  predicate HasChannel(a: Accept) {
    a.Inserted? || a.Spawned?
  }

  // A channel is offered once, by the admission that made it, after its goroutines started.
  ghost predicate Offered(s: System) {
    && s.monitors.Keys <= s.t.channels.Keys && s.renewals.Keys <= s.t.channels.Keys
    && (forall a | a in s.accepts && HasChannel(s.accepts[a]) ::
          var c := s.accepts[a].channel;
          c in s.t.channels && !s.t.channels[c].claimed && !s.t.channels[c].idle
          && (c in s.monitors <==> s.accepts[a].Spawned?))
    && (forall a, b | a in s.accepts && b in s.accepts && a != b && HasChannel(s.accepts[a]) && HasChannel(s.accepts[b]) ::
          s.accepts[a].channel != s.accepts[b].channel)
    && (forall c | c in s.t.channels && (s.t.channels[c].idle || s.t.channels[c].claimed) :: c in s.monitors)
  }

  ghost predicate Accounted(s: System) {
    Proper(s.t) && Within(s.t) && Ledger(s.accepts, s.t.reserved) && Offered(s)
  }

  // ---------- the table ----------

  lemma CloseOnceKeeps(t: Table<nat>, c: nat)
    requires Proper(t) && Within(t)
    ensures Proper(CloseOnce(t, c)) && Within(CloseOnce(t, c))
  {
    if c in t.channels { CloseChannelKeeps(t, c); }
  }

  lemma QuietKeeps(t: Table<nat>, u: Table<nat>)
    requires Proper(t) && Within(t) && Quiet(t, u)
    ensures Proper(u) && Within(u)
  {
    LoadFalls(t, u);
  }

  lemma TableOfAccept(s: System, a: nat, move: AcceptMove)
    requires Accounted(s) && CanAccept(s, a, move)
    ensures Proper(DoAccept(s, a, move).t) && Within(DoAccept(s, a, move).t)
  {
    match move
    case Enter(b, _, _) => ReserveKeeps(s.t, a, b);
    case Begin =>
    case Decide(_) =>
    case Check(_) =>
    case Fail =>
    case Unreserve => ReleaseKeeps(s.t, a);
    case Add(c) => InsertKeeps(s.t, a, c, NewChan(s.accepts[a]));
    case Spawn =>
    case Abandon => CloseOnceKeeps(s.t, s.accepts[a].channel);
    case Offer => MarkIdleKeeps(s.t, s.accepts[a].channel);
  }

  // The reservation of an admission follows its state.
  lemma LedgerMoved(accepts: map<nat, Accept>, reserved: map<nat, Binding>, a: nat, x: Accept)
    requires Ledger(accepts, reserved)
    ensures Holding(x) ==> Ledger(accepts[a := x], reserved[a := x.binding])
    ensures !Holding(x) ==> Ledger(accepts[a := x], reserved - {a})
  {
  }

  lemma ReservedAfter(s: System, a: nat, move: AcceptMove)
    requires CanAccept(s, a, move)
    ensures DoAccept(s, a, move).t.reserved ==
            match move
            case Enter(b, _, _) => s.t.reserved[a := b]
            case Unreserve | Add(_) => s.t.reserved - {a}
            case _ => s.t.reserved
  {
  }

  lemma LedgerOfAccept(s: System, a: nat, move: AcceptMove)
    requires Ledger(s.accepts, s.t.reserved) && CanAccept(s, a, move)
    ensures Ledger(DoAccept(s, a, move).accepts, DoAccept(s, a, move).t.reserved)
  {
    ReservedAfter(s, a, move);
    LedgerMoved(s.accepts, s.t.reserved, a, DoAccept(s, a, move).accepts[a]);
  }

  predicate Unmade(move: AcceptMove) {
    !move.Add? && !move.Spawn? && !move.Abandon? && !move.Offer?
  }

  // An admission moved on that has no channel yet, or no longer any part in one.
  ghost predicate Unchannelled(s: System, u: System, a: nat) {
    && u.t.channels == s.t.channels && u.monitors == s.monitors && u.renewals == s.renewals
    && a in u.accepts && u.accepts == s.accepts[a := u.accepts[a]] && !HasChannel(u.accepts[a])
  }

  lemma BeforeAdd(s: System, a: nat, move: AcceptMove)
    requires CanAccept(s, a, move) && Unmade(move)
    ensures Unchannelled(s, DoAccept(s, a, move), a)
  {
  }

  lemma OfferedOthers(s: System, u: System, a: nat)
    requires Offered(s) && Unchannelled(s, u, a)
    ensures Offered(u)
  {
  }

  lemma OfferedOfAdd(s: System, a: nat, c: nat)
    requires Accounted(s) && CanAccept(s, a, Add(c))
    ensures Offered(DoAccept(s, a, Add(c)))
  {
  }

  lemma OfferedOfSpawn(s: System, a: nat)
    requires Accounted(s) && CanAccept(s, a, Spawn)
    ensures Offered(DoAccept(s, a, Spawn))
  {
  }

  lemma OfferedOfAbandon(s: System, a: nat)
    requires Accounted(s) && CanAccept(s, a, Abandon)
    ensures Offered(DoAccept(s, a, Abandon))
  {
    var u := DoAccept(s, a, Abandon);
    CloseOnceQuiet(s.t, s.accepts[a].channel);
    ForgetsChannel(s, u, a);
  }

  // An admission that has no further part in its channel.
  lemma ForgetsChannel(s: System, u: System, a: nat)
    requires Offered(s) && Quiet(s.t, u.t) && u.monitors == s.monitors && u.renewals == s.renewals
    requires u.accepts == s.accepts[a := Over]
    ensures Offered(u)
  {
  }

  lemma OfferedOfOffer(s: System, a: nat)
    requires Accounted(s) && CanAccept(s, a, Offer)
    ensures Offered(DoAccept(s, a, Offer))
  {
  }

  lemma OfferedOfAccept(s: System, a: nat, move: AcceptMove)
    requires Accounted(s) && CanAccept(s, a, move)
    ensures Offered(DoAccept(s, a, move))
  {
    if Unmade(move) { BeforeAdd(s, a, move); OfferedOthers(s, DoAccept(s, a, move), a); }
    else if move.Add? { OfferedOfAdd(s, a, move.channel); }
    else if move.Spawn? { OfferedOfSpawn(s, a); }
    else if move.Abandon? { OfferedOfAbandon(s, a); }
    else { OfferedOfOffer(s, a); }
  }

  lemma OfferedOfQuiet(s: System, u: System)
    requires Offered(s) && QuietSystem(s, u)
    ensures Offered(u)
  {
  }

  lemma AccountedOfScan(s: System, d: nat, choice: nat)
    requires Accounted(s) && CanDial(s, d, Scan(Some(choice)))
    ensures Accounted(DoDial(s, d, Scan(Some(choice))))
  {
    ClaimKeeps(s.t, choice, s.now);
  }

  lemma AccountedKept(s: System, step: Step)
    requires Accounted(s) && Can(s, step)
    ensures Accounted(Do(s, step))
  {
    if step.OfAccept? {
      TableOfAccept(s, step.a, step.accept);
      LedgerOfAccept(s, step.a, step.accept);
      OfferedOfAccept(s, step.a, step.accept);
    } else if Loud(step) {
      AccountedOfScan(s, step.d, step.dial.choice.value);
    } else {
      QuietStep(s, step);
      QuietKeeps(s.t, Do(s, step).t);
      OfferedOfQuiet(s, Do(s, step));
    }
  }

  lemma {:induction false} AccountedRun(s: System, steps: seq<Step>)
    requires Accounted(s) && CanRun(s, steps)
    ensures Accounted(Final(s, steps))
    decreases |steps|
  {
    if steps != [] {
      AccountedKept(s, steps[0]);
      AccountedRun(Do(s, steps[0]), steps[1..]);
    }
  }

  lemma InitiallyAccounted(purpose: string, now: Time)
    ensures Accounted(Initial(purpose, now))
  {
  }

  lemma PurposeKept(s: System, step: Step)
    requires Can(s, step)
    ensures Do(s, step).t.purpose == s.t.purpose && s.now <= Do(s, step).now <= s.now + 1
  {
  }

  lemma {:induction false} PurposeFixed(s: System, steps: seq<Step>)
    requires CanRun(s, steps)
    ensures Final(s, steps).t.purpose == s.t.purpose
    decreases |steps|
  {
    if steps != [] {
      PurposeKept(s, steps[0]);
      PurposeFixed(Do(s, steps[0]), steps[1..]);
    }
  }

  // ---------- the limits, spelled out ----------

  // Reservations and unclaimed channels of one binding.
  ghost function OfBinding(t: Table<nat>, b: Binding): nat
    requires t.connections <= t.channels.Keys
  {
    |set a | a in t.reserved && t.reserved[a] == b| + |set c | c in t.connections && t.channels[c].binding == b && !t.channels[c].claimed|
  }

  // Reservations and channels of one share.
  ghost function OfShare(t: Table<nat>, org: string, app: string): nat
    requires t.connections <= t.channels.Keys
  {
    |set a | a in t.reserved && t.reserved[a].org == org && t.reserved[a].app == app|
    + |set c | c in t.connections && t.channels[c].binding.org == org && t.channels[c].binding.app == app|
  }

  // Reservations and channels of one organization.
  ghost function OfOrganization(t: Table<nat>, org: string): nat
    requires t.connections <= t.channels.Keys
  {
    |set a | a in t.reserved && t.reserved[a].org == org| + |set c | c in t.connections && t.channels[c].binding.org == org|
  }

  ghost predicate LimitsOf(t: Table<nat>) {
    && t.connections <= t.channels.Keys
    && |t.connections| + |t.reserved| <= 128
    && (forall b :: OfBinding(t, b) <= 2)
    && (t.purpose == "beam_proxy" ==> (forall org, app :: OfShare(t, org, app) <= 34) && forall org :: OfOrganization(t, org) <= 64)
  }

  lemma BindingLoad(t: Table<nat>, b: Binding)
    requires t.connections <= t.channels.Keys
    ensures Load(t, Exactly(b)) == OfBinding(t, b)
  {
    assert Waiting(t.reserved, Exactly(b)) == set a | a in t.reserved && t.reserved[a] == b;
    assert Open(t.channels, t.connections, Exactly(b))
        == set c | c in t.connections && t.channels[c].binding == b && !t.channels[c].claimed;
  }

  lemma ShareLoad(t: Table<nat>, org: string, app: string)
    requires t.connections <= t.channels.Keys
    ensures Load(t, Share(org, app)) == OfShare(t, org, app)
  {
    assert Waiting(t.reserved, Share(org, app)) == set a | a in t.reserved && t.reserved[a].org == org && t.reserved[a].app == app;
    assert Open(t.channels, t.connections, Share(org, app))
        == set c | c in t.connections && t.channels[c].binding.org == org && t.channels[c].binding.app == app;
  }

  lemma OrganizationLoad(t: Table<nat>, org: string)
    requires t.connections <= t.channels.Keys
    ensures Load(t, Organization(org)) == OfOrganization(t, org)
  {
    assert Waiting(t.reserved, Organization(org)) == set a | a in t.reserved && t.reserved[a].org == org;
    assert Open(t.channels, t.connections, Organization(org)) == set c | c in t.connections && t.channels[c].binding.org == org;
  }

  lemma LimitsHold(t: Table<nat>)
    requires Proper(t) && Within(t)
    ensures LimitsOf(t)
  {
    Totals(t);
    assert Load(t, Everything) <= Limit(Everything);
    forall b ensures OfBinding(t, b) <= 2 {
      BindingLoad(t, b);
      assert Load(t, Exactly(b)) <= Limit(Exactly(b));
    }
    if t.purpose == "beam_proxy" {
      forall org, app ensures OfShare(t, org, app) <= 34 {
        ShareLoad(t, org, app);
        assert Load(t, Share(org, app)) <= Limit(Share(org, app));
      }
      forall org ensures OfOrganization(t, org) <= 64 {
        OrganizationLoad(t, org);
        assert Load(t, Organization(org)) <= Limit(Organization(org));
      }
    }
  }

  /** The admission test is exact: a request is turned away only if the broker is closed or one
      more reservation would break a limit. */
  lemma AdmittedExactly(t: Table<nat>, a: nat, b: Binding)
    requires Proper(t) && Within(t) && a !in t.reserved && b.purpose == t.purpose
    ensures Admissible(t, b) <==> !t.closed && LimitsOf(Reserve(t, a, b))
  {
    var u := Reserve(t, a, b);
    if Admissible(t, b) {
      ReserveKeeps(t, a, b);
      LimitsHold(u);
    }
    if !t.closed && LimitsOf(u) { RoomLeft(t, a, b); }
  }

  lemma RoomLeft(t: Table<nat>, a: nat, b: Binding)
    requires Proper(t) && !t.closed && a !in t.reserved && LimitsOf(Reserve(t, a, b))
    ensures Admissible(t, b)
  {
    var u := Reserve(t, a, b);
    BindingLoad(u, b);
    ShareLoad(u, b.org, b.app);
    OrganizationLoad(u, b.org);
    assert OfBinding(u, b) <= 2;
    WaitingWith(t.reserved, a, b, Exactly(b));
    WaitingWith(t.reserved, a, b, Share(b.org, b.app));
    WaitingWith(t.reserved, a, b, Organization(b.org));
    if t.purpose == BEAM { assert OfShare(u, b.org, b.app) <= 34 && OfOrganization(u, b.org) <= 64; }
  }

  /** Admission safety: in every state that a broker can reach, with any number of
      goroutines, the unreleased admissions are exactly the reservations and every limit of
      Accept holds. */
  lemma AdmissionSafety(purpose: string, now: Time, steps: seq<Step>)
    requires CanRun(Initial(purpose, now), steps)
    ensures var s := Final(Initial(purpose, now), steps);
            && (forall a :: a in s.t.reserved <==> a in s.accepts && Holding(s.accepts[a]))
            && (forall a | a in s.t.reserved :: s.t.reserved[a] == s.accepts[a].binding)
            && LimitsOf(s.t) && s.t.purpose == purpose
  {
    InitiallyAccounted(purpose, now);
    AccountedRun(Initial(purpose, now), steps);
    PurposeFixed(Initial(purpose, now), steps);
    LimitsHold(Final(Initial(purpose, now), steps).t);
  }
}
