/** No channel of the App Access broker is lost: in every reachable state each channel in the
    table is on its way to an offer, offered, or held by a Dial. */
module AccessConservation {
  import opened Bytes
  import opened AccessTable
  import opened Certificates
  import opened AccessRuns
  import opened AccessAdmission
  import opened AccessHandoff

  // ---------- claimed channels ----------

  // Every claimed channel that is still open belongs to a Dial.
  ghost predicate NoneLost(s: System) {
    forall c | c in s.t.connections && c in s.t.channels && s.t.channels[c].claimed :: exists d :: HeldBy(s, d, c)
  }

  predicate HeldBy(s: System, d: nat, c: nat) {
    d in s.dials && Holds(s.dials[d]) && s.dials[d].channel == c
  }

  lemma NoneLostElsewhere(s: System, u: System)
    requires NoneLost(s) && u.dials == s.dials
    requires forall c | c in u.t.connections && c in u.t.channels && u.t.channels[c].claimed ::
               c in s.t.connections && c in s.t.channels && s.t.channels[c].claimed
    ensures NoneLost(u)
  {
    forall c | c in u.t.connections && c in u.t.channels && u.t.channels[c].claimed ensures exists d :: HeldBy(u, d, c) {
      var d :| HeldBy(s, d, c);
      assert HeldBy(u, d, c);
    }
  }

  lemma ClaimedByAccept(s: System, a: nat, move: AcceptMove)
    requires Accounted(s) && CanAccept(s, a, move)
    ensures var u := DoAccept(s, a, move);
            forall c | c in u.t.connections && c in u.t.channels && u.t.channels[c].claimed ::
              c in s.t.connections && c in s.t.channels && s.t.channels[c].claimed
  {
  }

  // What a Dial does to its channel: keep it, or find or leave it closed.
  lemma DialKeeps(s: System, d: nat, move: DialMove, c: nat)
    requires Accounted(s) && CanDial(s, d, move)
    requires var u := DoDial(s, d, move); c in u.t.connections && c in u.t.channels && u.t.channels[c].claimed
    ensures HeldBy(DoDial(s, d, move), d, c) || (c in s.t.connections && c in s.t.channels && s.t.channels[c].claimed && !HeldBy(s, d, c))
  {
  }

  lemma NoneLostDial(s: System, d: nat, move: DialMove)
    requires Accounted(s) && NoneLost(s) && CanDial(s, d, move)
    ensures NoneLost(DoDial(s, d, move))
  {
    var u := DoDial(s, d, move);
    NewlyBlocked(s, d, move);
    forall c | c in u.t.connections && c in u.t.channels && u.t.channels[c].claimed ensures exists e :: HeldBy(u, e, c) {
      DialKeeps(s, d, move, c);
      if !HeldBy(u, d, c) {
        var e :| HeldBy(s, e, c);
        assert HeldBy(u, e, c);
      }
    }
  }

  lemma NoneLostKept(s: System, step: Step)
    requires Accounted(s) && NoneLost(s) && Can(s, step)
    ensures NoneLost(Do(s, step))
  {
    if step.OfAccept? {
      ClaimedByAccept(s, step.a, step.accept);
      NoneLostElsewhere(s, Do(s, step));
    } else if step.OfDial? {
      NoneLostDial(s, step.d, step.dial);
    } else {
      QuietStep(s, step);
      assert Do(s, step).dials == s.dials;
      NoneLostElsewhere(s, Do(s, step));
    }
  }

  lemma {:induction false} NoneLostRun(s: System, steps: seq<Step>)
    requires Accounted(s) && NoneLost(s) && CanRun(s, steps)
    ensures NoneLost(Final(s, steps))
    decreases |steps|
  {
    if steps != [] {
      AccountedKept(s, steps[0]);
      NoneLostKept(s, steps[0]);
      NoneLostRun(Do(s, steps[0]), steps[1..]);
    }
  }

  // ---------- unclaimed channels ----------

  predicate MadeBy(s: System, a: nat, c: nat) {
    a in s.accepts && HasChannel(s.accepts[a]) && s.accepts[a].channel == c
  }

  // An unclaimed channel is offered or its admission still has it in hand; and the renew
  // goroutine of a channel in the table has not stopped.
  ghost predicate Tended(s: System) {
    && (forall c | c in s.t.connections && c in s.t.channels ::
          s.t.channels[c].idle || s.t.channels[c].claimed || exists a :: MadeBy(s, a, c))
    && (forall c | c in s.t.connections && c in s.renewals :: !s.renewals[c].Stopped?)
  }

  lemma TendedElsewhere(s: System, u: System)
    requires Tended(s) && Quiet(s.t, u.t) && u.accepts == s.accepts
    requires forall c | c in u.renewals && c in u.t.connections && u.renewals[c].Stopped? :: c in s.renewals && s.renewals[c].Stopped?
    ensures Tended(u)
  {
    forall c | c in u.t.connections && c in u.t.channels
      ensures u.t.channels[c].idle || u.t.channels[c].claimed || exists a :: MadeBy(u, a, c)
    {
      if !u.t.channels[c].idle && !u.t.channels[c].claimed {
        var a :| MadeBy(s, a, c);
        assert MadeBy(u, a, c);
      }
    }
  }

  lemma StillRenewed(s: System, c: nat, move: RenewMove)
    requires Proper(s.t) && CanRenew(s, c, move)
    ensures var u := DoRenew(s, c, move);
            forall d | d in u.renewals && d in u.t.connections && u.renewals[d].Stopped? :: d in s.renewals && s.renewals[d].Stopped?
  {
  }

  // What becomes of the channel that an admission has in hand.
  lemma AcceptTends(s: System, a: nat, move: AcceptMove, c: nat)
    requires Accounted(s) && CanAccept(s, a, move)
    requires var u := DoAccept(s, a, move); c in u.t.connections && c in u.t.channels && !u.t.channels[c].idle && !u.t.channels[c].claimed
    ensures MadeBy(DoAccept(s, a, move), a, c)
            || (c in s.t.connections && c in s.t.channels && !s.t.channels[c].idle && !s.t.channels[c].claimed && !MadeBy(s, a, c))
  {
  }

  lemma AcceptRenewals(s: System, a: nat, move: AcceptMove)
    requires Accounted(s) && CanAccept(s, a, move) && forall c | c in s.t.connections && c in s.renewals :: !s.renewals[c].Stopped?
    ensures var u := DoAccept(s, a, move); forall c | c in u.t.connections && c in u.renewals :: !u.renewals[c].Stopped?
  {
  }

  lemma TendedAccept(s: System, a: nat, move: AcceptMove)
    requires Accounted(s) && Tended(s) && CanAccept(s, a, move)
    ensures Tended(DoAccept(s, a, move))
  {
    var u := DoAccept(s, a, move);
    AcceptRenewals(s, a, move);
    forall c | c in u.t.connections && c in u.t.channels
      ensures u.t.channels[c].idle || u.t.channels[c].claimed || exists b :: MadeBy(u, b, c)
    {
      if !u.t.channels[c].idle && !u.t.channels[c].claimed {
        AcceptTends(s, a, move, c);
        if !MadeBy(u, a, c) {
          var b :| MadeBy(s, b, c);
          assert MadeBy(u, b, c);
        }
      }
    }
  }

  lemma TendedScan(s: System, d: nat, choice: nat)
    requires Tended(s) && CanDial(s, d, Scan(Some(choice)))
    ensures Tended(DoDial(s, d, Scan(Some(choice))))
  {
    var u := DoDial(s, d, Scan(Some(choice)));
    forall c | c in u.t.connections && c in u.t.channels
      ensures u.t.channels[c].idle || u.t.channels[c].claimed || exists a :: MadeBy(u, a, c)
    {
      if !u.t.channels[c].idle && !u.t.channels[c].claimed {
        var a :| MadeBy(s, a, c);
        assert MadeBy(u, a, c);
      }
    }
  }

  lemma QuietRenewals(s: System, step: Step)
    requires Proper(s.t) && Can(s, step) && !Loud(step)
    ensures var u := Do(s, step);
            forall d | d in u.renewals && d in u.t.connections && u.renewals[d].Stopped? :: d in s.renewals && s.renewals[d].Stopped?
  {
    if step.OfRenewal? { StillRenewed(s, step.c, step.renew); } else { assert Do(s, step).renewals == s.renewals; }
  }

  lemma TendedQuiet(s: System, step: Step)
    requires Accounted(s) && Tended(s) && Can(s, step) && !Loud(step)
    ensures Tended(Do(s, step))
  {
    QuietStep(s, step);
    QuietRenewals(s, step);
    TendedElsewhere(s, Do(s, step));
  }

  lemma TendedKept(s: System, step: Step)
    requires Accounted(s) && Tended(s) && Can(s, step)
    ensures Tended(Do(s, step))
  {
    if step.OfAccept? {
      TendedAccept(s, step.a, step.accept);
    } else if Loud(step) {
      TendedScan(s, step.d, step.dial.choice.value);
    } else {
      TendedQuiet(s, step);
    }
  }

  lemma {:induction false} TendedRun(s: System, steps: seq<Step>)
    requires Accounted(s) && Tended(s) && CanRun(s, steps)
    ensures Tended(Final(s, steps))
    decreases |steps|
  {
    if steps != [] {
      AccountedKept(s, steps[0]);
      TendedKept(s, steps[0]);
      TendedRun(Do(s, steps[0]), steps[1..]);
    }
  }

  /** No channel is lost: in every reachable state each channel in the table is held by a Dial
      if it has been claimed, and otherwise offered or in the hands of the admission that made
      it; and the renew goroutine that it has has not stopped. */
  lemma NoChannelLost(purpose: string, now: Time, steps: seq<Step>, c: nat)
    requires CanRun(Initial(purpose, now), steps)
    requires var s := Final(Initial(purpose, now), steps); c in s.t.connections && c in s.t.channels
    ensures var s := Final(Initial(purpose, now), steps);
            && (if s.t.channels[c].claimed then exists d :: d in s.dials && Holds(s.dials[d]) && s.dials[d].channel == c
                else s.t.channels[c].idle || exists a :: a in s.accepts && HasChannel(s.accepts[a]) && s.accepts[a].channel == c)
            && (c in s.renewals ==> !s.renewals[c].Stopped?)
  {
    var s := Final(Initial(purpose, now), steps);
    InitiallyAccounted(purpose, now);
    NoneLostRun(Initial(purpose, now), steps);
    TendedRun(Initial(purpose, now), steps);
    if s.t.channels[c].claimed {
      var d :| HeldBy(s, d, c);
    } else if !s.t.channels[c].idle {
      var a :| MadeBy(s, a, c);
    }
  }
}
