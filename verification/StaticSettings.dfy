/** The one-shot cloud writes of deploy/azure/configure-owned-static.py, with the durable
    primitives of convert-owned-standby.py (reserve_bytes) and
    qualify-owned-unapproved-prefix.py (private_write).

    A World holds the operator's disk and the cloud.  A dispatched write takes effect at
    an arbitrary later time, or never; the operator's process may end between any two
    operations, by a crash or by one of the refusals whose conditions are not modelled.
    One process runs at a time and nobody else writes these settings. */
module StaticSettings {
  import opened Bytes

  type Prefixes = seq<string>
  datatype Settings = Settings(bgp: bool, ranges: Prefixes)

  const STATIC_PREFIXES: Prefixes := ["10.233.10.0/24"]

  datatype Action = Apply | Restore
  datatype Step = Lng | Connection
  datatype Write = Write(action: Action, step: Step)

  datatype Stage = Prepared | ApplySent | Static | RestoreSent | Restored
  datatype Saved = Saved(stage: Stage, last: Option<Step>, baseline: Settings)

  datatype Phase = Prepare | ApplyAll | ApplyStep | ContinueApply | Read | Reconcile | RestoreAll

  datatype Kind = Pending | Original | InForce | Partial
  // Only a run that ends by itself reports; every other end is a refusal or a crash.
  datatype Outcome = Ended | Reported(stage: Stage, kind: Option<Kind>)

  // ---------- runs: what happened, in order ----------

  datatype Event = Dispatched(write: Write) | Landed(write: Write) | Recorded(stage: Stage)

  function Sent(h: seq<Event>): set<Write> {
    if h == [] then {} else
    var e := h[|h| - 1];
    Sent(h[..|h| - 1]) + if e.Dispatched? then {e.write} else {}
  }

  // Dispatched and not in effect.
  function InFlight(h: seq<Event>): set<Write> {
    if h == [] then {} else
    var e, before := h[|h| - 1], InFlight(h[..|h| - 1]);
    match e
    case Dispatched(w) => before + {w}
    case Landed(w) => before - {w}
    case Recorded(_) => before
  }

  function Effect(w: Write, s: Settings, initial: Settings): Settings {
    match w
    case Write(Apply, Lng) => s.(ranges := STATIC_PREFIXES)
    case Write(Apply, Connection) => s.(bgp := false)
    case Write(Restore, Lng) => s.(ranges := initial.ranges)
    case Write(Restore, Connection) => s.(bgp := initial.bgp)
  }

  function InEffect(h: seq<Event>, initial: Settings): Settings {
    if h == [] then initial else
    var e, before := h[|h| - 1], InEffect(h[..|h| - 1], initial);
    if e.Landed? then Effect(e.write, before, initial) else before
  }

  // The last event was allowed to follow the events before it.
  ghost predicate Allowed(h: seq<Event>, e: Event, initial: Settings) {
    match e
    case Dispatched(w) => InFlight(h) == {} && w !in Sent(h) && Recorded(Restored) !in h
    case Landed(w) => w in InFlight(h)
    case Recorded(stage) => stage == Restored ==> InFlight(h) == {} && InEffect(h, initial) == initial
  }

  ghost predicate Safe(h: seq<Event>, initial: Settings) {
    h == [] || (Safe(h[..|h| - 1], initial) && Allowed(h[..|h| - 1], h[|h| - 1], initial))
  }

  lemma {:induction false} SafePrefix(h: seq<Event>, k: nat, initial: Settings)
    requires Safe(h, initial) && k <= |h|
    ensures Safe(h[..k], initial)
    decreases |h|
  {
    if k < |h| {
      SafePrefix(h[..|h| - 1], k, initial);
      assert h[..|h| - 1][..k] == h[..k];
    } else {
      assert h[..k] == h;
    }
  }

  lemma {:induction false} SentEarlier(h: seq<Event>, i: nat)
    requires i < |h| && h[i].Dispatched?
    ensures h[i].write in Sent(h)
    decreases |h|
  {
    if i < |h| - 1 {
      SentEarlier(h[..|h| - 1], i);
    }
  }

  lemma {:induction false} AtMostOneInFlight(h: seq<Event>, initial: Settings)
    requires Safe(h, initial)
    ensures |InFlight(h)| <= 1
    decreases |h|
  {
    if h != [] {
      AtMostOneInFlight(h[..|h| - 1], initial);
    }
  }

  // Once restored is recorded no write is sent, so the baseline stays in force.
  lemma {:induction false} RestoredIsFinal(h: seq<Event>, k: nat, initial: Settings)
    requires Safe(h, initial) && k < |h| && h[k] == Recorded(Restored)
    ensures InFlight(h) == {} && InEffect(h, initial) == initial
    ensures forall i | k < i < |h| :: !h[i].Dispatched?
    decreases |h|
  {
    var front := h[..|h| - 1];
    if k < |h| - 1 {
      RestoredIsFinal(front, k, initial);
      assert front[k] == Recorded(Restored) && Recorded(Restored) in front;
    }
  }

  // What Safe means for a whole run, moment by moment.

  /** At every moment at most one write is dispatched and not in effect. */
  lemma NeverTwoInFlight(h: seq<Event>, k: nat, initial: Settings)
    requires Safe(h, initial) && k <= |h|
    ensures |InFlight(h[..k])| <= 1
  {
    SafePrefix(h, k, initial);
    AtMostOneInFlight(h[..k], initial);
  }

  /** A write is dispatched only when no other is in flight, and never a second time. */
  lemma DispatchedAloneAndOnce(h: seq<Event>, k: nat, initial: Settings)
    requires Safe(h, initial) && k < |h| && h[k].Dispatched?
    ensures InFlight(h[..k]) == {}
    ensures forall i | 0 <= i < k && h[i].Dispatched? :: h[i].write != h[k].write
  {
    SafePrefix(h, k + 1, initial);
    assert h[..k + 1][..k] == h[..k];
    forall i | 0 <= i < k && h[i].Dispatched? ensures h[i].write != h[k].write {
      SentEarlier(h[..k], i);
    }
  }

  /** From the moment restored is recorded the original settings are in force, nothing is
      in flight and nothing is ever sent again. */
  lemma RestoredHolds(h: seq<Event>, r: nat, k: nat, initial: Settings)
    requires Safe(h, initial) && r < k <= |h| && h[r] == Recorded(Restored)
    ensures InFlight(h[..k]) == {} && InEffect(h[..k], initial) == initial
    ensures k < |h| ==> !h[k].Dispatched?
  {
    SafePrefix(h, k, initial);
    RestoredIsFinal(h[..k], r, initial);
    if k < |h| { RestoredIsFinal(h, r, initial); }
  }

  // ---------- classify ----------

  datatype Observed = Observed(settings: Settings, settled: bool)

  // None stands for ValueError.
  function Classify(value: Observed, baseline: Settings): Option<Kind> {
    var s := value.settings;
    if !value.settled then Some(Pending)
    else if s == baseline then Some(Original)
    else if s == Settings(false, STATIC_PREFIXES) then Some(InForce)
    else if (!s.bgp || s.bgp == baseline.bgp) && (s.ranges == baseline.ranges || s.ranges == STATIC_PREFIXES) then Some(Partial)
    else None
  }

  /** What is classified as what: an unsettled gateway as pending; a settled one as original, as
      static, or, when each setting is one of the two, as partial; anything else is refused. */
  lemma ClassifyExactly(value: Observed, baseline: Settings)
    requires baseline.bgp && baseline.ranges != STATIC_PREFIXES
    ensures var bgp, ranges, kind := value.settings.bgp, value.settings.ranges, Classify(value, baseline);
            && (kind == Some(Pending) <==> !value.settled)
            && (kind == Some(Original) <==> value.settled && bgp && ranges == baseline.ranges)
            && (kind == Some(InForce) <==> value.settled && !bgp && ranges == ["10.233.10.0/24"])
            && (kind == Some(Partial) <==>
                  value.settled && ((bgp && ranges == ["10.233.10.0/24"]) || (!bgp && ranges == baseline.ranges)))
            && (kind == None <==> value.settled && ranges != baseline.ranges && ranges != ["10.233.10.0/24"])
  {
  }

  const AL := Write(Apply, Lng)
  const AC := Write(Apply, Connection)
  const RL := Write(Restore, Lng)
  const RC := Write(Restore, Connection)

  lemma FourWrites(w: Write)
    ensures w in {AL, AC, RL, RC}
  {
    match w
    case Write(Apply, Lng) =>
    case Write(Apply, Connection) =>
    case Write(Restore, Lng) =>
    case Write(Restore, Connection) =>
  }

  lemma OnlyApplyLng(sent: set<Write>)
    requires AC !in sent && RL !in sent && RC !in sent
    ensures sent <= {AL}
  {
    forall w | w in sent ensures w == AL { FourWrites(w); }
  }

  // ---------- how far the writes have come ----------

  // The settings that result from the landed writes.
  function Reached(landed: set<Write>, initial: Settings): Settings {
    Settings(if AC in landed && RC !in landed then false else initial.bgp,
             if AL in landed && RL !in landed then STATIC_PREFIXES else initial.ranges)
  }

  // No apply write is in flight.
  ghost predicate ApplySettled(sent: set<Write>, landed: set<Write>) {
    (AL in sent ==> AL in landed) && (AC in sent ==> AC in landed)
  }

  // Each write was sent after the effect it depends on was seen.
  ghost predicate Ordered(sent: set<Write>, landed: set<Write>) {
    && (AC in sent ==> AL in landed)
    && (RC in sent ==> AC in landed)
    && (RL in sent ==> AL in landed && (AC in sent ==> AC in landed && RC in landed))
  }

  // Which writes can have been sent, and must have landed, at a recorded stage.
  ghost predicate Progress(sent: set<Write>, landed: set<Write>, saved: Saved) {
    && Ordered(sent, landed)
    && match saved.stage
       case Prepared => sent == {}
       case ApplySent => RL !in sent && RC !in sent && (AC in sent ==> saved.last == Some(Connection))
                         && (AL in sent && AC !in sent ==> saved.last.Some?)
       case Static => RL !in sent && RC !in sent && AL in landed && AC in landed && saved.last == Some(Connection)
       case RestoreSent => ApplySettled(sent, landed)
       case Restored => sent == landed && (AC in landed ==> RC in landed) && (AL in landed ==> RL in landed)
  }

  lemma LandsOne(sent: set<Write>, landed: set<Write>, w: Write, saved: Saved, initial: Settings)
    requires w in sent && w !in landed && landed <= sent && Progress(sent, landed, saved) && initial.bgp
    ensures Reached(landed + {w}, initial) == Effect(w, Reached(landed, initial), initial)
  {
  }

  lemma ProgressKept(sent: set<Write>, landed: set<Write>, later: set<Write>, saved: Saved)
    requires landed <= later <= sent && Progress(sent, landed, saved)
    ensures Progress(sent, later, saved)
    ensures saved.stage == Restored ==> later == landed
  {
  }

  // What an observation proves for good: effects seen have landed, and, once no apply
  // write is in flight, original values seen are not about to change.
  ghost predicate Knows(seen: Settings, restoring: bool, sent: set<Write>, landed: set<Write>, initial: Settings) {
    && (!seen.bgp ==> AC in landed)
    && (seen.ranges == STATIC_PREFIXES ==> AL in landed)
    && (seen.ranges == STATIC_PREFIXES || seen.ranges == initial.ranges)
    && (restoring ==>
          && ApplySettled(sent, landed)
          && (seen.bgp ==> AC !in sent || RC in landed)
          && (seen.ranges == initial.ranges ==> AL !in sent || RL in landed))
  }

  function Target(action: Action, initial: Settings): Settings {
    if action == Restore then initial else Settings(false, STATIC_PREFIXES)
  }

  // Whether the observed value still differs from the target in this step's setting.
  predicate Needed(action: Action, step: Step, seen: Settings, initial: Settings) {
    if step == Connection then seen.bgp != Target(action, initial).bgp
    else seen.ranges != Target(action, initial).ranges
  }

  // Where a run stands when it turns to a step.
  ghost predicate Ready(action: Action, step: Step, seen: Settings, sent: set<Write>, landed: set<Write>, initial: Settings) {
    && Knows(seen, action == Restore, sent, landed, initial)
    && match action
       case Apply => RL !in sent && RC !in sent && AC !in sent && if step == Lng then AL !in sent else AL in landed
       case Restore => step == Lng ==> seen.bgp
  }

  function Other(step: Step): Step {
    if step == Lng then Connection else Lng
  }

  // The writes of a phase.
  function Duty(phase: Phase): set<Write> {
    match phase
    case ApplyAll => {AL, AC}
    case ApplyStep => {AL}
    case ContinueApply => {AC}
    case RestoreAll => {RC, RL}
    case _ => {}
  }

  function ActionOf(phase: Phase): Action {
    if phase == RestoreAll then Restore else Apply
  }

  // The steps in the order of the writes.
  function StepsOf(action: Action): seq<Step>
    ensures |StepsOf(action)| == 2
  {
    if action == Restore then [Connection, Lng] else [Lng, Connection]
  }

  // The settings a phase leads to.
  function Goal(phase: Phase, seen: Settings, initial: Settings): Settings {
    if phase == ApplyStep then seen.(ranges := STATIC_PREFIXES) else Target(ActionOf(phase), initial)
  }

  // What a phase reports when nothing fails.
  function Report(phase: Phase): Outcome {
    match phase
    case Prepare => Reported(Prepared, None)
    case ApplyAll | ContinueApply => Reported(Static, Some(InForce))
    case ApplyStep => Reported(ApplySent, Some(Partial))
    case RestoreAll => Reported(Restored, Some(Original))
    case _ => Ended
  }

  function Reserved(action: Action, step: Step, saved: Saved): Saved {
    saved.(stage := if action == Restore then RestoreSent else ApplySent, last := Some(step))
  }

  // The first step's effect, seen, leads to the second step.
  lemma SecondReady(action: Action, seen: Settings, sent: set<Write>, landed: set<Write>, initial: Settings)
    requires Knows(seen, action == Restore, sent, landed, initial) && initial.bgp
    requires action == Apply ==> sent <= {AL}
    requires !Needed(action, if action == Restore then Connection else Lng, seen, initial)
    ensures Ready(action, if action == Restore then Lng else Connection, seen, sent, landed, initial)
  {
  }

  /** The heart of the protocol: what a run has seen when it turns to a step whose write was
      never sent leaves no room for a write in flight. */
  lemma NothingInFlight(action: Action, step: Step, seen: Settings, sent: set<Write>, landed: set<Write>, saved: Saved)
    requires landed <= sent && Ordered(sent, landed) && saved.baseline.bgp && saved.baseline.ranges != STATIC_PREFIXES
    requires Ready(action, step, seen, sent, landed, saved.baseline) && Needed(action, step, seen, saved.baseline)
    requires Write(action, step) !in sent
    ensures sent == landed
    ensures Progress(sent, landed, Reserved(action, step, saved))
    ensures Progress(sent + {Write(action, step)}, landed, Reserved(action, step, saved))
  {
    forall w | w in sent ensures w in landed {
      FourWrites(w);
    }
  }

  /** The restore guard: from a stage of the apply phase, the effect of the last reserved
      step settles every apply write. */
  predicate EffectSeen(last: Option<Step>, seen: Settings) {
    last.Some? && if last.value == Connection then !seen.bgp else seen.ranges == STATIC_PREFIXES
  }

  lemma LastEffectSettles(seen: Settings, sent: set<Write>, landed: set<Write>, saved: Saved)
    requires landed <= sent && Progress(sent, landed, saved) && saved.stage in {ApplySent, Static}
    requires Knows(seen, false, sent, landed, saved.baseline) && EffectSeen(saved.last, seen)
    requires seen.ranges == Reached(landed, saved.baseline).ranges && saved.baseline.ranges != STATIC_PREFIXES
    ensures ApplySettled(sent, landed) && Knows(seen, true, sent, landed, saved.baseline)
  {
  }

  lemma SettledStage(sent: set<Write>, landed: set<Write>, saved: Saved)
    requires landed <= sent && Progress(sent, landed, saved) && saved.stage in {Static, Restored}
    ensures sent == landed
  {
    forall w | w in sent ensures w in landed {
      FourWrites(w);
    }
  }

  lemma RestoredReached(seen: Settings, sent: set<Write>, landed: set<Write>, saved: Saved)
    requires landed <= sent && Ordered(sent, landed) && saved.baseline.bgp && saved.baseline.ranges != STATIC_PREFIXES
    requires Knows(seen, true, sent, landed, saved.baseline) && seen == saved.baseline
    ensures Progress(sent, landed, saved.(stage := Restored))
  {
    forall w | w in sent ensures w in landed {
      FourWrites(w);
    }
  }

  // ---------- the operator ----------

  class World {
    const initial: Settings
    // In a calm world nothing fails and every sent write lands at once.
    const calm: bool
    // the cloud
    var settings: Settings
    var flying: set<Write>
    // the operator's disk
    var file: Option<Saved>
    var pendingFile: bool
    var snapshot: bool
    var markers: map<Write, bool>     // true: the reservation's content is written
    // everything that happened, and the writes that took effect
    ghost var history: seq<Event>
    ghost var landed: set<Write>

    constructor (initial: Settings, calm: bool)
      ensures Valid() && this.initial == initial && this.calm == calm && history == []
      ensures file == None && !pendingFile && !snapshot && markers == map[] && flying == {}
    {
      this.calm := calm;
      this.initial, settings, flying := initial, initial, {};
      file, pendingFile, snapshot, markers := None, false, false, map[];
      history, landed := [], {};
    }

    ghost predicate Valid()
      reads this
    {
      && Safe(history, initial)
      && flying == InFlight(history) && settings == InEffect(history, initial)
      && (Recorded(Restored) in history ==> file.Some? && file.value.stage == Restored)
      && var sent := Sent(history);
         && landed <= sent && flying == sent - landed
         && (forall w | w in sent :: w in markers)
         && match file
            case None => sent == {} && settings == initial
            case Some(saved) =>
              && initial.bgp && initial.ranges != STATIC_PREFIXES && saved.baseline == initial
              && Progress(sent, landed, saved) && settings == Reached(landed, initial)
    }

    ghost function Sends(): set<Write>
      reads this
    {
      Sent(history)
    }

    // Only time has passed: no operation on the disk, no write sent.
    twostate predicate OnlyTime()
      reads this
    {
      && file == old(file) && pendingFile == old(pendingFile) && snapshot == old(snapshot) && markers == old(markers)
      && Sends() == old(Sends()) && old(landed) <= landed && old(history) <= history
    }

    // A calm world with nothing in flight and no half-written file, and what it shows.
    ghost predicate Resting()
      reads this
    {
      calm && flying == {} && !pendingFile
    }

    ghost predicate AtRest(value: Observed)
      reads this
    {
      Resting() && value == Observed(settings, true)
    }

    method Land(w: Write)
      requires Valid() && w in flying
      modifies this
      ensures Valid() && OnlyTime() && flying == old(flying) - {w}
    {
      if file.Some? {
        LandsOne(Sent(history), landed, w, file.value, initial);
        ProgressKept(Sent(history), landed, landed + {w}, file.value);
      }
      settings := Effect(w, settings, initial);
      flying := flying - {w};
      landed := landed + {w};
      history := history + [Landed(w)];
      assert history[..|history| - 1] == old(history);
    }

    // Some of the writes in flight land; stop says that the process ends here.
    method Pause() returns (stop: bool)
      requires Valid()
      modifies this
      ensures Valid() && OnlyTime() && Still()
      ensures calm ==> !stop && flying == {}
    {
      while flying != {}
        invariant Valid() && OnlyTime() && Still()
        decreases flying
      {
        var landing: bool := *;
        if !landing && !calm { break; }
        var w :| w in flying;
        Land(w);
      }
      stop := *;
      stop := stop && !calm;
    }

    // With nothing in flight nothing changes in the cloud.
    twostate predicate Still()
      reads this
    {
      old(flying) == {} ==> flying == {} && settings == old(settings)
    }

    // reserve_bytes: exclusive creation, then content; false when it does not complete.
    method Reserve(w: Write) returns (ok: bool)
      requires Valid()
      modifies this
      ensures Valid() && file == old(file) && Sends() == old(Sends()) && old(landed) <= landed && old(history) <= history
      ensures ok ==> w !in old(markers) && markers == old(markers)[w := true]
      ensures calm && w !in old(markers) ==> ok
      ensures Still() && pendingFile == old(pendingFile)
    {
      if w in markers { return false; }
      markers := markers[w := false];
      var stop := Pause();
      if stop { return false; }
      markers := markers[w := true];
      stop := Pause();
      return !stop;
    }

    // private_write: the new state replaces the old one at one instant, or not at all.
    method Save(saved: Saved) returns (ok: bool)
      requires Valid() && saved.baseline == initial && initial.bgp && initial.ranges != STATIC_PREFIXES
      requires Progress(Sends(), landed, saved)
      requires file.Some? ==> file.value.stage != Restored
      modifies this
      ensures Valid() && Sends() == old(Sends()) && old(landed) <= landed && old(history) <= history
      ensures markers == old(markers)
      ensures file == old(file) || file == Some(saved)
      ensures ok ==> file == Some(saved) && !pendingFile
      ensures old(pendingFile) ==> !ok && file == old(file) && pendingFile
      ensures calm && !old(pendingFile) ==> ok
      ensures Still()
    {
      if pendingFile { return false; }
      pendingFile := true;
      var stop := Pause();
      if stop {
        // An exception removes the temporary file; a crash leaves it.
        pendingFile := *;
        return false;
      }
      ProgressKept(Sends(), old(landed), landed, saved);
      Replace(saved);
      stop := Pause();
      return !stop;
    }

    // os.replace: the temporary file becomes the state.
    method Replace(saved: Saved)
      requires Valid() && saved.baseline == initial && initial.bgp && initial.ranges != STATIC_PREFIXES
      requires Progress(Sends(), landed, saved)
      requires file.Some? ==> file.value.stage != Restored
      modifies this
      ensures Valid() && file == Some(saved) && Sends() == old(Sends()) && landed == old(landed)
      ensures flying == old(flying) && settings == old(settings) && !pendingFile
      ensures markers == old(markers) && old(history) <= history
    {
      pendingFile := false;
      file := Some(saved);
      history := history + [Recorded(saved.stage)];
      assert history[..|history| - 1] == old(history);
      assert Reached({}, initial) == initial;
    }

    // The update call: it may reach the cloud or not, and may fail either way.
    method Dispatch(w: Write) returns (ok: bool)
      requires Valid() && file.Some? && file.value.stage != Restored
      requires flying == {} && w !in Sends() && w in markers
      requires Progress(Sends() + {w}, landed, file.value)
      modifies this
      ensures Valid() && file == old(file) && markers == old(markers)
      ensures old(landed) <= landed && old(history) <= history
      ensures Sends() == old(Sends()) || Sends() == old(Sends()) + {w}
      ensures calm ==> ok && Sends() == old(Sends()) + {w} && flying == {}
      ensures pendingFile == old(pendingFile)
    {
      var reached: bool := *;
      if reached || calm {
        flying := flying + {w};
        history := history + [Dispatched(w)];
        assert history[..|history| - 1] == old(history);
      }
      var stop := Pause();
      return !stop;
    }

    // observed: the connection is read first, the gateway's prefixes some time later; an
    // earlier provisioning state may still be reported while a write is in flight.
    method Observe() returns (value: Option<Observed>)
      requires Valid()
      modifies this
      ensures Valid() && OnlyTime() && Still()
      ensures value.Some? ==> value.value.settings == Settings(old(settings).bgp, settings.ranges)
      ensures calm && old(flying) == {} ==> value == Some(Observed(settings, true))
    {
      var bgp := settings.bgp;
      var stop := Pause();
      if stop { return None; }
      var settled: bool := *;
      return Some(Observed(Settings(bgp, settings.ranges), settled || calm));
    }

    method Look(restoring: bool) returns (value: Option<Observed>)
      requires Valid() && file.Some? && (restoring ==> ApplySettled(Sends(), landed))
      modifies this
      ensures Valid() && OnlyTime() && Still()
      ensures value.Some? ==> Knows(value.value.settings, restoring, Sends(), landed, initial)
      ensures value.Some? ==> value.value.settings == Settings(old(settings).bgp, settings.ranges)
      ensures calm && old(flying) == {} ==> value == Some(Observed(settings, true))
    {
      value := Observe();
    }

    // The reservation and the recorded stage, both before the write itself.
    method ReserveAndSave(action: Action, step: Step, saved: Saved, seen: Settings) returns (after: Saved, ok: bool)
      requires Valid() && file == Some(saved) && saved.stage != Restored
      requires Ready(action, step, seen, Sends(), landed, initial) && Needed(action, step, seen, initial)
      modifies this
      ensures Valid() && old(landed) <= landed && old(history) <= history && Sends() == old(Sends())
      ensures after == Reserved(action, step, saved)
      ensures calm && !old(pendingFile) && Write(action, step) !in old(markers) ==> ok
      ensures ok ==> !pendingFile && Write(action, step) !in old(markers) && markers == old(markers)[Write(action, step) := true]
      ensures ok ==>
                && file == Some(after) && Write(action, step) in markers && Write(action, step) !in Sends() && flying == {}
                && Progress(Sends() + {Write(action, step)}, landed, after)
    {
      after := Reserved(action, step, saved);
      ok := Reserve(Write(action, step));
      if !ok { return; }
      NothingInFlight(action, step, seen, Sends(), landed, saved);
      ok := Save(after);
      if !ok { return; }
      var stop := Pause();
      if stop { return after, false; }
      NothingInFlight(action, step, seen, Sends(), landed, saved);
    }

    // The refresh right before a reservation: nothing may have changed since it was seen.
    method Refresh(action: Action, seen: Settings) returns (same: bool)
      requires Valid() && file.Some? && Knows(seen, action == Restore, Sends(), landed, initial)
      modifies this
      ensures Valid() && OnlyTime() && Still()
      ensures calm && old(flying) == {} && seen == old(settings) ==> same
      ensures same ==> seen == Settings(old(settings).bgp, settings.ranges)
    {
      var refreshed := Look(action == Restore);
      if refreshed == None || Classify(refreshed.value, file.value.baseline) == None { return false; }
      return refreshed.value.settings == seen;
    }

    // The write and its read-back.
    method SendAndReadBack(action: Action, step: Step, after: Saved) returns (result: Option<(Observed, Kind)>)
      requires Valid() && file == Some(after) && after.stage == (if action == Restore then RestoreSent else ApplySent)
      requires flying == {} && Write(action, step) !in Sends() && Write(action, step) in markers
      requires Progress(Sends() + {Write(action, step)}, landed, after)
      modifies this
      ensures Valid() && old(landed) <= landed && old(history) <= history && file == old(file)
      ensures old(Sends()) <= Sends() <= old(Sends()) + {Write(action, step)}
      ensures markers == old(markers) && pendingFile == old(pendingFile)
      ensures result.Some? ==>
                var (value, kind) := result.value;
                && Classify(value, initial) == Some(kind) && kind != Pending
                && Knows(value.settings, action == Restore, Sends(), landed, initial)
                && !Needed(action, step, value.settings, initial)
      ensures calm ==>
                && result.Some? && result.value.0 == Observed(settings, true) && flying == {}
                && Sends() == old(Sends()) + {Write(action, step)}
    {
      var ok := Dispatch(Write(action, step));
      if !ok { return None; }
      var value := Look(action == Restore);
      if value == None { return None; }
      var kind := Classify(value.value, after.baseline);
      if kind == None || kind == Some(Pending) || Needed(action, step, value.value.settings, initial) { return None; }
      return Some((value.value, kind.value));
    }

    /** One turn of the write loop: refresh, reserve, record, dispatch, read back.  In a calm
        world the write is sent, takes effect and is read back. */
    method DoStep(action: Action, step: Step, saved: Saved, seen: Settings) returns (result: Option<(Saved, Observed, Kind)>)
      requires Valid() && file == Some(saved) && saved.stage != Restored
      requires Ready(action, step, seen, Sends(), landed, initial) && Needed(action, step, seen, initial)
      modifies this
      ensures Valid() && old(landed) <= landed && old(history) <= history
      ensures old(Sends()) <= Sends() <= old(Sends()) + {Write(action, step)}
      ensures result.Some? ==>
                var (after, value, kind) := result.value;
                && file == Some(after) && after == Reserved(action, step, saved)
                && Classify(value, initial) == Some(kind) && kind != Pending
                && Knows(value.settings, action == Restore, Sends(), landed, initial)
                && !Needed(action, step, value.settings, initial)
                && !pendingFile && Write(action, step) !in old(markers) && markers == old(markers)[Write(action, step) := true]
      ensures calm && old(flying) == {} && seen == old(settings) && !old(pendingFile) && Write(action, step) !in old(markers) ==>
                && result.Some? && result.value.1 == Observed(settings, true) && flying == {}
                && Sends() == old(Sends()) + {Write(action, step)}
    {
      var same := Refresh(action, seen);
      if !same { return None; }
      var stop := Pause();
      if stop { return None; }
      var after, ok := ReserveAndSave(action, step, saved, seen);
      if !ok { return None; }
      var back := SendAndReadBack(action, step, after);
      if back == None { return None; }
      return Some((after, back.value.0, back.value.1));
    }

    method DoPrepare() returns (outcome: Outcome)
      requires Valid()
      modifies this
      ensures Valid() && old(history) <= history && Sends() == old(Sends())
      ensures outcome.Reported? ==>
                outcome == Report(Prepare) && old(file) == None && file == Some(Saved(Prepared, None, initial))
      ensures old(file).Some? ==> file == old(file)
      ensures markers == old(markers)
      ensures old(Resting()) ==> outcome == (if old(Due(Prepare)) then Report(Prepare) else Ended)
      ensures old(Resting()) && outcome.Reported? ==> Resting()
    {
      if file.Some? { return Ended; }
      var value := Observe();
      if value == None { return Ended; }
      var seen := value.value.settings;
      if !seen.bgp || seen.ranges == STATIC_PREFIXES || !value.value.settled { return Ended; }
      if snapshot { return Ended; }
      snapshot := true;
      var stop := Pause();
      if stop { return Ended; }
      var ok := Save(Saved(Prepared, None, seen));
      return if ok then Reported(Prepared, None) else Ended;
    }

    // read and reconcile: an outstanding stage is settled by the exact target settings.
    method DoReconcile(phase: Phase, value: Observed, kind: Kind) returns (outcome: Outcome)
      requires Valid() && file.Some? && Classify(value, initial) == Some(kind) && phase in {Read, Reconcile}
      requires Knows(value.settings, file.value.stage == RestoreSent, Sends(), landed, initial)
      modifies this
      ensures Valid() && old(history) <= history && Sends() == old(Sends()) && markers == old(markers)
      ensures outcome.Reported? ==>
                && file == Some(old(file.value).(stage := outcome.stage)) && outcome.kind == Some(kind)
                && if old(file.value.stage) == ApplySent && kind == InForce then outcome.stage == Static
                   else if old(file.value.stage) == RestoreSent && kind == Original then outcome.stage == Restored
                   else outcome.stage == old(file.value.stage)
      ensures old(file.value.stage) == Restored ==> file == old(file)
      ensures old(AtRest(value)) ==> outcome == old(Answer(phase)) && Resting()
    {
      var saved := file.value;
      var ok := true;
      if saved.stage == ApplySent && kind == InForce {
        saved := saved.(stage := Static);
        ok := Save(saved);
      } else if saved.stage == RestoreSent && kind == Original {
        RestoredReached(value.settings, Sends(), landed, saved);
        saved := saved.(stage := Restored);
        ok := Save(saved);
      }
      return if ok then Reported(saved.stage, Some(kind)) else Ended;
    }

    // The refusals before any write: what each write phase demands of stage and settings.
    predicate Admits(phase: Phase, saved: Saved, value: Observed, kind: Kind)
      reads this
    {
      && kind != Pending
      && match phase
         case ContinueApply =>
           && saved.stage == ApplySent && kind == Partial && saved.last == Some(Lng)
           && value.settings.ranges == STATIC_PREFIXES && value.settings.bgp
           && AL in markers && markers[AL] && AC !in markers
         case ApplyAll | ApplyStep => saved.stage == Prepared && kind == Original
         case RestoreAll =>
           || saved.stage == RestoreSent
           || (saved.stage in {ApplySent, Static} && kind in {InForce, Partial} && EffectSeen(saved.last, value.settings))
         case _ => false
    }

    /** What each write phase demands, whatever the world: a settled gateway, and the stage and
        settings of its turn. */
    lemma AdmitsExactly(phase: Phase, saved: Saved, value: Observed, kind: Kind)
      ensures Admits(phase, saved, value, kind) <==>
              kind != Pending &&
              match phase
              case ApplyAll | ApplyStep => saved.stage == Prepared && kind == Original
              case ContinueApply =>
                && saved.stage == ApplySent && saved.last == Some(Lng) && kind == Partial
                && value.settings == Settings(true, ["10.233.10.0/24"])
                && Write(Apply, Lng) in markers && markers[Write(Apply, Lng)] && Write(Apply, Connection) !in markers
              case RestoreAll =>
                || saved.stage == RestoreSent
                || ((saved.stage == ApplySent || saved.stage == Static) && (kind == InForce || kind == Partial)
                    && ((saved.last == Some(Connection) && !value.settings.bgp)
                        || (saved.last == Some(Lng) && value.settings.ranges == ["10.233.10.0/24"])))
              case _ => false
    {
    }

    // One pass of the loop body: nothing if the setting is there already, a step if not.
    method Turn(action: Action, step: Step, saved: Saved, value: Observed) returns (ok: bool, after: Saved, next: Observed)
      requires Valid() && file == Some(saved) && saved.stage != Restored
      requires Knows(value.settings, action == Restore, Sends(), landed, initial)
      requires Needed(action, step, value.settings, initial) ==> Ready(action, step, value.settings, Sends(), landed, initial)
      modifies this
      ensures Valid() && old(history) <= history
      ensures Sends() <= old(Sends()) + if Needed(action, step, value.settings, initial) then {Write(action, step)} else {}
      ensures ok ==>
                && file == Some(after) && Knows(next.settings, action == Restore, Sends(), landed, initial)
                && !Needed(action, step, next.settings, initial)
                && if Needed(action, step, value.settings, initial) then after == Reserved(action, step, saved)
                   else after == saved && next == value
      ensures ok ==>
                markers == if Needed(action, step, value.settings, initial) then old(markers)[Write(action, step) := true]
                           else old(markers)
      ensures ok && Needed(action, step, value.settings, initial) ==> Write(action, step) !in old(markers)
      ensures old(AtRest(value)) && (Needed(action, step, value.settings, initial) ==> Write(action, step) !in old(markers)) ==>
                ok && AtRest(next)
      ensures old(AtRest(value)) && ok && AtRest(next) ==>
                Needed(action, Other(step), next.settings, initial) == Needed(action, Other(step), value.settings, initial)
    {
      if !Needed(action, step, value.settings, initial) { return true, saved, value; }
      var result := DoStep(action, step, saved, value.settings);
      if result == None { return false, saved, value; }
      return true, result.value.0, result.value.1;
    }

    // Where the loop over the steps stands when i of them are done: sent and keys are the writes
    // sent and reserved before it, stage is the stage it started from.
    ghost predicate Underway(phase: Phase, stage: Stage, sent: set<Write>, keys: set<Write>, i: nat, saved: Saved,
                             value: Observed)
      reads this
    {
      var action := ActionOf(phase);
      && i <= 2 && Valid() && file == Some(saved) && saved.stage != Restored
      && Knows(value.settings, action == Restore, Sends(), landed, initial)
      && Sends() <= sent + Duty(phase) && markers.Keys <= keys + Duty(phase)
      && (action == Apply ==> saved.stage in {stage, ApplySent} && (i < 2 ==> Sends() <= {AL}))
      && (action == Apply && i == 0 ==> (phase == ContinueApply <==> !Needed(Apply, Lng, value.settings, initial)))
      && (phase == ApplyStep ==> i != 1)
      && (i < 2 && Needed(action, StepsOf(action)[i], value.settings, initial) ==>
            Ready(action, StepsOf(action)[i], value.settings, Sends(), landed, initial))
    }

    // The same in a calm world.
    ghost predicate Calmly(phase: Phase, i: nat, value: Observed)
      reads this
    {
      var action := ActionOf(phase);
      && i <= 2 && AtRest(value)
      && (i > 0 ==> !Needed(action, StepsOf(action)[0], value.settings, initial))
      && (i > 1 ==> !Needed(action, StepsOf(action)[1], value.settings, initial))
    }

    // No write that the rest of the loop needs has been reserved.
    ghost predicate Clear(phase: Phase, i: nat, value: Observed)
      reads this
    {
      var action := ActionOf(phase);
      forall k | i <= k < 2 && Write(action, StepsOf(action)[k]) in Duty(phase) && Needed(action, StepsOf(action)[k], value.settings, initial) ::
        Write(action, StepsOf(action)[k]) !in markers
    }

    // One pass of the loop.
    method Pass(phase: Phase, ghost stage: Stage, ghost sent: set<Write>, ghost keys: set<Write>, i: nat, saved: Saved,
                value: Observed) returns (ok: bool, after: Saved, next: Observed, written: bool)
      requires phase in {ApplyAll, ApplyStep, ContinueApply, RestoreAll}
      requires i < 2 && Underway(phase, stage, sent, keys, i, saved, value)
      modifies this
      ensures Valid() && old(history) <= history && Sends() <= sent + Duty(phase)
      ensures written == Needed(ActionOf(phase), StepsOf(ActionOf(phase))[i], value.settings, initial)
      ensures ok && !(written && phase in {ApplyStep, ContinueApply}) ==> Underway(phase, stage, sent, keys, i + 1, after, next)
      ensures ok && written && phase in {ApplyStep, ContinueApply} ==> Underway(phase, stage, sent, keys, 2, after, next)
      ensures ok && written && phase == ApplyStep ==> after == Reserved(Apply, Lng, saved) && markers == old(markers)[AL := true]
      ensures old(Calmly(phase, i, value)) && old(Clear(phase, i, value)) ==> ok
      ensures old(Calmly(phase, i, value)) && ok && !(written && phase in {ApplyStep, ContinueApply}) ==>
                Calmly(phase, i + 1, next) && Clear(phase, i + 1, next) == old(Clear(phase, i, value))
      ensures old(Calmly(phase, i, value)) && ok && written && phase in {ApplyStep, ContinueApply} ==>
                old(Clear(phase, i, value)) && AtRest(next) && next.settings == Goal(phase, value.settings, initial)
    {
      var action := ActionOf(phase);
      var step := StepsOf(action)[i];
      written := Needed(action, step, value.settings, initial);
      ok, after, next := Turn(action, step, saved, value);
      if ok && i == 0 { SecondReady(action, next.settings, Sends(), landed, initial); }
    }

    // The loop over the steps; done tells that it was not cut short by a refusal or a crash.
    method DoSteps(phase: Phase, start: Saved, first: Observed) returns (done: bool, saved: Saved, value: Observed)
      requires phase in {ApplyAll, ApplyStep, ContinueApply, RestoreAll}
      requires Underway(phase, start.stage, Sends(), markers.Keys, 0, start, first)
      modifies this
      ensures Valid() && old(history) <= history && Sends() <= old(Sends()) + Duty(phase)
      ensures done ==> Underway(phase, start.stage, old(Sends()), old(markers.Keys), 2, saved, value)
      ensures done && phase == ApplyStep ==> saved == Reserved(Apply, Lng, start) && markers == old(markers)[AL := true]
      ensures old(AtRest(first)) ==> done == old(Clear(phase, 0, first))
      ensures old(AtRest(first)) && done ==> AtRest(value) && value.settings == Goal(phase, first.settings, initial)
    {
      var steps := StepsOf(ActionOf(phase));
      ghost var calmly, clear := AtRest(first), Clear(phase, 0, first);
      saved, value := start, first;
      var i := 0;
      while i < |steps|
        invariant Underway(phase, start.stage, old(Sends()), old(markers.Keys), i, saved, value)
        invariant old(history) <= history
        invariant phase == ApplyStep ==> i == 0 && saved == start && value == first && markers == old(markers)
        invariant calmly ==> Calmly(phase, i, value) && Clear(phase, i, value) == clear
      {
        var ok, written;
        ok, saved, value, written := Pass(phase, start.stage, old(Sends()), old(markers.Keys), i, saved, value);
        if !ok { return false, saved, value; }
        if written && phase in {ApplyStep, ContinueApply} { break; }
        i := i + 1;
      }
      return true, saved, value;
    }

    // The end of a write phase: the target is reported and recorded, or, by the single-step
    // phases, a partial setting reported.
    method Conclude(phase: Phase, saved: Saved, last: Observed) returns (outcome: Outcome)
      requires phase in {ApplyAll, ApplyStep, ContinueApply, RestoreAll}
      requires Valid() && file == Some(saved) && saved.stage != Restored
      requires phase != RestoreAll ==> saved.stage in {Prepared, ApplySent}
      requires Knows(last.settings, phase == RestoreAll, Sends(), landed, initial)
      modifies this
      ensures Valid() && old(history) <= history && Sends() == old(Sends()) && markers == old(markers)
      ensures outcome.Reported? ==> file.Some? && outcome.stage == file.value.stage
      ensures outcome.Reported? && outcome.stage == saved.stage ==> file == old(file)
      ensures Settled(outcome)
      ensures outcome.Reported? && phase in {ApplyAll, RestoreAll} ==> outcome == Report(phase)
      ensures old(AtRest(last)) && last.settings == Goal(phase, initial, initial) && (phase == ApplyStep ==> saved.stage == ApplySent) ==>
                outcome == Report(phase) && Resting() && settings == old(settings)
    {
      var reached := Classify(last, initial);
      if reached == None { return Ended; }
      if reached.value != (if phase == RestoreAll then Original else InForce) {
        if phase in {ApplyStep, ContinueApply} && reached == Some(Partial) { return Reported(saved.stage, reached); }
        return Ended;
      }
      if phase == RestoreAll { RestoredReached(last.settings, Sends(), landed, saved); }
      var done := saved.(stage := if phase == RestoreAll then Restored else Static);
      var ok := Save(done);
      return if ok then Reported(done.stage, reached) else Ended;
    }

    // apply, apply-step, continue-apply and restore.
    method DoWrites(phase: Phase, value: Observed, kind: Kind) returns (outcome: Outcome)
      requires Valid() && file.Some? && Classify(value, initial) == Some(kind)
      requires phase in {ApplyAll, ApplyStep, ContinueApply, RestoreAll}
      requires Admits(phase, file.value, value, kind)
      requires Knows(value.settings, phase == RestoreAll, Sends(), landed, initial)
      modifies this
      ensures Valid() && old(history) <= history
      ensures Sends() <= old(Sends()) + Duty(phase)
      ensures outcome.Reported? ==> file.Some? && outcome.stage == file.value.stage
      ensures outcome.Reported? && phase in {ApplyAll, RestoreAll} ==> outcome == Report(phase)
      ensures outcome.Reported? ==> markers.Keys <= old(markers.Keys) + Duty(phase)
      ensures Settled(outcome)
      ensures old(AtRest(value)) ==> outcome == if old(Clear(phase, 0, value)) then Report(phase) else Ended
      ensures old(AtRest(value)) && outcome.Reported? ==> Resting() && (phase == ApplyStep ==> Halfway())
    {
      var stop := Pause();
      if stop { return Ended; }
      if phase == ContinueApply { OnlyApplyLng(Sends()); }
      var done, saved, last := DoSteps(phase, file.value, value);
      if !done { return Ended; }
      outcome := Conclude(phase, saved, last);
    }

    // A report never leaves an outstanding stage beside the settings that settle it.
    predicate Settled(outcome: Outcome) {
      outcome != Reported(ApplySent, Some(InForce)) && outcome != Reported(RestoreSent, Some(Original))
    }

    // What the cloud shows when nothing is in flight.
    ghost function Shown(): Kind
      reads this
    {
      if settings == initial then Original
      else if !settings.bgp && settings.ranges == STATIC_PREFIXES then InForce
      else Partial
    }

    // The writes that a phase needs have not been reserved.
    ghost predicate Free(phase: Phase)
      reads this
    {
      match phase
      case ApplyAll => AL !in markers && AC !in markers
      case ApplyStep => AL !in markers
      case ContinueApply => AC !in markers
      case RestoreAll =>
        (settings.bgp != initial.bgp ==> RC !in markers) && (settings.ranges != initial.ranges ==> RL !in markers)
      case _ => true
    }

    // Whether it is the turn of a phase, in a calm world at rest.
    ghost predicate Due(phase: Phase)
      reads this
    {
      if phase == Prepare then file == None && !snapshot && settings.bgp && settings.ranges != STATIC_PREFIXES
      else
        file.Some? && Free(phase) &&
        match phase
        case ApplyAll | ApplyStep => file.value.stage == Prepared
        case ContinueApply => Halfway()
        case RestoreAll =>
          file.value.stage == RestoreSent ||
          (file.value.stage in {ApplySent, Static} && settings != initial
           && ((file.value.last == Some(Connection) && !settings.bgp)
               || (file.value.last == Some(Lng) && settings.ranges == STATIC_PREFIXES)))
        case _ => true
    }

    // What it answers then.
    ghost function Answer(phase: Phase): Outcome
      reads this
    {
      if !Due(phase) then Ended
      else if phase in {Read, Reconcile} && file.Some? then
        Reported(if file.value.stage == ApplySent && settings == Settings(false, STATIC_PREFIXES) then Static
                 else if file.value.stage == RestoreSent && settings == initial then Restored
                 else file.value.stage,
                 Some(Shown()))
      else Report(phase)
    }

    // After the first write of apply-step, seen in force.
    ghost predicate Halfway()
      reads this
    {
      && file.Some? && file.value.stage == ApplySent && file.value.last == Some(Lng)
      && AL in markers && markers[AL] && settings == Settings(initial.bgp, STATIC_PREFIXES)
    }

    // The observation that every phase but prepare starts from.
    method Judge() returns (view: Option<(Observed, Kind)>)
      requires Valid() && file.Some?
      modifies this
      ensures Valid() && OnlyTime() && Still()
      ensures view.Some? ==>
                && Classify(view.value.0, initial) == Some(view.value.1)
                && Knows(view.value.0.settings, file.value.stage == RestoreSent, Sends(), landed, initial)
                && view.value.0.settings.ranges == settings.ranges
      ensures old(Resting()) ==> view.Some? && AtRest(view.value.0)
      ensures old(Resting()) ==> forall phase :: Due(phase) == old(Due(phase))
    {
      var stop := Pause();
      if stop { return None; }
      var value := Look(file.value.stage == RestoreSent);
      if value == None { return None; }
      var kind := Classify(value.value, file.value.baseline);
      return if kind == None then None else Some((value.value, kind.value));
    }

    // What a write phase admits, in a calm world at rest, is what is due.
    lemma AdmitsDue(phase: Phase, value: Observed, kind: Kind)
      requires Valid() && file.Some? && AtRest(value) && Classify(value, initial) == Some(kind)
      requires phase in {ApplyAll, ApplyStep, ContinueApply, RestoreAll}
      ensures Due(phase) <==> Admits(phase, file.value, value, kind) && Clear(phase, 0, value)
    {
      var action := ActionOf(phase);
      if Admits(phase, file.value, value, kind) {
        assert Clear(phase, 0, value) <==>
               (Write(action, StepsOf(action)[0]) in Duty(phase) && Needed(action, StepsOf(action)[0], value.settings, initial)
                ==> Write(action, StepsOf(action)[0]) !in markers)
               && (Write(action, StepsOf(action)[1]) in Duty(phase) && Needed(action, StepsOf(action)[1], value.settings, initial)
                   ==> Write(action, StepsOf(action)[1]) !in markers);
      }
    }

    // read and reconcile.
    method RunRead(phase: Phase) returns (outcome: Outcome)
      requires Valid() && file.Some? && phase in {Read, Reconcile}
      modifies this
      ensures Valid() && old(history) <= history && Sends() == old(Sends()) && markers == old(markers)
      ensures old(file.value.stage) == Restored ==> file == old(file)
      ensures outcome.Reported? ==> file.Some? && outcome.stage == file.value.stage
      ensures Settled(outcome)
      ensures old(Resting()) ==> outcome == old(Answer(phase)) && Resting()
    {
      var view := Judge();
      if view == None { return Ended; }
      outcome := DoReconcile(phase, view.value.0, view.value.1);
    }

    // The four write phases.
    method RunWrites(phase: Phase) returns (outcome: Outcome)
      requires Valid() && file.Some? && phase in {ApplyAll, ApplyStep, ContinueApply, RestoreAll}
      modifies this
      ensures Valid() && old(history) <= history && Sends() <= old(Sends()) + Duty(phase)
      ensures old(file.value.stage) == Restored ==> file == old(file) && Sends() == old(Sends())
      ensures outcome.Reported? ==> file.Some? && outcome.stage == file.value.stage
      ensures outcome.Reported? && phase in {ApplyAll, RestoreAll} ==> outcome == Report(phase)
      ensures outcome.Reported? ==> markers.Keys <= old(markers.Keys) + Duty(phase)
      ensures Settled(outcome)
      ensures old(Resting()) ==> outcome == old(Answer(phase))
      ensures old(Resting()) && outcome.Reported? ==> Resting() && (phase == ApplyStep ==> Halfway())
    {
      var view := Judge();
      if view == None { return Ended; }
      var (value, kind) := view.value;
      if old(Resting()) { AdmitsDue(phase, value, kind); }
      if !Admits(phase, file.value, value, kind) { return Ended; }
      if phase == RestoreAll && file.value.stage != RestoreSent {
        LastEffectSettles(value.settings, Sends(), landed, file.value);
      }
      outcome := DoWrites(phase, value, kind);
    }

    /** One invocation of the program.  Whatever the phase, and wherever it is cut short,
        the history stays Safe, and no write is sent that the phase does not name.  A report of
        the stage static or restored means that those settings are in force with nothing in
        flight.  In a calm world every phase, in its turn, reports what it is for. */
    method Run(phase: Phase) returns (outcome: Outcome)
      requires Valid()
      modifies this
      ensures Valid() && old(history) <= history
      ensures Sends() <= old(Sends()) + Duty(phase)
      ensures old(file).Some? && old(file).value.stage == Restored ==> file == old(file) && Sends() == old(Sends())
      ensures outcome.Reported? ==> file.Some? && outcome.stage == file.value.stage
      ensures outcome.Reported? && phase in {Prepare, ApplyAll, RestoreAll} ==> outcome == Report(phase)
      ensures outcome.Reported? && outcome.stage == Static ==> flying == {} && settings == Settings(false, STATIC_PREFIXES)
      ensures outcome.Reported? && outcome.stage == Restored ==> flying == {} && settings == initial
      ensures outcome.Reported? ==> markers.Keys <= old(markers.Keys) + Duty(phase)
      ensures Settled(outcome)
      ensures old(Resting()) ==> outcome == old(Answer(phase))
      ensures old(Resting()) && outcome.Reported? ==> Resting() && (phase == ApplyStep ==> Halfway())
    {
      if phase == Prepare {
        outcome := DoPrepare();
      } else if file == None {
        outcome := Ended;
      } else {
        if phase in {Read, Reconcile} {
          outcome := RunRead(phase);
        } else {
          outcome := RunWrites(phase);
        }
        if outcome.Reported? && outcome.stage in {Static, Restored} { SettledStage(Sends(), landed, file.value); }
      }
    }
  }

  /** Any number of invocations, in any order, each cut short anywhere, with the sent
      writes landing at any moment: the whole history is Safe. */
  method Lifetime(initial: Settings, calm: bool, phases: seq<Phase>) returns (world: World)
    ensures fresh(world) && world.Valid() && Safe(world.history, initial)
  {
    world := new World(initial, calm);
    for i := 0 to |phases|
      invariant fresh(world) && world.Valid() && world.initial == initial
    {
      var _ := world.Run(phases[i]);
      var _ := world.Pause();
    }
  }

  // Applies at once or step by step.
  method ApplyCalmly(world: World, atOnce: bool) returns (applied: Outcome)
    requires world.Valid() && world.Resting() && world.Due(ApplyAll) && world.markers == map[]
    modifies world
    ensures world.Valid() && world.Resting() && world.file.Some? && world.file.value.stage == Static
    ensures world.markers.Keys <= {AL, AC} && applied == Report(ApplyAll)
  {
    if atOnce {
      applied := world.Run(ApplyAll);
    } else {
      var _ := world.Run(ApplyStep);
      applied := world.Run(ContinueApply);
    }
    assert applied.stage == Static;
  }

  /** When nothing fails, an experiment that is prepared, applied, at once or step by step,
      and restored reports the static settings and then the original ones. */
  method Uneventful(initial: Settings, atOnce: bool) returns (world: World, applied: Outcome, restored: Outcome)
    requires initial.bgp && initial.ranges != STATIC_PREFIXES
    ensures fresh(world) && world.Valid() && world.settings == initial
    ensures applied == Report(ApplyAll) && restored == Report(RestoreAll)
  {
    world := new World(initial, true);
    var _ := world.Run(Prepare);
    applied := ApplyCalmly(world, atOnce);
    restored := world.Run(RestoreAll);
  }
}
