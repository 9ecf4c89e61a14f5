/** The one-shot conversion of the owned gateway (deploy/azure/convert-owned-standby.py), by
    any number of operator processes at once.

    Unlike the static settings, a mutation here is guarded by nothing but its exclusive
    reservation file, so the model interleaves processes freely; each may die anywhere, a
    dispatched mutation lands at any later time or never, and an observation may report an
    unsettled gateway at any time. */
module StandbyConversion {
  import opened Bytes

  datatype Op = Convert | Restore
  datatype Stage = Prepared | ApplySent | Converted | RestoreSent | Restored
  datatype Phase = ApplyPhase | RestorePhase | ReadPhase

  // original_aa, preserved_as, and every other classification.
  datatype Result = OriginalAA | PreservedAS | Other

  datatype Proc =
    | Idle
    | Baselined                                             // prepare: a settled original gateway was read
    | Snapshotted                                           // and its bytes are stored
    | Loaded(phase: Phase, stage: Stage)
    | Seen(phase: Phase, stage: Stage, result: Result)
    | Reserved(op: Op)
    | Recorded(op: Op)
    | Dispatched(op: Op)
    | ReadBack(op: Op, result: Result)

  // log: the dispatched mutations in order; everRestored: the stage restored was recorded.
  datatype World = World(stage: Option<Stage>, snapshot: bool, markers: set<Op>, single: bool, flying: set<Op>,
                         log: seq<Op>, everRestored: bool, procs: map<nat, Proc>)

  datatype Move =
    | Prepare
    | Snapshot
    | SavePrepared
    | Load(phase: Phase)
    | Observe(result: Result)
    | Reserve
    | Record
    | Send(lost: bool)
    | Settle
    | Die

  datatype Step = Of(p: nat, move: Move) | Land(op: Op)

  const START := World(None, false, {}, false, {}, [], false, map[])

  function ProcOf(w: World, p: nat): Proc {
    if p in w.procs then w.procs[p] else Idle
  }

  predicate Truthful(w: World, result: Result) {
    match result
    case OriginalAA => !w.single
    case PreservedAS => w.single
    case Other => true
  }

  // The mutation that a process may reserve after what it has seen.
  function Chosen(x: Proc): Option<Op> {
    if x == Seen(ApplyPhase, Prepared, OriginalAA) then Some(Convert)
    else if x.Seen? && x.phase == RestorePhase && x.stage in {ApplySent, Converted} && x.result == PreservedAS then Some(Restore)
    else None
  }

  // The stage that a process records after what it has seen, if any.
  function Settles(x: Proc): Option<Stage> {
    if x == ReadBack(Restore, OriginalAA) || x == Seen(ReadPhase, RestoreSent, OriginalAA) then Some(Restored)
    else if x == ReadBack(Convert, PreservedAS) || x == Seen(ReadPhase, ApplySent, PreservedAS) then Some(Converted)
    else None
  }

  predicate CanMove(w: World, p: nat, move: Move) {
    var x := ProcOf(w, p);
    match move
    case Prepare => x == Idle && w.stage == None && !w.single
    case Snapshot => x == Baselined && !w.snapshot
    case SavePrepared => x == Snapshotted
    case Load(_) => x == Idle && w.stage.Some?
    case Observe(result) => (x.Loaded? || x.Dispatched?) && Truthful(w, result)
    case Reserve => Chosen(x).Some? && Chosen(x).value !in w.markers
    case Record => x.Reserved?
    case Send(_) => x.Recorded?
    case Settle => Settles(x).Some?
    case Die => true
  }

  function DoMove(w: World, p: nat, move: Move): World
    requires CanMove(w, p, move)
  {
    var x := ProcOf(w, p);
    match move
    case Prepare => w.(procs := w.procs[p := Baselined])
    case Snapshot => w.(snapshot := true, procs := w.procs[p := Snapshotted])
    case SavePrepared => w.(stage := Some(Prepared), procs := w.procs[p := Idle])
    case Load(phase) => w.(procs := w.procs[p := Loaded(phase, w.stage.value)])
    case Observe(result) =>
      w.(procs := w.procs[p := if x.Loaded? then Seen(x.phase, x.stage, result) else ReadBack(x.op, result)])
    case Reserve => w.(markers := w.markers + {Chosen(x).value}, procs := w.procs[p := Reserved(Chosen(x).value)])
    case Record =>
      w.(stage := Some(if x.op == Convert then ApplySent else RestoreSent), procs := w.procs[p := Recorded(x.op)])
    case Send(lost) =>
      if lost then w.(procs := w.procs[p := Dispatched(x.op)])
      else w.(flying := w.flying + {x.op}, log := w.log + [x.op], procs := w.procs[p := Dispatched(x.op)])
    case Settle =>
      w.(stage := Settles(x), everRestored := w.everRestored || Settles(x) == Some(Restored), procs := w.procs[p := Idle])
    case Die => w.(procs := w.procs[p := Idle])
  }

  predicate Can(w: World, step: Step) {
    match step
    case Of(p, move) => CanMove(w, p, move)
    case Land(op) => op in w.flying
  }

  function Do(w: World, step: Step): World
    requires Can(w, step)
  {
    match step
    case Of(p, move) => DoMove(w, p, move)
    case Land(op) => w.(flying := w.flying - {op}, single := op == Convert)
  }

  predicate CanRun(w: World, steps: seq<Step>)
    decreases |steps|
  {
    steps == [] || (Can(w, steps[0]) && CanRun(Do(w, steps[0]), steps[1..]))
  }

  function Final(w: World, steps: seq<Step>): World
    requires CanRun(w, steps)
    decreases |steps|
  {
    if steps == [] then w else Final(Do(w, steps[0]), steps[1..])
  }

  // ---------- invariants ----------

  predicate Landed(w: World, op: Op) {
    op in w.log && op !in w.flying
  }

  predicate Holds(x: Proc, op: Op) {
    (x.Reserved? || x.Recorded?) && x.op == op
  }

  // A mutation is dispatched by the one process that made its reservation, once.
  ghost predicate Once(w: World) {
    && (forall op | op in w.flying :: op in w.log)
    && (forall op | op in w.log :: op in w.markers)
    && (forall i, j | 0 <= i < j < |w.log| :: w.log[i] != w.log[j])
    && (forall p | p in w.procs && (w.procs[p].Reserved? || w.procs[p].Recorded?) ::
          w.procs[p].op in w.markers && w.procs[p].op !in w.log)
    && (forall p, q | p in w.procs && q in w.procs && p != q && (w.procs[p].Reserved? || w.procs[p].Recorded?) ::
          !Holds(w.procs[q], w.procs[p].op))
  }

  // What a process in this position knows to have landed.
  predicate Knows(w: World, x: Proc) {
    match x
    case Baselined => true
    case Loaded(_, stage) =>
      (stage == Converted ==> Landed(w, Convert)) && (stage == RestoreSent ==> Restore in w.markers)
      && (stage == Restored ==> Landed(w, Restore))
    case Seen(_, stage, result) =>
      (result == PreservedAS ==> Landed(w, Convert))
      && (stage == RestoreSent && result == OriginalAA ==> Landed(w, Restore))
    case Dispatched(op) => op == Restore ==> Restore in w.markers
    case ReadBack(op, result) =>
      (result == PreservedAS ==> Landed(w, Convert)) && (op == Restore && result == OriginalAA ==> Landed(w, Restore))
    case _ => true
  }

  // What a process knows and has recorded.
  ghost predicate InOrder(w: World, x: Proc) {
    Knows(w, x) && (x.Recorded? && x.op == Restore ==> Restore in w.markers)
  }

  // The topology is that of the landed mutations; a restoration is reserved only after the
  // conversion has landed.
  ghost predicate Consistent(w: World) {
    && (w.single <==> Landed(w, Convert) && !Landed(w, Restore))
    && (Restore in w.markers ==> Landed(w, Convert))
    && (w.stage.Some? ==> Knows(w, Loaded(ReadPhase, w.stage.value)))
    && (w.everRestored ==> Landed(w, Restore))
    && (forall p | p in w.procs :: InOrder(w, w.procs[p]))
  }

  lemma OnceReserve(w: World, p: nat)
    requires Once(w) && CanMove(w, p, Reserve)
    ensures Once(DoMove(w, p, Reserve))
  {
  }

  lemma OnceSend(w: World, p: nat, lost: bool)
    requires Once(w) && CanMove(w, p, Send(lost))
    ensures Once(DoMove(w, p, Send(lost)))
  {
  }

  // No reservation is made and nothing is sent.
  lemma OnceOtherwise(w: World, u: World, p: nat)
    requires Once(w) && u.markers == w.markers && u.log == w.log && u.flying <= w.flying
    requires p in u.procs && u.procs == w.procs[p := u.procs[p]]
    requires u.procs[p].Reserved? || u.procs[p].Recorded? ==> p in w.procs && Holds(w.procs[p], u.procs[p].op)
    ensures Once(u)
  {
  }

  lemma OnceMoved(w: World, p: nat, move: Move)
    requires Once(w) && CanMove(w, p, move)
    ensures Once(DoMove(w, p, move))
  {
    match move
    case Reserve => OnceReserve(w, p);
    case Send(lost) => OnceSend(w, p, lost);
    case _ => OnceOtherwise(w, DoMove(w, p, move), p);
  }

  // Nothing that has landed, and no reservation, is ever taken back.
  ghost predicate Onward(w: World, u: World) {
    w.markers <= u.markers && forall op :: Landed(w, op) ==> Landed(u, op)
  }

  lemma KnowsOnward(w: World, u: World, x: Proc)
    requires Onward(w, u) && Knows(w, x)
    ensures Knows(u, x)
  {
  }

  lemma OnwardMoved(w: World, p: nat, move: Move)
    requires Once(w) && CanMove(w, p, move)
    ensures Onward(w, DoMove(w, p, move))
    ensures forall op :: Landed(DoMove(w, p, move), op) ==> Landed(w, op)
  {
  }

  lemma InOrderMoved(w: World, p: nat, move: Move)
    requires Once(w) && Consistent(w) && CanMove(w, p, move)
    ensures InOrder(w, DoMove(w, p, move).procs[p])
  {
  }

  lemma StageMoved(w: World, p: nat, move: Move)
    requires Once(w) && Consistent(w) && CanMove(w, p, move)
    ensures var u := DoMove(w, p, move);
            && (u.stage.Some? ==> Knows(w, Loaded(ReadPhase, u.stage.value)))
            && (u.everRestored ==> Landed(w, Restore))
            && (Restore in u.markers ==> Landed(w, Convert)) && u.single == w.single
  {
  }

  lemma InOrderOnward(w: World, u: World, x: Proc)
    requires Onward(w, u) && InOrder(w, x)
    ensures InOrder(u, x)
  {
    KnowsOnward(w, u, x);
  }

  lemma ProcsMoved(w: World, u: World, p: nat)
    requires Consistent(w) && Onward(w, u) && p in u.procs && u.procs == w.procs[p := u.procs[p]] && InOrder(w, u.procs[p])
    ensures forall q | q in u.procs :: InOrder(u, u.procs[q])
  {
    forall q | q in u.procs ensures InOrder(u, u.procs[q]) {
      InOrderOnward(w, u, u.procs[q]);
    }
  }

  lemma MovesAlone(w: World, p: nat, move: Move)
    requires CanMove(w, p, move)
    ensures var u := DoMove(w, p, move); p in u.procs && u.procs == w.procs[p := u.procs[p]]
  {
  }

  lemma ConsistentNext(w: World, u: World)
    requires Consistent(w) && Onward(w, u) && forall op :: Landed(u, op) ==> Landed(w, op)
    requires u.stage.Some? ==> Knows(w, Loaded(ReadPhase, u.stage.value))
    requires (u.everRestored ==> Landed(w, Restore)) && (Restore in u.markers ==> Landed(w, Convert)) && u.single == w.single
    requires forall p | p in u.procs :: InOrder(u, u.procs[p])
    ensures Consistent(u)
  {
    if u.stage.Some? { KnowsOnward(w, u, Loaded(ReadPhase, u.stage.value)); }
  }

  lemma ConsistentMoved(w: World, p: nat, move: Move)
    requires Once(w) && Consistent(w) && CanMove(w, p, move)
    ensures Consistent(DoMove(w, p, move))
  {
    var u := DoMove(w, p, move);
    OnwardMoved(w, p, move);
    InOrderMoved(w, p, move);
    StageMoved(w, p, move);
    MovesAlone(w, p, move);
    ProcsMoved(w, u, p);
    ConsistentNext(w, u);
  }

  lemma ConsistentLanded(w: World, op: Op)
    requires Once(w) && Consistent(w) && op in w.flying
    ensures Once(Do(w, Land(op))) && Consistent(Do(w, Land(op)))
  {
  }

  lemma Kept(w: World, step: Step)
    requires Once(w) && Consistent(w) && Can(w, step)
    ensures Once(Do(w, step)) && Consistent(Do(w, step))
  {
    match step
    case Of(p, move) =>
      OnceMoved(w, p, move);
      ConsistentMoved(w, p, move);
    case Land(op) => ConsistentLanded(w, op);
  }

  lemma {:induction false} KeptRun(w: World, steps: seq<Step>)
    requires Once(w) && Consistent(w) && CanRun(w, steps)
    ensures Once(Final(w, steps)) && Consistent(Final(w, steps))
    decreases |steps|
  {
    if steps != [] {
      Kept(w, steps[0]);
      KeptRun(Do(w, steps[0]), steps[1..]);
    }
  }

  /** Over every interleaving and every crash each mutation is dispatched at most once, at
      most one is dispatched and not landed, and the conversion has landed before a
      restoration is ever reserved. */
  lemma SingleMutations(steps: seq<Step>)
    requires CanRun(START, steps)
    ensures var w := Final(START, steps);
            && (forall i, j | 0 <= i < j < |w.log| :: w.log[i] != w.log[j])
            && |w.flying| <= 1
            && (Restore in w.markers ==> Landed(w, Convert))
  {
    KeptRun(START, steps);
    var w := Final(START, steps);
    if w.flying != {} {
      var op :| op in w.flying;
      forall other | other in w.flying ensures other == op {
        assert other == Convert || other == Restore;
      }
      assert w.flying == {op};
    }
  }

  lemma {:induction false} LogGrows(w: World, steps: seq<Step>)
    requires CanRun(w, steps)
    ensures w.log <= Final(w, steps).log && (w.everRestored ==> Final(w, steps).everRestored)
    decreases |steps|
  {
    if steps != [] {
      LogGrows(Do(w, steps[0]), steps[1..]);
    }
  }

  lemma RoomForMore(log: seq<Op>, later: seq<Op>)
    requires log <= later && |log| < |later|
    requires forall i, j | 0 <= i < j < |later| :: later[i] != later[j]
    ensures Convert !in log || Restore !in log
  {
    assert forall i | 0 <= i < |log| :: log[i] == later[i];
    assert later[|log|] !in log;
    assert later[|log|] == Convert || later[|log|] == Restore;
  }

  /** From the moment any process records restored, the original topology is in place, nothing
      is in flight and nothing is ever dispatched again. */
  lemma RestoredIsFinal(before: seq<Step>, after: seq<Step>)
    requires CanRun(START, before) && Final(START, before).everRestored && CanRun(Final(START, before), after)
    ensures var w, u := Final(START, before), Final(Final(START, before), after);
            !u.single && u.flying == {} && u.log == w.log
  {
    KeptRun(START, before);
    var w := Final(START, before);
    KeptRun(w, after);
    LogGrows(w, after);
    var u := Final(w, after);
    assert u.flying == {} by {
      assert Convert !in u.flying && Restore !in u.flying;
    }
    if |w.log| < |u.log| { RoomForMore(w.log, u.log); }
  }

  // ---------- one baseline ----------

  // The snapshot is stored before the first stage is, by the one process that will store it.
  ghost predicate OneBaseline(w: World) {
    && (w.stage.Some? ==> w.snapshot)
    && (forall p | p in w.procs && w.procs[p] == Snapshotted :: w.snapshot && w.stage == None)
    && (forall p, q | p in w.procs && q in w.procs && w.procs[p] == Snapshotted && w.procs[q] == Snapshotted :: p == q)
    && (forall p | p in w.procs && w.procs[p] != Idle && w.procs[p] != Baselined && w.procs[p] != Snapshotted :: w.stage.Some?)
  }

  // What one process may become, as far as the baseline is concerned.
  lemma BaselineMoved(w: World, u: World, p: nat)
    requires OneBaseline(w) && p in u.procs && u.procs == w.procs[p := u.procs[p]]
    requires u.snapshot == w.snapshot && (w.stage.Some? ==> u.stage.Some?) && (u.stage.Some? ==> w.stage.Some?)
    requires u.procs[p] != Snapshotted && (u.procs[p] != Idle && u.procs[p] != Baselined ==> w.stage.Some?)
    ensures OneBaseline(u)
  {
  }

  lemma BaselineStored(w: World, p: nat, move: Move)
    requires OneBaseline(w) && CanMove(w, p, move) && (move.Snapshot? || move.SavePrepared?)
    ensures OneBaseline(DoMove(w, p, move)) && (move.SavePrepared? ==> w.stage == None) && (move.Snapshot? ==> w.stage == None)
  {
  }

  lemma OneBaselineMoved(w: World, p: nat, move: Move)
    requires OneBaseline(w) && CanMove(w, p, move)
    ensures OneBaseline(DoMove(w, p, move))
    ensures var u := DoMove(w, p, move); w.stage.Some? ==> u.stage.Some? && (u.stage == Some(Prepared) ==> w.stage == Some(Prepared))
  {
    if move.Snapshot? || move.SavePrepared? {
      BaselineStored(w, p, move);
    } else {
      BaselineMoved(w, DoMove(w, p, move), p);
    }
  }

  lemma OneBaselineKept(w: World, step: Step)
    requires OneBaseline(w) && Can(w, step)
    ensures OneBaseline(Do(w, step))
    ensures w.stage.Some? ==> Do(w, step).stage.Some? && (Do(w, step).stage == Some(Prepared) ==> w.stage == Some(Prepared))
  {
    if step.Of? { OneBaselineMoved(w, step.p, step.move); }
  }

  lemma {:induction false} OneBaselineRun(w: World, steps: seq<Step>)
    requires OneBaseline(w) && CanRun(w, steps)
    ensures OneBaseline(Final(w, steps))
    ensures w.stage.Some? ==> Final(w, steps).stage.Some? && (Final(w, steps).stage == Some(Prepared) ==> w.stage == Some(Prepared))
    decreases |steps|
  {
    if steps != [] {
      OneBaselineKept(w, steps[0]);
      OneBaselineRun(Do(w, steps[0]), steps[1..]);
    }
  }

  /** A baseline is recorded once: whatever processes run side by side, a stage that has moved
      on from prepared never goes back to it, nor is the state file ever lost. */
  lemma PreparedOnce(before: seq<Step>, after: seq<Step>)
    requires CanRun(START, before) && Final(START, before).stage.Some? && CanRun(Final(START, before), after)
    ensures var w, u := Final(START, before), Final(Final(START, before), after);
            u.stage.Some? && (u.stage == Some(Prepared) ==> w.stage == Some(Prepared))
  {
    OneBaselineRun(START, before);
    OneBaselineRun(Final(START, before), after);
  }

  // ---------- a run that completes ----------

  lemma {:induction false} Extend(w: World, steps: seq<Step>, step: Step)
    requires CanRun(w, steps) && Can(Final(w, steps), step)
    ensures CanRun(w, steps + [step]) && Final(w, steps + [step]) == Do(Final(w, steps), step)
    decreases |steps|
  {
    if steps != [] {
      assert (steps + [step])[1..] == steps[1..] + [step];
      Extend(Do(w, steps[0]), steps[1..], step);
    } else {
      assert steps + [step] == [step] && [step][1..] == [];
    }
  }

  // Where one process can carry out this mutation, and where it has dispatched it.
  predicate Begins(w: World, phase: Phase, op: Op) {
    && ProcOf(w, 0) == Idle && w.stage.Some? && op !in w.markers && w.flying == {}
    && if op == Convert then phase == ApplyPhase && w.stage.value == Prepared && !w.single
       else phase == RestorePhase && w.stage.value == Converted && w.single
  }

  predicate Underway(w: World, u: World, op: Op) {
    && ProcOf(u, 0) == Dispatched(op) && u.stage == Some(if op == Convert then ApplySent else RestoreSent)
    && u.flying == {op} && u.log == w.log + [op] && u.markers == w.markers + {op}
  }

  lemma Dispatching(steps: seq<Step>, phase: Phase, op: Op) returns (more: seq<Step>)
    requires CanRun(START, steps) && Begins(Final(START, steps), phase, op)
    ensures CanRun(START, more) && Underway(Final(START, steps), Final(START, more), op)
  {
    var before := if op == Convert then OriginalAA else PreservedAS;
    more := steps;
    Extend(START, more, Of(0, Load(phase)));
    more := more + [Of(0, Load(phase))];
    Extend(START, more, Of(0, Observe(before)));
    more := more + [Of(0, Observe(before))];
    Extend(START, more, Of(0, Reserve));
    more := more + [Of(0, Reserve)];
    Extend(START, more, Of(0, Record));
    more := more + [Of(0, Record)];
    Extend(START, more, Of(0, Send(false)));
    more := more + [Of(0, Send(false))];
  }

  // The mutation of a phase, reserved, sent, landed and read back by one process.
  lemma OneMutation(steps: seq<Step>, phase: Phase, op: Op) returns (more: seq<Step>)
    requires CanRun(START, steps) && Begins(Final(START, steps), phase, op)
    ensures CanRun(START, more)
    ensures var w, u := Final(START, steps), Final(START, more);
            && ProcOf(u, 0) == Idle && u.stage == Some(if op == Convert then Converted else Restored) && u.single == (op == Convert)
            && u.flying == {} && u.log == w.log + [op] && u.markers == w.markers + {op}
  {
    var after := if op == Convert then PreservedAS else OriginalAA;
    more := Dispatching(steps, phase, op);
    Extend(START, more, Land(op));
    more := more + [Land(op)];
    Extend(START, more, Of(0, Observe(after)));
    more := more + [Of(0, Observe(after))];
    Extend(START, more, Of(0, Settle));
    more := more + [Of(0, Settle)];
  }

  // A process that dies after its dispatch; the mutation lands, and another process reads it
  // back and records it.
  lemma OneReconciled(steps: seq<Step>, phase: Phase, op: Op) returns (more: seq<Step>)
    requires CanRun(START, steps) && Begins(Final(START, steps), phase, op)
    ensures CanRun(START, more)
    ensures var w, u := Final(START, steps), Final(START, more);
            && ProcOf(u, 0) == Idle && u.stage == Some(if op == Convert then Converted else Restored) && u.single == (op == Convert)
            && u.flying == {} && u.log == w.log + [op] && u.markers == w.markers + {op}
  {
    more := Dispatching(steps, phase, op);
    Extend(START, more, Of(0, Die));
    more := more + [Of(0, Die)];
    Extend(START, more, Land(op));
    more := more + [Land(op)];
    more := Reconciling(more, op);
  }

  lemma Reconciling(steps: seq<Step>, op: Op) returns (more: seq<Step>)
    requires CanRun(START, steps)
    requires var w := Final(START, steps);
             ProcOf(w, 0) == Idle && w.stage == Some(if op == Convert then ApplySent else RestoreSent) && w.single == (op == Convert)
    ensures CanRun(START, more)
    ensures var w, u := Final(START, steps), Final(START, more);
            && ProcOf(u, 0) == Idle && u.stage == Some(if op == Convert then Converted else Restored)
            && u.single == w.single && u.flying == w.flying && u.log == w.log && u.markers == w.markers
  {
    var after := if op == Convert then PreservedAS else OriginalAA;
    more := steps;
    Extend(START, more, Of(0, Load(ReadPhase)));
    more := more + [Of(0, Load(ReadPhase))];
    Extend(START, more, Of(0, Observe(after)));
    more := more + [Of(0, Observe(after))];
    Extend(START, more, Of(0, Settle));
    more := more + [Of(0, Settle)];
  }

  // A prepared gateway.
  lemma Preparing() returns (steps: seq<Step>)
    ensures CanRun(START, steps) && Final(START, steps) == START.(stage := Some(Prepared), snapshot := true, procs := map[0 := Idle])
  {
    steps := [];
    Extend(START, steps, Of(0, Prepare));
    steps := steps + [Of(0, Prepare)];
    Extend(START, steps, Of(0, Snapshot));
    steps := steps + [Of(0, Snapshot)];
    Extend(START, steps, Of(0, SavePrepared));
    steps := steps + [Of(0, SavePrepared)];
  }

  /** A gateway is prepared, converted and restored, each mutation dispatched once. */
  lemma ConversionHappens() returns (steps: seq<Step>)
    ensures CanRun(START, steps)
    ensures var w := Final(START, steps); w.stage == Some(Restored) && w.log == [Convert, Restore] && w.flying == {} && !w.single
  {
    steps := Preparing();
    steps := OneMutation(steps, ApplyPhase, Convert);
    steps := OneMutation(steps, RestorePhase, Restore);
  }

  /** The same when every process dies right after its dispatch: reading records what landed. */
  lemma ReconciliationHappens() returns (steps: seq<Step>)
    ensures CanRun(START, steps)
    ensures var w := Final(START, steps); w.stage == Some(Restored) && w.log == [Convert, Restore] && w.flying == {} && !w.single
  {
    steps := Preparing();
    steps := OneReconciled(steps, ApplyPhase, Convert);
    steps := OneReconciled(steps, RestorePhase, Restore);
  }

  // ---------- what a process may do ----------

  /** A mutation is reserved exactly once, and only after what the phase demands was seen: the
      conversion by apply on a prepared original gateway, the restoration by restore on a
      preserved one whose conversion was sent. */
  lemma ReserveExactly(w: World, p: nat)
    requires p in w.procs && w.procs[p].Seen?
    ensures var Seen(phase, stage, result) := w.procs[p];
            CanMove(w, p, Reserve) <==>
              || (phase == ApplyPhase && stage == Prepared && result == OriginalAA && Convert !in w.markers)
              || (phase == RestorePhase && (stage == ApplySent || stage == Converted) && result == PreservedAS && Restore !in w.markers)
  {
  }

  /** A read records the end of an outstanding mutation exactly when it has seen its effect, and
      a process that dispatched one exactly when it reads it back. */
  lemma SettleExactly(w: World, p: nat)
    requires p in w.procs
    ensures CanMove(w, p, Settle) <==>
            match w.procs[p]
            case Seen(phase, stage, result) =>
              phase == ReadPhase && ((stage == ApplySent && result == PreservedAS) || (stage == RestoreSent && result == OriginalAA))
            case ReadBack(op, result) => if op == Convert then result == PreservedAS else result == OriginalAA
            case _ => false
    ensures CanMove(w, p, Settle) ==>
              DoMove(w, p, Settle).stage == Some(if w.procs[p].result == PreservedAS then Converted else Restored)
  {
  }
}
