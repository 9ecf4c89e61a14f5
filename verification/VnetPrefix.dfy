/** The one-shot prefix experiment of deploy/azure/qualify-owned-unapproved-prefix.py, by one
    process at a time.

    Its writes carry no reservation file, and its restore phase accepts an unchanged prefix
    list while the addition is recorded as sent.  A dispatched write lands at any later time
    or never. */
module VnetPrefix {
  import opened Bytes

  datatype Op = Add | Remove
  datatype Stage = Prepared | AddSent | Added | RestoreSent | Restored

  // stage and added are what the process read before it decided.
  datatype Proc =
    | Idle
    | Seen(op: Op, stage: Stage, added: bool)
    | Recorded(op: Op, stage: Stage, added: bool)
    | Written(op: Op, stage: Stage, added: bool)
    | Verified(op: Op, stage: Stage, added: bool)

  datatype World = World(stage: Option<Stage>, added: bool, flying: set<Op>, log: seq<Op>, proc: Proc)

  // Look starts the add or the restore phase; Land(op) is the cloud's own step.
  datatype Step = Prepare | Look(op: Op) | Record | Send(lost: bool) | Verify | Finish | Die | Land(op: Op)

  const START := World(None, false, {}, [], Idle)

  // What the phases demand of the stage and of the prefix list.
  predicate Admits(op: Op, stage: Stage, added: bool) {
    match op
    case Add => stage == Prepared && !added
    case Remove => stage == AddSent || stage == Added || (stage == RestoreSent && !added)
  }

  predicate Can(w: World, step: Step) {
    var x := w.proc;
    match step
    case Prepare => x == Idle && w.stage == None
    case Look(op) => x == Idle && w.stage.Some? && Admits(op, w.stage.value, w.added)
    case Record => x.Seen? && w.added == x.added && x.added != (x.op == Add)
    case Send(_) => x.Recorded?
    case Verify => (x.Written? || (x.Seen? && x.added == (x.op == Add))) && w.added == (x.op == Add)
    case Finish => x.Verified?
    case Die => true
    case Land(op) => op in w.flying
  }

  function Do(w: World, step: Step): World
    requires Can(w, step)
  {
    var x := w.proc;
    match step
    case Prepare => w.(stage := Some(Prepared))
    case Look(op) => w.(proc := Seen(op, w.stage.value, w.added))
    case Record =>
      w.(stage := Some(if x.op == Add then AddSent else RestoreSent), proc := Recorded(x.op, x.stage, x.added))
    case Send(lost) =>
      if lost then w.(proc := Written(x.op, x.stage, x.added))
      else w.(flying := w.flying + {x.op}, log := w.log + [x.op], proc := Written(x.op, x.stage, x.added))
    case Verify => w.(proc := Verified(x.op, x.stage, x.added))
    case Finish => w.(stage := Some(if x.op == Add then Added else Restored), proc := Idle)
    case Die => w.(proc := Idle)
    case Land(op) => w.(flying := w.flying - {op}, added := op == Add)
  }

  predicate CanRun(w: World, steps: seq<Step>)
    decreases |steps|
  {
    steps == [] || (Can(w, steps[0]) && CanRun(Do(w, steps[0]), steps[1..]))
  }

  function Final(w: World, steps: seq<Step>): World
    requires CanRun(w, steps)
    decreases |steps|
  {
    if steps == [] then w else Final(Do(w, steps[0]), steps[1..])
  }

  predicate Landed(w: World, op: Op) {
    op in w.log && op !in w.flying
  }

  // How far the writes can be at a stage.
  predicate Progress(w: World, stage: Stage) {
    match stage
    case Prepared => w.log == []
    case AddSent => Remove !in w.log
    case Added => Landed(w, Add) && Remove !in w.log
    case RestoreSent => Landed(w, Add)
    case Restored => true
  }

  predicate AtWork(w: World) {
    var x := w.proc;
    match x
    case Idle => true
    case Seen(op, stage, added) => w.stage == Some(stage) && Admits(op, stage, added) && (added ==> Landed(w, Add))
                                   && (stage == RestoreSent ==> Landed(w, Remove))
    case Recorded(Add, stage, added) => w.stage == Some(AddSent) && stage == Prepared && !added && w.log == []
    case Recorded(Remove, stage, added) =>
      Admits(Remove, stage, added) && w.stage == Some(RestoreSent) && added && Landed(w, Add) && Remove !in w.log
    case Written(Add, stage, _) => w.stage == Some(AddSent) && stage == Prepared && Remove !in w.log
    case Written(Remove, stage, added) =>
      Admits(Remove, stage, added) && w.stage == Some(RestoreSent) && added && Landed(w, Add)
    case Verified(Add, _, _) => w.stage == Some(AddSent) && Landed(w, Add) && Remove !in w.log
    case Verified(Remove, stage, added) =>
      Admits(Remove, stage, added) && ((stage == AddSent && !added) || (Landed(w, Add) && Landed(w, Remove)))
  }

  predicate Sound(w: World) {
    && (forall op | op in w.flying :: op in w.log)
    && (forall i, j | 0 <= i < j < |w.log| :: w.log[i] != w.log[j])
    && (w.added <==> Landed(w, Add) && !Landed(w, Remove))
    && (Remove in w.log ==> Landed(w, Add))
    && (w.stage == None ==> w.log == [])
    && (w.stage.Some? ==> Progress(w, w.stage.value))
    && AtWork(w)
  }

  lemma Kept(w: World, step: Step)
    requires Sound(w) && Can(w, step)
    ensures Sound(Do(w, step))
  {
  }

  lemma {:induction false} KeptRun(w: World, steps: seq<Step>)
    requires Sound(w) && CanRun(w, steps)
    ensures Sound(Final(w, steps))
    decreases |steps|
  {
    if steps != [] {
      Kept(w, steps[0]);
      KeptRun(Do(w, steps[0]), steps[1..]);
    }
  }

  /** What does hold: over every run with crashes each write is dispatched at most once, and
      the removal only after the addition has landed. */
  lemma EachOnce(steps: seq<Step>)
    requires CanRun(START, steps)
    ensures var w := Final(START, steps);
            (forall i, j | 0 <= i < j < |w.log| :: w.log[i] != w.log[j]) && (Remove in w.log ==> Landed(w, Add))
  {
    KeptRun(START, steps);
  }

  // A run that ends with a restoration about to be recorded, decided on this view.
  predicate Restoring(steps: seq<Step>, stage: Stage, added: bool) {
    CanRun(START, steps) && Final(START, steps).proc == Verified(Remove, stage, added)
  }

  // Prepare, add without an effect yet, a crash, then restore over the unchanged list.
  const EARLY: seq<Step> := [Prepare, Look(Add), Record, Send(false), Die, Look(Remove), Verify]

  /** The failing run: restored is recorded while the addition is in flight, and when it
      lands afterwards the prefix is there although the experiment is over. */
  lemma RestoredTooEarly()
    ensures Restoring(EARLY, AddSent, false)
    ensures var w := Do(Final(START, EARLY), Finish);
            w.stage == Some(Restored) && w.flying == {Add} && Do(w, Land(Add)).added
  {
  }

  lemma SettledOtherwise(steps: seq<Step>, stage: Stage, added: bool)
    requires Restoring(steps, stage, added) && !(stage == AddSent && !added)
    ensures Final(START, steps).flying == {} && !Final(START, steps).added
  {
    KeptRun(START, steps);
    var w := Final(START, steps);
    assert Add !in w.flying && Remove !in w.flying;
  }

  /** A completed restoration leaves nothing in flight and the original prefixes, in every
      run, exactly unless it was decided on an addition recorded as sent and a prefix list
      that did not show it. */
  lemma RestoredSettles(stage: Stage, added: bool)
    ensures (forall steps | Restoring(steps, stage, added) ::
               Final(START, steps).flying == {} && !Final(START, steps).added)
            <==> !(stage == AddSent && !added)
  {
    if stage == AddSent && !added {
      RestoredTooEarly();
      assert Restoring(EARLY, stage, added);
      assert Do(Final(START, EARLY), Finish).flying == Final(START, EARLY).flying;
    } else {
      forall steps | Restoring(steps, stage, added)
        ensures Final(START, steps).flying == {} && !Final(START, steps).added
      {
        SettledOtherwise(steps, stage, added);
      }
    }
  }

  // ---------- runs that complete ----------

  lemma {:induction false} Extend(w: World, steps: seq<Step>, step: Step)
    requires CanRun(w, steps) && Can(Final(w, steps), step)
    ensures CanRun(w, steps + [step]) && Final(w, steps + [step]) == Do(Final(w, steps), step)
    decreases |steps|
  {
    if steps != [] {
      assert (steps + [step])[1..] == steps[1..] + [step];
      Extend(Do(w, steps[0]), steps[1..], step);
    } else {
      assert steps + [step] == [step] && [step][1..] == [];
    }
  }

  // One write, from the look to its dispatch and landing.
  lemma OneWrite(steps: seq<Step>, op: Op) returns (more: seq<Step>)
    requires CanRun(START, steps)
    requires var w := Final(START, steps);
             w.proc == Idle && w.stage == Some(if op == Add then Prepared else Added) && w.added == (op == Remove) && w.flying == {}
    ensures CanRun(START, more)
    ensures var w, u := Final(START, steps), Final(START, more);
            && u.proc == Written(op, w.stage.value, w.added) && u.stage == Some(if op == Add then AddSent else RestoreSent)
            && u.added == (op == Add) && u.flying == {} && u.log == w.log + [op]
  {
    more := steps;
    Extend(START, more, Look(op));
    more := more + [Look(op)];
    Extend(START, more, Record);
    more := more + [Record];
    Extend(START, more, Send(false));
    more := more + [Send(false)];
    Extend(START, more, Land(op));
    more := more + [Land(op)];
  }

  // The read-back and the record of the end.
  lemma OneEnd(steps: seq<Step>, op: Op) returns (more: seq<Step>)
    requires CanRun(START, steps)
    requires var w := Final(START, steps);
             w.added == (op == Add) && ((w.proc.Written? && w.proc.op == op) || (w.proc.Seen? && w.proc.op == op && w.proc.added == (op == Add)))
    ensures CanRun(START, more)
    ensures Final(START, more) == Final(START, steps).(stage := Some(if op == Add then Added else Restored), proc := Idle)
    ensures forall step | step in steps :: step in more
  {
    more := steps;
    Extend(START, more, Verify);
    more := more + [Verify];
    Extend(START, more, Finish);
    more := more + [Finish];
  }

  lemma PrefixAdded() returns (steps: seq<Step>)
    ensures CanRun(START, steps) && Final(START, steps) == World(Some(Added), true, {}, [Add], Idle)
  {
    steps := [];
    Extend(START, steps, Prepare);
    steps := steps + [Prepare];
    steps := OneWrite(steps, Add);
    steps := OneEnd(steps, Add);
  }

  /** The prefix is added and removed, each write dispatched once; also when the process dies
      after it has sent the removal and another run reads back its effect. */
  lemma AddedAndRemoved(dies: bool) returns (steps: seq<Step>)
    ensures CanRun(START, steps) && Final(START, steps) == World(Some(Restored), false, {}, [Add, Remove], Idle)
    ensures dies ==> Die in steps
  {
    steps := PrefixAdded();
    steps := OneWrite(steps, Remove);
    if dies {
      Extend(START, steps, Die);
      steps := steps + [Die];
      Extend(START, steps, Look(Remove));
      steps := steps + [Look(Remove)];
    }
    steps := OneEnd(steps, Remove);
  }
}
