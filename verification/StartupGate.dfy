/** The restoration startup gate of deploy/ipsec/runtime_restore_runner.py: one run of the
    supervisor, and any number of resumes of it, each of which may die anywhere.

    A Host keeps for every path what is visible now and what a crash of the whole host could
    leave there; only an fsync narrows the latter.  The journal, the container and the clock
    change at any moment. */
module StartupGate {
  import opened Bytes

  // ---------- what the files hold ----------

  // lineage stands for the entries, the owner and the version.
  datatype Journal = Journal(lineage: string, sequence: nat)
  datatype Snapshot = Snapshot(boot: nat, instance: nat)
  datatype StopProof = StopProof(before: Snapshot, journal: Journal)
  datatype Runtime = Runtime(stop: StopProof, journal: Journal, current: Journal, boot: nat, instance: nat)
  datatype Receipt = Earlier(id: nat) | Assembled(stop: StopProof, journal: Journal, current: Journal, runtime: Runtime)

  // Torn is a file whose content had not been written out.
  datatype File =
    | Torn
    | GateFile
    | GateRecord
    | BeforeFile(snapshot: Snapshot)
    | StoppedFile(stop: StopProof)
    | JournalFile(journal: Journal)
    | RuntimeFile(runtime: Runtime)
    | ReceiptFile(receipt: Receipt)

  datatype Name = GateRecordName | BeforeName | PreviousName | StoppedName | StoppedJournalName | CurrentJournalName
                | RuntimeName | ReceiptName

  // Directory 0 is the run's own evidence directory, the others are its resumes'.
  datatype Path = Gate | Target | Temporary(id: nat) | Evidence(directory: nat, name: Name)

  // journal_entries_unchanged, in its effective second definition.
  predicate Unchanged(stopped: Journal, current: Journal) {
    current.lineage == stopped.lineage && stopped.sequence <= current.sequence
  }

  /** The receipt was assembled from this stop proof: it carries the proof, the journal the
      proof was taken over, a later state of the same journal, and a runtime of the same
      boot that is not the stopped one. */
  predicate AssembledFrom(r: Receipt, stop: StopProof) {
    && r.Assembled? && r.stop == stop && r.journal == stop.journal && Unchanged(stop.journal, r.current)
    && r.runtime == Runtime(stop, stop.journal, r.current, stop.before.boot, r.runtime.instance)
    && r.runtime.instance != stop.before.instance
  }

  predicate Installed(file: Option<File>, stop: Option<StopProof>) {
    stop.Some? && file.Some? && file.value.ReceiptFile? && AssembledFrom(file.value.receipt, stop.value)
  }

  // What can ever stand at a path: found is what stood at the target when the run began.
  predicate Allowed(p: Path, file: Option<File>, found: Option<File>, stop: Option<StopProof>) {
    match p
    case Target => file == found || Installed(file, stop)
    case Gate => file in {None, Some(Torn), Some(GateFile)}
    case Temporary(_) => file in {None, Some(Torn)} || Installed(file, stop)
    case Evidence(_, name) =>
      file in {None, Some(Torn)} ||
      match name
      case StoppedName => stop.Some? && file.value == StoppedFile(stop.value)
      case StoppedJournalName => stop.Some? && file.value == JournalFile(stop.value.journal)
      case CurrentJournalName => stop.Some? && file.value.JournalFile? && Unchanged(stop.value.journal, file.value.journal)
      case RuntimeName =>
        stop.Some? && file.value.RuntimeFile?
        && var f := file.value.runtime;
           f == Runtime(stop.value, stop.value.journal, f.current, stop.value.before.boot, f.instance)
           && f.instance != stop.value.before.instance && Unchanged(stop.value.journal, f.current)
      case ReceiptName => Installed(file, stop)
      case _ => true
  }

  function At(files: map<Path, File>, p: Path): Option<File> {
    if p in files then Some(files[p]) else None
  }

  ghost predicate Vacant(files: map<Path, File>, id: nat) {
    At(files, Temporary(id)) == None && forall name :: At(files, Evidence(id, name)) == None
  }

  // Nothing is there yet of what follows the stop.
  ghost predicate BeforeStop(files: map<Path, File>, uuid: nat, previous: Option<File>) {
    && At(files, Gate) == Some(GateFile) && At(files, Target) == previous && Vacant(files, uuid) && uuid != 0
    && forall name | name in {StoppedName, StoppedJournalName, CurrentJournalName, RuntimeName, ReceiptName} ::
         At(files, Evidence(0, name)) == None
  }

  // The files of a run before the stop: the gate, its record, the snapshot and what was found.
  function Announced(files: map<Path, File>, before: Snapshot, previous: Option<File>): map<Path, File> {
    var noted := files[Gate := GateFile][Evidence(0, GateRecordName) := GateRecord][Evidence(0, BeforeName) := BeforeFile(before)];
    if previous.Some? then noted[Evidence(0, PreviousName) := previous.value] else noted
  }

  // The stop proof and the journal it was taken over.
  function Proved(files: map<Path, File>, proof: StopProof): map<Path, File> {
    files[Evidence(0, StoppedName) := StoppedFile(proof)][Evidence(0, StoppedJournalName) := JournalFile(proof.journal)]
  }

  lemma GateAnnounced(files: map<Path, File>, uuid: nat, previous: Option<File>, before: Snapshot)
    requires Vacant(files, 0) && Vacant(files, uuid) && uuid != 0 && At(files, Target) == previous
    ensures BeforeStop(Announced(files, before, previous), uuid, previous)
  {
  }

  /** What a resume demands of the files and the journal before it takes the lock: the files
      that the run kept belong together, its gate and the gate's record are in place, the
      target holds what the run found, and the journal is a later state of the stopped one. */
  ghost predicate Kept(files: map<Path, File>, journal: Journal) {
    var before, stopped, taken :=
      At(files, Evidence(0, BeforeName)), At(files, Evidence(0, StoppedName)), At(files, Evidence(0, StoppedJournalName));
    && before.Some? && before.value.BeforeFile? && stopped.Some? && stopped.value.StoppedFile? && taken.Some? && taken.value.JournalFile?
    && stopped.value.stop == StopProof(before.value.snapshot, taken.value.journal)
    && At(files, Gate) == Some(GateFile) && At(files, Evidence(0, GateRecordName)) == Some(GateRecord)
    && At(files, Target) == At(files, Evidence(0, PreviousName))
    && journal.lineage == taken.value.journal.lineage && taken.value.journal.sequence <= journal.sequence
  }

  lemma KeptByRun(files: map<Path, File>, proof: StopProof, previous: Option<File>, journal: Journal)
    requires Vacant(files, 0) && At(files, Target) == previous && journal == proof.journal
    ensures var kept := Proved(Announced(files, proof.before, previous), proof);
            Kept(kept, journal) && At(kept, Evidence(0, BeforeName)) == Some(BeforeFile(proof.before))
            && forall id | id != 0 && Vacant(files, id) :: Vacant(kept, id)
  {
    var kept := Proved(Announced(files, proof.before, previous), proof);
    assert At(files, Evidence(0, PreviousName)) == None;
    forall id | id != 0 && Vacant(files, id) ensures Vacant(kept, id) {
      forall name ensures At(kept, Evidence(id, name)) == None {
        assert At(files, Evidence(id, name)) == None;
      }
    }
  }

  // What an attempt starts from in its directory.
  ghost predicate Attempted(files: map<Path, File>, directory: nat, proof: StopProof) {
    && At(files, Evidence(directory, StoppedName)) == Some(StoppedFile(proof))
    && At(files, Evidence(directory, StoppedJournalName)) == Some(JournalFile(proof.journal))
    && At(files, Evidence(directory, CurrentJournalName)) == None && At(files, Evidence(directory, RuntimeName)) == None
    && At(files, Evidence(directory, ReceiptName)) == None
  }

  lemma AttemptOpened(files: map<Path, File>, directory: nat, next: nat, proof: StopProof)
    requires Vacant(files, directory) && Vacant(files, next) && directory != next
    ensures var after := files[Evidence(directory, StoppedName) := StoppedFile(proof)]
                               [Evidence(directory, StoppedJournalName) := JournalFile(proof.journal)];
            Attempted(after, directory, proof) && Vacant(after, next)
  {
  }

  class Host {
    // On a calm host nothing dies and nobody interferes.
    const calm: bool
    var visible: map<Path, File>
    var survivors: map<Path, set<Option<File>>>   // a path not listed is durable
    var boot: nat
    var instance: nat
    var journal: Journal
    var uuid: nat
    // The gate was created durably; a stop of the container was ordered; its proof.
    ghost var gated: bool
    ghost var ordered: bool
    ghost var stop: Option<StopProof>
    ghost const found: Option<File>

    // The host when the run holds the supervisor's lock and its directory is new.
    constructor (receipt: Option<File>, gate: bool, boot: nat, instance: nat, journal: Journal, calm: bool)
      requires receipt.Some? ==> receipt.value.ReceiptFile?
      ensures Sound() && !gated && stop == None && found == receipt && Visible(Target) == receipt
      ensures (Visible(Gate) == None) == !gate && !ordered && this.calm == calm && uuid != 0 && forall id :: New(id)
      ensures this.boot == boot && this.instance == instance && this.journal == journal
    {
      this.calm := calm;
      var files: map<Path, File> := if receipt.Some? then map[Target := receipt.value] else map[];
      visible := if gate then files[Gate := GateFile] else files;
      survivors := map[];
      this.boot, this.instance, this.journal, uuid := boot, instance, journal, 1;
      gated, ordered, stop, found := false, false, None, receipt;
    }

    function Visible(p: Path): Option<File>
      reads `visible
    {
      At(visible, p)
    }

    ghost function Survivors(p: Path): set<Option<File>>
      reads `visible, `survivors
    {
      if p in survivors then survivors[p] else {Visible(p)}
    }

    // No file of this directory and no temporary file of this name exists.
    ghost predicate New(id: nat)
      reads `visible
    {
      Vacant(visible, id)
    }

    ghost predicate Sound()
      reads this
    {
      && (forall p :: Visible(p) in Survivors(p))
      && (forall p, f | f in Survivors(p) :: Allowed(p, f, found, stop))
      && (ordered ==> gated) && (stop.Some? ==> ordered)
      && (gated ==> Some(Torn) !in Survivors(Gate))
      && (gated && None in Survivors(Gate) ==> forall f | f in Survivors(Target) :: Installed(f, stop))
      && (stop == None ==> forall f | f in Survivors(Target) :: f == found)
    }

    // What the invariant says when the gate that this run created is gone.
    lemma GateSafety()
      requires Sound() && gated && Visible(Gate) == None
      ensures Installed(Visible(Target), stop)
      ensures forall f | f in Survivors(Target) :: Installed(f, stop)
    {
    }

    // Neither the run's history nor its evidence is taken back.
    twostate predicate Onward()
      reads this
    {
      && (old(gated) ==> gated) && (old(stop).Some? ==> stop == old(stop)) && old(uuid) <= uuid && old(boot) <= boot
    }

    // ---------- crashes ----------

    method HostCrash()
      requires Sound()
      modifies this
      ensures Sound() && Onward() && gated == old(gated) && ordered == old(ordered) && stop == old(stop) && uuid == old(uuid)
    {
      var rest := survivors.Keys;
      while rest != {}
        invariant rest <= survivors.Keys && survivors == old(survivors) && Sound()
        invariant gated == old(gated) && ordered == old(ordered) && stop == old(stop) && uuid == old(uuid) && boot == old(boot)
        decreases rest
      {
        var p :| p in rest;
        assert Visible(p) in Survivors(p);
        var left :| left in survivors[p];
        label Before:
        visible := if left.Some? then visible[p := left.value] else visible - {p};
        assert forall q :: Survivors(q) == old@Before(Survivors(q));
        rest := rest - {p};
      }
      survivors := map[];
      boot := boot + 1;
    }

    // Something else happens; dead says that the process is gone.
    method Pause() returns (dead: bool)
      requires Sound()
      modifies this
      ensures Sound() && Onward() && gated == old(gated) && ordered == old(ordered) && stop == old(stop) && uuid == old(uuid)
      ensures !dead ==> visible == old(visible) && survivors == old(survivors) && boot == old(boot)
      ensures calm ==> !dead && Undisturbed()
    {
      if !calm { journal, instance := *, *; }
      dead := *;
      dead := dead && !calm;
      if dead {
        var host: bool := *;
        if host { HostCrash(); }
      }
    }

    twostate predicate Undisturbed()
      reads this
    {
      journal == old(journal) && instance == old(instance) && boot == old(boot)
    }

    // ---------- file operations ----------

    twostate predicate SameHistory()
      reads this
    {
      && gated == old(gated) && ordered == old(ordered) && stop == old(stop) && uuid == old(uuid) && boot == old(boot)
    }

    twostate predicate OnlyAt(p: Path)
      reads this
    {
      forall q | q != p :: Visible(q) == old(Visible(q)) && Survivors(q) == old(Survivors(q))
    }

    // Neither the gate nor the target is touched.
    twostate predicate Spared()
      reads this
    {
      Visible(Gate) == old(Visible(Gate)) && Visible(Target) == old(Visible(Target))
    }

    // Nothing at all is touched.
    twostate predicate Unwritten()
      reads this
    {
      visible == old(visible) && survivors == old(survivors) && uuid == old(uuid)
    }

    // A change of one entry or content that is not synced yet.
    method Change(p: Path, f: Option<File>)
      modifies this
      ensures SameHistory() && OnlyAt(p) && Undisturbed()
      ensures Visible(p) == f && Survivors(p) == old(Survivors(p)) + {f}
      ensures visible == if f.Some? then old(visible)[p := f.value] else old(visible) - {p}
    {
      survivors := survivors[p := (if p in survivors then survivors[p] else {Visible(p)}) + {f}];
      visible := if f.Some? then visible[p := f.value] else visible - {p};
      assert Visible(p) == f && Survivors(p) == old(Survivors(p)) + {f};
    }

    // An allowed change.
    method Put(p: Path, f: Option<File>)
      requires Sound() && Allowed(p, f, found, stop)
      requires p == Target ==> Installed(f, stop)
      requires p == Gate && gated ==> f == None && forall t | t in Survivors(Target) :: Installed(t, stop)
      modifies this
      ensures Sound() && SameHistory() && OnlyAt(p) && Undisturbed()
      ensures Visible(p) == f && Survivors(p) == old(Survivors(p)) + {f}
      ensures visible == if f.Some? then old(visible)[p := f.value] else old(visible) - {p}
    {
      Change(p, f);
    }

    method Sync(p: Path)
      requires Sound()
      modifies this
      ensures Sound() && SameHistory() && OnlyAt(p) && Undisturbed()
      ensures visible == old(visible) && Survivors(p) == {Visible(p)}
    {
      survivors := survivors - {p};
    }

    /** write_bytes and private_write: exclusive creation, the content, then both fsyncs. */
    method WriteBytes(p: Path, f: File) returns (ok: bool)
      requires Sound() && Allowed(p, Some(f), found, stop) && p != Target && (p == Gate ==> !gated)
      modifies this
      ensures Sound() && Onward() && gated == old(gated) && ordered == old(ordered) && stop == old(stop) && uuid == old(uuid)
      ensures ok ==> boot == old(boot) && visible == old(visible)[p := f] && Survivors(p) == {Some(f)}
      ensures old(Visible(p)) != None ==> !ok && Unwritten()
      ensures calm ==> Undisturbed() && (old(Visible(p)) == None ==> ok)
    {
      if Visible(p) != None { return false; }
      Put(p, Some(Torn));
      var dead := Pause();
      if dead { return false; }
      Put(p, Some(f));
      dead := Pause();
      if dead { return false; }
      Sync(p);
      dead := Pause();
      return !dead;
    }

    // ---------- finish_restoration ----------

    // The fresh runtime, observed twice around a look at the gate.
    method ObserveRuntime(directory: nat, proof: StopProof, current: Journal) returns (runtime: Option<Runtime>)
      requires Sound() && stop == Some(proof) && Unchanged(proof.journal, current)
      modifies this
      ensures Sound() && Onward() && gated == old(gated) && stop == old(stop)
      ensures runtime.Some? ==>
                Allowed(Evidence(directory, RuntimeName), Some(RuntimeFile(runtime.value)), found, stop)
      ensures runtime.Some? ==> visible == old(visible) && uuid == old(uuid) && runtime.value.current == current
      ensures runtime.Some? ==>
                instance == old(instance) == runtime.value.instance && boot == runtime.value.boot && Visible(Gate) == Some(GateFile)
      ensures calm && old(Visible(Evidence(directory, StoppedName))) == Some(StoppedFile(proof)) && boot == proof.before.boot
              && old(instance) != proof.before.instance && old(Visible(Gate)) == Some(GateFile) ==>
                runtime == Some(Runtime(proof, proof.journal, current, boot, instance))
      ensures calm ==> Undisturbed() && visible == old(visible)
    {
      var stopped := Visible(Evidence(directory, StoppedName));
      assert stopped in Survivors(Evidence(directory, StoppedName));
      if stopped == None || !stopped.value.StoppedFile? { return None; }
      var seen := instance;
      if seen == proof.before.instance || boot != proof.before.boot { return None; }
      if Visible(Gate) != Some(GateFile) { return None; }
      var dead := Pause();
      if dead || instance != seen || boot != proof.before.boot { return None; }
      return Some(Runtime(stopped.value.stop, proof.journal, current, proof.before.boot, seen));
    }

    // The four evidence files are there and belong together, and no receipt is.
    ghost predicate Assemblable(directory: nat)
      reads `visible
    {
      var stopped, taken := Visible(Evidence(directory, StoppedName)), Visible(Evidence(directory, StoppedJournalName));
      var current, observed := Visible(Evidence(directory, CurrentJournalName)), Visible(Evidence(directory, RuntimeName));
      && stopped.Some? && stopped.value.StoppedFile? && taken.Some? && taken.value.JournalFile?
      && current.Some? && current.value.JournalFile? && observed.Some? && observed.value.RuntimeFile?
      && Visible(Evidence(directory, ReceiptName)) == None
      && var r := observed.value.runtime;
         r == Runtime(stopped.value.stop, taken.value.journal, current.value.journal, r.boot, r.instance)
    }

    /** The receipt helper: it reads the four evidence files, and refuses unless the digests
        in the runtime file are those of the other three. */
    method AssembleReceipt(directory: nat) returns (ok: bool)
      requires Sound()
      modifies this
      ensures Sound() && Onward() && gated == old(gated) && stop == old(stop)
      ensures ok ==>
                var p := Evidence(directory, ReceiptName);
                p in visible && visible == old(visible)[p := visible[p]] && uuid == old(uuid)
      ensures calm ==> Undisturbed()
      ensures calm && old(Assemblable(directory)) ==>
                ok && Visible(Evidence(directory, ReceiptName)).Some? && Visible(Evidence(directory, ReceiptName)).value.ReceiptFile?
      ensures calm ==> Spared()
    {
      var stopped := Visible(Evidence(directory, StoppedName));
      var taken := Visible(Evidence(directory, StoppedJournalName));
      var current := Visible(Evidence(directory, CurrentJournalName));
      var observed := Visible(Evidence(directory, RuntimeName));
      if stopped == None || taken == None || current == None || observed == None { return false; }
      if !stopped.value.StoppedFile? || !taken.value.JournalFile? || !current.value.JournalFile? || !observed.value.RuntimeFile? {
        return false;
      }
      var runtime := observed.value.runtime;
      if runtime != Runtime(stopped.value.stop, taken.value.journal, current.value.journal, runtime.boot, runtime.instance) {
        return false;
      }
      var receipt := Assembled(stopped.value.stop, taken.value.journal, current.value.journal, runtime);
      assert Some(stopped.value) in Survivors(Evidence(directory, StoppedName));
      assert Some(taken.value) in Survivors(Evidence(directory, StoppedJournalName));
      assert Some(current.value) in Survivors(Evidence(directory, CurrentJournalName));
      assert Some(observed.value) in Survivors(Evidence(directory, RuntimeName));
      ok := WriteBytes(Evidence(directory, ReceiptName), ReceiptFile(receipt));
    }

    // os.replace: the temporary file takes the target's place.
    method Replace(temporary: nat)
      requires Sound() && Installed(Visible(Temporary(temporary)), stop)
      modifies this
      ensures Sound() && SameHistory()
      ensures Visible(Target) == old(Visible(Temporary(temporary))) && Visible(Gate) == old(Visible(Gate))
      ensures Undisturbed()
    {
      var receipt := Visible(Temporary(temporary));
      Put(Target, receipt);
      Put(Temporary(temporary), None);
    }

    // release_gate, for a gate whose content is this run's.
    method ReleaseGate() returns (ok: bool)
      requires Sound() && gated && forall t | t in Survivors(Target) :: Installed(t, stop)
      modifies this
      ensures Sound() && Onward() && gated && stop == old(stop)
      ensures ok ==> Visible(Gate) == None
      ensures old(Visible(Gate)) != Some(GateFile) ==> !ok && Unwritten()
      ensures calm && old(Visible(Gate)) == Some(GateFile) ==> ok
    {
      if Visible(Gate) != Some(GateFile) { return false; }
      Put(Gate, None);
      var dead := Pause();
      if dead { return false; }
      Sync(Gate);
      dead := Pause();
      return !dead;
    }

    // The receipt is put in place, durably, before the gate is released.
    method InstallAndRelease(receipt: File) returns (ok: bool)
      requires Sound() && gated && Installed(Some(receipt), stop)
      modifies this
      ensures Sound() && Onward() && gated && stop == old(stop)
      ensures ok ==> Visible(Gate) == None
      ensures calm && old(Visible(Gate)) == Some(GateFile) && old(New(uuid)) ==> ok
    {
      var temporary := uuid;
      uuid := uuid + 1;
      ok := WriteBytes(Temporary(temporary), receipt);
      if !ok { return; }
      Replace(temporary);
      var dead := Pause();
      if dead { return false; }
      Sync(Target);
      dead := Pause();
      if dead { return false; }
      ok := ReleaseGate();
    }

    // What an undisturbed restoration starts from.
    ghost predicate Gatherable(directory: nat, proof: StopProof)
      reads this
    {
      && boot == proof.before.boot && instance != proof.before.instance && Unchanged(proof.journal, journal)
      && Attempted(visible, directory, proof) && Visible(Gate) == Some(GateFile)
    }

    ghost predicate Finishable(directory: nat, proof: StopProof, previous: Option<File>)
      reads this
    {
      Gatherable(directory, proof) && Visible(Target) == previous && New(uuid)
    }

    // The current journal and the fresh runtime, recorded in the evidence directory.
    method GatherEvidence(directory: nat, proof: StopProof) returns (runtime: Option<Runtime>)
      requires Sound() && gated && stop == Some(proof)
      modifies this
      ensures Sound() && Onward() && gated && stop == old(stop)
      ensures runtime.Some? ==>
                && visible == old(visible)[Evidence(directory, CurrentJournalName) := JournalFile(runtime.value.current)]
                                         [Evidence(directory, RuntimeName) := RuntimeFile(runtime.value)]
                && uuid == old(uuid)
      ensures calm ==> Undisturbed()
      ensures calm && old(Gatherable(directory, proof)) ==>
                runtime == Some(Runtime(proof, proof.journal, journal, boot, instance)) && Assemblable(directory)
      ensures calm ==> Spared()
      ensures calm && runtime.Some? ==> boot == proof.before.boot && instance != proof.before.instance && Unchanged(proof.journal, journal)
    {
      var dead := Pause();
      if dead || boot != proof.before.boot || instance == proof.before.instance { return None; }
      var current := journal;
      if !Unchanged(proof.journal, current) { return None; }
      var ok := WriteBytes(Evidence(directory, CurrentJournalName), JournalFile(current));
      if !ok { return None; }
      runtime := ObserveRuntime(directory, proof, current);
      if runtime == None { return; }
      ok := WriteBytes(Evidence(directory, RuntimeName), RuntimeFile(runtime.value));
      if !ok { return None; }
    }

    // Nothing that the receipt was assembled from has moved on.
    ghost predicate Unmoved(proof: StopProof, previous: Option<File>, runtime: Runtime)
      reads this
    {
      && Visible(Target) == previous && Visible(Gate) == Some(GateFile)
      && instance == runtime.instance && Unchanged(proof.journal, journal)
    }

    ghost predicate Installable(directory: nat, proof: StopProof, previous: Option<File>, runtime: Runtime)
      reads this
    {
      var receipt := Visible(Evidence(directory, ReceiptName));
      receipt.Some? && receipt.value.ReceiptFile? && New(uuid) && Unmoved(proof, previous, runtime)
    }

    // The last checks, and the installation: nothing is done if anything has moved on.
    method InstallUnchanged(directory: nat, proof: StopProof, previous: Option<File>, runtime: Runtime) returns (ok: bool)
      requires Sound() && gated && stop == Some(proof)
      modifies this
      ensures Sound() && Onward() && gated && stop == old(stop)
      ensures ok ==> Visible(Gate) == None
      ensures !old(Unmoved(proof, previous, runtime)) ==> !ok && Unwritten()
      ensures calm && old(Installable(directory, proof, previous, runtime)) ==> ok
    {
      var raw := Visible(Evidence(directory, ReceiptName));
      assert raw in Survivors(Evidence(directory, ReceiptName));
      if raw == None || raw == Some(Torn) || Visible(Target) != previous { return false; }
      if instance != runtime.instance || !Unchanged(proof.journal, journal) || Visible(Gate) != Some(GateFile) { return false; }
      ok := InstallAndRelease(raw.value);
    }

    // All that the receipt is made of, and the receipt.
    method GatherAndAssemble(directory: nat, proof: StopProof, ghost previous: Option<File>) returns (runtime: Option<Runtime>)
      requires Sound() && gated && stop == Some(proof)
      modifies this
      ensures Sound() && Onward() && gated && stop == old(stop)
      ensures calm ==> Spared() && Undisturbed()
      ensures calm && runtime.Some? ==> boot == proof.before.boot && instance != proof.before.instance && Unchanged(proof.journal, journal)
      ensures calm && old(Finishable(directory, proof, previous)) ==>
                runtime.Some? && Installable(directory, proof, previous, runtime.value)
    {
      runtime := GatherEvidence(directory, proof);
      if runtime == None { return; }
      var ok := AssembleReceipt(directory);
      if !ok { return None; }
    }

    // What an undisturbed restoration needs of the world.
    ghost predicate Restorable(proof: StopProof, previous: Option<File>)
      reads this
    {
      && Visible(Target) == previous && Visible(Gate) == Some(GateFile)
      && boot == proof.before.boot && instance != proof.before.instance && Unchanged(proof.journal, journal)
    }

    method FinishRestoration(directory: nat, proof: StopProof, previous: Option<File>) returns (ok: bool)
      requires Sound() && gated && stop == Some(proof)
      modifies this
      ensures Sound() && Onward() && gated && stop == old(stop)
      ensures ok ==> Visible(Gate) == None
      ensures calm && old(Finishable(directory, proof, previous)) ==> ok
      ensures calm && !old(Restorable(proof, previous)) ==> !ok && Spared()
    {
      var runtime := GatherAndAssemble(directory, proof, previous);
      if runtime == None { return false; }
      ok := InstallUnchanged(directory, proof, previous, runtime.value);
    }

    // ---------- run and resume ----------

    // What an undisturbed run starts from.
    ghost predicate Fresh(previous: Option<File>)
      reads this
    {
      New(0) && New(uuid) && uuid != 0 && Visible(Gate) == None && Visible(Target) == previous
    }

    // The gate, before anything else, and its record.
    method CreateGate() returns (ok: bool)
      requires Sound() && !gated && !ordered && stop == None
      modifies this
      ensures Sound() && Onward() && !ordered && stop == None && uuid == old(uuid)
      ensures ok ==> gated && visible == old(visible)[Gate := GateFile][Evidence(0, GateRecordName) := GateRecord]
      ensures old(Visible(Gate)) != None ==> !ok && Unwritten()
      ensures calm ==> Visible(Target) == old(Visible(Target))
      ensures calm ==> Undisturbed() && (old(Fresh(Visible(Target))) ==> ok)
    {
      ok := WriteBytes(Gate, GateFile);
      if !ok { return; }
      gated := true;
      ok := WriteBytes(Evidence(0, GateRecordName), GateRecord);
    }

    // The snapshot of the running container, and the receipt found.
    method RecordBefore(previous: Option<File>) returns (before: Option<Snapshot>)
      requires Sound() && gated && !ordered && stop == None
      modifies this
      ensures Sound() && Onward() && !ordered && stop == None && uuid == old(uuid)
      ensures before.Some? ==>
                var noted := old(visible)[Evidence(0, BeforeName) := BeforeFile(before.value)];
                visible == if previous.Some? then noted[Evidence(0, PreviousName) := previous.value] else noted
      ensures calm ==> Spared()
      ensures calm ==> Undisturbed()
      ensures calm && old(Visible(Evidence(0, BeforeName))) == None && old(Visible(Evidence(0, PreviousName))) == None ==>
                before == Some(Snapshot(boot, instance))
    {
      var snapshot := Snapshot(boot, instance);
      var ok := WriteBytes(Evidence(0, BeforeName), BeforeFile(snapshot));
      if !ok { return None; }
      if previous.Some? {
        ok := WriteBytes(Evidence(0, PreviousName), previous.value);
        if !ok { return None; }
      }
      return Some(snapshot);
    }

    // The order to stop the container, and the proof that it has stopped.
    method OrderStop(before: Snapshot) returns (proof: StopProof, ok: bool)
      requires Sound() && gated && !ordered && stop == None
      modifies this
      ensures Sound() && Onward() && gated
      ensures ok ==> stop == Some(proof) && visible == old(visible) && uuid == old(uuid)
      ensures calm ==> ok && Undisturbed() && proof == StopProof(before, journal)
    {
      ordered := true;
      var dead := Pause();
      proof := StopProof(before, journal);
      if dead { return proof, false; }
      stop := Some(proof);
      return proof, true;
    }

    // The proof and the stopped journal are kept; then the same container starts again.
    method KeepProof(proof: StopProof) returns (ok: bool)
      requires Sound() && gated && stop == Some(proof)
      modifies this
      ensures Sound() && Onward() && gated && stop == old(stop)
      ensures ok ==> visible == Proved(old(visible), proof) && uuid == old(uuid)
      ensures calm ==> Spared() && journal == old(journal)
      ensures calm && old(journal) == proof.journal && old(Visible(Evidence(0, StoppedName))) == None
              && old(Visible(Evidence(0, StoppedJournalName))) == None ==>
                ok && boot == old(boot) && journal == old(journal) && instance == old(instance) + 1
    {
      ok := WriteBytes(Evidence(0, StoppedName), StoppedFile(proof));
      if !ok { return; }
      var taken := journal;
      if taken != proof.journal { return false; }
      ok := WriteBytes(Evidence(0, StoppedJournalName), JournalFile(taken));
      if ok { instance := instance + 1; }
    }

    // An undisturbed run before the stop.
    ghost predicate Underway(previous: Option<File>)
      reads this
    {
      BeforeStop(visible, uuid, previous)
    }

    // Up to the order to stop.
    method Announce(previous: Option<File>) returns (before: Option<Snapshot>)
      requires Sound() && !gated && !ordered && stop == None
      modifies this
      ensures Sound() && Onward() && !ordered && stop == None && (before.Some? ==> gated)
      ensures before.Some? ==> visible == Announced(old(visible), before.value, previous) && uuid == old(uuid)
      ensures old(Visible(Gate)) != None ==> before == None && Unwritten()
      ensures calm ==> Visible(Target) == old(Visible(Target)) && Undisturbed()
      ensures calm && old(Fresh(previous)) ==> before == Some(Snapshot(boot, instance)) && Underway(previous)
    {
      var ok := CreateGate();
      if !ok { return None; }
      before := RecordBefore(previous);
      if calm && old(Fresh(previous)) { GateAnnounced(old(visible), uuid, previous, before.value); }
    }

    // The stop, its proof, and the start.
    method StopAndProve(before: Snapshot, ghost previous: Option<File>) returns (proof: StopProof, ok: bool)
      requires Sound() && gated && !ordered && stop == None
      modifies this
      ensures Sound() && Onward() && gated && (ok ==> stop == Some(proof))
      ensures ok ==> visible == Proved(old(visible), proof) && uuid == old(uuid)
      ensures calm ==> Spared() && journal == old(journal) && proof == StopProof(before, journal)
      ensures calm && old(Underway(previous)) && before == Snapshot(old(boot), old(instance)) ==>
                ok && Finishable(0, proof, previous)
    {
      proof, ok := OrderStop(before);
      if !ok { return; }
      ok := KeepProof(proof);
    }

    /** A run that holds the lock.  previous is what preflight read at the target before; it
        may be out of date.  A run that completes has released its gate; one that finds a gate
        does nothing; and an undisturbed one completes exactly when the target still holds what
        preflight read. */
    method Run(previous: Option<File>) returns (ok: bool)
      requires Sound() && !gated && !ordered && stop == None
      modifies this
      ensures Sound() && Onward()
      ensures ok ==> gated && Visible(Gate) == None
      ensures old(Visible(Gate)) != None ==> !ok && Unwritten() && !ordered
      ensures calm && old(Fresh(previous)) ==> ok
      ensures calm && old(Visible(Target)) != previous ==> !ok && Visible(Target) == old(Visible(Target))
    {
      var before := Announce(previous);
      if before == None { return false; }
      var proof;
      proof, ok := StopAndProve(before.value, previous);
      if !ok { return; }
      ok := FinishRestoration(0, proof, previous);
    }

    // The attempt's own directory, with the proof and the stopped journal.
    method OpenAttempt(proof: StopProof) returns (attempt: nat, ok: bool)
      requires Sound() && stop == Some(proof)
      modifies this
      ensures Sound() && Onward() && gated && stop == old(stop)
      ensures calm ==> Spared() && Undisturbed()
      ensures calm && old(New(uuid)) && old(New(uuid + 1)) ==> ok && New(uuid) && Attempted(visible, attempt, proof)
    {
      attempt := uuid;
      uuid := uuid + 1;
      ok := WriteBytes(Evidence(attempt, StoppedName), StoppedFile(proof));
      if !ok { return; }
      ok := WriteBytes(Evidence(attempt, StoppedJournalName), JournalFile(proof.journal));
      if calm && old(New(uuid)) && old(New(uuid + 1)) { AttemptOpened(old(visible), attempt, attempt + 1, proof); }
    }

    // The part of resume under the lock, with what was read before the lock was taken.
    method ResumeLocked(proof: StopProof, previous: Option<File>) returns (ok: bool)
      requires Sound() && stop == Some(proof)
      modifies this
      ensures Sound() && Onward()
      ensures ok ==> gated && Visible(Gate) == None
      ensures calm && old(New(uuid)) && old(New(uuid + 1)) && old(Restorable(proof, previous)) ==> ok
      ensures calm && !old(Restorable(proof, previous)) ==> !ok && Spared()
    {
      var attempt;
      attempt, ok := OpenAttempt(proof);
      if !ok { return; }
      ok := FinishRestoration(attempt, proof, previous);
    }

    // The container runs another instance, in the same boot, than the one that was stopped.
    ghost predicate Restarted()
      reads this
    {
      var before := Visible(Evidence(0, BeforeName));
      before.Some? && before.value.BeforeFile? && boot == before.value.snapshot.boot && instance != before.value.snapshot.instance
    }

    /** A resume: it reads and checks before it takes the lock, and other resumes may come in
        between.  It writes nothing unless what it demands is there; undisturbed it then
        completes exactly when the container has been restarted in the same boot. */
    method Resume(others: nat) returns (ok: bool)
      requires Sound()
      modifies this
      ensures Sound() && Onward()
      ensures ok ==> gated && Visible(Gate) == None
      ensures !old(Kept(visible, journal)) ==> !ok && Unwritten()
      ensures calm && others == 0 && old(New(uuid)) && old(New(uuid + 1)) && old(Kept(visible, journal)) ==> ok == old(Restarted())
      decreases others, 1
    {
      var before, stopped := Visible(Evidence(0, BeforeName)), Visible(Evidence(0, StoppedName));
      var taken, gate := Visible(Evidence(0, StoppedJournalName)), Visible(Gate);
      if before == None || stopped == None || taken == None || gate != Some(GateFile) { return false; }
      if !before.value.BeforeFile? || !stopped.value.StoppedFile? || !taken.value.JournalFile? { return false; }
      var proof := stopped.value.stop;
      assert stopped in Survivors(Evidence(0, StoppedName));
      if proof.before != before.value.snapshot || taken.value.journal != proof.journal { return false; }
      if !Unchanged(proof.journal, journal) || Visible(Evidence(0, GateRecordName)) != Some(GateRecord) { return false; }
      var previous := Visible(Evidence(0, PreviousName));
      if Visible(Target) != previous { return false; }
      Meanwhile(others);
      var dead := Pause();
      if dead { return false; }
      ok := ResumeLocked(proof, previous);
    }

    // Other resumes, each of which may die anywhere, and crashes of the host.
    method Meanwhile(others: nat)
      requires Sound()
      modifies this
      ensures Sound() && Onward()
      ensures others == 0 ==> Unwritten() && Undisturbed()
      decreases others, 0
    {
      var left := others;
      while left > 0
        invariant left <= others && Sound() && Onward()
        invariant others == 0 ==> Unwritten() && Undisturbed()
      {
        left := left - 1;
        var _ := Resume(left);
        var _ := Pause();
      }
    }
  }

  /** One run and any number of resumes, cut short anywhere: afterwards, and so at every
      moment, a gate that was created and is gone means that the receipt in place comes
      from this run's stop proof; without it the target holds what was found. */
  method Supervise(receipt: Option<File>, gate: bool, previous: Option<File>, boot: nat, instance: nat, journal: Journal, calm: bool,
                   resumes: nat)
    returns (host: Host)
    requires receipt.Some? ==> receipt.value.ReceiptFile?
    ensures host.Sound()
    ensures host.gated && host.Visible(Gate) == None ==> Installed(host.Visible(Target), host.stop)
    ensures host.Visible(Target) == receipt || Installed(host.Visible(Target), host.stop)
    ensures host.ordered ==> host.gated
  {
    host := new Host(receipt, gate, boot, instance, journal, calm);
    var _ := host.Run(previous);
    var _ := host.Pause();
    host.Meanwhile(resumes);
    assert host.Visible(Target) in host.Survivors(Target);
    assert host.Visible(Gate) in host.Survivors(Gate);
  }

  /** A receipt in place of a run whose gate is gone: it carries the run's stop proof, the
      journal the proof was taken over, a later state of the same journal, and an instance of
      the same boot that is not the stopped one. */
  lemma InstalledMeans(file: Option<File>, stop: Option<StopProof>)
    requires Installed(file, stop)
    ensures var proof, r := stop.value, file.value.receipt;
            && r.stop == proof && r.journal == proof.journal && r.runtime.stop == proof && r.runtime.journal == proof.journal
            && r.current.lineage == proof.journal.lineage && proof.journal.sequence <= r.current.sequence
            && r.runtime.current == r.current && r.runtime.boot == proof.before.boot && r.runtime.instance != proof.before.instance
  {
  }

  /** A run that dies after it has kept its stop proof, on a host where nothing else happens:
      a resume installs the receipt and releases the gate. */
  method Interrupted(receipt: Option<File>, boot: nat, instance: nat, journal: Journal) returns (host: Host, ok: bool)
    requires receipt.Some? ==> receipt.value.ReceiptFile?
    ensures host.Sound() && ok && host.gated && host.Visible(Gate) == None
    ensures Installed(host.Visible(Target), host.stop)
  {
    host := new Host(receipt, false, boot, instance, journal, true);
    ghost var files := host.visible;
    assert host.New(0) && host.New(host.uuid) && host.New(host.uuid + 1);
    var before := host.Announce(receipt);
    var proof;
    proof, ok := host.StopAndProve(before.value, receipt);
    KeptByRun(files, proof, receipt, host.journal);
    ok := host.Resume(0);
    host.GateSafety();
  }

  /** When nothing dies and nobody interferes, a run on a host without a gate installs its
      receipt and releases its gate. */
  method Uneventful(receipt: Option<File>, boot: nat, instance: nat, journal: Journal) returns (host: Host, ok: bool)
    requires receipt.Some? ==> receipt.value.ReceiptFile?
    ensures host.Sound() && ok && host.gated && host.Visible(Gate) == None
    ensures Installed(host.Visible(Target), host.stop)
  {
    host := new Host(receipt, false, boot, instance, journal, true);
    ok := host.Run(receipt);
    host.GateSafety();
  }
}
