/** Runs of the App Access broker (packages/apptransport/channel.go): any number of
    goroutines in Accept, monitor, renew, Dial and Close, interleaved one step at a time.

    A step is one section under the mutex, one event outside the program (an authority's
    answer, the end of a read) or one millisecond.  Time is urgent: it cannot pass the
    deadline of a timer that has not closed its channel. */
module AccessRuns {
  import opened Bytes
  import opened AccessTable
  import opened Certificates

  // ---------- the goroutines ----------

  // One call of Accept.  Up to Failing it holds its reservation.
  datatype Accept =
    | Held(binding: Binding, serial: string, tls: Option<Chains>)
    | Asking(binding: Binding, serial: string, tls: Option<Chains>, start: Time)
    | Granted(binding: Binding, serial: string, tls: Option<Chains>, start: Time, issued: Time)
    | Checked(binding: Binding, serial: string, tls: Option<Chains>, credential: Option<Time>, lease: Time)
    | Failing(binding: Binding)
    | Inserted(channel: nat)
    | Spawned(channel: nat)
    | Over

  predicate Holding(a: Accept) {
    a.Held? || a.Asking? || a.Granted? || a.Checked? || a.Failing?
  }

  datatype ReadEnd = GotByte | TimedOut | Broken

  // The monitor goroutine of a channel; Finished means that monitorDone is closed.
  datatype Monitor = Reading | ReadEnded(end: ReadEnd) | Closing(end: ReadEnd) | Finished(end: ReadEnd, kept: bool)

  // The renew goroutine of a channel.
  datatype Renewal = Resting | AskingAgain | GrantedAgain(issued: Time) | CheckedAgain(lease: Time) | GivingUp | Stopped

  // One call of Dial; Blocked holds the notify channel it waits on.
  datatype Dialing =
    | Scanning(binding: Binding)
    | Selected(binding: Binding, channel: nat)
    | Blocked(binding: Binding, generation: nat)
    | Returned(binding: Binding, channel: nat)
    | Failed

  // closers: for each call of Broker.Close the channels it has still to close;
  // tls: the TLS state of the request that each channel came from.
  datatype System = System(now: Time, t: Table<nat>, accepts: map<nat, Accept>, monitors: map<nat, Monitor>,
                           renewals: map<nat, Renewal>, dials: map<nat, Dialing>, closers: map<nat, set<nat>>,
                           tls: map<nat, Option<Chains>>)

  function Initial(purpose: string, now: Time): System {
    System(now, Table(purpose, map[], {}, map[], 0, false, 0), map[], map[], map[], map[], map[], map[])
  }

  // ---------- the steps ----------

  datatype AcceptMove =
    | Enter(binding: Binding, serial: string, tls: Option<Chains>)
    | Begin
    | Decide(issued: Time)
    | Check(credential: Option<Time>)
    | Fail
    | Unreserve
    | Add(channel: nat)
    | Spawn
    | Abandon
    | Offer

  datatype MonitorMove = EndRead(end: ReadEnd) | Look | Shut

  datatype RenewMove = Ask | Grant(issued: Time) | Test | Apply | Stop

  datatype DialMove = Call(binding: Binding) | Scan(choice: Option<nat>) | Wake | Recheck | Leave

  datatype CloserMove = CloseAll | CloseNext(channel: nat)

  datatype Step =
    | Tick
    | Turn // an admission turned away
    | Close(c: nat)
    | OfAccept(a: nat, accept: AcceptMove)
    | OfMonitor(c: nat, monitor: MonitorMove)
    | OfRenewal(c: nat, renew: RenewMove)
    | OfDial(d: nat, dial: DialMove)
    | OfCloser(k: nat, closer: CloserMove)

  const ADMISSION: Time := 2 * SECOND

  // channel.Close runs once.
  function CloseOnce(t: Table<nat>, c: nat): Table<nat> {
    if c in t.channels && !t.channels[c].closed then CloseChannel(t, c) else t
  }

  // No lease timer and no active timer of a channel in the table is due.
  ghost predicate NoneDue(s: System) {
    forall c | c in s.t.connections && c in s.t.channels ::
      s.now < s.t.channels[c].expires && (s.t.channels[c].active.Some? ==> s.now < s.t.channels[c].active.value)
  }

  ghost predicate CanAccept(s: System, a: nat, move: AcceptMove) {
    match move
    case Enter(b, _, _) => a !in s.accepts && b.purpose == s.t.purpose && Admissible(s.t, b)
    case Begin => a in s.accepts && s.accepts[a].Held?
    case Decide(_) => a in s.accepts && s.accepts[a].Asking?
    case Check(credential) =>
      a in s.accepts && s.accepts[a].Granted? && IsExpiry(s.accepts[a].tls, s.now, credential)
    case Fail => a in s.accepts && Holding(s.accepts[a])
    case Unreserve => a in s.accepts && s.accepts[a].Failing?
    case Add(c) => a in s.accepts && s.accepts[a].Checked? && !s.t.closed && c !in s.t.channels
    case Spawn => a in s.accepts && s.accepts[a].Inserted?
    case Abandon => a in s.accepts && s.accepts[a].Inserted?
    case Offer => a in s.accepts && s.accepts[a].Spawned? && s.accepts[a].channel in s.t.channels
  }

  // The tests of Accept after the authority has answered, at one instant.
  predicate Admitted(purpose: string, start: Time, issued: Time, lease: Time, now: Time) {
    now < start + ADMISSION && lease > now && issued <= now + MaxLease(purpose)
  }

  function NewChan(a: Accept): Chan
    requires a.Checked?
  {
    Chan(a.binding, a.serial, a.credential, a.lease, false, false, false, None)
  }

  ghost function DoAccept(s: System, a: nat, move: AcceptMove): (u: System)
    requires CanAccept(s, a, move)
    ensures u.now == s.now && u.dials == s.dials && u.closers == s.closers && u.t.purpose == s.t.purpose
    ensures !move.Spawn? ==> u.monitors == s.monitors && u.renewals == s.renewals
    ensures !move.Add? ==> u.tls == s.tls
    ensures a in u.accepts && u.accepts == s.accepts[a := u.accepts[a]]
  {
    match move
    case Enter(b, serial, tls) => s.(t := Reserve(s.t, a, b), accepts := s.accepts[a := Held(b, serial, tls)])
    case Begin => var x := s.accepts[a]; s.(accepts := s.accepts[a := Asking(x.binding, x.serial, x.tls, s.now)])
    case Decide(issued) =>
      var x := s.accepts[a];
      s.(accepts := s.accepts[a := Granted(x.binding, x.serial, x.tls, x.start, issued)])
    case Check(credential) =>
      var x := s.accepts[a];
      var lease := CapCredentialLease(x.issued, credential);
      s.(accepts := s.accepts[a :=
           if Admitted(s.t.purpose, x.start, x.issued, lease, s.now)
           then Checked(x.binding, x.serial, x.tls, credential, lease) else Failing(x.binding)])
    case Fail => s.(accepts := s.accepts[a := Failing(s.accepts[a].binding)])
    case Unreserve => s.(t := Release(s.t, a), accepts := s.accepts[a := Over])
    case Add(c) =>
      s.(t := Insert(s.t, a, c, NewChan(s.accepts[a])), accepts := s.accepts[a := Inserted(c)],
         tls := s.tls[c := s.accepts[a].tls])
    case Spawn =>
      var c := s.accepts[a].channel;
      s.(accepts := s.accepts[a := Spawned(c)], monitors := s.monitors[c := Reading], renewals := s.renewals[c := Resting])
    case Abandon => s.(t := CloseOnce(s.t, s.accepts[a].channel), accepts := s.accepts[a := Over])
    case Offer => s.(t := MarkIdle(s.t, s.accepts[a].channel), accepts := s.accepts[a := Over])
  }

  predicate CanMonitor(s: System, c: nat, move: MonitorMove) {
    c in s.monitors && c in s.t.channels &&
    match move
    case EndRead(_) => s.monitors[c].Reading?
    case Look => s.monitors[c].ReadEnded?
    case Shut => s.monitors[c].Closing?
  }

  function DoMonitor(s: System, c: nat, move: MonitorMove): (u: System)
    requires CanMonitor(s, c, move)
    ensures u == s.(t := u.t, monitors := u.monitors) && u.t.purpose == s.t.purpose
  {
    match move
    case EndRead(end) => s.(monitors := s.monitors[c := ReadEnded(end)])
    case Look =>
      var end := s.monitors[c].end;
      s.(monitors := s.monitors[c :=
           if !s.t.channels[c].claimed || end != TimedOut then Closing(end) else Finished(end, true)])
    case Shut => s.(t := CloseOnce(s.t, c), monitors := s.monitors[c := Finished(s.monitors[c].end, false)])
  }

  predicate CanRenew(s: System, c: nat, move: RenewMove) {
    c in s.renewals && c in s.t.channels &&
    var chan := s.t.channels[c];
    match move
    case Ask => s.renewals[c].Resting? && (chan.active.Some? ==> s.now < chan.active.value)
    case Grant(_) => s.renewals[c].AskingAgain?
    case Test => s.renewals[c].GrantedAgain?
    case Apply => s.renewals[c].CheckedAgain?
    case Stop => !s.renewals[c].Stopped?
  }

  // The tests of renew after the authority has answered.
  predicate Prolonged(purpose: string, chan: Chan, issued: Time, lease: Time, now: Time) {
    now < chan.expires && lease > now && issued <= now + MaxLease(purpose)
  }

  // The last section of renew: the new lease counts only if the old one still runs.
  function RenewLive(t: Table<nat>, c: nat, lease: Time, now: Time): Table<nat> {
    if c in t.channels && Renewable(t.channels[c], now) then Renew(t, c, lease) else t
  }

  function DoRenew(s: System, c: nat, move: RenewMove): (u: System)
    requires CanRenew(s, c, move)
    ensures u == s.(t := u.t, renewals := u.renewals) && u.t.purpose == s.t.purpose
  {
    var chan := s.t.channels[c];
    match move
    case Ask => s.(renewals := s.renewals[c := AskingAgain])
    case Grant(issued) => s.(renewals := s.renewals[c := GrantedAgain(issued)])
    case Test =>
      var issued := s.renewals[c].issued;
      var lease := CapCredentialLease(issued, chan.credential);
      s.(renewals := s.renewals[c :=
           if Prolonged(s.t.purpose, chan, issued, lease, s.now) then CheckedAgain(lease) else GivingUp])
    case Apply =>
      s.(t := RenewLive(s.t, c, s.renewals[c].lease, s.now),
         renewals := s.renewals[c := if Renewable(chan, s.now) then Resting else GivingUp])
    case Stop => s.(t := CloseOnce(s.t, c), renewals := s.renewals[c := Stopped])
  }

  ghost predicate CanDial(s: System, d: nat, move: DialMove) {
    match move
    case Call(_) => d !in s.dials
    case Scan(choice) =>
      && d in s.dials && s.dials[d].Scanning?
      && if choice.Some? then !s.t.closed && Claimable(s.t, choice.value, s.dials[d].binding)
         else s.t.closed || forall c | c in s.t.connections :: !Claimable(s.t, c, s.dials[d].binding)
    case Wake => d in s.dials && s.dials[d].Blocked? && s.dials[d].generation != s.t.notify
    case Recheck =>
      && d in s.dials && s.dials[d].Selected? && s.dials[d].channel in s.t.channels
      && s.dials[d].channel in s.monitors && s.monitors[s.dials[d].channel].Finished?
    case Leave => d in s.dials && (s.dials[d].Selected? || s.dials[d].Blocked?)
  }

  ghost function DoDial(s: System, d: nat, move: DialMove): (u: System)
    requires CanDial(s, d, move)
    ensures u == s.(t := u.t, dials := u.dials) && u.t.purpose == s.t.purpose
  {
    match move
    case Call(b) => s.(dials := s.dials[d := Scanning(b)])
    case Scan(choice) =>
      var b := s.dials[d].binding;
      if s.t.closed then s.(dials := s.dials[d := Failed])
      else if choice.Some? then s.(t := Claim(s.t, choice.value, s.now), dials := s.dials[d := Selected(b, choice.value)])
      else s.(dials := s.dials[d := Blocked(b, s.t.notify)])
    case Wake => s.(dials := s.dials[d := Scanning(s.dials[d].binding)])
    case Recheck =>
      var b, c := s.dials[d].binding, s.dials[d].channel;
      s.(dials := s.dials[d := if s.t.channels[c].closed then Scanning(b) else Returned(b, c)])
    case Leave =>
      s.(t := if s.dials[d].Selected? then CloseOnce(s.t, s.dials[d].channel) else s.t, dials := s.dials[d := Failed])
  }

  predicate CanClose(s: System, k: nat, move: CloserMove) {
    match move
    case CloseAll => k !in s.closers
    case CloseNext(c) => k in s.closers && c in s.closers[k]
  }

  function DoClose(s: System, k: nat, move: CloserMove): (u: System)
    requires CanClose(s, k, move)
    ensures u == s.(t := u.t, closers := u.closers) && u.t.purpose == s.t.purpose
  {
    match move
    case CloseAll => s.(t := Shutdown(s.t), closers := s.closers[k := s.t.connections])
    case CloseNext(c) => s.(t := CloseOnce(s.t, c), closers := s.closers[k := s.closers[k] - {c}])
  }

  ghost predicate Can(s: System, step: Step) {
    match step
    case Tick => NoneDue(s)
    case Turn => true
    case Close(c) => c in s.t.channels
    case OfAccept(a, move) => CanAccept(s, a, move)
    case OfMonitor(c, move) => CanMonitor(s, c, move)
    case OfRenewal(c, move) => CanRenew(s, c, move)
    case OfDial(d, move) => CanDial(s, d, move)
    case OfCloser(k, move) => CanClose(s, k, move)
  }

  ghost function Do(s: System, step: Step): System
    requires Can(s, step)
  {
    match step
    case Tick => s.(now := s.now + 1)
    case Turn => s.(t := Refuse(s.t))
    case Close(c) => s.(t := CloseOnce(s.t, c))
    case OfAccept(a, move) => DoAccept(s, a, move)
    case OfMonitor(c, move) => DoMonitor(s, c, move)
    case OfRenewal(c, move) => DoRenew(s, c, move)
    case OfDial(d, move) => DoDial(s, d, move)
    case OfCloser(k, move) => DoClose(s, k, move)
  }

  ghost predicate CanRun(s: System, steps: seq<Step>)
    decreases |steps|
  {
    steps == [] || (Can(s, steps[0]) && CanRun(Do(s, steps[0]), steps[1..]))
  }

  ghost function Final(s: System, steps: seq<Step>): System
    requires CanRun(s, steps)
    decreases |steps|
  {
    if steps == [] then s else Final(Do(s, steps[0]), steps[1..])
  }

  // ---------- steps that make, offer and claim no channel ----------

  ghost predicate Quiet(t: Table<nat>, u: Table<nat>) {
    && u.purpose == t.purpose && u.reserved == t.reserved && u.channels.Keys == t.channels.Keys
    && u.connections <= t.connections && t.notify <= u.notify && (t.closed ==> u.closed)
    && (u.notify == t.notify ==> u.closed == t.closed)
    && (forall c | c in t.channels ::
          var x, y := t.channels[c], u.channels[c];
          y.binding == x.binding && y.idle == x.idle && y.claimed == x.claimed && (x.closed ==> y.closed)
          && y.active == x.active && y.credential == x.credential
          && (c in t.connections && c !in u.connections <==> !x.closed && y.closed))
  }

  predicate Loud(step: Step) {
    step.OfAccept? || (step.OfDial? && step.dial.Scan? && step.dial.choice.Some?)
  }

  ghost predicate QuietSystem(s: System, u: System) {
    && Quiet(s.t, u.t) && u.accepts == s.accepts && u.tls == s.tls
    && u.monitors.Keys == s.monitors.Keys && u.renewals.Keys == s.renewals.Keys
  }

  lemma CloseOnceQuiet(t: Table<nat>, c: nat)
    requires Proper(t)
    ensures Quiet(t, CloseOnce(t, c))
  {
  }

  lemma RenewLiveQuiet(t: Table<nat>, c: nat, lease: Time, now: Time)
    requires Proper(t)
    ensures Quiet(t, RenewLive(t, c, lease, now))
  {
  }

  lemma QuietMonitor(s: System, c: nat, move: MonitorMove)
    requires Proper(s.t) && CanMonitor(s, c, move)
    ensures QuietSystem(s, DoMonitor(s, c, move))
  {
  }

  lemma QuietRenew(s: System, c: nat, move: RenewMove)
    requires Proper(s.t) && CanRenew(s, c, move)
    ensures QuietSystem(s, DoRenew(s, c, move))
  {
    match move
    case Ask =>
    case Grant(_) =>
    case Test =>
    case Apply => RenewLiveQuiet(s.t, c, s.renewals[c].lease, s.now);
    case Stop => CloseOnceQuiet(s.t, c);
  }

  lemma QuietDial(s: System, d: nat, move: DialMove)
    requires Proper(s.t) && CanDial(s, d, move) && !(move.Scan? && move.choice.Some?)
    ensures QuietSystem(s, DoDial(s, d, move))
  {
    if move.Leave? && s.dials[d].Selected? { CloseOnceQuiet(s.t, s.dials[d].channel); }
  }

  lemma QuietClose(s: System, k: nat, move: CloserMove)
    requires Proper(s.t) && CanClose(s, k, move)
    ensures QuietSystem(s, DoClose(s, k, move))
  {
  }

  lemma QuietStep(s: System, step: Step)
    requires Proper(s.t) && Can(s, step) && !Loud(step)
    ensures QuietSystem(s, Do(s, step))
  {
    var u := Do(s, step);
    match step
    case Tick =>
    case Turn =>
    case Close(c) => CloseOnceQuiet(s.t, c);
    case OfMonitor(c, move) => QuietMonitor(s, c, move); assert u == DoMonitor(s, c, move);
    case OfRenewal(c, move) => QuietRenew(s, c, move); assert u == DoRenew(s, c, move);
    case OfDial(d, move) => QuietDial(s, d, move); assert u == DoDial(s, d, move);
    case OfCloser(k, move) => QuietClose(s, k, move); assert u == DoClose(s, k, move);
  }
}
