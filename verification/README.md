# Verified models of the Tunnex protocols

These Dafny modules model the parts of the Tunnex repository whose guarantees span several
functions, and prove those guarantees for every input, every run and every reachable state.
`dafny verify dfyconfig.toml` checks the whole project.

| module | source | subject |
|---|---|---|
| `AccessTable`, `Certificates` | `packages/apptransport/channel.go` | the App Access broker's table: what each section under the mutex does, and the limits of admission; certificate lifetimes |
| `AccessRuns` | `packages/apptransport/channel.go` | the goroutines of Accept, monitor, renew, Dial and Close, any number of them, interleaved one section at a time, with urgent timers |
| `AccessAdmission`, `AccessHandoff`, `AccessLeases`, `AccessTimers`, `AccessConservation`, `AccessShutdown` | `packages/apptransport/channel.go` | what holds in every reachable state of the broker, and what each test against the clock admits |
| `AccessExample` | `packages/apptransport/channel.go` | a run in which a channel is admitted and handed over |
| `Broker` | `packages/apptransport/channel.go`, `capacity.go` | the broker and its channels as mutable objects, method by method equal to `AccessTable` |
| `StaticSettings` | `deploy/azure/configure-owned-static.py` | one-shot cloud writes over a durable stage file, reservation files and crashes |
| `StandbyConversion` | `deploy/azure/convert-owned-standby.py` | the same with nothing but exclusive reservations, by concurrent processes |
| `VnetPrefix` | `deploy/azure/qualify-owned-unapproved-prefix.py` | an earlier form of the protocol, and where it falls short |
| `StartupGate` | `deploy/ipsec/runtime_restore_runner.py` | the startup gate and the receipt, under process deaths, host crashes and resumes |
| `Stream` | `apps/ai-engine/sagemaker.go` | the streaming reassembler, and the discipline of every stream it emits |
| `StreamBatch` | `apps/ai-engine/sagemaker.go` | what a batch parse of a payload emits, read off the fields of its chunks |
| `StreamTexts`, `StreamFrames`, `StreamCuts`, `StreamLines` | `apps/ai-engine/sagemaker.go` | the reassembler against a batch parse: for which payloads the cuts into frames do not matter |
| `Vici` | `deploy/ipsec/qualify_scheduled_ike.py` | the VICI decoder over aliased dictionaries against a grammar |
| `DnsName`, `DnsMessage`, `DnsWriter`, `Framing` | `deploy/ipsec/gcp-cloud-dns-wire-probe.py` | the DNS reader and writer (sections 3.1, 4.1 and 4.2.2 of RFC 1035) |
| `DnsAnswers` | `deploy/ipsec/gcp-cloud-dns-wire-probe.py` | the probe's verdict on an answer, against the message the answer carries |
| `Routes` | `packages/apptransport/beam/routes.go` | longest-prefix path routes |
| `Layout` | `deploy/sandbox/install/enroll.py` | first-fit identity ranges |
| `Bytes`, `Splits`, `Sets` | | octets, splitting at a separator, sizes of sets: shared by the others |

## How the models are built

**The broker.** A channel's `idle`, `claimed`, `closed`, `expires` and active deadline, the
broker's `connections`, `pending`, `pendingCount`, `notify` and `closed` are modelled as they
are. `notify` is a generation number: closing the old Go channel and making a new one is one
increment. `AccessTable` gives every section under the mutex as a function on a table;
`Broker` has the same sections as methods on objects, with the loops over the connection and
the pending map, each proved equal to its function. `AccessRuns` lets any number of goroutines
take these sections in any order, together with the events outside the program: an authority's
answer, the end of a read, a write error. Time is counted in milliseconds and is urgent: it
cannot pass the deadline of a lease or active timer whose channel is still in the table.
`TimeCanPass` shows that this never stops the clock. Statements between two blocking
operations take no time, so that the clock readings of one such stretch agree; waiting for the
mutex, for the authority or for a slot may take any time. Any holder of a channel may close it
at any moment, which covers the timers and every error path.

**The cloud scripts.** A dispatched write is in flight until it lands, at any later time or
never; an observation may report a provisioning state that is out of date. A process may die
between any two operations; the guards that are not modelled (evidence, ownership, CLI
version) are covered by that, since a refusal also ends the process. `StaticSettings` is
imperative: the disk, the cloud and the operator's phases are methods of one object that keeps
its history, and the safety of all histories is proved as lemmas about histories. A world may
be calm: nothing fails and every write lands at once. The contracts say both what holds
whatever happens and that a calm world lets the phases complete. It takes one process at a
time, because that script takes no lock. `StandbyConversion` interleaves
processes, because its exclusive reservation alone is meant to be enough.

**The startup gate.** For every path a host has what is visible and what a crash of the host
could leave there; only an fsync of that path narrows the latter. The journal, the container's
instance and other resumes change the world between any two operations, unless the host is calm,
on which a run is proved to complete.

**The parsers.** Each loop is proved equal to a value-level meaning of the octets (a grammar,
or the labels that the octets denote), and the meaning is then shown to be inverted by an
encoder. JSON is uninterpreted: a model of it says which texts are valid and which of these a
decoder may take as chunks, and facts of RFC 8259 are named where they are used
(`StreamFrames.Facts`). UTF-8 decoding is a parameter.

## Where a guarantee stops

- The VNet prefix script can record `restored` while its addition is still in flight: when the
  stage is `add_sent` and the prefix list is unchanged, restore sends nothing and records the
  end (`VnetPrefix.RestoredTooEarly`). `VnetPrefix.RestoredSettles` states exactly when a
  completed restoration leaves nothing in flight. The static-settings script refuses that case.
- The reassembler parses a carry-over that is valid JSON at once, without waiting for its
  newline. `StreamCuts.CutsMatterExactly` states exactly for which payloads the cuts into frames
  do not matter: from the start of a line, or after a text parsed at once, a text that is valid
  JSON is precisely the next line that is not blank, or both are refused, for as long as nothing
  has been refused. After a `[DONE]`, when no chunk can be emitted any more, it is also enough
  that every way of reading the rest is refused. Data lines and bare objects on lines of their
  own are such payloads (`StreamLines.FragmentationIndependent`). Two bare chunk objects on one
  line are not: they are accepted in two frames and refused in one
  (`StreamLines.BareJsonDependsOnCuts`).
- `decode_name` reads back a question of up to 127 labels; a longer one that `question` writes
  is refused (`DnsName.DecodesQuestion` covers both cases).

## Model

| member | source | states |
|---|---|---|
| `AccessAdmission.AdmissionSafety` | packages/apptransport/channel.go:118-209 | in every reachable state the unreleased admissions are exactly the reservations, and every binding has the broker's purpose; connections and reservations are at most 128, reservations and unclaimed channels of one binding at most 2, and a Beam broker holds at most 34 per share and 64 per organization |
| `AccessAdmission.AdmittedExactly` | packages/apptransport/channel.go:118-152 | Accept's test passes exactly when the broker is open and the table with the reservation added still keeps the four limits, given in numbers |
| `AccessTable.ReserveKeeps` | packages/apptransport/channel.go:118-152 | a reservation that passes Accept's test breaks no limit of any scope: the scopes tested are the only limited ones it is counted in |
| `AccessTable.InsertKeeps` | packages/apptransport/channel.go:204-208 | a reservation turned into a channel changes no load, so no limit is tested again |
| `AccessTable.CloseChannelKeeps` | packages/apptransport/channel.go:78-98 | closing a channel keeps every limit and the agreement between the table and the closed flags |
| `AccessHandoff.HandOffSafety` | packages/apptransport/channel.go:313-353 | no channel is returned by two Dials, a returned channel has the requested binding, and its monitor ended by a timeout after it saw the claim, so it took no byte from the peer |
| `AccessHandoff.NoLostWakeUp` | packages/apptransport/channel.go:310-359 | a Dial blocked on the current notify channel has missed nothing: the broker is open and no idle channel of its binding is in the table |
| `AccessHandoff.OfferReachesDials` | packages/apptransport/channel.go:222-225 | an offer wakes every Dial that waits for its binding, and the woken Dial can claim the channel offered |
| `AccessConservation.NoChannelLost` | packages/apptransport/channel.go:204-353 | in every reachable state a channel in the table has a goroutine to look after it: a claimed one is held by a Dial, an unclaimed one is idle or held by its Accept, and its renewal goroutine has not stopped |
| `AccessHandoff.WatchedKept` | packages/apptransport/channel.go:228-240 | monitorDone closes only after a timeout seen with the claim set, or after the channel is closed |
| `AccessLeases.RevocationBound` | packages/apptransport/channel.go:168-180 | when the authority grants nothing after a moment T, every lease deadline in the table is below T plus ten seconds (eight for Browser and Beam brokers), two maximal leases, in every interleaving, and time passes that bound only with an empty table |
| `AccessLeases.CheckInTime` | packages/apptransport/channel.go:170-177 | a lease that Accept's tests admit was granted on chains that outlive it, and is bounded through the two-second admission timeout |
| `AccessLeases.TestInTime` | packages/apptransport/channel.go:253-264 | a renewal is accepted only while the old lease runs, so it reaches less than two leases past the last grant |
| `AccessLeases.CertificatesBound` | packages/apptransport/channel.go:256-309 | through any number of renewals no channel's lease exceeds the earliest NotAfter of its chains; a TLS request without well-formed chains has no channel; no lease exceeds the present plus the maximal lease of four or five seconds |
| `AccessTimers.CheckExactly` | packages/apptransport/channel.go:168-180 | Accept takes the authority's answer exactly when it came within two seconds, ends after the present even when cut to the certificates' expiry, and reaches no further than the four or five seconds an authority may grant |
| `AccessTimers.TestExactly` | packages/apptransport/channel.go:256-265 | a renewal takes the answer exactly when the old lease still runs and the same holds of the new one |
| `AccessTimers.ApplyExactly` | packages/apptransport/channel.go:266-274 | the lease is replaced, and nothing else in the table changes, exactly when the channel is open and its old lease still runs under the mutex |
| `AccessTimers.AskExactly` | packages/apptransport/channel.go:248-255 | renew asks the authority again exactly while no active deadline has come |
| `AccessTimers.ActiveExactly` | packages/apptransport/channel.go:320-328 | over every run a channel has an active deadline exactly when the purpose is origin_check and it is claimed, and time stops exactly for leases and for the deadlines of claimed origin_check channels |
| `AccessTimers.ActiveBound` | packages/apptransport/channel.go:320-328 | the deadline of a claimed origin_check channel is the claim plus ten seconds, through every later step, after which the channel is out of the table |
| `AccessShutdown.CleanShutdown` | packages/apptransport/channel.go:99-112 | a closed broker stays closed and its table only shrinks, and a Broker.Close that has finished its list leaves the table empty, whatever runs beside it |
| `AccessShutdown.TimeCanPass` | packages/apptransport/channel.go:208 | from every reachable state closing the due channels lets time pass: the urgent timers never deadlock |
| `AccessExample.HandOverHappens` | packages/apptransport/channel.go:310-353 | a run in which a channel is admitted, offered, claimed and returned |
| `AccessExample.RenewalHappens` | packages/apptransport/channel.go:241-276 | a run in which a lease is asked for again, granted, tested and taken |
| `Certificates.AuthenticatedCertificateExpiry` | packages/apptransport/channel.go:281-303 | no TLS gives no expiry, chains of dated certificates give the earliest NotAfter, and absent, empty or malformed chains give the present |
| `Certificates.CapCredentialLease` | packages/apptransport/channel.go:304-309 | the capped lease is the smaller of lease and expiry |
| `Broker.Broker.Reserve` | packages/apptransport/channel.go:118-152 | the two counting loops decide exactly the admission test; one reservation of the binding and one of the total are added, or one refusal is counted, and nothing else changes |
| `Broker.CountPending` | packages/apptransport/channel.go:121-130 | the loop over the pending map counts the organization's and the share's reservations |
| `Broker.Broker.CountOpen` | packages/apptransport/channel.go:131-141 | the loop over the connections counts the unclaimed channels of the binding and all of its organization and share |
| `Broker.Broker.Release` | packages/apptransport/channel.go:154-160 | one reservation is given back, and the binding leaves the pending map with its last one |
| `Broker.PendingSum` | packages/apptransport/channel.go:150-160 | in whatever order the pending map is ranged over, its counts add up to the number of reservations, which is pendingCount |
| `Broker.Broker.Insert` | packages/apptransport/channel.go:181-209 | nothing is inserted into a closed broker; otherwise the new channel takes the reservation's place |
| `Broker.Broker.MarkIdle` | packages/apptransport/channel.go:222-225 | the channel is idle, nothing else changes in the table, and notify moves to a new generation, which wakes every waiting Dial |
| `Broker.Broker.CloseChannel` | packages/apptransport/channel.go:78-98 | the first close takes the channel out of the table and wakes every waiting Dial; a later one changes nothing |
| `Broker.Broker.Close` | packages/apptransport/channel.go:99-112 | run alone, it leaves the broker closed, the table empty and every channel closed, and it wakes every waiting Dial even when the table was empty |
| `Broker.Broker.Claim` | packages/apptransport/channel.go:313-333 | an idle open channel of exactly the binding is claimed, or there is none; its active deadline is the present plus ten seconds on origin_check and stays unset on every other purpose |
| `Broker.Broker.Renew` | packages/apptransport/channel.go:266-274 | the lease is replaced exactly if the channel is open and its old lease still runs |
| `Broker.Broker.Capacity` | packages/apptransport/capacity.go:14-26 | Active counts the claimed channels, Active plus Ready is Connections, PendingAdmissions is the number of reservations |
| `StaticSettings.NeverTwoInFlight` | deploy/azure/configure-owned-static.py:83-161 | in a safe history at most one write is dispatched and not in effect, at every moment |
| `StaticSettings.DispatchedAloneAndOnce` | deploy/azure/configure-owned-static.py:132-150 | a write is dispatched only when no other is in flight (in particular no restore write while an apply write could still land), and never twice |
| `StaticSettings.RestoredHolds` | deploy/azure/configure-owned-static.py:151-160 | from the moment restored is recorded the original settings are in force, nothing is in flight and nothing is sent |
| `StaticSettings.NothingInFlight` | deploy/azure/configure-owned-static.py:132-141 | what a run has seen when it turns to a step never sent before leaves no room for a write in flight |
| `StaticSettings.LastEffectSettles` | deploy/azure/configure-owned-static.py:119-126 | the observed effect of the last reserved apply step settles every apply write, whatever was observed before |
| `StaticSettings.LandsOne` | deploy/azure/configure-owned-static.py:144-145 | an effect that lands late gives the settings of all landed writes |
| `StaticSettings.ClassifyExactly` | deploy/azure/configure-owned-static.py:70-77 | each classification stands for exactly these settings, and exactly foreign prefixes are refused |
| `StaticSettings.World.AdmitsExactly` | deploy/azure/configure-owned-static.py:108-126 | each write phase is admitted exactly over a settled gateway, at its stages, with its last reserved step and that step's effect observed, and continue-apply with its own step never reserved |
| `StaticSettings.World.DoStep` | deploy/azure/configure-owned-static.py:132-150 | one turn of the write loop keeps the history safe and returns only with the step's effect read back; in a calm world it sends its write and returns |
| `StaticSettings.World.DoSteps` | deploy/azure/configure-owned-static.py:130-150 | the loop over both steps sends only the writes of its phase, apply-step and continue-apply at most one; in a calm world it reaches what its phase is for |
| `StaticSettings.World.DoReconcile` | deploy/azure/configure-owned-static.py:157-161 | read and reconcile record static over apply_sent when the static settings show, restored over restore_sent when the original ones show, and leave the stage alone otherwise; what they report is what the file then holds |
| `StaticSettings.World.Run` | deploy/azure/configure-owned-static.py:83-161 | every phase, cut short anywhere, keeps the history safe; a report of static or restored means those settings with nothing in flight, and no report pairs apply_sent with the static settings or restore_sent with the original ones; prepare, read and reconcile send nothing; after restored nothing is sent; in a calm world the outcome of every phase, refusals included, is the one function of file, markers and settings given by `Answer` |
| `StaticSettings.World.Reserve` | deploy/azure/convert-owned-standby.py:142-148 | an exclusive reservation succeeds at most once, even when its content was never written |
| `StaticSettings.World.Save` | deploy/azure/qualify-owned-unapproved-prefix.py:27-39 | the stage file is the old one or the new one whole, wherever the write is cut short |
| `StaticSettings.Lifetime` | deploy/azure/configure-owned-static.py:83-161 | any number of invocations in any order, with crashes and late effects, have a safe history |
| `StaticSettings.Uneventful` | deploy/azure/configure-owned-static.py:83-161 | when nothing fails, an experiment that is prepared, applied at once or by apply-step and continue-apply, and restored reports the static and then the original settings |
| `StandbyConversion.SingleMutations` | deploy/azure/convert-owned-standby.py:192-228 | over every interleaving of processes and every crash each mutation is dispatched at most once, at most one is in flight, and the conversion has landed before a restoration is reserved |
| `StandbyConversion.RestoredIsFinal` | deploy/azure/convert-owned-standby.py:212-230 | once any process records restored, the original topology is in place, nothing is in flight and nothing is ever dispatched again |
| `StandbyConversion.PreparedOnce` | deploy/azure/convert-owned-standby.py:171-181 | once a stage is recorded there is always one, and none goes back to prepared |
| `StandbyConversion.ReserveExactly` | deploy/azure/convert-owned-standby.py:192-219 | a mutation is reserved exactly by apply at prepared over the original topology, or by restore at apply_sent or converted over the preserved one, and never twice |
| `StandbyConversion.SettleExactly` | deploy/azure/convert-owned-standby.py:227-232 | converted or restored is recorded exactly when the topology that the outstanding mutation leads to is observed, by the process that sent it or by read and reconcile |
| `StandbyConversion.ConversionHappens` | deploy/azure/convert-owned-standby.py:171-230 | a run in which one process prepares, converts and restores, each mutation dispatched once |
| `StandbyConversion.ReconciliationHappens` | deploy/azure/convert-owned-standby.py:227-232 | a run in which the processes that convert and restore die before they read back, and later reads record converted and restored |
| `VnetPrefix.EachOnce` | deploy/azure/qualify-owned-unapproved-prefix.py:154-182 | each write is dispatched at most once over all runs and crashes, the removal only after the addition has landed |
| `VnetPrefix.AddedAndRemoved` | deploy/azure/qualify-owned-unapproved-prefix.py:154-182 | runs in which the prefix is added and removed, each once, with the process dying in between or not |
| `VnetPrefix.RestoredTooEarly` | deploy/azure/qualify-owned-unapproved-prefix.py:157-182 | a concrete run records restored while the addition is in flight and then takes effect |
| `VnetPrefix.RestoredSettles` | deploy/azure/qualify-owned-unapproved-prefix.py:157-182 | a completed restoration leaves nothing in flight and the original prefixes exactly unless it was decided on stage add_sent and an unchanged prefix list |
| `StartupGate.Host.WriteBytes` | deploy/ipsec/runtime_restore_runner.py:144-150 | exclusive creation, content and fsyncs: complete and durable when it returns, absent, torn or whole after a crash |
| `StartupGate.Host.AssembleReceipt` | deploy/ipsec/runtime_restore_runner.py:405-410 | whatever the evidence files hold after crashes, a receipt is assembled only from this run's proof, journal and a fresh runtime |
| `StartupGate.Host.InstallAndRelease` | deploy/ipsec/runtime_restore_runner.py:422-429 | the receipt is durable at the target before the gate is unlinked |
| `StartupGate.Host.FinishRestoration` | deploy/ipsec/runtime_restore_runner.py:384-429 | restoration completes only by releasing the gate, with every intermediate state safe |
| `StartupGate.Host.Run` | deploy/ipsec/runtime_restore_runner.py:325-368 | the stop is ordered only under a durable gate; a run that completes has released it; one that finds a gate writes nothing; on a calm host it completes when the target holds what preflight read and leaves the target alone when it does not |
| `StartupGate.Host.Resume` | deploy/ipsec/runtime_restore_runner.py:464-517 | a resume, with other resumes between its checks and its lock, keeps the gate safe; it writes nothing unless the run's kept proof, gate and record, an unchanged target and an unchanged journal are there; undisturbed it then completes exactly when the container runs another instance in the same boot |
| `StartupGate.InstalledMeans` | deploy/ipsec/runtime_restore_runner.py:562-567 | an installed receipt carries this run's proof and stopped journal and a current journal of the same lineage and no lower sequence, seen by another instance in the same boot |
| `StartupGate.Interrupted` | deploy/ipsec/runtime_restore_runner.py:464-517 | after a run that died once its proof was kept, on a host where nothing else happens, a resume installs the receipt and releases the gate |
| `StartupGate.Supervise` | deploy/ipsec/runtime_restore_runner.py:241-249 | one run and any number of resumes: a created gate that is gone means this run's receipt; otherwise the target holds what was found or this run's receipt |
| `StartupGate.Uneventful` | deploy/ipsec/runtime_restore_runner.py:325-429 | when nothing dies and nobody interferes, a run installs its receipt and releases its gate |
| `StreamCuts.CutsMatterExactly` | apps/ai-engine/sagemaker.go:527-579 | all cuts of a payload that trip no size check emit the same stream, under every decoder that takes no more texts than the rules allow, if and only if the payload is unambiguous; for every payload without a line over the size limit, with `[DONE]` or without |
| `StreamCuts.CutsDoNotMatter` | apps/ai-engine/sagemaker.go:527-579 | however an unambiguous payload is cut into frames that trip no size check, the stream emits what a batch parse of the whole payload emits |
| `StreamCuts.SeverableSuffices` | apps/ai-engine/sagemaker.go:552-575 | a payload is unambiguous when each front that is valid JSON is its first line that is not blank, or both are refused, and so on for what is left as long as nothing is refused |
| `StreamCuts.SeverableNeeded` | apps/ai-engine/sagemaker.go:552-575 | and only then, for a payload without `[DONE]` |
| `StreamLines.LineValuesSuffice` | apps/ai-engine/sagemaker.go:552-575 | it is enough that from the start of every line before which nothing is refused each valid text is the next line that is not blank, or both are refused |
| `StreamLines.LineValuesNeeded` | apps/ai-engine/sagemaker.go:552-575 | and it is needed, for the texts short enough for the carry-over buffer |
| `StreamLines.FragmentationIndependent` | apps/ai-engine/sagemaker.go:527-579 | however a payload of data lines and of bare objects on lines of their own is cut into frames that trip no size check, the stream emits what a batch parse of the whole payload emits |
| `StreamLines.BareJsonDependsOnCuts` | apps/ai-engine/sagemaker.go:552-575 | the payload of two chunk objects without a newline between them is accepted in two frames and refused in one |
| `StreamBatch.BatchMeans` | apps/ai-engine/sagemaker.go:497-526 | read off object type, number of choices, finish reason and usage of its chunks: a batch whose texts are all in turn emits the contents in order and then, if a finish reason was given, the last such chunk with the last usage, from whatever chunk, or else a failure; any other batch emits the contents before the first text out of turn and fails |
| `StreamBatch.UsageAfterFinish` | apps/ai-engine/sagemaker.go:503-517 | in particular a chunk with no choices and a usage after the chunk with the finish reason is accepted and its usage is the one reported |
| `StreamTexts.TrimMeans` | apps/ai-engine/sagemaker.go:498 | trimming takes off white space at both ends, all of it and nothing else |
| `StreamFrames.FinalFits` | apps/ai-engine/sagemaker.go:532-551 | a stream that ends with a final chunk came as events of the right kind with at most 1048576 octets in all, and the carry-over never held more than 65536 |
| `Stream.StreamDisciplined` | apps/ai-engine/sagemaker.go:488-584 | every stream is non-terminal chunks with increasing indices and then exactly one final item, a final chunk having the highest index; in the order in which finish reasons are read and items emitted, no chunk comes after any finish reason, whether the stream ends well or not |
| `Stream.NothingFollowsFinish` | apps/ai-engine/sagemaker.go:497-526 | from any state in which a finish reason has been read, whatever arrives, exactly one more item is emitted, and it is not a chunk |
| `Stream.Reassembler.ParseText` | apps/ai-engine/sagemaker.go:497-526 | one text does to the fields what the value-level parse does, of which `StreamBatch.BatchMeans` gives the meaning |
| `Stream.Reassembler.ParsePending` | apps/ai-engine/sagemaker.go:560-574 | the complete lines are taken off the carry-over buffer and parsed, the rest is kept |
| `Stream.Reassembler.ReadAll` | apps/ai-engine/sagemaker.go:527-584 | the loop over frames emits the value-level stream of its events |
| `Vici.AcceptsExactlyTheGrammar` | deploy/ipsec/qualify_scheduled_ike.py:85-119 | a byte string is accepted exactly when it is a complete balanced element sequence, and the tree returned is the one it denotes |
| `Vici.RoundTrip` | deploy/ipsec/qualify_scheduled_ike.py:85-119 | every list-free tree with distinct keys survives encoding and decoding, in whatever order the keys of each section are written |
| `Vici.DecodeVici` | deploy/ipsec/qualify_scheduled_ike.py:85-119 | the loop that mutates dictionaries through the stack returns a heap structure that means the decoded tree |
| `Vici.ReadElement` | deploy/ipsec/qualify_scheduled_ike.py:90-116 | one turn of the loop reads one element as the value-level machine does |
| `DnsName.DecodeName` | deploy/ipsec/gcp-cloud-dns-wire-probe.py:10-23 | the reader terminates, stays in bounds and returns exactly the labels the octets denote within 128 steps, with the position after the name |
| `DnsName.NameInLower` | deploy/ipsec/gcp-cloud-dns-wire-probe.py:20-21 | a decoded name is the labels denoted, joined by dots, with no capital left and a dot at the end |
| `DnsName.LowerMeans` | deploy/ipsec/gcp-cloud-dns-wire-probe.py:21 | lower case moves the letters A to Z by 32 and changes nothing else |
| `DnsName.DenotesAtMostOnce` | deploy/ipsec/gcp-cloud-dns-wire-probe.py:10-23 | octets denote at most one list of labels, pointers or not |
| `DnsName.RevisitNeverEnds` | deploy/ipsec/gcp-cloud-dns-wire-probe.py:11-14 | a position seen twice denotes no name: the seen set refuses nothing else |
| `DnsName.DecodesQuestion` | deploy/ipsec/gcp-cloud-dns-wire-probe.py:6-23 | a name written by question is read back up to letter case exactly when it has at most 127 labels |
| `DnsName.DecodesCompressed` | deploy/ipsec/gcp-cloud-dns-wire-probe.py:10-23 | labels followed by a pointer are read as those labels and the name pointed to, exactly when 128 length octets are enough |
| `DnsMessage.Response` | deploy/ipsec/gcp-cloud-dns-wire-probe.py:24-49 | the reader computes the meaning of the message, or refuses exactly where it has none |
| `DnsMessage.ReadRecords` | deploy/ipsec/gcp-cloud-dns-wire-probe.py:33-49 | the record loop collects the answers in order and requires the counts to consume the data exactly |
| `DnsMessage.ResponseExactly` | deploy/ipsec/gcp-cloud-dns-wire-probe.py:24-49 | a full response is accepted with a reply if and only if the octets carry a message that responds to the question (its id, the response bit, opcode 0, not truncated, one question of class 1 and type 1) whose answers have well-formed data, and the reply is that message's |
| `DnsMessage.ShortExactly` | deploy/ipsec/gcp-cloud-dns-wire-probe.py:24-31 | a header-only response is accepted if and only if header and question answer the one asked, and the reply holds their fields |
| `DnsMessage.ReadsEveryMessage` | deploy/ipsec/gcp-cloud-dns-wire-probe.py:24-49 | from any octets that carry a message, each of its names written with pointers or without, the A, CNAME and other answers are recovered in order, names in lower case |
| `DnsWriter.EncodeCarries` | deploy/ipsec/gcp-cloud-dns-wire-probe.py:24-49 | in particular the octets written record by record without pointers carry their message |
| `DnsMessage.AcceptedIsPrefixFree` | deploy/ipsec/gcp-cloud-dns-wire-probe.py:33-48 | no accepted full message is a proper prefix of another |
| `DnsAnswers.ValidateExactly` | deploy/ipsec/gcp-cloud-dns-wire-probe.py:68-76 | the verdict is positive if and only if the records of the answer section are the right ones: none and code 3 for nx-qualification, the one alias and the one address, in any order, for alias, each address of the range exactly once for large and tc-large, the one address otherwise |
| `DnsAnswers.VerdictExactly` | deploy/ipsec/gcp-cloud-dns-wire-probe.py:24-76 | the same from the octets: the verdict on any accepted response is that of the message its octets carry |
| `Framing.Connection.ReadFrame` | deploy/ipsec/gcp-cloud-dns-wire-probe.py:58-67 | the frame read is the one the peer's octets spell, however they arrive, and nothing after it is consumed |
| `Routes.CleanFixed` | packages/apptransport/beam/routes.go:31-34 | a rooted path is its own cleaning exactly when it is the root or all its segments are proper names |
| `Routes.ValidPathPrefix` | packages/apptransport/beam/routes.go:31-41 | a prefix is valid exactly when it is one or more proper segments of the allowed characters, within the length limits |
| `Routes.ValidateTarget` | packages/apptransport/beam/routes.go:12-30 | a target is valid exactly when it is loopback, has at most eight routes with distinct valid prefixes, and no nested routes |
| `Routes.CheckTarget` | packages/apptransport/beam/connector.go:62-75 | a single target is accepted exactly when it is HTTP or HTTPS on a loopback address with a port up to 65535, and any certificate text is for HTTPS, at most 32768 octets and taken by the pool |
| `Routes.MatchesSegments` | packages/apptransport/beam/routes.go:53-54 | the textual match is segment-wise: the prefix's segments are the path's first segments |
| `Routes.ServableSegments` | packages/apptransport/beam/routes.go:48-50 | the test against the path's cleaning holds exactly when all its segments are proper names, but for one final slash |
| `Routes.TargetForPath` | packages/apptransport/beam/routes.go:44-61 | refused exactly for an invalid target or path; otherwise the target of the unique route with the most matching segments, or the plain target |
| `Routes.OrderIrrelevant` | packages/apptransport/beam/routes.go:51-58 | the choice is the same for every order of the routes |
| `Layout.SelectSubordinate` | deploy/sandbox/install/enroll.py:282-294 | the block chosen is the lowest aligned one apart from every listed extent; it is refused exactly for malformed rows or when no candidate is free |
| `Layout.EnoughRoom` | deploy/sandbox/install/enroll.py:292-294 | a block is found whenever the sum of (count - 1) / 65536 + 2 over the rows' extents is below 65534 |
| `Layout.SelectIdentity` | deploy/sandbox/install/enroll.py:278-281 | the lowest number from 2401 to 65533 that nobody has, or none exactly when all are taken |

## Left out

- Sockets, TLS handshakes, hijacking and HTTP responses of the broker: events that may happen at any time.
- `authoritySlots`, the cap on concurrent authority callbacks, and its gauge: waiting for a slot is part of waiting for the authority.
- Broker.Broker.Capacity: the gauge of concurrent authority callbacks is left out with the slots.
- `leaseTimer.Stop` in renew: its result is implied by the clock test before it, since the timer fires no earlier than the lease ends.
- `BindingHeaders`, `ValidateHeaders`, `DialAuthenticated` and the checks of the request's method and path.
- StreamCuts.CutsMatterExactly: a payload with a line of 65536 octets or more is not covered, because no frame can carry that line with its newline; `StreamCuts.CutsDoNotMatter` covers it.
- Broker.Broker.Close: its contract is for an undisturbed call; `AccessShutdown.CleanShutdown` covers the interleaved one.
- VnetPrefix.EachOnce: one process at a time, since that script makes no reservation of its own.
- Two concurrent operator processes on one static-settings state file: the script takes no lock.
- Evidence freshness, ownership checks, protected-property comparison and literal identifiers of the cloud scripts: a refusal ends the process like a crash.
- `gateway`, `target` and `restore_payload` of the standby conversion: only the classifications they lead to matter to the protocol.
- The identity of the startup gate's inode: nobody else writes that path in the model.
- StartupGate.Host.AssembleReceipt: the receipt helper is modelled by the digest comparisons it makes; its typed checks of the journal are not.
- The wait for restored tunnels after the gate is released, and the result files.
- `readEvent` below its events (prelude lengths, CRC) and the slot handling of `invoke`; `ChatCompletion` without streaming; latencies.
- Non-ASCII white space in the reassembler's trimming and non-ASCII case folding of DNS names.
- The order of keys in decoded VICI dictionaries; `RekeyEvents` and its socket.
- Vici.RoundTrip: lists are decoded to nothing, so only list-free trees come back.
- Textual parsing of the identity files: the rows are given as numbers; the storage checks that follow in `select_layout`.
- `PublicAssetRedirect`: bounded redirects over a visited set, an easy member.
- PEM parsing in `validateTarget`, which is a parameter, and Go's own `path.Clean`, which is modelled by its documented rules for rooted paths.
