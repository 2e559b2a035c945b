/**
 The paid-job engine as a step relation over (memory, disk, chain).

 The disk is a journal: `persist` replaces one file atomically, so a run's disk history is
 the sequence of records written, and a crash keeps some prefix of it. `DiskOf` reads the
 directory back. `runStarts` lists the paying runs begun and `handed` the payments given to
 a broadcaster; both outlive the process.
 */
module ProcurementModel {
  import opened Collections

  type JobId = string

  datatype Status = Running | Complete | FailedJob

  /** The phases that matter here; every other phase of the source is `Working`. */
  datatype Phase = Working | Settling | Recovering | FailedPhase | CompletePhase

  /** `PaymentBroadcast` is the one label that recovery looks for. */
  datatype Mark = PaymentBroadcast | OtherLabel

  datatype Event = Event(phase: Phase, mark: Mark, txRef: Option<string>)

  datatype SessionState = InProgress | AbortedBySelf | Finalised

  datatype WorkStatus = WorkRunning | WorkComplete | WorkFailed

  datatype Finalisation = Finalisation(status: WorkStatus, attempts: nat)

  datatype Key = Key(keyHash: string, inputHash: string)

  datatype Queue = Waiting(position: Option<nat>) | Active | Finished

  datatype Job = Job(
    id: JobId, status: Status, phase: Phase, createdAt: int, events: seq<Event>,
    failedBeforePayment: Option<bool>, session: Option<SessionState>, recovery: Option<WorkStatus>,
    finalisation: Option<Finalisation>, preview: bool, key: Option<Key>, queue: Option<Queue>)

  datatype Item = Pay(id: JobId) | Recovery(id: JobId)

  /** How far a paying run has come with its payment. */
  datatype Stage = Unannounced | Announced | Handed

  /** The running item; `settled` once its promise settled and only the clean-up is left. */
  datatype Lane = Lane(item: Item, stage: Stage, settled: bool)

  datatype Memory = Memory(
    jobs: map<JobId, Job>, byKey: map<string, JobId>, archived: set<JobId>,
    lane: Option<Lane>, pending: seq<Item>, starts: seq<int>)

  /** `up` is false between a crash and the restart that follows it. */
  datatype World = World(up: bool, mem: Memory, log: seq<Job>, runStarts: seq<JobId>, handed: seq<JobId>)

  datatype Config = Config(queueLimit: nat, hourlyLimit: nat, durableFinalisation: bool)

  datatype Reply = Started(id: JobId) | Replayed(id: JobId) | Resuming(id: JobId) | Refused(status: nat)

  const EMPTY_MEMORY := Memory(map[], map[], {}, None, [], [])

  const HOUR_MS := 3_600_000

  // ---------------------------------------------------------------------
  // Records
  // ---------------------------------------------------------------------

  /** A settling event is persisted before any payment call, so it means a payment may exist. */
  predicate MayHaveBroadcast(job: Job) {
    exists i :: 0 <= i < |job.events| && job.events[i].phase == Settling
  }

  predicate BroadcastSeen(job: Job) {
    exists i :: 0 <= i < |job.events| && job.events[i].mark == PaymentBroadcast && job.events[i].txRef.Some?
  }

  predicate Recoverable(job: Job) {
    job.status == FailedJob && job.session == Some(AbortedBySelf) && BroadcastSeen(job)
  }

  /** What one write may do to the record it replaces. */
  predicate Extends(before: Job, after: Job) {
    before.id == after.id && before.key == after.key && before.createdAt == after.createdAt && before.events <= after.events
  }

  /**
   A record may claim that it failed before any payment only when no payment was announced
   and it is not running; broadcast events are settling events.
   */
  predicate GoodRecord(job: Job) {
    && (job.failedBeforePayment == Some(true) ==> !MayHaveBroadcast(job) && job.status != Running)
    && (job.phase == Settling ==> MayHaveBroadcast(job))
    && (forall i :: 0 <= i < |job.events| && job.events[i].mark == PaymentBroadcast ==> job.events[i].phase == Settling)
  }

  function AbortSession(s: Option<SessionState>): Option<SessionState> {
    if s.Some? && s.value != Finalised then Some(AbortedBySelf) else s
  }

  // ---------------------------------------------------------------------
  // The disk
  // ---------------------------------------------------------------------

  function DiskOf(log: seq<Job>): map<JobId, Job> {
    if log == [] then map[] else DiskOf(log[..|log| - 1])[log[|log| - 1].id := log[|log| - 1]]
  }

  /** A well-kept journal: each write is a good record that extends the one it replaces or brings a new key. */
  ghost predicate LogOk(log: seq<Job>) {
    log == [] ||
    var before, job := log[..|log| - 1], log[|log| - 1];
    && LogOk(before)
    && MayWrite(DiskOf(before), job)
  }

  ghost predicate MayWrite(disk: map<JobId, Job>, job: Job) {
    && GoodRecord(job)
    && (job.id in disk ==> Extends(disk[job.id], job))
    && (job.id !in disk && job.key.Some? ==> forall id :: id in disk && disk[id].key.Some? ==> disk[id].key.value.keyHash != job.key.value.keyHash)
  }

  // ---------------------------------------------------------------------
  // Memory and journal updates
  // ---------------------------------------------------------------------

  function SetJob(w: World, job: Job): World {
    w.(mem := w.mem.(jobs := w.mem.jobs[job.id := job]))
  }

  /** Change a record in place and persist it. */
  function Save(w: World, job: Job): World {
    SetJob(w, job).(log := w.log + [job])
  }

  function Pushed(job: Job, phase: Phase, mark: Mark, txRef: Option<string>): Job {
    job.(phase := phase, events := job.events + [Event(phase, mark, txRef)])
  }

  /** Number the waiting jobs from index `i` on, persisting each. */
  function Refresh(w: World, i: nat): World
    decreases |w.mem.pending| - i
  {
    if i >= |w.mem.pending| || w.mem.pending[i].id !in w.mem.jobs then w
    else
      var job := w.mem.jobs[w.mem.pending[i].id];
      Refresh(Save(w, job.(queue := Some(Waiting(Some(i + 1))))), i + 1)
  }

  /** Start the first waiting item if the lane is free. */
  function Pump(w: World): World {
    if w.mem.lane.Some? || w.mem.pending == [] || w.mem.pending[0].id !in w.mem.jobs then w
    else
      var item := w.mem.pending[0];
      var job := w.mem.jobs[item.id];
      var taken := w.(mem := w.mem.(pending := w.mem.pending[1..], lane := Some(Lane(item, Unannounced, false))));
      var saved := Refresh(Save(taken, Pushed(job.(queue := Some(Active)), job.phase, OtherLabel, None)), 0);
      if item.Pay? then saved.(runStarts := saved.runStarts + [item.id]) else saved
  }

  function Enqueue(w: World, item: Item): World {
    Pump(Refresh(w.(mem := w.mem.(pending := w.mem.pending + [item])), 0))
  }

  predicate QueueFull(w: World, c: Config) {
    (w.mem.lane.Some? || w.mem.pending != []) && |w.mem.pending| >= c.queueLimit
  }

  // ---------------------------------------------------------------------
  // Requests
  // ---------------------------------------------------------------------

  function Hydrate(w: World, id: JobId): Job
    requires id in w.mem.jobs
  {
    if id in w.mem.archived && id in DiskOf(w.log) then DiskOf(w.log)[id] else w.mem.jobs[id]
  }

  function Recover(w: World, c: Config, id: JobId): (World, Reply) {
    if id !in w.mem.jobs then (w, Refused(404))
    else if !Recoverable(w.mem.jobs[id]) then (w, Refused(409))
    else if QueueFull(w, c) then (w, Refused(503))
    else
      (Enqueue(Save(w, Resumed(w.mem.jobs[id])), Recovery(id)), Resuming(id))
  }

  function Resumed(job: Job): Job {
    Pushed(job.(recovery := Some(WorkRunning), status := Running,
                finalisation := if job.finalisation.Some? then Some(Finalisation(WorkRunning, job.finalisation.value.attempts + 1)) else None,
                queue := Some(Waiting(None))),
           Recovering, OtherLabel, BroadcastTx(job.events))
  }

  /** The transaction reference of the latest broadcast event. */
  function BroadcastTx(events: seq<Event>): Option<string> {
    if events == [] then None
    else
      var last := events[|events| - 1];
      if last.mark == PaymentBroadcast && last.txRef.Some? then last.txRef else BroadcastTx(events[..|events| - 1])
  }

  function Recent(starts: seq<int>, now: int): seq<int> {
    if starts == [] then []
    else (if now - starts[0] < HOUR_MS then [starts[0]] else []) + Recent(starts[1..], now)
  }

  /** A parsed start request; `ready` and `allowed` are the answers of the readiness check and of `beforeCreate`. */
  datatype Request = Request(key: Option<Key>, newId: JobId, now: int, ready: bool, allowed: bool)

  function NewJob(r: Request): Job {
    Job(r.newId, Running, Working, r.now, [Event(Working, OtherLabel, None)], None, None, None, None, false, r.key, Some(Waiting(None)))
  }

  /** The job an idempotency key already stands for. */
  function Existing(w: World, r: Request): Option<JobId> {
    if r.key.Some? && r.key.value.keyHash in w.mem.byKey && w.mem.byKey[r.key.value.keyHash] in w.mem.jobs
    then Some(w.mem.byKey[r.key.value.keyHash]) else None
  }

  function Start(w: World, c: Config, r: Request): (World, Reply) {
    if Existing(w, r).Some? then
      var id := Existing(w, r).value;
      var replay := Hydrate(w, id);
      if replay.key.None? || replay.key.value.inputHash != r.key.value.inputHash then (w, Refused(409))
      else if Recoverable(replay) then Recover(w, c, id)
      else (w, Replayed(id))
    else if !r.ready || QueueFull(w, c) then (w, Refused(503))
    else
      var w1 := w.(mem := w.mem.(starts := Recent(w.mem.starts, r.now)));
      if |w1.mem.starts| >= c.hourlyLimit then (w1, Refused(503))
      else if !r.allowed then (w1, Refused(429))
      else (Create(w1, r), Started(r.newId))
  }

  function Create(w: World, r: Request): World {
    var job := NewJob(r);
    var saved := Save(w, job);
    var indexed := saved.(mem := saved.mem.(
                            byKey := if r.key.Some? then saved.mem.byKey[r.key.value.keyHash := job.id] else saved.mem.byKey,
                            starts := saved.mem.starts + [r.now]));
    Enqueue(indexed, Pay(job.id))
  }

  // ---------------------------------------------------------------------
  // What a run does
  // ---------------------------------------------------------------------

  predicate LaneLive(w: World) {
    w.mem.lane.Some? && !w.mem.lane.value.settled && w.mem.lane.value.item.id in w.mem.jobs
  }

  function LaneJob(w: World): Job
    requires LaneLive(w)
  {
    w.mem.jobs[w.mem.lane.value.item.id]
  }

  function SetLane(w: World, lane: Lane): World {
    w.(mem := w.mem.(lane := Some(lane)))
  }

  datatype RunAction =
    | Note(phase: Phase, txRef: Option<string>)      // any progress event that announces no payment
    | SetSession(session: SessionState)
    | Announce                                       // "Paying ...": persisted before the payment call
    | HandOver                                       // the payment call itself
    | Broadcast(txHash: string)                      // the broadcaster's receipt
    | Preview                                        // verified delivery, final copies still anchoring
    | Finish
    | Fail(retry: bool)                              // `retry`: the failure was a transient one

  function RunStep(w: World, c: Config, a: RunAction): World {
    if !LaneLive(w) then w
    else
      var lane := w.mem.lane.value;
      var job := LaneJob(w);
      match a
      case Note(phase, txRef) =>
        if phase == Settling && (lane.item.Recovery? || lane.stage == Unannounced) then w
        else Save(w, Pushed(job, phase, OtherLabel, txRef))
      case SetSession(session) =>
        if lane.item.Recovery? then w else Save(w, job.(session := Some(session)))
      case Announce =>
        if lane.item.Recovery? || lane.stage != Unannounced then w
        else SetLane(Save(w, Pushed(job, Settling, OtherLabel, None)), lane.(stage := Announced))
      case HandOver =>
        if lane.item.Recovery? || lane.stage != Announced then w
        else SetLane(w, lane.(stage := Handed)).(handed := w.handed + [lane.item.id])
      case Broadcast(txHash) =>
        if lane.item.Recovery? || lane.stage != Handed then w
        else Save(w, Pushed(job, Settling, PaymentBroadcast, Some(txHash)))
      case Preview =>
        if lane.item.Recovery? || lane.stage != Handed then w
        else Save(w, Pushed(job.(preview := true, finalisation := Some(Finalisation(WorkRunning, 1))), Working, OtherLabel, None))
      case Finish =>
        SetLane(Save(w, CompletedBy(job, lane.item.Recovery?)), lane.(settled := true))
      case Fail(retry) =>
        var failed := Save(w, FailedBy(job, lane.item.Recovery?));
        var retried := if lane.item.Recovery? && retry && MayRetry(failed.mem.jobs[job.id], c)
                       then Save(failed, RetryMarked(failed.mem.jobs[job.id])) else failed;
        SetLane(retried, lane.(settled := true))
  }

  function CompletedBy(job: Job, recovery: bool): Job {
    Pushed(job.(status := Complete, preview := false,
                recovery := if recovery && job.recovery.Some? then Some(WorkComplete) else job.recovery,
                finalisation := if job.finalisation.Some? then Some(job.finalisation.value.(status := WorkComplete)) else None),
           CompletePhase, OtherLabel, None)
  }

  function FailedBy(job: Job, recovery: bool): Job {
    var stopped := if recovery then
                     job.(status := FailedJob, failedBeforePayment := Some(false),
                          recovery := if job.recovery.Some? then Some(WorkFailed) else None,
                          finalisation := if job.finalisation.Some? then Some(job.finalisation.value.(status := WorkFailed)) else None)
                   else
                     job.(status := FailedJob, failedBeforePayment := Some(!MayHaveBroadcast(job)),
                          session := AbortSession(job.session),
                          finalisation := if job.finalisation.Some? && job.finalisation.value.status == WorkRunning
                                          then Some(job.finalisation.value.(status := WorkFailed)) else job.finalisation);
    Pushed(stopped, FailedPhase, OtherLabel, None)
  }

  predicate MayRetry(job: Job, c: Config) {
    c.durableFinalisation && job.finalisation.Some? && job.preview && job.finalisation.value.attempts < 3 && Recoverable(job)
  }

  function RetryMarked(job: Job): Job
    requires job.finalisation.Some?
  {
    job.(finalisation := Some(job.finalisation.value.(status := WorkRunning)))
  }

  /** The clean-up after a run: free the lane and start the next item. */
  function CleanUp(w: World): World {
    if w.mem.lane.None? || !w.mem.lane.value.settled || w.mem.lane.value.item.id !in w.mem.jobs then w
    else
      var job := w.mem.jobs[w.mem.lane.value.item.id];
      var saved := Save(w, if job.queue.Some? then job.(queue := Some(Finished)) else job);
      Pump(saved.(mem := saved.mem.(lane := None)))
  }

  /** A late progress callback of some run, or the end of a durable-finalisation retry that could not start. */
  function Observe(w: World, id: JobId): World {
    if id !in w.mem.jobs || id in w.mem.archived then w
    else Save(w, Pushed(w.mem.jobs[id], w.mem.jobs[id].phase, OtherLabel, None))
  }

  function FinalisationStopped(w: World, id: JobId): World {
    if id !in w.mem.jobs || id in w.mem.archived || w.mem.jobs[id].finalisation.None? then w
    else
      var job := w.mem.jobs[id];
      Save(w, job.(finalisation := Some(job.finalisation.value.(status := WorkFailed))))
  }

  // ---------------------------------------------------------------------
  // Restart
  // ---------------------------------------------------------------------

  function Interrupted(job: Job, c: Config): Job {
    var recovering := job.recovery == Some(WorkRunning);
    var resumable := c.durableFinalisation && job.preview && BroadcastSeen(job);
    Pushed(job.(status := FailedJob,
                failedBeforePayment := Some(!recovering && !MayHaveBroadcast(job)),
                recovery := if recovering then Some(WorkFailed) else job.recovery,
                finalisation := if job.finalisation.Some? && job.finalisation.value.status == WorkRunning && !resumable
                                then Some(job.finalisation.value.(status := WorkFailed)) else job.finalisation,
                session := AbortSession(job.session)),
           FailedPhase, OtherLabel, None)
  }

  /** The index entry that stands for an old complete job. */
  function Slim(job: Job): Job {
    Job(job.id, job.status, job.phase, job.createdAt, [], None, None, None, None, false, job.key, None)
  }

  /** Load one file into memory; `full` says that its body is kept. */
  function Load(w: World, c: Config, job: Job, full: bool, now: int): World {
    var w1 := if job.status == Running then Save(w, Interrupted(job, c))
              else if job.status == Complete && !full then
                SetJob(w, Slim(job)).(mem := SetJob(w, Slim(job)).mem.(archived := w.mem.archived + {job.id}))
              else SetJob(w, job);
    var w2 := if job.key.Some? && TakesKey(w1, job) then w1.(mem := w1.mem.(byKey := w1.mem.byKey[job.key.value.keyHash := job.id])) else w1;
    if now - job.createdAt < HOUR_MS then w2.(mem := w2.mem.(starts := w2.mem.starts + [job.createdAt])) else w2
  }

  /** The oldest job keeps a key that two files claim. */
  predicate TakesKey(w: World, job: Job)
    requires job.key.Some?
  {
    var h := job.key.value.keyHash;
    h !in w.mem.byKey || w.mem.byKey[h] !in w.mem.jobs || job.createdAt < w.mem.jobs[w.mem.byKey[h]].createdAt
  }

  function LoadAll(w: World, c: Config, disk: map<JobId, Job>, files: seq<JobId>, kept: set<JobId>, now: int): World {
    if files == [] then w
    else
      var before := LoadAll(w, c, disk, files[..|files| - 1], kept, now);
      var name := files[|files| - 1];
      if name in disk then Load(before, c, disk[name], name in kept, now) else before
  }

  function Boot(w: World, c: Config, files: seq<JobId>, kept: set<JobId>, now: int): World {
    LoadAll(World(true, EMPTY_MEMORY, w.log, w.runStarts, w.handed), c, DiskOf(w.log), files, kept, now)
  }

  // ---------------------------------------------------------------------
  // Steps
  // ---------------------------------------------------------------------

  datatype Action =
    | StartRequest(request: Request)
    | RecoverRequest(id: JobId)
    | RunAct(act: RunAction)
    | RunCleanUp
    | Observed(id: JobId)
    | RetryGivenUp(id: JobId)
    | Restart(files: seq<JobId>, kept: set<JobId>, now: int)

  function Apply(w: World, c: Config, a: Action): World {
    match a
    case StartRequest(r) => Start(w, c, r).0
    case RecoverRequest(id) => Recover(w, c, id).0
    case RunAct(act) => RunStep(w, c, act)
    case RunCleanUp => CleanUp(w)
    case Observed(id) => Observe(w, id)
    case RetryGivenUp(id) => FinalisationStopped(w, id)
    case Restart(files, kept, now) => Boot(w, c, files, kept, now)
  }

  /** What the environment guarantees: new ids are new, and a directory listing names each file once. */
  predicate Enabled(w: World, a: Action) {
    match a
    case StartRequest(r) => w.up && r.newId !in DiskOf(w.log)
    case Restart(files, kept, now) =>
      && !w.up
      && (forall i, j :: 0 <= i < j < |files| ==> files[i] != files[j])
      && (set f | f in files) == DiskOf(w.log).Keys
    case _ => w.up
  }

  /**
   One step: an action runs to its end, or the process dies after any of the action's
   writes and only the journal survives (the next step is then a restart).
   */
  ghost predicate Step(w: World, c: Config, a: Action, next: World) {
    && Enabled(w, a)
    && (next == Apply(w, c, a) || exists n :: Crashed(w, Apply(w, c, a), n, next))
  }

  predicate Crashed(w: World, done: World, n: nat, next: World) {
    && |w.log| <= n <= |done.log|
    && next == World(false, EMPTY_MEMORY, done.log[..n], w.runStarts, w.handed)
  }
}
