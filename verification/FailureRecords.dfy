/** A failed record says that it failed before payment exactly when no payment was announced. */
module FailureRecords {
  import opened Collections
  import opened ProcurementModel
  import opened ProcurementSafety

  predicate Truthful(job: Job) {
    && (job.status == FailedJob ==> job.failedBeforePayment == Some(!MayHaveBroadcast(job)))
    && (job.recovery.Some? ==> MayHaveBroadcast(job))
    && (job.phase == Settling && job.status != Complete ==> MayHaveBroadcast(job))
  }

  /** A queued recovery is of a job whose recovery was begun. */
  predicate Owed(mem: Memory, item: Item) {
    item.Recovery? ==> item.id in mem.jobs && mem.jobs[item.id].recovery.Some?
  }

  ghost predicate QueueOwed(mem: Memory) {
    && (forall i :: 0 <= i < |mem.pending| ==> Owed(mem, mem.pending[i]))
    && (mem.lane.Some? ==> Owed(mem, mem.lane.value.item))
  }

  ghost predicate AllTruthful(log: seq<Job>) {
    forall i :: 0 <= i < |log| ==> Truthful(log[i])
  }

  ghost predicate Told(w: World) {
    AllTruthful(w.log) && (forall id :: id in w.mem.jobs ==> Truthful(w.mem.jobs[id])) && QueueOwed(w.mem)
  }

  // ---------------------------------------------------------------------
  // Records
  // ---------------------------------------------------------------------

  lemma SameTruth(a: Job, b: Job)
    requires a.events == b.events && a.status == b.status && a.failedBeforePayment == b.failedBeforePayment && a.recovery == b.recovery && a.phase == b.phase
    ensures Truthful(a) <==> Truthful(b)
  {
    assert MayHaveBroadcast(a) <==> MayHaveBroadcast(b);
  }

  lemma PushedBroadcast(job: Job, phase: Phase, mark: Mark, txRef: Option<string>)
    ensures MayHaveBroadcast(Pushed(job, phase, mark, txRef)) <==> MayHaveBroadcast(job) || phase == Settling
  {
    var pushed := Pushed(job, phase, mark, txRef);
    assert forall i :: 0 <= i < |job.events| ==> pushed.events[i] == job.events[i];
    assert pushed.events[|job.events|].phase == phase;
  }

  lemma PushedTruth(job: Job, phase: Phase, mark: Mark, txRef: Option<string>)
    requires Truthful(job) && (job.status == FailedJob && phase == Settling ==> MayHaveBroadcast(job))
    ensures Truthful(Pushed(job, phase, mark, txRef))
  {
    PushedBroadcast(job, phase, mark, txRef);
    hide MayHaveBroadcast;
  }

  lemma ResumedTruth(job: Job)
    requires GoodRecord(job) && Recoverable(job)
    ensures Truthful(Resumed(job)) && Resumed(job).recovery.Some?
  {
    ResumedGood(job);
    var i :| 0 <= i < |job.events| && job.events[i].mark == PaymentBroadcast && job.events[i].txRef.Some?;
    assert job.events[i].phase == Settling;
    BroadcastStays(job, Resumed(job));
  }

  /** How a run closes its record. */
  lemma ClosedTruth(job: Job, recovery: bool)
    requires Truthful(job) && (recovery ==> job.recovery.Some?)
    ensures Truthful(CompletedBy(job, recovery)) && Truthful(FailedBy(job, recovery))
    ensures job.recovery.Some? ==> CompletedBy(job, recovery).recovery.Some? && FailedBy(job, recovery).recovery.Some?
  {
    var done, failed := CompletedBy(job, recovery), FailedBy(job, recovery);
    PushedBroadcast(done.(events := job.events, phase := job.phase), CompletePhase, OtherLabel, None);
    PushedBroadcast(failed.(events := job.events, phase := job.phase), FailedPhase, OtherLabel, None);
    assert MayHaveBroadcast(done) <==> MayHaveBroadcast(job) by {
      assert done.(events := job.events, phase := job.phase).events == job.events;
      assert Pushed(done.(events := job.events, phase := job.phase), CompletePhase, OtherLabel, None).events == done.events;
    }
    assert MayHaveBroadcast(failed) <==> MayHaveBroadcast(job) by {
      assert Pushed(failed.(events := job.events, phase := job.phase), FailedPhase, OtherLabel, None).events == failed.events;
    }
  }

  lemma InterruptedTruth(job: Job, c: Config)
    requires Truthful(job)
    ensures Truthful(Interrupted(job, c))
  {
    var closed := Interrupted(job, c);
    assert closed.events == job.events + [Event(FailedPhase, OtherLabel, None)];
    assert MayHaveBroadcast(closed) <==> MayHaveBroadcast(job) by {
      PushedBroadcast(job, FailedPhase, OtherLabel, None);
      assert Pushed(job, FailedPhase, OtherLabel, None).events == closed.events;
    }
  }

  // ---------------------------------------------------------------------
  // Writes
  // ---------------------------------------------------------------------

  /** A truthful record that forgets no recovery. */
  predicate MayTell(w: World, job: Job) {
    Truthful(job) && (job.id in w.mem.jobs && w.mem.jobs[job.id].recovery.Some? ==> job.recovery.Some?)
  }

  lemma SaveTold(w: World, job: Job)
    requires Told(w) && MayTell(w, job)
    ensures Told(Save(w, job))
  {
    hide Truthful;
    var next := Save(w, job);
    forall i | 0 <= i < |next.mem.pending| ensures Owed(next.mem, next.mem.pending[i]) {
      assert Owed(w.mem, w.mem.pending[i]);
    }
  }

  lemma {:induction false} RefreshTold(w: World, i: nat)
    requires Told(w) && IdsOk(w)
    ensures Told(Refresh(w, i)) && IdsOk(Refresh(w, i))
    decreases |w.mem.pending| - i
  {
    if i < |w.mem.pending| && w.mem.pending[i].id in w.mem.jobs {
      var job := w.mem.jobs[w.mem.pending[i].id];
      var numbered := job.(queue := Some(Waiting(Some(i + 1))));
      SameTruth(job, numbered);
      hide Truthful, Told;
      assert MayTell(w, numbered) by { TruthOf(w, job.id); }
      SaveTold(w, numbered);
      RefreshTold(Save(w, numbered), i + 1);
    }
  }

  ghost predicate IdsOk(w: World) {
    forall id :: id in w.mem.jobs ==> w.mem.jobs[id].id == id
  }

  lemma TruthOf(w: World, id: JobId)
    requires Told(w) && id in w.mem.jobs
    ensures Truthful(w.mem.jobs[id])
  {
  }

  lemma PumpTold(w: World)
    requires Told(w) && IdsOk(w)
    ensures Told(Pump(w)) && IdsOk(Pump(w))
  {
    if w.mem.lane.None? && w.mem.pending != [] && w.mem.pending[0].id in w.mem.jobs {
      PumpIs(w);
      hide Refresh, Pump;
      TakeTold(w);
      var job := w.mem.jobs[w.mem.pending[0].id];
      var waiting := job.(queue := Some(Active));
      SameTruth(job, waiting);
      hide Truthful;
      ActiveTruth(w, w.mem.pending[0].id);
      SaveTold(Take(w), Activated(w, w.mem.pending[0].id));
      RefreshTold(Save(Take(w), Activated(w, w.mem.pending[0].id)), 0);
    }
  }

  lemma TakeTold(w: World)
    requires Told(w) && w.mem.pending != []
    ensures Told(Take(w))
  {
    hide Truthful;
    var next := Take(w);
    assert Owed(w.mem, w.mem.pending[0]);
    forall i | 0 <= i < |next.mem.pending| ensures Owed(next.mem, next.mem.pending[i]) {
      assert next.mem.pending[i] == w.mem.pending[i + 1] && Owed(w.mem, w.mem.pending[i + 1]);
    }
  }

  /** The event of an item that starts repeats the record's phase. */
  lemma ActiveTruth(w: World, id: JobId)
    requires Told(w) && IdsOk(w) && id in w.mem.jobs
    ensures Truthful(Activated(w, id)) && Activated(w, id).id == id && (w.mem.jobs[id].recovery.Some? ==> Activated(w, id).recovery.Some?)
  {
    var waiting := w.mem.jobs[id].(queue := Some(Active));
    SameTruth(w.mem.jobs[id], waiting);
    PushedTruth(waiting, waiting.phase, OtherLabel, None);
  }

  lemma EnqueueTold(w: World, item: Item)
    requires Told(w) && IdsOk(w) && Owed(w.mem, item)
    ensures Told(Enqueue(w, item))
  {
    hide Refresh, Pump, Truthful;
    var added := w.(mem := w.mem.(pending := w.mem.pending + [item]));
    forall i | 0 <= i < |added.mem.pending| ensures Owed(added.mem, added.mem.pending[i]) {
      assert i < |w.mem.pending| ==> Owed(w.mem, w.mem.pending[i]);
    }
    RefreshTold(added, 0);
    PumpTold(Refresh(added, 0));
  }

  // ---------------------------------------------------------------------
  // Actions
  // ---------------------------------------------------------------------

  lemma RecoverTold(w: World, c: Config, id: JobId)
    requires Inv(w, c) && w.up && Told(w)
    ensures Told(Recover(w, c, id).0)
  {
    JobIds(w);
    if id in w.mem.jobs && Recoverable(w.mem.jobs[id]) {
      ArchivedComplete(w, id);
      LoadedRecord(w, id);
      ResumedTruth(w.mem.jobs[id]);
      hide Truthful, Enqueue, Inv, Recoverable, GoodRecord, Resumed, Told;
      var resumed := Resumed(w.mem.jobs[id]);
      assert resumed.id == id by { ResumedId(w.mem.jobs[id]); }
      SaveTold(w, resumed);
      EnqueueTold(Save(w, resumed), Recovery(id));
    }
  }

  lemma ResumedId(job: Job)
    ensures Resumed(job).id == job.id
  {
  }

  lemma CreateTold(w: World, r: Request)
    requires Told(w) && IdsOk(w) && r.newId !in w.mem.jobs
    ensures Told(Create(w, r))
  {
    var job := NewJob(r);
    assert Truthful(job) && job.id == r.newId;
    hide Truthful, Enqueue;
    SaveTold(w, job);
    CreateIs(w, r);
    EnqueueTold(Registered(w, r), Pay(r.newId));
  }

  lemma StartTold(w: World, c: Config, r: Request)
    requires Inv(w, c) && w.up && Told(w) && r.newId !in DiskOf(w.log)
    ensures Told(Start(w, c, r).0)
  {
    JobIds(w);
    assert w.mem.jobs.Keys == DiskOf(w.log).Keys;
    hide Truthful, Create, Recover, Inv, DiskOf, Hydrate;
    if Existing(w, r).Some? {
      RecoverTold(w, c, Existing(w, r).value);
    } else {
      CreateTold(w.(mem := w.mem.(starts := Recent(w.mem.starts, r.now))), r);
    }
  }

  lemma CleanUpTold(w: World)
    requires Told(w) && IdsOk(w)
    ensures Told(CleanUp(w))
  {
    if w.mem.lane.Some? && w.mem.lane.value.settled && w.mem.lane.value.item.id in w.mem.jobs {
      var job := w.mem.jobs[w.mem.lane.value.item.id];
      var closed := if job.queue.Some? then job.(queue := Some(Finished)) else job;
      SameTruth(job, closed);
      hide Truthful, Pump;
      SaveTold(w, closed);
      PumpTold(Save(w, closed).(mem := Save(w, closed).mem.(lane := None)));
    }
  }

  lemma ObserveTold(w: World, id: JobId)
    requires Told(w) && IdsOk(w)
    ensures Told(Observe(w, id)) && Told(FinalisationStopped(w, id))
  {
    if id in w.mem.jobs {
      var job := w.mem.jobs[id];
      PushedTruth(job, job.phase, OtherLabel, None);
      if job.finalisation.Some? {
        SameTruth(job, job.(finalisation := Some(job.finalisation.value.(status := WorkFailed))));
        hide Truthful, Told;
        SaveTold(w, job.(finalisation := Some(job.finalisation.value.(status := WorkFailed))));
      }
      SaveTold(w, Pushed(job, job.phase, OtherLabel, None));
    }
  }

  /** A run in the lane writes to a running record. */
  lemma RunningTold(w: World, job: Job, lane: Lane)
    requires Told(w) && w.mem.lane.Some? && lane.item == w.mem.lane.value.item && MayTell(w, job)
    ensures Told(Save(w, job)) && Told(SetLane(Save(w, job), lane))
  {
    hide Truthful;
    SaveTold(w, job);
  }

  lemma RunStepTold(w: World, c: Config, a: RunAction)
    requires Told(w) && IdsOk(w) && LaneLive(w) && LaneJob(w).status == Running
    ensures Told(RunStep(w, c, a))
  {
    var lane, job := w.mem.lane.value, LaneJob(w);
    assert Truthful(job);
    match a {
      case Note(phase, txRef) =>
        PushedTruth(job, phase, OtherLabel, txRef);
        hide Truthful, Told;
        SaveTold(w, Pushed(job, phase, OtherLabel, txRef));
      case SetSession(session) =>
        SameTruth(job, job.(session := Some(session)));
        hide Truthful, Told;
        SaveTold(w, job.(session := Some(session)));
      case Announce =>
        PushedTruth(job, Settling, OtherLabel, None);
        hide Truthful, Told;
        RunningTold(w, Pushed(job, Settling, OtherLabel, None), lane.(stage := Announced));
      case HandOver =>
        hide Truthful;
      case Broadcast(txHash) =>
        PushedTruth(job, Settling, PaymentBroadcast, Some(txHash));
        hide Truthful, Told;
        SaveTold(w, Pushed(job, Settling, PaymentBroadcast, Some(txHash)));
      case Preview =>
        var shown := job.(preview := true, finalisation := Some(Finalisation(WorkRunning, 1)));
        SameTruth(job, shown);
        PushedTruth(shown, Working, OtherLabel, None);
        hide Truthful, Told;
        SaveTold(w, Pushed(shown, Working, OtherLabel, None));
      case Finish =>
        LaneOwed(w);
        ClosedTruth(job, lane.item.Recovery?);
        hide Truthful, Told, CompletedBy;
        ClosedId(job, lane.item.Recovery?);
        RunningTold(w, CompletedBy(job, lane.item.Recovery?), lane.(settled := true));
      case Fail(retry) =>
        FailTold(w, c, retry);
    }
  }

  lemma LaneOwed(w: World)
    requires Told(w) && LaneLive(w)
    ensures w.mem.lane.value.item.Recovery? ==> LaneJob(w).recovery.Some?
  {
    hide Truthful;
  }

  lemma ClosedId(job: Job, recovery: bool)
    ensures CompletedBy(job, recovery).id == FailedBy(job, recovery).id == job.id
  {
    hide MayHaveBroadcast;
  }

  lemma FailTold(w: World, c: Config, retry: bool)
    requires Told(w) && IdsOk(w) && LaneLive(w) && LaneJob(w).status == Running
    ensures Told(RunStep(w, c, Fail(retry)))
  {
    var lane, job := w.mem.lane.value, LaneJob(w);
    assert Truthful(job);
    LaneOwed(w);
    ClosedTruth(job, lane.item.Recovery?);
    ClosedId(job, lane.item.Recovery?);
    FailIs(w, c, retry);
    hide Told, FailedBy;
    var stopped := FailedBy(job, lane.item.Recovery?);
    RunningTold(w, stopped, lane.(settled := true));
    if MayRetry(stopped, c) {
      SameTruth(stopped, RetryMarked(stopped));
      hide Truthful;
      RunningTold(Save(w, stopped), RetryMarked(stopped), lane.(settled := true));
    }
  }

  // ---------------------------------------------------------------------
  // Restart
  // ---------------------------------------------------------------------

  lemma {:induction false} DiskTruth(log: seq<Job>)
    requires AllTruthful(log)
    ensures forall id :: id in DiskOf(log) ==> Truthful(DiskOf(log)[id])
  {
    hide Truthful;
    if log != [] {
      var before := log[..|log| - 1];
      assert forall i :: 0 <= i < |before| ==> before[i] == log[i];
      DiskTruth(before);
    }
  }

  /** While files are loaded nothing is queued. */
  ghost predicate Idle(w: World) {
    Told(w) && w.mem.pending == [] && w.mem.lane == None
  }

  lemma LoadTold(w: World, c: Config, job: Job, full: bool, now: int)
    requires Idle(w) && Truthful(job)
    ensures Idle(Load(w, c, job, full, now))
  {
    var read := LoadRecord(w, c, job, full);
    ReadTold(w, c, job, full);
    hide Idle, Interrupted, Slim, TakesKey;
    IdleIgnoresIndex(read, Load(w, c, job, full, now));
  }

  lemma ReadTold(w: World, c: Config, job: Job, full: bool)
    requires Idle(w) && Truthful(job)
    ensures Idle(LoadRecord(w, c, job, full))
  {
    InterruptedTruth(job, c);
    assert job.status == Complete ==> Truthful(Slim(job));
    hide Truthful, Interrupted, Slim;
  }

  lemma IdleIgnoresIndex(a: World, b: World)
    requires Idle(a) && a.log == b.log && a.mem.jobs == b.mem.jobs && a.mem.pending == b.mem.pending && a.mem.lane == b.mem.lane
    ensures Idle(b)
  {
    hide Truthful;
  }

  lemma {:induction false} LoadAllTold(w: World, c: Config, disk: map<JobId, Job>, files: seq<JobId>, kept: set<JobId>, now: int)
    requires Idle(w) && forall id :: id in disk ==> Truthful(disk[id])
    ensures Idle(LoadAll(w, c, disk, files, kept, now))
  {
    hide Load, Truthful, Idle;
    if files != [] {
      var before, name := LoadAll(w, c, disk, files[..|files| - 1], kept, now), files[|files| - 1];
      LoadAllTold(w, c, disk, files[..|files| - 1], kept, now);
      if name in disk {
        LoadTold(before, c, disk[name], name in kept, now);
      }
    }
  }

  lemma BootTold(w: World, c: Config, files: seq<JobId>, kept: set<JobId>, now: int)
    requires Told(w)
    ensures Told(Boot(w, c, files, kept, now))
  {
    hide Truthful, LoadAll;
    DiskTruth(w.log);
    LoadAllTold(World(true, EMPTY_MEMORY, w.log, w.runStarts, w.handed), c, DiskOf(w.log), files, kept, now);
  }

  // ---------------------------------------------------------------------
  // Whole runs
  // ---------------------------------------------------------------------

  lemma ApplyTold(w: World, c: Config, a: Action)
    requires Inv(w, c) && Enabled(w, a) && Told(w)
    ensures Told(Apply(w, c, a))
  {
    if w.up {
      JobIds(w);
    }
    hide Truthful, Told, Inv, Start, Recover, RunStep, CleanUp, Observe, FinalisationStopped, Boot;
    match a {
      case StartRequest(r) => StartTold(w, c, r);
      case RecoverRequest(id) => RecoverTold(w, c, id);
      case RunAct(act) => RunActTold(w, c, act);
      case RunCleanUp => CleanUpTold(w);
      case Observed(id) => ObserveTold(w, id);
      case RetryGivenUp(id) => ObserveTold(w, id);
      case Restart(files, kept, now) => BootTold(w, c, files, kept, now);
    }
  }

  lemma RunActTold(w: World, c: Config, a: RunAction)
    requires Inv(w, c) && w.up && Told(w)
    ensures Told(RunStep(w, c, a))
  {
    JobIds(w);
    if LaneLive(w) {
      assert InLane(w.mem, w.mem.lane.value.item.id);
      hide Truthful, Told, Inv;
      RunStepTold(w, c, a);
    }
  }

  lemma StepTold(w: World, c: Config, a: Action, next: World)
    requires Inv(w, c) && Told(w) && Step(w, c, a, next)
    ensures Told(next)
  {
    hide Apply, Inv, Truthful;
    ApplyTold(w, c, a);
    if next != Apply(w, c, a) {
      var n :| Crashed(w, Apply(w, c, a), n, next);
    }
  }

  lemma {:induction false} BehaviourTold(c: Config, ws: seq<World>, acts: seq<Action>, m: nat)
    requires Behaviour(c, ws, acts) && m < |ws|
    ensures Told(ws[m])
  {
    hide Inv, Step, Truthful;
    if m > 0 {
      BehaviourTold(c, ws, acts, m - 1);
      BehaviourKeeps(c, ws, acts, m - 1, m - 1);
      StepTold(ws[m - 1], c, acts[m - 1], ws[m]);
    }
  }

  /**
   Over every run, crashes and restarts included: each failed record ever written says that
   it failed before payment exactly when no payment was announced in it.
   */
  lemma FailedBeforePaymentExactly(c: Config, ws: seq<World>, acts: seq<Action>, m: nat, i: nat)
    requires Behaviour(c, ws, acts) && m < |ws| && i < |ws[m].log| && ws[m].log[i].status == FailedJob
    ensures ws[m].log[i].failedBeforePayment == Some(forall k :: 0 <= k < |ws[m].log[i].events| ==> ws[m].log[i].events[k].phase != Settling)
  {
    BehaviourTold(c, ws, acts, m);
    hide Behaviour;
    assert Truthful(ws[m].log[i]);
  }

  // ---------------------------------------------------------------------
  // How a run ends
  // ---------------------------------------------------------------------

  /** What a failing run leaves in its record, and when a finalisation is to be tried again. */
  lemma FailExactly(w: World, c: Config, retry: bool)
    requires LaneLive(w) && LaneJob(w).id == w.mem.lane.value.item.id
    ensures var before, recovery := LaneJob(w), w.mem.lane.value.item.Recovery?;
            var after := RunStep(w, c, Fail(retry)).mem.jobs[before.id];
            && after.status == FailedJob && after.phase == FailedPhase
            && (recovery ==> after.failedBeforePayment == Some(false) && after.session == before.session)
            && (!recovery ==> after.failedBeforePayment == Some(!MayHaveBroadcast(before)))
            && (!recovery && before.session.Some? ==> after.session == if before.session == Some(Finalised) then before.session else Some(AbortedBySelf))
            && (after.finalisation.Some? <==> before.finalisation.Some?)
            && (after.finalisation.Some? ==> after.finalisation.value.attempts == before.finalisation.value.attempts)
            && (after.finalisation.Some? && after.finalisation.value.status == WorkRunning <==>
                && recovery && retry && c.durableFinalisation && before.finalisation.Some? && before.finalisation.value.attempts < 3
                && before.preview && before.session == Some(AbortedBySelf) && BroadcastSeen(before))
  {
    var before, recovery := LaneJob(w), w.mem.lane.value.item.Recovery?;
    var closed := FailedBy(before, recovery);
    FailIs(w, c, retry);
    SeenWhenFailed(before, recovery);
    hide MayHaveBroadcast, BroadcastSeen;
  }

  lemma SeenWhenFailed(job: Job, recovery: bool)
    ensures BroadcastSeen(FailedBy(job, recovery)) <==> BroadcastSeen(job)
  {
    var failed := FailedBy(job, recovery);
    assert forall i :: 0 <= i < |job.events| ==> failed.events[i] == job.events[i];
  }

  /** What a completing run leaves in its record. */
  lemma FinishExactly(w: World, c: Config)
    requires LaneLive(w) && LaneJob(w).id == w.mem.lane.value.item.id
    ensures var before := LaneJob(w);
            var after := RunStep(w, c, Finish).mem.jobs[before.id];
            && after.status == Complete && after.phase == CompletePhase && !after.preview
            && (before.finalisation.Some? ==> after.finalisation == Some(Finalisation(WorkComplete, before.finalisation.value.attempts)))
            && (w.mem.lane.value.item.Recovery? && before.recovery.Some? ==> after.recovery == Some(WorkComplete))
            && after.failedBeforePayment == before.failedBeforePayment && after.session == before.session
  {
    hide MayHaveBroadcast;
  }

  /** What a restart makes of an interrupted record. */
  lemma InterruptedExactly(job: Job, c: Config)
    ensures var after := Interrupted(job, c);
            && after.status == FailedJob && after.phase == FailedPhase && |after.events| == |job.events| + 1
            && (after.failedBeforePayment == Some(true) <==> job.recovery != Some(WorkRunning) && !MayHaveBroadcast(job))
            && (after.recovery == if job.recovery == Some(WorkRunning) then Some(WorkFailed) else job.recovery)
            && (job.session.Some? ==> after.session == if job.session == Some(Finalised) then job.session else Some(AbortedBySelf))
            && (after.finalisation.Some? && after.finalisation.value.status == WorkRunning <==>
                && job.finalisation.Some? && job.finalisation.value.status == WorkRunning
                && c.durableFinalisation && job.preview && BroadcastSeen(job))
  {
    hide MayHaveBroadcast, BroadcastSeen;
  }

  /** The event is the latest broadcast with a transaction. */
  predicate LatestBroadcast(events: seq<Event>, i: nat) {
    && i < |events| && events[i].mark == PaymentBroadcast && events[i].txRef.Some?
    && forall j :: i < j < |events| ==> !(events[j].mark == PaymentBroadcast && events[j].txRef.Some?)
  }

  lemma {:induction false} BroadcastTxExactly(events: seq<Event>, i: nat)
    requires LatestBroadcast(events, i)
    ensures BroadcastTx(events) == events[i].txRef
  {
    if i < |events| - 1 {
      BroadcastTxExactly(events[..|events| - 1], i);
    }
  }

  /** What resuming makes of a recoverable record: it runs again, for the transaction that was broadcast last. */
  lemma ResumedExactly(job: Job, i: nat)
    requires LatestBroadcast(job.events, i)
    ensures var after := Resumed(job);
            && after.status == Running && after.phase == Recovering && after.recovery == Some(WorkRunning)
            && after.events == job.events + [Event(Recovering, OtherLabel, job.events[i].txRef)]
            && (job.finalisation.Some? ==> after.finalisation == Some(Finalisation(WorkRunning, job.finalisation.value.attempts + 1)))
            && after.session == job.session && after.failedBeforePayment == job.failedBeforePayment
  {
    BroadcastTxExactly(job.events, i);
    hide BroadcastTx;
  }
}
