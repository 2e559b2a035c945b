/** Recovery never pays: a job that can be recovered has its one payment behind it, for good. */
module RecoverySafety {
  import opened Collections
  import opened ProcurementModel
  import opened ProcurementSafety

  /** Records that show a broadcast belong to jobs whose payment was handed over. */
  ghost predicate LogAccounted(log: seq<Job>, handed: seq<JobId>) {
    forall i :: 0 <= i < |log| && BroadcastSeen(log[i]) ==> log[i].id in handed
  }

  ghost predicate JobsAccounted(jobs: map<JobId, Job>, handed: seq<JobId>) {
    forall id :: id in jobs && BroadcastSeen(jobs[id]) ==> jobs[id].id in handed
  }

  predicate LaneAccounted(mem: Memory, handed: seq<JobId>) {
    mem.lane.Some? && mem.lane.value.stage == Handed ==> mem.lane.value.item.id in handed
  }

  ghost predicate Accounted(w: World) {
    LogAccounted(w.log, w.handed) && JobsAccounted(w.mem.jobs, w.handed) && LaneAccounted(w.mem, w.handed)
  }

  /** The action handed nothing over, and what it wrote is accounted for. */
  ghost predicate Quiet(w: World, next: World) {
    Accounted(next) && next.handed == w.handed
  }

  // ---------------------------------------------------------------------
  // Writes
  // ---------------------------------------------------------------------

  lemma PushedSeen(job: Job, phase: Phase, txRef: Option<string>)
    ensures BroadcastSeen(Pushed(job, phase, OtherLabel, txRef)) <==> BroadcastSeen(job)
  {
    var pushed := Pushed(job, phase, OtherLabel, txRef);
    assert forall i :: 0 <= i < |job.events| ==> pushed.events[i] == job.events[i];
  }

  lemma SaveQuiet(w: World, job: Job)
    requires Accounted(w) && (BroadcastSeen(job) ==> job.id in w.handed)
    ensures Quiet(w, Save(w, job)) && Save(w, job).mem.lane == w.mem.lane && Save(w, job).mem.pending == w.mem.pending
  {
    hide BroadcastSeen;
  }

  /** Any number of quiet writes of a loaded record. */
  lemma SaveLoaded(w: World, id: JobId, job: Job)
    requires Accounted(w) && id in w.mem.jobs && job.id == w.mem.jobs[id].id && BroadcastSeen(job) == BroadcastSeen(w.mem.jobs[id])
    ensures Quiet(w, Save(w, job)) && Save(w, job).mem.lane == w.mem.lane && Save(w, job).mem.pending == w.mem.pending
  {
    hide BroadcastSeen, Save;
    SaveQuiet(w, job);
  }

  lemma {:induction false} RefreshQuiet(w: World, i: nat)
    requires Accounted(w)
    ensures Quiet(w, Refresh(w, i))
    decreases |w.mem.pending| - i
  {
    hide Accounted, Save;
    if i < |w.mem.pending| && w.mem.pending[i].id in w.mem.jobs {
      var id := w.mem.pending[i].id;
      var numbered := w.mem.jobs[id].(queue := Some(Waiting(Some(i + 1))));
      SaveLoaded(w, id, numbered);
      RefreshQuiet(Save(w, numbered), i + 1);
    }
  }

  lemma PumpQuiet(w: World)
    requires Accounted(w)
    ensures Quiet(w, Pump(w))
  {
    hide Refresh, BroadcastSeen, Save;
    if w.mem.lane.None? && w.mem.pending != [] && w.mem.pending[0].id in w.mem.jobs {
      var item := w.mem.pending[0];
      var job := w.mem.jobs[item.id];
      var taken := w.(mem := w.mem.(pending := w.mem.pending[1..], lane := Some(Lane(item, Unannounced, false))));
      var active := Pushed(job.(queue := Some(Active)), job.phase, OtherLabel, None);
      PushedSeen(job.(queue := Some(Active)), job.phase, None);
      SameEvents(job, job.(queue := Some(Active)));
      SaveLoaded(taken, item.id, active);
      RefreshQuiet(Save(taken, active), 0);
    }
  }

  lemma SameEvents(a: Job, b: Job)
    requires a.events == b.events
    ensures BroadcastSeen(a) == BroadcastSeen(b)
  {
  }

  lemma EnqueueQuiet(w: World, item: Item)
    requires Accounted(w)
    ensures Quiet(w, Enqueue(w, item))
  {
    hide Refresh, Pump, BroadcastSeen;
    var added := w.(mem := w.mem.(pending := w.mem.pending + [item]));
    RefreshQuiet(added, 0);
    PumpQuiet(Refresh(added, 0));
  }

  // ---------------------------------------------------------------------
  // Actions
  // ---------------------------------------------------------------------

  lemma RecoverQuiet(w: World, c: Config, id: JobId)
    requires Accounted(w)
    ensures Quiet(w, Recover(w, c, id).0)
  {
    hide Enqueue, BroadcastSeen, Save, BroadcastTx, Accounted;
    if id in w.mem.jobs && Recoverable(w.mem.jobs[id]) && !QueueFull(w, c) {
      ResumedSeen(w.mem.jobs[id]);
      SaveLoaded(w, id, Resumed(w.mem.jobs[id]));
      EnqueueQuiet(Save(w, Resumed(w.mem.jobs[id])), Recovery(id));
    }
  }

  lemma ResumedSeen(job: Job)
    ensures Resumed(job).id == job.id && BroadcastSeen(Resumed(job)) == BroadcastSeen(job)
  {
    var resumed := Resumed(job);
    assert forall i :: 0 <= i < |job.events| ==> resumed.events[i] == job.events[i];
  }

  lemma StartQuiet(w: World, c: Config, r: Request)
    requires Accounted(w)
    ensures Quiet(w, Start(w, c, r).0)
  {
    hide Enqueue, Recover, Create, Hydrate, BroadcastSeen;
    if Existing(w, r).Some? {
      RecoverQuiet(w, c, Existing(w, r).value);
    } else {
      CreateQuiet(w.(mem := w.mem.(starts := Recent(w.mem.starts, r.now))), r);
    }
  }

  lemma CreateQuiet(w: World, r: Request)
    requires Accounted(w)
    ensures Quiet(w, Create(w, r))
  {
    hide Enqueue;
    assert !BroadcastSeen(NewJob(r));
    hide BroadcastSeen;
    SaveQuiet(w, NewJob(r));
    CreateIs(w, r);
    EnqueueQuiet(Registered(w, r), Pay(r.newId));
  }

  lemma CleanUpQuiet(w: World)
    requires Accounted(w)
    ensures Quiet(w, CleanUp(w))
  {
    hide Pump, BroadcastSeen, Save;
    if w.mem.lane.Some? && w.mem.lane.value.settled && w.mem.lane.value.item.id in w.mem.jobs {
      var id := w.mem.lane.value.item.id;
      var job := w.mem.jobs[id];
      var closed := if job.queue.Some? then job.(queue := Some(Finished)) else job;
      SameEvents(job, closed);
      SaveLoaded(w, id, closed);
      PumpQuiet(Save(w, closed).(mem := Save(w, closed).mem.(lane := None)));
    }
  }

  lemma ObserveQuiet(w: World, id: JobId)
    requires Accounted(w)
    ensures Quiet(w, Observe(w, id)) && Quiet(w, FinalisationStopped(w, id))
  {
    hide BroadcastSeen, Save, Accounted;
    if id in w.mem.jobs && id !in w.mem.archived {
      var job := w.mem.jobs[id];
      PushedSeen(job, job.phase, None);
      SaveLoaded(w, id, Pushed(job, job.phase, OtherLabel, None));
      if job.finalisation.Some? {
        var stopped := job.(finalisation := Some(job.finalisation.value.(status := WorkFailed)));
        SameEvents(job, stopped);
        SaveLoaded(w, id, stopped);
      }
    }
  }

  // ---------------------------------------------------------------------
  // Run actions
  // ---------------------------------------------------------------------

  lemma ClosedSeen(job: Job, recovery: bool)
    ensures CompletedBy(job, recovery).id == FailedBy(job, recovery).id == job.id
    ensures BroadcastSeen(CompletedBy(job, recovery)) == BroadcastSeen(FailedBy(job, recovery)) == BroadcastSeen(job)
  {
    var done, failed := CompletedBy(job, recovery), FailedBy(job, recovery);
    assert forall i :: 0 <= i < |job.events| ==> done.events[i] == failed.events[i] == job.events[i];
  }

  /** What a run writes, apart from the broadcast receipt, shows no new broadcast. */
  lemma RunStepWrites(w: World, c: Config, a: RunAction)
    requires Accounted(w) && LaneLive(w) && LaneJob(w).id == w.mem.lane.value.item.id
    ensures Accounted(RunStep(w, c, a)) && LogAccounted(RunStep(w, c, a).log, w.handed)
  {
    var lane, job := w.mem.lane.value, LaneJob(w);
    hide BroadcastSeen, CompletedBy, FailedBy, Save, Refresh;
    match a {
      case Note(phase, txRef) =>
        PushedSeen(job, phase, txRef);
        SaveLoaded(w, lane.item.id, Pushed(job, phase, OtherLabel, txRef));
      case SetSession(session) =>
        SameEvents(job, job.(session := Some(session)));
        SaveLoaded(w, lane.item.id, job.(session := Some(session)));
      case Announce =>
        PushedSeen(job, Settling, None);
        SaveLoaded(w, lane.item.id, Pushed(job, Settling, OtherLabel, None));
      case HandOver =>
      case Broadcast(txHash) =>
        SaveReceipt(w, c, txHash);
      case Preview =>
        var shown := job.(preview := true, finalisation := Some(Finalisation(WorkRunning, 1)));
        SameEvents(job, shown);
        PushedSeen(shown, Working, None);
        SaveLoaded(w, lane.item.id, Pushed(shown, Working, OtherLabel, None));
      case Finish =>
        ClosedSeen(job, lane.item.Recovery?);
        SaveLoaded(w, lane.item.id, CompletedBy(job, lane.item.Recovery?));
      case Fail(retry) =>
        FailWrites(w, c, retry);
    }
  }

  lemma SaveReceipt(w: World, c: Config, txHash: string)
    requires Accounted(w) && LaneLive(w) && LaneJob(w).id == w.mem.lane.value.item.id
    ensures Accounted(RunStep(w, c, Broadcast(txHash))) && LogAccounted(RunStep(w, c, Broadcast(txHash)).log, w.handed)
  {
    hide BroadcastSeen, Save;
    if w.mem.lane.value.stage == Handed {
      SaveQuiet(w, Pushed(LaneJob(w), Settling, PaymentBroadcast, Some(txHash)));
    }
  }

  lemma FailWrites(w: World, c: Config, retry: bool)
    requires Accounted(w) && LaneLive(w) && LaneJob(w).id == w.mem.lane.value.item.id
    ensures Accounted(RunStep(w, c, Fail(retry))) && LogAccounted(RunStep(w, c, Fail(retry)).log, w.handed)
  {
    var lane, job := w.mem.lane.value, LaneJob(w);
    ClosedSeen(job, lane.item.Recovery?);
    hide BroadcastSeen, CompletedBy, FailedBy;
    var stopped := FailedBy(job, lane.item.Recovery?);
    SaveLoaded(w, lane.item.id, stopped);
    var failed := Save(w, stopped);
    assert failed.mem.jobs[job.id] == stopped;
    if MayRetry(stopped, c) {
      SameEvents(stopped, RetryMarked(stopped));
      SaveLoaded(failed, job.id, RetryMarked(stopped));
    }
  }

  // ---------------------------------------------------------------------
  // Restart
  // ---------------------------------------------------------------------

  lemma {:induction false} DiskFromLog(log: seq<Job>, handed: seq<JobId>)
    requires LogAccounted(log, handed)
    ensures JobsAccounted(DiskOf(log), handed)
  {
    hide BroadcastSeen;
    if log != [] {
      var before := log[..|log| - 1];
      assert forall i :: 0 <= i < |before| ==> before[i] == log[i];
      DiskFromLog(before, handed);
    }
  }

  lemma LoadQuiet(w: World, c: Config, job: Job, full: bool, now: int)
    requires Accounted(w) && (BroadcastSeen(job) ==> job.id in w.handed)
    ensures Quiet(w, Load(w, c, job, full, now))
  {
    InterruptedSeen(job, c);
    assert !BroadcastSeen(Slim(job));
    hide BroadcastSeen, Interrupted;
    SaveQuiet(w, Interrupted(job, c));
    var w1 := if job.status == Running then Save(w, Interrupted(job, c))
              else if job.status == Complete && !full then
                SetJob(w, Slim(job)).(mem := SetJob(w, Slim(job)).mem.(archived := w.mem.archived + {job.id}))
              else SetJob(w, job);
    assert Quiet(w, w1);
    hide TakesKey;
  }

  lemma InterruptedSeen(job: Job, c: Config)
    ensures Interrupted(job, c).id == job.id && BroadcastSeen(Interrupted(job, c)) == BroadcastSeen(job)
  {
    var closed := Interrupted(job, c);
    assert forall i :: 0 <= i < |job.events| ==> closed.events[i] == job.events[i];
  }

  lemma {:induction false} LoadAllQuiet(w: World, c: Config, disk: map<JobId, Job>, files: seq<JobId>, kept: set<JobId>, now: int)
    requires Accounted(w) && JobsAccounted(disk, w.handed)
    ensures Quiet(w, LoadAll(w, c, disk, files, kept, now))
  {
    hide Load, BroadcastSeen;
    if files != [] {
      var before, name := LoadAll(w, c, disk, files[..|files| - 1], kept, now), files[|files| - 1];
      LoadAllQuiet(w, c, disk, files[..|files| - 1], kept, now);
      if name in disk {
        LoadQuiet(before, c, disk[name], name in kept, now);
      }
    }
  }

  lemma BootQuiet(w: World, c: Config, files: seq<JobId>, kept: set<JobId>, now: int)
    requires Accounted(w)
    ensures Quiet(w, Boot(w, c, files, kept, now))
  {
    hide BroadcastSeen, LoadAll;
    DiskFromLog(w.log, w.handed);
    LoadAllQuiet(World(true, EMPTY_MEMORY, w.log, w.runStarts, w.handed), c, DiskOf(w.log), files, kept, now);
  }

  // ---------------------------------------------------------------------
  // Whole runs
  // ---------------------------------------------------------------------

  lemma ApplyAccounted(w: World, c: Config, a: Action)
    requires Inv(w, c) && Enabled(w, a) && Accounted(w)
    ensures Accounted(Apply(w, c, a)) && LogAccounted(Apply(w, c, a).log, w.handed)
  {
    hide Start, Recover, RunStep, CleanUp, Observe, FinalisationStopped, Boot, LogAccounted, JobsAccounted, Durable, DiskOf;
    match a {
      case StartRequest(r) => StartQuiet(w, c, r);
      case RecoverRequest(id) => RecoverQuiet(w, c, id);
      case RunAct(act) => RunActAccounted(w, c, act);
      case RunCleanUp => CleanUpQuiet(w);
      case Observed(id) => ObserveQuiet(w, id);
      case RetryGivenUp(id) => ObserveQuiet(w, id);
      case Restart(files, kept, now) => BootQuiet(w, c, files, kept, now);
    }
  }

  lemma RunActAccounted(w: World, c: Config, a: RunAction)
    requires Inv(w, c) && w.up && Accounted(w)
    ensures Accounted(RunStep(w, c, a)) && LogAccounted(RunStep(w, c, a).log, w.handed)
  {
    if LaneLive(w) {
      JobIds(w);
      RunStepWrites(w, c, a);
    }
  }

  lemma StepAccounted(w: World, c: Config, a: Action, next: World)
    requires Inv(w, c) && Accounted(w) && Step(w, c, a, next)
    ensures Accounted(next)
  {
    hide Apply, Inv, BroadcastSeen;
    ApplyAccounted(w, c, a);
    if next != Apply(w, c, a) {
      var n :| Crashed(w, Apply(w, c, a), n, next);
    }
  }

  lemma {:induction false} BehaviourAccounted(c: Config, ws: seq<World>, acts: seq<Action>, m: nat)
    requires Behaviour(c, ws, acts) && m < |ws|
    ensures Accounted(ws[m])
  {
    hide Inv, Step;
    if m > 0 {
      BehaviourAccounted(c, ws, acts, m - 1);
      BehaviourKeeps(c, ws, acts, m - 1, m - 1);
      StepAccounted(ws[m - 1], c, acts[m - 1], ws[m]);
    }
  }

  lemma {:induction false} CountOne(handed: seq<JobId>, id: JobId)
    requires NoRepeats(handed)
    ensures multiset(handed)[id] == if id in handed then 1 else 0
  {
    if handed != [] {
      CountOne(handed[..|handed| - 1], id);
      assert handed == handed[..|handed| - 1] + [handed[|handed| - 1]];
    }
  }

  /**
   A job whose record shows a broadcast, as every recoverable one does, has been handed
   over exactly once, and at every later moment of the run, whatever recoveries, crashes
   and restarts come in between, it still has been exactly once.
   */
  lemma RecoverableWasPaidOnce(c: Config, ws: seq<World>, acts: seq<Action>, k: nat, m: nat, id: JobId)
    requires Behaviour(c, ws, acts) && k <= m < |ws|
    requires id in DiskOf(ws[k].log) && BroadcastSeen(DiskOf(ws[k].log)[id])
    ensures multiset(ws[k].handed)[id] == multiset(ws[m].handed)[id] == 1
  {
    BehaviourKeeps(c, ws, acts, k, m);
    PaidOnce(c, ws, acts, k, id);
    Prefix(ws[m].log, |ws[k].log|);
    assert ws[m].log[..|ws[k].log|] == ws[k].log;
    SeenStays(DiskOf(ws[k].log)[id], DiskOf(ws[m].log)[id]);
    PaidOnce(c, ws, acts, m, id);
  }

  lemma SeenStays(a: Job, b: Job)
    requires Extends(a, b) && BroadcastSeen(a)
    ensures BroadcastSeen(b)
  {
    var i :| 0 <= i < |a.events| && a.events[i].mark == PaymentBroadcast && a.events[i].txRef.Some?;
    assert b.events[i] == a.events[i];
  }

  lemma PaidOnce(c: Config, ws: seq<World>, acts: seq<Action>, m: nat, id: JobId)
    requires Behaviour(c, ws, acts) && m < |ws| && id in DiskOf(ws[m].log) && BroadcastSeen(DiskOf(ws[m].log)[id])
    ensures multiset(ws[m].handed)[id] == 1
  {
    BehaviourAccounted(c, ws, acts, m);
    DiskFromLog(ws[m].log, ws[m].handed);
    DiskIds(ws[m].log);
    NeverPaysTwice(c, ws, acts, m);
    CountOne(ws[m].handed, id);
  }
}
