/**
 The job store object. Each method does what the matching function of `ProcurementModel`
 says to the whole state, and keeps the invariant of `ProcurementSafety`.
 */
module LiveProcurement {
  import opened Collections
  import opened ProcurementModel
  import opened ProcurementSafety

  class LiveProcurementJobs {
    const config: Config
    var jobs: map<JobId, Job>
    var jobsByIdempotencyKey: map<string, JobId>
    var archived: set<JobId>
    var lane: Option<Lane>
    var pending: seq<Item>
    var starts: seq<int>
    // The directory, as the sequence of records written to it.
    var log: seq<Job>
    // What has happened outside: paying runs begun, payments handed to a broadcaster.
    var runStarts: seq<JobId>
    var handed: seq<JobId>

    function State(): World
      reads this
    {
      World(true, Memory(jobs, jobsByIdempotencyKey, archived, lane, pending, starts), log, runStarts, handed)
    }

    ghost predicate Valid()
      reads this
    {
      Inv(State(), config)
    }

    /** Start on an existing directory: `files` is its listing, `kept` the complete jobs whose body stays loaded. */
    constructor (config: Config, log: seq<Job>, runStarts: seq<JobId>, handed: seq<JobId>, files: seq<JobId>, kept: set<JobId>, now: int)
      requires Durable(World(false, EMPTY_MEMORY, log, runStarts, handed))
      requires NoRepeats(files) && (set f | f in files) == DiskOf(log).Keys
      ensures State() == Boot(World(false, EMPTY_MEMORY, log, runStarts, handed), config, files, kept, now)
      ensures Valid() && this.config == config
    {
      this.config := config;
      jobs, jobsByIdempotencyKey, archived := map[], map[], {};
      lane, pending, starts := None, [], [];
      this.log, this.runStarts, this.handed := log, runStarts, handed;
      new;
      ghost var empty := World(true, EMPTY_MEMORY, log, runStarts, handed);
      ghost var disk := DiskOf(log);
      DiskIds(log);
      hide Durable, LogOk, Inv, DiskOf, Load, Interrupted;
      var i := 0;
      while i < |files|
        invariant 0 <= i <= |files|
        invariant State() == LoadAll(empty, config, disk, files[..i], kept, now)
        invariant forall k :: i <= k < |files| ==> files[k] in DiskOf(this.log) && DiskOf(this.log)[files[k]] == disk[files[k]]
        invariant forall id :: id in DiskOf(this.log) ==> DiskOf(this.log)[id].id == id
      {
        assert files[i] in (set f | f in files);
        assert files[..i + 1][..i] == files[..i] && files[..i + 1][i] == files[i];
        ghost var before := this.log;
        LoadFile(DiskOf(this.log)[files[i]], files[i] in kept, now);
        LoadedLog(before, this.log, disk[files[i]], config);
        i := i + 1;
      }
      assert files[..i] == files;
      BootKeeps(World(false, EMPTY_MEMORY, log, runStarts, handed), config, files, kept, now);
    }

    method LoadFile(job: Job, full: bool, now: int)
      modifies this
      ensures State() == Load(old(State()), config, job, full, now)
      ensures log == old(log) || log == old(log) + [Interrupted(job, config)]
    {
      if job.status == Running {
        SaveJob(Interrupted(job, config));
      } else if job.status == Complete && !full {
        jobs := jobs[job.id := Slim(job)];
        archived := archived + {job.id};
      } else {
        jobs := jobs[job.id := job];
      }
      if job.key.Some? && TakesKey(State(), job) {
        jobsByIdempotencyKey := jobsByIdempotencyKey[job.key.value.keyHash := job.id];
      }
      if now - job.createdAt < HOUR_MS {
        starts := starts + [job.createdAt];
      }
    }

    /** Change a record in place and replace its file. */
    method SaveJob(job: Job)
      modifies this`jobs, this`log
      ensures State() == Save(old(State()), job)
      ensures log == old(log) + [job]
    {
      jobs := jobs[job.id := job];
      log := log + [job];
    }

    method Push(job: Job, phase: Phase, mark: Mark, txRef: Option<string>)
      modifies this`jobs, this`log
      ensures State() == Save(old(State()), Pushed(job, phase, mark, txRef))
    {
      SaveJob(job.(phase := phase, events := job.events + [Event(phase, mark, txRef)]));
    }

    method RefreshQueuePositions()
      modifies this`jobs, this`log
      ensures State() == Refresh(old(State()), 0)
    {
      var index := 0;
      while index < |pending| && pending[index].id in jobs
        invariant 0 <= index <= |pending|
        invariant Refresh(old(State()), 0) == Refresh(State(), index)
      {
        SaveJob(jobs[pending[index].id].(queue := Some(Waiting(Some(index + 1)))));
        index := index + 1;
      }
    }

    method PumpQueue()
      modifies this
      ensures State() == Pump(old(State()))
    {
      if lane.Some? || pending == [] || pending[0].id !in jobs {
        return;
      }
      var item := pending[0];
      pending := pending[1..];
      lane := Some(Lane(item, Unannounced, false));
      var job := jobs[item.id].(queue := Some(Active));
      Push(job, job.phase, OtherLabel, None);
      RefreshQueuePositions();
      if item.Pay? {
        runStarts := runStarts + [item.id];
      }
    }

    method Enqueue(item: Item)
      modifies this
      ensures State() == ProcurementModel.Enqueue(old(State()), item)
    {
      pending := pending + [item];
      RefreshQueuePositions();
      PumpQueue();
    }

    /** Start a new paid lifecycle, or answer a replay with the job its key stands for. */
    method StartRequest(r: Request) returns (reply: Reply)
      requires Valid() && r.newId !in DiskOf(log)
      modifies this
      ensures State() == Start(old(State()), config, r).0 && reply == Start(old(State()), config, r).1
      ensures Valid()
    {
      StartKeeps(State(), config, r);
      if r.key.Some? && r.key.value.keyHash in jobsByIdempotencyKey {
        var existingId := jobsByIdempotencyKey[r.key.value.keyHash];
        if existingId in jobs {
          var replay := Hydrate(State(), existingId);
          if replay.key.None? || replay.key.value.inputHash != r.key.value.inputHash {
            return Refused(409);
          }
          if Recoverable(replay) {
            reply := RecoverJob(existingId);
            return;
          }
          return Replayed(existingId);
        }
      }
      if !r.ready || QueueFull(State(), config) {
        return Refused(503);
      }
      starts := Recent(starts, r.now);
      if |starts| >= config.hourlyLimit {
        return Refused(503);
      }
      if !r.allowed {
        return Refused(429);
      }
      var job := NewJob(r);
      SaveJob(job);
      if r.key.Some? {
        jobsByIdempotencyKey := jobsByIdempotencyKey[r.key.value.keyHash := job.id];
      }
      starts := starts + [r.now];
      Enqueue(Pay(job.id));
      return Started(r.newId);
    }

    /** Resume a failed job whose payment was broadcast; nothing here can pay. */
    method RecoverJob(id: JobId) returns (reply: Reply)
      requires Valid()
      modifies this
      ensures State() == Recover(old(State()), config, id).0 && reply == Recover(old(State()), config, id).1
      ensures Valid() && runStarts == old(runStarts) && handed == old(handed)
    {
      RecoverKeeps(State(), config, id);
      RecoveryStartsNoPayment(State(), config, id);
      if id !in jobs {
        return Refused(404);
      }
      var job := jobs[id];
      if !Recoverable(job) {
        return Refused(409);
      }
      if QueueFull(State(), config) {
        return Refused(503);
      }
      SaveJob(Resumed(job));
      Enqueue(Recovery(id));
      return Resuming(id);
    }

    /** One observable action of the running item. */
    method Advance(a: RunAction)
      requires Valid()
      modifies this
      ensures State() == RunStep(old(State()), config, a) && Valid()
    {
      hide Inv;
      RunStepKeeps(State(), config, a);
      if !LaneLive(State()) {
        return;
      }
      var running := lane.value;
      var job := jobs[running.item.id];
      if a.Announce? || a.HandOver? || a.Broadcast? {
        PayStep(a, running, job);
        return;
      }
      match a
      case Note(phase, txRef) =>
        if !(phase == Settling && (running.item.Recovery? || running.stage == Unannounced)) {
          Push(job, phase, OtherLabel, txRef);
        }
      case SetSession(session) =>
        if running.item.Pay? {
          SaveJob(job.(session := Some(session)));
        }
      case Preview =>
        if running.item.Pay? && running.stage == Handed {
          Push(job.(preview := true, finalisation := Some(Finalisation(WorkRunning, 1))), Working, OtherLabel, None);
        }
      case Finish =>
        SaveJob(CompletedBy(job, running.item.Recovery?));
        lane := Some(running.(settled := true));
      case Fail(retry) =>
        SaveJob(FailedBy(job, running.item.Recovery?));
        if running.item.Recovery? && retry && MayRetry(jobs[job.id], config) {
          SaveJob(RetryMarked(jobs[job.id]));
        }
        lane := Some(running.(settled := true));
    }

    /** The three actions around the payment call: announce and persist, call, note the receipt. */
    method PayStep(a: RunAction, running: Lane, job: Job)
      requires a.Announce? || a.HandOver? || a.Broadcast?
      requires LaneLive(State()) && lane == Some(running) && job == LaneJob(State())
      modifies this
      ensures State() == RunStep(old(State()), config, a)
    {
      if running.item.Recovery? {
        return;
      }
      match a
      case Announce =>
        if running.stage == Unannounced {
          Push(job, Settling, OtherLabel, None);
          lane := Some(running.(stage := Announced));
        }
      case HandOver =>
        if running.stage == Announced {
          lane := Some(running.(stage := Handed));
          handed := handed + [running.item.id];
        }
      case Broadcast(txHash) =>
        if running.stage == Handed {
          Push(job, Settling, PaymentBroadcast, Some(txHash));
        }
    }

    /** After the run: close its queue record, free the lane, start the next job. */
    method FinishRun()
      requires Valid()
      modifies this
      ensures State() == CleanUp(old(State())) && Valid()
    {
      CleanUpKeeps(State(), config);
      if lane.None? || !lane.value.settled || lane.value.item.id !in jobs {
        return;
      }
      var job := jobs[lane.value.item.id];
      SaveJob(if job.queue.Some? then job.(queue := Some(Finished)) else job);
      lane := None;
      PumpQueue();
    }
  }
}
