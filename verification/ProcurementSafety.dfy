/**
 What every run of the paid-job engine keeps, through requests, replays, failures,
 crashes between any two writes, restarts and recoveries.
 */
module ProcurementSafety {
  import opened Collections
  import opened ProcurementModel

  // ---------------------------------------------------------------------
  // The invariant
  // ---------------------------------------------------------------------

  ghost predicate NoRepeats<T(!new)>(s: seq<T>) {
    forall i, j :: 0 <= i < j < |s| ==> s[i] != s[j]
  }

  /** What survives a crash. */
  ghost predicate Durable(w: World) {
    && LogOk(w.log)
    && NoRepeats(w.runStarts) && NoRepeats(w.handed)
    && (forall id :: id in w.runStarts ==> id in DiskOf(w.log))
    && (forall id :: id in w.handed ==> id in w.runStarts && MayHaveBroadcast(DiskOf(w.log)[id]))
  }

  /** Memory shows what is on disk; only complete jobs may be reduced to an index entry. */
  ghost predicate Mirrors(w: World) {
    && w.mem.jobs.Keys == DiskOf(w.log).Keys && w.mem.archived <= w.mem.jobs.Keys
    && (forall id :: id in w.mem.jobs ==> MirrorsJob(w.mem.jobs[id], DiskOf(w.log)[id], id in w.mem.archived))
  }

  predicate MirrorsJob(job: Job, stored: Job, archived: bool) {
    if archived then job == Slim(stored) && stored.status == Complete else job == stored
  }

  /** The key index is exactly the jobs' keys. */
  ghost predicate Indexed(jobs: map<JobId, Job>, byKey: map<string, JobId>) {
    && (forall id :: id in jobs && jobs[id].key.Some? ==> KeyLeadsTo(byKey, jobs[id].key.value.keyHash, id))
    && (forall h :: h in byKey ==> byKey[h] in jobs && jobs[byKey[h]].key.Some? && jobs[byKey[h]].key.value.keyHash == h)
  }

  predicate KeyLeadsTo(byKey: map<string, JobId>, h: string, id: JobId) {
    h in byKey && byKey[h] == id
  }

  predicate Waits(mem: Memory, id: JobId) {
    exists i :: 0 <= i < |mem.pending| && mem.pending[i].id == id
  }

  predicate RunsNow(mem: Memory, id: JobId) {
    mem.lane.Some? && !mem.lane.value.settled && mem.lane.value.item.id == id
  }

  /** The lane and the waiting jobs are distinct, running and fully loaded; only `loose` jobs run outside. */
  ghost predicate Lined(mem: Memory, loose: set<JobId>) {
    && (forall i :: 0 <= i < |mem.pending| ==> InLane(mem, mem.pending[i].id))
    && (forall i, j :: 0 <= i < j < |mem.pending| ==> mem.pending[i].id != mem.pending[j].id)
    && (mem.lane.Some? ==> mem.lane.value.item.id in mem.jobs && mem.lane.value.item.id !in mem.archived)
    && (mem.lane.Some? && !mem.lane.value.settled ==>
          InLane(mem, mem.lane.value.item.id) && !Waits(mem, mem.lane.value.item.id))
    && (forall id :: id in mem.jobs && mem.jobs[id].status == Running ==> Waits(mem, id) || RunsNow(mem, id) || id in loose)
  }

  /** One job is active before any job waits, and no running job is left out. */
  ghost predicate Queued(mem: Memory) {
    Lined(mem, {}) && (mem.pending != [] ==> mem.lane.Some?)
  }

  predicate InLane(mem: Memory, id: JobId) {
    id in mem.jobs && id !in mem.archived && mem.jobs[id].status == Running
  }

  /** Waiting job number `i` shows position `i + 1`. */
  ghost predicate Numbered(mem: Memory, upTo: nat) {
    forall i :: 0 <= i < upTo && i < |mem.pending| && mem.pending[i].id in mem.jobs ==>
                  mem.jobs[mem.pending[i].id].queue == Some(Waiting(Some(i + 1)))
  }

  /** Paying runs wait once, start once and hand over once. */
  ghost predicate PaysOnce(w: World) {
    && (forall i :: 0 <= i < |w.mem.pending| && w.mem.pending[i].Pay? ==> w.mem.pending[i].id !in w.runStarts)
    && (w.mem.lane.Some? && w.mem.lane.value.item.Pay? ==>
          var (lane, id) := (w.mem.lane.value, w.mem.lane.value.item.id);
          && id in w.runStarts
          && (lane.stage != Handed ==> id !in w.handed)
          && (lane.stage != Unannounced ==> id in w.mem.jobs && MayHaveBroadcast(w.mem.jobs[id])))
  }

  // ---------------------------------------------------------------------
  // The journal
  // ---------------------------------------------------------------------

  lemma DiskAppend(log: seq<Job>, job: Job)
    ensures DiskOf(log + [job]) == DiskOf(log)[job.id := job]
    ensures LogOk(log) && MayWrite(DiskOf(log), job) ==> LogOk(log + [job])
  {
    assert (log + [job])[..|log|] == log;
  }

  lemma {:induction false} DiskIds(log: seq<Job>)
    ensures forall id :: id in DiskOf(log) ==> DiskOf(log)[id].id == id
  {
    if log != [] {
      DiskIds(log[..|log| - 1]);
    }
  }

  lemma BroadcastStays(a: Job, b: Job)
    requires Extends(a, b) && MayHaveBroadcast(a)
    ensures MayHaveBroadcast(b)
  {
    var i :| 0 <= i < |a.events| && a.events[i].phase == Settling;
    assert b.events[i] == a.events[i];
  }

  /** A prefix of a well-kept journal is well kept, and later writes only extend its records. */
  lemma {:induction false} Prefix(log: seq<Job>, n: nat)
    requires LogOk(log) && n <= |log|
    ensures LogOk(log[..n])
    ensures forall id :: id in DiskOf(log[..n]) ==> id in DiskOf(log) && Extends(DiskOf(log[..n])[id], DiskOf(log)[id])
  {
    if n == |log| {
      assert log[..n] == log;
    } else {
      var before := log[..|log| - 1];
      Prefix(before, n);
      assert before[..n] == log[..n];
    }
  }

  lemma {:induction false} KeysOnDisk(log: seq<Job>)
    requires LogOk(log)
    ensures forall id :: id in DiskOf(log) ==> GoodRecord(DiskOf(log)[id])
    ensures forall a, b :: a in DiskOf(log) && b in DiskOf(log) && SameKey(DiskOf(log)[a], DiskOf(log)[b]) ==> a == b
  {
    if log != [] {
      KeysOnDisk(log[..|log| - 1]);
    }
  }

  predicate SameKey(a: Job, b: Job) {
    a.key.Some? && b.key.Some? && a.key.value.keyHash == b.key.value.keyHash
  }

  /** A crash keeps the durable half, whatever prefix of the action's writes reached the disk. */
  lemma CrashKeepsDurable(w: World, done: World, n: nat, next: World)
    requires Durable(w) && LogOk(done.log) && w.log <= done.log && Crashed(w, done, n, next)
    ensures Durable(next)
  {
    Prefix(done.log, n);
    Prefix(next.log, |w.log|);
    assert next.log[..|w.log|] == w.log;
    forall id | id in w.handed ensures MayHaveBroadcast(DiskOf(next.log)[id]) {
      BroadcastStays(DiskOf(w.log)[id], DiskOf(next.log)[id]);
    }
  }

  // ---------------------------------------------------------------------
  // One write
  // ---------------------------------------------------------------------

  /** The part of the invariant that every single write keeps. */
  ghost predicate Steady(w: World) {
    && Durable(w) && Mirrors(w) && Indexed(w.mem.jobs, w.mem.byKey)
  }

  /** `next` differs from `w` by writes alone: the chain is untouched and the journal grew. */
  ghost predicate OnlyWrote(w: World, next: World) {
    && w.log <= next.log && next.runStarts == w.runStarts && next.handed == w.handed && next.up == w.up
    && next.mem.byKey == w.mem.byKey && next.mem.archived == w.mem.archived
    && next.mem.lane == w.mem.lane && next.mem.pending == w.mem.pending && next.mem.starts == w.mem.starts
  }

  lemma LoadedRecord(w: World, id: JobId)
    requires Steady(w) && id in w.mem.jobs && id !in w.mem.archived
    ensures w.mem.jobs[id] == DiskOf(w.log)[id] && w.mem.jobs[id].id == id && GoodRecord(w.mem.jobs[id])
  {
    KeysOnDisk(w.log);
    DiskIds(w.log);
    assert MirrorsJob(w.mem.jobs[id], DiskOf(w.log)[id], false);
  }

  lemma SaveKeeps(w: World, job: Job)
    requires Steady(w) && job.id in w.mem.jobs && job.id !in w.mem.archived
    requires Extends(w.mem.jobs[job.id], job) && GoodRecord(job)
    ensures Steady(Save(w, job)) && OnlyWrote(w, Save(w, job))
    ensures Save(w, job).mem.jobs == w.mem.jobs[job.id := job]
  {
    hide Durable, DiskOf, GoodRecord, Indexed;
    assert MirrorsJob(w.mem.jobs[job.id], DiskOf(w.log)[job.id], false);
    SaveDurable(w, job);
    SaveIndexed(w.mem.jobs, w.mem.byKey, job);
    var next := Save(w, job);
    forall id | id in next.mem.jobs
      ensures MirrorsJob(next.mem.jobs[id], DiskOf(next.log)[id], id in next.mem.archived)
    {
      assert id != job.id ==> MirrorsJob(w.mem.jobs[id], DiskOf(w.log)[id], id in w.mem.archived);
    }
  }

  lemma SaveIndexed(jobs: map<JobId, Job>, byKey: map<string, JobId>, job: Job)
    requires Indexed(jobs, byKey) && job.id in jobs && jobs[job.id].key == job.key
    ensures Indexed(jobs[job.id := job], byKey)
  {
    var next := jobs[job.id := job];
    forall id | id in next && next[id].key.Some? ensures KeyLeadsTo(byKey, next[id].key.value.keyHash, id) {
      assert KeyLeadsTo(byKey, jobs[id].key.value.keyHash, id);
    }
  }

  // ---------------------------------------------------------------------
  // The queue
  // ---------------------------------------------------------------------

  /** The records of `b` are those of `a` up to queue state. */
  ghost predicate SameButQueue(a: map<JobId, Job>, b: map<JobId, Job>) {
    a.Keys == b.Keys && forall id :: id in a ==> b[id] == a[id].(queue := b[id].queue)
  }

  ghost predicate PendingLoaded(w: World) {
    && (forall i :: 0 <= i < |w.mem.pending| ==> w.mem.pending[i].id in w.mem.jobs && w.mem.pending[i].id !in w.mem.archived)
    && (forall i, j :: 0 <= i < j < |w.mem.pending| ==> w.mem.pending[i].id != w.mem.pending[j].id)
  }

  lemma RefreshOne(w: World, i: nat, next: World)
    requires Steady(w) && PendingLoaded(w) && Numbered(w.mem, i) && i < |w.mem.pending|
    requires next == Save(w, w.mem.jobs[w.mem.pending[i].id].(queue := Some(Waiting(Some(i + 1)))))
    ensures Steady(next) && OnlyWrote(w, next) && PendingLoaded(next)
    ensures SameButQueue(w.mem.jobs, next.mem.jobs) && Numbered(next.mem, i + 1)
  {
    hide Durable, Mirrors, Indexed, DiskOf, LogOk;
    var id := w.mem.pending[i].id;
    LoadedRecord(w, id);
    SaveKeeps(w, w.mem.jobs[id].(queue := Some(Waiting(Some(i + 1)))));
  }

  lemma {:induction false} RefreshKeeps(w: World, i: nat)
    requires Steady(w) && PendingLoaded(w) && Numbered(w.mem, i)
    ensures Steady(Refresh(w, i)) && OnlyWrote(w, Refresh(w, i))
    ensures SameButQueue(w.mem.jobs, Refresh(w, i).mem.jobs)
    ensures Numbered(Refresh(w, i).mem, |w.mem.pending|)
    decreases |w.mem.pending| - i
  {
    hide Steady, DiskOf, Save;
    if i < |w.mem.pending| {
      var next := Save(w, w.mem.jobs[w.mem.pending[i].id].(queue := Some(Waiting(Some(i + 1)))));
      RefreshOne(w, i, next);
      RefreshKeeps(next, i + 1);
    }
  }

  // ---------------------------------------------------------------------
  // The lane
  // ---------------------------------------------------------------------

  ghost predicate SameStatus(a: map<JobId, Job>, b: map<JobId, Job>) {
    a.Keys == b.Keys && forall id :: id in a ==> b[id].status == a[id].status && a[id].events <= b[id].events
  }

  lemma LinedSameStatus(mem: Memory, jobs: map<JobId, Job>, loose: set<JobId>)
    requires Lined(mem, loose) && SameStatus(mem.jobs, jobs)
    ensures Lined(mem.(jobs := jobs), loose)
  {
    var next := mem.(jobs := jobs);
    forall i | 0 <= i < |next.pending| ensures InLane(next, next.pending[i].id) {
      assert InLane(mem, mem.pending[i].id);
    }
    forall id | id in next.jobs && next.jobs[id].status == Running
      ensures Waits(next, id) || RunsNow(next, id) || id in loose
    {
      assert Waits(mem, id) || RunsNow(mem, id) || id in loose;
    }
  }

  lemma LinedAppend(mem: Memory, item: Item)
    requires Lined(mem, {item.id}) && InLane(mem, item.id) && !Waits(mem, item.id) && !RunsNow(mem, item.id)
    ensures Lined(mem.(pending := mem.pending + [item]), {})
  {
    var next := mem.(pending := mem.pending + [item]);
    forall i | 0 <= i < |next.pending| ensures InLane(next, next.pending[i].id) {
      assert i < |mem.pending| ==> InLane(mem, mem.pending[i].id);
    }
    assert next.pending[|mem.pending|] == item;
    forall id ensures Waits(next, id) <==> Waits(mem, id) || id == item.id {
      if Waits(mem, id) {
        var i :| 0 <= i < |mem.pending| && mem.pending[i].id == id;
        assert next.pending[i].id == id;
      }
    }
    forall id | id in next.jobs && next.jobs[id].status == Running ensures Waits(next, id) || RunsNow(next, id) {
      assert Waits(mem, id) || RunsNow(mem, id) || id in {item.id};
    }
  }

  lemma LinedTake(mem: Memory)
    requires Lined(mem, {}) && mem.lane.None? && mem.pending != []
    ensures Lined(mem.(pending := mem.pending[1..], lane := Some(Lane(mem.pending[0], Unannounced, false))), {})
  {
    var next := mem.(pending := mem.pending[1..], lane := Some(Lane(mem.pending[0], Unannounced, false)));
    forall i | 0 <= i < |next.pending| ensures InLane(next, next.pending[i].id) && next.pending[i].id != mem.pending[0].id {
      assert InLane(mem, mem.pending[i + 1].id) && next.pending[i] == mem.pending[i + 1];
    }
    assert InLane(mem, mem.pending[0].id);
    forall id | id in next.jobs && next.jobs[id].status == Running ensures Waits(next, id) || RunsNow(next, id) {
      assert Waits(mem, id);
      var i :| 0 <= i < |mem.pending| && mem.pending[i].id == id;
      if i > 0 {
        assert next.pending[i - 1].id == id;
      }
    }
  }

  lemma PaysOnceLater(w: World, next: World)
    requires PaysOnce(w) && SameStatus(w.mem.jobs, next.mem.jobs)
    requires next.mem.pending == w.mem.pending && next.mem.lane == w.mem.lane
    requires next.runStarts == w.runStarts && next.handed == w.handed
    ensures PaysOnce(next)
  {
    if next.mem.lane.Some? && next.mem.lane.value.item.id in w.mem.jobs && MayHaveBroadcast(w.mem.jobs[next.mem.lane.value.item.id]) {
      var id := next.mem.lane.value.item.id;
      var i :| 0 <= i < |w.mem.jobs[id].events| && w.mem.jobs[id].events[i].phase == Settling;
      assert next.mem.jobs[id].events[i] == w.mem.jobs[id].events[i];
    }
  }

  ghost predicate Sound(w: World, loose: set<JobId>) {
    Steady(w) && Lined(w.mem, loose) && PaysOnce(w)
  }

  /** Rewriting a loaded record without changing its status keeps everything but queue numbers. */
  lemma SaveSound(w: World, job: Job, loose: set<JobId>)
    requires Sound(w, loose) && job.id in w.mem.jobs && job.id !in w.mem.archived
    requires Extends(w.mem.jobs[job.id], job) && GoodRecord(job) && job.status == w.mem.jobs[job.id].status
    ensures Sound(Save(w, job), loose) && OnlyWrote(w, Save(w, job))
  {
    SaveKeeps(w, job);
    hide Steady, Durable, PaysOnce, Lined;
    var next := Save(w, job);
    LinedSameStatus(w.mem, next.mem.jobs, loose);
    PaysOnceLater(w, next);
    assert w.mem.(jobs := next.mem.jobs) == next.mem;
  }

  lemma RefreshSound(w: World, loose: set<JobId>)
    requires Sound(w, loose)
    ensures Sound(Refresh(w, 0), loose) && OnlyWrote(w, Refresh(w, 0))
    ensures SameButQueue(w.mem.jobs, Refresh(w, 0).mem.jobs)
    ensures Numbered(Refresh(w, 0).mem, |w.mem.pending|)
  {
    forall i | 0 <= i < |w.mem.pending| ensures w.mem.pending[i].id in w.mem.jobs && w.mem.pending[i].id !in w.mem.archived {
      assert InLane(w.mem, w.mem.pending[i].id);
    }
    RefreshKeeps(w, 0);
    hide Steady, Durable, PaysOnce, Lined, Refresh;
    var next := Refresh(w, 0);
    assert SameStatus(w.mem.jobs, next.mem.jobs);
    LinedSameStatus(w.mem, next.mem.jobs, loose);
    PaysOnceLater(w, next);
    assert w.mem.(jobs := next.mem.jobs) == next.mem;
  }

  lemma {:induction false} RefreshIgnoresRuns(w: World, i: nat, runs: seq<JobId>)
    ensures Refresh(w.(runStarts := runs), i) == Refresh(w, i).(runStarts := runs)
    decreases |w.mem.pending| - i
  {
    if i < |w.mem.pending| && w.mem.pending[i].id in w.mem.jobs {
      RefreshIgnoresRuns(Save(w, w.mem.jobs[w.mem.pending[i].id].(queue := Some(Waiting(Some(i + 1))))), i + 1, runs);
    }
  }

  /** The first waiting item takes the free lane; a paying run counts as begun. */
  function Take(w: World): World
    requires w.mem.pending != []
  {
    var item := w.mem.pending[0];
    w.(mem := w.mem.(pending := w.mem.pending[1..], lane := Some(Lane(item, Unannounced, false))),
       runStarts := if item.Pay? then w.runStarts + [item.id] else w.runStarts)
  }

  lemma TakeSound(w: World)
    requires Sound(w, {}) && w.mem.lane.None? && w.mem.pending != []
    ensures Sound(Take(w), {}) && w.mem.pending[0].id in w.mem.jobs && w.mem.pending[0].id !in w.mem.archived
  {
    var id := w.mem.pending[0].id;
    assert InLane(w.mem, id);
    LoadedRecord(w, id);
    LinedTake(w.mem);
    forall i | 0 <= i < |w.mem.pending| - 1 ensures w.mem.pending[1..][i].id != id {
      assert w.mem.pending[1..][i] == w.mem.pending[i + 1];
    }
  }

  lemma PushGood(job: Job, phase: Phase, mark: Mark, txRef: Option<string>)
    requires GoodRecord(job) && (mark == PaymentBroadcast ==> phase == Settling)
    requires phase == Settling ==> job.failedBeforePayment != Some(true) || job.phase == Settling
    ensures GoodRecord(Pushed(job, phase, mark, txRef)) && Extends(job, Pushed(job, phase, mark, txRef))
    ensures phase == Settling || MayHaveBroadcast(job) ==> MayHaveBroadcast(Pushed(job, phase, mark, txRef))
  {
    var next := Pushed(job, phase, mark, txRef);
    assert next.events[|job.events|].phase == phase;
    if MayHaveBroadcast(job) {
      BroadcastStays(job, next);
    }
  }

  /** What holds between actions while the process is up, and what holds always. */
  ghost predicate Lively(w: World) {
    Sound(w, {}) && Queued(w.mem) && Numbered(w.mem, |w.mem.pending|)
  }

  ghost predicate Inv(w: World, c: Config) {
    Durable(w) && (w.up ==> Lively(w) && |w.mem.pending| <= c.queueLimit)
  }

  /** The record of an item that starts. */
  function Activated(w: World, id: JobId): Job
    requires id in w.mem.jobs
  {
    Pushed(w.mem.jobs[id].(queue := Some(Active)), w.mem.jobs[id].phase, OtherLabel, None)
  }

  lemma PumpIs(w: World)
    requires w.mem.lane.None? && w.mem.pending != [] && w.mem.pending[0].id in w.mem.jobs
    ensures Pump(w) == Refresh(Save(Take(w), Activated(w, w.mem.pending[0].id)), 0)
  {
    var active := Activated(w, w.mem.pending[0].id);
    var kept := Take(w).(runStarts := w.runStarts);
    var saved := Save(kept, active);
    RefreshIgnoresRuns(saved, 0, w.runStarts);
    assert saved.(runStarts := w.runStarts) == saved;
    RefreshIgnoresRuns(saved, 0, Take(w).runStarts);
    assert saved.(runStarts := Take(w).runStarts) == Save(Take(w), active);
  }

  lemma ActivateSound(w: World, id: JobId)
    requires Sound(w, {}) && id in w.mem.jobs && id !in w.mem.archived
    ensures Sound(Refresh(Save(w, Activated(w, id)), 0), {}) && OnlyWrote(w, Refresh(Save(w, Activated(w, id)), 0))
    ensures Numbered(Refresh(Save(w, Activated(w, id)), 0).mem, |w.mem.pending|)
  {
    LoadedRecord(w, id);
    PushGood(w.mem.jobs[id].(queue := Some(Active)), w.mem.jobs[id].phase, OtherLabel, None);
    hide Sound, Refresh;
    SaveSound(w, Activated(w, id), {});
    RefreshSound(Save(w, Activated(w, id)), {});
  }

  lemma PumpKeeps(w: World)
    requires Sound(w, {}) && (w.mem.lane.Some? ==> Numbered(w.mem, |w.mem.pending|))
    ensures Lively(Pump(w)) && w.log <= Pump(w).log && Pump(w).handed == w.handed && Pump(w).up == w.up
    ensures |Pump(w).mem.pending| == if w.mem.lane.None? && w.mem.pending != [] then |w.mem.pending| - 1 else |w.mem.pending|
  {
    if w.mem.lane.None? && w.mem.pending != [] {
      TakeSound(w);
      PumpIs(w);
      hide Steady, PaysOnce, Refresh, Save, Pump;
      ActivateSound(Take(w), w.mem.pending[0].id);
    } else {
      assert w.mem.pending != [] ==> InLane(w.mem, w.mem.pending[0].id);
    }
  }

  lemma AppendSound(w: World, item: Item)
    requires Sound(w, {item.id}) && InLane(w.mem, item.id) && !Waits(w.mem, item.id) && !RunsNow(w.mem, item.id)
    requires item.Pay? ==> item.id !in w.runStarts
    ensures Sound(w.(mem := w.mem.(pending := w.mem.pending + [item])), {})
  {
    hide Durable, Mirrors, Indexed, Lined;
    LinedAppend(w.mem, item);
    var added := w.(mem := w.mem.(pending := w.mem.pending + [item]));
    assert Steady(added) by {
      SteadyIgnoresQueue(w, added.mem.pending);
    }
  }

  lemma SteadyIgnoresQueue(w: World, pending: seq<Item>)
    requires Steady(w)
    ensures Steady(w.(mem := w.mem.(pending := pending)))
  {
  }

  /** A job that is running but not queued yet joins the queue. */
  lemma EnqueueKeeps(w: World, item: Item)
    requires Sound(w, {item.id}) && (w.mem.pending != [] ==> w.mem.lane.Some?)
    requires InLane(w.mem, item.id) && !Waits(w.mem, item.id) && !RunsNow(w.mem, item.id)
    requires item.Pay? ==> item.id !in w.runStarts
    ensures Lively(Enqueue(w, item)) && w.log <= Enqueue(w, item).log
    ensures Enqueue(w, item).handed == w.handed && Enqueue(w, item).up == w.up
    ensures |Enqueue(w, item).mem.pending| == if w.mem.lane.None? then 0 else |w.mem.pending| + 1
  {
    hide Sound, Refresh, Pump, InLane, Waits, RunsNow, Lively, Numbered;
    var added := w.(mem := w.mem.(pending := w.mem.pending + [item]));
    AppendSound(w, item);
    RefreshSound(added, {});
    PumpKeeps(Refresh(added, 0));
  }

  // ---------------------------------------------------------------------
  // Requests
  // ---------------------------------------------------------------------

  /** An action ends well: the invariant holds again and the journal only grew. */
  ghost predicate EndsWell(w: World, c: Config, next: World) {
    Inv(next, c) && w.log <= next.log
  }

  lemma StatusFlip(mem: Memory, job: Job, loose: set<JobId>)
    requires Lined(mem, {}) && job.id in mem.jobs && job.id !in mem.archived
    requires mem.jobs[job.id].status != Running && job.status == Running && loose == {job.id}
    ensures Lined(mem.(jobs := mem.jobs[job.id := job]), loose)
    ensures !Waits(mem, job.id) && !RunsNow(mem, job.id)
  {
    var next := mem.(jobs := mem.jobs[job.id := job]);
    forall i | 0 <= i < |mem.pending| ensures mem.pending[i].id != job.id && InLane(next, mem.pending[i].id) {
      assert InLane(mem, mem.pending[i].id);
    }
    forall id | id in next.jobs && next.jobs[id].status == Running ensures Waits(next, id) || RunsNow(next, id) || id in loose {
      assert id != job.id ==> Waits(mem, id) || RunsNow(mem, id);
    }
  }

  lemma ResumedGood(job: Job)
    requires GoodRecord(job) && Recoverable(job)
    ensures GoodRecord(Resumed(job)) && Extends(job, Resumed(job)) && Resumed(job).status == Running
  {
    var i :| 0 <= i < |job.events| && job.events[i].mark == PaymentBroadcast && job.events[i].txRef.Some?;
    assert MayHaveBroadcast(job) by { assert job.events[i].phase == Settling; }
    var ready := job.(recovery := Some(WorkRunning), status := Running, queue := Some(Waiting(None)),
                      finalisation := Resumed(job).finalisation);
    assert ready.events == job.events && MayHaveBroadcast(ready);
    PushGood(ready, Recovering, OtherLabel, BroadcastTx(job.events));
  }

  lemma ArchivedComplete(w: World, id: JobId)
    requires Steady(w) && id in w.mem.jobs
    ensures id in w.mem.archived ==> w.mem.jobs[id].status == Complete && DiskOf(w.log)[id].status == Complete
    ensures w.mem.jobs[id].key == DiskOf(w.log)[id].key && w.mem.jobs[id].id == id
  {
    DiskIds(w.log);
    assert MirrorsJob(w.mem.jobs[id], DiskOf(w.log)[id], id in w.mem.archived);
  }

  lemma ResumeReady(w: World, id: JobId)
    requires Lively(w) && id in w.mem.jobs && Recoverable(w.mem.jobs[id])
    ensures var next := Save(w, Resumed(w.mem.jobs[id]));
            && Sound(next, {id}) && OnlyWrote(w, next) && (next.mem.pending != [] ==> next.mem.lane.Some?)
            && InLane(next.mem, id) && !Waits(next.mem, id) && !RunsNow(next.mem, id)
  {
    ArchivedComplete(w, id);
    LoadedRecord(w, id);
    ResumedGood(w.mem.jobs[id]);
    hide GoodRecord, Extends;
    ResumeSound(w, Resumed(w.mem.jobs[id]));
  }

  lemma RecoverKeeps(w: World, c: Config, id: JobId)
    requires Inv(w, c) && w.up
    ensures EndsWell(w, c, Recover(w, c, id).0)
  {
    hide Lively, Sound, Durable, Enqueue, Resumed, Recoverable, DiskOf, Waits, RunsNow, InLane, Save;
    if id in w.mem.jobs && Recoverable(w.mem.jobs[id]) && !QueueFull(w, c) {
      ResumeReady(w, id);
      var saved := Save(w, Resumed(w.mem.jobs[id]));
      EnqueueKeeps(saved, Recovery(id));
      LivelyDurable(Enqueue(saved, Recovery(id)));
    }
  }

  lemma LivelyDurable(w: World)
    requires Lively(w)
    ensures Durable(w)
  {
  }

  lemma ResumeSound(w: World, job: Job)
    requires Lively(w) && job.id in w.mem.jobs && job.id !in w.mem.archived
    requires Extends(w.mem.jobs[job.id], job) && GoodRecord(job) && w.mem.jobs[job.id].status != Running && job.status == Running
    ensures var next := Save(w, job);
            && Sound(next, {job.id}) && OnlyWrote(w, next) && (next.mem.pending != [] ==> next.mem.lane.Some?)
            && InLane(next.mem, job.id) && !Waits(next.mem, job.id) && !RunsNow(next.mem, job.id)
  {
    SaveKeeps(w, job);
    StatusFlip(w.mem, job, {job.id});
    PaysOnceAfter(w, job);
    assert Save(w, job).mem == w.mem.(jobs := w.mem.jobs[job.id := job]);
  }

  lemma PaysOnceAfter(w: World, job: Job)
    requires PaysOnce(w) && job.id in w.mem.jobs && Extends(w.mem.jobs[job.id], job)
    ensures PaysOnce(Save(w, job))
  {
    if w.mem.lane.Some? && w.mem.lane.value.item.id == job.id && MayHaveBroadcast(w.mem.jobs[job.id]) {
      BroadcastStays(w.mem.jobs[job.id], job);
    }
  }

  lemma NewKeyWritable(w: World, job: Job)
    requires Steady(w) && job.id !in w.mem.jobs && GoodRecord(job)
    requires job.key.Some? ==> job.key.value.keyHash !in w.mem.byKey
    ensures MayWrite(DiskOf(w.log), job)
  {
    var disk := DiskOf(w.log);
    if job.key.Some? {
      forall id | id in disk && disk[id].key.Some? ensures disk[id].key.value.keyHash != job.key.value.keyHash {
        ArchivedComplete(w, id);
        assert KeyLeadsTo(w.mem.byKey, w.mem.jobs[id].key.value.keyHash, id);
      }
    }
  }

  lemma IndexedNew(jobs: map<JobId, Job>, byKey: map<string, JobId>, job: Job)
    requires Indexed(jobs, byKey) && job.id !in jobs
    requires job.key.Some? ==> job.key.value.keyHash !in byKey
    ensures job.key.None? ==> Indexed(jobs[job.id := job], byKey)
    ensures job.key.Some? ==> Indexed(jobs[job.id := job], byKey[job.key.value.keyHash := job.id])
  {
    var next := jobs[job.id := job];
    var index := if job.key.Some? then byKey[job.key.value.keyHash := job.id] else byKey;
    forall id | id in next && next[id].key.Some? ensures KeyLeadsTo(index, next[id].key.value.keyHash, id) {
      assert id != job.id ==> KeyLeadsTo(byKey, jobs[id].key.value.keyHash, id);
    }
  }

  /** A new record whose key no record has. */
  lemma SaveNew(w: World, job: Job)
    requires Steady(w) && job.id !in w.mem.jobs && MayWrite(DiskOf(w.log), job)
    ensures Durable(Save(w, job)) && Mirrors(Save(w, job))
  {
    DiskAppend(w.log, job);
    var next := Save(w, job);
    forall id | id in next.mem.jobs ensures MirrorsJob(next.mem.jobs[id], DiskOf(next.log)[id], id in next.mem.archived) {
      assert id != job.id ==> MirrorsJob(w.mem.jobs[id], DiskOf(w.log)[id], id in w.mem.archived);
    }
  }

  lemma StatusNew(mem: Memory, job: Job)
    requires Lined(mem, {}) && job.id !in mem.jobs && job.status == Running && job.id !in mem.archived
    ensures Lined(mem.(jobs := mem.jobs[job.id := job]), {job.id})
    ensures !Waits(mem, job.id) && !RunsNow(mem, job.id)
  {
    var next := mem.(jobs := mem.jobs[job.id := job]);
    forall i | 0 <= i < |mem.pending| ensures mem.pending[i].id != job.id && InLane(next, mem.pending[i].id) {
      assert InLane(mem, mem.pending[i].id);
    }
    forall id | id in next.jobs && next.jobs[id].status == Running ensures Waits(next, id) || RunsNow(next, id) || id in {job.id} {
      assert id != job.id ==> Waits(mem, id) || RunsNow(mem, id);
    }
  }

  /** The state right before a new job is queued. */
  function Registered(w: World, r: Request): World {
    var job := NewJob(r);
    var saved := Save(w, job);
    saved.(mem := saved.mem.(byKey := if r.key.Some? then saved.mem.byKey[r.key.value.keyHash := job.id] else saved.mem.byKey,
                             starts := saved.mem.starts + [r.now]))
  }

  ghost predicate FreshRequest(w: World, r: Request) {
    r.newId !in w.mem.jobs && (r.key.Some? ==> r.key.value.keyHash !in w.mem.byKey)
  }

  lemma RegisteredSteady(w: World, r: Request)
    requires Steady(w) && FreshRequest(w, r)
    ensures Steady(Registered(w, r)) && w.log <= Registered(w, r).log
  {
    var job := NewJob(r);
    NewKeyWritable(w, job);
    SaveNew(w, job);
    IndexedNew(w.mem.jobs, w.mem.byKey, job);
  }

  lemma RegisteredLined(w: World, r: Request)
    requires Lined(w.mem, {}) && FreshRequest(w, r) && w.mem.archived <= w.mem.jobs.Keys
    ensures var mem := Registered(w, r).mem;
            Lined(mem, {r.newId}) && InLane(mem, r.newId) && !Waits(mem, r.newId) && !RunsNow(mem, r.newId)
  {
    var job := NewJob(r);
    StatusNew(w.mem, job);
    LinedIgnoresIndex(w.mem.(jobs := w.mem.jobs[job.id := job]), Registered(w, r).mem, {job.id});
  }

  lemma RegisteredPays(w: World, r: Request)
    requires PaysOnce(w) && Lined(w.mem, {}) && FreshRequest(w, r)
    ensures PaysOnce(Registered(w, r))
  {
  }

  lemma RegisteredSound(w: World, r: Request)
    requires Lively(w) && FreshRequest(w, r)
    ensures var next := Registered(w, r);
            && Sound(next, {r.newId}) && (next.mem.pending != [] ==> next.mem.lane.Some?)
            && InLane(next.mem, r.newId) && !Waits(next.mem, r.newId) && !RunsNow(next.mem, r.newId)
            && r.newId !in next.runStarts && w.log <= next.log
            && next.mem.pending == w.mem.pending && next.mem.lane == w.mem.lane && next.up == w.up
  {
    assert r.newId !in w.runStarts;
    RegisteredSteady(w, r);
    RegisteredLined(w, r);
    RegisteredPays(w, r);
    hide Steady, Lined, PaysOnce;
  }

  lemma LinedIgnoresIndex(a: Memory, b: Memory, loose: set<JobId>)
    requires Lined(a, loose) && a.jobs == b.jobs && a.archived == b.archived && a.lane == b.lane && a.pending == b.pending
    ensures Lined(b, loose)
  {
    forall i | 0 <= i < |b.pending| ensures InLane(b, b.pending[i].id) { assert InLane(a, a.pending[i].id); }
    forall id | id in b.jobs && b.jobs[id].status == Running ensures Waits(b, id) || RunsNow(b, id) || id in loose {
      assert Waits(a, id) || RunsNow(a, id) || id in loose;
      assert Waits(a, id) <==> Waits(b, id);
    }
  }

  lemma StartsOnly(w: World, starts: seq<int>)
    requires Lively(w)
    ensures Lively(w.(mem := w.mem.(starts := starts)))
  {
    LinedIgnoresIndex(w.mem, w.mem.(starts := starts), {});
  }

  lemma CreateKeeps(w: World, c: Config, r: Request)
    requires Inv(w, c) && w.up && r.newId !in DiskOf(w.log) && !QueueFull(w, c)
    requires r.key.Some? ==> r.key.value.keyHash !in w.mem.byKey
    ensures EndsWell(w, c, Create(w, r))
  {
    hide Indexed, Lined, PaysOnce, Numbered, GoodRecord, LogOk;
    RegisteredSound(w, r);
    CreateIs(w, r);
    hide Lively, Sound, Enqueue, Registered, Create, Durable, DiskOf, Waits, RunsNow, InLane;
    EnqueueKeeps(Registered(w, r), Pay(r.newId));
    LivelyDurable(Create(w, r));
  }

  lemma CreateIs(w: World, r: Request)
    ensures Create(w, r) == Enqueue(Registered(w, r), Pay(r.newId))
  {
  }

  lemma StartKeeps(w: World, c: Config, r: Request)
    requires Inv(w, c) && w.up && r.newId !in DiskOf(w.log)
    ensures EndsWell(w, c, Start(w, c, r).0)
  {
    if Existing(w, r).Some? {
      RecoverKeeps(w, c, Existing(w, r).value);
    } else if !QueueFull(w, c) {
      var recent := w.(mem := w.mem.(starts := Recent(w.mem.starts, r.now)));
      StartsOnly(w, recent.mem.starts);
      KeyIsFree(w, r);
      hide Lively, Durable, DiskOf, Create;
      CreateKeeps(recent, c, r);
    }
  }

  lemma KeyIsFree(w: World, r: Request)
    requires Lively(w) && Existing(w, r).None?
    ensures r.key.Some? ==> r.key.value.keyHash !in w.mem.byKey
  {
  }

  // ---------------------------------------------------------------------
  // Runs
  // ---------------------------------------------------------------------

  ghost predicate SameQueue(a: map<JobId, Job>, b: map<JobId, Job>) {
    forall id :: id in a ==> id in b && b[id].queue == a[id].queue
  }

  lemma NumberedSameQueue(mem: Memory, jobs: map<JobId, Job>, n: nat)
    requires Numbered(mem, n) && SameQueue(mem.jobs, jobs) && jobs.Keys == mem.jobs.Keys
    ensures Numbered(mem.(jobs := jobs), n)
  {
  }

  /** Rewriting a loaded record without touching status or queue keeps everything. */
  lemma SaveLively(w: World, job: Job)
    requires Lively(w) && job.id in w.mem.jobs && job.id !in w.mem.archived
    requires Extends(w.mem.jobs[job.id], job) && GoodRecord(job)
    requires job.status == w.mem.jobs[job.id].status && job.queue == w.mem.jobs[job.id].queue
    ensures Lively(Save(w, job)) && OnlyWrote(w, Save(w, job))
  {
    SaveSound(w, job, {});
    NumberedSameQueue(w.mem, w.mem.jobs[job.id := job], |w.mem.pending|);
    assert Save(w, job).mem == w.mem.(jobs := w.mem.jobs[job.id := job]);
  }

  /** The lane's job is loaded, running and good. */
  lemma LaneRecord(w: World)
    requires Lively(w) && LaneLive(w)
    ensures LaneJob(w).id == w.mem.lane.value.item.id && LaneJob(w).id in w.mem.jobs && LaneJob(w).id !in w.mem.archived
    ensures GoodRecord(LaneJob(w)) && LaneJob(w).status == Running && LaneJob(w) == DiskOf(w.log)[LaneJob(w).id]
    ensures LaneJob(w).failedBeforePayment != Some(true)
  {
    LoadedRecord(w, w.mem.lane.value.item.id);
    assert InLane(w.mem, w.mem.lane.value.item.id);
  }

  lemma LinedStage(mem: Memory, lane: Lane)
    requires Lined(mem, {}) && mem.lane.Some? && lane.item == mem.lane.value.item && lane.settled == mem.lane.value.settled
    ensures Lined(mem.(lane := Some(lane)), {})
  {
    var next := mem.(lane := Some(lane));
    forall i | 0 <= i < |next.pending| ensures InLane(next, next.pending[i].id) { assert InLane(mem, mem.pending[i].id); }
    forall id ensures Waits(next, id) <==> Waits(mem, id) {}
    forall id | id in next.jobs && next.jobs[id].status == Running ensures Waits(next, id) || RunsNow(next, id) {
      assert Waits(mem, id) || RunsNow(mem, id);
    }
  }

  /** Moving the payment stage on, once the record and the chain allow it. */
  lemma StageKeeps(w: World, stage: Stage, handed: seq<JobId>)
    requires Lively(w) && LaneLive(w) && w.mem.lane.value.item.Pay?
    requires Durable(w.(handed := handed)) && MayHaveBroadcast(LaneJob(w))
    requires stage == Announced ==> w.mem.lane.value.item.id !in handed
    requires stage != Unannounced
    ensures Lively(SetLane(w, w.mem.lane.value.(stage := stage)).(handed := handed))
  {
    LinedStage(w.mem, w.mem.lane.value.(stage := stage));
  }

  lemma HandOverDurable(w: World)
    requires Lively(w) && LaneLive(w) && w.mem.lane.value.item.Pay? && w.mem.lane.value.stage == Announced
    ensures Durable(w.(handed := w.handed + [w.mem.lane.value.item.id]))
  {
    LaneRecord(w);
  }

  lemma LinedSettle(mem: Memory, job: Job)
    requires Lined(mem, {}) && RunsNow(mem, job.id) && job.id in mem.jobs && job.status != Running
    ensures Lined(mem.(jobs := mem.jobs[job.id := job], lane := Some(mem.lane.value.(settled := true))), {})
  {
    var next := mem.(jobs := mem.jobs[job.id := job], lane := Some(mem.lane.value.(settled := true)));
    forall i | 0 <= i < |next.pending| ensures InLane(next, next.pending[i].id) {
      assert InLane(mem, mem.pending[i].id);
      assert Waits(mem, mem.pending[i].id);
    }
    forall id | id in next.jobs && next.jobs[id].status == Running ensures Waits(next, id) {
      assert Waits(mem, id) || RunsNow(mem, id);
      if Waits(mem, id) {
        var i :| 0 <= i < |mem.pending| && mem.pending[i].id == id;
        assert next.pending[i].id == id;
      }
    }
  }

  lemma SettledSteady(w: World)
    requires w.mem.lane.Some?
    ensures Steady(w) ==> Steady(SetLane(w, w.mem.lane.value.(settled := true)))
    ensures PaysOnce(w) ==> PaysOnce(SetLane(w, w.mem.lane.value.(settled := true)))
  {
  }

  /** The end of a run: the record is closed and the lane settles. */
  lemma SettleKeeps(w: World, job: Job)
    requires Lively(w) && LaneLive(w) && job.id == w.mem.lane.value.item.id
    requires Extends(LaneJob(w), job) && GoodRecord(job) && job.status != Running && job.queue == LaneJob(w).queue
    ensures Lively(SetLane(Save(w, job), w.mem.lane.value.(settled := true)))
    ensures w.log <= SetLane(Save(w, job), w.mem.lane.value.(settled := true)).log
  {
    hide DiskOf, GoodRecord, Durable, Mirrors, Indexed;
    LaneRecord(w);
    SaveKeeps(w, job);
    LinedSettle(w.mem, job);
    PaysOnceAfter(w, job);
    SettledSteady(Save(w, job));
    NumberedSameQueue(w.mem, w.mem.jobs[job.id := job], |w.mem.pending|);
    hide Steady, Lined, PaysOnce, Extends;
    var next := SetLane(Save(w, job), w.mem.lane.value.(settled := true));
    assert next.mem == w.mem.(jobs := w.mem.jobs[job.id := job], lane := Some(w.mem.lane.value.(settled := true)));
  }

  lemma ClosedGood(job: Job, recovery: bool)
    requires GoodRecord(job) && job.failedBeforePayment != Some(true)
    ensures GoodRecord(CompletedBy(job, recovery)) && Extends(job, CompletedBy(job, recovery))
    ensures CompletedBy(job, recovery).id == job.id && CompletedBy(job, recovery).status == Complete
    ensures CompletedBy(job, recovery).queue == job.queue
    ensures GoodRecord(FailedBy(job, recovery)) && Extends(job, FailedBy(job, recovery))
  {
    var completed := job.(status := Complete, preview := false, recovery := CompletedBy(job, recovery).recovery,
                          finalisation := CompletedBy(job, recovery).finalisation);
    assert MayHaveBroadcast(completed) <==> MayHaveBroadcast(job);
    PushGood(completed, CompletePhase, OtherLabel, None);
    var stopped := FailedBy(job, recovery).(phase := job.phase, events := job.events);
    assert MayHaveBroadcast(stopped) <==> MayHaveBroadcast(job);
    PushGood(stopped, FailedPhase, OtherLabel, None);
    assert FailedBy(job, recovery) == Pushed(stopped, FailedPhase, OtherLabel, None);
  }

  lemma NoteKeeps(w: World, phase: Phase, mark: Mark, txRef: Option<string>, base: Job)
    requires Lively(w) && LaneLive(w) && (mark == PaymentBroadcast ==> phase == Settling)
    requires base == LaneJob(w).(preview := base.preview, finalisation := base.finalisation)
    ensures Lively(Save(w, Pushed(base, phase, mark, txRef))) && OnlyWrote(w, Save(w, Pushed(base, phase, mark, txRef)))
    ensures LaneLive(Save(w, Pushed(base, phase, mark, txRef)))
    ensures phase == Settling ==> MayHaveBroadcast(LaneJob(Save(w, Pushed(base, phase, mark, txRef))))
  {
    LaneRecord(w);
    assert MayHaveBroadcast(base) <==> MayHaveBroadcast(LaneJob(w));
    PushGood(base, phase, mark, txRef);
    SaveLively(w, Pushed(base, phase, mark, txRef));
  }

  /** A failed recovery that may be retried keeps its finalisation marked as running. */
  lemma RetryKeeps(w: World, c: Config, id: JobId)
    requires Lively(w) && id in w.mem.jobs && id !in w.mem.archived && MayRetry(w.mem.jobs[id], c)
    ensures Lively(Save(w, RetryMarked(w.mem.jobs[id]))) && OnlyWrote(w, Save(w, RetryMarked(w.mem.jobs[id])))
  {
    LoadedRecord(w, id);
    assert MayHaveBroadcast(RetryMarked(w.mem.jobs[id])) <==> MayHaveBroadcast(w.mem.jobs[id]);
    SaveLively(w, RetryMarked(w.mem.jobs[id]));
  }

  lemma FailIs(w: World, c: Config, retry: bool)
    requires LaneLive(w) && LaneJob(w).id == w.mem.lane.value.item.id
    ensures var lane := w.mem.lane.value;
            var closed := FailedBy(LaneJob(w), lane.item.Recovery?);
            var settled := SetLane(Save(w, closed), lane.(settled := true));
            && settled.mem.jobs[closed.id] == closed
            && RunStep(w, c, Fail(retry)) ==
               if lane.item.Recovery? && retry && MayRetry(closed, c) then Save(settled, RetryMarked(closed)) else settled
  {
  }

  lemma FailKeeps(w: World, c: Config, retry: bool)
    requires Lively(w) && LaneLive(w)
    ensures Lively(RunStep(w, c, Fail(retry))) && w.log <= RunStep(w, c, Fail(retry)).log
  {
    var lane := w.mem.lane.value;
    LaneRecord(w);
    ClosedGood(LaneJob(w), lane.item.Recovery?);
    var closed := FailedBy(LaneJob(w), lane.item.Recovery?);
    SettleKeeps(w, closed);
    FailIs(w, c, retry);
    var settled := SetLane(Save(w, closed), lane.(settled := true));
    assert closed.id in settled.mem.jobs && closed.id !in settled.mem.archived && w.log <= settled.log;
    hide Lively, Save, RunStep;
    if lane.item.Recovery? && retry && MayRetry(closed, c) {
      RetryKeeps(settled, c, closed.id);
    }
  }

  lemma AnnounceReady(w: World)
    requires Lively(w) && LaneLive(w) && w.mem.lane.value.item.Pay? && w.mem.lane.value.stage != Handed
    ensures Durable(w) && w.mem.lane.value.item.id !in w.handed
  {
  }

  lemma SessionGood(job: Job, session: SessionState)
    requires GoodRecord(job)
    ensures GoodRecord(job.(session := Some(session)))
  {
    assert MayHaveBroadcast(job.(session := Some(session))) <==> MayHaveBroadcast(job);
  }

  lemma AnnounceKeeps(w: World, c: Config)
    requires Lively(w) && LaneLive(w)
    ensures Lively(RunStep(w, c, Announce)) && w.log <= RunStep(w, c, Announce).log
  {
    var lane := w.mem.lane.value;
    if lane.item.Pay? && lane.stage == Unannounced {
      NoteKeeps(w, Settling, OtherLabel, None, LaneJob(w));
      var saved := Save(w, Pushed(LaneJob(w), Settling, OtherLabel, None));
      assert saved.(handed := w.handed) == saved;
      AnnounceReady(saved);
      hide Lively, Durable, Save, Pushed;
      StageKeeps(saved, Announced, w.handed);
      assert RunStep(w, c, Announce) == SetLane(saved, saved.mem.lane.value.(stage := Announced)).(handed := w.handed);
    }
  }

  lemma HandOverKeeps(w: World, c: Config)
    requires Lively(w) && LaneLive(w)
    ensures Lively(RunStep(w, c, HandOver)) && w.log <= RunStep(w, c, HandOver).log
  {
    var lane := w.mem.lane.value;
    if lane.item.Pay? && lane.stage == Announced {
      HandOverDurable(w);
      StageKeeps(w, Handed, w.handed + [lane.item.id]);
    }
  }

  lemma ProgressKeeps(w: World, c: Config, phase: Phase, txRef: Option<string>)
    requires Lively(w) && LaneLive(w)
    ensures Lively(RunStep(w, c, Note(phase, txRef))) && w.log <= RunStep(w, c, Note(phase, txRef)).log
  {
    hide Lively;
    NoteKeeps(w, phase, OtherLabel, txRef, LaneJob(w));
  }

  lemma SessionKeeps(w: World, c: Config, session: SessionState)
    requires Lively(w) && LaneLive(w)
    ensures Lively(RunStep(w, c, SetSession(session))) && w.log <= RunStep(w, c, SetSession(session)).log
  {
    LaneRecord(w);
    SessionGood(LaneJob(w), session);
    hide Lively;
    SaveLively(w, LaneJob(w).(session := Some(session)));
  }

  lemma BroadcastKeeps(w: World, c: Config, txHash: string)
    requires Lively(w) && LaneLive(w)
    ensures Lively(RunStep(w, c, Broadcast(txHash))) && w.log <= RunStep(w, c, Broadcast(txHash)).log
  {
    hide Lively;
    NoteKeeps(w, Settling, PaymentBroadcast, Some(txHash), LaneJob(w));
  }

  lemma PreviewKeeps(w: World, c: Config)
    requires Lively(w) && LaneLive(w)
    ensures Lively(RunStep(w, c, Preview)) && w.log <= RunStep(w, c, Preview).log
  {
    hide Lively;
    NoteKeeps(w, Working, OtherLabel, None, LaneJob(w).(preview := true, finalisation := Some(Finalisation(WorkRunning, 1))));
  }

  lemma FinishIs(w: World, c: Config)
    requires LaneLive(w)
    ensures RunStep(w, c, Finish) ==
            SetLane(Save(w, CompletedBy(LaneJob(w), w.mem.lane.value.item.Recovery?)), w.mem.lane.value.(settled := true))
  {
  }

  lemma FinishKeeps(w: World, c: Config)
    requires Lively(w) && LaneLive(w)
    ensures Lively(RunStep(w, c, Finish)) && w.log <= RunStep(w, c, Finish).log
  {
    LaneRecord(w);
    ClosedGood(LaneJob(w), w.mem.lane.value.item.Recovery?);
    FinishIs(w, c);
    hide Lively, GoodRecord, CompletedBy, Extends, DiskOf, RunStep;
    SettleKeeps(w, CompletedBy(LaneJob(w), w.mem.lane.value.item.Recovery?));
  }

  lemma LiveStepKeeps(w: World, c: Config, a: RunAction)
    requires Lively(w) && LaneLive(w)
    ensures Lively(RunStep(w, c, a)) && w.log <= RunStep(w, c, a).log
  {
    hide Lively, RunStep, LaneLive;
    match a
    case Note(phase, txRef) => ProgressKeeps(w, c, phase, txRef);
    case SetSession(session) => SessionKeeps(w, c, session);
    case Announce => AnnounceKeeps(w, c);
    case HandOver => HandOverKeeps(w, c);
    case Broadcast(txHash) => BroadcastKeeps(w, c, txHash);
    case Preview => PreviewKeeps(w, c);
    case Finish => FinishKeeps(w, c);
    case Fail(retry) => FailKeeps(w, c, retry);
  }

  lemma RunStepKeeps(w: World, c: Config, a: RunAction)
    requires Inv(w, c) && w.up
    ensures EndsWell(w, c, RunStep(w, c, a))
  {
    if LaneLive(w) {
      LiveStepKeeps(w, c, a);
      LivelyDurable(RunStep(w, c, a));
      RunStepLane(w, c, a);
    }
  }

  lemma RunStepLane(w: World, c: Config, a: RunAction)
    ensures RunStep(w, c, a).mem.pending == w.mem.pending && RunStep(w, c, a).up == w.up
  {
  }

  // ---------------------------------------------------------------------
  // Clean-up and late callbacks
  // ---------------------------------------------------------------------

  function FreedLane(w: World): World
    requires w.mem.lane.Some? && w.mem.lane.value.item.id in w.mem.jobs
  {
    var job := w.mem.jobs[w.mem.lane.value.item.id];
    var saved := Save(w, if job.queue.Some? then job.(queue := Some(Finished)) else job);
    saved.(mem := saved.mem.(lane := None))
  }

  lemma FreedSound(w: World)
    requires Sound(w, {}) && w.mem.lane.Some? && w.mem.lane.value.settled
    ensures w.mem.lane.value.item.id in w.mem.jobs && Sound(FreedLane(w), {})
    ensures w.log <= FreedLane(w).log && FreedLane(w).mem.pending == w.mem.pending && FreedLane(w).up == w.up
  {
    var id := w.mem.lane.value.item.id;
    var job := w.mem.jobs[id];
    LoadedRecord(w, id);
    var closed := if job.queue.Some? then job.(queue := Some(Finished)) else job;
    assert MayHaveBroadcast(closed) <==> MayHaveBroadcast(job);
    hide Sound;
    SaveSound(w, closed, {});
    LaneFreed(Save(w, closed));
  }

  lemma CleanUpKeeps(w: World, c: Config)
    requires Inv(w, c) && w.up
    ensures EndsWell(w, c, CleanUp(w))
  {
    if w.mem.lane.Some? && w.mem.lane.value.settled {
      FreedSound(w);
      assert CleanUp(w) == Pump(FreedLane(w));
      assert FreedLane(w).mem.lane == None;
      hide Sound, Lively, Save, Pump, FreedLane, CleanUp;
      PumpKeeps(FreedLane(w));
      LivelyDurable(Pump(FreedLane(w)));
    }
  }

  lemma LaneFreed(w: World)
    requires Sound(w, {}) && w.mem.lane.Some? && w.mem.lane.value.settled
    ensures Sound(w.(mem := w.mem.(lane := None)), {})
  {
    var next := w.mem.(lane := None);
    forall i | 0 <= i < |next.pending| ensures InLane(next, next.pending[i].id) { assert InLane(w.mem, w.mem.pending[i].id); }
    forall id | id in next.jobs && next.jobs[id].status == Running ensures Waits(next, id) {
      assert Waits(w.mem, id) || RunsNow(w.mem, id);
      assert Waits(w.mem, id) <==> Waits(next, id);
    }
  }

  lemma ObserveKeeps(w: World, c: Config, id: JobId)
    requires Inv(w, c) && w.up
    ensures EndsWell(w, c, Observe(w, id))
  {
    if id in w.mem.jobs && id !in w.mem.archived {
      LoadedRecord(w, id);
      PushGood(w.mem.jobs[id], w.mem.jobs[id].phase, OtherLabel, None);
      SaveLively(w, Pushed(w.mem.jobs[id], w.mem.jobs[id].phase, OtherLabel, None));
    }
  }

  lemma FinalisationStoppedKeeps(w: World, c: Config, id: JobId)
    requires Inv(w, c) && w.up
    ensures EndsWell(w, c, FinalisationStopped(w, id))
  {
    if id in w.mem.jobs && id !in w.mem.archived && w.mem.jobs[id].finalisation.Some? {
      LoadedRecord(w, id);
      var job := w.mem.jobs[id];
      var stopped := job.(finalisation := Some(job.finalisation.value.(status := WorkFailed)));
      assert MayHaveBroadcast(stopped) <==> MayHaveBroadcast(job);
      SaveLively(w, stopped);
    }
  }

  // ---------------------------------------------------------------------
  // Restart
  // ---------------------------------------------------------------------

  /** Part of the directory has been loaded; nothing runs and nothing waits. */
  ghost predicate Booting(w: World, disk: map<JobId, Job>, files: seq<JobId>) {
    && Durable(w) && w.mem.lane.None? && w.mem.pending == [] && w.up
    && DiskOf(w.log).Keys == disk.Keys
    && Loaded(w.mem.jobs, w.mem.archived, disk, DiskOf(w.log), files)
    && Indexed(w.mem.jobs, w.mem.byKey)
  }

  ghost predicate Loaded(jobs: map<JobId, Job>, archived: set<JobId>, disk: map<JobId, Job>, now: map<JobId, Job>, files: seq<JobId>) {
    && now.Keys == disk.Keys
    && (forall id :: id in jobs <==> id in files) && archived <= jobs.Keys <= disk.Keys
    && (forall id :: id in disk && id !in files ==> now[id] == disk[id])
    && (forall id :: id in jobs ==> LoadedAs(jobs[id], now[id], id in archived))
  }

  predicate LoadedAs(job: Job, stored: Job, archived: bool) {
    MirrorsJob(job, stored, archived) && job.status != Running
  }

  lemma InterruptedGood(job: Job, c: Config)
    requires GoodRecord(job) && job.status == Running
    ensures GoodRecord(Interrupted(job, c)) && Extends(job, Interrupted(job, c)) && Interrupted(job, c).status == FailedJob
  {
    var stopped := Interrupted(job, c).(phase := job.phase, events := job.events);
    assert MayHaveBroadcast(stopped) <==> MayHaveBroadcast(job);
    PushGood(stopped, FailedPhase, OtherLabel, None);
    assert Interrupted(job, c) == Pushed(stopped, FailedPhase, OtherLabel, None);
  }

  /** The three things a load does, in order. */
  function LoadRecord(w: World, c: Config, job: Job, full: bool): World {
    if job.status == Running then Save(w, Interrupted(job, c))
    else if job.status == Complete && !full then
      SetJob(w, Slim(job)).(mem := SetJob(w, Slim(job)).mem.(archived := w.mem.archived + {job.id}))
    else SetJob(w, job)
  }

  lemma SaveDurable(w: World, job: Job)
    requires Durable(w) && job.id in DiskOf(w.log) && Extends(DiskOf(w.log)[job.id], job) && GoodRecord(job)
    ensures Durable(Save(w, job)) && DiskOf(Save(w, job).log) == DiskOf(w.log)[job.id := job]
  {
    DiskAppend(w.log, job);
    forall id | id in w.handed ensures MayHaveBroadcast(DiskOf(w.log + [job])[id]) {
      if id == job.id {
        BroadcastStays(DiskOf(w.log)[id], job);
      }
    }
  }

  /** One record was loaded: only it changed, in memory and on disk. */
  ghost predicate LoadedOne(w: World, next: World, job: Job) {
    && Durable(next) && w.log <= next.log
    && job.id in DiskOf(next.log) && job.id in next.mem.jobs
    && DiskOf(next.log) == DiskOf(w.log)[job.id := DiskOf(next.log)[job.id]]
    && next.mem.jobs == w.mem.jobs[job.id := next.mem.jobs[job.id]]
    && (next.mem.archived == w.mem.archived || next.mem.archived == w.mem.archived + {job.id})
    && (job.id !in w.mem.archived ==> LoadedAs(next.mem.jobs[job.id], DiskOf(next.log)[job.id], job.id in next.mem.archived))
    && next.mem.jobs[job.id].key == job.key && next.mem.jobs[job.id].id == job.id
  }

  lemma LoadInterrupted(w: World, c: Config, job: Job)
    requires Durable(w) && job.id in DiskOf(w.log) && DiskOf(w.log)[job.id] == job && job.status == Running && GoodRecord(job)
    ensures LoadedOne(w, Save(w, Interrupted(job, c)), job)
  {
    InterruptedGood(job, c);
    SaveDurable(w, Interrupted(job, c));
    hide Durable, DiskOf, GoodRecord;
  }

  lemma LoadUnchanged(w: World, job: Job, shown: Job, archived: set<JobId>)
    requires Durable(w) && job.id in DiskOf(w.log) && DiskOf(w.log)[job.id] == job
    requires (shown == job && archived == w.mem.archived) || (shown == Slim(job) && archived == w.mem.archived + {job.id})
    requires job.id !in w.mem.archived ==> LoadedAs(shown, job, job.id in archived)
    requires shown.id == job.id && shown.key == job.key
    ensures LoadedOne(w, SetJob(w, shown).(mem := SetJob(w, shown).mem.(archived := archived)), job)
  {
    var next := SetJob(w, shown).(mem := SetJob(w, shown).mem.(archived := archived));
    assert Durable(next) && next.log == w.log;
    hide Durable, DiskOf, LoadedAs, Slim;
  }

  lemma LoadDurable(w: World, c: Config, job: Job, full: bool)
    requires Durable(w) && job.id in DiskOf(w.log) && DiskOf(w.log)[job.id] == job
    ensures LoadedOne(w, LoadRecord(w, c, job, full), job)
  {
    KeysOnDisk(w.log);
    hide Durable, DiskOf, GoodRecord, LoadedOne;
    if job.status == Running {
      LoadInterrupted(w, c, job);
    } else if job.status == Complete && !full {
      LoadUnchanged(w, job, Slim(job), w.mem.archived + {job.id});
    } else {
      LoadUnchanged(w, job, job, w.mem.archived);
    }
  }

  /** Keys on disk are unique, so no loaded job holds the key of one still to be loaded. */
  lemma KeyStillFree(w: World, disk: map<JobId, Job>, files: seq<JobId>, name: JobId)
    requires Booting(w, disk, files) && name in disk && name !in files && disk[name].key.Some?
    ensures disk[name].key.value.keyHash !in w.mem.byKey
  {
    var h := disk[name].key.value.keyHash;
    if h in w.mem.byKey {
      var id := w.mem.byKey[h];
      KeysOnDisk(w.log);
      assert LoadedAs(w.mem.jobs[id], DiskOf(w.log)[id], id in w.mem.archived);
      assert SameKey(DiskOf(w.log)[id], DiskOf(w.log)[name]);
    }
  }

  lemma LoadIs(w: World, c: Config, job: Job, full: bool, now: int)
    requires job.key.Some? ==> job.key.value.keyHash !in w.mem.byKey
    ensures var read := LoadRecord(w, c, job, full);
            Load(w, c, job, full, now) == read.(mem := read.mem.(
              byKey := if job.key.Some? then w.mem.byKey[job.key.value.keyHash := job.id] else w.mem.byKey,
              starts := if now - job.createdAt < HOUR_MS then w.mem.starts + [job.createdAt] else w.mem.starts))
  {
  }

  lemma LoadedMore(jobs: map<JobId, Job>, archived: set<JobId>, disk: map<JobId, Job>, now: map<JobId, Job>, files: seq<JobId>,
                   name: JobId, job: Job, stored: Job, more: set<JobId>)
    requires Loaded(jobs, archived, disk, now, files) && name in disk && name !in files
    requires (more == archived || more == archived + {name}) && LoadedAs(job, stored, name in more)
    ensures Loaded(jobs[name := job], more, disk, now[name := stored], files + [name])
  {
    var jobs', now' := jobs[name := job], now[name := stored];
    forall id | id in jobs' ensures LoadedAs(jobs'[id], now'[id], id in more) {
      assert id != name ==> LoadedAs(jobs[id], now[id], id in archived);
    }
  }

  lemma LoadKeeps(w: World, c: Config, disk: map<JobId, Job>, files: seq<JobId>, name: JobId, full: bool, now: int)
    requires Booting(w, disk, files) && name in disk && name !in files
    ensures Booting(Load(w, c, disk[name], full, now), disk, files + [name])
    ensures w.log <= Load(w, c, disk[name], full, now).log
  {
    var job := disk[name];
    assert DiskOf(w.log)[name] == job;
    DiskIds(w.log);
    if job.key.Some? {
      KeyStillFree(w, disk, files, name);
    }
    LoadDurable(w, c, job, full);
    LoadIs(w, c, job, full, now);
    var read := LoadRecord(w, c, job, full);
    hide Durable, LoadRecord, Load, Indexed, DiskOf, LoadedAs;
    IndexedNew(w.mem.jobs, w.mem.byKey, read.mem.jobs[name]);
    LoadedMore(w.mem.jobs, w.mem.archived, disk, DiskOf(w.log), files, name, read.mem.jobs[name], DiskOf(read.log)[name], read.mem.archived);
    LoadShape(w, c, job, full);
    DurableIgnoresMemory(read, Load(w, c, job, full, now));
  }

  lemma LoadShape(w: World, c: Config, job: Job, full: bool)
    ensures var read := LoadRecord(w, c, job, full);
            read.mem.lane == w.mem.lane && read.mem.pending == w.mem.pending && read.up == w.up
            && read.runStarts == w.runStarts && read.handed == w.handed
  {
  }

  lemma DurableIgnoresMemory(a: World, b: World)
    requires Durable(a) && a.log == b.log && a.runStarts == b.runStarts && a.handed == b.handed
    ensures Durable(b)
  {
  }

  lemma {:induction false} LoadAllKeeps(w: World, c: Config, disk: map<JobId, Job>, files: seq<JobId>, kept: set<JobId>, now: int)
    requires Booting(w, disk, []) && NoRepeats(files) && (set f | f in files) <= disk.Keys
    ensures Booting(LoadAll(w, c, disk, files, kept, now), disk, files)
    ensures w.log <= LoadAll(w, c, disk, files, kept, now).log
  {
    if files != [] {
      var before, name := files[..|files| - 1], files[|files| - 1];
      assert files == before + [name];
      assert name in files && name in (set f | f in files);
      forall f | f in before ensures f in files {}
      LoadAllKeeps(w, c, disk, before, kept, now);
      LoadKeeps(LoadAll(w, c, disk, before, kept, now), c, disk, before, name, name in kept, now);
    }
  }

  lemma BootedLively(w: World, disk: map<JobId, Job>, files: seq<JobId>)
    requires Booting(w, disk, files) && (set f | f in files) == disk.Keys
    ensures Lively(w)
  {
    forall id ensures id in w.mem.jobs <==> id in disk {
      assert id in (set f | f in files) <==> id in files;
    }
    forall id | id in w.mem.jobs
      ensures MirrorsJob(w.mem.jobs[id], DiskOf(w.log)[id], id in w.mem.archived) && w.mem.jobs[id].status != Running {
      assert LoadedAs(w.mem.jobs[id], DiskOf(w.log)[id], id in w.mem.archived);
    }
  }

  /** Loading one record rewrites at most that record's file. */
  lemma LoadedLog(before: seq<Job>, after: seq<Job>, job: Job, c: Config)
    requires after == before || after == before + [Interrupted(job, c)]
    ensures DiskOf(after) == DiskOf(before) || DiskOf(after) == DiskOf(before)[job.id := Interrupted(job, c)]
    ensures Interrupted(job, c).id == job.id
  {
    DiskAppend(before, Interrupted(job, c));
  }

  lemma BootKeeps(w: World, c: Config, files: seq<JobId>, kept: set<JobId>, now: int)
    requires Durable(w) && NoRepeats(files) && (set f | f in files) == DiskOf(w.log).Keys
    ensures EndsWell(w, c, Boot(w, c, files, kept, now))
  {
    var none: seq<JobId> := [];
    var start := World(true, EMPTY_MEMORY, w.log, w.runStarts, w.handed);
    DurableIgnoresMemory(w, start);
    LoadAllKeeps(start, c, DiskOf(w.log), files, kept, now);
    BootedLively(Boot(w, c, files, kept, now), DiskOf(w.log), files);
  }

  // ---------------------------------------------------------------------
  // Whole runs
  // ---------------------------------------------------------------------

  lemma ApplyKeeps(w: World, c: Config, a: Action)
    requires Inv(w, c) && Enabled(w, a)
    ensures EndsWell(w, c, Apply(w, c, a))
  {
    match a
    case StartRequest(r) => StartKeeps(w, c, r);
    case RecoverRequest(id) => RecoverKeeps(w, c, id);
    case RunAct(act) => RunStepKeeps(w, c, act);
    case RunCleanUp => CleanUpKeeps(w, c);
    case Observed(id) => ObserveKeeps(w, c, id);
    case RetryGivenUp(id) => FinalisationStoppedKeeps(w, c, id);
    case Restart(files, kept, now) => BootKeeps(w, c, files, kept, now);
  }

  lemma StepKeeps(w: World, c: Config, a: Action, next: World)
    requires Inv(w, c) && Step(w, c, a, next)
    ensures Inv(next, c) && w.log <= next.log
  {
    ApplyKeeps(w, c, a);
    if next != Apply(w, c, a) {
      var n :| Crashed(w, Apply(w, c, a), n, next);
      CrashKeepsDurable(w, Apply(w, c, a), n, next);
    }
  }

  const FIRST_START := World(false, EMPTY_MEMORY, [], [], [])

  /** A run from an empty directory: any actions, any crashes. */
  ghost predicate Behaviour(c: Config, ws: seq<World>, acts: seq<Action>) {
    && |ws| == |acts| + 1 && ws[0] == FIRST_START
    && forall k :: 0 <= k < |acts| ==> Step(ws[k], c, acts[k], ws[k + 1])
  }

  lemma {:induction false} BehaviourKeeps(c: Config, ws: seq<World>, acts: seq<Action>, k: nat, m: nat)
    requires Behaviour(c, ws, acts) && k <= m < |ws|
    ensures Inv(ws[k], c) && Inv(ws[m], c) && ws[k].log <= ws[m].log
    decreases m
  {
    if m == 0 {
      assert DiskOf(FIRST_START.log) == map[];
    } else if k == m {
      BehaviourKeeps(c, ws, acts, m - 1, m - 1);
      StepKeeps(ws[m - 1], c, acts[m - 1], ws[m]);
    } else {
      BehaviourKeeps(c, ws, acts, k, m - 1);
      StepKeeps(ws[m - 1], c, acts[m - 1], ws[m]);
    }
  }

  /**
   The theorem about every run: a key stands for one job, a job's paying run begins at most
   once, and at most one payment is ever handed over per job and hence per key.
   */
  lemma NeverPaysTwice(c: Config, ws: seq<World>, acts: seq<Action>, m: nat)
    requires Behaviour(c, ws, acts) && m < |ws|
    ensures var disk := DiskOf(ws[m].log);
            && (forall a, b :: a in disk && b in disk && SameKey(disk[a], disk[b]) ==> a == b)
            && NoRepeats(ws[m].runStarts) && NoRepeats(ws[m].handed)
            && (forall id :: id in ws[m].handed ==> id in ws[m].runStarts && id in disk)
            && (forall i, j :: 0 <= i < j < |ws[m].handed| ==> !SameKey(disk[ws[m].handed[i]], disk[ws[m].handed[j]]))
  {
    BehaviourKeeps(c, ws, acts, m, m);
    KeysOnDisk(ws[m].log);
  }

  lemma LastWrite(log: seq<Job>, i: nat)
    requires i < |log|
    ensures log[i].id in DiskOf(log[..i + 1]) && DiskOf(log[..i + 1])[log[i].id] == log[i]
  {
    assert log[..i + 1] == log[..i] + [log[i]];
    DiskAppend(log[..i], log[i]);
  }

  /** Once a payment was handed over, no record written for that job denies it. */
  lemma NoRecordDeniesAPayment(c: Config, ws: seq<World>, acts: seq<Action>, k: nat, m: nat, i: nat)
    requires Behaviour(c, ws, acts) && k <= m < |ws|
    requires |ws[k].log| <= i < |ws[m].log| && ws[m].log[i].id in ws[k].handed
    ensures ws[m].log[i].failedBeforePayment != Some(true) && MayHaveBroadcast(ws[m].log[i])
    ensures var id := ws[m].log[i].id; id in DiskOf(ws[k].log) && DiskOf(ws[k].log)[id].failedBeforePayment != Some(true)
  {
    BehaviourKeeps(c, ws, acts, k, m);
    var log, id := ws[m].log, ws[m].log[i].id;
    var upTo := log[..i + 1];
    Prefix(log, i + 1);
    Prefix(upTo, |ws[k].log|);
    assert upTo[..|ws[k].log|] == ws[k].log;
    LastWrite(log, i);
    KeysOnDisk(upTo);
    KeysOnDisk(ws[k].log);
    BroadcastStays(DiskOf(ws[k].log)[id], log[i]);
  }

  // ---------------------------------------------------------------------
  // Replays, recovery and order
  // ---------------------------------------------------------------------

  lemma {:induction false} RefreshOnlyQueues(w: World, i: nat)
    ensures Refresh(w, i).runStarts == w.runStarts && Refresh(w, i).handed == w.handed
    ensures Refresh(w, i).mem.pending == w.mem.pending && Refresh(w, i).mem.lane == w.mem.lane
    ensures (forall id :: id in w.mem.jobs ==> w.mem.jobs[id].id == id) ==> Refresh(w, i).mem.jobs.Keys == w.mem.jobs.Keys
    decreases |w.mem.pending| - i
  {
    if i < |w.mem.pending| && w.mem.pending[i].id in w.mem.jobs {
      RefreshOnlyQueues(Save(w, w.mem.jobs[w.mem.pending[i].id].(queue := Some(Waiting(Some(i + 1))))), i + 1);
    }
  }

  lemma JobIds(w: World)
    requires Steady(w)
    ensures forall id :: id in w.mem.jobs ==> w.mem.jobs[id].id == id
  {
    forall id | id in w.mem.jobs ensures w.mem.jobs[id].id == id {
      ArchivedComplete(w, id);
    }
  }

  /** A recovery joins the end of the lane or starts at once; it begins no paying run and hands over nothing. */
  lemma RecoveryStartsNoPayment(w: World, c: Config, id: JobId)
    requires Inv(w, c) && w.up
    ensures var next := Recover(w, c, id).0;
            && next.runStarts == w.runStarts && next.handed == w.handed && next.mem.jobs.Keys == w.mem.jobs.Keys
            && (Recover(w, c, id).1 == Resuming(id) ==>
                  if w.mem.lane.Some? then next.mem.pending == w.mem.pending + [Recovery(id)] && next.mem.lane == w.mem.lane
                  else next.mem.pending == [] && next.mem.lane == Some(Lane(Recovery(id), Unannounced, false)))
  {
    hide Durable, Mirrors, Indexed, Lined, Numbered, PaysOnce, DiskOf;
    if id in w.mem.jobs && Recoverable(w.mem.jobs[id]) && !QueueFull(w, c) {
      JobIds(w);
      var saved := Save(w, Resumed(w.mem.jobs[id]));
      var added := saved.(mem := saved.mem.(pending := saved.mem.pending + [Recovery(id)]));
      RefreshOnlyQueues(added, 0);
      var numbered := Refresh(added, 0);
      if w.mem.lane.None? {
        assert numbered.mem.pending[1..] == [];
        var taken := numbered.(mem := numbered.mem.(pending := [], lane := Some(Lane(Recovery(id), Unannounced, false))));
        var active := numbered.mem.jobs[id];
        RefreshOnlyQueues(Save(taken, Pushed(active.(queue := Some(Active)), active.phase, OtherLabel, None)), 0);
      }
    }
  }

  /** A request whose key is known creates nothing and begins no payment: it names that key's job or is refused. */
  lemma ReplayCreatesNothing(w: World, c: Config, r: Request, id: JobId)
    requires Inv(w, c) && w.up && r.key.Some?
    requires id in DiskOf(w.log) && DiskOf(w.log)[id].key.Some? && DiskOf(w.log)[id].key.value.keyHash == r.key.value.keyHash
    ensures var (next, reply) := Start(w, c, r);
            && next.runStarts == w.runStarts && next.handed == w.handed && next.mem.jobs.Keys == w.mem.jobs.Keys
            && (reply == Replayed(id) || reply == Resuming(id) || reply.Refused?)
            && (DiskOf(w.log)[id].key != r.key ==> next == w && reply == Refused(409))
  {
    ArchivedComplete(w, id);
    assert KeyLeadsTo(w.mem.byKey, r.key.value.keyHash, id);
    RecoveryStartsNoPayment(w, c, id);
  }

  /** The clean-up starts the job that has waited longest; the others keep their order. */
  lemma LaneIsFirstInFirstOut(w: World, c: Config)
    requires Inv(w, c) && w.up && w.mem.lane.Some? && w.mem.lane.value.settled
    ensures var next := CleanUp(w).mem;
            if w.mem.pending == [] then next.lane == None && next.pending == []
            else next.pending == w.mem.pending[1..] && next.lane == Some(Lane(w.mem.pending[0], Unannounced, false))
  {
    hide Durable, Mirrors, Indexed, Numbered, PaysOnce, DiskOf;
    if w.mem.pending != [] {
      assert InLane(w.mem, w.mem.pending[0].id);
      JobIds(w);
      hide Lined, MayHaveBroadcast;
      var job := w.mem.jobs[w.mem.lane.value.item.id];
      var saved := Save(w, if job.queue.Some? then job.(queue := Some(Finished)) else job);
      var first := saved.mem.jobs[w.mem.pending[0].id];
      var taken := saved.(mem := saved.mem.(pending := w.mem.pending[1..], lane := Some(Lane(w.mem.pending[0], Unannounced, false))));
      RefreshOnlyQueues(Save(taken, Pushed(first.(queue := Some(Active)), first.phase, OtherLabel, None)), 0);
    }
  }
}
