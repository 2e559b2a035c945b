/** The reply to a start request, exactly; and the hourly limit, over every run. */
module HourlyLimit {
  import opened Collections
  import opened Sorting
  import opened ProcurementModel
  import opened ProcurementSafety

  // ---------------------------------------------------------------------
  // Counting starts
  // ---------------------------------------------------------------------

  /** Less than an hour before `now`. */
  function Since(now: int): int -> bool {
    s => now - s < HOUR_MS
  }

  /** How many of the recorded starts lie less than an hour before `now`. */
  function StartsSince(starts: seq<int>, now: int): nat {
    |KeptIndices(Since(now), starts)|
  }

  lemma {:induction false} RecentIsFilter(starts: seq<int>, now: int)
    ensures Recent(starts, now) == Filter(Since(now), starts)
  {
    if starts != [] {
      RecentIsFilter(starts[1..], now);
      FilterConcat(Since(now), [starts[0]], starts[1..]);
      assert [starts[0]] + starts[1..] == starts;
      FilterOne(Since(now), starts[0]);
    }
  }

  lemma FilterOne<T>(keep: T -> bool, x: T)
    ensures Filter(keep, [x]) == if keep(x) then [x] else []
  {
    assert [x][..0] == [];
  }

  lemma {:induction false} FilterTwice<T>(p: T -> bool, q: T -> bool, s: seq<T>)
    requires forall x :: x in s && p(x) ==> q(x)
    ensures Filter(p, Filter(q, s)) == Filter(p, s)
  {
    if s != [] {
      var front, last := s[..|s| - 1], s[|s| - 1];
      assert forall x :: x in front ==> x in s;
      FilterTwice(p, q, front);
      assert last in s;
      if q(last) {
        FilterConcat(p, Filter(q, front), [last]);
        FilterOne(p, last);
        assert Filter(q, s) == Filter(q, front) + [last];
      } else {
        assert Filter(q, s) == Filter(q, front);
      }
    }
  }

  /** Forgetting old starts loses nothing that counts now or later. */
  lemma RecentCounts(starts: seq<int>, now: int, later: int)
    requires now <= later
    ensures |Recent(starts, now)| == StartsSince(starts, now)
    ensures StartsSince(Recent(starts, now), later) == StartsSince(starts, later)
  {
    RecentIsFilter(starts, now);
    KeptIndicesCount(Since(now), starts);
    KeptIndicesCount(Since(later), starts);
    KeptIndicesCount(Since(later), Recent(starts, now));
    FilterTwice(Since(later), Since(now), starts);
  }

  lemma OneMoreStart(starts: seq<int>, start: int, later: int)
    ensures StartsSince(starts + [start], later) == StartsSince(starts, later) + if later - start < HOUR_MS then 1 else 0
  {
    KeptIndicesCount(Since(later), starts);
    KeptIndicesCount(Since(later), starts + [start]);
    FilterConcat(Since(later), starts, [start]);
    FilterOne(Since(later), start);
  }

  // ---------------------------------------------------------------------
  // The reply
  // ---------------------------------------------------------------------

  /** No stored job has the request's key. */
  ghost predicate KeyUnused(w: World, r: Request) {
    forall id :: id in DiskOf(w.log) && DiskOf(w.log)[id].key.Some? && r.key.Some? ==> DiskOf(w.log)[id].key.value.keyHash != r.key.value.keyHash
  }

  /** A stored job has the request's key. */
  predicate HoldsKey(job: Job, r: Request) {
    job.key.Some? && r.key.Some? && job.key.value.keyHash == r.key.value.keyHash
  }

  /** Nothing runs or waits, or there is room to wait. */
  predicate HasRoom(w: World, c: Config) {
    (w.mem.lane == None && w.mem.pending == []) || |w.mem.pending| < c.queueLimit
  }

  /** A request under a new key starts a job, or is refused: 503 when unready, full or over the limit, 429 when vetoed. */
  lemma FreshReply(w: World, c: Config, r: Request)
    requires Inv(w, c) && w.up && KeyUnused(w, r)
    ensures var reply := Start(w, c, r).1;
            && (reply == Started(r.newId) <==>
                r.ready && HasRoom(w, c) && StartsSince(w.mem.starts, r.now) < c.hourlyLimit && r.allowed)
            && (reply == Refused(503) <==>
                !r.ready || !HasRoom(w, c) || StartsSince(w.mem.starts, r.now) >= c.hourlyLimit)
            && (reply == Refused(429) <==>
                r.ready && HasRoom(w, c) && StartsSince(w.mem.starts, r.now) < c.hourlyLimit && !r.allowed)
  {
    RecentCounts(w.mem.starts, r.now, r.now);
    NoExisting(w, r);
    hide Recent, StartsSince, Create, Inv, KeyUnused;
  }

  lemma NoExisting(w: World, r: Request)
    requires Lively(w)
    ensures KeyUnused(w, r) <==> Existing(w, r).None?
    ensures Existing(w, r).Some? ==> Existing(w, r).value in DiskOf(w.log) && HoldsKey(DiskOf(w.log)[Existing(w, r).value], r)
  {
    hide Lined, Numbered, PaysOnce, LogOk, DiskOf;
    if Existing(w, r).Some? {
      var id := Existing(w, r).value;
      assert MirrorsJob(w.mem.jobs[id], DiskOf(w.log)[id], id in w.mem.archived);
    } else if r.key.Some? {
      forall id | id in DiskOf(w.log) && DiskOf(w.log)[id].key.Some? ensures DiskOf(w.log)[id].key.value.keyHash != r.key.value.keyHash {
        assert MirrorsJob(w.mem.jobs[id], DiskOf(w.log)[id], id in w.mem.archived);
        assert KeyLeadsTo(w.mem.byKey, w.mem.jobs[id].key.value.keyHash, id);
      }
    }
  }

  /** What an aborted job needs to be recovered: its payment was broadcast, and it failed on its own side. */
  predicate CanRecover(job: Job) {
    && job.status == FailedJob && job.session == Some(AbortedBySelf)
    && exists i :: 0 <= i < |job.events| && job.events[i].mark == PaymentBroadcast && job.events[i].txRef.Some?
  }

  /** A request under a known key never starts a job: 409 for another input, else recovery, 503 when that has no room, or the job itself. */
  lemma ReplayReply(w: World, c: Config, r: Request, id: JobId)
    requires Inv(w, c) && w.up && id in DiskOf(w.log) && HoldsKey(DiskOf(w.log)[id], r)
    ensures var reply, job := Start(w, c, r).1, DiskOf(w.log)[id];
            reply == if job.key.value.inputHash != r.key.value.inputHash then Refused(409)
                     else if !CanRecover(job) then Replayed(id)
                     else if HasRoom(w, c) then Resuming(id)
                     else Refused(503)
  {
    ArchivedComplete(w, id);
    assert KeyLeadsTo(w.mem.byKey, r.key.value.keyHash, id);
    hide Enqueue, Durable, Lined, PaysOnce, Numbered;
  }

  /** A recovery request: 404 for no such job, 409 for one that cannot be recovered, 503 without room. */
  lemma RecoverReply(w: World, c: Config, id: JobId)
    requires Inv(w, c) && w.up
    ensures Recover(w, c, id).1 ==
            if id !in DiskOf(w.log) then Refused(404)
            else if !CanRecover(DiskOf(w.log)[id]) then Refused(409)
            else if HasRoom(w, c) then Resuming(id)
            else Refused(503)
  {
    if id in w.mem.jobs {
      ArchivedComplete(w, id);
    }
    hide Enqueue, Durable, Lined, PaysOnce, Numbered;
  }

  // ---------------------------------------------------------------------
  // Jobs and recorded starts
  // ---------------------------------------------------------------------

  /** The jobs created in the hour from `from` on. */
  function CreatedIn(disk: map<JobId, Job>, from: int): set<JobId> {
    set id | id in disk && from <= disk[id].createdAt < from + HOUR_MS
  }

  /** The jobs created less than an hour before `now`, or later. */
  function CreatedSince(disk: map<JobId, Job>, now: int): set<JobId> {
    set id | id in disk && now - disk[id].createdAt < HOUR_MS
  }

  ghost predicate CreatedBy(disk: map<JobId, Job>, clock: int) {
    forall id :: id in disk ==> disk[id].createdAt <= clock
  }

  ghost predicate HourBound(disk: map<JobId, Job>, limit: nat) {
    forall from: int :: |CreatedIn(disk, from)| <= limit
  }

  /** From `clock` on, the recorded starts account for every recent job. */
  ghost predicate StartsCover(disk: map<JobId, Job>, starts: seq<int>, clock: int) {
    forall now: int :: clock <= now ==> |CreatedSince(disk, now)| <= StartsSince(starts, now)
  }

  ghost predicate Limited(w: World, c: Config, clock: int) {
    var disk := DiskOf(w.log);
    CreatedBy(disk, clock) && HourBound(disk, c.hourlyLimit) && (w.up ==> StartsCover(disk, w.mem.starts, clock))
  }

  /** `b` holds only jobs of `a`, with their creation times. */
  ghost predicate OnlyJobsOf(a: map<JobId, Job>, b: map<JobId, Job>) {
    forall id :: id in b ==> id in a && b[id].createdAt == a[id].createdAt
  }

  lemma FewerJobs(a: map<JobId, Job>, b: map<JobId, Job>, limit: nat, clock: int)
    requires OnlyJobsOf(a, b)
    ensures CreatedBy(a, clock) ==> CreatedBy(b, clock)
    ensures HourBound(a, limit) ==> HourBound(b, limit)
    ensures forall starts :: StartsCover(a, starts, clock) ==> StartsCover(b, starts, clock)
  {
    forall from: int ensures |CreatedIn(b, from)| <= |CreatedIn(a, from)| { SubsetCard(CreatedIn(b, from), CreatedIn(a, from)); }
    forall now: int ensures |CreatedSince(b, now)| <= |CreatedSince(a, now)| { SubsetCard(CreatedSince(b, now), CreatedSince(a, now)); }
    hide CreatedIn, CreatedSince, StartsSince;
  }

  /** A new job fits into every hour, when fewer than the limit were recorded in the hour before it. */
  lemma OneMoreJob(disk: map<JobId, Job>, starts: seq<int>, limit: nat, clock: int, now: int, more: map<JobId, Job>, id: JobId)
    requires CreatedBy(disk, clock) && HourBound(disk, limit) && StartsCover(disk, starts, clock) && clock <= now
    requires StartsSince(starts, now) < limit && id !in disk
    requires id in more && more[id].createdAt == now && OnlyJobsOf(disk, more - {id})
    ensures CreatedBy(more, now) && HourBound(more, limit) && StartsCover(more, Recent(starts, now) + [now], now)
  {
    var rest := more - {id};
    FewerJobs(disk, rest, limit, clock);
    assert CreatedBy(more, now) by {
      assert forall x :: x in more ==> x == id || x in rest;
    }
    hide StartsSince, Recent, CreatedIn, CreatedSince, OnlyJobsOf, CreatedBy;
    forall from: int ensures |CreatedIn(more, from)| <= limit {
      HourWithNew(rest, starts, limit, clock, now, more, id, from);
    }
    forall later: int | now <= later ensures |CreatedSince(more, later)| <= StartsSince(Recent(starts, now) + [now], later) {
      SinceWithNew(rest, starts, clock, now, more, id, later);
    }
  }

  lemma SinceWithNew(rest: map<JobId, Job>, starts: seq<int>, clock: int, now: int, more: map<JobId, Job>, id: JobId, later: int)
    requires StartsCover(rest, starts, clock) && clock <= now <= later
    requires id in more && rest == more - {id} && more[id].createdAt == now
    ensures |CreatedSince(more, later)| <= StartsSince(Recent(starts, now) + [now], later)
  {
    hide StartsSince, Recent;
    RecentCounts(starts, now, later);
    OneMoreStart(Recent(starts, now), now, later);
    assert CreatedSince(more, later) == CreatedSince(rest, later) + if later - now < HOUR_MS then {id} else {};
    assert |CreatedSince(rest, later)| <= StartsSince(starts, later);
  }

  lemma HourWithNew(rest: map<JobId, Job>, starts: seq<int>, limit: nat, clock: int, now: int, more: map<JobId, Job>, id: JobId, from: int)
    requires HourBound(rest, limit) && StartsCover(rest, starts, clock) && clock <= now && StartsSince(starts, now) < limit
    requires id in more && rest == more - {id} && more[id].createdAt == now
    ensures |CreatedIn(more, from)| <= limit
  {
    hide StartsSince;
    if from <= now < from + HOUR_MS {
      assert CreatedIn(more, from) == CreatedIn(rest, from) + {id};
      SubsetCard(CreatedIn(rest, from), CreatedSince(rest, now));
      assert |CreatedSince(rest, now)| <= StartsSince(starts, now);
    } else {
      assert CreatedIn(more, from) == CreatedIn(rest, from);
    }
  }

  /** A refused request may still forget old starts. */
  lemma ForgetOld(disk: map<JobId, Job>, starts: seq<int>, clock: int, now: int)
    requires CreatedBy(disk, clock) && StartsCover(disk, starts, clock) && clock <= now
    ensures CreatedBy(disk, now) && StartsCover(disk, Recent(starts, now), now) && StartsCover(disk, starts, now)
  {
    hide CreatedSince, StartsSince, Recent;
    forall later: int | now <= later ensures |CreatedSince(disk, later)| <= StartsSince(Recent(starts, now), later) {
      RecentCounts(starts, now, later);
    }
  }

  // ---------------------------------------------------------------------
  // Actions that create nothing
  // ---------------------------------------------------------------------

  /** Neither the jobs nor the recorded starts change. */
  ghost predicate SameBooks(w: World, next: World) {
    && next.up == w.up && next.mem.jobs.Keys == w.mem.jobs.Keys && next.mem.starts == w.mem.starts
    && forall id :: id in next.mem.jobs ==> next.mem.jobs[id].id == id
  }

  lemma SaveBooks(w: World, job: Job)
    requires SameBooks(w, w) && job.id in w.mem.jobs
    ensures SameBooks(w, Save(w, job)) && Save(w, job).mem.pending == w.mem.pending
  {
  }

  lemma {:induction false} RefreshBooks(w: World, i: nat)
    requires SameBooks(w, w)
    ensures SameBooks(w, Refresh(w, i))
    decreases |w.mem.pending| - i
  {
    hide Save;
    if i < |w.mem.pending| && w.mem.pending[i].id in w.mem.jobs {
      var numbered := w.mem.jobs[w.mem.pending[i].id].(queue := Some(Waiting(Some(i + 1))));
      SaveBooks(w, numbered);
      RefreshBooks(Save(w, numbered), i + 1);
    }
  }

  lemma PumpBooks(w: World)
    requires SameBooks(w, w)
    ensures SameBooks(w, Pump(w))
  {
    hide Refresh;
    if w.mem.lane.None? && w.mem.pending != [] && w.mem.pending[0].id in w.mem.jobs {
      PumpIs(w);
      RefreshBooks(Save(Take(w), Activated(w, w.mem.pending[0].id)), 0);
    }
  }

  lemma EnqueueBooks(w: World, item: Item)
    requires SameBooks(w, w)
    ensures SameBooks(w, Enqueue(w, item))
  {
    hide Refresh, Pump;
    var added := w.(mem := w.mem.(pending := w.mem.pending + [item]));
    RefreshBooks(added, 0);
    PumpBooks(Refresh(added, 0));
  }

  lemma RecoverBooks(w: World, c: Config, id: JobId)
    requires SameBooks(w, w)
    ensures SameBooks(w, Recover(w, c, id).0)
  {
    hide Enqueue, BroadcastTx;
    if id in w.mem.jobs {
      EnqueueBooks(Save(w, Resumed(w.mem.jobs[id])), Recovery(id));
    }
  }

  lemma CleanUpBooks(w: World)
    requires SameBooks(w, w)
    ensures SameBooks(w, CleanUp(w))
  {
    hide Pump;
    if w.mem.lane.Some? && w.mem.lane.value.item.id in w.mem.jobs {
      var job := w.mem.jobs[w.mem.lane.value.item.id];
      var saved := Save(w, if job.queue.Some? then job.(queue := Some(Finished)) else job);
      PumpBooks(saved.(mem := saved.mem.(lane := None)));
    }
  }

  lemma RunStepBooks(w: World, c: Config, a: RunAction)
    requires SameBooks(w, w)
    ensures SameBooks(w, RunStep(w, c, a))
  {
    hide MayHaveBroadcast, BroadcastSeen;
  }

  lemma OtherBooks(w: World, id: JobId)
    requires SameBooks(w, w)
    ensures SameBooks(w, Observe(w, id)) && SameBooks(w, FinalisationStopped(w, id))
  {
  }

  lemma QuietBooks(w: World, c: Config, a: Action)
    requires Inv(w, c) && w.up && !a.Restart? && (a.StartRequest? ==> Existing(w, a.request).Some?)
    ensures SameBooks(w, Apply(w, c, a))
  {
    JobIds(w);
    hide Inv, Recover, RunStep, CleanUp, Observe, FinalisationStopped, Hydrate;
    match a
    case StartRequest(r) => RecoverBooks(w, c, Existing(w, r).value);
    case RecoverRequest(id) => RecoverBooks(w, c, id);
    case RunAct(act) => RunStepBooks(w, c, act);
    case RunCleanUp => CleanUpBooks(w);
    case Observed(id) => OtherBooks(w, id);
    case RetryGivenUp(id) => OtherBooks(w, id);
  }

  /** The disk after an action: the same jobs, for the same times, unless memory holds a new one. */
  lemma DiskFollows(w: World, c: Config, next: World)
    requires Inv(w, c) && w.up && Inv(next, c) && next.up && w.log <= next.log
    ensures DiskOf(next.log).Keys == next.mem.jobs.Keys && DiskOf(w.log).Keys == w.mem.jobs.Keys
    ensures forall id :: id in DiskOf(w.log) ==> id in DiskOf(next.log) && DiskOf(next.log)[id].createdAt == DiskOf(w.log)[id].createdAt
  {
    Prefix(next.log, |w.log|);
    assert next.log[..|w.log|] == w.log;
  }

  lemma QuietLimited(w: World, c: Config, a: Action, clock: int)
    requires Inv(w, c) && w.up && !a.Restart? && (a.StartRequest? ==> Existing(w, a.request).Some?)
    requires Enabled(w, a) && Limited(w, c, clock)
    ensures Limited(Apply(w, c, a), c, clock)
  {
    hide Inv, Apply, Enabled, DiskOf, CreatedBy, HourBound, StartsCover;
    var next := Apply(w, c, a);
    QuietBooks(w, c, a);
    ApplyKeeps(w, c, a);
    DiskFollows(w, c, next);
    FewerJobs(DiskOf(w.log), DiskOf(next.log), c.hourlyLimit, clock);
  }

  // ---------------------------------------------------------------------
  // Starting, restarting, crashing
  // ---------------------------------------------------------------------

  lemma CreateBooks(w: World, r: Request)
    requires SameBooks(w, w) && r.newId !in w.mem.jobs
    ensures var next := Create(w, r);
            next.up == w.up && next.mem.jobs.Keys == w.mem.jobs.Keys + {r.newId} && next.mem.starts == w.mem.starts + [r.now]
  {
    hide Enqueue;
    CreateIs(w, r);
    EnqueueBooks(Registered(w, r), Pay(r.newId));
  }

  /** The new job's record is written at once, with its creation time. */
  lemma CreatedOnDisk(w: World, r: Request)
    requires LogOk(Create(w, r).log) && w.log + [NewJob(r)] <= Create(w, r).log
    ensures var disk := DiskOf(Create(w, r).log); r.newId in disk && disk[r.newId].createdAt == r.now && disk[r.newId].key == r.key
  {
    var log := Create(w, r).log;
    hide Create;
    Prefix(log, |w.log| + 1);
    assert log[..|w.log| + 1] == w.log + [NewJob(r)];
    DiskAppend(w.log, NewJob(r));
  }

  lemma CreateWrites(w: World, c: Config, r: Request)
    requires Inv(w, c) && w.up && r.newId !in DiskOf(w.log) && Existing(w, r).None?
    ensures Registered(w, r).log <= Create(w, r).log && Registered(w, r).log == w.log + [NewJob(r)]
  {
    KeyIsFree(w, r);
    RegisteredSound(w, r);
    CreateIs(w, r);
    hide Lively, Sound, Enqueue, Create, Durable, DiskOf, Waits, RunsNow, InLane;
    EnqueueKeeps(Registered(w, r), Pay(r.newId));
  }

  lemma ForgottenInv(w: World, c: Config, starts: seq<int>)
    requires Inv(w, c) && w.up
    ensures Inv(w.(mem := w.mem.(starts := starts)), c)
  {
    StartsOnly(w, starts);
  }

  lemma StartLimited(w: World, c: Config, r: Request, clock: int)
    requires Inv(w, c) && w.up && r.newId !in DiskOf(w.log) && Existing(w, r).None?
    requires Limited(w, c, clock) && clock <= r.now
    ensures Limited(Start(w, c, r).0, c, r.now)
  {
    var recent := w.(mem := w.mem.(starts := Recent(w.mem.starts, r.now)));
    ForgetOld(DiskOf(w.log), w.mem.starts, clock, r.now);
    RecentCounts(w.mem.starts, r.now, r.now);
    hide Inv, Recent, StartsSince, CreatedBy, HourBound, StartsCover, Create, DiskOf, QueueFull;
    if r.ready && !QueueFull(w, c) && |recent.mem.starts| < c.hourlyLimit && r.allowed {
      CreatesOne(w, c, r, clock);
    }
  }

  function Forgetting(w: World, now: int): World {
    w.(mem := w.mem.(starts := Recent(w.mem.starts, now)))
  }

  /** What a created job adds to the disk and to the recorded starts. */
  lemma Creates(w: World, c: Config, r: Request)
    requires Inv(w, c) && w.up && r.newId !in DiskOf(w.log) && Existing(w, r).None? && !QueueFull(w, c)
    ensures var next := Create(Forgetting(w, r.now), r);
            var before, after := DiskOf(w.log), DiskOf(next.log);
            && next.up && next.mem.starts == Recent(w.mem.starts, r.now) + [r.now]
            && after.Keys == before.Keys + {r.newId} && after[r.newId].createdAt == r.now && after[r.newId].key == r.key
            && OnlyJobsOf(before, after - {r.newId})
  {
    var recent := Forgetting(w, r.now);
    ForgottenInv(w, c, recent.mem.starts);
    JobIds(recent);
    KeyIsFree(recent, r);
    assert DiskOf(w.log).Keys == w.mem.jobs.Keys;
    CreateBooks(recent, r);
    CreateKeeps(recent, c, r);
    CreateWrites(recent, c, r);
    hide Lively, Create, Registered, Recent;
    DiskFollows(recent, c, Create(recent, r));
    CreatedOnDisk(recent, r);
  }

  lemma CreatesOne(w: World, c: Config, r: Request, clock: int)
    requires Inv(w, c) && w.up && r.newId !in DiskOf(w.log) && Existing(w, r).None? && !QueueFull(w, c)
    requires Limited(w, c, clock) && clock <= r.now && StartsSince(w.mem.starts, r.now) < c.hourlyLimit
    ensures Limited(Create(Forgetting(w, r.now), r), c, r.now)
  {
    hide Inv, Existing, QueueFull, Create, Forgetting, Recent, StartsSince, CreatedBy, HourBound, StartsCover, DiskOf, OnlyJobsOf;
    Creates(w, c, r);
    OneMoreJob(DiskOf(w.log), w.mem.starts, c.hourlyLimit, clock, r.now, DiskOf(Create(Forgetting(w, r.now), r).log), r.newId);
  }

  /** Loading the files of a directory records every recent job. */
  lemma {:induction false} LoadCounts(w: World, c: Config, disk: map<JobId, Job>, files: seq<JobId>, kept: set<JobId>, now: int, later: int)
    requires NoRepeats(files) && (forall f :: f in files ==> f in disk) && now <= later && w.mem.starts == []
    ensures |set f | f in files && later - disk[f].createdAt < HOUR_MS| <= StartsSince(LoadAll(w, c, disk, files, kept, now).mem.starts, later)
  {
    hide LoadAll, Load, StartsSince, NoRepeats;
    if files == [] {
      assert (set f | f in files && later - disk[f].createdAt < HOUR_MS) == {};
    } else {
      var front, name := files[..|files| - 1], files[|files| - 1];
      var before := LoadAll(w, c, disk, front, kept, now);
      FrontOf(files);
      LoadCounts(w, c, disk, front, kept, now, later);
      LoadLast(w, c, disk, files, kept, now);
      LoadStart(before, c, disk[name], name in kept, now);
      OneMoreStart(before.mem.starts, disk[name].createdAt, later);
      var earlier := set f | f in front && later - disk[f].createdAt < HOUR_MS;
      assert before.mem.starts + [] == before.mem.starts;
      assert (set f | f in files && later - disk[f].createdAt < HOUR_MS) == earlier + if later - disk[name].createdAt < HOUR_MS then {name} else {};
    }
  }

  lemma FrontOf(files: seq<JobId>)
    requires NoRepeats(files) && files != []
    ensures NoRepeats(files[..|files| - 1])
    ensures forall f :: f in files <==> f in files[..|files| - 1] || f == files[|files| - 1]
  {
  }

  lemma LoadLast(w: World, c: Config, disk: map<JobId, Job>, files: seq<JobId>, kept: set<JobId>, now: int)
    requires files != [] && files[|files| - 1] in disk
    ensures LoadAll(w, c, disk, files, kept, now) ==
            Load(LoadAll(w, c, disk, files[..|files| - 1], kept, now), c, disk[files[|files| - 1]], files[|files| - 1] in kept, now)
  {
    hide Load;
  }

  lemma LoadStart(w: World, c: Config, job: Job, full: bool, now: int)
    ensures Load(w, c, job, full, now).mem.starts == w.mem.starts + if now - job.createdAt < HOUR_MS then [job.createdAt] else []
  {
    hide Interrupted, TakesKey;
  }

  lemma BootLimited(w: World, c: Config, files: seq<JobId>, kept: set<JobId>, clock: int, now: int)
    requires Inv(w, c) && Enabled(w, Restart(files, kept, now)) && Limited(w, c, clock) && clock <= now
    ensures Limited(Boot(w, c, files, kept, now), c, now)
  {
    var disk, next := DiskOf(w.log), Boot(w, c, files, kept, now);
    BootKeeps(w, c, files, kept, now);
    Prefix(next.log, |w.log|);
    assert next.log[..|w.log|] == w.log;
    var start := World(true, EMPTY_MEMORY, w.log, w.runStarts, w.handed);
    BootShows(w, c, files, kept, now);
    hide Inv, DiskOf, Boot, LoadAll, HourBound, StartsSince;
    forall later: int | now <= later ensures |CreatedSince(disk, later)| <= StartsSince(next.mem.starts, later) {
      forall f ensures f in disk <==> f in files { assert f in (set g | g in files) <==> f in files; }
      LoadCounts(start, c, disk, files, kept, now, later);
      assert CreatedSince(disk, later) == set f | f in files && later - disk[f].createdAt < HOUR_MS;
      BootIs(w, c, files, kept, now);
    }
    assert StartsCover(disk, next.mem.starts, now) && CreatedBy(disk, now);
    FewerJobs(disk, DiskOf(next.log), c.hourlyLimit, now);
  }

  lemma BootIs(w: World, c: Config, files: seq<JobId>, kept: set<JobId>, now: int)
    ensures Boot(w, c, files, kept, now) == LoadAll(World(true, EMPTY_MEMORY, w.log, w.runStarts, w.handed), c, DiskOf(w.log), files, kept, now)
  {
  }

  /** A restart adds no job. */
  lemma BootShows(w: World, c: Config, files: seq<JobId>, kept: set<JobId>, now: int)
    requires Inv(w, c) && Enabled(w, Restart(files, kept, now))
    ensures OnlyJobsOf(DiskOf(w.log), DiskOf(Boot(w, c, files, kept, now).log))
  {
    var start := World(true, EMPTY_MEMORY, w.log, w.runStarts, w.handed);
    DurableIgnoresMemory(w, start);
    LoadAllKeeps(start, c, DiskOf(w.log), files, kept, now);
    var next := Boot(w, c, files, kept, now);
    hide Durable, DiskOf, LoadAll, Indexed, Loaded;
    assert LogOk(next.log) by { BootKeeps(w, c, files, kept, now); LogIsKept(next, c); }
    Prefix(next.log, |w.log|);
    assert next.log[..|w.log|] == w.log;
  }

  lemma LogIsKept(w: World, c: Config)
    requires Inv(w, c)
    ensures LogOk(w.log)
  {
  }

  // ---------------------------------------------------------------------
  // Whole runs
  // ---------------------------------------------------------------------

  /** The clock an action reads. */
  function ClockOf(a: Action): Option<int> {
    match a
    case StartRequest(r) => Some(r.now)
    case Restart(_, _, now) => Some(now)
    case _ => None
  }

  /** The clock never reads less than it did, across restarts too. */
  ghost predicate SteadyClock(acts: seq<Action>) {
    forall i, j :: 0 <= i < j < |acts| && ClockOf(acts[i]).Some? && ClockOf(acts[j]).Some? ==>
                     ClockOf(acts[i]).value <= ClockOf(acts[j]).value
  }

  lemma ApplyLimited(w: World, c: Config, a: Action, clock: int)
    requires Inv(w, c) && Enabled(w, a) && Limited(w, c, clock) && clock <= ClockOf(a).GetOr(clock)
    ensures Limited(Apply(w, c, a), c, ClockOf(a).GetOr(clock))
  {
    hide Inv, Limited, Boot, Existing, DiskOf;
    if a.Restart? {
      BootLimited(w, c, a.files, a.kept, clock, a.now);
    } else if a.StartRequest? && Existing(w, a.request).None? {
      StartLimited(w, c, a.request, clock);
    } else {
      QuietLimited(w, c, a, clock);
      LaterLimited(Apply(w, c, a), c, clock, ClockOf(a).GetOr(clock));
    }
  }

  lemma LaterLimited(w: World, c: Config, clock: int, later: int)
    requires Limited(w, c, clock) && clock <= later
    ensures Limited(w, c, later)
  {
    hide DiskOf, HourBound, CreatedSince, StartsSince;
  }

  lemma StepLimited(w: World, c: Config, a: Action, next: World, clock: int)
    requires Inv(w, c) && Step(w, c, a, next) && Limited(w, c, clock) && clock <= ClockOf(a).GetOr(clock)
    ensures Limited(next, c, ClockOf(a).GetOr(clock))
  {
    ApplyLimited(w, c, a, clock);
    if next != Apply(w, c, a) {
      var n :| Crashed(w, Apply(w, c, a), n, next);
      ApplyKeeps(w, c, a);
      LogIsKept(Apply(w, c, a), c);
      Prefix(Apply(w, c, a).log, n);
      hide Inv, Apply, DiskOf, CreatedBy, HourBound, StartsCover;
      FewerJobs(DiskOf(Apply(w, c, a).log), DiskOf(next.log), c.hourlyLimit, ClockOf(a).GetOr(clock));
    }
  }

  lemma {:induction false} RunLimited(c: Config, ws: seq<World>, acts: seq<Action>, m: nat, clock: int)
    requires Behaviour(c, ws, acts) && SteadyClock(acts) && m < |ws|
    requires forall i :: 0 <= i < m && ClockOf(acts[i]).Some? ==> ClockOf(acts[i]).value <= clock
    ensures Limited(ws[m], c, clock)
  {
    if m == 0 {
      forall from: int ensures CreatedIn(map[], from) == {} {}
      assert DiskOf(FIRST_START.log) == map[];
    } else {
      hide Inv, Limited, Step;
      var a := acts[m - 1];
      var before := ClockOf(a).GetOr(clock);
      RunLimited(c, ws, acts, m - 1, before);
      BehaviourKeeps(c, ws, acts, m - 1, m - 1);
      StepLimited(ws[m - 1], c, a, ws[m], before);
      LaterLimited(ws[m], c, ClockOf(a).GetOr(before), clock);
    }
  }

  /**
   Over every run whose clock does not step back, through crashes and restarts: no hour
   holds more started jobs than the limit.
   */
  lemma HourlyLimitHolds(c: Config, ws: seq<World>, acts: seq<Action>, m: nat, from: int)
    requires Behaviour(c, ws, acts) && SteadyClock(acts) && m < |ws|
    ensures |CreatedIn(DiskOf(ws[m].log), from)| <= c.hourlyLimit
  {
    var clock := LastClock(acts, m);
    RunLimited(c, ws, acts, m, clock);
    hide DiskOf, CreatedBy, StartsCover, CreatedIn;
  }

  /** A bound of the clock readings so far. */
  lemma {:induction false} LastClock(acts: seq<Action>, m: nat) returns (clock: int)
    requires m <= |acts|
    ensures forall i :: 0 <= i < m && ClockOf(acts[i]).Some? ==> ClockOf(acts[i]).value <= clock
  {
    if m == 0 {
      clock := 0;
    } else {
      var before := LastClock(acts, m - 1);
      var last := ClockOf(acts[m - 1]).GetOr(before);
      clock := if before < last then last else before;
    }
  }

  /** A started job is on disk at once, as created now; any other reply to a request adds no job. */
  lemma StartedIsCreated(w: World, c: Config, r: Request)
    requires Inv(w, c) && w.up && r.newId !in DiskOf(w.log)
    ensures var (next, reply) := Start(w, c, r);
            var before, after := DiskOf(w.log), DiskOf(next.log);
            if reply == Started(r.newId) then
              after.Keys == before.Keys + {r.newId} && after[r.newId].createdAt == r.now && after[r.newId].key == r.key
            else after.Keys == before.Keys
  {
    if Existing(w, r).Some? {
      KnownNeverStarts(w, c, r);
      QuietBooks(w, c, StartRequest(r));
      ApplyKeeps(w, c, StartRequest(r));
      hide Inv, Start, DiskOf;
      DiskFollows(w, c, Start(w, c, r).0);
    } else {
      hide Inv, Start, DiskOf;
      NewJobOrNone(w, c, r);
    }
  }

  lemma KnownNeverStarts(w: World, c: Config, r: Request)
    requires Existing(w, r).Some?
    ensures !Start(w, c, r).1.Started?
  {
    hide Enqueue, Hydrate, Resumed;
  }

  lemma NewJobOrNone(w: World, c: Config, r: Request)
    requires Inv(w, c) && w.up && r.newId !in DiskOf(w.log) && Existing(w, r).None?
    ensures var (next, reply) := Start(w, c, r);
            var before, after := DiskOf(w.log), DiskOf(next.log);
            if reply == Started(r.newId) then
              after.Keys == before.Keys + {r.newId} && after[r.newId].createdAt == r.now && after[r.newId].key == r.key
            else after.Keys == before.Keys
  {
    hide DiskOf, Create, Inv;
    if Start(w, c, r).1 == Started(r.newId) {
      Creates(w, c, r);
    }
  }
}
