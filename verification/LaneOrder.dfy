/** The one lane serves its items in the order they came, over whole runs. */
module LaneOrder {
  import opened Collections
  import opened ProcurementModel
  import opened ProcurementSafety

  /** The item that runs, then those that wait. */
  function Line(mem: Memory): seq<Item> {
    (if mem.lane.Some? then [mem.lane.value.item] else []) + mem.pending
  }

  /** What a reply says was put in line. */
  function Queues(reply: Reply): seq<Item> {
    match reply
    case Started(id) => [Pay(id)]
    case Resuming(id) => [Recovery(id)]
    case _ => []
  }

  /** The item an action puts in line, by its reply. */
  function Joins(w: World, c: Config, a: Action): seq<Item> {
    match a
    case StartRequest(r) => Queues(Start(w, c, r).1)
    case RecoverRequest(id) => Queues(Recover(w, c, id).1)
    case _ => []
  }

  /** How many items an action takes out: one, when it cleans up after a settled run. */
  function Leaves(w: World, a: Action): nat {
    if a.RunCleanUp? && w.mem.lane.Some? && w.mem.lane.value.settled then 1 else 0
  }

  // ---------------------------------------------------------------------
  // One action
  // ---------------------------------------------------------------------

  /** Nothing waits for an idle lane, and every waiting item has its record. */
  ghost predicate Ready(w: World) {
    && (w.mem.lane.None? ==> w.mem.pending == [])
    && (forall i :: 0 <= i < |w.mem.pending| ==> w.mem.pending[i].id in w.mem.jobs)
    && (forall id :: id in w.mem.jobs ==> w.mem.jobs[id].id == id)
  }

  lemma InvReady(w: World, c: Config)
    requires Inv(w, c) && w.up
    ensures Ready(w) && (w.mem.lane.Some? ==> w.mem.lane.value.item.id in w.mem.jobs)
  {
    hide Durable, Mirrors, Indexed, Numbered, PaysOnce, DiskOf;
    JobIds(w);
    forall i | 0 <= i < |w.mem.pending| ensures w.mem.pending[i].id in w.mem.jobs {
      assert InLane(w.mem, w.mem.pending[i].id);
    }
  }

  lemma PumpLine(w: World)
    requires forall i :: 0 <= i < |w.mem.pending| ==> w.mem.pending[i].id in w.mem.jobs
    requires forall id :: id in w.mem.jobs ==> w.mem.jobs[id].id == id
    ensures Line(Pump(w).mem) == Line(w.mem)
  {
    if w.mem.lane.None? && w.mem.pending != [] {
      hide Refresh;
      PumpIs(w);
      RefreshOnlyQueues(Save(Take(w), Activated(w, w.mem.pending[0].id)), 0);
    }
  }

  lemma EnqueueLine(w: World, item: Item)
    requires Ready(w) && item.id in w.mem.jobs
    ensures Line(Enqueue(w, item).mem) == Line(w.mem) + [item]
  {
    hide Refresh, Pump;
    var added := w.(mem := w.mem.(pending := w.mem.pending + [item]));
    RefreshOnlyQueues(added, 0);
    RefreshIds(added, 0);
    PumpLine(Refresh(added, 0));
  }

  lemma {:induction false} RefreshIds(w: World, i: nat)
    requires forall id :: id in w.mem.jobs ==> w.mem.jobs[id].id == id
    ensures forall id :: id in Refresh(w, i).mem.jobs ==> Refresh(w, i).mem.jobs[id].id == id
    decreases |w.mem.pending| - i
  {
    if i < |w.mem.pending| && w.mem.pending[i].id in w.mem.jobs {
      RefreshIds(Save(w, w.mem.jobs[w.mem.pending[i].id].(queue := Some(Waiting(Some(i + 1))))), i + 1);
    }
  }

  lemma RecoverLine(w: World, c: Config, id: JobId)
    requires Ready(w)
    ensures Line(Recover(w, c, id).0.mem) == Line(w.mem) + Queues(Recover(w, c, id).1)
  {
    hide Enqueue;
    if id in w.mem.jobs && Recoverable(w.mem.jobs[id]) && !QueueFull(w, c) {
      EnqueueLine(Save(w, Resumed(w.mem.jobs[id])), Recovery(id));
    }
  }

  lemma CreateLine(w: World, r: Request)
    requires Ready(w)
    ensures Line(Create(w, r).mem) == Line(w.mem) + [Pay(r.newId)]
  {
    hide Enqueue;
    CreateIs(w, r);
    EnqueueLine(Registered(w, r), Pay(r.newId));
  }

  lemma StartLine(w: World, c: Config, r: Request)
    requires Ready(w)
    ensures Line(Start(w, c, r).0.mem) == Line(w.mem) + Queues(Start(w, c, r).1)
  {
    hide Recover, Create, Hydrate;
    if Existing(w, r).Some? {
      RecoverLine(w, c, Existing(w, r).value);
    } else {
      CreateLine(w.(mem := w.mem.(starts := Recent(w.mem.starts, r.now))), r);
    }
  }

  lemma RunStepLine(w: World, c: Config, a: RunAction)
    ensures Line(RunStep(w, c, a).mem) == Line(w.mem)
  {
  }

  lemma CleanUpLine(w: World, c: Config)
    requires Inv(w, c) && w.up
    ensures Line(CleanUp(w).mem) == Line(w.mem)[Leaves(w, RunCleanUp)..]
  {
    hide Inv;
    if w.mem.lane.Some? && w.mem.lane.value.settled {
      LaneIsFirstInFirstOut(w, c);
    }
  }

  /** Every action of a running process moves the line by its arrival and its departure, and by nothing else. */
  lemma LineMoves(w: World, c: Config, a: Action)
    requires Inv(w, c) && w.up && !a.Restart?
    ensures Leaves(w, a) <= |Line(w.mem)|
    ensures Line(Apply(w, c, a).mem) == (Line(w.mem) + Joins(w, c, a))[Leaves(w, a)..]
  {
    hide Inv, Line, Start, Recover, RunStep, CleanUp;
    InvReady(w, c);
    LineHolds(w);
    match a
    case StartRequest(r) => StartLine(w, c, r);
    case RecoverRequest(id) => RecoverLine(w, c, id);
    case RunAct(act) => RunStepLine(w, c, act);
    case RunCleanUp => CleanUpLine(w, c);
    case Observed(id) => SameLine(w.mem, Observe(w, id).mem);
    case RetryGivenUp(id) => SameLine(w.mem, FinalisationStopped(w, id).mem);
  }

  lemma LineHolds(w: World)
    ensures w.mem.lane.Some? ==> |Line(w.mem)| >= 1
  {
  }

  lemma SameLine(a: Memory, b: Memory)
    requires a.lane == b.lane && a.pending == b.pending
    ensures Line(a) == Line(b)
  {
  }

  // ---------------------------------------------------------------------
  // Whole runs
  // ---------------------------------------------------------------------

  /** From moment `k` to moment `m` the process lives: no crash, and so no restart. */
  ghost predicate StaysUp(ws: seq<World>, k: nat, m: nat)
    requires m < |ws|
  {
    forall i :: k <= i <= m ==> ws[i].up
  }

  function Arrivals(c: Config, ws: seq<World>, acts: seq<Action>, k: nat, m: nat): seq<Item>
    requires m < |ws| && |ws| == |acts| + 1
    decreases m
  {
    if m <= k then [] else Arrivals(c, ws, acts, k, m - 1) + Joins(ws[m - 1], c, acts[m - 1])
  }

  function Departures(ws: seq<World>, acts: seq<Action>, k: nat, m: nat): nat
    requires m < |ws| && |ws| == |acts| + 1
    decreases m
  {
    if m <= k then 0 else Departures(ws, acts, k, m - 1) + Leaves(ws[m - 1], acts[m - 1])
  }

  lemma DropAfter<T>(all: seq<T>, more: seq<T>, n: nat, d: nat)
    requires n <= |all| && d <= |all| - n
    ensures (all[n..] + more)[d..] == (all + more)[n + d..]
  {
  }

  lemma NoCrash(w: World, c: Config, a: Action, next: World)
    requires Step(w, c, a, next) && w.up && next.up
    ensures next == Apply(w, c, a) && !a.Restart?
  {
    hide Apply;
  }

  lemma FirstRuns(w: World, c: Config)
    requires Inv(w, c) && w.up
    ensures Line(w.mem) != [] ==> w.mem.lane.Some? && w.mem.lane.value.item == Line(w.mem)[0]
  {
    InvReady(w, c);
  }

  /** The line from moment `k` to moment `m`: who stood there and who came, less as many from the front as left. */
  ghost predicate Served(c: Config, ws: seq<World>, acts: seq<Action>, k: nat, m: nat)
    requires k < |ws| && m < |ws| && |ws| == |acts| + 1
  {
    var all, gone := Line(ws[k].mem) + Arrivals(c, ws, acts, k, m), Departures(ws, acts, k, m);
    gone <= |all| && Line(ws[m].mem) == all[gone..]
  }

  lemma ServedOneMore(c: Config, ws: seq<World>, acts: seq<Action>, k: nat, m: nat)
    requires k < m < |ws| && |ws| == |acts| + 1 && Served(c, ws, acts, k, m - 1)
    requires var w, a := ws[m - 1], acts[m - 1];
             Leaves(w, a) <= |Line(w.mem)| && Line(ws[m].mem) == (Line(w.mem) + Joins(w, c, a))[Leaves(w, a)..]
    ensures Served(c, ws, acts, k, m)
  {
    hide Joins, Leaves, Line;
    var joins, leaves := Joins(ws[m - 1], c, acts[m - 1]), Leaves(ws[m - 1], acts[m - 1]);
    var before, left := Line(ws[k].mem) + Arrivals(c, ws, acts, k, m - 1), Departures(ws, acts, k, m - 1);
    DropAfter(before, joins, left, leaves);
    assert Line(ws[k].mem) + Arrivals(c, ws, acts, k, m) == before + joins;
  }

  lemma {:induction false} ServedSince(c: Config, ws: seq<World>, acts: seq<Action>, k: nat, m: nat)
    requires Behaviour(c, ws, acts) && k <= m < |ws| && StaysUp(ws, k, m)
    ensures Served(c, ws, acts, k, m)
    decreases m
  {
    hide Inv, Apply, Joins, Leaves, Line;
    if k < m {
      hide Served, Arrivals, Departures;
      ServedSince(c, ws, acts, k, m - 1);
      BehaviourKeeps(c, ws, acts, m - 1, m);
      NoCrash(ws[m - 1], c, acts[m - 1], ws[m]);
      LineMoves(ws[m - 1], c, acts[m - 1]);
      ServedOneMore(c, ws, acts, k, m);
    }
  }

  /**
   While the process is up, the line is what stood there and whoever came since, in that
   order, less as many from the front as runs were cleaned up; and the item that runs is
   the first of them.
   */
  lemma ServedInOrder(c: Config, ws: seq<World>, acts: seq<Action>, k: nat, m: nat)
    requires Behaviour(c, ws, acts) && k <= m < |ws| && StaysUp(ws, k, m)
    ensures var all, gone := Line(ws[k].mem) + Arrivals(c, ws, acts, k, m), Departures(ws, acts, k, m);
            && gone <= |all| && Line(ws[m].mem) == all[gone..]
            && (gone < |all| ==> ws[m].mem.lane.Some? && ws[m].mem.lane.value.item == all[gone])
  {
    hide Inv, Behaviour, Arrivals, Departures, Line;
    ServedSince(c, ws, acts, k, m);
    BehaviourKeeps(c, ws, acts, m, m);
    FirstRuns(ws[m], c);
  }
}
