/**
 The demo's rate limiter. The limits come from the environment and may be any finite
 positive numbers, so the bounds are in terms of their ceilings.
 */
module RateLimiter {
  import opened Collections
  import opened Money

  datatype Bucket = Bucket(start: real, count: nat)

  /** One admitted call, with the window it was counted in. */
  datatype Admission = Admission(ip: string, time: real, start: real)

  datatype Book = Book(buckets: map<string, Bucket>, admitted: seq<Admission>)

  lemma BelowCeiling(n: int, x: real)
    ensures n as real < x <==> n + 1 <= Ceiling(x)
  {
  }

  /** The window a call falls in: a new one once the old is `windowMs` old. */
  function Current(buckets: map<string, Bucket>, ip: string, now: real, windowMs: real): Bucket {
    if ip !in buckets || now - buckets[ip].start >= windowMs then Bucket(now, 0) else buckets[ip]
  }

  function Record(book: Book, ip: string, now: real, windowMs: real): Book {
    var current := Current(book.buckets, ip, now, windowMs);
    Book(book.buckets[ip := Bucket(current.start, current.count + 1)], book.admitted + [Admission(ip, now, current.start)])
  }

  lemma RecordIs(book: Book, ip: string, now: real, windowMs: real)
    ensures var current := Current(book.buckets, ip, now, windowMs);
            Record(book, ip, now, windowMs) ==
            Book(book.buckets[ip := Bucket(current.start, current.count + 1)], book.admitted + [Admission(ip, now, current.start)])
  {
  }

  // ---------------------------------------------------------------------
  // Counting admissions
  // ---------------------------------------------------------------------

  function InWindow(ip: string, start: real): Admission -> bool {
    (a: Admission) => a.ip == ip && a.start == start
  }

  /** The calls of one address in a half-open interval. */
  function InInterval(ip: string, from: real, length: real): Admission -> bool {
    (a: Admission) => a.ip == ip && from <= a.time < from + length
  }

  function CountOf(keep: Admission -> bool, admitted: seq<Admission>): nat {
    |Filter(keep, admitted)|
  }

  lemma CountMore(keep: Admission -> bool, admitted: seq<Admission>, a: Admission)
    ensures CountOf(keep, admitted + [a]) == CountOf(keep, admitted) + if keep(a) then 1 else 0
  {
    assert (admitted + [a])[..|admitted|] == admitted;
  }

  lemma {:induction false} CountsNone(keep: Admission -> bool, admitted: seq<Admission>)
    requires forall a :: a in admitted ==> !keep(a)
    ensures CountOf(keep, admitted) == 0
  {
    if admitted != [] {
      assert admitted == admitted[..|admitted| - 1] + [admitted[|admitted| - 1]];
      assert admitted[|admitted| - 1] in admitted;
      CountsNone(keep, admitted[..|admitted| - 1]);
    }
  }

  lemma {:induction false} CountSplits(p: Admission -> bool, q: Admission -> bool, r: Admission -> bool, admitted: seq<Admission>)
    requires forall a :: a in admitted && p(a) ==> q(a) || r(a)
    ensures CountOf(p, admitted) <= CountOf(q, admitted) + CountOf(r, admitted)
  {
    if admitted != [] {
      var front, last := admitted[..|admitted| - 1], admitted[|admitted| - 1];
      assert admitted == front + [last];
      assert forall a :: a in front ==> a in admitted;
      CountSplits(p, q, r, front);
      assert last in admitted;
    }
  }

  /** Windows of one address lie `windowMs` apart, hold their calls, and none holds more than the limit. */
  ghost predicate Spaced(admitted: seq<Admission>, windowMs: real, limit: int) {
    && (forall a :: a in admitted ==> a.start <= a.time < a.start + windowMs)
    && (forall a, b :: a in admitted && b in admitted && a.ip == b.ip ==>
                         a.start == b.start || a.start + windowMs <= b.start || b.start + windowMs <= a.start)
    && (forall ip, start :: CountOf(InWindow(ip, start), admitted) <= limit)
  }

  /** Calls of one address in one interval fall in at most two windows. */
  lemma TwoWindows(a: Admission, b: Admission, c: Admission, admitted: seq<Admission>, windowMs: real, limit: int, from: real)
    requires Spaced(admitted, windowMs, limit) && a in admitted && b in admitted && c in admitted && a.ip == b.ip == c.ip
    requires from <= a.time < from + windowMs && from <= b.time < from + windowMs && from <= c.time < from + windowMs
    ensures a.start == b.start || c.start == a.start || c.start == b.start
  {
  }

  /** No interval of the window's length admits more than twice the limit from one address. */
  lemma IntervalBound(admitted: seq<Admission>, windowMs: real, limit: int, ip: string, from: real)
    requires Spaced(admitted, windowMs, limit) && limit >= 0
    ensures CountOf(InInterval(ip, from, windowMs), admitted) <= 2 * limit
  {
    var inside := InInterval(ip, from, windowMs);
    FilterFacts(inside, admitted);
    var found := Filter(inside, admitted);
    if found != [] {
      var a := found[0];
      assert a in found;
      var b := if x :| x in found && x.start != a.start then x else a;
      forall c | c in admitted && inside(c) ensures InWindow(ip, a.start)(c) || InWindow(ip, b.start)(c) {
        assert c in found;
        if a.start != b.start {
          TwoWindows(a, b, c, admitted, windowMs, limit, from);
        }
      }
      CountSplits(inside, InWindow(ip, a.start), InWindow(ip, b.start), admitted);
      assert CountOf(InWindow(ip, a.start), admitted) <= limit && CountOf(InWindow(ip, b.start), admitted) <= limit;
    }
  }

  // ---------------------------------------------------------------------
  // The book
  // ---------------------------------------------------------------------

  /** Each admission was made by now, in the latest window of its address or at least one length before it. */
  ghost predicate Latest(book: Book, windowMs: real, clock: real) {
    && (forall a :: a in book.admitted ==> a.ip in book.buckets && a.start <= clock)
    && (forall a :: a in book.admitted ==>
                      a.start == book.buckets[a.ip].start || a.start + windowMs <= book.buckets[a.ip].start)
    && (forall ip :: ip in book.buckets ==> book.buckets[ip].start <= clock)
  }

  /** Buckets count the admissions of the latest windows. */
  ghost predicate Counted(book: Book) {
    forall ip :: ip in book.buckets ==> CountOf(InWindow(ip, book.buckets[ip].start), book.admitted) == book.buckets[ip].count
  }

  ghost predicate Consistent(book: Book, windowMs: real, limit: int, clock: real) {
    Spaced(book.admitted, windowMs, limit) && Latest(book, windowMs, clock) && Counted(book)
  }

  lemma NothingAdmitted(windowMs: real, limit: int, clock: real)
    requires limit >= 0
    ensures Consistent(Book(map[], []), windowMs, limit, clock)
  {
  }

  /** How many calls the current window already holds. */
  lemma CurrentCount(book: Book, windowMs: real, limit: int, clock: real, ip: string, now: real)
    requires Consistent(book, windowMs, limit, clock) && clock <= now && windowMs > 0.0
    ensures var current := Current(book.buckets, ip, now, windowMs);
            && CountOf(InWindow(ip, current.start), book.admitted) == current.count
            && current.start <= now < current.start + windowMs
            && forall a :: a in book.admitted && a.ip == ip ==> a.start == current.start || a.start + windowMs <= current.start
  {
    hide CountOf, Spaced;
    var current := Current(book.buckets, ip, now, windowMs);
    if ip !in book.buckets || now - book.buckets[ip].start >= windowMs {
      forall a | a in book.admitted ensures a.ip != ip || a.start != current.start {}
      CountsNone(InWindow(ip, current.start), book.admitted);
    }
  }

  lemma RecordKeeps(book: Book, windowMs: real, limit: int, clock: real, ip: string, now: real)
    requires Consistent(book, windowMs, limit, clock) && clock <= now && windowMs > 0.0
    requires Current(book.buckets, ip, now, windowMs).count < limit
    ensures Consistent(Record(book, ip, now, windowMs), windowMs, limit, now)
  {
    hide CountOf, Spaced, Latest, Counted, InWindow, Current, Record;
    CurrentCount(book, windowMs, limit, clock, ip, now);
    RecordIs(book, ip, now, windowMs);
    var current := Current(book.buckets, ip, now, windowMs);
    SpacedKeeps(book, windowMs, limit, Admission(ip, now, current.start));
    LatestKeeps(book, windowMs, clock, ip, current, now);
    CountedKeeps(book, ip, current, now);
  }

  lemma LatestKeeps(book: Book, windowMs: real, clock: real, ip: string, current: Bucket, now: real)
    requires Latest(book, windowMs, clock) && clock <= now && current.start <= now
    requires forall a :: a in book.admitted && a.ip == ip ==> a.start == current.start || a.start + windowMs <= current.start
    ensures Latest(Book(book.buckets[ip := Bucket(current.start, current.count + 1)], book.admitted + [Admission(ip, now, current.start)]), windowMs, now)
  {
    var next := Book(book.buckets[ip := Bucket(current.start, current.count + 1)], book.admitted + [Admission(ip, now, current.start)]);
    forall a | a in next.admitted
      ensures a.ip in next.buckets && a.start <= now
      ensures a.start == next.buckets[a.ip].start || a.start + windowMs <= next.buckets[a.ip].start
    {
      if a in book.admitted { assert a.ip in book.buckets; }
    }
  }

  lemma CountedKeeps(book: Book, ip: string, current: Bucket, now: real)
    requires Counted(book) && CountOf(InWindow(ip, current.start), book.admitted) == current.count
    ensures Counted(Book(book.buckets[ip := Bucket(current.start, current.count + 1)], book.admitted + [Admission(ip, now, current.start)]))
  {
    var a := Admission(ip, now, current.start);
    var next := Book(book.buckets[ip := Bucket(current.start, current.count + 1)], book.admitted + [a]);
    forall who | who in next.buckets ensures CountOf(InWindow(who, next.buckets[who].start), next.admitted) == next.buckets[who].count {
      CountMore(InWindow(who, next.buckets[who].start), book.admitted, a);
      hide CountOf;
    }
  }

  lemma SpacedKeeps(book: Book, windowMs: real, limit: int, a: Admission)
    requires Spaced(book.admitted, windowMs, limit) && a.start <= a.time < a.start + windowMs
    requires forall x :: x in book.admitted && x.ip == a.ip ==> x.start == a.start || x.start + windowMs <= a.start
    requires CountOf(InWindow(a.ip, a.start), book.admitted) < limit
    ensures Spaced(book.admitted + [a], windowMs, limit)
  {
    var more := book.admitted + [a];
    assert forall x :: x in more <==> x in book.admitted || x == a;
    forall ip: string, start: real ensures CountOf(InWindow(ip, start), more) <= limit {
      CountMore(InWindow(ip, start), book.admitted, a);
    }
    hide CountOf;
  }

  // ---------------------------------------------------------------------
  // Whole runs
  // ---------------------------------------------------------------------

  /** One call of `enter`; `busy` when too many runs are active. */
  datatype Call = Call(ip: string, now: real, busy: bool)

  predicate Admits(book: Book, c: Call, windowMs: real, maxPerWindow: real) {
    (Current(book.buckets, c.ip, c.now, windowMs).count as real) < maxPerWindow && !c.busy
  }

  /** The book after a run of calls, whatever the clock said at each. */
  function Serve(calls: seq<Call>, windowMs: real, maxPerWindow: real): Book {
    if calls == [] then Book(map[], [])
    else
      var book, c := Serve(calls[..|calls| - 1], windowMs, maxPerWindow), calls[|calls| - 1];
      if Admits(book, c, windowMs, maxPerWindow) then Record(book, c.ip, c.now, windowMs) else book
  }

  lemma ServeMore(calls: seq<Call>, c: Call, windowMs: real, maxPerWindow: real)
    ensures var book := Serve(calls, windowMs, maxPerWindow);
            Serve(calls + [c], windowMs, maxPerWindow) ==
            if Admits(book, c, windowMs, maxPerWindow) then Record(book, c.ip, c.now, windowMs) else book
  {
    assert (calls + [c])[..|calls|] == calls;
  }

  /** The clock did not step back from one admission to a later one. */
  predicate InOrder(admitted: seq<Admission>) {
    forall i, j :: 0 <= i < j < |admitted| ==> admitted[i].time <= admitted[j].time
  }

  lemma {:induction false} InOrderIsConsistent(calls: seq<Call>, windowMs: real, maxPerWindow: real, clock: real)
    requires windowMs > 0.0 && maxPerWindow > 0.0 && InOrder(Serve(calls, windowMs, maxPerWindow).admitted)
    requires forall a :: a in Serve(calls, windowMs, maxPerWindow).admitted ==> a.time <= clock
    ensures Consistent(Serve(calls, windowMs, maxPerWindow), windowMs, Ceiling(maxPerWindow), clock)
  {
    hide Consistent, Ceiling, Current, Record;
    if calls == [] {
      BelowCeiling(0, maxPerWindow);
      NothingAdmitted(windowMs, Ceiling(maxPerWindow), clock);
    } else {
      var front, c := calls[..|calls| - 1], calls[|calls| - 1];
      var book := Serve(front, windowMs, maxPerWindow);
      if Admits(book, c, windowMs, maxPerWindow) {
        RecordIs(book, c.ip, c.now, windowMs);
        AppendedInOrder(book.admitted, Admission(c.ip, c.now, Current(book.buckets, c.ip, c.now, windowMs).start));
        InOrderIsConsistent(front, windowMs, maxPerWindow, c.now);
        BelowCeiling(Current(book.buckets, c.ip, c.now, windowMs).count, maxPerWindow);
        RecordKeeps(book, windowMs, Ceiling(maxPerWindow), c.now, c.ip, c.now);
        LaterClock(Record(book, c.ip, c.now, windowMs), windowMs, Ceiling(maxPerWindow), c.now, clock);
      } else {
        InOrderIsConsistent(front, windowMs, maxPerWindow, clock);
      }
    }
  }

  lemma AppendedInOrder(admitted: seq<Admission>, a: Admission)
    requires InOrder(admitted + [a])
    ensures InOrder(admitted) && forall x :: x in admitted ==> x.time <= a.time
  {
    var more := admitted + [a];
    assert forall i :: 0 <= i < |admitted| ==> more[i] == admitted[i];
    assert more[|admitted|] == a;
  }

  lemma LaterClock(book: Book, windowMs: real, limit: int, clock: real, later: real)
    requires Consistent(book, windowMs, limit, clock) && clock <= later
    ensures Consistent(book, windowMs, limit, later)
  {
    hide Spaced, Counted;
  }

  /** While admissions come in clock order, no interval of the window's length holds more than twice the limit. */
  lemma InOrderBound(calls: seq<Call>, windowMs: real, maxPerWindow: real, ip: string, from: real)
    requires windowMs > 0.0 && maxPerWindow > 0.0 && InOrder(Serve(calls, windowMs, maxPerWindow).admitted)
    ensures CountOf(InInterval(ip, from, windowMs), Serve(calls, windowMs, maxPerWindow).admitted) <= 2 * Ceiling(maxPerWindow)
  {
    hide Serve, Ceiling;
    var admitted := Serve(calls, windowMs, maxPerWindow).admitted;
    BelowCeiling(0, maxPerWindow);
    InOrderIsConsistent(calls, windowMs, maxPerWindow, if admitted == [] then 0.0 else admitted[|admitted| - 1].time);
    IntervalBound(admitted, windowMs, Ceiling(maxPerWindow), ip, from);
  }

  // ---------------------------------------------------------------------
  // A limit of one, on any clock
  // ---------------------------------------------------------------------

  predicate Apart(admitted: seq<Admission>, windowMs: real) {
    forall i, j :: 0 <= i < j < |admitted| && admitted[i].ip == admitted[j].ip ==> admitted[i].time + windowMs <= admitted[j].time
  }

  /** Every bucket was opened by the last call of its address. */
  ghost predicate LastOpened(book: Book) {
    && (forall ip :: ip in book.buckets ==> book.buckets[ip].count >= 1)
    && (forall a :: a in book.admitted ==> a.ip in book.buckets && a.time <= book.buckets[a.ip].start)
  }

  lemma {:induction false} OneAtATime(calls: seq<Call>, windowMs: real, maxPerWindow: real)
    requires windowMs > 0.0 && Ceiling(maxPerWindow) == 1
    ensures Apart(Serve(calls, windowMs, maxPerWindow).admitted, windowMs) && LastOpened(Serve(calls, windowMs, maxPerWindow))
  {
    if calls != [] {
      var front, c := calls[..|calls| - 1], calls[|calls| - 1];
      var book := Serve(front, windowMs, maxPerWindow);
      OneAtATime(front, windowMs, maxPerWindow);
      if Admits(book, c, windowMs, maxPerWindow) {
        BelowCeiling(Current(book.buckets, c.ip, c.now, windowMs).count, maxPerWindow);
        hide Ceiling, Admits, Serve;
        OneMoreApart(book, c.ip, c.now, windowMs);
      }
    }
  }

  lemma OneMoreApart(book: Book, ip: string, now: real, windowMs: real)
    requires windowMs > 0.0 && Apart(book.admitted, windowMs) && LastOpened(book)
    requires Current(book.buckets, ip, now, windowMs).count == 0
    ensures Apart(Record(book, ip, now, windowMs).admitted, windowMs) && LastOpened(Record(book, ip, now, windowMs))
  {
    var next := Record(book, ip, now, windowMs);
    forall a | a in next.admitted ensures a.ip in next.buckets && a.time <= next.buckets[a.ip].start {
      if a in book.admitted { assert a.ip in book.buckets; }
    }
    forall a | a in book.admitted && a.ip == ip ensures a.time + windowMs <= now {}
  }

  lemma {:induction false} ApartBound(admitted: seq<Admission>, windowMs: real, ip: string, from: real)
    requires Apart(admitted, windowMs)
    ensures CountOf(InInterval(ip, from, windowMs), admitted) <= 1
  {
    if admitted != [] {
      var front, last := admitted[..|admitted| - 1], admitted[|admitted| - 1];
      var inside := InInterval(ip, from, windowMs);
      assert admitted == front + [last];
      CountMore(inside, front, last);
      if inside(last) {
        forall a | a in front ensures !inside(a) {
          var i :| 0 <= i < |front| && front[i] == a;
          assert admitted[i] == a;
        }
        CountsNone(inside, front);
      } else {
        ApartBound(front, windowMs, ip, from);
      }
    }
  }

  // ---------------------------------------------------------------------
  // A greater limit, on a clock that steps back
  // ---------------------------------------------------------------------

  function RoundTime(windowMs: real, n: nat): real {
    if n == 0 then 0.0 else RoundTime(windowMs, n - 1) + windowMs
  }

  /** Each round: one call a window later, and one with the clock back at zero. */
  function Rounds(ip: string, windowMs: real, n: nat): seq<Call> {
    if n == 0 then []
    else Rounds(ip, windowMs, n - 1) + [Call(ip, RoundTime(windowMs, n), false)] + [Call(ip, 0.0, false)]
  }

  lemma ServeNone(windowMs: real, maxPerWindow: real)
    ensures Serve([], windowMs, maxPerWindow) == Book(map[], []) && forall keep :: CountOf(keep, []) == 0
  {
  }

  /** With room for two calls in a window both are admitted, so the first window takes any number of calls. */
  lemma {:induction false} SteppedClockAdmitsAnyNumber(ip: string, windowMs: real, maxPerWindow: real, n: nat)
    requires windowMs > 0.0 && Ceiling(maxPerWindow) >= 2
    ensures var book := Serve(Rounds(ip, windowMs, n), windowMs, maxPerWindow);
            && book.buckets == (if n == 0 then map[] else map[ip := Bucket(RoundTime(windowMs, n), 2)])
            && CountOf(InInterval(ip, 0.0, windowMs), book.admitted) == n
    ensures RoundTime(windowMs, n) >= 0.0
  {
    hide Ceiling, CountOf, Serve, Admits, Record, InInterval;
    ServeNone(windowMs, maxPerWindow);
    if n > 0 {
      SteppedClockAdmitsAnyNumber(ip, windowMs, maxPerWindow, n - 1);
      var calls, now := Rounds(ip, windowMs, n - 1), RoundTime(windowMs, n);
      var before := Serve(calls, windowMs, maxPerWindow);
      LateCall(before, ip, windowMs, maxPerWindow, now);
      EarlyCall(Record(before, ip, now, windowMs), ip, windowMs, maxPerWindow, now);
      ServeMore(calls, Call(ip, now, false), windowMs, maxPerWindow);
      ServeMore(calls + [Call(ip, now, false)], Call(ip, 0.0, false), windowMs, maxPerWindow);
    }
  }

  /** The call a window later opens a new window. */
  lemma LateCall(before: Book, ip: string, windowMs: real, maxPerWindow: real, now: real)
    requires windowMs > 0.0 && Ceiling(maxPerWindow) >= 2 && now >= windowMs
    requires before.buckets == map[] || before.buckets == map[ip := Bucket(now - windowMs, 2)]
    ensures Admits(before, Call(ip, now, false), windowMs, maxPerWindow)
    ensures var after := Record(before, ip, now, windowMs);
            && after.buckets == map[ip := Bucket(now, 1)]
            && CountOf(InInterval(ip, 0.0, windowMs), after.admitted) == CountOf(InInterval(ip, 0.0, windowMs), before.admitted)
  {
    hide CountOf, Ceiling;
    BelowCeiling(0, maxPerWindow);
    CountMore(InInterval(ip, 0.0, windowMs), before.admitted, Admission(ip, now, now));
  }

  /** The call with the clock back at zero falls in that window. */
  lemma EarlyCall(before: Book, ip: string, windowMs: real, maxPerWindow: real, now: real)
    requires windowMs > 0.0 && Ceiling(maxPerWindow) >= 2 && now >= windowMs && before.buckets == map[ip := Bucket(now, 1)]
    ensures Admits(before, Call(ip, 0.0, false), windowMs, maxPerWindow)
    ensures var after := Record(before, ip, 0.0, windowMs);
            && after.buckets == map[ip := Bucket(now, 2)]
            && CountOf(InInterval(ip, 0.0, windowMs), after.admitted) == CountOf(InInterval(ip, 0.0, windowMs), before.admitted) + 1
  {
    hide CountOf, Ceiling;
    BelowCeiling(1, maxPerWindow);
    CountMore(InInterval(ip, 0.0, windowMs), before.admitted, Admission(ip, 0.0, now));
  }

  /**
   On clocks that may step back, some number bounds the calls of an address in every
   interval of the window's length exactly when the limit lets one call into a window.
   */
  lemma AnyClockBoundExactly(windowMs: real, maxPerWindow: real, bound: nat)
    requires windowMs > 0.0 && maxPerWindow > 0.0 && bound >= 1
    ensures (forall calls: seq<Call>, ip: string, from: real ::
               CountOf(InInterval(ip, from, windowMs), Serve(calls, windowMs, maxPerWindow).admitted) <= bound)
            <==> Ceiling(maxPerWindow) == 1
  {
    hide Serve, CountOf, Ceiling;
    BelowCeiling(0, maxPerWindow);
    if Ceiling(maxPerWindow) == 1 {
      forall calls: seq<Call>, ip: string, from: real
        ensures CountOf(InInterval(ip, from, windowMs), Serve(calls, windowMs, maxPerWindow).admitted) <= bound
      {
        OneAtATime(calls, windowMs, maxPerWindow);
        ApartBound(Serve(calls, windowMs, maxPerWindow).admitted, windowMs, ip, from);
      }
    } else {
      SteppedClockAdmitsAnyNumber("", windowMs, maxPerWindow, bound + 1);
      assert CountOf(InInterval("", 0.0, windowMs), Serve(Rounds("", windowMs, bound + 1), windowMs, maxPerWindow).admitted) > bound;
    }
  }

  // ---------------------------------------------------------------------
  // The limiter
  // ---------------------------------------------------------------------

  datatype Entered = Admitted(lease: Lease) | TooMany | Busy

  class DemoRateLimiter {
    const maxPerWindow: real
    const windowMs: real
    const maxConcurrent: real
    var buckets: map<string, Bucket>
    var active: int
    ghost var calls: seq<Call>
    ghost var admitted: seq<Admission>
    ghost var leases: set<Lease>

    ghost function Unreleased(): set<Lease>
      reads this, leases
    {
      set l | l in leases && !l.left
    }

    /** `active` counts the unreleased leases, within the limit, and the book is that of the calls so far. */
    ghost predicate Valid()
      reads this, leases
    {
      && maxPerWindow > 0.0 && windowMs > 0.0 && maxConcurrent > 0.0
      && active == |Unreleased()| <= Ceiling(maxConcurrent)
      && (forall l :: l in leases ==> l.limiter == this)
      && Book(buckets, admitted) == Serve(calls, windowMs, maxPerWindow)
    }

    constructor (maxPerWindow: real, windowMs: real, maxConcurrent: real)
      requires maxPerWindow > 0.0 && windowMs > 0.0 && maxConcurrent > 0.0
      ensures Valid() && leases == {} && calls == [] && admitted == []
      ensures this.maxPerWindow == maxPerWindow && this.windowMs == windowMs && this.maxConcurrent == maxConcurrent
    {
      this.maxPerWindow := maxPerWindow;
      this.windowMs := windowMs;
      this.maxConcurrent := maxConcurrent;
      buckets := map[];
      active := 0;
      calls := [];
      admitted := [];
      leases := {};
      new;
      BelowCeiling(0, maxConcurrent);
      assert Unreleased() == {};
    }

    /** A refused call changes nothing; an admitted one is counted and holds a lease. */
    method Enter(ip: string, now: real) returns (r: Entered)
      requires Valid()
      modifies this
      ensures Valid()
      ensures calls == old(calls) + [Call(ip, now, old(active) as real >= maxConcurrent)]
      ensures r.TooMany? <==> old(Current(buckets, ip, now, windowMs)).count as real >= maxPerWindow
      ensures r.Busy? <==> !r.TooMany? && old(active) as real >= maxConcurrent
      ensures !r.Admitted? ==>
                buckets == old(buckets) && active == old(active) && admitted == old(admitted) && leases == old(leases)
      ensures r.Admitted? ==>
                && fresh(r.lease) && !r.lease.left && leases == old(leases) + {r.lease} && active == old(active) + 1
                && Book(buckets, admitted) == Record(Book(old(buckets), old(admitted)), ip, now, windowMs)
    {
      hide Serve, Ceiling, Current, Record;
      var current := Current(buckets, ip, now, windowMs);
      ghost var c := Call(ip, now, active as real >= maxConcurrent);
      ghost var book, before := Book(buckets, admitted), Unreleased();
      ServeMore(calls, c, windowMs, maxPerWindow);
      calls := calls + [c];
      assert Unreleased() == before;
      assert Admits(book, c, windowMs, maxPerWindow) <==> current.count as real < maxPerWindow && !c.busy;
      if current.count as real >= maxPerWindow {
        return TooMany;
      }
      if active as real >= maxConcurrent {
        return Busy;
      }
      BelowCeiling(active, maxConcurrent);
      RecordIs(book, ip, now, windowMs);
      buckets := buckets[ip := Bucket(current.start, current.count + 1)];
      admitted := admitted + [Admission(ip, now, current.start)];
      active := active + 1;
      var lease := new Lease(this);
      leases := leases + {lease};
      assert Unreleased() == before + {lease};
      r := Admitted(lease);
    }

    /** The whole-run bound: at every moment, over every interval of the window's length. */
    lemma AtMostTwiceTheLimit(ip: string, from: real)
      requires Valid() && (InOrder(admitted) || Ceiling(maxPerWindow) == 1)
      ensures CountOf(InInterval(ip, from, windowMs), admitted) <= 2 * Ceiling(maxPerWindow)
    {
      if InOrder(admitted) {
        InOrderBound(calls, windowMs, maxPerWindow, ip, from);
      } else {
        OneAtATime(calls, windowMs, maxPerWindow);
        ApartBound(admitted, windowMs, ip, from);
      }
    }
  }

  /** The function `enter` returns. */
  class Lease {
    const limiter: DemoRateLimiter
    var left: bool

    constructor (limiter: DemoRateLimiter)
      ensures this.limiter == limiter && !left
    {
      this.limiter := limiter;
      left := false;
    }

    /** Releasing twice changes nothing. */
    method Leave()
      requires this in limiter.leases && limiter.Valid()
      modifies this`left, limiter`active
      ensures limiter.Valid() && left
      ensures limiter.active == if old(left) then old(limiter.active) else old(limiter.active) - 1
      ensures limiter.Unreleased() == old(limiter.Unreleased()) - {this}
    {
      ghost var before := limiter.Unreleased();
      if !left {
        left := true;
        limiter.active := limiter.active - 1;
      }
      assert limiter.Unreleased() == before - {this};
    }
  }
}
