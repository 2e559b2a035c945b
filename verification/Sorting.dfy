/** A stable sort by any comparison, which is what `Array.prototype.sort` computes. */
module Sorting {
  import opened Collections

  ghost predicate TotalPreorder<T(!new)>(le: (T, T) -> bool) {
    && (forall a, b :: le(a, b) || le(b, a))
    && (forall a, b, c :: le(a, b) && le(b, c) ==> le(a, c))
  }

  ghost predicate Sorted<T>(le: (T, T) -> bool, s: seq<T>) {
    forall i, j :: 0 <= i < j < |s| ==> le(s[i], s[j])
  }

  /** Put `x` behind everything it does not precede. */
  function Insert<T>(le: (T, T) -> bool, s: seq<T>, x: T): seq<T> {
    if s == [] || le(s[|s| - 1], x) then s + [x]
    else Insert(le, s[..|s| - 1], x) + [s[|s| - 1]]
  }

  function Sort<T>(le: (T, T) -> bool, s: seq<T>): seq<T> {
    if s == [] then [] else Insert(le, Sort(le, s[..|s| - 1]), s[|s| - 1])
  }

  lemma {:induction false} InsertFacts<T>(le: (T, T) -> bool, s: seq<T>, x: T)
    ensures multiset(Insert(le, s, x)) == multiset(s) + multiset{x}
    ensures |Insert(le, s, x)| == |s| + 1
  {
    if s != [] && !le(s[|s| - 1], x) {
      InsertFacts(le, s[..|s| - 1], x);
      assert s == s[..|s| - 1] + [s[|s| - 1]];
    }
  }

  lemma {:induction false} InsertSorted<T(!new)>(le: (T, T) -> bool, s: seq<T>, x: T)
    requires TotalPreorder(le) && Sorted(le, s)
    ensures Sorted(le, Insert(le, s, x))
  {
    if s == [] {
    } else if le(s[|s| - 1], x) {
      forall i | 0 <= i < |s| ensures le(s[i], x) {
        assert i == |s| - 1 || le(s[i], s[|s| - 1]);
      }
    } else {
      var front, last := s[..|s| - 1], s[|s| - 1];
      InsertSorted(le, front, x);
      var r := Insert(le, front, x);
      forall i | 0 <= i < |r| ensures le(r[i], last) {
        InsertMembers(le, front, x, r[i]);
        assert r[i] in r;
      }
    }
  }

  lemma {:induction false} InsertMembers<T>(le: (T, T) -> bool, s: seq<T>, x: T, y: T)
    ensures y in Insert(le, s, x) <==> y in s || y == x
  {
    if s != [] && !le(s[|s| - 1], x) {
      InsertMembers(le, s[..|s| - 1], x, y);
    }
  }

  lemma {:induction false} SortFacts<T>(le: (T, T) -> bool, s: seq<T>)
    ensures multiset(Sort(le, s)) == multiset(s) && |Sort(le, s)| == |s|
    ensures forall x :: x in Sort(le, s) <==> x in s
  {
    if s != [] {
      var front, last := s[..|s| - 1], s[|s| - 1];
      SortFacts(le, front);
      InsertFacts(le, Sort(le, front), last);
      assert s == front + [last];
      forall x ensures x in Sort(le, s) <==> x in s {
        InsertMembers(le, Sort(le, front), last, x);
      }
    }
  }

  lemma {:induction false} SortSorted<T(!new)>(le: (T, T) -> bool, s: seq<T>)
    requires TotalPreorder(le)
    ensures Sorted(le, Sort(le, s))
  {
    if s != [] {
      SortSorted(le, s[..|s| - 1]);
      InsertSorted(le, Sort(le, s[..|s| - 1]), s[|s| - 1]);
    }
  }

  lemma LastIsGreatest<T(!new)>(le: (T, T) -> bool, s: seq<T>, x: T)
    requires TotalPreorder(le) && Sorted(le, s) && x in s
    ensures le(x, s[|s| - 1])
  {
    var i :| 0 <= i < |s| && s[i] == x;
  }

  // ---------------------------------------------------------------------
  // Where each element goes
  // ---------------------------------------------------------------------

  /** Element `j` comes before element `i` in the sorted order: it precedes it, or ties and came first. */
  predicate Outranks<T>(le: (T, T) -> bool, s: seq<T>, j: nat, i: nat)
    requires j < |s| && i < |s|
  {
    if j < i then le(s[j], s[i]) else j > i && !le(s[i], s[j])
  }

  function Ahead<T>(le: (T, T) -> bool, s: seq<T>, i: nat): set<nat>
    requires i < |s|
  {
    set j: nat | j < |s| && Outranks(le, s, j, i)
  }

  function Rank<T>(le: (T, T) -> bool, s: seq<T>, i: nat): nat
    requires i < |s|
  {
    |Ahead(le, s, i)|
  }

  lemma RankBeforeLast<T>(le: (T, T) -> bool, s: seq<T>, i: nat)
    requires i < |s| - 1
    ensures Rank(le, s, i) == Rank(le, s[..|s| - 1], i) + if le(s[i], s[|s| - 1]) then 0 else 1
  {
    var n := |s| - 1;
    forall j: nat | j < n ensures Outranks(le, s, j, i) <==> Outranks(le, s[..n], j, i) {}
    assert Ahead(le, s, i) == Ahead(le, s[..n], i) + if le(s[i], s[n]) then {} else {n};
  }

  function KeptIndices<T>(keep: T -> bool, s: seq<T>): set<nat> {
    set j: nat | j < |s| && keep(s[j])
  }

  lemma {:induction false} KeptIndicesCount<T>(keep: T -> bool, s: seq<T>)
    ensures |Filter(keep, s)| == |KeptIndices(keep, s)|
  {
    if s == [] {
      assert KeptIndices(keep, s) == {};
    } else {
      var n := |s| - 1;
      KeptIndicesCount(keep, s[..n]);
      assert KeptIndices(keep, s) == KeptIndices(keep, s[..n]) + if keep(s[n]) then {n} else {};
    }
  }

  function UpTo<T>(le: (T, T) -> bool, x: T): T -> bool {
    (y: T) => le(y, x)
  }

  lemma RankOfLast<T>(le: (T, T) -> bool, s: seq<T>)
    requires s != []
    ensures var x := s[|s| - 1]; Rank(le, s, |s| - 1) == |Filter(UpTo(le, x), s[..|s| - 1])|
  {
    var n, x := |s| - 1, s[|s| - 1];
    KeptIndicesCount(UpTo(le, x), s[..n]);
    assert Ahead(le, s, n) == KeptIndices(UpTo(le, x), s[..n]);
  }

  lemma {:induction false} InsertAt<T(!new)>(le: (T, T) -> bool, s: seq<T>, x: T)
    requires TotalPreorder(le) && Sorted(le, s)
    ensures var p := |Filter(UpTo(le, x), s)|;
            && p <= |s| && Insert(le, s, x) == s[..p] + [x] + s[p..]
            && forall k :: 0 <= k < |s| ==> (le(s[k], x) <==> k < p)
  {
    var n := |s| - 1;
    if s != [] {
      InsertAt(le, s[..n], x);
      if le(s[n], x) {
        forall k | 0 <= k < n ensures le(s[..n][k], x) { assert le(s[k], s[n]); }
        assert n > 0 ==> le(s[..n][n - 1], x);
        assert s[..n + 1] == s;
      } else {
        var p := |Filter(UpTo(le, x), s[..n])|;
        assert s[..n][..p] == s[..p] && s[..n][p..] + [s[n]] == s[p..];
      }
    }
  }

  lemma InsertedLast<T(!new)>(le: (T, T) -> bool, s: seq<T>)
    requires TotalPreorder(le) && s != []
    ensures var front, x, p := Sort(le, s[..|s| - 1]), s[|s| - 1], Rank(le, s, |s| - 1);
            && p <= |front| == |s| - 1 && Sort(le, s) == front[..p] + [x] + front[p..]
            && forall k :: 0 <= k < |front| ==> (le(front[k], x) <==> k < p)
  {
    var before, x := s[..|s| - 1], s[|s| - 1];
    SortFacts(le, before);
    SortSorted(le, before);
    InsertAt(le, Sort(le, before), x);
    RankOfLast(le, s);
    FilterCount(UpTo(le, x), before, Sort(le, before));
  }

  /** The sort is stable: an element stands behind those that precede it and those that tie and came first. */
  lemma {:induction false} SortedAtRank<T(!new)>(le: (T, T) -> bool, s: seq<T>, i: nat)
    requires TotalPreorder(le) && i < |s|
    ensures Rank(le, s, i) < |Sort(le, s)| == |s| && Sort(le, s)[Rank(le, s, i)] == s[i]
    decreases |s|
  {
    InsertedLast(le, s);
    hide Rank, TotalPreorder, Sort;
    if i < |s| - 1 {
      SortedAtRank(le, s[..|s| - 1], i);
      RankBeforeLast(le, s, i);
    }
  }

  /** Every place of the sorted order is some element's rank. */
  lemma {:induction false} SomeAtRank<T(!new)>(le: (T, T) -> bool, s: seq<T>, q: nat) returns (i: nat)
    requires TotalPreorder(le) && q < |s|
    ensures i < |s| && Rank(le, s, i) == q
    decreases |s|
  {
    InsertedLast(le, s);
    hide Rank, TotalPreorder, Sort;
    var before, p := s[..|s| - 1], Rank(le, s, |s| - 1);
    if q == p {
      i := |s| - 1;
    } else {
      var r: nat := if q < p then q else q - 1;
      i := SomeAtRank(le, before, r);
      SortedAtRank(le, before, i);
      RankBeforeLast(le, s, i);
    }
  }
}
