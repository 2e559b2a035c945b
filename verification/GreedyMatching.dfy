/**
 The matching pass of Jaro-Winkler, as a graph fact: the pairs a left-to-right scan finds
 are a maximum matching of the window graph, which no single line of the algorithm states.
 */
module GreedyMatching {
  import opened Collections

  function Max(a: int, b: int): int { if a < b then b else a }

  function Min(a: int, b: int): int { if a < b then a else b }

  /** How far apart two matching positions may lie: one less than half the longer text. */
  function Window(len1: nat, len2: nat): (w: nat)
    ensures 2 * (w + 1) <= Max(len1, len2) < 2 * (w + 2) || (w == 0 && Max(len1, len2) < 2)
  {
    Max(0, Max(len1, len2) / 2 - 1)
  }

  /** Row `i` and column `j` may be paired: equal characters, at most `w` apart. */
  predicate Pairable(s1: string, s2: string, w: nat, i: int, j: int) {
    0 <= i < |s1| && 0 <= j < |s2| && i - w <= j <= i + w && s1[i] == s2[j]
  }

  // ---------------------------------------------------------------------
  // Matchings
  // ---------------------------------------------------------------------

  /** A matching: pairable positions, no row and no column used twice. */
  ghost predicate Matching(s1: string, s2: string, w: nat, m: map<int, int>) {
    && (forall i :: i in m ==> Pairable(s1, s2, w, i, m[i]))
    && Injective(m)
  }

  /** A matching that only uses rows from `i` on and columns outside `taken`. */
  ghost predicate MatchingFrom(s1: string, s2: string, w: nat, i: nat, taken: set<int>, m: map<int, int>) {
    && Matching(s1, s2, w, m)
    && (forall k :: k in m ==> i <= k && m[k] !in taken)
  }

  /** The least free column from `j` on that row `i` may take, or -1. */
  function Pick(s1: string, s2: string, w: nat, i: nat, taken: set<int>, j: nat): (r: int)
    requires i < |s1| && i - w <= j
    ensures r == -1 || (j <= r && Pairable(s1, s2, w, i, r) && r !in taken)
    ensures forall k :: j <= k && (r == -1 || k < r) && Pairable(s1, s2, w, i, k) ==> k in taken
    decreases |s2| - j
  {
    if j >= |s2| || j > i + w then -1
    else if j !in taken && s1[i] == s2[j] then j
    else Pick(s1, s2, w, i, taken, j + 1)
  }

  /** The scan: from row `i` on, each row takes its least free column, if it has one. */
  function Scan(s1: string, s2: string, w: nat, i: nat, done: map<int, int>): map<int, int>
    requires i <= |s1|
    decreases |s1| - i
  {
    if i == |s1| then done
    else
      var j := Pick(s1, s2, w, i, done.Values, Max(0, i - w));
      Scan(s1, s2, w, i + 1, if j == -1 then done else done[i := j])
  }

  /** The pairs the matching pass finds. */
  function GreedyPairs(s1: string, s2: string, w: nat): map<int, int> {
    Scan(s1, s2, w, 0, map[])
  }

  ghost predicate RowsBefore(done: map<int, int>, i: nat) {
    forall k :: k in done ==> k < i
  }

  lemma {:induction false} ScanIsMatching(s1: string, s2: string, w: nat, i: nat, done: map<int, int>)
    requires i <= |s1| && RowsBefore(done, i) && Matching(s1, s2, w, done)
    ensures Matching(s1, s2, w, Scan(s1, s2, w, i, done))
    decreases |s1| - i
  {
    if i < |s1| {
      var j := Pick(s1, s2, w, i, done.Values, Max(0, i - w));
      if j == -1 {
        ScanIsMatching(s1, s2, w, i + 1, done);
      } else {
        forall k | k in done ensures done[k] != j { assert done[k] in done.Values; }
        ScanIsMatching(s1, s2, w, i + 1, done[i := j]);
      }
    }
  }

  /** Dropping row `i` leaves a matching of the later rows. */
  lemma DropRow(s1: string, s2: string, w: nat, i: nat, taken: set<int>, j: int, m: map<int, int>)
    requires MatchingFrom(s1, s2, w, i, taken, m)
    requires forall k :: k in m && k != i ==> m[k] != j
    ensures MatchingFrom(s1, s2, w, i + 1, taken + {j}, m - {i})
    ensures |m| <= |m - {i}| + 1
  {
    CardAddOne(m.Keys, (m - {i}).Keys, i);
    assert |m| == |m.Keys| && |m - {i}| == |(m - {i}).Keys|;
  }

  /** Row `i` gives up its column to the row that held `j`. */
  lemma MoveRow(s1: string, s2: string, w: nat, i: nat, taken: set<int>, j: int, holder: int, m: map<int, int>) returns (moved: map<int, int>)
    requires i < |s1| && j == Pick(s1, s2, w, i, taken, Max(0, i - w)) && j != -1
    requires MatchingFrom(s1, s2, w, i, taken, m)
    requires i in m && holder in m && m[holder] == j && holder != i
    ensures moved == m[holder := m[i]][i := j] && MatchingFrom(s1, s2, w, i, taken, moved) && |moved| == |m|
  {
    moved := m[holder := m[i]][i := j];
    assert Pairable(s1, s2, w, holder, m[i]);
    assert moved.Keys == m.Keys && |moved| == |moved.Keys| && |m| == |m.Keys|;
  }

  /** The exchange step: giving row `i` its least free column costs at most one pair elsewhere. */
  lemma Exchange(s1: string, s2: string, w: nat, i: nat, taken: set<int>, j: int, m: map<int, int>) returns (rest: map<int, int>)
    requires i < |s1| && j == Pick(s1, s2, w, i, taken, Max(0, i - w)) && j != -1
    requires MatchingFrom(s1, s2, w, i, taken, m)
    ensures MatchingFrom(s1, s2, w, i + 1, taken + {j}, rest)
    ensures |m| <= |rest| + 1
  {
    hide Pairable, Pick;
    if holder :| holder in m && m[holder] == j && holder != i {
      if i in m {
        var moved := MoveRow(s1, s2, w, i, taken, j, holder, m);
        DropRow(s1, s2, w, i, taken, j, moved);
        rest := moved - {i};
      } else {
        DropHolder(s1, s2, w, i, taken, j, holder, m);
        rest := m - {holder};
      }
    } else {
      DropRow(s1, s2, w, i, taken, j, m);
      rest := m - {i};
    }
  }

  lemma DropHolder(s1: string, s2: string, w: nat, i: nat, taken: set<int>, j: int, holder: int, m: map<int, int>)
    requires MatchingFrom(s1, s2, w, i, taken, m) && i !in m
    requires holder in m && m[holder] == j
    ensures MatchingFrom(s1, s2, w, i + 1, taken + {j}, m - {holder})
    ensures |m| <= |m - {holder}| + 1
  {
    CardAddOne(m.Keys, (m - {holder}).Keys, holder);
    assert |m| == |m.Keys| && |m - {holder}| == |(m - {holder}).Keys|;
  }

  lemma NoRowsLeft(s1: string, s2: string, w: nat, taken: set<int>, m: map<int, int>)
    requires MatchingFrom(s1, s2, w, |s1|, taken, m)
    ensures |m| == 0
  {
    assert forall k :: k in m ==> Pairable(s1, s2, w, k, m[k]);
    assert m.Keys == {} && |m| == |m.Keys|;
  }

  lemma SkipRow(s1: string, s2: string, w: nat, i: nat, taken: set<int>, m: map<int, int>)
    requires i < |s1| && Pick(s1, s2, w, i, taken, Max(0, i - w)) == -1
    requires MatchingFrom(s1, s2, w, i, taken, m)
    ensures MatchingFrom(s1, s2, w, i + 1, taken, m)
  {
    assert i !in m;
  }

  lemma TakeRow(s1: string, s2: string, w: nat, i: nat, done: map<int, int>, j: int, m: map<int, int>) returns (rest: map<int, int>)
    requires i < |s1| && RowsBefore(done, i)
    requires j == Pick(s1, s2, w, i, done.Values, Max(0, i - w)) && j != -1
    requires MatchingFrom(s1, s2, w, i, done.Values, m)
    ensures MatchingFrom(s1, s2, w, i + 1, done[i := j].Values, rest)
    ensures |done| + |m| <= |done[i := j]| + |rest|
    ensures RowsBefore(done[i := j], i + 1)
  {
    rest := Exchange(s1, s2, w, i, done.Values, j, m);
    AddEntry(done, i, j);
  }

  /** No matching beats the scan. */
  lemma {:induction false} ScanIsMaximum(s1: string, s2: string, w: nat, i: nat, done: map<int, int>, m: map<int, int>)
    requires i <= |s1| && RowsBefore(done, i)
    requires MatchingFrom(s1, s2, w, i, done.Values, m)
    ensures |done| + |m| <= |Scan(s1, s2, w, i, done)|
    decreases |s1| - i
  {
    hide MatchingFrom, Pick;
    if i == |s1| {
      NoRowsLeft(s1, s2, w, done.Values, m);
    } else {
      var j := Pick(s1, s2, w, i, done.Values, Max(0, i - w));
      if j == -1 {
        SkipRow(s1, s2, w, i, done.Values, m);
        ScanIsMaximum(s1, s2, w, i + 1, done, m);
      } else {
        var rest := TakeRow(s1, s2, w, i, done, j, m);
        ScanIsMaximum(s1, s2, w, i + 1, done[i := j], rest);
      }
    }
  }

  lemma GreedyIsMatching(s1: string, s2: string, w: nat)
    ensures Matching(s1, s2, w, GreedyPairs(s1, s2, w))
  {
    ScanIsMatching(s1, s2, w, 0, map[]);
  }

  /** How many characters the scan of `s1` against `s2` pairs. */
  function MatchCount(s1: string, s2: string): nat {
    |GreedyPairs(s1, s2, Window(|s1|, |s2|))|
  }

  /** The count is attained by a matching and no matching is larger. */
  lemma MatchCountIsMaximum(s1: string, s2: string, m: map<int, int>)
    requires Matching(s1, s2, Window(|s1|, |s2|), m)
    ensures |m| <= MatchCount(s1, s2)
    ensures exists best :: Matching(s1, s2, Window(|s1|, |s2|), best) && |best| == MatchCount(s1, s2)
  {
    var w := Window(|s1|, |s2|);
    forall k | k in m ensures 0 <= k { assert Pairable(s1, s2, w, k, m[k]); }
    ScanIsMaximum(s1, s2, w, 0, map[], m);
    GreedyIsMatching(s1, s2, w);
  }

  lemma InverseIsMatching(s1: string, s2: string, w: nat, m: map<int, int>)
    requires Matching(s1, s2, w, m)
    ensures Matching(s2, s1, w, Inverse(m)) && |Inverse(m)| == |m|
  {
    InverseEntries(m);
    forall j | j in Inverse(m) ensures Pairable(s2, s1, w, j, Inverse(m)[j]) {
      assert Pairable(s1, s2, w, Inverse(m)[j], j);
    }
  }

  /** Swapping the two names does not change how many characters match. */
  lemma MatchCountIsSymmetric(s1: string, s2: string)
    ensures MatchCount(s1, s2) == MatchCount(s2, s1)
  {
    OneWay(s1, s2);
    OneWay(s2, s1);
  }

  lemma OneWay(s1: string, s2: string)
    ensures MatchCount(s1, s2) <= MatchCount(s2, s1)
  {
    var w := Window(|s1|, |s2|);
    var g := GreedyPairs(s1, s2, w);
    GreedyIsMatching(s1, s2, w);
    InverseIsMatching(s1, s2, w, g);
    MatchCountIsMaximum(s2, s1, Inverse(g));
  }
}
