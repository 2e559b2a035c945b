/**
 The Jaro-Winkler score: `Score` specifies it on the greedy matching, `Similarity` is the
 array algorithm of the source, proved to compute it.
 */
module JaroWinkler {
  import opened Collections
  import opened GreedyMatching


  /** The characters of `s` at the positions in `at`, in order, from position `i` on. */
  function Selected(s: string, at: set<int>, i: nat): string
    requires i <= |s|
    decreases |s| - i
  {
    if i == |s| then ""
    else (if i in at then [s[i]] else "") + Selected(s, at, i + 1)
  }

  /** Positions at which two texts of equal length differ. */
  function Differences(a: string, b: string): (d: nat)
    requires |a| == |b|
    ensures d <= |a|
    ensures d == 0 <==> a == b
  {
    if a == "" then 0 else (if a[0] != b[0] then 1 else 0) + Differences(a[1..], b[1..])
  }

  lemma {:induction false} SelectedLength(s: string, at: set<int>, i: nat)
    requires i <= |s|
    ensures |Selected(s, at, i)| == |(set k | k in at && i <= k < |s|)|
    decreases |s| - i
  {
    var here := set k | k in at && i <= k < |s|;
    if i < |s| {
      var next := set k | k in at && i + 1 <= k < |s|;
      SelectedLength(s, at, i + 1);
      assert here == next + (if i in at then {i} else {});
    } else {
      assert here == {};
    }
  }

  /** The matched characters of each name, in reading order: equally many on both sides. */
  function Matched1(s1: string, s2: string): string {
    Selected(s1, GreedyPairs(s1, s2, Window(|s1|, |s2|)).Keys, 0)
  }

  function Matched2(s1: string, s2: string): string {
    Selected(s2, GreedyPairs(s1, s2, Window(|s1|, |s2|)).Values, 0)
  }

  lemma MatchedLengths(s1: string, s2: string)
    ensures |Matched1(s1, s2)| == |Matched2(s1, s2)| == MatchCount(s1, s2)
    ensures MatchCount(s1, s2) <= |s1| && MatchCount(s1, s2) <= |s2|
  {
    var w := Window(|s1|, |s2|);
    var g := GreedyPairs(s1, s2, w);
    GreedyIsMatching(s1, s2, w);
    forall i | i in g ensures 0 <= i < |s1| && 0 <= g[i] < |s2| { assert Pairable(s1, s2, w, i, g[i]); }
    SelectedLength(s1, g.Keys, 0);
    SelectedLength(s2, g.Values, 0);
    assert (set k | k in g.Keys && 0 <= k < |s1|) == g.Keys;
    assert (set k | k in g.Values && 0 <= k < |s2|) == g.Values;
    InjectiveCard(g);
    SelectedFits(s1, g.Keys, 0);
    SelectedFits(s2, g.Values, 0);
  }

  lemma {:induction false} SelectedFits(s: string, at: set<int>, i: nat)
    requires i <= |s|
    ensures |Selected(s, at, i)| <= |s| - i
    ensures |Selected(s, at, i)| == |s| - i ==> Selected(s, at, i) == s[i..]
    decreases |s| - i
  {
    if i < |s| {
      SelectedFits(s, at, i + 1);
      assert s[i..] == [s[i]] + s[i + 1..];
    }
  }

  function Transpositions(s1: string, s2: string): nat {
    MatchedLengths(s1, s2);
    Differences(Matched1(s1, s2), Matched2(s1, s2))
  }

  /** Length of the common prefix, looking at no more than `max` characters. */
  function CommonPrefix(s1: string, s2: string, max: nat): (p: nat)
    requires max <= |s1| && max <= |s2|
    ensures p <= max && s1[..p] == s2[..p] && (p < max ==> s1[p] != s2[p])
  {
    if max == 0 then 0
    else
      var p := CommonPrefix(s1, s2, max - 1);
      if p == max - 1 && s1[p] == s2[p] then p + 1 else p
  }

  function JaroOf(matches: nat, transpositions: nat, len1: nat, len2: nat): real
    requires matches > 0 && len1 > 0 && len2 > 0
  {
    var m := matches as real;
    var t := transpositions as real / 2.0;
    (m / len1 as real + m / len2 as real + (m - t) / m) / 3.0
  }

  function WinklerOf(jaro: real, prefix: nat): real {
    jaro + prefix as real * 0.1 * (1.0 - jaro)
  }

  function Score(s1: string, s2: string): real {
    if s1 == s2 then (if |s1| == 0 then 0.0 else 1.0)
    else if |s1| == 0 || |s2| == 0 then 0.0
    else if MatchCount(s1, s2) == 0 then 0.0
    else WinklerOf(JaroOf(MatchCount(s1, s2), Transpositions(s1, s2), |s1|, |s2|),
                   CommonPrefix(s1, s2, Min(4, Min(|s1|, |s2|))))
  }

  lemma RatioBounds(a: nat, b: nat)
    requires b > 0 && a <= b
    ensures 0.0 <= a as real / b as real <= 1.0
    ensures a as real / b as real == 1.0 <==> a == b
  {
  }

  lemma DivideDifference(m: real, t: real)
    requires 0.0 < m && 0.0 <= t <= m / 2.0
    ensures 0.5 <= (m - t) / m <= 1.0
    ensures (m - t) / m == 1.0 <==> t == 0.0
  {
    var q := (m - t) / m;
    assert q * m == m - t;
  }

  lemma JaroBounds(matches: nat, transpositions: nat, len1: nat, len2: nat)
    requires 0 < matches <= len1 && matches <= len2 && transpositions <= matches
    ensures 0.0 < JaroOf(matches, transpositions, len1, len2) <= 1.0
    ensures JaroOf(matches, transpositions, len1, len2) == 1.0 <==>
            matches == len1 == len2 && transpositions == 0
  {
    var m := matches as real;
    var t := transpositions as real / 2.0;
    RatioBounds(matches, len1);
    RatioBounds(matches, len2);
    DivideDifference(m, t);
  }

  lemma WinklerBounds(jaro: real, prefix: nat)
    requires 0.0 < jaro <= 1.0 && prefix <= 4
    ensures jaro <= WinklerOf(jaro, prefix) <= 1.0
    ensures WinklerOf(jaro, prefix) == 1.0 <==> jaro == 1.0
  {
    var gap := 1.0 - jaro;
    match prefix
    case 0 => assert WinklerOf(jaro, 0) == 1.0 - gap;
    case 1 => assert WinklerOf(jaro, 1) == 1.0 - 0.9 * gap;
    case 2 => assert WinklerOf(jaro, 2) == 1.0 - 0.8 * gap;
    case 3 => assert WinklerOf(jaro, 3) == 1.0 - 0.7 * gap;
    case _ => assert WinklerOf(jaro, 4) == 1.0 - 0.6 * gap;
  }

  lemma AllMatchedInOrder(s1: string, s2: string)
    requires MatchCount(s1, s2) == |s1| == |s2| && Transpositions(s1, s2) == 0
    ensures s1 == s2
  {
    MatchedLengths(s1, s2);
    var g := GreedyPairs(s1, s2, Window(|s1|, |s2|));
    SelectedFits(s1, g.Keys, 0);
    SelectedFits(s2, g.Values, 0);
    assert Matched1(s1, s2) == s1[0..] == s1 && Matched2(s1, s2) == s2[0..] == s2;
  }

  /** The score is a similarity: inside [0,1], and 1 for equal non-empty texts only. */
  lemma ScoreRange(s1: string, s2: string)
    ensures 0.0 <= Score(s1, s2) <= 1.0
    ensures Score(s1, s2) == 1.0 <==> s1 == s2 && s1 != ""
  {
    if s1 != s2 && s1 != "" && s2 != "" && MatchCount(s1, s2) != 0 {
      MatchedLengths(s1, s2);
      var m, t := MatchCount(s1, s2), Transpositions(s1, s2);
      JaroBounds(m, t, |s1|, |s2|);
      WinklerBounds(JaroOf(m, t, |s1|, |s2|), CommonPrefix(s1, s2, Min(4, Min(|s1|, |s2|))));
      if m == |s1| == |s2| && t == 0 {
        AllMatchedInOrder(s1, s2);
      }
    }
  }

  /**
   The formula, for different texts with a match: the mean of the matched shares and of the
   share in order, and a tenth of the rest for each of the first four letters in common.
   */
  lemma ScoreIs(s1: string, s2: string, prefix: nat)
    requires s1 != s2 && MatchCount(s1, s2) > 0
    requires prefix <= 4 && prefix <= |s1| && prefix <= |s2| && s1[..prefix] == s2[..prefix]
    requires prefix == 4 || prefix == |s1| || prefix == |s2| || s1[prefix] != s2[prefix]
    ensures |s1| > 0 && |s2| > 0
    ensures var m, half := MatchCount(s1, s2) as real, Transpositions(s1, s2) as real / 2.0;
            var jaro := (m / |s1| as real + m / |s2| as real + (m - half) / m) / 3.0;
            10.0 * (1.0 - Score(s1, s2)) == (10 - prefix) as real * (1.0 - jaro)
  {
    MatchedLengths(s1, s2);
    var p := CommonPrefix(s1, s2, Min(4, Min(|s1|, |s2|)));
    PrefixUnique4(s1, s2, prefix, p);
    hide MatchCount, Transpositions, CommonPrefix;
    var jaro := JaroOf(MatchCount(s1, s2), Transpositions(s1, s2), |s1|, |s2|);
    WinklerShare(jaro, prefix);
  }

  lemma WinklerShare(jaro: real, prefix: nat)
    requires prefix <= 4
    ensures 10.0 * (1.0 - WinklerOf(jaro, prefix)) == (10 - prefix) as real * (1.0 - jaro)
  {
    var gap := 1.0 - jaro;
    match prefix
    case 0 => assert WinklerOf(jaro, 0) == 1.0 - gap;
    case 1 => assert WinklerOf(jaro, 1) == 1.0 - 0.9 * gap;
    case 2 => assert WinklerOf(jaro, 2) == 1.0 - 0.8 * gap;
    case 3 => assert WinklerOf(jaro, 3) == 1.0 - 0.7 * gap;
    case _ => assert WinklerOf(jaro, 4) == 1.0 - 0.6 * gap;
  }

  lemma PrefixUnique4(s1: string, s2: string, p: nat, q: nat)
    requires p <= 4 && p <= |s1| && p <= |s2| && s1[..p] == s2[..p]
    requires p == 4 || p == |s1| || p == |s2| || s1[p] != s2[p]
    requires q <= 4 && q <= |s1| && q <= |s2| && s1[..q] == s2[..q]
    requires q == 4 || q == |s1| || q == |s2| || s1[q] != s2[q]
    ensures p == q
  {
    forall k | 0 <= k < p ensures s1[k] == s2[k] { assert s1[..p][k] == s2[..p][k]; }
    forall k | 0 <= k < q ensures s1[k] == s2[k] { assert s1[..q][k] == s2[..q][k]; }
  }

  // ---------------------------------------------------------------------
  // The algorithm
  // ---------------------------------------------------------------------

  /** The flags mark exactly the positions in `at`. */
  ghost predicate Marks(flags: seq<bool>, at: set<int>) {
    forall k :: 0 <= k < |flags| ==> (flags[k] <==> k in at)
  }

  lemma MarkOne(flags: seq<bool>, at: set<int>, k: int)
    requires Marks(flags, at) && 0 <= k < |flags|
    ensures Marks(flags[k := true], at + {k})
  {
  }

  /** One row of the first pass: mark the least free column, if there is one. */
  method MatchRow(s1: string, s2: string, w: nat, i: nat, matched2: array<bool>, ghost taken: set<int>) returns (found: bool, ghost j: int)
    requires i < |s1| && matched2.Length == |s2| && Marks(matched2[..], taken)
    modifies matched2
    ensures j == Pick(s1, s2, w, i, taken, Max(0, i - w))
    ensures found <==> j != -1
    ensures found ==> Marks(matched2[..], taken + {j})
    ensures !found ==> Marks(matched2[..], taken)
  {
    var lo := Max(0, i - w);
    var hi := Min(|s2| - 1, i + w);
    j := -1;
    found := false;
    var c := lo;
    while c <= hi
      invariant lo <= c
      invariant Pick(s1, s2, w, i, taken, lo) == Pick(s1, s2, w, i, taken, c)
      invariant Marks(matched2[..], taken)
    {
      assert matched2[..][c] <==> c in taken;
      if !matched2[c] && s1[i] == s2[c] {
        MarkOne(matched2[..], taken, c);
        ghost var flags := matched2[..];
        matched2[c] := true;
        assert matched2[..] == flags[c := true];
        return true, c;
      }
      c := c + 1;
    }
  }

  /** Before row `i` the scan has paired `done`. */
  ghost predicate ScanState(s1: string, s2: string, w: nat, i: nat, done: map<int, int>, rows: set<int>, taken: set<int>, matches: nat) {
    && i <= |s1| && RowsBefore(done, i)
    && GreedyPairs(s1, s2, w) == Scan(s1, s2, w, i, done)
    && rows == done.Keys && taken == done.Values && matches == |done|
  }

  lemma ScanStep(s1: string, s2: string, w: nat, i: nat, done: map<int, int>, rows: set<int>, taken: set<int>, matches: nat, j: int)
    requires i < |s1| && ScanState(s1, s2, w, i, done, rows, taken, matches)
    requires j == Pick(s1, s2, w, i, taken, Max(0, i - w))
    ensures j == -1 ==> ScanState(s1, s2, w, i + 1, done, rows, taken, matches)
    ensures j != -1 ==> ScanState(s1, s2, w, i + 1, done[i := j], rows + {i}, taken + {j}, matches + 1)
  {
    AddEntry(done, i, j);
  }

  lemma ScanStart(s1: string, s2: string, w: nat)
    ensures ScanState(s1, s2, w, 0, map[], {}, {}, 0)
  {
    var none: map<int, int> := map[];
    assert none.Keys == {} && none.Values == {};
  }

  lemma ScanEnd(s1: string, s2: string, w: nat, done: map<int, int>, rows: set<int>, taken: set<int>, matches: nat)
    requires ScanState(s1, s2, w, |s1|, done, rows, taken, matches)
    ensures matches == |GreedyPairs(s1, s2, w)| && rows == GreedyPairs(s1, s2, w).Keys && taken == GreedyPairs(s1, s2, w).Values
  {
  }

  /** First pass: mark the paired rows and columns. */
  method MatchPass(s1: string, s2: string, w: nat, matched1: array<bool>, matched2: array<bool>) returns (matches: nat)
    requires matched1 != matched2 && matched1.Length == |s1| && matched2.Length == |s2|
    requires Marks(matched1[..], {}) && Marks(matched2[..], {})
    modifies matched1, matched2
    ensures matches == |GreedyPairs(s1, s2, w)|
    ensures Marks(matched1[..], GreedyPairs(s1, s2, w).Keys)
    ensures Marks(matched2[..], GreedyPairs(s1, s2, w).Values)
  {
    hide Pick, Marks, ScanState, GreedyPairs;
    matches := 0;
    ghost var done: map<int, int>, rows: set<int>, taken: set<int> := map[], {}, {};
    ScanStart(s1, s2, w);
    var i := 0;
    while i < |s1|
      invariant 0 <= i <= |s1| && ScanState(s1, s2, w, i, done, rows, taken, matches)
      invariant Marks(matched1[..], rows) && Marks(matched2[..], taken)
    {
      var found, j := MatchRow(s1, s2, w, i, matched2, taken);
      ScanStep(s1, s2, w, i, done, rows, taken, matches, j);
      if found {
        ghost var flags := matched1[..];
        matched1[i] := true;
        MarkOne(flags, rows, i);
        assert matched1[..] == flags[i := true];
        matches := matches + 1;
        done, rows, taken := done[i := j], rows + {i}, taken + {j};
      }
      i := i + 1;
    }
    ScanEnd(s1, s2, w, done, rows, taken, matches);
  }

  /** Second pass: walk the marked characters of both names side by side. */
  method TranspositionPass(s1: string, s2: string, matched1: array<bool>, matched2: array<bool>) returns (transpositions: nat)
    requires matched1.Length == |s1| && matched2.Length == |s2|
    requires Marks(matched1[..], GreedyPairs(s1, s2, Window(|s1|, |s2|)).Keys)
    requires Marks(matched2[..], GreedyPairs(s1, s2, Window(|s1|, |s2|)).Values)
    ensures transpositions == Transpositions(s1, s2)
  {
    hide GreedyPairs, Transpositions, MatchCount, Differences;
    ghost var g := GreedyPairs(s1, s2, Window(|s1|, |s2|));
    TranspositionsStart(s1, s2);
    transpositions := 0;
    var k := 0;
    var i := 0;
    while i < |s1|
      invariant 0 <= i <= |s1| && 0 <= k <= |s2|
      invariant |Selected(s1, g.Keys, i)| == |Selected(s2, g.Values, k)|
      invariant transpositions + Differences(Selected(s1, g.Keys, i), Selected(s2, g.Values, k)) == Transpositions(s1, s2)
    {
      assert matched1[..][i] <==> i in g.Keys;
      if matched1[i] {
        k := NextMarked(s2, matched2, k, g.Values);
        ghost var a, b := Selected(s1, g.Keys, i + 1), Selected(s2, g.Values, k + 1);
        assert Selected(s1, g.Keys, i) == [s1[i]] + a;
        DifferencesCons(s1[i], a, s2[k], b);
        if s1[i] != s2[k] {
          transpositions := transpositions + 1;
        }
        k := k + 1;
      } else {
        assert Selected(s1, g.Keys, i) == Selected(s1, g.Keys, i + 1);
      }
      i := i + 1;
    }
    SelectedFits(s1, g.Keys, i);
    DifferencesNone();
  }

  lemma TranspositionsStart(s1: string, s2: string)
    ensures var g := GreedyPairs(s1, s2, Window(|s1|, |s2|));
            && |Selected(s1, g.Keys, 0)| == |Selected(s2, g.Values, 0)|
            && Differences(Selected(s1, g.Keys, 0), Selected(s2, g.Values, 0)) == Transpositions(s1, s2)
  {
    MatchedLengths(s1, s2);
  }

  lemma DifferencesNone()
    ensures Differences("", "") == 0
  {
  }

  /** The next marked position of the second name; there is one while matched characters remain. */
  method NextMarked(s2: string, matched2: array<bool>, k0: nat, ghost at: set<int>) returns (k: nat)
    requires matched2.Length == |s2| && Marks(matched2[..], at) && k0 <= |s2| && Selected(s2, at, k0) != ""
    ensures k0 <= k < |s2| && matched2[k] && Selected(s2, at, k0) == [s2[k]] + Selected(s2, at, k + 1)
  {
    k := k0;
    while !matched2[k]
      invariant k0 <= k < |s2| && Selected(s2, at, k) == Selected(s2, at, k0)
      decreases |s2| - k
    {
      assert matched2[..][k] <==> k in at;
      k := k + 1;
    }
    assert matched2[..][k] <==> k in at;
  }

  lemma DifferencesCons(x: char, a: string, y: char, b: string)
    requires |a| == |b|
    ensures Differences([x] + a, [y] + b) == Differences(a, b) + if x != y then 1 else 0
  {
    assert ([x] + a)[1..] == a && ([y] + b)[1..] == b;
  }

  method Similarity(s1: string, s2: string) returns (r: real)
    ensures r == Score(s1, s2)
  {
    if s1 == s2 {
      return if |s1| == 0 then 0.0 else 1.0;
    }
    var len1, len2 := |s1|, |s2|;
    if len1 == 0 || len2 == 0 {
      return 0.0;
    }
    var w := Window(len1, len2);
    var matched1 := new bool[len1](_ => false);
    var matched2 := new bool[len2](_ => false);
    var matches := MatchPass(s1, s2, w, matched1, matched2);
    if matches == 0 {
      return 0.0;
    }
    var transpositions := TranspositionPass(s1, s2, matched1, matched2);
    var jaro := JaroOf(matches, transpositions, len1, len2);
    var prefix := 0;
    var maxPrefix := Min(4, Min(len1, len2));
    while prefix < maxPrefix && s1[prefix] == s2[prefix]
      invariant 0 <= prefix <= maxPrefix
      invariant s1[..prefix] == s2[..prefix]
    {
      prefix := prefix + 1;
    }
    PrefixUnique(s1, s2, maxPrefix, prefix, CommonPrefix(s1, s2, maxPrefix));
    r := WinklerOf(jaro, prefix);
  }

  lemma AgreeInside(s1: string, s2: string, p: nat, q: nat)
    requires p < q <= |s1| && q <= |s2| && s1[..q] == s2[..q]
    ensures s1[p] == s2[p]
  {
    assert s1[..q][p] == s2[..q][p];
  }

  lemma PrefixUnique(s1: string, s2: string, max: nat, p: nat, q: nat)
    requires max <= |s1| && max <= |s2| && p <= max && q <= max
    requires s1[..p] == s2[..p] && (p < max ==> s1[p] != s2[p])
    requires s1[..q] == s2[..q] && (q < max ==> s1[q] != s2[q])
    ensures p == q
  {
    if p < q {
      AgreeInside(s1, s2, p, q);
    } else if q < p {
      AgreeInside(s1, s2, q, p);
    }
  }
}
