/**
 Rounding at work on real names: a produced report that the checker refuses, and a severe
 match that the cut drops. The names are single lower-case words.
 */
module RoundingWitness {
  import opened Collections
  import opened Money
  import opened GreedyMatching
  import JW = JaroWinkler
  import opened NameMatching
  import opened Sorting
  import opened Screener
  import opened ScreenerFacts
  import opened ReportVerifier
  import opened ScreeningAgreement

  // ---------------------------------------------------------------------
  // Texts that share a permuted core
  // ---------------------------------------------------------------------

  function UpTo(n: nat): (s: set<int>)
    ensures |s| == n && forall i :: i in s <==> 0 <= i < n
  {
    if n == 0 then {} else UpTo(n - 1) + {n - 1}
  }

  lemma {:induction false} SelectedCore(s: string, n: nat, i: nat)
    requires i <= |s| && n <= |s|
    ensures JW.Selected(s, UpTo(n), i) == if i <= n then s[i..n] else ""
    decreases |s| - i
  {
    if i < |s| {
      SelectedCore(s, n, i + 1);
    }
  }

  lemma {:induction false} DifferencesAppend(a: string, b: string, r: string)
    requires |a| == |b|
    ensures JW.Differences(a + r, b + r) == JW.Differences(a, b)
  {
    if a == "" {
      assert a + r == r && b + r == r;
    } else {
      DifferencesAppend(a[1..], b[1..], r);
      assert (a + r)[1..] == a[1..] + r && (b + r)[1..] == b[1..] + r;
    }
  }

  /** Row `i` of the head goes to column `at[i]`, further rows of the core straight across. */
  function CorePairs(at: seq<int>, n: nat): map<int, int> {
    map i: int | 0 <= i < n :: if i < |at| then at[i] else i
  }

  /** `at` permutes the head `h1` into `h2`, within the window. */
  ghost predicate Permutes(at: seq<int>, h1: string, h2: string, w: nat) {
    && |h1| == |h2| == |at| <= w
    && (forall i :: 0 <= i < |at| ==> 0 <= at[i] < |at| && h1[i] == h2[at[i]])
    && (forall i, j :: 0 <= i < |at| && 0 <= j < |at| && at[i] == at[j] ==> i == j)
  }

  ghost predicate NoneOf(x: string, s: string) {
    forall i, j :: 0 <= i < |x| && 0 <= j < |s| ==> x[i] != s[j]
  }

  lemma CoreMatching(h1: string, h2: string, r: string, x: string, y: string, at: seq<int>, w: nat)
    requires Permutes(at, h1, h2, w)
    ensures Matching(h1 + r + x, h2 + r + y, w, CorePairs(at, |h1 + r|)) && |CorePairs(at, |h1 + r|)| == |h1 + r|
  {
    var s1, s2, m := h1 + r + x, h2 + r + y, CorePairs(at, |h1 + r|);
    forall i | i in m ensures Pairable(s1, s2, w, i, m[i]) {
      if i < |at| {
        assert s1[i] == h1[i] && s2[at[i]] == h2[at[i]];
      } else {
        assert s1[i] == r[i - |at|] == s2[i];
      }
    }
    assert m.Keys == UpTo(|h1 + r|) && |m| == |m.Keys|;
  }

  /** Two texts: a common core, permuted at its head by `at`, and rests with no letter of the other text. */
  ghost predicate ShareCore(h1: string, h2: string, r: string, x: string, y: string, at: seq<int>) {
    var s1, s2 := h1 + r + x, h2 + r + y;
    Permutes(at, h1, h2, Window(|s1|, |s2|)) && NoneOf(x, s2) && NoneOf(y, s1)
  }

  lemma InCore(h1: string, h2: string, r: string, x: string, y: string, w: nat, m: map<int, int>)
    requires |h1| == |h2| && NoneOf(x, h2 + r + y) && NoneOf(y, h1 + r + x) && Matching(h1 + r + x, h2 + r + y, w, m)
    ensures m.Keys <= UpTo(|h1 + r|) && m.Values <= UpTo(|h1 + r|) && Injective(m)
  {
    var s1, s2, n := h1 + r + x, h2 + r + y, |h1 + r|;
    assert forall k :: n <= k < |s1| ==> s1[k] == x[k - n];
    assert forall k :: n <= k < |s2| ==> s2[k] == y[k - n];
    forall i | i in m ensures 0 <= i < n && 0 <= m[i] < n {
      assert Pairable(s1, s2, w, i, m[i]);
    }
  }

  /** The scan pairs the core with the core. */
  lemma ScanPairsTheCore(h1: string, h2: string, r: string, x: string, y: string, at: seq<int>)
    requires ShareCore(h1, h2, r, x, y, at)
    ensures var s1, s2, n := h1 + r + x, h2 + r + y, |h1 + r|;
            var g := GreedyPairs(s1, s2, Window(|s1|, |s2|));
            |g| == n && g.Keys == g.Values == UpTo(n)
  {
    var s1, s2, n := h1 + r + x, h2 + r + y, |h1 + r|;
    var w := Window(|s1|, |s2|);
    var g := GreedyPairs(s1, s2, w);
    CoreMatching(h1, h2, r, x, y, at, w);
    MatchCountIsMaximum(s1, s2, CorePairs(at, n));
    GreedyIsMatching(s1, s2, w);
    InCore(h1, h2, r, x, y, w, g);
    hide Matching, GreedyPairs, Window, NoneOf, Permutes, Injective;
    assert |g| == |g.Keys|;
    InjectiveCard(g);
    SubsetCard(g.Keys, UpTo(n));
    FullSubset(g.Keys, UpTo(n));
    FullSubset(g.Values, UpTo(n));
  }

  /** So its letters are counted in full, and only the head is out of order. */
  lemma SharedCore(h1: string, h2: string, r: string, x: string, y: string, at: seq<int>)
    requires ShareCore(h1, h2, r, x, y, at)
    ensures var s1, s2 := h1 + r + x, h2 + r + y;
            MatchCount(s1, s2) == |h1 + r| && JW.Transpositions(s1, s2) == JW.Differences(h1, h2)
  {
    var s1, s2, n := h1 + r + x, h2 + r + y, |h1 + r|;
    ScanPairsTheCore(h1, h2, r, x, y, at);
    assert |h1| == |h2|;
    hide GreedyPairs, Window, ShareCore;
    SelectedCore(s1, n, 0);
    SelectedCore(s2, n, 0);
    assert s1[0..n] == h1 + r && s2[0..n] == h2 + r;
    DifferencesAppend(h1, h2, r);
  }

  /** Texts without a common letter score nothing. */
  lemma NothingShared(s1: string, s2: string)
    requires NoneOf(s1, s2) && s1 != "" && s2 != ""
    ensures JW.Score(s1, s2) == 0.0
  {
    var g := GreedyPairs(s1, s2, Window(|s1|, |s2|));
    GreedyIsMatching(s1, s2, Window(|s1|, |s2|));
    assert forall i :: i in g ==> Pairable(s1, s2, Window(|s1|, |s2|), i, g[i]);
    assert g == map[];
    assert s1[0] != s2[0];
  }

  // ---------------------------------------------------------------------
  // The names
  // ---------------------------------------------------------------------

  function Rep(c: char, n: nat): (s: string)
    ensures |s| == n && forall i :: 0 <= i < n ==> s[i] == c
  {
    seq(n, _ => c)
  }

  /** What preparing one lower-case word gives. */
  function Word(w: string): PreparedName {
    PreparedName(w, w, {w}, w, {w})
  }

  const NEAR := "aaaxyz" + Rep('a', 41) + Rep('b', 4)
  const NEAR_LISTED := "aaayzx" + Rep('a', 41) + Rep('c', 11)
  const SEVERE := "dddefgh" + Rep('d', 8)
  const SEVERE_LISTED := "dddfehg" + Rep('d', 8) + Rep('i', 3)

  lemma PrefixOfThree(s1: string, s2: string, max: nat)
    requires 4 == max <= |s1| && max <= |s2| && s1[..3] == s2[..3] && s1[3] != s2[3]
    ensures JW.CommonPrefix(s1, s2, max) == 3
  {
    var p := JW.CommonPrefix(s1, s2, max);
    forall k | 0 <= k < p ensures s1[k] == s2[k] { assert s1[..p][k] == s2[..p][k]; }
    forall k | 0 <= k < 3 ensures s1[k] == s2[k] { assert s1[..3][k] == s2[..3][k]; }
  }

  lemma ThreeOff()
    ensures JW.Differences("aaaxyz", "aaayzx") == 3
  {
  }

  lemma FourOff()
    ensures JW.Differences("dddefgh", "dddfehg") == 4
  {
  }

  lemma NearShape()
    ensures |NEAR| == 51 && |NEAR_LISTED| == 58 && NEAR[..3] == NEAR_LISTED[..3] && NEAR[3] != NEAR_LISTED[3]
    ensures ShareCore("aaaxyz", "aaayzx", Rep('a', 41), Rep('b', 4), Rep('c', 11), [0, 1, 2, 5, 3, 4])
  {
  }

  lemma SevereShape()
    ensures |SEVERE| == 15 && |SEVERE_LISTED| == 18 && SEVERE[..3] == SEVERE_LISTED[..3] && SEVERE[3] != SEVERE_LISTED[3]
    ensures "dddefgh" + Rep('d', 8) + "" == SEVERE
    ensures ShareCore("dddefgh", "dddfehg", Rep('d', 8), "", Rep('i', 3), [0, 1, 2, 4, 3, 6, 5])
  {
  }

  /** The score lies just under 0.93, near enough to be rounded up to it. */
  lemma NearScore()
    ensures NEAR != NEAR_LISTED && 0.9299995 <= JW.Score(NEAR, NEAR_LISTED) < MATCH_THRESHOLD
  {
    NearShape();
    SharedCore("aaaxyz", "aaayzx", Rep('a', 41), Rep('b', 4), Rep('c', 11), [0, 1, 2, 5, 3, 4]);
    assert MatchCount(NEAR, NEAR_LISTED) == 47 && JW.Transpositions(NEAR, NEAR_LISTED) == 3 by { ThreeOff(); }
    hide JW.Transpositions, MatchCount, JW.CommonPrefix, NEAR, NEAR_LISTED, Rep, ShareCore, JW.Differences;
    PrefixOfThree(NEAR, NEAR_LISTED, 4);
    assert JW.JaroOf(47, 3, 51, 58) == (47.0 / 51.0 + 47.0 / 58.0 + 45.5 / 47.0) / 3.0;
  }

  lemma SevereScore()
    ensures SEVERE != SEVERE_LISTED && JW.Score(SEVERE, SEVERE_LISTED) == MATCH_THRESHOLD
  {
    SevereShape();
    SharedCore("dddefgh", "dddfehg", Rep('d', 8), "", Rep('i', 3), [0, 1, 2, 4, 3, 6, 5]);
    assert MatchCount(SEVERE, SEVERE_LISTED) == 15 && JW.Transpositions(SEVERE, SEVERE_LISTED) == 4 by { FourOff(); }
    hide JW.Transpositions, MatchCount, JW.CommonPrefix, SEVERE, SEVERE_LISTED, Rep, ShareCore, JW.Differences;
    PrefixOfThree(SEVERE, SEVERE_LISTED, 4);
    assert JW.JaroOf(15, 4, 15, 18) == (15.0 / 15.0 + 15.0 / 18.0 + 13.0 / 15.0) / 3.0;
  }

  // ---------------------------------------------------------------------
  // The matches
  // ---------------------------------------------------------------------

  lemma WordScore(a: string, b: string)
    requires a != "" && b != "" && a != b
    ensures ScorePrepared(Word(a), Word(b)) == NameScore(JW.Score(a, b), JaroWinkler)
  {
    hide JW.Score;
    JW.ScoreRange(a, b);
    assert {a} * {b} == {};
  }

  lemma Letters()
    ensures NoneOf(NEAR, SEVERE_LISTED) && NoneOf(SEVERE, NEAR_LISTED)
  {
    forall i | 0 <= i < |NEAR| ensures NEAR[i] in {'a', 'x', 'y', 'z', 'b'} {}
    forall i | 0 <= i < |NEAR_LISTED| ensures NEAR_LISTED[i] in {'a', 'x', 'y', 'z', 'c'} {}
    forall i | 0 <= i < |SEVERE| ensures SEVERE[i] in {'d', 'e', 'f', 'g', 'h'} {}
    forall i | 0 <= i < |SEVERE_LISTED| ensures SEVERE_LISTED[i] in {'d', 'e', 'f', 'g', 'h', 'i'} {}
  }

  /** How the four words score against each other. */
  lemma Scores()
    ensures ScorePrepared(Word(NEAR), Word(NEAR_LISTED)) == NameScore(JW.Score(NEAR, NEAR_LISTED), JaroWinkler)
    ensures 0.9299995 <= JW.Score(NEAR, NEAR_LISTED) < MATCH_THRESHOLD
    ensures ScorePrepared(Word(SEVERE), Word(SEVERE_LISTED)) == NameScore(MATCH_THRESHOLD, JaroWinkler)
    ensures ScorePrepared(Word(NEAR), Word(SEVERE_LISTED)).score == 0.0
    ensures ScorePrepared(Word(SEVERE), Word(NEAR_LISTED)).score == 0.0
  {
    NearScore();
    SevereScore();
    Letters();
    assert NEAR[0] == 'a' && SEVERE_LISTED[0] == 'd' && SEVERE[0] == 'd' && NEAR_LISTED[0] == 'a';
    hide JW.Score, NEAR, NEAR_LISTED, SEVERE, SEVERE_LISTED, NoneOf, ScorePrepared;
    NothingShared(NEAR, SEVERE_LISTED);
    NothingShared(SEVERE, NEAR_LISTED);
    WordScore(NEAR, NEAR_LISTED);
    WordScore(SEVERE, SEVERE_LISTED);
    WordScore(NEAR, SEVERE_LISTED);
    WordScore(SEVERE, NEAR_LISTED);
  }

  /** An entry of one name that one subject name hits, and no other name scores. */
  lemma OneHit(names: seq<PreparedName>, e: PreparedName, s: PreparedName, score: real)
    requires s in names && score >= POTENTIAL_THRESHOLD && ScorePrepared(s, e) == NameScore(score, JaroWinkler)
    requires forall other :: other in names && other != s ==> ScorePrepared(other, e).score == 0.0
    ensures BestMatch(names, [e]) == Some(Best(score, JaroWinkler, s.raw, e.raw))
  {
    hide ScorePrepared, BestMatch;
    BestMatchIsBest(names, [e]);
    assert e in [e] && forall other :: other in [e] ==> other == e;
    assert Dominates(BestMatch(names, [e]), s, e);
  }

  lemma RoundsUp(score: real)
    requires 0.9299995 <= score <= MATCH_THRESHOLD
    ensures Round6(score) == MATCH_THRESHOLD
  {
    FloorUnique(score * 1000000.0 + 0.5, 930000);
  }

  function NearMatch(refs: seq<nat>): Match {
    Match(NEAR_LISTED, NEAR, MATCH_THRESHOLD, JaroWinkler, PotentialMatch, refs)
  }

  function SevereOne(refs: seq<nat>): Match {
    Match(SEVERE_LISTED, SEVERE, MATCH_THRESHOLD, JaroWinkler, SevereMatch, refs)
  }

  /** Both entries match at 0.93 once rounded; one of them was below. */
  lemma Matches(names: seq<PreparedName>, refs: seq<nat>)
    requires names == [Word(NEAR)] || names == [Word(NEAR), Word(SEVERE)]
    ensures NameMatch(names, [Word(NEAR_LISTED)], refs, false) == Some(NearMatch(refs))
    ensures |names| == 2 ==> NameMatch(names, [Word(SEVERE_LISTED)], refs, false) == Some(SevereOne(refs))
    ensures BestMatch(names, [Word(NEAR_LISTED)]).Some? && !OutsideTheBands(BestMatch(names, [Word(NEAR_LISTED)]).value, false)
  {
    Scores();
    hide ScorePrepared, BestMatch, JW.Score, NEAR, NEAR_LISTED, SEVERE, SEVERE_LISTED, Round6;
    var score := JW.Score(NEAR, NEAR_LISTED);
    OneHit(names, Word(NEAR_LISTED), Word(NEAR), score);
    RoundsUp(score);
    if |names| == 2 {
      OneHit(names, Word(SEVERE_LISTED), Word(SEVERE), MATCH_THRESHOLD);
      RoundsUp(MATCH_THRESHOLD);
    }
  }

  // ---------------------------------------------------------------------
  // A report its own checker refuses
  // ---------------------------------------------------------------------

  /** A person of one name, or with an alias. */
  function Person(names: seq<PreparedName>): Subject {
    Subject(NEAR, SubjectKind.Person, names, None)
  }

  /** The sanctions list, downloaded once and genuine. */
  function Listing(entries: seq<Entry>): Input {
    Input.Loaded(OfacSdn, Snapshot([Download("https://list", true)], entries, [], []))
  }

  lemma GoodListing(names: seq<PreparedName>, entries: seq<Entry>)
    ensures Citable([Listing(entries)]) && GoodPanel(Person(names), [Listing(entries)], [])
  {
    assert NEAR[0] == 'a' && NEAR[|NEAR| - 1] == 'b';
    assert Trim(NEAR) == NEAR;
  }

  lemma NearIsNotClean()
    ensures !CleanInput(Person([Word(NEAR)]), Listing([[Word(NEAR_LISTED)]]), 1)
  {
    var names, entry, refs := [Word(NEAR)], [Word(NEAR_LISTED)], Numbers(1, 1);
    Matches(names, refs);
    hide NEAR, NEAR_LISTED, BestMatch, OutsideTheBands, NameMatch, KeptMatches, CleanInput;
    var input := Listing([entry]);
    assert NameMatches(names, [entry], refs, false) == [NearMatch(refs)] by {
      assert [entry][..0] == [] && NameMatches(names, [], refs, false) == [];
    }
    assert Uncut(Person(names), input, 1);
    CleanWithoutTheCut(Person(names), input, 1);
    assert !CleanEntry(names, input.snapshot.entries[0], false);
  }

  /** A genuine, complete report about one name and one entry, refused because rounding carried its score to 0.93. */
  lemma ProducedReportIsRefused()
    ensures var subject, inputs := Person([Word(NEAR)]), [Listing([[Word(NEAR_LISTED)]])];
            && Citable(inputs) && GoodPanel(subject, inputs, [])
            && Screen(subject, inputs).Some? && !Accepts(Screen(subject, inputs).value, [])
  {
    var subject, inputs := Person([Word(NEAR)]), [Listing([[Word(NEAR_LISTED)]])];
    GoodListing([Word(NEAR)], [[Word(NEAR_LISTED)]]);
    NearIsNotClean();
    hide NEAR, NEAR_LISTED, CleanInput, GoodPanel, Screen, Accepts, Listing, Person;
    AcceptedExactly(subject, inputs, []);
    assert inputs[..0] == [] && Versions(inputs[..0]) == [];
    assert !CleanInput(subject, inputs[0], |Versions(inputs[..0])| + 1);
  }

  // ---------------------------------------------------------------------
  // A severe match behind the cut
  // ---------------------------------------------------------------------

  /** Twenty-five listings of the near name, then one that the alias hits at 0.93. */
  function CrowdedEntries(): seq<Entry> {
    seq(25, _ => [Word(NEAR_LISTED)]) + [[Word(SEVERE_LISTED)]]
  }

  function CrowdedMatches(refs: seq<nat>): seq<Match> {
    seq(25, _ => NearMatch(refs)) + [SevereOne(refs)]
  }

  lemma {:induction false} SameMatches(names: seq<PreparedName>, e: Entry, n: nat, refs: seq<nat>, pep: bool, m: Match)
    requires NameMatch(names, e, refs, pep) == Some(m)
    ensures NameMatches(names, seq(n, _ => e), refs, pep) == seq(n, _ => m)
  {
    hide NameMatch;
    if n > 0 {
      SameMatches(names, e, n - 1, refs, pep, m);
      assert seq(n, _ => e)[..n - 1] == seq(n - 1, _ => e);
    }
  }

  lemma CrowdedAre(refs: seq<nat>)
    ensures AllMatches(Person([Word(NEAR), Word(SEVERE)]), OfacSdn, Listing(CrowdedEntries()).snapshot, refs) == CrowdedMatches(refs)
  {
    var names := [Word(NEAR), Word(SEVERE)];
    Matches(names, refs);
    hide NameMatch, NEAR, NEAR_LISTED, SEVERE, SEVERE_LISTED;
    var near := seq(25, _ => [Word(NEAR_LISTED)]);
    SameMatches(names, [Word(NEAR_LISTED)], 25, refs, false, NearMatch(refs));
    assert CrowdedEntries()[..25] == near && CrowdedEntries()[25] == [Word(SEVERE_LISTED)];
  }

  lemma AllTie(refs: seq<nat>)
    ensures |CrowdedMatches(refs)| == 26 && forall j :: 0 <= j < 26 ==> CrowdedMatches(refs)[j].score == MATCH_THRESHOLD
  {
    hide NEAR, NEAR_LISTED, SEVERE, SEVERE_LISTED;
  }

  /** The severe match ties with the twenty-five before it, so it stands behind them all. */
  lemma SevereIsCut(refs: seq<nat>)
    ensures |CrowdedMatches(refs)| == 26 && !MakesTheCut(CrowdedMatches(refs), 25)
  {
    AllTie(refs);
    hide CrowdedMatches;
    var all := CrowdedMatches(refs);
    forall j: nat | j < 25 ensures Outranks(ScoresFirst, all, j, 25) {}
    assert Ahead(ScoresFirst, all, 25) == UpTo(25);
  }

  lemma CrowdedVerdicts(refs: seq<nat>)
    ensures var all := AllMatches(Person([Word(NEAR), Word(SEVERE)]), OfacSdn, Listing(CrowdedEntries()).snapshot, refs);
            AggregateVerdict(Severities(all)) == Severe && AggregateVerdict(Severities(KeptMatches(all))) == Potential
  {
    var all := CrowdedMatches(refs);
    CrowdedAre(refs);
    SevereIsCut(refs);
    CutKeepsVerdictExactly(Person([Word(NEAR), Word(SEVERE)]), OfacSdn, Listing(CrowdedEntries()).snapshot, refs);
    hide NEAR, NEAR_LISTED, SEVERE, SEVERE_LISTED, AllMatches, KeptMatches, MakesTheCut, AggregateVerdict, Severities;
    assert all[25].severity == SevereMatch && forall i :: 0 <= i < 25 ==> all[i].severity == PotentialMatch;
    VerdictOf(all);
    assert all[25] in all;
    KeptFacts(all);
    VerdictOf(KeptMatches(all));
  }

  /** An alias hits the last entry at the severe threshold, and yet the list, and the report, are only potential. */
  lemma TheCutHidesASevereMatch()
    ensures var subject, inputs := Person([Word(NEAR), Word(SEVERE)]), [Listing(CrowdedEntries())];
            && Citable(inputs) && GoodPanel(subject, inputs, [])
            && AggregateVerdict(Severities(AllMatches(subject, OfacSdn, inputs[0].snapshot, Numbers(1, 1)))) == Severe
            && ScreenOne(subject, inputs[0], 1).verdict == Potential
            && Screen(subject, inputs).Some? && Screen(subject, inputs).value.verdict == Potential
  {
    var names := [Word(NEAR), Word(SEVERE)];
    var subject, inputs := Person(names), [Listing(CrowdedEntries())];
    GoodListing(names, CrowdedEntries());
    CrowdedVerdicts(Numbers(1, 1));
    hide NEAR, NEAR_LISTED, SEVERE, SEVERE_LISTED, AllMatches, KeptMatches, GoodPanel, AggregateVerdict, Severities, CrowdedEntries;
    assert PerSources(subject, inputs) == [ScreenOne(subject, inputs[0], 1)] by {
      assert inputs[..0] == [] && Versions(inputs[..0]) == [] && PerSources(subject, inputs[..0]) == [];
    }
    OneMoreSource([], ScreenOne(subject, inputs[0], 1));
  }
}
