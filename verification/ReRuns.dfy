/**
 Comparing independent re-runs of one upgrade. A fingerprint is the pair that the source
 prints as canonical JSON, which determines it.
 */
module ReRuns {

  datatype Verdict = UpgradedGreen | UpgradedUntested | UpgradeBreaksSuite | NoAdvisories | Indeterminate

  datatype Check = Check(name: string, hash: string)

  datatype Artifact = Artifact(verdict: Verdict, checks: seq<Check>)

  datatype CheckAgreement = CheckAgreement(name: string, agree: bool, hashes: seq<string>)

  datatype Comparison = Comparison(
    agree: bool, verdictAgree: bool, verdicts: seq<Verdict>, checks: seq<CheckAgreement>, divergentIndices: seq<nat>)

  const GATING_CHECKS := {"install", "build", "test", "typecheck"}

  const ABSENT := "<absent>"

  /** The hash of the first check of that name. */
  function HashOf(checks: seq<Check>, name: string): string {
    if checks == [] then ABSENT
    else if checks[0].name == name then checks[0].hash
    else HashOf(checks[1..], name)
  }

  function Seen(names: seq<string>, c: Check): seq<string> {
    if c.name in GATING_CHECKS && c.name !in names then names + [c.name] else names
  }

  function SeenAll(names: seq<string>, checks: seq<Check>): seq<string> {
    if checks == [] then names else Seen(SeenAll(names, checks[..|checks| - 1]), checks[|checks| - 1])
  }

  /** The gating checks any artifact ran, in the order they are first met. */
  function Names(artifacts: seq<Artifact>): seq<string> {
    if artifacts == [] then [] else SeenAll(Names(artifacts[..|artifacts| - 1]), artifacts[|artifacts| - 1].checks)
  }

  function Verdicts(artifacts: seq<Artifact>): (r: seq<Verdict>)
    ensures |r| == |artifacts|
  {
    seq(|artifacts|, i requires 0 <= i < |artifacts| => artifacts[i].verdict)
  }

  function Column(artifacts: seq<Artifact>, name: string): (r: seq<string>)
    ensures |r| == |artifacts|
  {
    seq(|artifacts|, i requires 0 <= i < |artifacts| => HashOf(artifacts[i].checks, name))
  }

  datatype Fingerprint = Fingerprint(verdict: Verdict, hashes: seq<string>)

  function FingerprintOf(a: Artifact, names: seq<string>): Fingerprint {
    Fingerprint(a.verdict, seq(|names|, k requires 0 <= k < |names| => HashOf(a.checks, names[k])))
  }

  function Fingerprints(artifacts: seq<Artifact>): (r: seq<Fingerprint>)
    ensures |r| == |artifacts|
  {
    seq(|artifacts|, i requires 0 <= i < |artifacts| => FingerprintOf(artifacts[i], Names(artifacts)))
  }

  predicate Agrees(hashes: seq<string>) {
    hashes != [] && forall i :: 0 <= i < |hashes| ==> hashes[i] != ABSENT && hashes[i] == hashes[0]
  }

  /** What each gating check's hashes say. */
  function Agreements(artifacts: seq<Artifact>, names: seq<string>): (r: seq<CheckAgreement>)
    ensures |r| == |names|
  {
    seq(|names|, k requires 0 <= k < |names| =>
      CheckAgreement(names[k], Agrees(Column(artifacts, names[k])), Column(artifacts, names[k])))
  }

  // ---------------------------------------------------------------------
  // The plurality group
  // ---------------------------------------------------------------------

  function FirstIndex<T(==)>(s: seq<T>, x: T): (k: nat)
    requires x in s
    ensures k < |s| && s[k] == x && x !in s[..k]
  {
    if s[0] == x then 0 else
      var k := FirstIndex(s[1..], x);
      assert s[..k + 1] == [s[0]] + s[1..][..k];
      k + 1
  }

  lemma {:induction false} FirstIndexIs<T>(s: seq<T>, x: T, k: nat)
    requires k < |s| && s[k] == x && x !in s[..k]
    ensures FirstIndex(s, x) == k
  {
    if k > 0 {
      assert s[0] == s[..k][0];
      assert s[1..][..k - 1] == s[..k][1..];
      FirstIndexIs(s[1..], x, k - 1);
    }
  }

  datatype Tally<T> = Tally(item: T, count: nat)

  /** The counts of what was seen so far, in the order first seen. */
  ghost predicate Tallied<T(!new)>(s: seq<T>, tallies: seq<Tally<T>>) {
    && (forall i :: 0 <= i < |tallies| ==> tallies[i].item in s && tallies[i].count == multiset(s)[tallies[i].item])
    && (forall x :: x in s ==> exists i :: 0 <= i < |tallies| && tallies[i].item == x)
    && (forall i, j :: 0 <= i < j < |tallies| ==> tallies[i].item in s && tallies[j].item in s && FirstIndex(s, tallies[i].item) < FirstIndex(s, tallies[j].item))
  }

  lemma FirstIndexStays<T>(s: seq<T>, x: T, y: T)
    requires y in s
    ensures FirstIndex(s + [x], y) == FirstIndex(s, y)
  {
    var k := FirstIndex(s, y);
    assert (s + [x])[..k] == s[..k];
    FirstIndexIs(s + [x], y, k);
  }

  /** One more count for a known item, or a new entry at the end. */
  method Count<T(==,!new)>(tallies: seq<Tally<T>>, x: T, ghost s: seq<T>) returns (next: seq<Tally<T>>)
    requires Tallied(s, tallies)
    ensures Tallied(s + [x], next)
  {
    forall y | y in s ensures FirstIndex(s + [x], y) == FirstIndex(s, y) { FirstIndexStays(s, x, y); }
    assert multiset(s + [x]) == multiset(s) + multiset{x};
    for i := 0 to |tallies|
      invariant forall k :: 0 <= k < i ==> tallies[k].item != x
    {
      if tallies[i].item == x {
        next := tallies[i := Tally(x, tallies[i].count + 1)];
        KnownCounted(tallies, x, s, i);
        return;
      }
    }
    next := tallies + [Tally(x, 1)];
    NewCounted(tallies, x, s);
  }

  lemma KnownCounted<T(!new)>(tallies: seq<Tally<T>>, x: T, s: seq<T>, i: nat)
    requires Tallied(s, tallies) && i < |tallies| && tallies[i].item == x
    ensures Tallied(s + [x], tallies[i := Tally(x, tallies[i].count + 1)])
  {
    var next, more := tallies[i := Tally(x, tallies[i].count + 1)], s + [x];
    assert multiset(more) == multiset(s) + multiset{x};
    forall y | y in s ensures FirstIndex(more, y) == FirstIndex(s, y) { FirstIndexStays(s, x, y); }
    hide FirstIndex;
    assert forall k :: 0 <= k < |next| ==> next[k].item == tallies[k].item;
    forall k | 0 <= k < |next| ensures next[k].item in more && next[k].count == multiset(more)[next[k].item] {
      SameEntry(s, tallies, i, k);
    }
    forall y | y in more ensures exists k :: 0 <= k < |next| && next[k].item == y {
      assert x in s;
      var k :| 0 <= k < |tallies| && tallies[k].item == y;
      assert next[k].item == y;
    }
  }

  lemma SameEntry<T(!new)>(s: seq<T>, tallies: seq<Tally<T>>, i: nat, k: nat)
    requires Tallied(s, tallies) && i < |tallies| && k < |tallies|
    ensures tallies[i].item == tallies[k].item ==> i == k
  {
    hide FirstIndex;
    assert i < k ==> FirstIndex(s, tallies[i].item) < FirstIndex(s, tallies[k].item);
    assert k < i ==> FirstIndex(s, tallies[k].item) < FirstIndex(s, tallies[i].item);
  }

  lemma NewCounted<T(!new)>(tallies: seq<Tally<T>>, x: T, s: seq<T>)
    requires Tallied(s, tallies) && forall k :: 0 <= k < |tallies| ==> tallies[k].item != x
    ensures Tallied(s + [x], tallies + [Tally(x, 1)])
  {
    var next, more := tallies + [Tally(x, 1)], s + [x];
    assert multiset(more) == multiset(s) + multiset{x};
    assert x !in s && multiset(s)[x] == 0;
    assert more[..|s|] == s;
    FirstIndexIs(more, x, |s|);
    forall y | y in s ensures FirstIndex(more, y) == FirstIndex(s, y) { FirstIndexStays(s, x, y); }
    hide FirstIndex;
    forall y | y in more ensures exists k :: 0 <= k < |next| && next[k].item == y {
      if y == x {
        assert next[|tallies|].item == x;
      } else {
        var k :| 0 <= k < |tallies| && tallies[k].item == y;
        assert next[k].item == y;
      }
    }
  }

  /** A largest group; of several, the one met first. */
  ghost predicate IsPlurality<T(!new)>(s: seq<T>, p: T) {
    && p in s
    && (forall q :: multiset(s)[q] <= multiset(s)[p])
    && (forall q :: q in s && multiset(s)[q] == multiset(s)[p] ==> FirstIndex(s, p) <= FirstIndex(s, q))
  }

  method Plurality<T(==,!new)>(s: seq<T>) returns (p: T)
    requires s != []
    ensures IsPlurality(s, p)
  {
    var counts: seq<Tally<T>> := [];
    for i := 0 to |s|
      invariant Tallied(s[..i], counts)
    {
      assert s[..i + 1] == s[..i] + [s[i]];
      counts := Count(counts, s[i], s[..i]);
    }
    assert s[..|s|] == s;
    p := s[0];
    var best: int := -1;
    ghost var at := 0;
    assert counts != [] by { assert s[0] in s; }
    hide FirstIndex;
    for i := 0 to |counts|
      invariant i == 0 <==> best == -1
      invariant i > 0 ==> 0 <= at < i && counts[at].item == p && counts[at].count == best
      invariant forall k :: 0 <= k < i ==> counts[k].count <= best
      invariant forall k :: 0 <= k < at < i ==> counts[k].count < best
    {
      if counts[i].count > best {
        best := counts[i].count;
        p := counts[i].item;
        at := i;
      }
    }
    MaximumIsPlurality(s, counts, at);
  }

  lemma MaximumIsPlurality<T(!new)>(s: seq<T>, counts: seq<Tally<T>>, at: nat)
    requires Tallied(s, counts) && at < |counts|
    requires forall k :: 0 <= k < |counts| ==> counts[k].count <= counts[at].count
    requires forall k :: 0 <= k < at ==> counts[k].count < counts[at].count
    ensures IsPlurality(s, counts[at].item)
  {
    hide FirstIndex;
    var p := counts[at].item;
    forall q ensures multiset(s)[q] <= multiset(s)[p]
      ensures q in s && multiset(s)[q] == multiset(s)[p] ==> FirstIndex(s, p) <= FirstIndex(s, q) {
      if q in s {
        var k :| 0 <= k < |counts| && counts[k].item == q;
        assert counts[k].count == multiset(s)[q];
        if k > at {
          assert FirstIndex(s, counts[at].item) < FirstIndex(s, counts[k].item);
        }
      } else {
        assert multiset(s)[q] == 0;
      }
    }
  }

  // ---------------------------------------------------------------------
  // The comparison
  // ---------------------------------------------------------------------

  /** Some artifact reports the absent marker itself as the hash of a gating check. */
  predicate ReportsAbsent(artifacts: seq<Artifact>) {
    exists k, i :: 0 <= k < |Names(artifacts)| && 0 <= i < |artifacts| && MarkedAbsent(artifacts[i], Names(artifacts)[k])
  }

  predicate MarkedAbsent(a: Artifact, name: string) {
    (exists j :: 0 <= j < |a.checks| && a.checks[j].name == name) && HashOf(a.checks, name) == ABSENT
  }

  method CollectNames(artifacts: seq<Artifact>) returns (names: seq<string>)
    ensures names == Names(artifacts)
  {
    names := [];
    for i := 0 to |artifacts|
      invariant names == Names(artifacts[..i])
    {
      assert artifacts[..i + 1][..i] == artifacts[..i];
      var checks := artifacts[i].checks;
      ghost var before := names;
      for j := 0 to |checks|
        invariant names == SeenAll(before, checks[..j])
      {
        assert checks[..j + 1][..j] == checks[..j];
        if checks[j].name in GATING_CHECKS && checks[j].name !in names {
          names := names + [checks[j].name];
        }
      }
      assert checks[..|checks|] == checks;
    }
    assert artifacts[..|artifacts|] == artifacts;
  }

  /**
   Agreement means one group and no reported absent marker; the group left out of the
   divergent indices is a largest one, the first met among several.
   */
  method CompareReRuns(artifacts: seq<Artifact>) returns (r: Comparison)
    ensures r.verdicts == Verdicts(artifacts)
    ensures r.verdictAgree <==> forall i :: 0 <= i < |artifacts| ==> artifacts[i].verdict == artifacts[0].verdict
    ensures r.checks == Agreements(artifacts, Names(artifacts))
    ensures artifacts != [] ==> exists p :: IsPlurality(Fingerprints(artifacts), p) && DivergesFrom(Fingerprints(artifacts), p, r.divergentIndices)
    ensures r.agree <==> artifacts != [] && r.divergentIndices == [] && !ReportsAbsent(artifacts)
  {
    var verdicts := Verdicts(artifacts);
    var verdictAgree := forall i :: 0 <= i < |verdicts| ==> verdicts[i] == verdicts[0];
    var names := CollectNames(artifacts);
    var checks := Agreements(artifacts, names);
    EveryCheckAgrees(artifacts);
    EveryVerdictAgrees(artifacts);
    hide Names, HashOf, Agreements, Agrees, Fingerprints, IsPlurality, DivergesFrom, AllChecksAgree, ReportsAbsent;
    if artifacts == [] {
      return Comparison(false, verdictAgree, verdicts, checks, []);
    }
    var plurality := Plurality(Fingerprints(artifacts));
    var divergent := Divergent(Fingerprints(artifacts), plurality);
    AgreementExactly(artifacts, plurality, divergent);
    var agree := verdictAgree && EveryAgrees(checks) && divergent == [];
    r := Comparison(agree, verdictAgree, verdicts, checks, divergent);
  }

  // Lemmas over artifacts, values that hold a sequence themselves, are proved without automatic
  // induction, whether they recurse or not.

  lemma {:induction false} EveryCheckAgrees(artifacts: seq<Artifact>)
    ensures var checks := Agreements(artifacts, Names(artifacts));
            EveryAgrees(checks) <==> AllChecksAgree(artifacts)
  {
    hide Names, Agrees, Column;
    var checks := Agreements(artifacts, Names(artifacts));
    if EveryAgrees(checks) {
      forall k | 0 <= k < |Names(artifacts)| ensures Agrees(Column(artifacts, Names(artifacts)[k])) {
        assert checks[k].agree;
      }
    }
    if AllChecksAgree(artifacts) {
      forall k | 0 <= k < |checks| ensures checks[k].agree {
        assert Agrees(Column(artifacts, Names(artifacts)[k]));
      }
    }
  }

  lemma {:induction false} EveryVerdictAgrees(artifacts: seq<Artifact>)
    ensures var verdicts := Verdicts(artifacts);
            (forall i :: 0 <= i < |verdicts| ==> verdicts[i] == verdicts[0]) <==>
            (forall i :: 0 <= i < |artifacts| ==> artifacts[i].verdict == artifacts[0].verdict)
  {
    var verdicts := Verdicts(artifacts);
    if forall i :: 0 <= i < |verdicts| ==> verdicts[i] == verdicts[0] {
      forall i | 0 <= i < |artifacts| ensures artifacts[i].verdict == artifacts[0].verdict {
        assert verdicts[i] == verdicts[0];
      }
    }
  }

  method Divergent<T(==)>(s: seq<T>, p: T) returns (indices: seq<nat>)
    ensures DivergesFrom(s, p, indices)
  {
    indices := [];
    for i := 0 to |s|
      invariant DivergesFrom(s[..i], p, indices)
    {
      if s[i] != p {
        indices := indices + [i];
      }
    }
    assert s[..|s|] == s;
  }

  /** In order, exactly the places that hold something else. */
  ghost predicate DivergesFrom<T>(s: seq<T>, p: T, indices: seq<nat>) {
    && (forall k :: 0 <= k < |indices| ==> indices[k] < |s| && s[indices[k]] != p)
    && (forall i :: 0 <= i < |s| && s[i] != p ==> i in indices)
    && (forall j, k :: 0 <= j < k < |indices| ==> indices[j] < indices[k])
  }

  predicate EveryAgrees(checks: seq<CheckAgreement>) {
    forall k :: 0 <= k < |checks| ==> checks[k].agree
  }

  predicate AllChecksAgree(artifacts: seq<Artifact>) {
    forall k :: 0 <= k < |Names(artifacts)| ==> Agrees(Column(artifacts, Names(artifacts)[k]))
  }

  lemma {:induction false} NamesAreRun(artifacts: seq<Artifact>, name: string)
    ensures name in Names(artifacts) <==>
            name in GATING_CHECKS && exists i, j :: 0 <= i < |artifacts| && 0 <= j < |artifacts[i].checks| && artifacts[i].checks[j].name == name
  {
    if artifacts != [] {
      var front, last := artifacts[..|artifacts| - 1], artifacts[|artifacts| - 1];
      NamesAreRun(front, name);
      SeenAllNames(Names(front), last.checks, name);
      assert artifacts == front + [last];
      if i, j :| 0 <= i < |front| && 0 <= j < |front[i].checks| && front[i].checks[j].name == name {
        assert artifacts[i].checks[j].name == name;
      }
      if j :| 0 <= j < |last.checks| && last.checks[j].name == name {
        assert artifacts[|artifacts| - 1].checks[j].name == name;
      }
      if i, j :| 0 <= i < |artifacts| && 0 <= j < |artifacts[i].checks| && artifacts[i].checks[j].name == name {
        assert i < |front| ==> front[i].checks[j].name == name;
      }
    }
  }

  lemma {:induction false} SeenAllNames(names: seq<string>, checks: seq<Check>, name: string)
    ensures name in SeenAll(names, checks) <==>
            name in names || (name in GATING_CHECKS && exists j :: 0 <= j < |checks| && checks[j].name == name)
  {
    if checks != [] {
      var front := checks[..|checks| - 1];
      SeenAllNames(names, front, name);
      assert forall j :: 0 <= j < |front| ==> front[j] == checks[j];
    }
  }

  lemma {:induction false} AgreementExactly(artifacts: seq<Artifact>, p: Fingerprint, divergent: seq<nat>)
    requires artifacts != [] && DivergesFrom(Fingerprints(artifacts), p, divergent)
    ensures divergent == [] && !ReportsAbsent(artifacts) <==>
            divergent == [] && AllChecksAgree(artifacts) && forall i :: 0 <= i < |artifacts| ==> artifacts[i].verdict == artifacts[0].verdict
  {
    if divergent == [] {
      OneGroup(artifacts, p);
      hide Names, HashOf, Fingerprints;
      if AllChecksAgree(artifacts) {
        forall k, i | 0 <= k < |Names(artifacts)| && 0 <= i < |artifacts| ensures !MarkedAbsent(artifacts[i], Names(artifacts)[k]) {
          assert Column(artifacts, Names(artifacts)[k])[i] != ABSENT;
        }
      }
      if !ReportsAbsent(artifacts) {
        forall k | 0 <= k < |Names(artifacts)| ensures Agrees(Column(artifacts, Names(artifacts)[k])) {
          PresentSomewhere(artifacts, k);
        }
      }
    }
  }

  lemma {:induction false} OneGroup(artifacts: seq<Artifact>, p: Fingerprint)
    requires artifacts != [] && forall i :: 0 <= i < |artifacts| ==> Fingerprints(artifacts)[i] == p
    ensures forall i :: 0 <= i < |artifacts| ==> artifacts[i].verdict == artifacts[0].verdict
    ensures forall i, k :: 0 <= i < |artifacts| && 0 <= k < |Names(artifacts)| ==>
                             HashOf(artifacts[i].checks, Names(artifacts)[k]) == HashOf(artifacts[0].checks, Names(artifacts)[k])
  {
    hide HashOf, Names;
    var names := Names(artifacts);
    forall i | 0 <= i < |artifacts|
      ensures artifacts[i].verdict == artifacts[0].verdict
      ensures forall k :: 0 <= k < |names| ==> HashOf(artifacts[i].checks, names[k]) == HashOf(artifacts[0].checks, names[k])
    {
      assert Fingerprints(artifacts)[i] == Fingerprints(artifacts)[0];
      assert FingerprintOf(artifacts[i], names) == FingerprintOf(artifacts[0], names);
      forall k | 0 <= k < |names| ensures HashOf(artifacts[i].checks, names[k]) == HashOf(artifacts[0].checks, names[k]) {
        assert FingerprintOf(artifacts[i], names).hashes[k] == FingerprintOf(artifacts[0], names).hashes[k];
      }
    }
  }

  /** A gating name is known because some artifact ran it; with one group, all report what that one does. */
  lemma {:induction false} PresentSomewhere(artifacts: seq<Artifact>, k: nat)
    requires artifacts != [] && k < |Names(artifacts)| && !ReportsAbsent(artifacts)
    requires forall i :: 0 <= i < |artifacts| ==> HashOf(artifacts[i].checks, Names(artifacts)[k]) == HashOf(artifacts[0].checks, Names(artifacts)[k])
    ensures Agrees(Column(artifacts, Names(artifacts)[k]))
  {
    var name := Names(artifacts)[k];
    NamesAreRun(artifacts, name);
    var i, j :| 0 <= i < |artifacts| && 0 <= j < |artifacts[i].checks| && artifacts[i].checks[j].name == name;
    hide Names, HashOf;
    assert !MarkedAbsent(artifacts[i], name);
  }
}
