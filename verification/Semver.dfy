/** Version precedence, the range grammar and the range searches of the upgrade agent. */
module Semver {
  import opened Collections
  import opened Lexical
  import opened Sorting

  /** A prerelease identifier: digits only compare as a number, anything else as text. */
  datatype Ident = Num(n: nat) | Alpha(text: string)

  datatype SemVer = SemVer(major: nat, minor: nat, patch: nat, pre: seq<Ident>)

  /** A version text and what it parses to. */
  datatype Version = Version(raw: string, parsed: Option<SemVer>)

  // ---------------------------------------------------------------------
  // Precedence, section 11 of Semantic Versioning 2.0.0
  // ---------------------------------------------------------------------

  predicate CharLess(a: char, b: char) {
    a < b
  }

  /** Numbers numerically, text in character order, numbers before text. */
  predicate IdentLess(a: Ident, b: Ident) {
    if a.Num? && b.Num? then a.n < b.n
    else if a.Num? || b.Num? then a.Num?
    else Before(CharLess, a.text, b.text)
  }

  /** A version with prerelease identifiers precedes the one without. */
  predicate PreLess(a: seq<Ident>, b: seq<Ident>) {
    if a == [] || b == [] then a != [] && b == [] else Before(IdentLess, a, b)
  }

  predicate Precedes(a: SemVer, b: SemVer) {
    if a.major != b.major then a.major < b.major
    else if a.minor != b.minor then a.minor < b.minor
    else if a.patch != b.patch then a.patch < b.patch
    else PreLess(a.pre, b.pre)
  }

  lemma CharsAreTotal()
    ensures StrictTotal(CharLess)
  {
  }

  lemma IdentsAreTotal()
    ensures StrictTotal(IdentLess)
  {
    CharsAreTotal();
    forall a, b: Ident ensures !IdentLess(a, a) && (IdentLess(a, b) || IdentLess(b, a) || a == b) {
      if a.Alpha? {
        BeforeIsIrreflexive(CharLess, a.text);
        if b.Alpha? { BeforeIsTotal(CharLess, a.text, b.text); }
      }
    }
    forall a, b, c: Ident | IdentLess(a, b) && IdentLess(b, c) ensures IdentLess(a, c) {
      if a.Alpha? { BeforeIsTransitive(CharLess, a.text, b.text, c.text); }
    }
  }

  lemma PresAreTotal(a: seq<Ident>, b: seq<Ident>, c: seq<Ident>)
    ensures !PreLess(a, a)
    ensures PreLess(a, b) || PreLess(b, a) || a == b
    ensures PreLess(a, b) && PreLess(b, c) ==> PreLess(a, c)
  {
    IdentsAreTotal();
    BeforeIsIrreflexive(IdentLess, a);
    BeforeIsTotal(IdentLess, a, b);
    if Before(IdentLess, a, b) && Before(IdentLess, b, c) {
      BeforeIsTransitive(IdentLess, a, b, c);
    }
  }

  /** Precedence is a strict total order on (core, prerelease identifiers). */
  lemma PrecedenceIsTotal(a: SemVer, b: SemVer, c: SemVer)
    ensures !Precedes(a, a)
    ensures Precedes(a, b) || Precedes(b, a) || a == b
    ensures !(Precedes(a, b) && Precedes(b, a))
    ensures Precedes(a, b) && Precedes(b, c) ==> Precedes(a, c)
  {
    hide PreLess;
    PresAreTotal(a.pre, b.pre, c.pre);
    PresAreTotal(a.pre, b.pre, a.pre);
  }

  /** The sign of the comparison. */
  function Compare(a: SemVer, b: SemVer): int {
    if Precedes(a, b) then -1 else if Precedes(b, a) then 1 else 0
  }

  lemma ZeroExactlyWhenEqual(a: SemVer, b: SemVer)
    ensures Compare(a, b) == 0 <==> a == b
    ensures Compare(a, b) == -Compare(b, a)
  {
    PrecedenceIsTotal(a, b, a);
  }

  method CompareText(a: string, b: string) returns (r: int)
    ensures r < 0 <==> Before(CharLess, a, b)
    ensures r > 0 <==> Before(CharLess, b, a)
    ensures r == 0 <==> a == b
  {
    CharsAreTotal();
    BeforeIsTotal(CharLess, a, b);
    BeforeIsIrreflexive(CharLess, a);
    if Before(CharLess, a, b) && Before(CharLess, b, a) {
      BeforeIsTransitive(CharLess, a, b, a);
    }
    hide Before, StrictTotal;
    r := if a == b then 0 else if Before(CharLess, a, b) then -1 else 1;
  }

  method ComparePrerelease(a: seq<Ident>, b: seq<Ident>) returns (r: int)
    ensures r < 0 <==> PreLess(a, b)
    ensures r > 0 <==> PreLess(b, a)
    ensures r == 0 <==> a == b
  {
    PresAreTotal(a, b, a);
    if |a| == 0 && |b| == 0 {
      return 0;
    }
    if |a| == 0 {
      return 1;
    }
    if |b| == 0 {
      return -1;
    }
    IdentsAreTotal();
    hide Before, StrictTotal, IdentLess;
    var len := if |a| >= |b| then |a| else |b|;
    var i := 0;
    while i < len
      invariant 0 <= i <= len && (i <= |a| && i <= |b|)
      invariant a[..i] == b[..i]
    {
      DecidedAt(IdentLess, a, b, i);
      DecidedAt(IdentLess, b, a, i);
      if i >= |a| {
        return -1;
      }
      if i >= |b| {
        return 1;
      }
      var x, y := a[i], b[i];
      if x == y {
        assert a[..i + 1] == a[..i] + [x] && b[..i + 1] == b[..i] + [y];
        i := i + 1;
        continue;
      }
      var c := CompareIdent(x, y);
      return c;
    }
    assert a == a[..i] && b == b[..i];
    r := 0;
  }

  method CompareIdent(x: Ident, y: Ident) returns (r: int)
    requires x != y
    ensures (r == -1 && IdentLess(x, y)) || (r == 1 && IdentLess(y, x))
  {
    if x.Num? && y.Num? {
      return if x.n < y.n then -1 else 1;
    }
    if x.Num? {
      return -1;
    }
    if y.Num? {
      return 1;
    }
    var c := CompareText(x.text, y.text);
    r := if c < 0 then -1 else 1;
  }

  /** Agrees with section 11. */
  method CompareSemver(a: SemVer, b: SemVer) returns (r: int)
    ensures r == Compare(a, b)
  {
    PrecedenceIsTotal(a, b, a);
    var left, right := [a.major, a.minor, a.patch], [b.major, b.minor, b.patch];
    for i := 0 to 3
      invariant forall k :: 0 <= k < i ==> left[k] == right[k]
    {
      if left[i] != right[i] {
        assert i == 0 || left[0] == right[0];
        assert i <= 1 || left[1] == right[1];
        return if left[i] < right[i] then -1 else 1;
      }
    }
    assert left[0] == right[0] && left[1] == right[1] && left[2] == right[2];
    var pre := ComparePrerelease(a.pre, b.pre);
    r := if pre < 0 then -1 else if pre > 0 then 1 else 0;
  }

  predicate AtMost(a: SemVer, b: SemVer) {
    Compare(a, b) <= 0
  }

  predicate Stable(v: Version) {
    v.parsed.Some? && v.parsed.value.pre == []
  }

  // ---------------------------------------------------------------------
  // Ranges
  // ---------------------------------------------------------------------

  datatype Op = Ge | Gt | Le | Lt | Eq

  datatype Comparator = Comparator(op: Op, version: SemVer)

  /** A version of which minor or patch may be left open. */
  datatype Part = Part(major: nat, minor: Option<nat>, patch: Option<nat>, pre: seq<Ident>)

  datatype Token = Star | Caret(p: Part) | Tilde(p: Part) | Bare(p: Part) | Test(op: Op, p: Part)

  /** Alternatives of conjunctions. */
  type Range = seq<seq<Token>>

  function Release(major: nat, minor: nat, patch: nat): SemVer {
    SemVer(major, minor, patch, [])
  }

  function Padded(p: Part): SemVer {
    SemVer(p.major, p.minor.GetOr(0), p.patch.GetOr(0), p.pre)
  }

  function CaretUpper(p: Part): SemVer {
    if p.minor.None? then Release(p.major + 1, 0, 0)
    else if p.major > 0 then Release(p.major + 1, 0, 0)
    else if p.minor.value > 0 || p.patch.None? then Release(0, p.minor.value + 1, 0)
    else Release(0, p.minor.value, p.patch.value + 1)
  }

  function TildeUpper(p: Part): SemVer {
    if p.minor.None? then Release(p.major + 1, 0, 0) else Release(p.major, p.minor.value + 1, 0)
  }

  function Between(lower: SemVer, upper: SemVer): seq<Comparator> {
    [Comparator(Ge, lower), Comparator(Lt, upper)]
  }

  function Comparators(token: Token): seq<Comparator> {
    match token
    case Star => []
    case Caret(p) => Between(Padded(p), CaretUpper(p))
    case Tilde(p) => Between(Padded(p), TildeUpper(p))
    case Bare(p) => if p.minor.Some? && p.patch.Some? then [Comparator(Eq, Padded(p))] else Between(Padded(p), TildeUpper(p))
    case Test(op, p) => [Comparator(op, Padded(p))]
  }

  predicate Passes(v: SemVer, c: Comparator) {
    var cmp := Compare(v, c.version);
    match c.op
    case Ge => cmp >= 0
    case Gt => cmp > 0
    case Le => cmp <= 0
    case Lt => cmp < 0
    case Eq => cmp == 0
  }

  predicate Admits(token: Token, v: SemVer) {
    forall c :: c in Comparators(token) ==> Passes(v, c)
  }

  predicate AdmitsAll(group: seq<Token>, v: SemVer) {
    forall i :: 0 <= i < |group| ==> Admits(group[i], v)
  }

  /** An unparseable version never satisfies. */
  predicate Satisfies(v: Version, range: Range) {
    v.parsed.Some? && exists i :: 0 <= i < |range| && AdmitsAll(range[i], v.parsed.value)
  }

  /** A group's comparators are those of its tokens, in order. */
  method ParseGroup(group: seq<Token>) returns (comparators: seq<Comparator>)
    ensures forall c :: c in comparators <==> exists i :: 0 <= i < |group| && c in Comparators(group[i])
    ensures forall v :: AdmitsAll(group, v) <==> forall c :: c in comparators ==> Passes(v, c)
  {
    hide Comparators, Passes;
    comparators := [];
    for i := 0 to |group|
      invariant forall c :: c in comparators <==> exists k :: 0 <= k < i && c in Comparators(group[k])
    {
      comparators := comparators + Comparators(group[i]);
    }
    forall v ensures AdmitsAll(group, v) <==> forall c :: c in comparators ==> Passes(v, c) {
      if AdmitsAll(group, v) {
        forall c | c in comparators ensures Passes(v, c) {
          var i :| 0 <= i < |group| && c in Comparators(group[i]);
          assert Admits(group[i], v);
        }
      }
      if forall c :: c in comparators ==> Passes(v, c) {
        forall i | 0 <= i < |group| ensures Admits(group[i], v) {}
      }
    }
  }

  // ---------------------------------------------------------------------
  // What the range shorthands mean
  // ---------------------------------------------------------------------

  lemma BetweenMeaning(lower: SemVer, upper: SemVer, v: SemVer)
    ensures (forall c :: c in Between(lower, upper) ==> Passes(v, c)) <==> AtMost(lower, v) && Precedes(v, upper)
  {
    PrecedenceIsTotal(v, lower, v);
    PrecedenceIsTotal(v, upper, v);
    hide Precedes;
    var ge, lt := Comparator(Ge, lower), Comparator(Lt, upper);
    assert Between(lower, upper) == [ge, lt];
    assert Between(lower, upper)[0] == ge && Between(lower, upper)[1] == lt;
    assert Passes(v, ge) <==> AtMost(lower, v);
    assert Passes(v, lt) <==> Precedes(v, upper);
  }

  /** `v` is a prerelease of `u`: it precedes `u`, and follows everything released below `u`. */
  predicate PrereleaseOf(v: SemVer, u: SemVer) {
    v.pre != [] && u == Release(v.major, v.minor, v.patch)
  }

  /** Every component up to the first non-zero one is that of `p`. */
  predicate CaretFixed(p: Part, v: SemVer) {
    && v.major == p.major
    && (p.major == 0 && p.minor.Some? ==>
          v.minor == p.minor.value && (p.minor.value == 0 && p.patch.Some? ==> v.patch == p.patch.value))
  }

  predicate TildeFixed(p: Part, v: SemVer) {
    v.major == p.major && (p.minor.Some? ==> v.minor == p.minor.value)
  }

  /**
   Caret: at least the given version, with every component up to the first non-zero one
   fixed; besides those, the prereleases of the upper bound itself.
   */
  lemma CaretMeaning(p: Part, v: SemVer)
    ensures Admits(Caret(p), v) <==> AtMost(Padded(p), v) && (CaretFixed(p, v) || PrereleaseOf(v, CaretUpper(p)))
    ensures v.pre == [] ==> (Admits(Caret(p), v) <==> AtMost(Padded(p), v) && CaretFixed(p, v))
  {
    BetweenMeaning(Padded(p), CaretUpper(p), v);
    PrecedenceIsTotal(v, Padded(p), v);
    hide Before;
  }

  /** Tilde and partial versions: at least the given version, with the given major and minor fixed, and again the upper bound's prereleases. */
  lemma TildeMeaning(p: Part, v: SemVer)
    ensures Admits(Tilde(p), v) <==> AtMost(Padded(p), v) && (TildeFixed(p, v) || PrereleaseOf(v, TildeUpper(p)))
    ensures v.pre == [] ==> (Admits(Tilde(p), v) <==> AtMost(Padded(p), v) && TildeFixed(p, v))
    ensures p.minor.None? || p.patch.None? ==> (Admits(Bare(p), v) <==> Admits(Tilde(p), v))
  {
    BetweenMeaning(Padded(p), TildeUpper(p), v);
    PrecedenceIsTotal(v, Padded(p), v);
    hide Before;
  }

  lemma BareMeaning(p: Part, v: SemVer)
    requires p.minor.Some? && p.patch.Some?
    ensures Admits(Bare(p), v) <==> v == SemVer(p.major, p.minor.value, p.patch.value, p.pre)
  {
    ZeroExactlyWhenEqual(v, Padded(p));
    var only := Comparator(Eq, Padded(p));
    assert Comparators(Bare(p)) == [only] && only in Comparators(Bare(p));
    assert Admits(Bare(p), v) <==> Passes(v, only);
  }

  /** A star admits everything; a comparator what its comparison says, by precedence. */
  lemma TestMeaning(op: Op, p: Part, v: SemVer)
    ensures Admits(Star, v)
    ensures Admits(Test(op, p), v) <==>
            match op
            case Ge => !Precedes(v, Padded(p))
            case Gt => Precedes(Padded(p), v)
            case Le => !Precedes(Padded(p), v)
            case Lt => Precedes(v, Padded(p))
            case Eq => v == Padded(p)
  {
    PrecedenceIsTotal(v, Padded(p), v);
    hide Precedes;
    var only := Comparator(op, Padded(p));
    assert Comparators(Test(op, p)) == [only] && only in Comparators(Test(op, p));
    assert Admits(Test(op, p), v) <==> Passes(v, only);
  }

  /** The example of section 11: 1.0.0-alpha < alpha.1 < alpha.beta < beta < beta.2 < beta.11 < rc.1 < 1.0.0 < 2.0.0 < 2.1.0 < 2.1.1. */
  lemma SectionElevenExample()
    ensures var chain := [
      SemVer(1, 0, 0, [Alpha("alpha")]), SemVer(1, 0, 0, [Alpha("alpha"), Num(1)]), SemVer(1, 0, 0, [Alpha("alpha"), Alpha("beta")]),
      SemVer(1, 0, 0, [Alpha("beta")]), SemVer(1, 0, 0, [Alpha("beta"), Num(2)]), SemVer(1, 0, 0, [Alpha("beta"), Num(11)]),
      SemVer(1, 0, 0, [Alpha("rc"), Num(1)]), SemVer(1, 0, 0, []), SemVer(2, 0, 0, []), SemVer(2, 1, 0, []), SemVer(2, 1, 1, [])];
      forall i :: 0 <= i < |chain| - 1 ==> Precedes(chain[i], chain[i + 1])
  {
    TextsApart("alpha", "beta");
    TextsApart("beta", "rc");
    var alpha, beta, rc := Alpha("alpha"), Alpha("beta"), Alpha("rc");
    assert Before(IdentLess, [alpha], [alpha, Num(1)]) by { assert [alpha][1..] == [] && [alpha, Num(1)][1..] == [Num(1)]; }
    assert Before(IdentLess, [alpha, Num(1)], [alpha, beta]) by { assert [alpha, Num(1)][1..] == [Num(1)] && [alpha, beta][1..] == [beta]; }
    assert Before(IdentLess, [alpha, beta], [beta]);
    assert Before(IdentLess, [beta], [beta, Num(2)]) by { assert [beta][1..] == [] && [beta, Num(2)][1..] == [Num(2)]; }
    assert Before(IdentLess, [beta, Num(2)], [beta, Num(11)]) by { assert [beta, Num(2)][1..] == [Num(2)] && [beta, Num(11)][1..] == [Num(11)]; }
    assert Before(IdentLess, [beta, Num(11)], [rc, Num(1)]);
  }

  lemma TextsApart(a: string, b: string)
    requires a != "" && b != "" && a[0] < b[0]
    ensures IdentLess(Alpha(a), Alpha(b)) && Alpha(a) != Alpha(b)
  {
  }

  function Exactly(v: SemVer): Part {
    Part(v.major, Some(v.minor), Some(v.patch), v.pre)
  }

  /** A released version is admitted by each of its own caret, tilde and pinned ranges. */
  lemma AdmitsItself(v: SemVer)
    requires v.pre == []
    ensures Admits(Caret(Exactly(v)), v) && Admits(Tilde(Exactly(v)), v) && Admits(Bare(Exactly(v)), v)
  {
    assert Padded(Exactly(v)) == v;
    ZeroExactlyWhenEqual(v, v);
    CaretMeaning(Exactly(v), v);
    TildeMeaning(Exactly(v), v);
    BareMeaning(Exactly(v), v);
  }

  // ---------------------------------------------------------------------
  // Searches
  // ---------------------------------------------------------------------

  predicate Parses(v: Version) {
    v.parsed.Some?
  }

  /** Ascending precedence; unparseable texts would come last, but none is ever sorted. */
  predicate Ascending(a: Version, b: Version) {
    b.parsed.None? || (a.parsed.Some? && AtMost(a.parsed.value, b.parsed.value))
  }

  lemma AscendingIsPreorder()
    ensures TotalPreorder(Ascending)
  {
    forall a, b ensures Ascending(a, b) || Ascending(b, a) {
      if a.parsed.Some? && b.parsed.Some? { ZeroExactlyWhenEqual(a.parsed.value, b.parsed.value); }
    }
    forall a, b, c | Ascending(a, b) && Ascending(b, c) ensures Ascending(a, c) {
      if c.parsed.Some? { AtMostIsTransitive(a.parsed.value, b.parsed.value, c.parsed.value); }
    }
  }

  lemma AtMostIsTransitive(a: SemVer, b: SemVer, c: SemVer)
    requires AtMost(a, b) && AtMost(b, c)
    ensures AtMost(a, c)
  {
    ZeroExactlyWhenEqual(a, b);
    ZeroExactlyWhenEqual(b, c);
    PrecedenceIsTotal(a, b, c);
    PrecedenceIsTotal(c, a, c);
    hide Precedes;
  }

  /** The parseable versions in ascending order. */
  function SortedParsed(versions: seq<Version>): seq<Version> {
    Sort(Ascending, Filter(Parses, versions))
  }

  lemma SortedParsedFacts(versions: seq<Version>)
    ensures Sorted(Ascending, SortedParsed(versions))
    ensures forall v :: v in SortedParsed(versions) <==> v in versions && v.parsed.Some?
  {
    AscendingIsPreorder();
    SortSorted(Ascending, Filter(Parses, versions));
    SortFacts(Ascending, Filter(Parses, versions));
    FilterFacts(Parses, versions);
  }

  function FirstIn(versions: seq<Version>, range: Range): Option<Version> {
    if versions == [] then None
    else if Satisfies(versions[0], range) then Some(versions[0])
    else FirstIn(versions[1..], range)
  }

  function LastIn(versions: seq<Version>, range: Range): Option<Version> {
    if versions == [] then None
    else if Satisfies(versions[|versions| - 1], range) then Some(versions[|versions| - 1])
    else LastIn(versions[..|versions| - 1], range)
  }

  function LowestIn(versions: seq<Version>, range: Range): Option<Version> {
    FirstIn(SortedParsed(versions), range)
  }

  function HighestIn(versions: seq<Version>, range: Range): Option<Version> {
    LastIn(SortedParsed(versions), range)
  }

  method MinSatisfying(versions: seq<Version>, range: Range) returns (r: Option<Version>)
    ensures r == LowestIn(versions, range)
  {
    hide Satisfies, SortedParsed;
    var all := SortedParsed(versions);
    for i := 0 to |all|
      invariant FirstIn(all, range) == FirstIn(all[i..], range)
    {
      if Satisfies(all[i], range) {
        return Some(all[i]);
      }
      assert all[i..][1..] == all[i + 1..];
    }
    r := None;
  }

  method MaxSatisfying(versions: seq<Version>, range: Range) returns (r: Option<Version>)
    ensures r == HighestIn(versions, range)
  {
    hide Satisfies, SortedParsed;
    var sorted := SortedParsed(versions);
    assert sorted[..|sorted|] == sorted;
    for i := |sorted| downto 0
      invariant LastIn(sorted, range) == LastIn(sorted[..i], range)
    {
      if Satisfies(sorted[i], range) {
        return Some(sorted[i]);
      }
      assert sorted[..i + 1][..i] == sorted[..i];
    }
    r := None;
  }

  lemma {:induction false} FirstInFacts(versions: seq<Version>, range: Range)
    requires Sorted(Ascending, versions)
    ensures FirstIn(versions, range).None? <==> forall v :: v in versions ==> !Satisfies(v, range)
    ensures var r := FirstIn(versions, range);
            r.Some? ==> r.value in versions && Satisfies(r.value, range)
                        && forall v :: v in versions && Satisfies(v, range) ==> Ascending(r.value, v)
  {
    hide Satisfies, Ascending;
    if versions != [] {
      if Satisfies(versions[0], range) {
        forall v | v in versions ensures Ascending(versions[0], v) || v == versions[0] {
          var i :| 0 <= i < |versions| && versions[i] == v;
          assert i == 0 || Ascending(versions[0], versions[i]);
        }
        SelfAscending(versions[0]);
      } else {
        FirstInFacts(versions[1..], range);
        assert versions == [versions[0]] + versions[1..];
      }
    }
  }

  lemma {:induction false} LastInFacts(versions: seq<Version>, range: Range)
    requires Sorted(Ascending, versions)
    ensures LastIn(versions, range).None? <==> forall v :: v in versions ==> !Satisfies(v, range)
    ensures var r := LastIn(versions, range);
            r.Some? ==> r.value in versions && Satisfies(r.value, range)
                        && forall v :: v in versions && Satisfies(v, range) ==> Ascending(v, r.value)
  {
    hide Satisfies, Ascending;
    if versions != [] {
      var n := |versions| - 1;
      if Satisfies(versions[n], range) {
        forall v | v in versions ensures Ascending(v, versions[n]) || v == versions[n] {
          var i :| 0 <= i < |versions| && versions[i] == v;
          assert i == n || Ascending(versions[i], versions[n]);
        }
        SelfAscending(versions[n]);
      } else {
        LastInFacts(versions[..n], range);
        assert versions == versions[..n] + [versions[n]];
      }
    }
  }

  lemma SelfAscending(v: Version)
    ensures Ascending(v, v)
  {
    if v.parsed.Some? {
      ZeroExactlyWhenEqual(v.parsed.value, v.parsed.value);
    }
  }

  /** `minSatisfying`: a least listed version in range, whatever the list order; none exactly when no listed version is. */
  lemma LowestIsLeast(versions: seq<Version>, range: Range)
    ensures LowestIn(versions, range).None? <==> forall v :: v in versions ==> !Satisfies(v, range)
    ensures var r := LowestIn(versions, range);
            r.Some? ==> r.value in versions && Satisfies(r.value, range)
                        && forall v :: v in versions && Satisfies(v, range) ==> AtMost(r.value.parsed.value, v.parsed.value)
  {
    SortedParsedFacts(versions);
    FirstInFacts(SortedParsed(versions), range);
    hide SortedParsed, FirstIn, Sorted;
    forall v | v in versions && Satisfies(v, range) ensures v in SortedParsed(versions) {}
  }

  /** `maxSatisfying`: a greatest listed version in range, whatever the list order; none exactly when no listed version is. */
  lemma HighestIsGreatest(versions: seq<Version>, range: Range)
    ensures HighestIn(versions, range).None? <==> forall v :: v in versions ==> !Satisfies(v, range)
    ensures var r := HighestIn(versions, range);
            r.Some? ==> r.value in versions && Satisfies(r.value, range)
                        && forall v :: v in versions && Satisfies(v, range) ==> AtMost(v.parsed.value, r.value.parsed.value)
  {
    SortedParsedFacts(versions);
    LastInFacts(SortedParsed(versions), range);
    hide SortedParsed, LastIn, Sorted;
    forall v | v in versions && Satisfies(v, range) ensures v in SortedParsed(versions) {}
  }
}
