/** The third-party check of a screening report, over the report alone. */
module ReportVerifier {
  import opened Collections
  import opened NameMatching
  import opened Screener
  import opened ScreenerFacts

  // ---------------------------------------------------------------------
  // What an acceptable report is
  // ---------------------------------------------------------------------

  /** Version id to source; a repeated id keeps its last source. */
  function VersionMap(versions: seq<Version>): map<nat, Source> {
    if versions == [] then map[]
    else VersionMap(versions[..|versions| - 1])[versions[|versions| - 1].id := versions[|versions| - 1].source]
  }

  ghost predicate VersionsOk(versions: seq<Version>) {
    && (forall i, j :: 0 <= i < j < |versions| ==> versions[i].id != versions[j].id)
    && (forall i :: 0 <= i < |versions| ==> versions[i].genuine)
  }

  predicate Resolves(byId: map<nat, Source>, ref: nat, source: Source) {
    ref in byId && byId[ref] == source
  }

  predicate RefsOk(byId: map<nat, Source>, refs: seq<nat>, source: Source) {
    refs != [] && forall k :: 0 <= k < |refs| ==> Resolves(byId, refs[k], source)
  }

  predicate MatchOk(byId: map<nat, Source>, source: Source, m: Match) {
    0.0 <= m.score <= 1.0 && m.matchedName != "" && RefsOk(byId, m.citations, source) && Rederives(m)
  }

  /** The severities the recorded (method, score) pairs carry. */
  function Derived(matches: seq<Match>): seq<Severity> {
    if matches == [] then []
    else
      var last := matches[|matches| - 1];
      var severity := SeverityForMatch(last.via, last.score);
      Derived(matches[..|matches| - 1]) + if severity.Some? then [severity.value] else []
  }

  function AllDerived(perSource: seq<PerSource>): seq<Severity> {
    if perSource == [] then []
    else
      var last := perSource[|perSource| - 1];
      AllDerived(perSource[..|perSource| - 1]) + if last.Screened? then Derived(last.matches) else []
  }

  predicate PerOk(byId: map<nat, Source>, per: PerSource) {
    match per
    case Unscreened(_, reason) => Trim(reason) != ""
    case Screened(source, refs, matches, verdict) =>
      && RefsOk(byId, refs, source)
      && (forall k :: 0 <= k < |matches| ==> MatchOk(byId, source, matches[k]))
      && verdict == AggregateVerdict(Derived(matches))
  }

  predicate AllResultsOk(byId: map<nat, Source>, perSource: seq<PerSource>) {
    forall i :: 0 <= i < |perSource| ==> PerOk(byId, perSource[i])
  }

  /** Source to status; a repeated source keeps its last status. */
  function Covered(perSource: seq<PerSource>): map<Source, bool> {
    if perSource == [] then map[]
    else
      var last := perSource[|perSource| - 1];
      Covered(perSource[..|perSource| - 1])[last.source := last.Screened?]
  }

  predicate Distinct(sources: seq<Source>) {
    forall i, j :: 0 <= i < j < |sources| ==> sources[i] != sources[j]
  }

  function SourcesOf(perSource: seq<PerSource>): (r: seq<Source>)
    ensures |r| == |perSource|
  {
    seq(|perSource|, i requires 0 <= i < |perSource| => perSource[i].source)
  }

  function RecomputedComplete(report: Report): bool {
    var covered := Covered(report.perSource);
    covered != map[] && (forall s :: s in covered ==> covered[s]) && |report.panel| == |covered|
  }

  ghost predicate PanelOk(report: Report, expected: seq<Source>) {
    && Distinct(report.panel)
    && (forall s :: s in report.panel <==> s in Covered(report.perSource))
    && (forall s :: s in expected ==> s in report.panel)
  }

  ghost predicate Accepts(report: Report, expected: seq<Source>) {
    && Trim(report.subject.name) != ""
    && VersionsOk(report.versions)
    && AllResultsOk(VersionMap(report.versions), report.perSource)
    && Distinct(SourcesOf(report.perSource))
    && PanelOk(report, expected)
    && report.complete == RecomputedComplete(report)
    && report.verdict == AggregateVerdict(AllDerived(report.perSource))
  }

  // ---------------------------------------------------------------------
  // The check
  // ---------------------------------------------------------------------

  datatype Problem =
    | UnnamedSubject | DuplicateVersion(id: nat) | BadAttestation(id: nat)
    | RepeatedSource(source: Source) | GapWithoutReason(source: Source) | Uncited(source: Source) | BadRef(source: Source, ref: nat)
    | BadScore(source: Source) | MissingName(source: Source) | WrongSeverity(source: Source) | WrongSourceVerdict(source: Source)
    | RepeatedInPanel(source: Source) | NotCovered(source: Source) | NotInPanel(source: Source) | Missing(source: Source)
    | WrongCompleteness | WrongVerdict

  method CheckVersions(versions: seq<Version>) returns (byId: map<nat, Source>, problems: seq<Problem>, checked: nat)
    ensures byId == VersionMap(versions) && (problems == [] <==> VersionsOk(versions)) && checked == |versions|
  {
    byId, problems, checked := map[], [], 0;
    var i := 0;
    NoVersions();
    assert versions[..0] == [];
    hide VersionsOk, VersionMap;
    while i < |versions|
      invariant 0 <= i <= |versions| && checked == i
      invariant byId == VersionMap(versions[..i])
      invariant problems == [] <==> VersionsOk(versions[..i])
    {
      var v := versions[i];
      assert versions[..i + 1] == versions[..i] + [v];
      MoreVersions(versions[..i], v);
      if v.id in byId {
        problems := problems + [DuplicateVersion(v.id)];
      }
      byId := byId[v.id := v.source];
      checked := checked + 1;
      if !v.genuine {
        problems := problems + [BadAttestation(v.id)];
      }
      i := i + 1;
    }
    assert versions[..i] == versions;
  }

  lemma NoVersions()
    ensures VersionMap([]) == map[] && VersionsOk([])
  {
  }

  lemma {:induction false} VersionKeys(versions: seq<Version>, id: nat)
    ensures id in VersionMap(versions) <==> exists k :: 0 <= k < |versions| && versions[k].id == id
  {
    if versions != [] {
      var before := versions[..|versions| - 1];
      VersionKeys(before, id);
      assert forall k :: 0 <= k < |before| ==> before[k] == versions[k];
    }
  }

  lemma MoreVersions(versions: seq<Version>, v: Version)
    ensures VersionMap(versions + [v]) == VersionMap(versions)[v.id := v.source]
    ensures VersionsOk(versions + [v]) <==> VersionsOk(versions) && v.genuine && v.id !in VersionMap(versions)
  {
    var more := versions + [v];
    assert more[..|versions|] == versions;
    VersionKeys(versions, v.id);
    hide VersionMap;
    assert more[|versions|] == v && forall k :: 0 <= k < |versions| ==> more[k] == versions[k];
    if VersionsOk(more) {
      forall i, j | 0 <= i < j < |versions| ensures versions[i].id != versions[j].id {
        assert more[i].id != more[j].id;
      }
      forall k | 0 <= k < |versions| ensures versions[k].id != v.id {
        assert more[k].id != more[|versions|].id;
      }
    }
  }

  method CheckRefs(byId: map<nat, Source>, refs: seq<nat>, source: Source) returns (problems: seq<Problem>)
    ensures problems == [] <==> RefsOk(byId, refs, source)
  {
    problems := [];
    if refs == [] {
      return [Uncited(source)];
    }
    for i := 0 to |refs|
      invariant problems == [] <==> forall k :: 0 <= k < i ==> Resolves(byId, refs[k], source)
    {
      if !Resolves(byId, refs[i], source) {
        problems := problems + [BadRef(source, refs[i])];
      }
    }
  }

  method CheckMatch(byId: map<nat, Source>, source: Source, m: Match) returns (problems: seq<Problem>, derived: Option<Severity>)
    ensures problems == [] <==> MatchOk(byId, source, m)
    ensures derived == SeverityForMatch(m.via, m.score)
  {
    problems := [];
    if !(0.0 <= m.score <= 1.0) {
      problems := problems + [BadScore(source)];
    }
    if m.matchedName == "" {
      problems := problems + [MissingName(source)];
    }
    var refs := CheckRefs(byId, m.citations, source);
    problems := problems + refs;
    derived := SeverityForMatch(m.via, m.score);
    if derived.None? || derived.value != m.severity {
      problems := problems + [WrongSeverity(source)];
    }
  }

  method CheckSource(byId: map<nat, Source>, per: PerSource) returns (problems: seq<Problem>, severities: seq<Severity>, checked: nat)
    ensures problems == [] <==> PerOk(byId, per)
    ensures severities == if per.Screened? then Derived(per.matches) else []
    ensures checked == if per.Screened? then |per.matches| else 0
  {
    problems, severities, checked := [], [], 0;
    if per.Unscreened? {
      if Trim(per.reason) == "" {
        problems := [GapWithoutReason(per.source)];
      }
      return;
    }
    problems := CheckRefs(byId, per.refs, per.source);
    while checked < |per.matches|
      invariant 0 <= checked <= |per.matches|
      invariant severities == Derived(per.matches[..checked])
      invariant problems == [] <==> RefsOk(byId, per.refs, per.source) && forall k :: 0 <= k < checked ==> MatchOk(byId, per.source, per.matches[k])
    {
      assert per.matches[..checked + 1][..checked] == per.matches[..checked];
      var found, derived := CheckMatch(byId, per.source, per.matches[checked]);
      problems := problems + found;
      if derived.Some? {
        severities := severities + [derived.value];
      }
      checked := checked + 1;
    }
    assert per.matches[..checked] == per.matches;
    if per.verdict != AggregateVerdict(severities) {
      problems := problems + [WrongSourceVerdict(per.source)];
    }
  }

  function MatchTotal(perSource: seq<PerSource>): nat {
    if perSource == [] then 0
    else
      var last := perSource[|perSource| - 1];
      MatchTotal(perSource[..|perSource| - 1]) + if last.Screened? then |last.matches| else 0
  }

  method CheckSources(byId: map<nat, Source>, perSource: seq<PerSource>)
    returns (covered: map<Source, bool>, problems: seq<Problem>, severities: seq<Severity>, checked: nat)
    ensures covered == Covered(perSource) && severities == AllDerived(perSource) && checked == MatchTotal(perSource)
    ensures problems == [] <==>
            Distinct(SourcesOf(perSource)) && AllResultsOk(byId, perSource)
  {
    hide PerOk, Derived, Covered, AllDerived, MatchTotal, SourcesOf, Distinct, AllResultsOk;
    covered, problems, severities, checked := map[], [], [], 0;
    var i := 0;
    NoSources(byId);
    assert perSource[..0] == [];
    while i < |perSource|
      invariant 0 <= i <= |perSource|
      invariant covered == Covered(perSource[..i]) && severities == AllDerived(perSource[..i]) && checked == MatchTotal(perSource[..i])
      invariant |problems| == 0 <==> Distinct(SourcesOf(perSource[..i])) && AllResultsOk(byId, perSource[..i])
    {
      MoreResults(byId, perSource, i);
      var per := perSource[i];
      if per.source in covered {
        problems := problems + [RepeatedSource(per.source)];
      }
      covered := covered[per.source := per.Screened?];
      var found, derived, n := CheckSource(byId, per);
      assert found == [] <==> PerOk(byId, per);
      problems := problems + found;
      severities := severities + derived;
      checked := checked + n;
      i := i + 1;
    }
    assert perSource[..i] == perSource;
  }

  lemma NoSources(byId: map<nat, Source>)
    ensures Covered([]) == map[] && AllDerived([]) == [] && MatchTotal([]) == 0 && Distinct(SourcesOf([])) && AllResultsOk(byId, [])
  {
  }

  lemma MoreResults(byId: map<nat, Source>, perSource: seq<PerSource>, i: nat)
    requires i < |perSource|
    ensures Covered(perSource[..i + 1]) == Covered(perSource[..i])[perSource[i].source := perSource[i].Screened?]
    ensures AllDerived(perSource[..i + 1]) ==
            AllDerived(perSource[..i]) + if perSource[i].Screened? then Derived(perSource[i].matches) else []
    ensures MatchTotal(perSource[..i + 1]) == MatchTotal(perSource[..i]) + if perSource[i].Screened? then |perSource[i].matches| else 0
    ensures AllResultsOk(byId, perSource[..i + 1]) <==> AllResultsOk(byId, perSource[..i]) && PerOk(byId, perSource[i])
    ensures Distinct(SourcesOf(perSource[..i + 1])) <==> Distinct(SourcesOf(perSource[..i])) && perSource[i].source !in Covered(perSource[..i])
  {
    hide PerOk, Derived;
    var more, before := perSource[..i + 1], perSource[..i];
    assert more[..i] == before && more[i] == perSource[i] && more == before + [perSource[i]];
    assert forall k :: 0 <= k < i ==> more[k] == before[k];
    MoreSources(before, perSource[i]);
    hide Distinct, SourcesOf;
    if AllResultsOk(byId, more) {
      forall k | 0 <= k < i ensures PerOk(byId, before[k]) { assert PerOk(byId, more[k]); }
    }
  }

  lemma {:induction false} CoveredKeys(perSource: seq<PerSource>)
    ensures forall s :: s in Covered(perSource) <==> s in SourcesOf(perSource)
  {
    if perSource != [] {
      var before, last := perSource[..|perSource| - 1], perSource[|perSource| - 1];
      CoveredKeys(before);
      assert SourcesOf(perSource) == SourcesOf(before) + [last.source];
    }
  }

  lemma MoreSources(perSource: seq<PerSource>, per: PerSource)
    ensures Distinct(SourcesOf(perSource + [per])) <==> Distinct(SourcesOf(perSource)) && per.source !in Covered(perSource)
  {
    CoveredKeys(perSource);
    var all := SourcesOf(perSource);
    assert SourcesOf(perSource + [per]) == all + [per.source];
    DistinctMore(all, per.source);
  }

  lemma DistinctMore(all: seq<Source>, s: Source)
    ensures Distinct(all + [s]) <==> Distinct(all) && s !in all
  {
    var more := all + [s];
    if Distinct(more) {
      forall i, j | 0 <= i < j < |all| ensures all[i] != all[j] { assert more[i] != more[j]; }
      forall k | 0 <= k < |all| ensures all[k] != s { assert more[k] != more[|all|]; }
    }
  }

  method CheckPanel(panel: seq<Source>, covered: map<Source, bool>, expected: seq<Source>) returns (problems: seq<Problem>)
    ensures problems == [] <==>
            && Distinct(panel)
            && (forall s :: s in panel <==> s in covered)
            && (forall s :: s in expected ==> s in panel)
  {
    problems := [];
    var panelIds: seq<Source> := [];
    for i := 0 to |panel|
      invariant forall s :: s in panelIds <==> s in panel[..i]
      invariant problems == [] <==> Distinct(panel[..i])
    {
      assert panel[..i + 1] == panel[..i] + [panel[i]];
      DistinctMore(panel[..i], panel[i]);
      if panel[i] in panelIds {
        problems := problems + [RepeatedInPanel(panel[i])];
      } else {
        panelIds := panelIds + [panel[i]];
      }
    }
    assert panel[..|panel|] == panel;
    ghost var before := problems;
    for i := 0 to |panelIds|
      invariant problems == [] <==> before == [] && forall k :: 0 <= k < i ==> panelIds[k] in covered
    {
      if panelIds[i] !in covered {
        problems := problems + [NotCovered(panelIds[i])];
      }
    }
    assert (forall k :: 0 <= k < |panelIds| ==> panelIds[k] in covered) <==> (forall s :: s in panel ==> s in covered) by {
      if forall k :: 0 <= k < |panelIds| ==> panelIds[k] in covered {
        forall s | s in panel ensures s in covered { assert s in panelIds; }
      } else {
        var k :| 0 <= k < |panelIds| && panelIds[k] !in covered;
        assert panelIds[k] in panel;
      }
    }
    var rest := covered.Keys;
    while rest != {}
      invariant rest <= covered.Keys
      invariant problems == [] <==>
                before == [] && (forall s :: s in panel ==> s in covered) && (forall s :: s in covered.Keys - rest ==> s in panel)
      decreases rest
    {
      var s :| s in rest;
      if s !in panelIds {
        problems := problems + [NotInPanel(s)];
      }
      rest := rest - {s};
    }
    ghost var soFar := problems;
    for i := 0 to |expected|
      invariant problems == [] <==> soFar == [] && forall k :: 0 <= k < i ==> expected[k] in panel
    {
      if expected[i] !in panelIds {
        problems := problems + [Missing(expected[i])];
      }
    }
  }

  method VerifyScreening(report: Report, expected: seq<Source>)
    returns (valid: bool, problems: seq<Problem>, attestationsChecked: nat, matchesChecked: nat, verdict: Verdict, complete: bool)
    ensures valid <==> Accepts(report, expected)
    ensures valid <==> problems == []
    ensures attestationsChecked == |report.versions| && matchesChecked == MatchTotal(report.perSource)
    ensures verdict == AggregateVerdict(AllDerived(report.perSource)) && complete == RecomputedComplete(report)
  {
    hide VersionsOk, PerOk, Distinct, AllDerived, AggregateVerdict, Covered, VersionMap;
    problems := [];
    if Trim(report.subject.name) == "" {
      problems := [UnnamedSubject];
    }
    var byId, versionProblems, n := CheckVersions(report.versions);
    var covered, sourceProblems, severities, m := CheckSources(byId, report.perSource);
    var panelProblems := CheckPanel(report.panel, covered, expected);
    attestationsChecked, matchesChecked := n, m;
    problems := problems + versionProblems + sourceProblems + panelProblems;
    complete := covered != map[] && (forall s :: s in covered ==> covered[s]) && |report.panel| == |covered|;
    if report.complete != complete {
      problems := problems + [WrongCompleteness];
    }
    verdict := AggregateVerdict(severities);
    if report.verdict != verdict {
      problems := problems + [WrongVerdict];
    }
    valid := problems == [];
  }
}
