/** What an accepted report says, read off its own entries. */
module AcceptanceMeaning {
  import opened Collections
  import opened NameMatching
  import opened Screener
  import opened ScreenerFacts
  import opened ReportVerifier
  import opened ScreeningAgreement

  /** Some list version of `source` has the id. */
  predicate Cites(versions: seq<Version>, id: nat, source: Source) {
    exists k :: 0 <= k < |versions| && versions[k].id == id && versions[k].source == source
  }

  predicate AllCite(versions: seq<Version>, refs: seq<nat>, source: Source) {
    refs != [] && forall k :: 0 <= k < |refs| ==> Cites(versions, refs[k], source)
  }

  predicate DistinctIds(versions: seq<Version>) {
    forall i, j :: 0 <= i < j < |versions| ==> versions[i].id != versions[j].id
  }

  /** A match in range, named, cited, and with the severity its method and score carry. */
  predicate SoundEntry(versions: seq<Version>, source: Source, m: Match) {
    && 0.0 <= m.score <= 1.0 && m.matchedName != "" && AllCite(versions, m.citations, source)
    && SeverityForMatch(m.via, m.score) == Some(m.severity)
  }

  predicate Holds(matches: seq<Match>, s: Severity) {
    exists k :: 0 <= k < |matches| && matches[k].severity == s
  }

  /** The worst severity: severe, else potential, else clear. */
  predicate WorstOf(verdict: Verdict, severe: bool, potential: bool) {
    verdict == if severe then Severe else if potential then Potential else Clear
  }

  predicate SoundSource(versions: seq<Version>, per: PerSource) {
    match per
    case Unscreened(_, reason) => Trim(reason) != ""
    case Screened(source, refs, matches, verdict) =>
      && AllCite(versions, refs, source)
      && (forall k :: 0 <= k < |matches| ==> SoundEntry(versions, source, matches[k]))
      && WorstOf(verdict, Holds(matches, SevereMatch), Holds(matches, PotentialMatch))
  }

  /** Some screened source holds a match of the severity. */
  predicate SomeSource(perSource: seq<PerSource>, s: Severity) {
    exists i :: 0 <= i < |perSource| && perSource[i].Screened? && Holds(perSource[i].matches, s)
  }

  predicate SamePanel(panel: seq<Source>, perSource: seq<PerSource>) {
    forall s :: s in panel <==> exists i :: 0 <= i < |perSource| && perSource[i].source == s
  }

  predicate OneResultEach(perSource: seq<PerSource>) {
    forall i, j :: 0 <= i < j < |perSource| ==> perSource[i].source != perSource[j].source
  }

  // ---------------------------------------------------------------------
  // Versions and citations
  // ---------------------------------------------------------------------

  lemma {:induction false} LookupExactly(versions: seq<Version>, id: nat, source: Source)
    requires DistinctIds(versions)
    ensures Resolves(VersionMap(versions), id, source) <==> Cites(versions, id, source)
  {
    if versions != [] {
      var n := |versions| - 1;
      LookupExactly(versions[..n], id, source);
      hide VersionMap;
      VersionMapLast(versions);
      assert Cites(versions, id, source) <==> Cites(versions[..n], id, source) || (versions[n].id == id && versions[n].source == source);
      assert versions[n].id == id ==> !Cites(versions[..n], id, source);
    }
  }

  lemma VersionMapLast(versions: seq<Version>)
    requires versions != []
    ensures var n := |versions| - 1; VersionMap(versions) == VersionMap(versions[..n])[versions[n].id := versions[n].source]
  {
  }

  lemma RefsExactly(versions: seq<Version>, refs: seq<nat>, source: Source)
    requires DistinctIds(versions)
    ensures RefsOk(VersionMap(versions), refs, source) <==> AllCite(versions, refs, source)
  {
    hide Resolves, Cites, VersionMap;
    forall id ensures Resolves(VersionMap(versions), id, source) <==> Cites(versions, id, source) {
      LookupExactly(versions, id, source);
    }
  }

  lemma EntryExactly(versions: seq<Version>, source: Source, m: Match)
    requires DistinctIds(versions)
    ensures MatchOk(VersionMap(versions), source, m) <==> SoundEntry(versions, source, m)
  {
    RefsExactly(versions, m.citations, source);
    hide RefsOk, AllCite, VersionMap;
  }

  // ---------------------------------------------------------------------
  // Verdicts
  // ---------------------------------------------------------------------

  lemma WorstExactly(matches: seq<Match>)
    ensures AggregateVerdict(Severities(matches)) == Severe <==> Holds(matches, SevereMatch)
    ensures WorstOf(AggregateVerdict(Severities(matches)), Holds(matches, SevereMatch), Holds(matches, PotentialMatch))
  {
    HeldSeverity(matches, SevereMatch);
    HeldSeverity(matches, PotentialMatch);
    hide Severities, Holds;
  }

  lemma HeldSeverity(matches: seq<Match>, s: Severity)
    ensures s in Severities(matches) <==> Holds(matches, s)
  {
    SeveritiesHold(matches, s);
    if m :| m in matches && m.severity == s {
      var k :| 0 <= k < |matches| && matches[k] == m;
    }
  }

  lemma SourceExactly(versions: seq<Version>, per: PerSource)
    requires DistinctIds(versions)
    ensures PerOk(VersionMap(versions), per) <==> SoundSource(versions, per)
  {
    if per.Screened? {
      RefsExactly(versions, per.refs, per.source);
      forall k | 0 <= k < |per.matches|
        ensures MatchOk(VersionMap(versions), per.source, per.matches[k]) <==> SoundEntry(versions, per.source, per.matches[k]) {
        EntryExactly(versions, per.source, per.matches[k]);
      }
      WorstExactly(per.matches);
      if forall k :: 0 <= k < |per.matches| ==> SoundEntry(versions, per.source, per.matches[k]) {
        forall m | m in per.matches ensures Rederives(m) {
          var k :| 0 <= k < |per.matches| && per.matches[k] == m;
          assert SoundEntry(versions, per.source, per.matches[k]);
        }
        DerivedAreRecorded(per.matches);
      }
      hide MatchOk, SoundEntry, RefsOk, AllCite, VersionMap, Holds, AggregateVerdict, Severities, Derived;
    }
  }

  lemma {:induction false} PanelSeverities(perSource: seq<PerSource>, s: Severity)
    ensures s in RecordedSeverities(perSource) <==> SomeSource(perSource, s)
  {
    hide Severities, Holds;
    if perSource != [] {
      var before, last := perSource[..|perSource| - 1], perSource[|perSource| - 1];
      PanelSeverities(before, s);
      if last.Screened? {
        HeldSeverity(last.matches, s);
      }
      assert forall i :: 0 <= i < |before| ==> before[i] == perSource[i];
    }
  }

  lemma SoundIsClean(versions: seq<Version>, perSource: seq<PerSource>)
    requires forall i :: 0 <= i < |perSource| ==> SoundSource(versions, perSource[i])
    ensures AllClean(perSource)
  {
    forall i | 0 <= i < |perSource| ensures CleanResult(perSource[i]) {
      assert SoundSource(versions, perSource[i]);
      if perSource[i].Screened? {
        forall m | m in perSource[i].matches ensures Rederives(m) && m.matchedName != "" {
          var k :| 0 <= k < |perSource[i].matches| && perSource[i].matches[k] == m;
          assert SoundEntry(versions, perSource[i].source, perSource[i].matches[k]);
        }
      }
    }
  }

  // ---------------------------------------------------------------------
  // The panel
  // ---------------------------------------------------------------------

  lemma {:induction false} DistinctCount(sources: seq<Source>)
    requires Distinct(sources)
    ensures |set s | s in sources| == |sources|
  {
    if sources == [] {
      assert (set s | s in sources) == {};
    } else {
      var front, last := sources[..|sources| - 1], sources[|sources| - 1];
      DistinctCount(front);
      assert sources == front + [last];
      assert (set s | s in sources) == (set s | s in front) + {last};
    }
  }

  lemma CompleteExactly(report: Report)
    requires Distinct(report.panel) && OneResultEach(report.perSource) && SamePanel(report.panel, report.perSource)
    ensures RecomputedComplete(report) <==> report.perSource != [] && AllScreened(report.perSource)
  {
    var covered := Covered(report.perSource);
    CoveredSize(report.perSource);
    CoveredKeys(report.perSource);
    DistinctCount(report.panel);
    SourcesAre(report.perSource);
    hide Covered, Distinct, SourcesOf, OneResultEach;
    assert covered.Keys == set s | s in report.panel;
    assert |covered| == |covered.Keys|;
    if report.perSource == [] {
      assert covered == map[];
    } else {
      assert report.perSource[0].source in covered;
    }
  }

  lemma SourcesAre(perSource: seq<PerSource>)
    ensures forall s :: s in SourcesOf(perSource) <==> exists i :: 0 <= i < |perSource| && perSource[i].source == s
    ensures Distinct(SourcesOf(perSource)) <==> OneResultEach(perSource)
  {
    assert forall i :: 0 <= i < |perSource| ==> SourcesOf(perSource)[i] == perSource[i].source;
    forall s ensures s in SourcesOf(perSource) <==> exists i :: 0 <= i < |perSource| && perSource[i].source == s {
      if i :| 0 <= i < |perSource| && perSource[i].source == s {
        assert SourcesOf(perSource)[i] == s;
      }
    }
  }

  // ---------------------------------------------------------------------
  // Acceptance
  // ---------------------------------------------------------------------

  /** Every result is sound, each source has one, and the panel is those sources, the expected ones among them. */
  ghost predicate SoundPanel(report: Report, expected: seq<Source>) {
    && (forall i :: 0 <= i < |report.perSource| ==> SoundSource(report.versions, report.perSource[i]))
    && OneResultEach(report.perSource) && Distinct(report.panel) && SamePanel(report.panel, report.perSource)
    && (forall s :: s in expected ==> s in report.panel)
  }

  lemma PanelExactly(report: Report, expected: seq<Source>)
    requires DistinctIds(report.versions)
    ensures SoundPanel(report, expected) <==>
            && AllResultsOk(VersionMap(report.versions), report.perSource)
            && Distinct(SourcesOf(report.perSource)) && PanelOk(report, expected)
  {
    forall i | 0 <= i < |report.perSource|
      ensures PerOk(VersionMap(report.versions), report.perSource[i]) <==> SoundSource(report.versions, report.perSource[i])
    {
      SourceExactly(report.versions, report.perSource[i]);
    }
    CoveredKeys(report.perSource);
    SourcesAre(report.perSource);
    hide PerOk, SoundSource, VersionMap, Covered, Distinct, OneResultEach, SourcesOf;
  }

  /**
   The checker accepts exactly the reports whose subject is named, whose list versions have
   distinct ids and genuine attestations, whose results are sound and cover the panel, and
   that are complete and severe, potential or clear exactly as their own entries say.
   */
  lemma AcceptsExactly(report: Report, expected: seq<Source>)
    ensures Accepts(report, expected) <==>
            && Trim(report.subject.name) != ""
            && DistinctIds(report.versions) && (forall k :: 0 <= k < |report.versions| ==> report.versions[k].genuine)
            && SoundPanel(report, expected)
            && (report.complete <==> report.perSource != [] && AllScreened(report.perSource))
            && WorstOf(report.verdict, SomeSource(report.perSource, SevereMatch), SomeSource(report.perSource, PotentialMatch))
  {
    if DistinctIds(report.versions) {
      PanelExactly(report, expected);
      if SoundPanel(report, expected) {
        CompleteExactly(report);
        SoundIsClean(report.versions, report.perSource);
        DerivedOverall(report.perSource);
        PanelSeverities(report.perSource, SevereMatch);
        PanelSeverities(report.perSource, PotentialMatch);
      }
    }
    hide AllResultsOk, VersionMap, Distinct, SourcesOf, PanelOk, RecomputedComplete, AllScreened, AllDerived, RecordedSeverities, SoundPanel, SomeSource;
  }
}
