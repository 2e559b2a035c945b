/** Producer and checker together: exactly which produced reports the checker accepts. */
module ScreeningAgreement {
  import opened Collections
  import opened Text
  import opened NameMatching
  import opened Sorting
  import opened Screener
  import opened ScreenerFacts
  import opened ReportVerifier

  // ---------------------------------------------------------------------
  // List versions
  // ---------------------------------------------------------------------

  lemma {:induction false} VersionIds(inputs: seq<Input>)
    ensures forall k :: 0 <= k < |Versions(inputs)| ==> Versions(inputs)[k].id == k + 1
  {
    if inputs != [] {
      VersionIds(inputs[..|inputs| - 1]);
    }
  }

  predicate AllGenuine(inputs: seq<Input>) {
    forall i :: 0 <= i < |inputs| && inputs[i].Loaded? ==> forall k :: 0 <= k < |inputs[i].snapshot.downloads| ==> inputs[i].snapshot.downloads[k].genuine
  }

  /** The downloads of input `i` are numbered consecutively after all earlier ones. */
  lemma {:induction false} VersionBlock(inputs: seq<Input>, i: nat, k: nat)
    requires i < |inputs| && inputs[i].Loaded? && k < |inputs[i].snapshot.downloads|
    ensures |Versions(inputs[..i])| + k < |Versions(inputs)|
    ensures Versions(inputs)[|Versions(inputs[..i])| + k] ==
            Version(|Versions(inputs[..i])| + 1 + k, inputs[i].source, inputs[i].snapshot.downloads[k].genuine)
    decreases |inputs|
  {
    var before := inputs[..|inputs| - 1];
    if i < |before| {
      VersionBlock(before, i, k);
      assert before[..i] == inputs[..i];
    }
  }

  /** Every version stems from some download. */
  lemma {:induction false} VersionOrigin(inputs: seq<Input>, n: nat) returns (i: nat, k: nat)
    requires n < |Versions(inputs)|
    ensures i < |inputs| && inputs[i].Loaded? && k < |inputs[i].snapshot.downloads|
    ensures Versions(inputs)[n].genuine == inputs[i].snapshot.downloads[k].genuine
  {
    var before := inputs[..|inputs| - 1];
    if n < |Versions(before)| {
      i, k := VersionOrigin(before, n);
    } else {
      i, k := |inputs| - 1, n - |Versions(before)|;
    }
  }

  lemma VersionsOkExactly(inputs: seq<Input>)
    ensures VersionsOk(Versions(inputs)) <==> AllGenuine(inputs)
  {
    VersionIds(inputs);
    if AllGenuine(inputs) {
      forall n | 0 <= n < |Versions(inputs)| ensures Versions(inputs)[n].genuine {
        var i, k := VersionOrigin(inputs, n);
      }
    }
    if VersionsOk(Versions(inputs)) {
      forall i, k | 0 <= i < |inputs| && inputs[i].Loaded? && 0 <= k < |inputs[i].snapshot.downloads|
        ensures inputs[i].snapshot.downloads[k].genuine {
        VersionBlock(inputs, i, k);
      }
    }
  }

  lemma {:induction false} VersionLookup(versions: seq<Version>, n: nat)
    requires n < |versions| && forall k :: 0 <= k < |versions| ==> versions[k].id == k + 1
    ensures Resolves(VersionMap(versions), n + 1, versions[n].source)
  {
    if n < |versions| - 1 {
      VersionLookup(versions[..|versions| - 1], n);
    }
  }

  lemma RefsResolve(inputs: seq<Input>, i: nat)
    requires i < |inputs| && inputs[i].Loaded? && inputs[i].snapshot.downloads != []
    ensures RefsOk(VersionMap(Versions(inputs)), Numbers(|Versions(inputs[..i])| + 1, |inputs[i].snapshot.downloads|), inputs[i].source)
  {
    hide Versions, VersionMap;
    VersionIds(inputs);
    var first := |Versions(inputs[..i])| + 1;
    var refs := Numbers(first, |inputs[i].snapshot.downloads|);
    forall k | 0 <= k < |refs| ensures Resolves(VersionMap(Versions(inputs)), refs[k], inputs[i].source) {
      VersionBlock(inputs, i, k);
      VersionLookup(Versions(inputs), first - 1 + k);
    }
  }

  // ---------------------------------------------------------------------
  // One source
  // ---------------------------------------------------------------------

  lemma TitleScoreRange(s: PreparedName, title: PreparedName)
    ensures 0.0 <= TitleScore(s, title) <= 1.0
  {
    BestMatchIsBest([s], [title]);
    var best := BestMatch([s], [title]);
    if best.Some? {
      var a, b :| a in [s] && b in [title] && ReportsPair(best.value, a, b);
      CoreOnlyRaises(a, b);
    }
  }

  lemma {:induction false} TitleHitRange(names: seq<PreparedName>, title: PreparedName, hit: Option<FilerHit>)
    requires hit.Some? ==> 0.0 <= hit.value.score <= 1.0
    ensures TitleHit(names, title, hit).Some? ==> 0.0 <= TitleHit(names, title, hit).value.score <= 1.0
  {
    if names != [] {
      TitleScoreRange(names[0], title);
      var s, score := names[0], TitleScore(names[0], title);
      TitleHitRange(names[1..], title,
                    if s.tokens != {} && score > 0.0 && (hit.None? || score > hit.value.score)
                    then Some(FilerHit(score, s.raw, title.raw)) else hit);
    }
  }

  lemma {:induction false} TickerHitScore(names: seq<PreparedName>, filer: Filer)
    ensures TickerHit(names, filer).Some? ==> TickerHit(names, filer).value.score == 1.0
  {
    if names != [] {
      TickerHitScore(names[1..], filer);
    }
  }

  lemma {:induction false} FilerScores(names: seq<PreparedName>, filers: seq<Filer>, refs: seq<nat>)
    ensures forall m :: m in FilerMatches(names, filers, refs) ==> 0.0 <= m.score <= 1.0
  {
    if filers != [] {
      FilerScores(names, filers[..|filers| - 1], refs);
      var filer := filers[|filers| - 1];
      TickerHitScore(names, filer);
      TitleHitRange(names, filer.title, None);
      if HitOf(names, filer).Some? {
        Round6Range(HitOf(names, filer).value.score);
      }
    }
  }

  lemma MatchShape(subject: Subject, source: Source, snapshot: Snapshot, refs: seq<nat>)
    ensures forall m :: m in KeptMatches(AllMatches(subject, source, snapshot, refs)) ==> 0.0 <= m.score <= 1.0 && m.citations == refs
  {
    var all := AllMatches(subject, source, snapshot, refs);
    KeptFacts(all);
    if source == SecEdgar {
      FilerScores(ScreenedNames(subject), snapshot.filers, refs);
      FilerSeverities(ScreenedNames(subject), snapshot.filers, refs);
    } else {
      AllMatchesFacts(subject, source, snapshot, refs);
    }
  }

  lemma {:induction false} DerivedAreRecorded(matches: seq<Match>)
    requires forall m :: m in matches ==> Rederives(m)
    ensures Derived(matches) == Severities(matches)
  {
    if matches != [] {
      var before, last := matches[..|matches| - 1], matches[|matches| - 1];
      assert matches == before + [last];
      assert forall m :: m in before ==> m in matches;
      DerivedAreRecorded(before);
      assert last in matches;
      assert Severities(matches) == Severities(before) + [last.severity];
    }
  }

  /** What a result needs beyond how it was made. */
  predicate CleanResult(per: PerSource) {
    match per
    case Unscreened(_, reason) => Trim(reason) != ""
    case Screened(_, _, matches, _) => forall m :: m in matches ==> Rederives(m) && m.matchedName != ""
  }

  lemma PerOkExactly(subject: Subject, inputs: seq<Input>, i: nat)
    requires Citable(inputs) && i < |inputs|
    ensures var per := PerSources(subject, inputs)[i];
            PerOk(VersionMap(Versions(inputs)), per) <==> CleanResult(per)
  {
    PerSourceAt(subject, inputs, i);
    var per := PerSources(subject, inputs)[i];
    if inputs[i].Loaded? {
      var snapshot := inputs[i].snapshot;
      RefsResolve(inputs, i);
      MatchShape(subject, inputs[i].source, snapshot, per.refs);
      hide AllMatches, KeptMatches, Versions, VersionMap, RefsOk;
      if CleanResult(per) {
        DerivedAreRecorded(per.matches);
      } else {
        var m :| m in per.matches && !(Rederives(m) && m.matchedName != "");
        var k :| 0 <= k < |per.matches| && per.matches[k] == m;
        assert !MatchOk(VersionMap(Versions(inputs)), per.source, per.matches[k]);
      }
    }
  }

  // ---------------------------------------------------------------------
  // The panel
  // ---------------------------------------------------------------------

  lemma {:induction false} CoveredSize(perSource: seq<PerSource>)
    requires Distinct(SourcesOf(perSource))
    ensures |Covered(perSource)| == |perSource|
    ensures (forall s :: s in Covered(perSource) ==> Covered(perSource)[s]) <==> AllScreened(perSource)
  {
    if perSource != [] {
      var before, last := perSource[..|perSource| - 1], perSource[|perSource| - 1];
      assert perSource == before + [last];
      MoreSources(before, last);
      CoveredSize(before);
      OneMoreSource(before, last);
      AddEntry(Covered(before), last.source, last.Screened?);
      assert Covered(perSource)[last.source] == last.Screened?;
      forall s | s in Covered(before) ensures Covered(perSource)[s] == Covered(before)[s] {}
    }
  }

  lemma {:induction false} DerivedOverall(perSource: seq<PerSource>)
    requires AllClean(perSource)
    ensures AllDerived(perSource) == RecordedSeverities(perSource)
  {
    if perSource != [] {
      var before, last := perSource[..|perSource| - 1], perSource[|perSource| - 1];
      assert forall i :: 0 <= i < |before| ==> before[i] == perSource[i];
      assert CleanResult(last);
      DerivedOverall(before);
      if last.Screened? {
        DerivedAreRecorded(last.matches);
      }
    }
  }

  lemma SourcesAreInputs(subject: Subject, inputs: seq<Input>)
    ensures SourcesOf(PerSources(subject, inputs)) == InputSources(inputs)
  {
    forall i | 0 <= i < |inputs| ensures PerSources(subject, inputs)[i].source == inputs[i].source {
      PerSourceAt(subject, inputs, i);
    }
  }

  predicate AllClean(perSource: seq<PerSource>) {
    forall i :: 0 <= i < |perSource| ==> CleanResult(perSource[i])
  }

  lemma ResultsExactly(subject: Subject, inputs: seq<Input>)
    requires Citable(inputs)
    ensures AllResultsOk(VersionMap(Versions(inputs)), PerSources(subject, inputs)) <==> AllClean(PerSources(subject, inputs))
  {
    var byId, perSource := VersionMap(Versions(inputs)), PerSources(subject, inputs);
    forall i | 0 <= i < |inputs| ensures PerOk(byId, perSource[i]) <==> CleanResult(perSource[i]) {
      PerOkExactly(subject, inputs, i);
    }
    hide PerOk, CleanResult, PerSources, Versions, VersionMap;
    if AllClean(perSource) {
      forall i | 0 <= i < |perSource| ensures PerOk(byId, perSource[i]) {}
    }
    if AllResultsOk(byId, perSource) {
      forall i | 0 <= i < |perSource| ensures CleanResult(perSource[i]) {}
    }
  }

  lemma PanelExactly(report: Report, expected: seq<Source>)
    requires report.panel == SourcesOf(report.perSource) && report.complete == AllScreened(report.perSource)
    ensures Distinct(SourcesOf(report.perSource)) && PanelOk(report, expected) && report.complete == RecomputedComplete(report) <==>
            report.perSource != [] && Distinct(report.panel) && forall s :: s in expected ==> s in report.panel
  {
    CoveredKeys(report.perSource);
    CompletenessExactly(report);
    hide Covered, Distinct, RecomputedComplete, AllScreened;
  }

  lemma CompletenessExactly(report: Report)
    requires report.panel == SourcesOf(report.perSource) && report.complete == AllScreened(report.perSource)
    ensures Distinct(report.panel) ==> (report.complete == RecomputedComplete(report) <==> report.perSource != [])
  {
    if Distinct(report.panel) {
      CoveredSize(report.perSource);
      if report.perSource == [] {
        assert Covered(report.perSource) == map[];
      } else {
        CoveredKeys(report.perSource);
        assert report.perSource[0].source in SourcesOf(report.perSource) by {
          assert SourcesOf(report.perSource)[0] == report.perSource[0].source;
        }
      }
    }
  }

  lemma AcceptedWhenResultsClean(subject: Subject, inputs: seq<Input>, expected: seq<Source>)
    requires Citable(inputs)
    ensures Screen(subject, inputs).Some?
    ensures Accepts(Screen(subject, inputs).value, expected) <==>
            && Trim(subject.name) != ""
            && inputs != [] && Distinct(InputSources(inputs)) && (forall s :: s in expected ==> s in InputSources(inputs))
            && AllGenuine(inputs)
            && AllClean(PerSources(subject, inputs))
  {
    var report := Screen(subject, inputs).value;
    VersionsOkExactly(inputs);
    SourcesAreInputs(subject, inputs);
    assert report.panel == InputSources(inputs);
    ResultsExactly(subject, inputs);
    PanelExactly(report, expected);
    hide Screen, PerSources, Versions, VersionsOk, CleanResult, AllGenuine, AggregateVerdict, VersionMap, Covered, Distinct,
      PanelOk, RecomputedComplete, AllScreened, AllDerived, RecordedSeverities, SourcesOf, AllResultsOk;
    if AllClean(report.perSource) {
      DerivedOverall(report.perSource);
    }
  }

  // ---------------------------------------------------------------------
  // Acceptance, on the inputs
  // ---------------------------------------------------------------------

  /** Rounding to six places does not carry the score across a severity threshold. */
  predicate OutsideTheBands(best: Best, pep: bool) {
    if pep then !(0.9999995 <= best.score < 1.0)
    else best.via == Exact || !(0.9299995 <= best.score < MATCH_THRESHOLD)
  }

  /** A sanctions or PEP match re-derives exactly when its entry's best score lies outside the rounding bands. */
  lemma RederivesOutsideTheBands(names: seq<PreparedName>, entry: Entry, refs: seq<nat>, pep: bool)
    requires NameMatch(names, entry, refs, pep).Some?
    ensures var best := BestMatch(names, entry).value;
            Rederives(NameMatch(names, entry, refs, pep).value) <==>
            OutsideTheBands(best, pep)
  {
    BestMatchIsBest(names, entry);
    var best := BestMatch(names, entry).value;
    var s, e :| s in names && e in entry && ReportsPair(best, s, e);
    CoreOnlyRaises(s, e);
    RoundingBands(if pep then PepMatch else best.via, best.score);
  }

  /** The best pair of the entry, if any reaches a threshold, has a name and a score outside the bands. */
  predicate CleanEntry(names: seq<PreparedName>, entry: Entry, pep: bool) {
    var best := BestMatch(names, entry);
    best.Some? ==> best.value.entryName != "" && OutsideTheBands(best.value, pep)
  }

  predicate CleanFiler(names: seq<PreparedName>, filer: Filer) {
    HitOf(names, filer).Some? ==> HitOf(names, filer).value.matchedName != ""
  }

  lemma EntryIsClean(names: seq<PreparedName>, entry: Entry, refs: seq<nat>, pep: bool)
    requires NameMatch(names, entry, refs, pep).Some?
    ensures var m := NameMatch(names, entry, refs, pep).value;
            Rederives(m) && m.matchedName != "" <==> CleanEntry(names, entry, pep)
  {
    RederivesOutsideTheBands(names, entry, refs, pep);
    hide BestMatch, OutsideTheBands, Rederives;
  }

  lemma {:induction false} NameMatchesFrom(names: seq<PreparedName>, entries: seq<Entry>, refs: seq<nat>, pep: bool, m: Match)
    ensures m in NameMatches(names, entries, refs, pep) <==>
            exists k :: 0 <= k < |entries| && NameMatch(names, entries[k], refs, pep) == Some(m)
  {
    hide NameMatch;
    if entries != [] {
      var before := entries[..|entries| - 1];
      NameMatchesFrom(names, before, refs, pep, m);
      assert forall k :: 0 <= k < |before| ==> before[k] == entries[k];
    }
  }

  lemma {:induction false} FilerMatchesFrom(names: seq<PreparedName>, filers: seq<Filer>, refs: seq<nat>, m: Match)
    ensures m in FilerMatches(names, filers, refs) <==>
            exists k :: 0 <= k < |filers| && HitOf(names, filers[k]).Some? && FilerMatch(HitOf(names, filers[k]).value, refs) == m
  {
    hide HitOf, FilerMatch;
    if filers != [] {
      var before := filers[..|filers| - 1];
      FilerMatchesFrom(names, before, refs, m);
      assert forall k :: 0 <= k < |before| ==> before[k] == filers[k];
    }
  }

  lemma {:induction false} WalletMatchesAreClean(wallet: string, addresses: seq<string>, refs: seq<nat>)
    ensures forall m :: m in WalletMatches(wallet, addresses, refs) ==> Rederives(m) && m.matchedName != ""
  {
    if addresses != [] {
      WalletMatchesAreClean(wallet, addresses[..|addresses| - 1], refs);
      assert Lower("") == "" && Trim("") == "";
    }
  }

  /** Every listed entry (filer, on a registration list) whose match is among `kept` is clean. */
  ghost predicate CleanList(subject: Subject, source: Source, snapshot: Snapshot, refs: seq<nat>, kept: seq<Match>) {
    var names, pep := ScreenedNames(subject), source == OpenSanctionsPep;
    if source == SecEdgar then
      subject.kind == Entity ==>
        forall k :: 0 <= k < |snapshot.filers| && HitOf(names, snapshot.filers[k]).Some?
                    && FilerMatch(HitOf(names, snapshot.filers[k]).value, refs) in kept
                    ==> CleanFiler(names, snapshot.filers[k])
    else
      forall k :: 0 <= k < |snapshot.entries| && NameMatch(names, snapshot.entries[k], refs, pep).Some?
                  && NameMatch(names, snapshot.entries[k], refs, pep).value in kept
                  ==> CleanEntry(names, snapshot.entries[k], pep)
  }

  lemma ListIsClean(subject: Subject, source: Source, snapshot: Snapshot, refs: seq<nat>, kept: seq<Match>)
    requires forall m :: m in kept ==> m in AllMatches(subject, source, snapshot, refs)
    ensures (forall m :: m in kept ==> Rederives(m) && m.matchedName != "") <==> CleanList(subject, source, snapshot, refs, kept)
  {
    if source == SecEdgar {
      FilersAreClean(subject, snapshot, refs, kept);
    } else {
      EntriesAreClean(subject, source, snapshot, refs, kept);
    }
  }

  lemma FilersAreClean(subject: Subject, snapshot: Snapshot, refs: seq<nat>, kept: seq<Match>)
    requires forall m :: m in kept ==> m in AllMatches(subject, SecEdgar, snapshot, refs)
    ensures (forall m :: m in kept ==> Rederives(m) && m.matchedName != "") <==> CleanList(subject, SecEdgar, snapshot, refs, kept)
  {
    hide HitOf, FilerMatches;
    var names := ScreenedNames(subject);
    forall m | m in kept
      ensures subject.kind == Entity && Rederives(m)
      ensures exists k :: 0 <= k < |snapshot.filers| && HitOf(names, snapshot.filers[k]).Some? && FilerMatch(HitOf(names, snapshot.filers[k]).value, refs) == m
    {
      FilerMatchesFrom(names, snapshot.filers, refs, m);
    }
  }

  lemma EntriesAreClean(subject: Subject, source: Source, snapshot: Snapshot, refs: seq<nat>, kept: seq<Match>)
    requires source != SecEdgar && forall m :: m in kept ==> m in AllMatches(subject, source, snapshot, refs)
    ensures (forall m :: m in kept ==> Rederives(m) && m.matchedName != "") <==> CleanList(subject, source, snapshot, refs, kept)
  {
    hide NameMatch, NameMatches, WalletMatches, CleanEntry, Rederives;
    var names, pep := ScreenedNames(subject), source == OpenSanctionsPep;
    forall k | 0 <= k < |snapshot.entries| && NameMatch(names, snapshot.entries[k], refs, pep).Some?
      ensures var m := NameMatch(names, snapshot.entries[k], refs, pep).value;
              Rederives(m) && m.matchedName != "" <==> CleanEntry(names, snapshot.entries[k], pep)
    {
      EntryIsClean(names, snapshot.entries[k], refs, pep);
    }
    if CleanList(subject, source, snapshot, refs, kept) {
      forall m | m in kept ensures Rederives(m) && m.matchedName != "" {
        if m in NameMatches(names, snapshot.entries, refs, pep) {
          NameMatchesFrom(names, snapshot.entries, refs, pep, m);
        } else {
          WalletMatchesAreClean(subject.wallet.value, snapshot.addresses, refs);
        }
      }
    }
  }

  /** A gap has a reason; the entries whose matches make the cut are clean. `first` numbers the input's downloads. */
  ghost predicate CleanInput(subject: Subject, input: Input, first: nat) {
    match input
    case Gap(_, reason) => Trim(reason) != ""
    case Loaded(source, snapshot) =>
      var refs := Numbers(first, |snapshot.downloads|);
      CleanList(subject, source, snapshot, refs, KeptMatches(AllMatches(subject, source, snapshot, refs)))
  }

  ghost predicate AllInputsClean(subject: Subject, inputs: seq<Input>) {
    forall i :: 0 <= i < |inputs| ==> CleanInput(subject, inputs[i], |Versions(inputs[..i])| + 1)
  }

  lemma ResultIsClean(subject: Subject, input: Input, first: nat)
    ensures CleanResult(ScreenOne(subject, input, first)) <==> CleanInput(subject, input, first)
  {
    if input.Loaded? {
      var refs := Numbers(first, |input.snapshot.downloads|);
      var all := AllMatches(subject, input.source, input.snapshot, refs);
      KeptFacts(all);
      ListIsClean(subject, input.source, input.snapshot, refs, KeptMatches(all));
    }
  }

  lemma CleanExactly(subject: Subject, inputs: seq<Input>)
    ensures AllClean(PerSources(subject, inputs)) <==> AllInputsClean(subject, inputs)
  {
    hide PerSources, Versions, ScreenOne, CleanInput, CleanResult;
    forall i | 0 <= i < |inputs|
      ensures CleanResult(PerSources(subject, inputs)[i]) <==> CleanInput(subject, inputs[i], |Versions(inputs[..i])| + 1)
    {
      PerSourceAt(subject, inputs, i);
      ResultIsClean(subject, inputs[i], |Versions(inputs[..i])| + 1);
    }
  }

  /** The subject is named, and the panel is non-empty, without repeats, as expected, and genuine. */
  predicate GoodPanel(subject: Subject, inputs: seq<Input>, expected: seq<Source>) {
    && Trim(subject.name) != ""
    && inputs != [] && Distinct(InputSources(inputs)) && (forall s :: s in expected ==> s in InputSources(inputs))
    && AllGenuine(inputs)
  }

  /**
   The checker accepts a produced report exactly when the subject is named, the panel is
   non-empty without repeats and holds the expected sources, every attestation is genuine,
   every gap has a reason, and every entry whose match makes the cut has a name and a best
   score that rounding does not carry across a threshold.
   */
  lemma AcceptedExactly(subject: Subject, inputs: seq<Input>, expected: seq<Source>)
    requires Citable(inputs)
    ensures Screen(subject, inputs).Some?
    ensures Accepts(Screen(subject, inputs).value, expected) <==> GoodPanel(subject, inputs, expected) && AllInputsClean(subject, inputs)
  {
    AcceptedWhenResultsClean(subject, inputs, expected);
    CleanExactly(subject, inputs);
    hide Screen, Accepts, AllClean, AllInputsClean;
  }

  // ---------------------------------------------------------------------
  // Without the cut
  // ---------------------------------------------------------------------

  /** Every gap has a reason, every entry with a best pair a name and a score outside the bands, every filer hit a name. */
  predicate EveryEntryClean(subject: Subject, input: Input) {
    match input
    case Gap(_, reason) => Trim(reason) != ""
    case Loaded(source, snapshot) =>
      if source == SecEdgar then
        subject.kind == Entity ==> forall k :: 0 <= k < |snapshot.filers| ==> CleanFiler(ScreenedNames(subject), snapshot.filers[k])
      else
        forall k :: 0 <= k < |snapshot.entries| ==> CleanEntry(ScreenedNames(subject), snapshot.entries[k], source == OpenSanctionsPep)
  }

  predicate Uncut(subject: Subject, input: Input, first: nat) {
    input.Loaded? ==>
      |AllMatches(subject, input.source, input.snapshot, Numbers(first, |input.snapshot.downloads|))| <= MAX_MATCHES_PER_SOURCE
  }

  lemma CleanWithoutTheCut(subject: Subject, input: Input, first: nat)
    ensures EveryEntryClean(subject, input) ==> CleanInput(subject, input, first)
    ensures Uncut(subject, input, first) ==> (CleanInput(subject, input, first) <==> EveryEntryClean(subject, input))
  {
    if input.Loaded? && Uncut(subject, input, first) {
      var names, pep := ScreenedNames(subject), input.source == OpenSanctionsPep;
      var refs := Numbers(first, |input.snapshot.downloads|);
      var all := AllMatches(subject, input.source, input.snapshot, refs);
      UncutKeepsAll(all);
      hide KeptMatches, HitOf, NameMatch, CleanEntry;
      if input.source == SecEdgar {
        forall k | 0 <= k < |input.snapshot.filers| && HitOf(names, input.snapshot.filers[k]).Some? && subject.kind == Entity
          ensures FilerMatch(HitOf(names, input.snapshot.filers[k]).value, refs) in all
        {
          FilerMatchesFrom(names, input.snapshot.filers, refs, FilerMatch(HitOf(names, input.snapshot.filers[k]).value, refs));
        }
      } else {
        forall k | 0 <= k < |input.snapshot.entries|
          ensures NameMatch(names, input.snapshot.entries[k], refs, pep).Some? ==> NameMatch(names, input.snapshot.entries[k], refs, pep).value in all
          ensures NameMatch(names, input.snapshot.entries[k], refs, pep).None? ==> CleanEntry(names, input.snapshot.entries[k], pep)
        {
          NoMatchIsClean(names, input.snapshot.entries[k], refs, pep);
          if NameMatch(names, input.snapshot.entries[k], refs, pep).Some? {
            NameMatchesFrom(names, input.snapshot.entries, refs, pep, NameMatch(names, input.snapshot.entries[k], refs, pep).value);
          }
        }
      }
    }
  }

  lemma UncutKeepsAll(all: seq<Match>)
    requires |all| <= MAX_MATCHES_PER_SOURCE
    ensures forall m :: m in all ==> m in KeptMatches(all)
  {
    SortFacts(ScoresFirst, all);
    hide Sort;
    assert |multiset(Sort(ScoresFirst, all))| == |multiset(all)|;
  }

  lemma NoMatchIsClean(names: seq<PreparedName>, entry: Entry, refs: seq<nat>, pep: bool)
    ensures NameMatch(names, entry, refs, pep).None? ==> CleanEntry(names, entry, pep)
  {
    hide BestMatch;
    NameMatchFacts(names, entry, refs, pep);
    BestMatchIsBest(names, entry);
  }

  // ---------------------------------------------------------------------
  // Named lists
  // ---------------------------------------------------------------------

  /** As prepared: an empty name has empty keys and no tokens. */
  predicate Prepared(n: PreparedName) {
    n.raw == "" ==> n.key == "" && n.coreKey == "" && n.tokens == {}
  }

  /** Gaps have a reason, filers a ticker, and listed names were prepared. */
  predicate NamedInput(input: Input) {
    match input
    case Gap(_, reason) => Trim(reason) != ""
    case Loaded(_, snapshot) =>
      && (forall k, e :: 0 <= k < |snapshot.entries| && e in snapshot.entries[k] ==> Prepared(e))
      && (forall k :: 0 <= k < |snapshot.filers| ==> snapshot.filers[k].ticker != "" && Prepared(snapshot.filers[k].title))
  }

  /** No entry's best score lies in a rounding band. */
  predicate NoScoreInABand(subject: Subject, input: Input) {
    input.Loaded? && input.source != SecEdgar ==>
      forall k :: 0 <= k < |input.snapshot.entries| && BestMatch(ScreenedNames(subject), input.snapshot.entries[k]).Some? ==>
                    OutsideTheBands(BestMatch(ScreenedNames(subject), input.snapshot.entries[k]).value, input.source == OpenSanctionsPep)
  }

  /** The cut keeps the verdict of every list where no best score lies in a rounding band. */
  lemma CutKeepsVerdictOutsideTheBands(subject: Subject, source: Source, snapshot: Snapshot, refs: seq<nat>)
    requires source != SecEdgar && NoScoreInABand(subject, Input.Loaded(source, snapshot))
    ensures var all := AllMatches(subject, source, snapshot, refs);
            AggregateVerdict(Severities(KeptMatches(all))) == AggregateVerdict(Severities(all))
  {
    hide KeptMatches, NameMatch, NameMatches, WalletMatches, BestMatch, OutsideTheBands, Rederives;
    var names, pep := ScreenedNames(subject), source == OpenSanctionsPep;
    forall m | m in AllMatches(subject, source, snapshot, refs) ensures Rederives(m) {
      if m in NameMatches(names, snapshot.entries, refs, pep) {
        NameMatchesFrom(names, snapshot.entries, refs, pep, m);
        var k :| 0 <= k < |snapshot.entries| && NameMatch(names, snapshot.entries[k], refs, pep) == Some(m);
        RederivesOutsideTheBands(names, snapshot.entries[k], refs, pep);
        MatchHasBest(names, snapshot.entries[k], refs, pep);
      } else {
        WalletMatchesAreClean(subject.wallet.value, snapshot.addresses, refs);
      }
    }
    CutKeepsVerdict(subject, source, snapshot, refs);
  }

  /** The verdict on a list: severe, potential or clear, as the names, the aliases and the wallet say. */
  ghost function ListVerdict(subject: Subject, source: Source, snapshot: Snapshot): Verdict {
    if (exists k :: 0 <= k < |snapshot.entries| && EntrySevere(ScreenedNames(subject), snapshot.entries[k], source == OpenSanctionsPep))
       || WalletListed(subject, source, snapshot) then Severe
    else if NameListed(subject, snapshot) then Potential
    else Clear
  }

  /** Where no best score lies in a rounding band, the reported verdict is that verdict. */
  lemma VerdictExactly(subject: Subject, source: Source, snapshot: Snapshot, first: nat)
    requires source != SecEdgar && NoScoreInABand(subject, Input.Loaded(source, snapshot))
    ensures ScreenOne(subject, Input.Loaded(source, snapshot), first).verdict == ListVerdict(subject, source, snapshot)
  {
    var refs := Numbers(first, |snapshot.downloads|);
    var all := AllMatches(subject, source, snapshot, refs);
    CutKeepsVerdictOutsideTheBands(subject, source, snapshot, refs);
    AllMatchesSevere(subject, source, snapshot, refs);
    AllMatchesFacts(subject, source, snapshot, refs);
    hide AllMatches, KeptMatches, AggregateVerdict, Severities, EntrySevere, NameListed, WalletListed, NoScoreInABand;
    forall m | m in all ensures m.severity == SevereMatch || m.severity == PotentialMatch { SoundSeverity(m); }
    VerdictOf(all);
  }

  lemma MatchHasBest(names: seq<PreparedName>, entry: Entry, refs: seq<nat>, pep: bool)
    ensures NameMatch(names, entry, refs, pep).Some? ==> BestMatch(names, entry).Some?
  {
  }

  lemma {:induction false} TitleHitNamed(names: seq<PreparedName>, title: PreparedName, hit: Option<FilerHit>)
    requires hit.Some? ==> hit.value.matchedName == title.raw
    ensures TitleHit(names, title, hit).Some? ==> TitleHit(names, title, hit).value.matchedName == title.raw
  {
    hide TitleScore;
    if names != [] {
      var s, score := names[0], TitleScore(names[0], title);
      TitleHitNamed(names[1..], title,
                    if s.tokens != {} && score > 0.0 && (hit.None? || score > hit.value.score)
                    then Some(FilerHit(score, s.raw, title.raw)) else hit);
    }
  }

  lemma {:induction false} TickerHitNamed(names: seq<PreparedName>, filer: Filer)
    ensures TickerHit(names, filer).Some? ==> TickerHit(names, filer).value.matchedName == filer.ticker
  {
    if names != [] {
      TickerHitNamed(names[1..], filer);
    }
  }

  lemma NamedIsClean(subject: Subject, input: Input)
    requires NamedInput(input)
    ensures EveryEntryClean(subject, input) <==> NoScoreInABand(subject, input)
  {
    var names := ScreenedNames(subject);
    hide BestMatch, OutsideTheBands, TickerHit, TitleHit;
    if input.Loaded? && input.source == SecEdgar {
      forall k | 0 <= k < |input.snapshot.filers| ensures CleanFiler(names, input.snapshot.filers[k]) {
        TickerHitNamed(names, input.snapshot.filers[k]);
        TitleHitNamed(names, input.snapshot.filers[k].title, None);
        if input.snapshot.filers[k].title.raw == "" {
          NoEmptyTitle(names, input.snapshot.filers[k].title);
        }
      }
    } else if input.Loaded? {
      forall k | 0 <= k < |input.snapshot.entries|
        ensures BestMatch(names, input.snapshot.entries[k]).Some? ==> BestMatch(names, input.snapshot.entries[k]).value.entryName != ""
      {
        BestIsNamed(names, input.snapshot.entries[k]);
      }
    }
  }

  /** An empty name scores nothing. */
  lemma EmptyScoresNothing(s: PreparedName, e: PreparedName)
    requires Prepared(e) && e.raw == ""
    ensures ScorePrepared(s, e).score == 0.0
  {
  }

  lemma {:induction false} NoEmptyTitle(names: seq<PreparedName>, title: PreparedName)
    requires Prepared(title) && title.raw == ""
    ensures TitleHit(names, title, None) == None
  {
    hide ScorePrepared, BestMatch;
    if names != [] {
      BestMatchIsBest([names[0]], [title]);
      EmptyScoresNothing(names[0], title);
      assert forall s :: s in [names[0]] ==> s == names[0];
      assert forall e :: e in [title] ==> e == title;
      NoEmptyTitle(names[1..], title);
    }
  }

  lemma BestIsNamed(names: seq<PreparedName>, entry: Entry)
    requires forall e :: e in entry ==> Prepared(e)
    ensures BestMatch(names, entry).Some? ==> BestMatch(names, entry).value.entryName != ""
  {
    hide BestMatch, ScorePrepared;
    BestMatchIsBest(names, entry);
    if BestMatch(names, entry).Some? {
      var s, e :| s in names && e in entry && ReportsPair(BestMatch(names, entry).value, s, e);
      if e.raw == "" {
        EmptyScoresNothing(s, e);
      }
    }
  }

  ghost predicate AllNamed(inputs: seq<Input>) {
    forall i :: 0 <= i < |inputs| ==> NamedInput(inputs[i])
  }

  ghost predicate AllOutsideTheBands(subject: Subject, inputs: seq<Input>) {
    forall i :: 0 <= i < |inputs| ==> NoScoreInABand(subject, inputs[i])
  }

  ghost predicate AllUncut(subject: Subject, inputs: seq<Input>) {
    forall i :: 0 <= i < |inputs| ==> Uncut(subject, inputs[i], |Versions(inputs[..i])| + 1)
  }

  lemma InputByScores(subject: Subject, input: Input, first: nat)
    requires NamedInput(input)
    ensures NoScoreInABand(subject, input) ==> CleanInput(subject, input, first)
    ensures Uncut(subject, input, first) && CleanInput(subject, input, first) ==> NoScoreInABand(subject, input)
  {
    hide CleanInput, NoScoreInABand, EveryEntryClean, Uncut, NamedInput;
    NamedIsClean(subject, input);
    CleanWithoutTheCut(subject, input, first);
  }

  lemma InputsByScores(subject: Subject, inputs: seq<Input>)
    requires AllNamed(inputs)
    ensures AllOutsideTheBands(subject, inputs) ==> AllInputsClean(subject, inputs)
    ensures AllUncut(subject, inputs) && AllInputsClean(subject, inputs) ==> AllOutsideTheBands(subject, inputs)
  {
    hide CleanInput, NoScoreInABand, Uncut, NamedInput, Versions;
    forall i | 0 <= i < |inputs|
      ensures NoScoreInABand(subject, inputs[i]) ==> CleanInput(subject, inputs[i], |Versions(inputs[..i])| + 1)
      ensures Uncut(subject, inputs[i], |Versions(inputs[..i])| + 1) && CleanInput(subject, inputs[i], |Versions(inputs[..i])| + 1) ==>
                NoScoreInABand(subject, inputs[i])
    {
      InputByScores(subject, inputs[i], |Versions(inputs[..i])| + 1);
    }
  }

  /**
   On prepared lists, with tickers and gap reasons non-empty, a report on a good panel is
   accepted when no entry's best score lies in a rounding band; where no source has more
   than 25 matches, only then.
   */
  lemma AcceptedWhenNamed(subject: Subject, inputs: seq<Input>, expected: seq<Source>)
    requires Citable(inputs) && AllNamed(inputs)
    ensures Screen(subject, inputs).Some?
    ensures GoodPanel(subject, inputs, expected) && AllOutsideTheBands(subject, inputs) ==> Accepts(Screen(subject, inputs).value, expected)
    ensures AllUncut(subject, inputs) ==>
              (Accepts(Screen(subject, inputs).value, expected) <==> GoodPanel(subject, inputs, expected) && AllOutsideTheBands(subject, inputs))
  {
    hide Screen, Accepts, GoodPanel, AllNamed, AllOutsideTheBands, AllUncut, AllInputsClean;
    AcceptedExactly(subject, inputs, expected);
    InputsByScores(subject, inputs);
  }
}
