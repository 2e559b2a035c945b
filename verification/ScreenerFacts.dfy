/** No false clear: what a verdict says about every compared pair of names. */
module ScreenerFacts {
  import opened Collections
  import opened Money
  import opened Text
  import opened NameMatching
  import JW = JaroWinkler
  import opened Sorting
  import opened Screener

  // ---------------------------------------------------------------------
  // Every hit is found and kept
  // ---------------------------------------------------------------------

  /** Two keys and token sets are near: equal keys, or a measure of at least `percent` hundredths. */
  predicate Near(aKey: string, aTokens: set<string>, bKey: string, bTokens: set<string>, percent: nat) {
    && aKey != "" && bKey != ""
    && (|| aKey == bKey
        || JW.Score(aKey, bKey) >= percent as real / 100.0
        || (aTokens != {} && bTokens != {} && 200 * |aTokens * bTokens| >= percent * (|aTokens| + |bTokens|)))
  }

  /** The two names are near, with their legal suffixes or without. */
  predicate NamesNear(s: PreparedName, e: PreparedName, percent: nat) {
    Near(s.key, s.tokens, e.key, e.tokens, percent) || Near(s.coreKey, s.coreTokens, e.coreKey, e.coreTokens, percent)
  }

  /** Near enough to be a match. */
  predicate Hits(s: PreparedName, e: PreparedName) {
    NamesNear(s, e, 85)
  }

  lemma NearScores(aKey: string, aTokens: set<string>, bKey: string, bTokens: set<string>, percent: nat)
    requires 0 < percent <= 100
    ensures Near(aKey, aTokens, bKey, bTokens, percent) <==> ScoreVariant(aKey, aTokens, bKey, bTokens).score >= percent as real / 100.0
  {
    hide ScoreVariant, JW.Score, Dice;
    VariantExactly(aKey, aTokens, bKey, bTokens);
    DiceReaches(aTokens, bTokens, percent);
    JW.ScoreRange(aKey, bKey);
  }

  /** Names are near exactly when their score says so. */
  lemma NamesNearScores(s: PreparedName, e: PreparedName, percent: nat)
    requires 0 < percent <= 100
    ensures NamesNear(s, e, percent) <==> ScorePrepared(s, e).score >= percent as real / 100.0
  {
    CoreOnlyRaises(s, e);
    NearScores(s.key, s.tokens, e.key, e.tokens, percent);
    NearScores(s.coreKey, s.coreTokens, e.coreKey, e.coreTokens, percent);
    hide ScoreVariant, Near;
  }

  lemma HitsScore(s: PreparedName, e: PreparedName)
    ensures Hits(s, e) <==> ScorePrepared(s, e).score >= POTENTIAL_THRESHOLD
  {
    NamesNearScores(s, e, 85);
    hide ScorePrepared, NamesNear;
  }

  ghost predicate EntryHit(names: seq<PreparedName>, entry: Entry) {
    exists s, e :: s in names && e in entry && Hits(s, e)
  }

  /** What a recorded match of a name-screened list looks like. */
  predicate SoundMatch(m: Match) {
    && (m.severity == SevereMatch || m.severity == PotentialMatch)
    && 0.0 <= m.score <= 1.0
    && (m.via == Exact || m.via == WalletExact ==> m.score == 1.0)
    && m.via != EdgarRegistration
  }

  predicate ViaFor(m: Match, pep: bool) {
    if pep then m.via == PepMatch else m.via != PepMatch
  }

  /** An entry yields a match exactly when some pair of names hits. */
  lemma NameMatchFacts(names: seq<PreparedName>, entry: Entry, refs: seq<nat>, pep: bool)
    ensures NameMatch(names, entry, refs, pep).Some? <==> EntryHit(names, entry)
    ensures NameMatch(names, entry, refs, pep).Some? ==>
              var m := NameMatch(names, entry, refs, pep).value;
              && SoundMatch(m) && ViaFor(m, pep) && m.citations == refs
              && exists s, e :: s in names && e in entry && Hits(s, e) && m.subjectName == s.raw && m.matchedName == e.raw
                                && m.score == Round6(ScorePrepared(s, e).score)
  {
    hide ScorePrepared, BestMatch, Round6, Dominates, Hits;
    forall s, e ensures Hits(s, e) <==> ScorePrepared(s, e).score >= POTENTIAL_THRESHOLD { HitsScore(s, e); }
    BestMatchIsBest(names, entry);
    var best := BestMatch(names, entry);
    if best.Some? {
      var s, e :| s in names && e in entry && ReportsPair(best.value, s, e);
      CoreOnlyRaises(s, e);
      Round6Range(best.value.score);
      assert Hits(s, e);
    } else {
      forall s, e | s in names && e in entry ensures !Hits(s, e) {}
    }
  }

  lemma {:induction false} NameMatchesFacts(names: seq<PreparedName>, entries: seq<Entry>, refs: seq<nat>, pep: bool)
    ensures NameMatches(names, entries, refs, pep) == [] <==> forall k :: 0 <= k < |entries| ==> !EntryHit(names, entries[k])
    ensures forall m :: m in NameMatches(names, entries, refs, pep) ==> SoundMatch(m) && ViaFor(m, pep) && m.citations == refs
  {
    if entries != [] {
      var before := entries[..|entries| - 1];
      NameMatchesFacts(names, before, refs, pep);
      NameMatchFacts(names, entries[|entries| - 1], refs, pep);
      assert forall k :: 0 <= k < |before| ==> before[k] == entries[k];
    }
  }

  lemma {:induction false} WalletMatchesFacts(wallet: string, addresses: seq<string>, refs: seq<nat>)
    ensures WalletMatches(wallet, addresses, refs) == [] <==> forall a :: a in addresses ==> !WalletsEqual(wallet, a)
    ensures forall m :: m in WalletMatches(wallet, addresses, refs) ==> SoundMatch(m) && m.via == WalletExact && m.citations == refs
  {
    if addresses != [] {
      var before := addresses[..|addresses| - 1];
      WalletMatchesFacts(wallet, before, refs);
      assert forall a :: a in addresses <==> a in before || a == addresses[|addresses| - 1];
    }
  }

  lemma KeptFacts(matches: seq<Match>)
    ensures KeptMatches(matches) == [] <==> matches == []
    ensures forall m :: m in KeptMatches(matches) ==> m in matches
    ensures matches != [] ==> forall m :: m in matches ==> KeptMatches(matches)[0].score >= m.score
  {
    SortFacts(ScoresFirst, matches);
    SortSorted(ScoresFirst, matches);
    var ordered := Sort(ScoresFirst, matches);
    hide Sort;
    forall m | m in matches ensures ordered[0].score >= m.score {
      assert m in ordered;
      var i :| 0 <= i < |ordered| && ordered[i] == m;
      assert i == 0 || ScoresFirst(ordered[0], ordered[i]);
    }
  }

  lemma SeveritiesHold(matches: seq<Match>, s: Severity)
    ensures s in Severities(matches) <==> exists m :: m in matches && m.severity == s
  {
    var all := Severities(matches);
    if s in all {
      var i :| 0 <= i < |all| && all[i] == s;
      assert matches[i] in matches;
    }
    if m :| m in matches && m.severity == s {
      var i :| 0 <= i < |matches| && matches[i] == m;
      assert all[i] == s;
    }
  }

  /** The wallet of the subject is on the list. */
  ghost predicate WalletListed(subject: Subject, source: Source, snapshot: Snapshot) {
    && source == OfacSdn && subject.wallet.Some? && subject.wallet.value != ""
    && exists a :: a in snapshot.addresses && WalletsEqual(subject.wallet.value, a)
  }

  ghost predicate NameListed(subject: Subject, snapshot: Snapshot) {
    exists k :: 0 <= k < |snapshot.entries| && EntryHit(ScreenedNames(subject), snapshot.entries[k])
  }

  lemma AllMatchesFacts(subject: Subject, source: Source, snapshot: Snapshot, refs: seq<nat>)
    requires source != SecEdgar
    ensures AllMatches(subject, source, snapshot, refs) == [] <==> !NameListed(subject, snapshot) && !WalletListed(subject, source, snapshot)
    ensures forall m :: m in AllMatches(subject, source, snapshot, refs) ==>
                          SoundMatch(m) && ViaFor(m, source == OpenSanctionsPep) && m.citations == refs
  {
    NameMatchesFacts(ScreenedNames(subject), snapshot.entries, refs, source == OpenSanctionsPep);
    if source == OfacSdn && subject.wallet.Some? && subject.wallet.value != "" {
      WalletMatchesFacts(subject.wallet.value, snapshot.addresses, refs);
    }
  }

  /**
   A sanctions or PEP list is reported clear exactly when no screened name of the subject,
   against any name or alias of any entry, scores 0.85 or more, and the wallet is not listed.
   */
  lemma NoFalseClear(subject: Subject, source: Source, snapshot: Snapshot, first: nat)
    requires source != SecEdgar
    ensures ScreenOne(subject, Input.Loaded(source, snapshot), first).verdict == Clear <==>
            !NameListed(subject, snapshot) && !WalletListed(subject, source, snapshot)
  {
    var refs := Numbers(first, |snapshot.downloads|);
    var matches := AllMatches(subject, source, snapshot, refs);
    AllMatchesFacts(subject, source, snapshot, refs);
    KeptFacts(matches);
    var kept := KeptMatches(matches);
    SeveritiesHold(kept, SevereMatch);
    SeveritiesHold(kept, PotentialMatch);
    if kept != [] {
      assert kept[0] in kept && SoundMatch(kept[0]);
    }
  }

  // ---------------------------------------------------------------------
  // Severity
  // ---------------------------------------------------------------------

  /** Some pair of names is severe: 0.93 on a sanctions list, a perfect score on a PEP list. */
  ghost predicate EntrySevere(names: seq<PreparedName>, entry: Entry, pep: bool) {
    exists s, e :: s in names && e in entry && NamesNear(s, e, if pep then 100 else 93)
  }

  /** The match of an entry is severe exactly when some pair of its names is. */
  lemma NameMatchSevere(names: seq<PreparedName>, entry: Entry, refs: seq<nat>, pep: bool)
    ensures NameMatch(names, entry, refs, pep).Some? && NameMatch(names, entry, refs, pep).value.severity == SevereMatch <==>
            EntrySevere(names, entry, pep)
  {
    hide ScorePrepared, BestMatch, Dominates, NamesNear, Round6;
    var bound := if pep then 1.0 else MATCH_THRESHOLD;
    forall s, e ensures NamesNear(s, e, if pep then 100 else 93) <==> ScorePrepared(s, e).score >= bound {
      NamesNearScores(s, e, if pep then 100 else 93);
    }
    BestMatchIsBest(names, entry);
    var best := BestMatch(names, entry);
    if best.Some? {
      var s, e :| s in names && e in entry && ReportsPair(best.value, s, e);
      CoreOnlyRaises(s, e);
      assert EntrySevere(names, entry, pep) <==> best.value.score >= bound by {
        if s', e' :| s' in names && e' in entry && NamesNear(s', e', if pep then 100 else 93) {
          assert Dominates(best, s', e');
          DominatedScore(best.value, s', e');
        }
      }
    } else {
      forall s, e | s in names && e in entry ensures !NamesNear(s, e, if pep then 100 else 93) {}
    }
  }

  lemma DominatedScore(best: Best, s: PreparedName, e: PreparedName)
    requires Dominates(Some(best), s, e)
    ensures ScorePrepared(s, e).score >= POTENTIAL_THRESHOLD ==> ScorePrepared(s, e).score <= best.score
  {
    hide ScorePrepared;
  }

  /** Some match of the list's names is severe. */
  ghost predicate HasSevere(matches: seq<Match>) {
    exists m :: m in matches && m.severity == SevereMatch
  }

  lemma {:induction false} NameMatchesSevere(names: seq<PreparedName>, entries: seq<Entry>, refs: seq<nat>, pep: bool)
    ensures HasSevere(NameMatches(names, entries, refs, pep)) <==> exists k :: 0 <= k < |entries| && EntrySevere(names, entries[k], pep)
  {
    hide NameMatch, EntrySevere;
    if entries != [] {
      var before, last := entries[..|entries| - 1], entries[|entries| - 1];
      NameMatchesSevere(names, before, refs, pep);
      NameMatchSevere(names, last, refs, pep);
      assert forall k :: 0 <= k < |before| ==> before[k] == entries[k];
      var earlier := NameMatches(names, before, refs, pep);
      assert forall m :: m in NameMatches(names, entries, refs, pep) <==> m in earlier || Some(m) == NameMatch(names, last, refs, pep);
      if NameMatch(names, last, refs, pep).Some? {
        assert NameMatch(names, last, refs, pep).value in NameMatches(names, entries, refs, pep);
      }
    }
  }

  lemma {:induction false} WalletMatchesSevere(wallet: string, addresses: seq<string>, refs: seq<nat>)
    ensures forall m :: m in WalletMatches(wallet, addresses, refs) ==> m.severity == SevereMatch
  {
    if addresses != [] {
      WalletMatchesSevere(wallet, addresses[..|addresses| - 1], refs);
    }
  }

  /** Before the cut, a list holds a severe match exactly when an entry is severe or the wallet is listed. */
  lemma AllMatchesSevere(subject: Subject, source: Source, snapshot: Snapshot, refs: seq<nat>)
    requires source != SecEdgar
    ensures HasSevere(AllMatches(subject, source, snapshot, refs)) <==>
            || (exists k :: 0 <= k < |snapshot.entries| && EntrySevere(ScreenedNames(subject), snapshot.entries[k], source == OpenSanctionsPep))
            || WalletListed(subject, source, snapshot)
  {
    var names := NameMatches(ScreenedNames(subject), snapshot.entries, refs, source == OpenSanctionsPep);
    NameMatchesSevere(ScreenedNames(subject), snapshot.entries, refs, source == OpenSanctionsPep);
    hide EntrySevere, NameMatches, WalletMatches, WalletsEqual;
    if source == OfacSdn && subject.wallet.Some? && subject.wallet.value != "" {
      var wallets := WalletMatches(subject.wallet.value, snapshot.addresses, refs);
      WalletMatchesFacts(subject.wallet.value, snapshot.addresses, refs);
      WalletMatchesSevere(subject.wallet.value, snapshot.addresses, refs);
      assert forall m :: m in names + wallets <==> m in names || m in wallets;
      if wallets != [] {
        assert wallets[0] in wallets;
      }
    } else {
      assert names + [] == names;
    }
  }

  // ---------------------------------------------------------------------
  // The cut
  // ---------------------------------------------------------------------

  /** The recorded severity is the one the recorded (rounded) score carries. */
  predicate Rederives(m: Match) {
    SeverityForMatch(m.via, m.score) == Some(m.severity)
  }

  /** Match number `i` makes the cut: fewer than 25 matches score higher, or tie and come first. */
  predicate MakesTheCut(all: seq<Match>, i: nat)
    requires i < |all|
  {
    Rank(ScoresFirst, all, i) < MAX_MATCHES_PER_SOURCE
  }

  /** Exactly the matches that make the cut are kept. */
  lemma KeptExactly(all: seq<Match>, m: Match)
    ensures m in KeptMatches(all) <==> exists i :: 0 <= i < |all| && all[i] == m && MakesTheCut(all, i)
  {
    hide Sort, Rank;
    var kept := KeptMatches(all);
    SortFacts(ScoresFirst, all);
    if q :| 0 <= q < |kept| && kept[q] == m {
      var i := SomeAtRank(ScoresFirst, all, q);
      SortedAtRank(ScoresFirst, all, i);
      assert MakesTheCut(all, i);
    }
    if i :| 0 <= i < |all| && all[i] == m && MakesTheCut(all, i) {
      SortedAtRank(ScoresFirst, all, i);
      assert kept[Rank(ScoresFirst, all, i)] == m;
    }
  }

  /** A list keeps its verdict through the cut exactly when some severe match, if there is one, makes the cut. */
  lemma CutKeepsVerdictExactly(subject: Subject, source: Source, snapshot: Snapshot, refs: seq<nat>)
    requires source != SecEdgar
    ensures var all := AllMatches(subject, source, snapshot, refs);
            AggregateVerdict(Severities(KeptMatches(all))) == AggregateVerdict(Severities(all)) <==>
            ((exists i :: 0 <= i < |all| && all[i].severity == SevereMatch) ==>
               exists i :: 0 <= i < |all| && all[i].severity == SevereMatch && MakesTheCut(all, i))
  {
    var all := AllMatches(subject, source, snapshot, refs);
    AllMatchesFacts(subject, source, snapshot, refs);
    hide AllMatches;
    forall m | m in all ensures m.severity == SevereMatch || m.severity == PotentialMatch { SoundSeverity(m); }
    CutSeverities(all);
  }

  lemma CutSeverities(all: seq<Match>)
    requires forall m :: m in all ==> m.severity == SevereMatch || m.severity == PotentialMatch
    ensures AggregateVerdict(Severities(KeptMatches(all))) == AggregateVerdict(Severities(all)) <==>
            ((exists i :: 0 <= i < |all| && all[i].severity == SevereMatch) ==>
               exists i :: 0 <= i < |all| && all[i].severity == SevereMatch && MakesTheCut(all, i))
  {
    hide KeptMatches, Severities, MakesTheCut;
    var kept := KeptMatches(all);
    KeptFacts(all);
    VerdictOf(all);
    forall m | m in kept ensures m in all {}
    VerdictOf(kept);
    if m :| m in kept && m.severity == SevereMatch {
      KeptExactly(all, m);
    }
    if i :| 0 <= i < |all| && all[i].severity == SevereMatch && MakesTheCut(all, i) {
      KeptExactly(all, all[i]);
    }
  }

  /** The verdict of severe and potential matches. */
  lemma VerdictOf(matches: seq<Match>)
    requires forall m :: m in matches ==> m.severity == SevereMatch || m.severity == PotentialMatch
    ensures AggregateVerdict(Severities(matches)) ==
            if exists m :: m in matches && m.severity == SevereMatch then Severe
            else if matches == [] then Clear else Potential
  {
    SeveritiesHold(matches, SevereMatch);
    SeveritiesHold(matches, PotentialMatch);
    if matches != [] {
      assert matches[0] in matches;
    }
  }

  /** Keeping the best 25 never lowers the verdict, when no score was rounded across a threshold. */
  lemma CutKeepsVerdict(subject: Subject, source: Source, snapshot: Snapshot, refs: seq<nat>)
    requires source != SecEdgar
    requires forall m :: m in AllMatches(subject, source, snapshot, refs) ==> Rederives(m)
    ensures var all := AllMatches(subject, source, snapshot, refs);
            AggregateVerdict(Severities(KeptMatches(all))) == AggregateVerdict(Severities(all))
  {
    var all := AllMatches(subject, source, snapshot, refs);
    AllMatchesFacts(subject, source, snapshot, refs);
    hide AllMatches;
    CutKeepsWorst(all, source == OpenSanctionsPep);
  }

  lemma CutKeepsWorst(all: seq<Match>, pep: bool)
    requires forall m :: m in all ==> Rederives(m) && SoundMatch(m) && ViaFor(m, pep)
    ensures AggregateVerdict(Severities(KeptMatches(all))) == AggregateVerdict(Severities(all))
  {
    var kept := KeptMatches(all);
    KeptFacts(all);
    SeveritiesHold(kept, SevereMatch);
    SeveritiesHold(kept, PotentialMatch);
    SeveritiesHold(all, SevereMatch);
    SeveritiesHold(all, PotentialMatch);
    hide KeptMatches, Severities, Rederives, SoundMatch;
    if kept != [] {
      var top := kept[0];
      assert top in kept && top in all;
      forall m | m in all && m.severity == SevereMatch ensures top.severity == SevereMatch {
        HigherIsWorse(m, top, pep);
      }
      SoundSeverity(top);
    }
  }

  lemma SoundSeverity(m: Match)
    requires SoundMatch(m)
    ensures m.severity == SevereMatch || m.severity == PotentialMatch
  {
  }

  lemma HigherIsWorse(m: Match, top: Match, pep: bool)
    requires Rederives(m) && SoundMatch(m) && ViaFor(m, pep) && Rederives(top) && SoundMatch(top) && ViaFor(top, pep)
    requires top.score >= m.score && m.severity == SevereMatch
    ensures top.severity == SevereMatch
  {
  }

  // ---------------------------------------------------------------------
  // Registrations
  // ---------------------------------------------------------------------

  /** The name is the filer's ticker. */
  predicate IsTicker(s: PreparedName, filer: Filer) {
    s.key == Lower(filer.ticker)
  }

  /** The name's words all occur in the filer's title, or the two are near enough to be severe. */
  predicate FitsTitle(s: PreparedName, title: PreparedName) {
    s.tokens != {} && (s.tokens <= title.tokens || NamesNear(s, title, 93))
  }

  lemma {:induction false} TickerHitExactly(names: seq<PreparedName>, filer: Filer)
    ensures TickerHit(names, filer).Some? <==> exists s :: s in names && IsTicker(s, filer)
    ensures TickerHit(names, filer).Some? ==> TickerHit(names, filer).value.score == 1.0
  {
    if names != [] && !IsTicker(names[0], filer) {
      TickerHitExactly(names[1..], filer);
      assert forall s :: s in names <==> s == names[0] || s in names[1..];
    }
  }

  lemma TitleScoreExactly(s: PreparedName, title: PreparedName)
    ensures s.tokens != {} ==> (TitleScore(s, title) > 0.0 <==> FitsTitle(s, title))
    ensures NamesNear(s, title, 93) ==> TitleScore(s, title) == ScorePrepared(s, title).score
    ensures !NamesNear(s, title, 93) && s.tokens <= title.tokens ==> TitleScore(s, title) == 0.9
  {
    hide ScorePrepared, BestMatch, NamesNear;
    NamesNearScores(s, title, 93);
    BestMatchIsBest([s], [title]);
    assert s in [s] && title in [title] && forall x :: (x in [s] <==> x == s) && (x in [title] <==> x == title);
    assert Dominates(BestMatch([s], [title]), s, title);
  }

  lemma {:induction false} TitleHitExactly(names: seq<PreparedName>, title: PreparedName, hit: Option<FilerHit>)
    ensures TitleHit(names, title, hit).Some? <==> hit.Some? || exists s :: s in names && FitsTitle(s, title)
  {
    hide TitleScore, FitsTitle;
    if names != [] {
      var s, score := names[0], TitleScore(names[0], title);
      TitleScoreExactly(s, title);
      FitsHasTokens(s, title);
      TitleHitExactly(names[1..], title,
                      if s.tokens != {} && score > 0.0 && (hit.None? || score > hit.value.score)
                      then Some(FilerHit(score, s.raw, title.raw)) else hit);
      assert forall x :: x in names <==> x == s || x in names[1..];
    }
  }

  lemma FitsHasTokens(s: PreparedName, title: PreparedName)
    ensures FitsTitle(s, title) ==> s.tokens != {}
  {
    hide NamesNear;
  }

  /** A filer is reported exactly when some screened name is its ticker or fits its title. */
  lemma HitExactly(names: seq<PreparedName>, filer: Filer)
    ensures HitOf(names, filer).Some? <==> exists s :: s in names && (IsTicker(s, filer) || FitsTitle(s, filer.title))
  {
    hide FitsTitle, IsTicker;
    TickerHitExactly(names, filer);
    TitleHitExactly(names, filer.title, None);
  }

  // ---------------------------------------------------------------------
  // The whole panel
  // ---------------------------------------------------------------------

  lemma RegistrationNeverEscalates(subject: Subject, snapshot: Snapshot, first: nat)
    ensures ScreenOne(subject, Input.Loaded(SecEdgar, snapshot), first).verdict == Clear
  {
    var refs := Numbers(first, |snapshot.downloads|);
    var matches := AllMatches(subject, SecEdgar, snapshot, refs);
    FilerSeverities(ScreenedNames(subject), snapshot.filers, refs);
    KeptFacts(matches);
    SeveritiesHold(KeptMatches(matches), SevereMatch);
    SeveritiesHold(KeptMatches(matches), PotentialMatch);
  }

  lemma {:induction false} FilerSeverities(names: seq<PreparedName>, filers: seq<Filer>, refs: seq<nat>)
    ensures forall m :: m in FilerMatches(names, filers, refs) ==> m.severity == Info && m.via == EdgarRegistration && m.citations == refs
  {
    if filers != [] {
      FilerSeverities(names, filers[..|filers| - 1], refs);
    }
  }

  lemma {:induction false} VerdictOfPanel(perSource: seq<PerSource>)
    requires forall i :: 0 <= i < |perSource| && perSource[i].Screened? ==> perSource[i].verdict == AggregateVerdict(Severities(perSource[i].matches))
    ensures AggregateVerdict(RecordedSeverities(perSource)) == Clear <==>
            forall i :: 0 <= i < |perSource| && perSource[i].Screened? ==> perSource[i].verdict == Clear
  {
    if perSource != [] {
      var before := perSource[..|perSource| - 1];
      assert forall i :: 0 <= i < |before| ==> before[i] == perSource[i];
      VerdictOfPanel(before);
    }
  }

  lemma LastPerSource(subject: Subject, inputs: seq<Input>)
    requires inputs != []
    ensures var n := |inputs| - 1;
            PerSources(subject, inputs) == PerSources(subject, inputs[..n]) + [ScreenOne(subject, inputs[n], |Versions(inputs[..n])| + 1)]
  {
    hide ScreenOne, Versions;
  }

  lemma {:induction false} PerSourceAt(subject: Subject, inputs: seq<Input>, i: nat)
    requires i < |inputs|
    ensures PerSources(subject, inputs)[i] == ScreenOne(subject, inputs[i], |Versions(inputs[..i])| + 1)
    decreases |inputs|
  {
    hide PerSources, ScreenOne, Versions;
    LastPerSource(subject, inputs);
    if i < |inputs| - 1 {
      PerSourceAt(subject, inputs[..|inputs| - 1], i);
      assert inputs[..|inputs| - 1][..i] == inputs[..i];
    }
  }

  /** The report's verdict is clear exactly when no list of the panel holds a hit. */
  lemma ReportClearMeansNoHit(subject: Subject, inputs: seq<Input>)
    requires Citable(inputs)
    ensures Screen(subject, inputs).Some?
    ensures Screen(subject, inputs).value.verdict == Clear <==>
            forall i :: 0 <= i < |inputs| && inputs[i].Loaded? && inputs[i].source != SecEdgar ==>
                          !NameListed(subject, inputs[i].snapshot) && !WalletListed(subject, inputs[i].source, inputs[i].snapshot)
  {
    var perSource := PerSources(subject, inputs);
    forall i | 0 <= i < |inputs|
      ensures perSource[i].Screened? <==> inputs[i].Loaded?
      ensures perSource[i].Screened? ==> perSource[i].verdict == AggregateVerdict(Severities(perSource[i].matches))
      ensures perSource[i].Screened? && inputs[i].source == SecEdgar ==> perSource[i].verdict == Clear
      ensures perSource[i].Screened? && inputs[i].source != SecEdgar ==>
                (perSource[i].verdict == Clear <==>
                 !NameListed(subject, inputs[i].snapshot) && !WalletListed(subject, inputs[i].source, inputs[i].snapshot))
    {
      var first := |Versions(inputs[..i])| + 1;
      PerSourceAt(subject, inputs, i);
      if inputs[i].Loaded? {
        if inputs[i].source == SecEdgar {
          RegistrationNeverEscalates(subject, inputs[i].snapshot, first);
        } else {
          NoFalseClear(subject, inputs[i].source, inputs[i].snapshot, first);
        }
      }
    }
    VerdictOfPanel(perSource);
  }
}
