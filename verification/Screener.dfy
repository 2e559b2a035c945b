/**
 Screening one subject against the loaded lists, and the report it makes. List version
 ids are numbers here: the text "L1", "L2", ... determines them.
 */
module Screener {
  import opened Collections
  import opened Money
  import opened Text
  import opened NameMatching
  import opened Sorting

  datatype Source = OfacSdn | UnConsolidated | EuConsolidated | UkHmt | OpenSanctionsPep | SecEdgar

  datatype SubjectKind = Person | Entity | WalletSubject

  /** `names` are the prepared non-blank primary name and aliases. */
  datatype Subject = Subject(name: string, kind: SubjectKind, names: seq<PreparedName>, wallet: Option<string>)

  /** One list entry: its name and aliases, prepared. */
  type Entry = seq<PreparedName>

  datatype Filer = Filer(ticker: string, title: PreparedName)

  /** One attested download; `genuine` is what re-verifying its attestation says. */
  datatype Download = Download(url: string, genuine: bool)

  datatype Snapshot = Snapshot(downloads: seq<Download>, entries: seq<Entry>, addresses: seq<string>, filers: seq<Filer>)

  datatype Input = Loaded(source: Source, snapshot: Snapshot) | Gap(source: Source, reason: string)

  datatype Match = Match(matchedName: string, subjectName: string, score: real, via: Method, severity: Severity, citations: seq<nat>)

  datatype Version = Version(id: nat, source: Source, genuine: bool)

  datatype Verdict = Clear | Potential | Severe

  datatype PerSource =
    | Screened(source: Source, refs: seq<nat>, matches: seq<Match>, verdict: Verdict)
    | Unscreened(source: Source, reason: string)

  datatype Report = Report(
    subject: Subject, panel: seq<Source>, perSource: seq<PerSource>, versions: seq<Version>, complete: bool, verdict: Verdict)

  // ---------------------------------------------------------------------
  // Texts
  // ---------------------------------------------------------------------

  predicate Blank(c: char) {
    c == ' ' || c == '\t' || c == '\n' || c == '\r'
  }

  function Trim(s: string): string {
    if s != "" && Blank(s[0]) then Trim(s[1..])
    else if s != "" && Blank(s[|s| - 1]) then Trim(s[..|s| - 1])
    else s
  }

  predicate AllBlank(s: string) {
    forall i :: 0 <= i < |s| ==> Blank(s[i])
  }

  /** `t` is `s` without some blanks at its ends. */
  ghost predicate Strips(s: string, t: string) {
    exists before, after :: s == before + t + after && AllBlank(before) && AllBlank(after)
  }

  lemma StripsOneMore(s: string, t: string, c: char)
    requires Strips(s, t) && Blank(c)
    ensures Strips([c] + s, t) && Strips(s + [c], t)
  {
    var before, after :| s == before + t + after && AllBlank(before) && AllBlank(after);
    assert [c] + s == ([c] + before) + t + after && AllBlank([c] + before);
    assert s + [c] == before + t + (after + [c]) && AllBlank(after + [c]);
  }

  /** Trimming takes away the blanks at both ends and nothing else. */
  lemma {:induction false} TrimExactly(s: string)
    ensures Strips(s, Trim(s))
    ensures Trim(s) != "" ==> !Blank(Trim(s)[0]) && !Blank(Trim(s)[|Trim(s)| - 1])
  {
    if s != "" && Blank(s[0]) {
      hide Strips, Blank;
      TrimExactly(s[1..]);
      StripsOneMore(s[1..], Trim(s), s[0]);
      assert s == [s[0]] + s[1..];
    } else if s != "" && Blank(s[|s| - 1]) {
      TrimExactly(s[..|s| - 1]);
      StripsOneMore(s[..|s| - 1], Trim(s), s[|s| - 1]);
      assert s == s[..|s| - 1] + [s[|s| - 1]];
    } else {
      assert s == "" + s + "" && AllBlank("");
    }
  }

  predicate WalletsEqual(a: string, b: string) {
    |Trim(a)| > 0 && Lower(Trim(a)) == Lower(Trim(b))
  }

  // ---------------------------------------------------------------------
  // One source
  // ---------------------------------------------------------------------

  function NameMatch(names: seq<PreparedName>, entry: Entry, refs: seq<nat>, pep: bool): Option<Match> {
    match BestMatch(names, entry)
    case None => None
    case Some(best) =>
      var via := if pep then PepMatch else best.via;
      match SeverityForMatch(via, best.score)
      case None => None
      case Some(severity) => Some(Match(best.entryName, best.subjectName, Round6(best.score), via, severity, refs))
  }

  function NameMatches(names: seq<PreparedName>, entries: seq<Entry>, refs: seq<nat>, pep: bool): seq<Match> {
    if entries == [] then []
    else
      var before := NameMatches(names, entries[..|entries| - 1], refs, pep);
      match NameMatch(names, entries[|entries| - 1], refs, pep)
      case None => before
      case Some(m) => before + [m]
  }

  function WalletMatches(wallet: string, addresses: seq<string>, refs: seq<nat>): seq<Match> {
    if addresses == [] then []
    else
      var before, address := WalletMatches(wallet, addresses[..|addresses| - 1], refs), addresses[|addresses| - 1];
      if WalletsEqual(wallet, address) then before + [Match(address, wallet, 1.0, WalletExact, SevereMatch, refs)] else before
  }

  datatype FilerHit = FilerHit(score: real, subjectName: string, matchedName: string)

  function TickerHit(names: seq<PreparedName>, filer: Filer): Option<FilerHit> {
    if names == [] then None
    else if names[0].key == Lower(filer.ticker) then Some(FilerHit(1.0, names[0].raw, filer.ticker))
    else TickerHit(names[1..], filer)
  }

  function TitleScore(s: PreparedName, title: PreparedName): real {
    var best := BestMatch([s], [title]);
    var fuzzy := if best.Some? && best.value.score >= MATCH_THRESHOLD then best.value.score else 0.0;
    var contained := if s.tokens <= title.tokens then 0.9 else 0.0;
    if fuzzy < contained then contained else fuzzy
  }

  function TitleHit(names: seq<PreparedName>, title: PreparedName, hit: Option<FilerHit>): Option<FilerHit> {
    if names == [] then hit
    else
      var s := names[0];
      var score := TitleScore(s, title);
      var next := if s.tokens != {} && score > 0.0 && (hit.None? || score > hit.value.score)
                  then Some(FilerHit(score, s.raw, title.raw)) else hit;
      TitleHit(names[1..], title, next)
  }

  function HitOf(names: seq<PreparedName>, filer: Filer): Option<FilerHit> {
    var ticker := TickerHit(names, filer);
    if ticker.Some? then ticker else TitleHit(names, filer.title, None)
  }

  function FilerMatches(names: seq<PreparedName>, filers: seq<Filer>, refs: seq<nat>): seq<Match> {
    if filers == [] then []
    else
      var before := FilerMatches(names, filers[..|filers| - 1], refs);
      match HitOf(names, filers[|filers| - 1])
      case None => before
      case Some(hit) => before + [FilerMatch(hit, refs)]
  }

  function FilerMatch(hit: FilerHit, refs: seq<nat>): Match {
    Match(hit.matchedName, hit.subjectName, Round6(hit.score), EdgarRegistration, Info, refs)
  }

  /** The names a subject is screened under: none for a wallet. */
  function ScreenedNames(subject: Subject): seq<PreparedName> {
    if subject.kind == WalletSubject then [] else subject.names
  }

  function AllMatches(subject: Subject, source: Source, snapshot: Snapshot, refs: seq<nat>): seq<Match> {
    var names := ScreenedNames(subject);
    if source == SecEdgar then (if subject.kind == Entity then FilerMatches(names, snapshot.filers, refs) else [])
    else
      NameMatches(names, snapshot.entries, refs, source == OpenSanctionsPep)
      + if source == OfacSdn && subject.wallet.Some? && subject.wallet.value != ""
        then WalletMatches(subject.wallet.value, snapshot.addresses, refs) else []
  }

  predicate ScoresFirst(a: Match, b: Match) {
    a.score >= b.score
  }

  const MAX_MATCHES_PER_SOURCE := 25

  /** Best first, at most 25. */
  function KeptMatches(matches: seq<Match>): seq<Match> {
    var ordered := Sort(ScoresFirst, matches);
    if |ordered| <= MAX_MATCHES_PER_SOURCE then ordered else ordered[..MAX_MATCHES_PER_SOURCE]
  }

  function Severities(matches: seq<Match>): seq<Severity> {
    seq(|matches|, i requires 0 <= i < |matches| => matches[i].severity)
  }

  /** Worst severity wins; registration matches do not count. */
  function AggregateVerdict(severities: seq<Severity>): Verdict {
    if SevereMatch in severities then Severe
    else if PotentialMatch in severities then Potential
    else Clear
  }

  // ---------------------------------------------------------------------
  // The report
  // ---------------------------------------------------------------------

  function Numbers(first: nat, n: nat): (r: seq<nat>)
    ensures |r| == n && forall k :: 0 <= k < n ==> r[k] == first + k
  {
    seq(n, k requires 0 <= k < n => first + k)
  }

  function VersionsOf(source: Source, downloads: seq<Download>, first: nat): (r: seq<Version>)
    ensures |r| == |downloads|
  {
    seq(|downloads|, k requires 0 <= k < |downloads| => Version(first + k, source, downloads[k].genuine))
  }

  function ScreenOne(subject: Subject, input: Input, first: nat): PerSource {
    match input
    case Gap(source, reason) => Unscreened(source, reason)
    case Loaded(source, snapshot) =>
      var refs := Numbers(first, |snapshot.downloads|);
      var kept := KeptMatches(AllMatches(subject, source, snapshot, refs));
      Screened(source, refs, kept, AggregateVerdict(Severities(kept)))
  }

  predicate Citable(inputs: seq<Input>) {
    forall i :: 0 <= i < |inputs| && inputs[i].Loaded? ==> inputs[i].snapshot.downloads != []
  }

  function Versions(inputs: seq<Input>): seq<Version> {
    if inputs == [] then []
    else
      var before, last := Versions(inputs[..|inputs| - 1]), inputs[|inputs| - 1];
      before + if last.Loaded? then VersionsOf(last.source, last.snapshot.downloads, |before| + 1) else []
  }

  function PerSources(subject: Subject, inputs: seq<Input>): (r: seq<PerSource>)
    ensures |r| == |inputs|
  {
    if inputs == [] then []
    else
      PerSources(subject, inputs[..|inputs| - 1])
      + [ScreenOne(subject, inputs[|inputs| - 1], |Versions(inputs[..|inputs| - 1])| + 1)]
  }

  function RecordedSeverities(perSource: seq<PerSource>): seq<Severity> {
    if perSource == [] then []
    else
      var last := perSource[|perSource| - 1];
      RecordedSeverities(perSource[..|perSource| - 1]) + if last.Screened? then Severities(last.matches) else []
  }

  predicate AllScreened(perSource: seq<PerSource>) {
    forall i :: 0 <= i < |perSource| ==> perSource[i].Screened?
  }

  function InputSources(inputs: seq<Input>): seq<Source> {
    seq(|inputs|, i requires 0 <= i < |inputs| => inputs[i].source)
  }

  /** What `screenSubject` returns; it throws (None) on a snapshot without downloads. */
  function Screen(subject: Subject, inputs: seq<Input>): Option<Report> {
    if !Citable(inputs) then None
    else
      var perSource := PerSources(subject, inputs);
      Some(Report(subject, InputSources(inputs), perSource, Versions(inputs), AllScreened(perSource),
                  AggregateVerdict(RecordedSeverities(perSource))))
  }

  /** What one more input adds to the report. */
  lemma OneMoreInput(subject: Subject, inputs: seq<Input>, i: nat)
    requires i < |inputs|
    ensures Versions(inputs[..i + 1]) ==
            Versions(inputs[..i]) + if inputs[i].Loaded? then VersionsOf(inputs[i].source, inputs[i].snapshot.downloads, |Versions(inputs[..i])| + 1) else []
    ensures PerSources(subject, inputs[..i + 1]) == PerSources(subject, inputs[..i]) + [ScreenOne(subject, inputs[i], |Versions(inputs[..i])| + 1)]
  {
    hide ScreenOne, VersionsOf;
    assert inputs[..i + 1][..i] == inputs[..i] && inputs[..i + 1][i] == inputs[i];
  }

  lemma OneMoreSource(perSource: seq<PerSource>, per: PerSource)
    ensures RecordedSeverities(perSource + [per]) == RecordedSeverities(perSource) + if per.Screened? then Severities(per.matches) else []
    ensures AllScreened(perSource + [per]) <==> AllScreened(perSource) && per.Screened?
  {
    var more := perSource + [per];
    assert more[..|perSource|] == perSource && more[|perSource|] == per;
    forall k | 0 <= k < |perSource| ensures more[k] == perSource[k] {}
    if AllScreened(more) {
      forall k | 0 <= k < |perSource| ensures perSource[k].Screened? { assert more[k].Screened?; }
    }
  }

  method ScreenSubject(subject: Subject, inputs: seq<Input>) returns (report: Option<Report>)
    ensures report == Screen(subject, inputs)
  {
    hide Versions, PerSources, RecordedSeverities, AllScreened, AllMatches, KeptMatches, AggregateVerdict, Severities, VersionsOf;
    var versions: seq<Version> := [];
    var perSource: seq<PerSource> := [];
    var complete := true;
    var severities: seq<Severity> := [];
    NothingScreened(subject);
    var i := 0;
    assert inputs[..0] == [];
    while i < |inputs|
      invariant 0 <= i <= |inputs| && |perSource| == i
      invariant forall k :: 0 <= k < i && inputs[k].Loaded? ==> inputs[k].snapshot.downloads != []
      invariant versions == Versions(inputs[..i]) && perSource == PerSources(subject, inputs[..i])
      invariant complete <==> AllScreened(perSource)
      invariant severities == RecordedSeverities(perSource)
    {
      OneMoreInput(subject, inputs, i);
      var input := inputs[i];
      var per: PerSource;
      if input.Gap? {
        per := Unscreened(input.source, input.reason);
        complete := false;
      } else {
        if input.snapshot.downloads == [] {
          return None;
        }
        var first := |versions| + 1;
        var refs := Numbers(first, |input.snapshot.downloads|);
        var matches := ScreenList(subject, input.source, input.snapshot, refs);
        var kept := KeptMatches(matches);
        versions := versions + VersionsOf(input.source, input.snapshot.downloads, first);
        per := Screened(input.source, refs, kept, AggregateVerdict(Severities(kept)));
        severities := severities + Severities(kept);
      }
      OneMoreSource(perSource, per);
      perSource := perSource + [per];
      i := i + 1;
    }
    assert inputs[..i] == inputs;
    report := Some(Report(subject, InputSources(inputs), perSource, versions, complete, AggregateVerdict(severities)));
  }

  lemma NothingScreened(subject: Subject)
    ensures Versions([]) == [] && PerSources(subject, []) == [] && RecordedSeverities([]) == [] && AllScreened([])
  {
  }

  /** The matches of one loaded list, before they are ordered and cut. */
  method ScreenList(subject: Subject, source: Source, snapshot: Snapshot, refs: seq<nat>) returns (matches: seq<Match>)
    ensures matches == AllMatches(subject, source, snapshot, refs)
  {
    var names := ScreenedNames(subject);
    matches := [];
    if source == SecEdgar {
      if subject.kind == Entity {
        matches := FilerMatches(names, snapshot.filers, refs);
      }
    } else {
      matches := ScreenNamesAgainstEntries(names, snapshot.entries, refs, source == OpenSanctionsPep);
      if source == OfacSdn && subject.wallet.Some? && subject.wallet.value != "" {
        var hits := ScreenWalletAgainstSdn(subject.wallet.value, snapshot.addresses, refs);
        matches := matches + hits;
      }
    }
  }

  method ScreenNamesAgainstEntries(names: seq<PreparedName>, entries: seq<Entry>, refs: seq<nat>, pep: bool) returns (matches: seq<Match>)
    ensures matches == NameMatches(names, entries, refs, pep)
  {
    matches := [];
    var i := 0;
    while i < |entries|
      invariant 0 <= i <= |entries|
      invariant matches == NameMatches(names, entries[..i], refs, pep)
    {
      assert entries[..i + 1][..i] == entries[..i];
      var best := BestNameMatchPrepared(names, entries[i]);
      if best.Some? {
        var via := if pep then PepMatch else best.value.via;
        var severity := SeverityForMatch(via, best.value.score);
        if severity.Some? {
          matches := matches + [Match(best.value.entryName, best.value.subjectName, Round6(best.value.score), via, severity.value, refs)];
        }
      }
      i := i + 1;
    }
    assert entries[..i] == entries;
  }

  method ScreenWalletAgainstSdn(wallet: string, addresses: seq<string>, refs: seq<nat>) returns (matches: seq<Match>)
    ensures matches == WalletMatches(wallet, addresses, refs)
  {
    matches := [];
    var i := 0;
    while i < |addresses|
      invariant 0 <= i <= |addresses|
      invariant matches == WalletMatches(wallet, addresses[..i], refs)
    {
      assert addresses[..i + 1][..i] == addresses[..i];
      if WalletsEqual(wallet, addresses[i]) {
        matches := matches + [Match(addresses[i], wallet, 1.0, WalletExact, SevereMatch, refs)];
      }
      i := i + 1;
    }
    assert addresses[..i] == addresses;
  }
}
