/**
 Scoring two names, finding the best pair of two alias lists, and the severity a score
 carries. Names arrive prepared: normalised, tokenised, with and without legal suffixes.
 */
module NameMatching {
  import opened Collections
  import opened Money
  import JW = JaroWinkler

  const MATCH_THRESHOLD := 0.93

  const POTENTIAL_THRESHOLD := 0.85

  datatype Method = Exact | JaroWinkler | TokenOverlap | WalletExact | EdgarRegistration | PepMatch

  datatype Severity = SevereMatch | PotentialMatch | Info

  datatype PreparedName = PreparedName(raw: string, key: string, tokens: set<string>, coreKey: string, coreTokens: set<string>)

  datatype NameScore = NameScore(score: real, via: Method)

  // ---------------------------------------------------------------------
  // Token overlap
  // ---------------------------------------------------------------------

  /** Twice the shared tokens over all tokens. */
  function Dice(a: set<string>, b: set<string>): real {
    if |a| == 0 || |b| == 0 then 0.0 else (2 * |a * b|) as real / (|a| + |b|) as real
  }

  method DiceTokenOverlap(a: set<string>, b: set<string>) returns (r: real)
    ensures r == Dice(a, b)
  {
    if |a| == 0 || |b| == 0 {
      return 0.0;
    }
    var shared := 0;
    var rest := a;
    while rest != {}
      invariant rest <= a && shared == |(a - rest) * b|
      decreases rest
    {
      var t :| t in rest;
      if t in b {
        assert (a - (rest - {t})) * b == (a - rest) * b + {t};
        shared := shared + 1;
      } else {
        assert (a - (rest - {t})) * b == (a - rest) * b;
      }
      rest := rest - {t};
    }
    assert (a - rest) * b == a * b;
    r := (2 * shared) as real / (|a| + |b|) as real;
  }

  /** A similarity: in [0,1], and 1 for equal non-empty token sets only. */
  lemma DiceRange(a: set<string>, b: set<string>)
    ensures 0.0 <= Dice(a, b) <= 1.0
    ensures Dice(a, b) == 1.0 <==> a == b && a != {}
  {
    SubsetCard(a * b, a);
    SubsetCard(a * b, b);
    if |a| != 0 && |b| != 0 {
      JW.RatioBounds(2 * |a * b|, |a| + |b|);
      if 2 * |a * b| == |a| + |b| {
        FullSubset(a * b, a);
        FullSubset(a * b, b);
      }
    }
    if a == b {
      assert a * b == a;
    }
  }

  lemma FullSubset<T>(a: set<T>, b: set<T>)
    requires a <= b && |a| == |b|
    ensures a == b
  {
    if x :| x in b && x !in a {
      SubsetCard(a, b - {x});
    }
  }

  // ---------------------------------------------------------------------
  // One pair
  // ---------------------------------------------------------------------

  function ScoreVariant(aKey: string, aTokens: set<string>, bKey: string, bTokens: set<string>): NameScore {
    if |aKey| == 0 || |bKey| == 0 then NameScore(0.0, TokenOverlap)
    else if aKey == bKey then NameScore(1.0, Exact)
    else
      var jw, dice := JW.Score(aKey, bKey), Dice(aTokens, bTokens);
      if jw >= dice then NameScore(jw, JaroWinkler) else NameScore(dice, TokenOverlap)
  }

  function FullScore(a: PreparedName, b: PreparedName): NameScore {
    ScoreVariant(a.key, a.tokens, b.key, b.tokens)
  }

  function CoreScore(a: PreparedName, b: PreparedName): NameScore {
    ScoreVariant(a.coreKey, a.coreTokens, b.coreKey, b.coreTokens)
  }

  function ScorePrepared(a: PreparedName, b: PreparedName): NameScore {
    var full := FullScore(a, b);
    if full.score >= 1.0 then full
    else
      var core := CoreScore(a, b);
      if core.score > full.score then core else full
  }

  lemma VariantRange(aKey: string, aTokens: set<string>, bKey: string, bTokens: set<string>)
    ensures var s := ScoreVariant(aKey, aTokens, bKey, bTokens);
            && 0.0 <= s.score <= 1.0
            && (s.via == Exact || s.via == JaroWinkler || s.via == TokenOverlap)
            && (s.via == Exact ==> s.score == 1.0)
            && (s.via == JaroWinkler ==> s.score < 1.0)
  {
    JW.ScoreRange(aKey, bKey);
    DiceRange(aTokens, bTokens);
  }

  /** An empty key scores nothing; else a reading gets the better of its two measures, named by the one that gave it. */
  lemma VariantExactly(aKey: string, aTokens: set<string>, bKey: string, bTokens: set<string>)
    ensures var s, jw, dice := ScoreVariant(aKey, aTokens, bKey, bTokens), JW.Score(aKey, bKey), Dice(aTokens, bTokens);
            && (aKey == "" || bKey == "" ==> s.score == 0.0)
            && (aKey != "" && bKey != "" ==> s.score >= jw && s.score >= dice && (s.score == jw || s.score == dice))
            && (s.via == Exact <==> aKey == bKey && aKey != "")
            && (s.via == JaroWinkler <==> aKey != "" && bKey != "" && aKey != bKey && jw >= dice)
            && (s.via == Exact ==> s.score == 1.0)
  {
    JW.ScoreRange(aKey, bKey);
    DiceRange(aTokens, bTokens);
  }

  /** The overlap against a threshold, counted in tokens. */
  lemma DiceReaches(a: set<string>, b: set<string>, percent: nat)
    requires percent > 0
    ensures Dice(a, b) >= percent as real / 100.0 <==> a != {} && b != {} && 200 * |a * b| >= percent * (|a| + |b|)
  {
    if a != {} && b != {} {
      var shared, all := |a * b|, |a| + |b|;
      assert Dice(a, b) * all as real == (2 * shared) as real;
      QuotientReaches(2 * shared, all, percent);
    }
  }

  lemma QuotientReaches(x: nat, n: nat, percent: nat)
    requires n > 0
    ensures x as real / n as real >= percent as real / 100.0 <==> 100 * x >= percent * n
  {
    var q, p := x as real / n as real, percent as real / 100.0;
    assert q * n as real == x as real;
    assert p * n as real * 100.0 == (percent * n) as real;
    if q >= p {
      assert q * n as real >= p * n as real;
    } else {
      assert q * n as real < p * n as real;
    }
  }

  /** Suffix stripping only raises a score: the pair gets the better of its two readings, the full one on a tie. */
  lemma CoreOnlyRaises(a: PreparedName, b: PreparedName)
    ensures ScorePrepared(a, b) == if CoreScore(a, b).score > FullScore(a, b).score then CoreScore(a, b) else FullScore(a, b)
    ensures ScorePrepared(a, b).score == MaxReal(FullScore(a, b).score, CoreScore(a, b).score)
    ensures 0.0 <= ScorePrepared(a, b).score <= 1.0
    ensures ScorePrepared(a, b).via in {Exact, JaroWinkler, TokenOverlap}
    ensures ScorePrepared(a, b).via == Exact ==> ScorePrepared(a, b).score == 1.0
  {
    VariantRange(a.key, a.tokens, b.key, b.tokens);
    VariantRange(a.coreKey, a.coreTokens, b.coreKey, b.coreTokens);
  }

  // ---------------------------------------------------------------------
  // The best pair of two alias lists
  // ---------------------------------------------------------------------

  datatype Best = Best(score: real, via: Method, subjectName: string, entryName: string)

  function Better(best: Option<Best>, s: PreparedName, e: PreparedName): Option<Best> {
    var scored := ScorePrepared(s, e);
    if scored.score < POTENTIAL_THRESHOLD then best
    else if best.None? || scored.score > best.value.score then Some(Best(scored.score, scored.via, s.raw, e.raw))
    else best
  }

  function BestOfRow(subject: seq<PreparedName>, e: PreparedName, best: Option<Best>): Option<Best> {
    if subject == [] then best else BestOfRow(subject[1..], e, Better(best, subject[0], e))
  }

  function BestFrom(subject: seq<PreparedName>, entry: seq<PreparedName>, best: Option<Best>): Option<Best> {
    if entry == [] then best else BestFrom(subject, entry[1..], BestOfRow(subject, entry[0], best))
  }

  function BestMatch(subject: seq<PreparedName>, entry: seq<PreparedName>): Option<Best> {
    BestFrom(subject, entry, None)
  }

  method BestNameMatchPrepared(subject: seq<PreparedName>, entry: seq<PreparedName>) returns (best: Option<Best>)
    ensures best == BestMatch(subject, entry)
  {
    best := None;
    var i := 0;
    while i < |entry|
      invariant 0 <= i <= |entry|
      invariant BestMatch(subject, entry) == BestFrom(subject, entry[i..], best)
    {
      ghost var row := BestOfRow(subject, entry[i], best);
      var j := 0;
      while j < |subject|
        invariant 0 <= j <= |subject|
        invariant row == BestOfRow(subject[j..], entry[i], best)
      {
        var scored := ScorePrepared(subject[j], entry[i]);
        assert subject[j..][1..] == subject[j + 1..];
        if scored.score >= POTENTIAL_THRESHOLD && (best.None? || scored.score > best.value.score) {
          best := Some(Best(scored.score, scored.via, subject[j].raw, entry[i].raw));
        }
        j := j + 1;
      }
      assert entry[i..][1..] == entry[i + 1..];
      i := i + 1;
    }
  }

  /** `b` reports a pair of the two lists, with that pair's own score and method. */
  predicate Reports(b: Best, subject: seq<PreparedName>, entry: seq<PreparedName>) {
    exists s, e :: s in subject && e in entry && ReportsPair(b, s, e)
  }

  predicate ReportsPair(b: Best, s: PreparedName, e: PreparedName) {
    && b.subjectName == s.raw && b.entryName == e.raw
    && ScorePrepared(s, e) == NameScore(b.score, b.via) && b.score >= POTENTIAL_THRESHOLD
  }

  /** No pair beats `best`; where there is none, no pair reaches the potential threshold. */
  predicate Dominates(best: Option<Best>, s: PreparedName, e: PreparedName) {
    ScorePrepared(s, e).score < POTENTIAL_THRESHOLD || (best.Some? && ScorePrepared(s, e).score <= best.value.score)
  }

  ghost predicate Keeps(before: Option<Best>, after: Option<Best>) {
    before.Some? ==> after.Some? && before.value.score <= after.value.score
  }

  lemma {:induction false} RowFacts(subject: seq<PreparedName>, e: PreparedName, best: Option<Best>)
    ensures Keeps(best, BestOfRow(subject, e, best))
    ensures forall s :: s in subject ==> Dominates(BestOfRow(subject, e, best), s, e)
    ensures BestOfRow(subject, e, best) == best
            || (BestOfRow(subject, e, best).Some? && exists s :: s in subject && ReportsPair(BestOfRow(subject, e, best).value, s, e))
  {
    if subject != [] {
      var next := Better(best, subject[0], e);
      RowFacts(subject[1..], e, next);
      if next != best {
        assert ReportsPair(next.value, subject[0], e) && subject[0] in subject;
      }
    }
  }

  lemma {:induction false} BestFacts(subject: seq<PreparedName>, entry: seq<PreparedName>, best: Option<Best>)
    ensures Keeps(best, BestFrom(subject, entry, best))
    ensures forall s, e :: s in subject && e in entry ==> Dominates(BestFrom(subject, entry, best), s, e)
    ensures BestFrom(subject, entry, best) == best
            || (BestFrom(subject, entry, best).Some? && Reports(BestFrom(subject, entry, best).value, subject, entry))
  {
    if entry != [] {
      var next := BestOfRow(subject, entry[0], best);
      RowFacts(subject, entry[0], best);
      BestFacts(subject, entry[1..], next);
      assert entry[0] in entry && forall e :: e in entry[1..] ==> e in entry;
      assert forall e :: e in entry ==> e == entry[0] || e in entry[1..];
    }
  }

  /** The scan misses nothing: no result exactly when no pair reaches 0.85, else a best pair. */
  lemma BestMatchIsBest(subject: seq<PreparedName>, entry: seq<PreparedName>)
    ensures BestMatch(subject, entry).None? <==>
            (forall s, e :: s in subject && e in entry ==> ScorePrepared(s, e).score < POTENTIAL_THRESHOLD)
    ensures BestMatch(subject, entry).Some? ==> Reports(BestMatch(subject, entry).value, subject, entry)
    ensures forall s, e :: s in subject && e in entry ==> Dominates(BestMatch(subject, entry), s, e)
  {
    BestFacts(subject, entry, None);
  }

  // ---------------------------------------------------------------------
  // Severity
  // ---------------------------------------------------------------------

  function ClassifyScore(score: real): Option<Severity> {
    if score >= MATCH_THRESHOLD then Some(SevereMatch)
    else if score >= POTENTIAL_THRESHOLD then Some(PotentialMatch)
    else None
  }

  function SeverityForMatch(via: Method, score: real): Option<Severity> {
    match via
    case WalletExact => Some(SevereMatch)
    case Exact => Some(SevereMatch)
    case EdgarRegistration => Some(Info)
    case JaroWinkler => ClassifyScore(score)
    case TokenOverlap => ClassifyScore(score)
    case PepMatch =>
      if score >= 1.0 then Some(SevereMatch)
      else if score >= POTENTIAL_THRESHOLD then Some(PotentialMatch)
      else None
  }

  lemma Round6Range(n: real)
    requires 0.0 <= n <= 1.0
    ensures 0.0 <= Round6(n) <= 1.0
    ensures n >= POTENTIAL_THRESHOLD ==> Round6(n) >= POTENTIAL_THRESHOLD
    ensures n >= MATCH_THRESHOLD ==> Round6(n) >= MATCH_THRESHOLD
    ensures n == 1.0 ==> Round6(n) == 1.0
  {
    var k := (n * 1000000.0 + 0.5).Floor;
    assert k as real <= n * 1000000.0 + 0.5 < k as real + 1.0;
    assert 0 <= k <= 1000000;
    assert n >= POTENTIAL_THRESHOLD ==> k >= 850000;
    assert n >= MATCH_THRESHOLD ==> k >= 930000;
    assert n == 1.0 ==> k >= 1000000;
  }

  /** Rounding changes a severity in two narrow bands only: just under 0.93, and for PEP just under 1. */
  lemma RoundingBands(via: Method, score: real)
    requires POTENTIAL_THRESHOLD <= score <= 1.0
    ensures SeverityForMatch(via, Round6(score)) == SeverityForMatch(via, score) <==>
            !((via == JaroWinkler || via == TokenOverlap) && 0.9299995 <= score < MATCH_THRESHOLD)
            && !(via == PepMatch && 0.9999995 <= score < 1.0)
  {
    Round6Range(score);
    var k := (score * 1000000.0 + 0.5).Floor;
    assert k as real <= score * 1000000.0 + 0.5 < k as real + 1.0;
    assert Round6(score) >= MATCH_THRESHOLD <==> k >= 930000;
    assert Round6(score) >= 1.0 <==> k >= 1000000;
    assert k >= 930000 <==> score >= 0.9299995;
    assert k >= 1000000 <==> score >= 0.9999995;
  }
}
