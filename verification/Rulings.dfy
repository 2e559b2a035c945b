/**
 The evaluation agent: scores, verdicts and signed rulings. The hash of a ruling body is an
 arbitrary function, and a signature is the pair of the signer's key and what was signed.
 */
module Rulings {
  import opened Collections
  import opened Scores

  datatype Verdict = Accept | Reject | Indeterminate

  datatype Mode = Full | RubricOnly

  datatype Criterion = Criterion(id: string, kind: Kind, weight: real)

  datatype Rubric = Rubric(criteria: seq<Criterion>, acceptThreshold: real, indeterminateBand: Option<real>)

  // ---------------------------------------------------------------------
  // The verdict
  // ---------------------------------------------------------------------

  function Abs(x: real): real {
    if x < 0.0 then -x else x
  }

  /** Nothing scored, or more than half of the weight unscored. */
  predicate TooLittleScored(agg: Aggregation) {
    agg.aggregate.None? || agg.totalWeight - agg.scoredWeight > agg.totalWeight / 2.0
  }

  function DecideVerdict(agg: Aggregation, rubric: Rubric): Verdict {
    if TooLittleScored(agg) then Indeterminate
    else
      var band := rubric.indeterminateBand.GetOr(0.0);
      if band > 0.0 && Abs(agg.aggregate.value - rubric.acceptThreshold) <= band then Indeterminate
      else if agg.aggregate.value >= rubric.acceptThreshold then Accept else Reject
  }

  /** A verdict other than indeterminate lies clear of the band, on the side it names. */
  lemma VerdictMeaning(agg: Aggregation, rubric: Rubric)
    requires rubric.indeterminateBand.GetOr(0.0) >= 0.0
    ensures var band := rubric.indeterminateBand.GetOr(0.0);
            && (DecideVerdict(agg, rubric) == Accept <==>
                !TooLittleScored(agg) && agg.aggregate.value >= rubric.acceptThreshold
                && (band == 0.0 || agg.aggregate.value > rubric.acceptThreshold + band))
            && (DecideVerdict(agg, rubric) == Reject <==> !TooLittleScored(agg) && agg.aggregate.value < rubric.acceptThreshold - band)
  {
  }

  /** Too little was scored exactly when nothing counted, or more weight is open than counted. */
  lemma TooLittleExactly(results: seq<Scored>)
    ensures TooLittleScored(Aggregated(results)) <==>
            Aggregated(results).scoredWeight <= 0.0 || OpenWeight(results) > Aggregated(results).scoredWeight
  {
    MeanBalances(results, 0.0);
    hide Aggregated;
  }

  // ---------------------------------------------------------------------
  // Rubrics
  // ---------------------------------------------------------------------

  datatype RubricError = NoCriteria | DuplicateId(id: string) | BadWeight(id: string) | BadThreshold | BadBand

  ghost predicate ValidRubric(rubric: Rubric) {
    && rubric.criteria != []
    && (forall i, j :: 0 <= i < j < |rubric.criteria| ==> rubric.criteria[i].id != rubric.criteria[j].id)
    && (forall i :: 0 <= i < |rubric.criteria| ==> rubric.criteria[i].weight > 0.0)
    && 0.0 <= rubric.acceptThreshold <= 100.0 && rubric.indeterminateBand.GetOr(0.0) >= 0.0
  }

  method ValidateRubric(rubric: Rubric) returns (error: Option<RubricError>)
    ensures error.None? <==> ValidRubric(rubric)
  {
    if |rubric.criteria| == 0 {
      return Some(NoCriteria);
    }
    var seen: set<string> := {};
    for i := 0 to |rubric.criteria|
      invariant forall id :: id in seen <==> exists k :: 0 <= k < i && rubric.criteria[k].id == id
      invariant forall k, j :: 0 <= k < j < i ==> rubric.criteria[k].id != rubric.criteria[j].id
      invariant forall k :: 0 <= k < i ==> rubric.criteria[k].weight > 0.0
    {
      var c := rubric.criteria[i];
      if c.id in seen {
        return Some(DuplicateId(c.id));
      }
      seen := seen + {c.id};
      if c.weight <= 0.0 {
        return Some(BadWeight(c.id));
      }
    }
    if rubric.acceptThreshold < 0.0 || rubric.acceptThreshold > 100.0 {
      return Some(BadThreshold);
    }
    if rubric.indeterminateBand.GetOr(0.0) < 0.0 {
      return Some(BadBand);
    }
    error := None;
  }

  // ---------------------------------------------------------------------
  // Rulings
  // ---------------------------------------------------------------------

  type Key = string

  /** `H` is what the hash function returns; bodies hold real numbers, so it is not fixed to text. */
  datatype Signature<H> = Signature(key: Key, signed: H)

  datatype Body = Body(
    jobId: string, evaluatorDid: string, evaluatorPublicKey: Key, verdict: Verdict, aggregate: Option<real>,
    perCriterion: seq<Scored>, mode: Mode, issuedAt: string)

  datatype Ruling<H> = Ruling(body: Body, rulingHash: H, signature: Signature<H>)

  /** None when the body names another key than the signer's. */
  function SignRuling<H>(hash: Body -> H, body: Body, key: Key): Option<Ruling<H>> {
    if body.evaluatorPublicKey != key then None else Some(Ruling(body, hash(body), Signature(key, hash(body))))
  }

  /** Within bounds when scored, and no score otherwise. */
  predicate WellScored(c: Scored) {
    c.weight > 0.0 && if c.scored then c.score.Some? && 0.0 <= c.score.value <= 100.0 else c.score.None?
  }

  predicate SomeSubjectiveUnscored(results: seq<Scored>) {
    exists i :: 0 <= i < |results| && results[i].kind == Subjective && !results[i].scored
  }

  /** Aggregate, mode and verdict follow from the scores; with a rubric the whole verdict does. */
  predicate Consistent(body: Body, rubric: Option<Rubric>) {
    var agg := Aggregated(body.perCriterion);
    && (forall i :: 0 <= i < |body.perCriterion| ==> WellScored(body.perCriterion[i]))
    && body.aggregate == agg.aggregate
    && body.mode == (if SomeSubjectiveUnscored(body.perCriterion) then RubricOnly else Full)
    && (TooLittleScored(agg) ==> body.verdict == Indeterminate)
    && (rubric.Some? ==> body.verdict == DecideVerdict(agg, rubric.value))
  }

  predicate Genuine<H(==)>(hash: Body -> H, ruling: Ruling<H>, key: Key) {
    ruling.rulingHash == hash(ruling.body) && ruling.signature == Signature(key, ruling.rulingHash)
  }

  predicate Verifies<H(==)>(hash: Body -> H, ruling: Ruling<H>, key: Key, rubric: Option<Rubric>) {
    Genuine(hash, ruling, key) && Consistent(ruling.body, rubric)
  }

  method VerifyRulingConsistency(body: Body, rubric: Option<Rubric>) returns (valid: bool)
    ensures valid <==> Consistent(body, rubric)
  {
    hide Aggregated, DecideVerdict, TooLittleScored;
    for i := 0 to |body.perCriterion|
      invariant forall k :: 0 <= k < i ==> WellScored(body.perCriterion[k])
    {
      var c := body.perCriterion[i];
      if c.weight <= 0.0 {
        return false;
      }
      if c.scored {
        if c.score.None? || c.score.value < 0.0 || c.score.value > 100.0 {
          return false;
        }
      } else if c.score.Some? {
        return false;
      }
    }
    var agg := AggregateScores(body.perCriterion);
    if agg.aggregate != body.aggregate {
      return false;
    }
    var expectedMode := if SomeSubjectiveUnscored(body.perCriterion) then RubricOnly else Full;
    if body.mode != expectedMode {
      return false;
    }
    if TooLittleScored(agg) && body.verdict != Indeterminate {
      return false;
    }
    if rubric.Some? && body.verdict != DecideVerdict(agg, rubric.value) {
      return false;
    }
    valid := true;
  }

  method VerifyRuling<H(==)>(hash: Body -> H, ruling: Ruling<H>, key: Key, rubric: Option<Rubric>) returns (valid: bool)
    ensures valid <==> Verifies(hash, ruling, key, rubric)
  {
    if ruling.rulingHash != hash(ruling.body) {
      return false;
    }
    if ruling.signature != Signature(key, ruling.rulingHash) {
      return false;
    }
    valid := VerifyRulingConsistency(ruling.body, rubric);
  }

  /**
   An edited body passes under the same hash and signature, for some key and rubric, exactly
   when it follows from its own scores and collides with the body that was signed.
   */
  lemma EditPassesExactly<H>(hash: Body -> H, ruling: Ruling<H>, edited: Body, key: Key, rubric: Option<Rubric>)
    requires Verifies(hash, ruling, key, rubric)
    ensures (exists other: Key, r: Option<Rubric> :: Verifies(hash, ruling.(body := edited), other, r)) <==>
            hash(edited) == hash(ruling.body) && Consistent(edited, None)
  {
    hide Aggregated, DecideVerdict, WellScored;
    if other: Key, r: Option<Rubric> :| Verifies(hash, ruling.(body := edited), other, r) {
      assert Genuine(hash, ruling.(body := edited), other) && Genuine(hash, ruling, key);
      assert Consistent(edited, r);
    }
    if hash(edited) == hash(ruling.body) && Consistent(edited, None) {
      assert Verifies(hash, ruling.(body := edited), key, None);
    }
  }

  // ---------------------------------------------------------------------
  // Evaluation
  // ---------------------------------------------------------------------

  datatype Outcome = Outcome(pass: bool, reason: string)

  datatype Judged = Judged(score: real, reason: string)

  const UNAVAILABLE := "unscored — LLM judge unavailable or returned no score"
  const DISABLED := "unscored — LLM judging disabled (EVAL_USE_LLM != 1)"

  /** What the judge says, by criterion id; not asked when disabled or without subjective criteria. */
  function Judgements(rubric: Rubric, useLlm: bool, judge: Option<map<string, Judged>>): map<string, Judged> {
    if useLlm && (exists i :: 0 <= i < |rubric.criteria| && rubric.criteria[i].kind == Subjective) then judge.GetOr(map[]) else map[]
  }

  function ScoreOf(c: Criterion, check: Criterion -> Outcome, judged: map<string, Judged>, useLlm: bool): Scored {
    if c.kind == Mechanical then Scored(c.id, c.kind, c.weight, true, Some(if check(c).pass then 100.0 else 0.0), check(c).reason)
    else if c.id in judged then Scored(c.id, c.kind, c.weight, true, Some(judged[c.id].score), judged[c.id].reason)
    else Scored(c.id, c.kind, c.weight, false, None, if useLlm then UNAVAILABLE else DISABLED)
  }

  /** Checks score 100 or 0; the judge's criteria score what it said, and stay open, for the reason at hand, where it said nothing. */
  lemma ScoreExactly(c: Criterion, check: Criterion -> Outcome, judged: map<string, Judged>, useLlm: bool)
    ensures var r := ScoreOf(c, check, judged, useLlm);
            && r.id == c.id && r.kind == c.kind && r.weight == c.weight && (r.scored <==> r.score.Some?)
            && (r.scored <==> c.kind == Mechanical || c.id in judged)
            && (c.kind == Mechanical ==> (r.score == Some(100.0) <==> check(c).pass) && (r.score == Some(0.0) <==> !check(c).pass))
            && (c.kind == Subjective && r.scored ==> r.score == Some(judged[c.id].score))
            && (!r.scored ==> (r.reason == UNAVAILABLE <==> useLlm))
  {
    assert |UNAVAILABLE| != |DISABLED|;
  }

  /** Every score the judge gives for a subjective criterion of the rubric is in 0..100. */
  predicate ScoresInRange(rubric: Rubric, judged: map<string, Judged>) {
    forall i :: 0 <= i < |rubric.criteria| && rubric.criteria[i].kind == Subjective && rubric.criteria[i].id in judged ==>
                  0.0 <= judged[rubric.criteria[i].id].score <= 100.0
  }

  /** The ruling covers the rubric's criteria in order, is signed, and has the verdict its scores call for. */
  ghost predicate Issued<H>(hash: Body -> H, rubric: Rubric, key: Key, check: Criterion -> Outcome, judged: map<string, Judged>, useLlm: bool, ruling: Ruling<H>) {
    && |ruling.body.perCriterion| == |rubric.criteria|
    && (forall i :: 0 <= i < |rubric.criteria| ==> ruling.body.perCriterion[i] == ScoreOf(rubric.criteria[i], check, judged, useLlm))
    && ruling.body.aggregate == Aggregated(ruling.body.perCriterion).aggregate
    && ruling.body.verdict == DecideVerdict(Aggregated(ruling.body.perCriterion), rubric)
    && ruling.body.mode == (if SomeSubjectiveUnscored(ruling.body.perCriterion) then RubricOnly else Full)
    && ruling.body.evaluatorPublicKey == key && Genuine(hash, ruling, key)
  }

  method Evaluate<H>(hash: Body -> H, jobId: string, rubric: Rubric, did: string, key: Key, check: Criterion -> Outcome,
                  judge: Option<map<string, Judged>>, useLlm: bool, now: string)
    returns (ruling: Option<Ruling<H>>)
    ensures ruling.Some? <==> ValidRubric(rubric)
    ensures ruling.Some? ==> ruling.value.body.jobId == jobId && ruling.value.body.evaluatorDid == did && ruling.value.body.issuedAt == now
    ensures ruling.Some? ==> Issued(hash, rubric, key, check, Judgements(rubric, useLlm, judge), useLlm, ruling.value)
  {
    hide Aggregated, DecideVerdict;
    var error := ValidateRubric(rubric);
    if error.Some? {
      return None;
    }
    var judged := Judgements(rubric, useLlm, judge);
    var subjectiveUnscored := false;
    var perCriterion: seq<Scored> := [];
    for i := 0 to |rubric.criteria|
      invariant |perCriterion| == i
      invariant forall k :: 0 <= k < i ==> perCriterion[k] == ScoreOf(rubric.criteria[k], check, judged, useLlm)
      invariant subjectiveUnscored <==> SomeSubjectiveUnscored(perCriterion)
    {
      var c := rubric.criteria[i];
      ghost var before := perCriterion;
      perCriterion := perCriterion + [ScoreOf(c, check, judged, useLlm)];
      if c.kind == Subjective && c.id !in judged {
        subjectiveUnscored := true;
        assert perCriterion[i].kind == Subjective && !perCriterion[i].scored;
      }
      assert forall k :: 0 <= k < i ==> perCriterion[k] == before[k];
    }
    var agg := AggregateScores(perCriterion);
    var body := Body(jobId, did, key, DecideVerdict(agg, rubric), agg.aggregate, perCriterion,
                     if subjectiveUnscored then RubricOnly else Full, now);
    ruling := SignRuling(hash, body, key);
  }

  /** An issued ruling verifies, with or without its rubric, exactly when the judge kept to 0..100. */
  lemma IssuedVerifies<H>(hash: Body -> H, rubric: Rubric, key: Key, check: Criterion -> Outcome, judged: map<string, Judged>, useLlm: bool, ruling: Ruling<H>)
    requires ValidRubric(rubric) && Issued(hash, rubric, key, check, judged, useLlm, ruling)
    ensures Verifies(hash, ruling, ruling.body.evaluatorPublicKey, Some(rubric)) <==> ScoresInRange(rubric, judged)
    ensures Verifies(hash, ruling, ruling.body.evaluatorPublicKey, None) <==> ScoresInRange(rubric, judged)
  {
    var results := ruling.body.perCriterion;
    hide Aggregated;
    forall i | 0 <= i < |results|
      ensures WellScored(results[i]) <==>
              (rubric.criteria[i].kind == Subjective && rubric.criteria[i].id in judged ==> 0.0 <= judged[rubric.criteria[i].id].score <= 100.0)
    {
      assert results[i] == ScoreOf(rubric.criteria[i], check, judged, useLlm);
    }
    if forall i :: 0 <= i < |results| ==> WellScored(results[i]) {
      forall i | 0 <= i < |rubric.criteria| && rubric.criteria[i].kind == Subjective && rubric.criteria[i].id in judged
        ensures 0.0 <= judged[rubric.criteria[i].id].score <= 100.0
      {
        assert WellScored(results[i]);
      }
    }
  }
}
