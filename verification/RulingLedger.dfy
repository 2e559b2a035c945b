/** The append-only, hash-chained ledger of rulings. */
module RulingLedger {
  import opened Collections
  import opened Scores
  import opened Rulings

  /** What an entry's hash covers. */
  datatype Content<H> = Content(seqNo: int, prevHash: H, ruling: Ruling<H>)

  datatype Entry<H> = Entry(seqNo: int, prevHash: H, entryHash: H, ruling: Ruling<H>)

  /** The hashes a ledger is checked with. */
  datatype Hashes<!H> = Hashes(body: Body -> H, content: Content<H> -> H, genesis: H)

  function ContentOf<H>(e: Entry<H>): Content<H> {
    Content(e.seqNo, e.prevHash, e.ruling)
  }

  function PrevOf<H>(h: Hashes<H>, entries: seq<Entry<H>>, i: nat): H
    requires i <= |entries|
  {
    if i == 0 then h.genesis else entries[i - 1].entryHash
  }

  predicate EntryOk<H(==)>(h: Hashes<H>, entries: seq<Entry<H>>, i: nat)
    requires i < |entries|
  {
    && entries[i].seqNo == i + 1
    && entries[i].prevHash == PrevOf(h, entries, i)
    && entries[i].entryHash == h.content(ContentOf(entries[i]))
    && Verifies(h.body, entries[i].ruling, entries[i].ruling.body.evaluatorPublicKey, None)
  }

  predicate ValidLedger<H(==)>(h: Hashes<H>, entries: seq<Entry<H>>) {
    forall i :: 0 <= i < |entries| ==> EntryOk(h, entries, i)
  }

  function NextEntry<H>(h: Hashes<H>, entries: seq<Entry<H>>, ruling: Ruling<H>): Entry<H> {
    var seqNo := if entries == [] then 1 else entries[|entries| - 1].seqNo + 1;
    var prevHash := PrevOf(h, entries, |entries|);
    Entry(seqNo, prevHash, h.content(Content(seqNo, prevHash, ruling)), ruling)
  }

  datatype Problem = WrongSeq(i: nat) | BrokenChain(i: nat) | WrongEntryHash(i: nat) | InvalidRuling(i: nat)

  /** The file, one entry a line. */
  class Ledger<H(==)> {
    var entries: seq<Entry<H>>

    constructor ()
      ensures entries == []
    {
      entries := [];
    }

    method AppendRuling(h: Hashes<H>, ruling: Ruling<H>) returns (entry: Entry<H>)
      modifies this
      ensures entry == NextEntry(h, old(entries), ruling) && entries == old(entries) + [entry]
      ensures ValidLedger(h, entries) <==>
              ValidLedger(h, old(entries)) && Verifies(h.body, ruling, ruling.body.evaluatorPublicKey, None)
    {
      AppendKeepsValid(h, entries, ruling);
      var seqNo := if entries == [] then 1 else entries[|entries| - 1].seqNo + 1;
      var prevHash := if entries == [] then h.genesis else entries[|entries| - 1].entryHash;
      entry := Entry(seqNo, prevHash, h.content(Content(seqNo, prevHash, ruling)), ruling);
      entries := entries + [entry];
    }

    method VerifyLedger(h: Hashes<H>) returns (valid: bool, problems: seq<Problem>)
      ensures valid <==> ValidLedger(h, entries)
      ensures valid <==> problems == []
    {
      hide Verifies;
      problems := [];
      var expectedPrev := h.genesis;
      var i := 0;
      while i < |entries|
        invariant 0 <= i <= |entries|
        invariant expectedPrev == PrevOf(h, entries, i)
        invariant problems == [] <==> forall k :: 0 <= k < i ==> EntryOk(h, entries, k)
      {
        ghost var before := problems;
        var entry := entries[i];
        if entry.seqNo != i + 1 {
          problems := problems + [WrongSeq(i)];
        }
        if entry.prevHash != expectedPrev {
          problems := problems + [BrokenChain(i)];
        }
        if entry.entryHash != h.content(ContentOf(entry)) {
          problems := problems + [WrongEntryHash(i)];
        }
        var sound := VerifyRuling(h.body, entry.ruling, entry.ruling.body.evaluatorPublicKey, None);
        if !sound {
          problems := problems + [InvalidRuling(i)];
        }
        assert problems == [] <==> before == [] && EntryOk(h, entries, i);
        expectedPrev := entry.entryHash;
        i := i + 1;
      }
      valid := |problems| == 0;
    }
  }

  /** An appended ledger is valid exactly when it was and the ruling verifies. */
  lemma AppendKeepsValid<H>(h: Hashes<H>, entries: seq<Entry<H>>, ruling: Ruling<H>)
    ensures ValidLedger(h, entries + [NextEntry(h, entries, ruling)]) <==>
            ValidLedger(h, entries) && Verifies(h.body, ruling, ruling.body.evaluatorPublicKey, None)
  {
    hide Verifies;
    var more, n := entries + [NextEntry(h, entries, ruling)], |entries|;
    forall i | 0 <= i < n ensures EntryOk(h, more, i) <==> EntryOk(h, entries, i) {
      assert more[i] == entries[i];
    }
    assert more[n] == NextEntry(h, entries, ruling) && PrevOf(h, more, n) == PrevOf(h, entries, n);
    if ValidLedger(h, entries) {
      assert n > 0 ==> EntryOk(h, entries, n - 1);
    }
    if ValidLedger(h, more) {
      assert EntryOk(h, more, n);
      forall i | 0 <= i < n ensures EntryOk(h, entries, i) { assert EntryOk(h, more, i); }
    }
  }

  /** A ruling the agent issued on scores in range keeps a valid ledger valid. */
  lemma IssuedRulingKeepsValid<H>(h: Hashes<H>, entries: seq<Entry<H>>, rubric: Rubric, key: Key, check: Criterion -> Outcome,
                               judged: map<string, Judged>, useLlm: bool, ruling: Ruling<H>)
    requires ValidLedger(h, entries) && ValidRubric(rubric) && Issued(h.body, rubric, key, check, judged, useLlm, ruling)
    ensures ValidLedger(h, entries + [NextEntry(h, entries, ruling)]) <==> ScoresInRange(rubric, judged)
  {
    hide ValidLedger, Issued, Verifies, ScoresInRange;
    AppendKeepsValid(h, entries, ruling);
    IssuedVerifies(h.body, rubric, key, check, judged, useLlm, ruling);
  }

  // ---------------------------------------------------------------------
  // Tamper evidence
  // ---------------------------------------------------------------------

  /** Two different contents with one hash. */
  predicate Collides<H(==)>(h: Hashes<H>, c: Content<H>, d: Content<H>) {
    c != d && h.content(c) == h.content(d)
  }

  /** Some entry of one ledger collides with some entry of the other. */
  predicate HoldCollision<H(==)>(h: Hashes<H>, a: seq<Entry<H>>, b: seq<Entry<H>>) {
    exists i, j :: 0 <= i < |a| && 0 <= j < |b| && Collides(h, ContentOf(a[i]), ContentOf(b[j]))
  }

  ghost predicate CollisionFree<H(!new)>(h: Hashes<H>) {
    forall a, b :: h.content(a) == h.content(b) ==> a == b
  }

  lemma ValidPrefix<H>(h: Hashes<H>, entries: seq<Entry<H>>, n: nat)
    requires ValidLedger(h, entries) && n <= |entries|
    ensures ValidLedger(h, entries[..n])
  {
    hide Verifies;
    forall i | 0 <= i < n ensures EntryOk(h, entries[..n], i) {
      assert EntryOk(h, entries, i);
    }
  }

  /**
   Two accepted ledgers that end in the same entry hash are the same ledger, unless they
   exhibit a collision of the hash. Nothing is assumed of the hash.
   */
  lemma {:induction false} LastHashFixesLedger<H>(h: Hashes<H>, a: seq<Entry<H>>, b: seq<Entry<H>>)
    requires ValidLedger(h, a) && ValidLedger(h, b) && a != [] && b != []
    requires a[|a| - 1].entryHash == b[|b| - 1].entryHash
    ensures a == b || HoldCollision(h, a, b)
    decreases |a|
  {
    hide Verifies;
    var m, n := |a| - 1, |b| - 1;
    assert EntryOk(h, a, m) && EntryOk(h, b, n);
    if ContentOf(a[m]) != ContentOf(b[n]) {
      assert Collides(h, ContentOf(a[m]), ContentOf(b[n]));
    } else {
      assert m == n && a[m] == b[n];
      if m > 0 {
        ValidPrefix(h, a, m);
        ValidPrefix(h, b, m);
        LastHashFixesLedger(h, a[..m], b[..m]);
        CollisionStays(h, a, b, m);
      }
      assert a == a[..m] + [a[m]] && b == b[..m] + [b[m]];
    }
  }

  lemma CollisionStays<H>(h: Hashes<H>, a: seq<Entry<H>>, b: seq<Entry<H>>, m: nat)
    requires m <= |a| && m <= |b|
    ensures HoldCollision(h, a[..m], b[..m]) ==> HoldCollision(h, a, b)
  {
    if HoldCollision(h, a[..m], b[..m]) {
      var i, j :| 0 <= i < m && 0 <= j < m && Collides(h, ContentOf(a[..m][i]), ContentOf(b[..m][j]));
      assert Collides(h, ContentOf(a[i]), ContentOf(b[j]));
    }
  }

  /** So, with a collision-free hash, a record of one entry hash fixes every entry up to it. */
  lemma HashFixesHistory<H(!new)>(h: Hashes<H>, a: seq<Entry<H>>, b: seq<Entry<H>>, i: nat, j: nat)
    requires CollisionFree(h) && ValidLedger(h, a) && ValidLedger(h, b) && i < |a| && j < |b|
    requires a[i].entryHash == b[j].entryHash
    ensures i == j && a[..i + 1] == b[..j + 1]
  {
    ValidPrefix(h, a, i + 1);
    ValidPrefix(h, b, j + 1);
    hide ValidLedger;
    LastHashFixesLedger(h, a[..i + 1], b[..j + 1]);
    assert |a[..i + 1]| == |b[..j + 1]|;
  }

  /** The free hash: a digest that is what it was made from. */
  datatype Digest = GenesisDigest | BodyDigest(body: Body) | ContentDigest(content: Content<Digest>)

  function FreeHashes(): Hashes<Digest> {
    Hashes(b => BodyDigest(b), c => ContentDigest(c), GenesisDigest)
  }

  /** A ruling the agent issues on a rubric of one check that passes. */
  lemma SomeRuling() returns (rubric: Rubric, check: Criterion -> Outcome, ruling: Ruling<Digest>)
    ensures ValidRubric(rubric) && Issued(FreeHashes().body, rubric, ruling.body.evaluatorPublicKey, check, map[], false, ruling)
  {
    rubric := Rubric([Criterion("c", Mechanical, 1.0)], 50.0, None);
    check := _ => Outcome(true, "");
    var scores := [ScoreOf(rubric.criteria[0], check, map[], false)];
    var agg := Aggregated(scores);
    var body := Body("job", "did", "key", DecideVerdict(agg, rubric), agg.aggregate, scores,
                     if SomeSubjectiveUnscored(scores) then RubricOnly else Full, "now");
    ruling := SignRuling(FreeHashes().body, body, "key").value;
  }

  /** Collision-free hashes exist, and under them valid ledgers of any length: the results above are about something. */
  lemma {:induction false} FreeLedgers(n: nat) returns (entries: seq<Entry<Digest>>)
    ensures CollisionFree(FreeHashes()) && ValidLedger(FreeHashes(), entries) && |entries| == n
  {
    if n == 0 {
      entries := [];
    } else {
      var before := FreeLedgers(n - 1);
      var rubric, check, ruling := SomeRuling();
      IssuedRulingKeepsValid(FreeHashes(), before, rubric, ruling.body.evaluatorPublicKey, check, map[], false, ruling);
      entries := before + [NextEntry(FreeHashes(), before, ruling)];
    }
  }
}
