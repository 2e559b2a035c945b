/** The job engine and the payment call together: one key, at most one transaction on the chain. */
module PaymentsPerKey {
  import opened Collections
  import opened NativePayment
  import opened PaymentSafety
  import opened ProcurementModel
  import opened ProcurementSafety

  /** The payment call made at one hand-over, with everything its node answered. */
  datatype Call = Call(wallet: Wallet, options: Options, intent: Intent, node: nat -> AttemptAnswers)

  /** The signing requests of a call. */
  function Logs(call: Call): seq<SendLog> {
    Run(call.wallet, call.options, call.intent, call.node).1
  }

  /** Transaction `attempt` of the call at hand-over number `call`. */
  datatype Transaction = Transaction(call: nat, attempt: nat)

  predicate Sent(calls: seq<Call>, t: Transaction) {
    t.call < |calls| && t.attempt < |Logs(calls[t.call])| && !Logs(calls[t.call])[t.attempt].NotSent?
  }

  predicate SameNonce(calls: seq<Call>, t: Transaction, u: Transaction) {
    && Sent(calls, t) && Sent(calls, u) && t.call == u.call
    && Logs(calls[t.call])[t.attempt].nonce == Logs(calls[u.call])[u.attempt].nonce
  }

  /** The chain holds only what was sent, and of one call at most one transaction per nonce. */
  ghost predicate ChainTakes(calls: seq<Call>, onChain: set<Transaction>) {
    && (forall t :: t in onChain ==> Sent(calls, t))
    && (forall t, u :: t in onChain && u in onChain && SameNonce(calls, t, u) ==> t == u)
  }

  /** The job whose payment `t` belongs to has the key. */
  predicate PaysFor(disk: map<JobId, Job>, handed: seq<JobId>, keyHash: string, t: Transaction) {
    && t.call < |handed| && handed[t.call] in disk
    && disk[handed[t.call]].key.Some? && disk[handed[t.call]].key.value.keyHash == keyHash
  }

  lemma SameCall(disk: map<JobId, Job>, handed: seq<JobId>, keyHash: string, t: Transaction, u: Transaction)
    requires PaysFor(disk, handed, keyHash, t) && PaysFor(disk, handed, keyHash, u)
    requires forall i :: 0 <= i < |handed| ==> handed[i] in disk
    requires forall i, j :: 0 <= i < j < |handed| ==> !SameKey(disk[handed[i]], disk[handed[j]])
    ensures t.call == u.call
  {
    assert SameKey(disk[handed[t.call]], disk[handed[u.call]]) && SameKey(disk[handed[u.call]], disk[handed[t.call]]);
  }

  lemma OnePerCall(call: Call, attempts: set<nat>)
    requires forall i :: i in attempts ==> i < |Logs(call)| && !Logs(call)[i].NotSent?
    requires forall i, j :: i in attempts && j in attempts && Logs(call)[i].nonce == Logs(call)[j].nonce ==> i == j
    ensures |attempts| <= 1
  {
    hide Run;
    AtMostOnePayment(call.wallet, call.options, call.intent, call.node, attempts);
  }

  lemma OnlyOne<T>(s: set<T>)
    requires forall a, b :: a in s && b in s ==> a == b
    ensures |s| <= 1
  {
    if a :| a in s {
      assert s == {a};
    }
  }

  lemma SameAttempt(calls: seq<Call>, onChain: set<Transaction>, t: Transaction, u: Transaction)
    requires ChainTakes(calls, onChain) && t in onChain && u in onChain && t.call == u.call
    ensures t == u
  {
    hide Logs;
    var attempts := {t.attempt, u.attempt};
    assert t.attempt != u.attempt ==> |attempts| == 2;
    OnePerCall(calls[t.call], attempts);
  }

  /**
   Whatever is requested, crashes or restarts, and whatever the nodes answer: of all the
   transactions made for the jobs of one idempotency key, at most one is on the chain.
   */
  lemma OneKeyOnePayment(c: Config, ws: seq<World>, acts: seq<Action>, m: nat, calls: seq<Call>, onChain: set<Transaction>, keyHash: string)
    requires Behaviour(c, ws, acts) && m < |ws| && |calls| == |ws[m].handed| && ChainTakes(calls, onChain)
    ensures |set t | t in onChain && PaysFor(DiskOf(ws[m].log), ws[m].handed, keyHash, t)| <= 1
  {
    hide Behaviour, ChainTakes, DiskOf;
    NeverPaysTwice(c, ws, acts, m);
    var disk, handed := DiskOf(ws[m].log), ws[m].handed;
    var paid := set t | t in onChain && PaysFor(disk, handed, keyHash, t);
    forall t, u | t in paid && u in paid ensures t == u {
      SameCall(disk, handed, keyHash, t, u);
      SameAttempt(calls, onChain, t, u);
    }
    OnlyOne(paid);
  }

  /** And likewise of all the transactions made for one job, with a key or without. */
  lemma OneJobOnePayment(c: Config, ws: seq<World>, acts: seq<Action>, m: nat, calls: seq<Call>, onChain: set<Transaction>, id: JobId)
    requires Behaviour(c, ws, acts) && m < |ws| && |calls| == |ws[m].handed| && ChainTakes(calls, onChain)
    ensures |set t | t in onChain && t.call < |ws[m].handed| && ws[m].handed[t.call] == id| <= 1
  {
    hide Behaviour, ChainTakes, DiskOf;
    NeverPaysTwice(c, ws, acts, m);
    var handed := ws[m].handed;
    var paid := set t | t in onChain && t.call < |handed| && handed[t.call] == id;
    forall t, u | t in paid && u in paid ensures t == u {
      assert t.call == u.call;
      SameAttempt(calls, onChain, t, u);
    }
    OnlyOne(paid);
  }
}
