/** Safety of the native payment, whatever the node answers. */
module PaymentSafety {
  import opened Collections
  import opened Text
  import opened NativePayment

  /** Never sent, refused, or dropped by the evidence the code asks for. */
  predicate Resolved(log: SendLog) {
    log.NotSent? || log.Refused? || (log.Dropped? && ProvesDrop(log.why, log.nonce))
  }

  ghost predicate OneNonce(logs: seq<SendLog>, nonce: int) {
    forall i :: 0 <= i < |logs| && !logs[i].NotSent? ==> logs[i].nonce == nonce
  }

  lemma AttemptFacts(w: Wallet, o: Options, intent: Intent, a: AttemptAnswers, k: nat, reserved: Option<int>)
    ensures var log := Attempt(w, o, intent, a, k, reserved);
            && (!log.NotSent? ==> NonceAfter(a, reserved) == Some(log.nonce))
            && (Resolved(log) || log.Lost? || log.Stopped? || log.Settled? || (log.FellThrough? && a.clockSteppedBack))
            && (log.Settled? ==> log.receipt.nonce == log.nonce && log.receipt.attempt == k && IsTxHash(log.receipt.txHash))
    ensures reserved.Some? ==> NonceAfter(a, reserved) == reserved
  {
    if GoodNonce(a, reserved) && a.confirmed && a.broadcast.Answered? {
      PollKeepsNonce(w, o, intent, ReceiptFor(a, k), a.polls, a.clockSteppedBack);
    }
  }

  /** All transactions of a run carry one nonce: the caller's, if it gave one. */
  lemma {:induction false} OneNoncePerPayment(w: Wallet, o: Options, intent: Intent, node: nat -> AttemptAnswers, k: nat, reserved: Option<int>)
    ensures exists nonce :: OneNonce(Payment(w, o, intent, node, k, reserved).1, nonce)
                            && (reserved.Some? ==> nonce == reserved.value)
    decreases o.attempts - k
  {
    var logs := Payment(w, o, intent, node, k, reserved).1;
    if k > o.attempts {
      assert OneNonce(logs, reserved.GetOr(0));
    } else {
      AttemptFacts(w, o, intent, node(k), k, reserved);
      var after := NonceAfter(node(k), reserved);
      OneNoncePerPayment(w, o, intent, node, k + 1, after);
      var nonce :| OneNonce(Payment(w, o, intent, node, k + 1, after).1, nonce) && (after.Some? ==> nonce == after.value);
      assert OneNonce(logs, nonce);
    }
  }

  lemma {:induction false} SigningBound(w: Wallet, o: Options, intent: Intent, node: nat -> AttemptAnswers, k: nat, reserved: Option<int>)
    requires 1 <= k
    ensures |Payment(w, o, intent, node, k, reserved).1| <= if k > o.attempts then 0 else o.attempts - k + 1
    decreases o.attempts - k
  {
    if k <= o.attempts {
      SigningBound(w, o, intent, node, k + 1, NonceAfter(node(k), reserved));
    }
  }

  predicate SteadyClock(node: nat -> AttemptAnswers, attempts: int) {
    forall k: nat :: 1 <= k <= attempts ==> !node(k).clockSteppedBack
  }

  /** Every attempt that was followed by another one was resolved, or fell through. */
  ghost predicate RetriesResolved(logs: seq<SendLog>) {
    forall i :: 0 <= i < |logs| - 1 ==> Resolved(logs[i]) || logs[i].FellThrough?
  }

  ghost predicate NoneFellThrough(logs: seq<SendLog>) {
    forall i :: 0 <= i < |logs| ==> !logs[i].FellThrough?
  }

  /**
   Another transaction is signed only once the previous one was never sent, was refused,
   or was dropped by the code's evidence. The one other way past an accepted transaction is a
   clock that steps back across the deadline between two readings.
   */
  lemma {:induction false} RetryOnlyWhenResolved(w: Wallet, o: Options, intent: Intent, node: nat -> AttemptAnswers, k: nat, reserved: Option<int>)
    requires 1 <= k
    ensures RetriesResolved(Payment(w, o, intent, node, k, reserved).1)
    ensures SteadyClock(node, o.attempts) ==> NoneFellThrough(Payment(w, o, intent, node, k, reserved).1)
    decreases o.attempts - k
  {
    if k <= o.attempts {
      AttemptFacts(w, o, intent, node(k), k, reserved);
      RetryOnlyWhenResolved(w, o, intent, node, k + 1, NonceAfter(node(k), reserved));
    }
  }

  /** What each outcome tells the caller, on a clock that does not step back. */
  lemma {:induction false} OutcomeMeaning(w: Wallet, o: Options, intent: Intent, node: nat -> AttemptAnswers, k: nat, reserved: Option<int>)
    requires 1 <= k && SteadyClock(node, o.attempts)
    ensures var (outcome, logs) := Payment(w, o, intent, node, k, reserved);
            match outcome
            case Unpaid => forall i :: 0 <= i < |logs| ==> Resolved(logs[i])
            case Paid(receipt) => logs != [] && logs[|logs| - 1] == Settled(receipt.nonce, receipt) && IsTxHash(receipt.txHash)
            case Indeterminate => logs != [] && (logs[|logs| - 1].Lost? || logs[|logs| - 1].Stopped?)
    decreases o.attempts - k
  {
    if k <= o.attempts {
      AttemptFacts(w, o, intent, node(k), k, reserved);
      OutcomeMeaning(w, o, intent, node, k + 1, NonceAfter(node(k), reserved));
    }
  }

  /** A chain takes at most one transaction per nonce, so it holds at most one of this run's. */
  lemma AtMostOnePayment(w: Wallet, o: Options, intent: Intent, node: nat -> AttemptAnswers, onChain: set<nat>)
    requires forall i :: i in onChain ==> i < |Run(w, o, intent, node).1| && !Run(w, o, intent, node).1[i].NotSent?
    requires forall i, j :: i in onChain && j in onChain ==>
                              (Run(w, o, intent, node).1[i].nonce == Run(w, o, intent, node).1[j].nonce ==> i == j)
    ensures |onChain| <= 1
    ensures |Run(w, o, intent, node).1| <= Max0(o.attempts)
  {
    SigningBound(w, o, intent, node, 1, o.nonce);
    OneNoncePerPayment(w, o, intent, node, 1, o.nonce);
    if i :| i in onChain {
      CardAddOne(onChain, {}, i);
    } else {
      assert onChain == {};
    }
  }

  function Max0(n: int): nat { if n < 0 then 0 else n }

  // ---------------------------------------------------------------------
  // Exactly which clocks are safe
  // ---------------------------------------------------------------------

  /** The node's clock steps back across the deadline in just the attempts `back` names. */
  ghost predicate Follows(node: nat -> AttemptAnswers, back: nat -> bool) {
    forall k: nat :: node(k).clockSteppedBack == back(k)
  }

  /** A call that reports nothing paid leaves nothing pending. */
  ghost predicate UnpaidIsResolved(run: (Outcome, seq<SendLog>)) {
    run.0.Unpaid? ==> forall i :: 0 <= i < |run.1| ==> Resolved(run.1[i])
  }

  /** The wallet is asked to sign again only once everything before is resolved. */
  ghost predicate SignsAfterResolved(logs: seq<SendLog>) {
    forall i :: 0 <= i < |logs| - 1 ==> Resolved(logs[i])
  }

  /** A transaction is sent only once everything before it is resolved. */
  ghost predicate SendsAfterResolved(logs: seq<SendLog>) {
    forall i, j :: 0 <= i < j < |logs| && !logs[j].NotSent? ==> Resolved(logs[i])
  }

  function Accepted(nonce: int, back: bool): AttemptAnswers {
    AttemptAnswers(Signed(Some(nonce), Some(seq(64, _ => '0'))), true, Answered(200, None, None), false, [], back)
  }

  function Thrown(back: bool): AttemptAnswers {
    AttemptAnswers(TransferThrew, true, BroadcastLost, false, [], back)
  }

  /** A node that accepts attempt `k`, and the next one if `twice`, and never says more. */
  function Silent(o: Options, back: nat -> bool, k: nat, twice: bool): nat -> AttemptAnswers {
    (j: nat) =>
      if j == k || (twice && j == k + 1) then Accepted(o.nonce.GetOr(0), back(j))
      else Thrown(back(j))
  }

  lemma AcceptedAttempt(w: Wallet, o: Options, intent: Intent, back: bool, k: nat, reserved: Option<int>)
    requires reserved == o.nonce || reserved == Some(o.nonce.GetOr(0))
    ensures var n := o.nonce.GetOr(0);
            && Attempt(w, o, intent, Accepted(n, back), k, reserved) == (if back then FellThrough(n) else Stopped(n))
            && NonceAfter(Accepted(n, back), reserved) == Some(n)
  {
    var zeros := seq(64, _ => '0');
    assert Lower(zeros) == zeros && IsTxHash(zeros);
  }

  lemma ThrownAttempt(w: Wallet, o: Options, intent: Intent, back: bool, k: nat, reserved: Option<int>)
    ensures Attempt(w, o, intent, Thrown(back), k, reserved) == NotSent && NonceAfter(Thrown(back), reserved) == reserved
  {
  }

  lemma {:induction false} SilentEnd(w: Wallet, o: Options, intent: Intent, back: nat -> bool, k: nat, j: nat, reserved: Option<int>)
    requires k < j
    ensures Payment(w, o, intent, Silent(o, back, k, false), j, reserved).0 == Unpaid
    decreases o.attempts - j
  {
    if j <= o.attempts {
      hide Attempt, NonceAfter, Accepted, Thrown;
      ThrownAttempt(w, o, intent, back(j), j, reserved);
      SilentEnd(w, o, intent, back, k, j + 1, reserved);
    }
  }

  /** From attempt `j` on, the run throws up to `k` and there falls through. */
  lemma {:induction false} SilentFrom(w: Wallet, o: Options, intent: Intent, back: nat -> bool, k: nat, twice: bool, j: nat)
    requires j <= k <= o.attempts && back(k)
    ensures var run := Payment(w, o, intent, Silent(o, back, k, twice), j, o.nonce);
            && |run.1| > k - j && run.1[k - j] == FellThrough(o.nonce.GetOr(0))
            && (!twice ==> run.0 == Unpaid)
            && (twice && k < o.attempts ==> |run.1| > k - j + 1 && !run.1[k - j + 1].NotSent?)
    decreases k - j
  {
    hide Attempt, NonceAfter, Accepted, Thrown;
    var node, n := Silent(o, back, k, twice), o.nonce.GetOr(0);
    AttemptFirst(w, o, intent, node, j, o.nonce, []);
    if j < k {
      ThrownAttempt(w, o, intent, back(j), j, o.nonce);
      SilentFrom(w, o, intent, back, k, twice, j + 1);
      assert Payment(w, o, intent, node, j, o.nonce).1 == [NotSent] + Payment(w, o, intent, node, j + 1, o.nonce).1;
    } else {
      AcceptedAttempt(w, o, intent, back(k), k, o.nonce);
      if twice && k < o.attempts {
        AttemptFirst(w, o, intent, node, k + 1, Some(n), []);
        AcceptedAttempt(w, o, intent, back(k + 1), k + 1, Some(n));
      } else if !twice {
        SilentEnd(w, o, intent, back, k, k + 1, Some(n));
      }
    }
  }

  /**
   Wherever the clock steps back, one accepted and still pending transaction is lost: the
   call can report that nothing was paid, and with an attempt left it can send again.
   */
  lemma SteppedClockLosesAPendingPayment(w: Wallet, o: Options, intent: Intent, back: nat -> bool, k: nat)
    requires 1 <= k <= o.attempts && back(k)
    ensures var run := Run(w, o, intent, Silent(o, back, k, false));
            |run.1| >= k && run.0 == Unpaid && run.1[k - 1] == FellThrough(o.nonce.GetOr(0))
    ensures k < o.attempts ==>
              var logs := Run(w, o, intent, Silent(o, back, k, true)).1;
              |logs| > k && logs[k - 1] == FellThrough(o.nonce.GetOr(0)) && !logs[k].NotSent?
    ensures Follows(Silent(o, back, k, false), back) && Follows(Silent(o, back, k, true), back)
  {
    SilentFrom(w, o, intent, back, k, false, 1);
    SilentFrom(w, o, intent, back, k, true, 1);
  }

  lemma SteadyRun(w: Wallet, o: Options, intent: Intent, node: nat -> AttemptAnswers)
    requires SteadyClock(node, o.attempts)
    ensures NoneFellThrough(Run(w, o, intent, node).1) && UnpaidIsResolved(Run(w, o, intent, node))
  {
    RetryOnlyWhenResolved(w, o, intent, node, 1, o.nonce);
    OutcomeMeaning(w, o, intent, node, 1, o.nonce);
  }

  /** A report of nothing paid can be trusted, whatever the node answers, on exactly the clocks that never step back. */
  lemma UnpaidIsTrueExactly(w: Wallet, o: Options, intent: Intent, back: nat -> bool)
    ensures (forall node :: Follows(node, back) ==> UnpaidIsResolved(Run(w, o, intent, node))) <==>
            forall k: nat :: 1 <= k <= o.attempts ==> !back(k)
    ensures (forall node :: Follows(node, back) ==> NoneFellThrough(Run(w, o, intent, node).1)) <==>
            forall k: nat :: 1 <= k <= o.attempts ==> !back(k)
  {
    hide Run, Silent;
    if k: nat :| 1 <= k <= o.attempts && back(k) {
      SteppedClockLosesAPendingPayment(w, o, intent, back, k);
      assert !UnpaidIsResolved(Run(w, o, intent, Silent(o, back, k, false)));
    } else {
      forall node | Follows(node, back)
        ensures UnpaidIsResolved(Run(w, o, intent, node)) && NoneFellThrough(Run(w, o, intent, node).1)
      {
        SteadyRun(w, o, intent, node);
      }
    }
  }

  /** The clock only matters before the last attempt for what is signed. */
  lemma {:induction false} ResolvedBefore(w: Wallet, o: Options, intent: Intent, node: nat -> AttemptAnswers, k: nat, reserved: Option<int>)
    requires 1 <= k && SteadyClock(node, o.attempts - 1)
    ensures SignsAfterResolved(Payment(w, o, intent, node, k, reserved).1)
    decreases o.attempts - k
  {
    if k <= o.attempts {
      hide Attempt, Resolved;
      AttemptFacts(w, o, intent, node(k), k, reserved);
      AttemptFirst(w, o, intent, node, k, reserved, []);
      ResolvedBefore(w, o, intent, node, k + 1, NonceAfter(node(k), reserved));
      if k == o.attempts {
        AttemptsOver(w, o, intent, node, k + 1, NonceAfter(node(k), reserved));
      }
    }
  }

  /**
   No further transaction is sent, or even asked of the wallet, while an earlier one is
   unresolved, whatever the node answers, on exactly the clocks that do not step back
   before the last attempt.
   */
  lemma RetriesAreSafeExactly(w: Wallet, o: Options, intent: Intent, back: nat -> bool)
    ensures (forall node :: Follows(node, back) ==> SignsAfterResolved(Run(w, o, intent, node).1)) <==>
            forall k: nat :: 1 <= k < o.attempts ==> !back(k)
    ensures (forall node :: Follows(node, back) ==> SendsAfterResolved(Run(w, o, intent, node).1)) <==>
            forall k: nat :: 1 <= k < o.attempts ==> !back(k)
  {
    hide Silent, Payment;
    if k: nat :| 1 <= k < o.attempts && back(k) {
      SteppedClockLosesAPendingPayment(w, o, intent, back, k);
      var logs := Run(w, o, intent, Silent(o, back, k, true)).1;
      assert !Resolved(logs[k - 1]);
      assert !SendsAfterResolved(logs) && !SignsAfterResolved(logs);
    } else {
      forall node | Follows(node, back)
        ensures SignsAfterResolved(Run(w, o, intent, node).1) && SendsAfterResolved(Run(w, o, intent, node).1)
      {
        ResolvedBefore(w, o, intent, node, 1, o.nonce);
      }
    }
  }
}
