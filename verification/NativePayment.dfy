/**
 Broadcasting one native payment against a node that may answer anything.

 `Payment` says, for any node answers, what the wallet is asked to sign and what became of
 each transaction; `BroadcastNativePayment` is the retry loop, proved to do exactly that.
 The safety results of `PaymentSafety` are about `Payment`, so they hold for every node.
 */
module NativePayment {
  import opened Collections
  import opened Text

  // ---------------------------------------------------------------------
  // What the node can say
  // ---------------------------------------------------------------------

  datatype TxState = Included | Confirmed | Failed | Unknown | OtherState

  /** `content.data[1].args[1]`: missing, not an integer, or an amount. */
  datatype DataAmount = NoAmount | BadAmount | DataAmount(value: int)

  datatype NativeData = NoData | NativeData(tag: string, operation: string, payee: string, amount: DataAmount)

  datatype TxContent = TxContent(
    kind: string, sender: string, payee: string, amount: Option<int>, nonce: Option<int>, data: NativeData)

  /** A lookup by hash. `NoTx` is every answer that is not a transaction object. */
  datatype TxLookup = NoTx | Tx(state: TxState, block: Option<int>, hash: string, content: Option<TxContent>)

  /** One round of lookups; each may have failed. `late`: by the check after a drop the deadline had passed. */
  datatype PollAnswer = PollAnswer(
    accountNonce: Option<int>, state: TxState, statusBlock: Option<int>, head: Option<int>, direct: TxLookup, late: bool)

  datatype TransferAnswer = TransferThrew | Signed(nonce: Option<int>, hash: Option<string>)

  datatype BroadcastAnswer = BroadcastLost | Answered(result: int, hash: Option<string>, confirmationBlock: Option<int>)

  /**
   Everything the node says during one attempt. `polls` are the rounds made before the
   loop guard saw the deadline; `clockSteppedBack` says that the second clock reading,
   right after the loop, was before the deadline again.
   */
  datatype AttemptAnswers = AttemptAnswers(
    transfer: TransferAnswer, confirmed: bool, broadcast: BroadcastAnswer, hookThrows: bool,
    polls: seq<PollAnswer>, clockSteppedBack: bool)

  /** Which optional calls the wallet has. */
  datatype Wallet = Wallet(hasCall: bool, hasHead: bool, hasLookup: bool)

  datatype Options = Options(nonce: Option<int>, attempts: int, directConfirmation: bool)

  datatype Intent = Intent(sender: string, payee: string, amount: int)

  datatype Receipt = Receipt(txHash: string, nonce: int, expectedBlock: Option<int>, attempt: nat, block: Option<int>)

  // ---------------------------------------------------------------------
  // Direct evidence
  // ---------------------------------------------------------------------

  function NormalAddress(s: string): string {
    Lower(if |s| >= 2 && s[..2] == "0x" then s[2..] else s)
  }

  predicate IsTxHash(s: string) {
    |s| == 64 && AllHex(s)
  }

  /** The transaction is the native send that was meant, down to its nonce. */
  predicate IsIntended(c: TxContent, intent: Intent, nonce: int) {
    && c.kind == "native"
    && NormalAddress(c.sender) == NormalAddress(intent.sender)
    && NormalAddress(c.payee) == NormalAddress(intent.payee)
    && c.amount == Some(intent.amount)
    && c.nonce == Some(nonce)
    && (c.data.NativeData? ==>
          && c.data.tag == "native" && c.data.operation == "send"
          && NormalAddress(c.data.payee) == NormalAddress(intent.payee)
          && c.data.amount == DataAmount(intent.amount))
  }

  datatype Direct = Absent | At(block: int) | Contradiction

  function DirectInclusion(tx: TxLookup, receipt: Receipt, intent: Intent): (r: Direct)
    ensures r.Absent? <==> tx.Tx? ==> tx.state != Confirmed && tx.state != Included
    ensures r.At? <==> !r.Absent? && tx.block.Some? && tx.block.value >= 0
                       && IsTxHash(receipt.txHash) && NormalAddress(tx.hash) == receipt.txHash
                       && tx.content.Some? && IsIntended(tx.content.value, intent, receipt.nonce)
    ensures r.At? ==> r.block == tx.block.value
  {
    if tx.NoTx? || (tx.state != Confirmed && tx.state != Included) then Absent
    else if tx.block.None? || tx.block.value < 0 then Contradiction
    else if !IsTxHash(NormalAddress(tx.hash)) || NormalAddress(tx.hash) != receipt.txHash then Contradiction
    else if tx.content.None? || !IsIntended(tx.content.value, intent, receipt.nonce) then Contradiction
    else At(tx.block.value)
  }

  // ---------------------------------------------------------------------
  // The protocol
  // ---------------------------------------------------------------------

  /** Why a transaction counted as dropped. */
  datatype Drop = Drop(state: TxState, head: int, expectedBlock: int, accountNonce: Option<int>)

  /** What became of one request to the wallet for a signed transaction. */
  datatype SendLog =
    | NotSent
    | Refused(nonce: int)
    | Lost(nonce: int)                      // broadcast timed out: it may have been accepted
    | Dropped(nonce: int, why: Drop)
    | Settled(nonce: int, receipt: Receipt)
    | Stopped(nonce: int)                   // accepted, and no answer allowed a retry
    | FellThrough(nonce: int)               // accepted and pending, but the clock stepped back

  datatype Outcome = Paid(receipt: Receipt) | Indeterminate | Unpaid

  predicate NonceAdvanced(accountNonce: Option<int>, nonce: int) {
    accountNonce.Some? && accountNonce.value > nonce
  }

  function Poll(w: Wallet, o: Options, intent: Intent, receipt: Receipt, polls: seq<PollAnswer>, back: bool): SendLog {
    if polls == [] then (if back then FellThrough(receipt.nonce) else Stopped(receipt.nonce))
    else
      var p := polls[0];
      var direct := if o.directConfirmation && w.hasLookup then DirectInclusion(p.direct, receipt, intent) else Absent;
      var state := if w.hasCall then p.state else OtherState;
      if direct.At? then Settled(receipt.nonce, receipt.(block := Some(direct.block)))
      else if direct.Contradiction? then Stopped(receipt.nonce)
      else if (state == Included || state == Confirmed) && p.statusBlock.Some? then
        Settled(receipt.nonce, receipt.(block := p.statusBlock))
      else if !w.hasCall && NonceAdvanced(p.accountNonce, receipt.nonce) then Settled(receipt.nonce, receipt)
      else if (state == Failed || state == Unknown)
              && receipt.expectedBlock.Some? && w.hasHead && p.head.Some?
              && p.head.value > receipt.expectedBlock.value + 2 then
        if NonceAdvanced(p.accountNonce, receipt.nonce) || p.late then Stopped(receipt.nonce)
        else Dropped(receipt.nonce, Drop(state, p.head.value, receipt.expectedBlock.value, p.accountNonce))
      else Poll(w, o, intent, receipt, polls[1..], back)
  }

  function ReceiptFor(a: AttemptAnswers, k: nat): Receipt
    requires a.transfer.Signed? && a.transfer.nonce.Some? && a.broadcast.Answered?
  {
    var hash := if a.broadcast.hash.Some? then a.broadcast.hash.value
                else if a.transfer.hash.Some? then a.transfer.hash.value else "";
    Receipt(Lower(hash), a.transfer.nonce.value, a.broadcast.confirmationBlock, k, None)
  }

  predicate GoodNonce(a: AttemptAnswers, reserved: Option<int>) {
    a.transfer.Signed? && a.transfer.nonce.Some? && (reserved.Some? ==> reserved == a.transfer.nonce)
  }

  function Attempt(w: Wallet, o: Options, intent: Intent, a: AttemptAnswers, k: nat, reserved: Option<int>): SendLog {
    if !GoodNonce(a, reserved) || !a.confirmed then NotSent
    else
      var n := a.transfer.nonce.value;
      if a.broadcast.BroadcastLost? then Lost(n)
      else if a.broadcast.result != 200 then Refused(n)
      else if !IsTxHash(ReceiptFor(a, k).txHash) || a.hookThrows then Stopped(n)
      else Poll(w, o, intent, ReceiptFor(a, k), a.polls, a.clockSteppedBack)
  }

  function NonceAfter(a: AttemptAnswers, reserved: Option<int>): Option<int> {
    if GoodNonce(a, reserved) then a.transfer.nonce else reserved
  }

  /** The run from attempt `k` on: its outcome and one log entry per signing request. */
  function Payment(w: Wallet, o: Options, intent: Intent, node: nat -> AttemptAnswers, k: nat, reserved: Option<int>): (Outcome, seq<SendLog>)
    decreases o.attempts - k
  {
    if k > o.attempts then (Unpaid, [])
    else
      var log := Attempt(w, o, intent, node(k), k, reserved);
      match log
      case Settled(_, receipt) => (Paid(receipt), [log])
      case Lost(_) => (Indeterminate, [log])
      case Stopped(_) => (Indeterminate, [log])
      case _ =>
        var rest := Payment(w, o, intent, node, k + 1, NonceAfter(node(k), reserved));
        (rest.0, [log] + rest.1)
  }

  function Run(w: Wallet, o: Options, intent: Intent, node: nat -> AttemptAnswers): (Outcome, seq<SendLog>) {
    Payment(w, o, intent, node, 1, o.nonce)
  }

  /** The evidence that makes a rebuilt transaction safe: reported gone, long overdue, nonce unused. */
  predicate ProvesDrop(why: Drop, nonce: int) {
    && (why.state == Failed || why.state == Unknown)
    && why.head > why.expectedBlock + 2
    && !NonceAdvanced(why.accountNonce, nonce)
  }

  lemma {:induction false} PollKeepsNonce(w: Wallet, o: Options, intent: Intent, receipt: Receipt, polls: seq<PollAnswer>, back: bool)
    ensures var log := Poll(w, o, intent, receipt, polls, back);
            && !log.NotSent? && !log.Refused? && !log.Lost? && log.nonce == receipt.nonce
            && (log.Dropped? ==> ProvesDrop(log.why, log.nonce))
            && (log.Settled? ==> log.receipt == receipt.(block := log.receipt.block))
            && (log.FellThrough? ==> back)
  {
    if polls != [] {
      PollKeepsNonce(w, o, intent, receipt, polls[1..], back);
    }
  }

  // ---------------------------------------------------------------------
  // The retry loop
  // ---------------------------------------------------------------------

  method BroadcastNativePayment(w: Wallet, o: Options, intent: Intent, node: nat -> AttemptAnswers) returns (outcome: Outcome, logs: seq<SendLog>)
    ensures outcome == Run(w, o, intent, node).0 && logs == Run(w, o, intent, node).1
  {
    hide Poll, IsTxHash, Payment;
    var reservedNonce := o.nonce;
    logs := [];
    var attempt: nat := 1;
    while attempt <= o.attempts
      invariant Run(w, o, intent, node).0 == Payment(w, o, intent, node, attempt, reservedNonce).0
      invariant Run(w, o, intent, node).1 == logs + Payment(w, o, intent, node, attempt, reservedNonce).1
      decreases o.attempts - attempt
    {
      var a := node(attempt);
      ghost var log := Attempt(w, o, intent, a, attempt, reservedNonce);
      AttemptFirst(w, o, intent, node, attempt, reservedNonce, logs);
      if a.transfer.TransferThrew? || a.transfer.nonce.None? {
        logs := logs + [NotSent];
        attempt := attempt + 1;
        continue;
      }
      var candidate := a.transfer.nonce.value;
      if reservedNonce.Some? && candidate != reservedNonce.value {
        logs := logs + [NotSent];
        attempt := attempt + 1;
        continue;
      }
      reservedNonce := Some(candidate);
      if !a.confirmed {
        logs := logs + [NotSent];
        attempt := attempt + 1;
        continue;
      }
      if a.broadcast.BroadcastLost? {
        return Indeterminate, logs + [Lost(candidate)];
      }
      if a.broadcast.result != 200 {
        logs := logs + [Refused(candidate)];
        attempt := attempt + 1;
        continue;
      }
      var receipt := ReceiptFor(a, attempt);
      if !IsTxHash(receipt.txHash) || a.hookThrows {
        return Indeterminate, logs + [Stopped(candidate)];
      }
      var fate := WaitForInclusion(w, o, intent, receipt, a.polls, a.clockSteppedBack);
      assert fate == log;
      PollKeepsNonce(w, o, intent, receipt, a.polls, a.clockSteppedBack);
      logs := logs + [fate];
      if fate.Settled? {
        return Paid(fate.receipt), logs;
      }
      if fate.Stopped? {
        return Indeterminate, logs;
      }
      attempt := attempt + 1;
    }
    AttemptsOver(w, o, intent, node, attempt, reservedNonce);
    outcome := Unpaid;
  }

  /** A run is its first attempt and, unless that ended it, the run from the next one. */
  lemma AttemptFirst(w: Wallet, o: Options, intent: Intent, node: nat -> AttemptAnswers, k: nat, reserved: Option<int>, logs: seq<SendLog>)
    requires k <= o.attempts
    ensures var log := Attempt(w, o, intent, node(k), k, reserved);
            var rest := Payment(w, o, intent, node, k + 1, NonceAfter(node(k), reserved));
            var all := Payment(w, o, intent, node, k, reserved);
            if log.Settled? then all == (Paid(log.receipt), [log])
            else if log.Lost? || log.Stopped? then all == (Indeterminate, [log])
            else all.0 == rest.0 && logs + all.1 == (logs + [log]) + rest.1
  {
    hide Attempt;
  }

  lemma AttemptsOver(w: Wallet, o: Options, intent: Intent, node: nat -> AttemptAnswers, k: nat, reserved: Option<int>)
    requires k > o.attempts
    ensures Payment(w, o, intent, node, k, reserved) == (Unpaid, [])
  {
  }

  /** The polling loop of one accepted transaction. */
  method WaitForInclusion(w: Wallet, o: Options, intent: Intent, receipt: Receipt, polls: seq<PollAnswer>, clockSteppedBack: bool) returns (fate: SendLog)
    ensures fate == Poll(w, o, intent, receipt, polls, clockSteppedBack)
  {
    hide DirectInclusion;
    var i := 0;
    while i < |polls|
      invariant 0 <= i <= |polls|
      invariant Poll(w, o, intent, receipt, polls, clockSteppedBack) == Poll(w, o, intent, receipt, polls[i..], clockSteppedBack)
    {
      var p := polls[i];
      if o.directConfirmation && w.hasLookup {
        var direct := DirectInclusion(p.direct, receipt, intent);
        if direct.At? {
          return Settled(receipt.nonce, receipt.(block := Some(direct.block)));
        }
        if direct.Contradiction? {
          return Stopped(receipt.nonce);
        }
      }
      var state := if w.hasCall then p.state else OtherState;
      if (state == Included || state == Confirmed) && p.statusBlock.Some? {
        return Settled(receipt.nonce, receipt.(block := p.statusBlock));
      }
      if !w.hasCall && NonceAdvanced(p.accountNonce, receipt.nonce) {
        return Settled(receipt.nonce, receipt);
      }
      var pastExpectedWindow := receipt.expectedBlock.Some? && w.hasHead && p.head.Some?
                                && p.head.value > receipt.expectedBlock.value + 2;
      if (state == Failed || state == Unknown) && pastExpectedWindow {
        if NonceAdvanced(p.accountNonce, receipt.nonce) || p.late {
          return Stopped(receipt.nonce);
        }
        return Dropped(receipt.nonce, Drop(state, p.head.value, receipt.expectedBlock.value, p.accountNonce));
      }
      assert polls[i..][1..] == polls[i + 1..];
      i := i + 1;
    }
    fate := if clockSteppedBack then FellThrough(receipt.nonce) else Stopped(receipt.nonce);
  }
}
