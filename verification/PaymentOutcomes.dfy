/** When a payment run is paid, open or unpaid, read off the node's answers alone. */
module PaymentOutcomes {
  import opened Collections
  import opened Text
  import opened NativePayment

  // ---------------------------------------------------------------------
  // One round of answers
  // ---------------------------------------------------------------------

  /** The wallet looks the transaction up, and the answer claims that it is on the chain. */
  predicate ClaimedDirectly(w: Wallet, o: Options, p: PollAnswer) {
    o.directConfirmation && w.hasLookup && p.direct.Tx? && (p.direct.state == Included || p.direct.state == Confirmed)
  }

  /** Two addresses are one, up to a leading 0x and the case of letters. */
  predicate SameAddress(a: string, b: string) {
    Lower(Bare(a)) == Lower(Bare(b))
  }

  function Bare(address: string): string {
    if |address| >= 2 && address[0] == '0' && address[1] == 'x' then address[2..] else address
  }

  /** A native transfer from the buyer to the payee, of the amount, under the nonce; its data, if any, says the same. */
  predicate ShowsTransfer(c: TxContent, intent: Intent, nonce: int) {
    && c.kind == "native" && SameAddress(c.sender, intent.sender) && SameAddress(c.payee, intent.payee)
    && c.amount == Some(intent.amount) && c.nonce == Some(nonce)
    && (c.data.NativeData? ==>
          && c.data.tag == "native" && c.data.operation == "send"
          && SameAddress(c.data.payee, intent.payee) && c.data.amount == DataAmount(intent.amount))
  }

  lemma ShowsExactly(c: TxContent, intent: Intent, nonce: int)
    ensures ShowsTransfer(c, intent, nonce) <==> IsIntended(c, intent, nonce)
  {
    forall a: string ensures NormalAddress(a) == Lower(Bare(a)) {
      assert |a| >= 2 ==> (a[..2] == "0x" <==> a[0] == '0' && a[1] == 'x') by {
        if |a| >= 2 { assert a[..2] == [a[0], a[1]]; }
      }
    }
    hide NormalAddress, Lower;
  }

  /** The answer claims it and shows the intended transfer, under the receipt's hash and in a block. */
  predicate ProvenDirectly(w: Wallet, o: Options, intent: Intent, receipt: Receipt, p: PollAnswer) {
    && ClaimedDirectly(w, o, p)
    && p.direct.block.Some? && p.direct.block.value >= 0
    && IsTxHash(receipt.txHash) && NormalAddress(p.direct.hash) == receipt.txHash
    && p.direct.content.Some? && ShowsTransfer(p.direct.content.value, intent, receipt.nonce)
  }

  predicate Contradicted(w: Wallet, o: Options, intent: Intent, receipt: Receipt, p: PollAnswer) {
    ClaimedDirectly(w, o, p) && !ProvenDirectly(w, o, intent, receipt, p)
  }

  /** The status call reports inclusion and names the block. */
  predicate PaidByStatus(w: Wallet, p: PollAnswer) {
    w.hasCall && p.statusBlock.Some? && (p.state == Included || p.state == Confirmed)
  }

  predicate NoncePassed(receipt: Receipt, p: PollAnswer) {
    p.accountNonce.Some? && p.accountNonce.value > receipt.nonce
  }

  /** Reported failed or unknown, with the head more than two blocks past the expected one. */
  predicate Gone(w: Wallet, receipt: Receipt, p: PollAnswer) {
    && w.hasCall && (p.state == Failed || p.state == Unknown)
    && w.hasHead && p.head.Some? && receipt.expectedBlock.Some? && p.head.value - receipt.expectedBlock.value > 2
  }

  /** The round shows that the payment was made, in `block`. */
  predicate Pays(w: Wallet, o: Options, intent: Intent, receipt: Receipt, p: PollAnswer, block: Option<int>) {
    if ClaimedDirectly(w, o, p) then ProvenDirectly(w, o, intent, receipt, p) && block == p.direct.block
    else if w.hasCall then PaidByStatus(w, p) && block == p.statusBlock
    else NoncePassed(receipt, p) && block == None
  }

  /** The round shows that the transaction was dropped and its nonce is free. */
  predicate Drops(w: Wallet, o: Options, receipt: Receipt, p: PollAnswer) {
    !ClaimedDirectly(w, o, p) && Gone(w, receipt, p) && !NoncePassed(receipt, p) && !p.late
  }

  /** The round forbids both: a contradiction, or a drop that came too late or with the nonce used. */
  predicate Halts(w: Wallet, o: Options, intent: Intent, receipt: Receipt, p: PollAnswer) {
    || Contradicted(w, o, intent, receipt, p)
    || (!ClaimedDirectly(w, o, p) && Gone(w, receipt, p) && (NoncePassed(receipt, p) || p.late))
  }

  predicate Undecided(w: Wallet, o: Options, receipt: Receipt, p: PollAnswer) {
    && !ClaimedDirectly(w, o, p) && !PaidByStatus(w, p) && !Gone(w, receipt, p)
    && (w.hasCall || !NoncePassed(receipt, p))
  }

  /** What a round can decide. */
  datatype Decision = Pay(block: Option<int>) | DropOut(why: Drop) | Halt

  predicate Decides(w: Wallet, o: Options, intent: Intent, receipt: Receipt, p: PollAnswer, d: Decision) {
    match d
    case Pay(block) => Pays(w, o, intent, receipt, p, block)
    case DropOut(why) => Drops(w, o, receipt, p) && why == Drop(p.state, p.head.value, receipt.expectedBlock.value, p.accountNonce)
    case Halt => Halts(w, o, intent, receipt, p)
  }

  // ---------------------------------------------------------------------
  // The rounds of one accepted transaction
  // ---------------------------------------------------------------------

  /** The first `i` rounds decide nothing. */
  ghost predicate OpenUpTo(w: Wallet, o: Options, receipt: Receipt, polls: seq<PollAnswer>, i: nat)
    requires i <= |polls|
  {
    forall j :: 0 <= j < i ==> Undecided(w, o, receipt, polls[j])
  }

  /** Some round decides `d`, and none before it decides anything. */
  ghost predicate RoundsDecide(w: Wallet, o: Options, intent: Intent, receipt: Receipt, polls: seq<PollAnswer>, d: Decision) {
    exists i :: 0 <= i < |polls| && OpenUpTo(w, o, receipt, polls, i) && Decides(w, o, intent, receipt, polls[i], d)
  }

  ghost predicate RoundsStayOpen(w: Wallet, o: Options, receipt: Receipt, polls: seq<PollAnswer>) {
    OpenUpTo(w, o, receipt, polls, |polls|)
  }

  lemma OpenShifts(w: Wallet, o: Options, receipt: Receipt, polls: seq<PollAnswer>, i: nat)
    requires polls != [] && Undecided(w, o, receipt, polls[0]) && i < |polls|
    ensures OpenUpTo(w, o, receipt, polls, i + 1) <==> OpenUpTo(w, o, receipt, polls[1..], i)
  {
    hide Undecided;
    if OpenUpTo(w, o, receipt, polls[1..], i) {
      forall j | 0 <= j < i + 1 ensures Undecided(w, o, receipt, polls[j]) {
        assert j > 0 ==> polls[j] == polls[1..][j - 1];
      }
    }
    if OpenUpTo(w, o, receipt, polls, i + 1) {
      forall j | 0 <= j < i ensures Undecided(w, o, receipt, polls[1..][j]) {
        assert polls[1..][j] == polls[j + 1];
      }
    }
  }

  lemma UndecidedDecidesNothing(w: Wallet, o: Options, intent: Intent, receipt: Receipt, p: PollAnswer, d: Decision)
    requires Undecided(w, o, receipt, p)
    ensures !Decides(w, o, intent, receipt, p, d)
  {
  }

  /** Where the first round decides nothing, the rest does. */
  lemma LaterRounds(w: Wallet, o: Options, intent: Intent, receipt: Receipt, polls: seq<PollAnswer>, d: Decision)
    requires polls != [] && Undecided(w, o, receipt, polls[0])
    ensures RoundsDecide(w, o, intent, receipt, polls, d) <==> RoundsDecide(w, o, intent, receipt, polls[1..], d)
    ensures RoundsStayOpen(w, o, receipt, polls) <==> RoundsStayOpen(w, o, receipt, polls[1..])
  {
    hide Undecided, Decides, OpenUpTo;
    forall i: nat | i < |polls| ensures OpenUpTo(w, o, receipt, polls, i + 1) <==> OpenUpTo(w, o, receipt, polls[1..], i) {
      OpenShifts(w, o, receipt, polls, i);
    }
    UndecidedDecidesNothing(w, o, intent, receipt, polls[0], d);
    if i :| 0 <= i < |polls| && OpenUpTo(w, o, receipt, polls, i) && Decides(w, o, intent, receipt, polls[i], d) {
      assert OpenUpTo(w, o, receipt, polls[1..], i - 1) && polls[1..][i - 1] == polls[i];
    }
    if i :| 0 <= i < |polls[1..]| && OpenUpTo(w, o, receipt, polls[1..], i) && Decides(w, o, intent, receipt, polls[1..][i], d) {
      assert OpenUpTo(w, o, receipt, polls, i + 1) && polls[1..][i] == polls[i + 1];
    }
  }

  /** A first round that decides fixes the decision. */
  lemma FirstRound(w: Wallet, o: Options, intent: Intent, receipt: Receipt, polls: seq<PollAnswer>, d: Decision)
    requires polls != [] && !Undecided(w, o, receipt, polls[0])
    ensures RoundsDecide(w, o, intent, receipt, polls, d) <==> Decides(w, o, intent, receipt, polls[0], d)
    ensures !RoundsStayOpen(w, o, receipt, polls)
  {
    hide Undecided, Decides;
    assert OpenUpTo(w, o, receipt, polls, 0);
  }

  /** What `Poll` reports, for any decision. */
  predicate Reports(log: SendLog, receipt: Receipt, d: Decision) {
    match d
    case Pay(block) => log == Settled(receipt.nonce, receipt.(block := block))
    case DropOut(why) => log == Dropped(receipt.nonce, why)
    case Halt => log == Stopped(receipt.nonce)
  }

  /** One round, as the polling loop takes it. */
  lemma RoundIs(w: Wallet, o: Options, intent: Intent, receipt: Receipt, polls: seq<PollAnswer>, back: bool, d: Decision)
    requires polls != [] && receipt.block == None
    ensures Undecided(w, o, receipt, polls[0]) ==>
              Poll(w, o, intent, receipt, polls, back) == Poll(w, o, intent, receipt, polls[1..], back)
    ensures !Undecided(w, o, receipt, polls[0]) ==>
              (Reports(Poll(w, o, intent, receipt, polls, back), receipt, d) <==> Decides(w, o, intent, receipt, polls[0], d))
    ensures !Undecided(w, o, receipt, polls[0]) ==> !Poll(w, o, intent, receipt, polls, back).FellThrough?
  {
    if polls[0].direct.Tx? && polls[0].direct.content.Some? {
      ShowsExactly(polls[0].direct.content.value, intent, receipt.nonce);
    }
    hide IsIntended, ShowsTransfer, IsTxHash, NormalAddress;
  }

  /** The rounds of an accepted transaction settle, drop or stop it exactly when a first deciding round says so; else the clock decides. */
  lemma {:induction false} PollExactly(w: Wallet, o: Options, intent: Intent, receipt: Receipt, polls: seq<PollAnswer>, back: bool, d: Decision)
    requires receipt.block == None
    ensures var log := Poll(w, o, intent, receipt, polls, back);
            && (Reports(log, receipt, d) <==>
                RoundsDecide(w, o, intent, receipt, polls, d) || (d.Halt? && !back && RoundsStayOpen(w, o, receipt, polls)))
            && (log.FellThrough? <==> back && RoundsStayOpen(w, o, receipt, polls))
  {
    if polls == [] {
    } else {
      hide Poll, Undecided, Decides, RoundsDecide, RoundsStayOpen;
      RoundIs(w, o, intent, receipt, polls, back, d);
      if Undecided(w, o, receipt, polls[0]) {
        LaterRounds(w, o, intent, receipt, polls, d);
        PollExactly(w, o, intent, receipt, polls[1..], back, d);
      } else {
        FirstRound(w, o, intent, receipt, polls, d);
      }
    }
  }

  // ---------------------------------------------------------------------
  // One attempt
  // ---------------------------------------------------------------------

  /** The wallet signed with nonce `n`, as reserved if one was, and confirmed. */
  predicate Signs(a: AttemptAnswers, reserved: Option<int>, n: int) {
    a.transfer.Signed? && a.transfer.nonce == Some(n) && (reserved.None? || reserved == Some(n)) && a.confirmed
  }

  ghost predicate NeverSent(a: AttemptAnswers, reserved: Option<int>) {
    forall n :: !Signs(a, reserved, n)
  }

  /** The hash the broadcast names, or else the signed transaction. */
  predicate NamesHash(a: AttemptAnswers, hash: string) {
    a.broadcast.Answered? && a.transfer.Signed?
    && (a.broadcast.hash == Some(hash) || (a.broadcast.hash == None && a.transfer.hash == Some(hash)))
  }

  /** The node accepted the transaction under a good hash, and the caller took the receipt. */
  ghost predicate AcceptedAs(a: AttemptAnswers, reserved: Option<int>, k: nat, receipt: Receipt) {
    && Signs(a, reserved, receipt.nonce) && a.broadcast.Answered? && a.broadcast.result == 200 && !a.hookThrows
    && IsTxHash(receipt.txHash) && (exists hash :: NamesHash(a, hash) && receipt.txHash == Lower(hash))
    && receipt.expectedBlock == a.broadcast.confirmationBlock && receipt.attempt == k && receipt.block == None
  }

  /** The attempt pays, with receipt `r`. */
  ghost predicate PaidIn(w: Wallet, o: Options, intent: Intent, a: AttemptAnswers, reserved: Option<int>, k: nat, r: Receipt) {
    AcceptedAs(a, reserved, k, r.(block := None)) && RoundsDecide(w, o, intent, r.(block := None), a.polls, Pay(r.block))
  }

  /** The attempt leaves nothing to wait for: never sent, refused, dropped; or the clock stepped back over it. */
  ghost predicate PassesOn(w: Wallet, o: Options, intent: Intent, a: AttemptAnswers, reserved: Option<int>, k: nat) {
    || NeverSent(a, reserved)
    || (a.broadcast.Answered? && a.broadcast.result != 200)
    || (exists receipt, why :: AcceptedAs(a, reserved, k, receipt) && RoundsDecide(w, o, intent, receipt, a.polls, DropOut(why)))
    || (a.clockSteppedBack && exists receipt :: AcceptedAs(a, reserved, k, receipt) && RoundsStayOpen(w, o, receipt, a.polls))
  }

  /** The attempt may have paid: no answer, no good hash, a throwing hook, a halt, or time ran out. */
  ghost predicate EndsOpen(w: Wallet, o: Options, intent: Intent, a: AttemptAnswers, reserved: Option<int>, k: nat) {
    && !NeverSent(a, reserved)
    && (|| a.broadcast.BroadcastLost?
        || (a.broadcast.result == 200 && forall receipt :: !AcceptedAs(a, reserved, k, receipt))
        || (exists receipt :: AcceptedAs(a, reserved, k, receipt)
                              && (RoundsDecide(w, o, intent, receipt, a.polls, Halt)
                                  || (!a.clockSteppedBack && RoundsStayOpen(w, o, receipt, a.polls)))))
  }

  lemma SignedBy(a: AttemptAnswers, reserved: Option<int>)
    ensures NeverSent(a, reserved) <==> !GoodNonce(a, reserved) || !a.confirmed
  {
    if GoodNonce(a, reserved) && a.confirmed {
      assert Signs(a, reserved, a.transfer.nonce.value);
    }
  }

  /** An accepted transaction has one receipt. */
  lemma ReceiptIs(a: AttemptAnswers, reserved: Option<int>, k: nat)
    requires !NeverSent(a, reserved) && a.broadcast.Answered? && a.broadcast.result == 200
    ensures a.transfer.Signed? && a.transfer.nonce.Some?
    ensures forall receipt :: AcceptedAs(a, reserved, k, receipt) <==>
                                receipt == ReceiptFor(a, k) && IsTxHash(receipt.txHash) && !a.hookThrows
  {
    SignedBy(a, reserved);
    var mine := ReceiptFor(a, k);
    assert Lower("") == "" && !IsTxHash("");
    if IsTxHash(mine.txHash) && !a.hookThrows {
      assert NamesHash(a, if a.broadcast.hash.Some? then a.broadcast.hash.value else a.transfer.hash.value);
    }
    hide IsTxHash;
  }

  /** Each fate of an attempt, from the answers alone. */
  lemma AttemptExactly(w: Wallet, o: Options, intent: Intent, a: AttemptAnswers, k: nat, reserved: Option<int>, r: Receipt)
    ensures var log := Attempt(w, o, intent, a, k, reserved);
            && (log.Settled? && log.receipt == r <==> PaidIn(w, o, intent, a, reserved, k, r))
            && (log.NotSent? || log.Refused? || log.Dropped? || log.FellThrough? <==> PassesOn(w, o, intent, a, reserved, k))
            && (log.Lost? || log.Stopped? <==> EndsOpen(w, o, intent, a, reserved, k))
  {
    SignedBy(a, reserved);
    if NeverSent(a, reserved) || a.broadcast.BroadcastLost? || a.broadcast.result != 200 {
      assert forall receipt :: !AcceptedAs(a, reserved, k, receipt);
    } else {
      ReceiptIs(a, reserved, k);
      if IsTxHash(ReceiptFor(a, k).txHash) && !a.hookThrows {
        AcceptedExactly(w, o, intent, a, k, reserved, r);
      }
    }
  }

  lemma AcceptedExactly(w: Wallet, o: Options, intent: Intent, a: AttemptAnswers, k: nat, reserved: Option<int>, r: Receipt)
    requires GoodNonce(a, reserved) && a.confirmed && a.broadcast.Answered? && a.broadcast.result == 200
    requires IsTxHash(ReceiptFor(a, k).txHash) && !a.hookThrows
    requires forall receipt :: AcceptedAs(a, reserved, k, receipt) <==> receipt == ReceiptFor(a, k)
    ensures var log := Attempt(w, o, intent, a, k, reserved);
            && (log.Settled? && log.receipt == r <==> PaidIn(w, o, intent, a, reserved, k, r))
            && (log.NotSent? || log.Refused? || log.Dropped? || log.FellThrough? <==> PassesOn(w, o, intent, a, reserved, k))
            && (log.Lost? || log.Stopped? <==> EndsOpen(w, o, intent, a, reserved, k))
  {
    SignedBy(a, reserved);
    hide Poll, RoundsDecide, RoundsStayOpen, NeverSent, AcceptedAs, IsTxHash;
    var receipt := ReceiptFor(a, k);
    var log := Poll(w, o, intent, receipt, a.polls, a.clockSteppedBack);
    PollKeepsNonce(w, o, intent, receipt, a.polls, a.clockSteppedBack);
    PollExactly(w, o, intent, receipt, a.polls, a.clockSteppedBack, Pay(r.block));
    PollExactly(w, o, intent, receipt, a.polls, a.clockSteppedBack, Halt);
    forall why ensures Reports(log, receipt, DropOut(why)) <==> RoundsDecide(w, o, intent, receipt, a.polls, DropOut(why)) {
      PollExactly(w, o, intent, receipt, a.polls, a.clockSteppedBack, DropOut(why));
    }
    assert log.Dropped? ==> Reports(log, receipt, DropOut(log.why)) && RoundsDecide(w, o, intent, receipt, a.polls, DropOut(log.why));
    assert AcceptedAs(a, reserved, k, receipt);
  }

  // ---------------------------------------------------------------------
  // Whole runs
  // ---------------------------------------------------------------------

  /** The nonce the first signing before attempt `k` gave. */
  function FirstSigned(node: nat -> AttemptAnswers, k: nat): Option<int> {
    if k <= 1 then None
    else if FirstSigned(node, k - 1).Some? then FirstSigned(node, k - 1)
    else if node(k - 1).transfer.Signed? then node(k - 1).transfer.nonce
    else None
  }

  /** The nonce reserved at attempt `k`: the caller's, or the first one signed. */
  function Reserved(o: Options, node: nat -> AttemptAnswers, k: nat): Option<int> {
    if o.nonce.Some? then o.nonce else FirstSigned(node, k)
  }

  lemma ReservedStep(o: Options, node: nat -> AttemptAnswers, k: nat)
    requires k >= 1
    ensures NonceAfter(node(k), Reserved(o, node, k)) == Reserved(o, node, k + 1)
  {
  }

  /** From attempt `k` on, every attempt before `m` passes on. */
  ghost predicate Reaches(w: Wallet, o: Options, intent: Intent, node: nat -> AttemptAnswers, k: nat, m: int) {
    forall j: nat :: k <= j < m ==> PassesOn(w, o, intent, node(j), Reserved(o, node, j), j)
  }

  ghost predicate EndsAt(w: Wallet, o: Options, intent: Intent, node: nat -> AttemptAnswers, k: nat, m: nat, run: (Outcome, seq<SendLog>)) {
    && k <= m <= o.attempts && Reaches(w, o, intent, node, k, m) && |run.1| == m - k + 1
    && match run.0
       case Paid(r) => PaidIn(w, o, intent, node(m), Reserved(o, node, m), m, r)
       case Indeterminate => EndsOpen(w, o, intent, node(m), Reserved(o, node, m), m)
       case Unpaid => false
  }

  /** The run from attempt `k` on passes through, or ends at some attempt. */
  ghost predicate Ends(w: Wallet, o: Options, intent: Intent, node: nat -> AttemptAnswers, k: nat, run: (Outcome, seq<SendLog>)) {
    if run.0.Unpaid? then Reaches(w, o, intent, node, k, o.attempts + 1)
    else exists m: nat :: EndsAt(w, o, intent, node, k, m, run)
  }

  /** An attempt that passes on hands over to the rest of the run. */
  lemma RunGoesOn(w: Wallet, o: Options, intent: Intent, node: nat -> AttemptAnswers, k: nat, run: (Outcome, seq<SendLog>), rest: (Outcome, seq<SendLog>))
    requires PassesOn(w, o, intent, node(k), Reserved(o, node, k), k) && run.0 == rest.0 && |run.1| == |rest.1| + 1
    requires Ends(w, o, intent, node, k + 1, rest)
    ensures Ends(w, o, intent, node, k, run)
  {
    hide PassesOn, PaidIn, EndsOpen, Reserved;
    if !rest.0.Unpaid? {
      var m: nat :| EndsAt(w, o, intent, node, k + 1, m, rest);
      assert EndsAt(w, o, intent, node, k, m, run);
    }
  }

  lemma {:induction false} RunFrom(w: Wallet, o: Options, intent: Intent, node: nat -> AttemptAnswers, k: nat)
    requires k >= 1
    ensures Ends(w, o, intent, node, k, Payment(w, o, intent, node, k, Reserved(o, node, k)))
    decreases o.attempts - k
  {
    var reserved := Reserved(o, node, k);
    var run := Payment(w, o, intent, node, k, reserved);
    if k > o.attempts {
      AttemptsOver(w, o, intent, node, k, reserved);
    } else {
      hide Payment, Attempt, PaidIn, PassesOn, EndsOpen, Reserved;
      var log := Attempt(w, o, intent, node(k), k, reserved);
      AttemptFirst(w, o, intent, node, k, reserved, []);
      AttemptExactly(w, o, intent, node(k), k, reserved, if log.Settled? then log.receipt else Receipt("", 0, None, 0, None));
      if log.Settled? || log.Lost? || log.Stopped? {
        assert EndsAt(w, o, intent, node, k, k, run);
      } else {
        hide Ends;
        ReservedStep(o, node, k);
        var rest := Payment(w, o, intent, node, k + 1, Reserved(o, node, k + 1));
        assert run.1 == [log] + rest.1;
        RunFrom(w, o, intent, node, k + 1);
        RunGoesOn(w, o, intent, node, k, run, rest);
      }
    }
  }

  /** Attempts that pass on, pay and end open exclude each other, and so do two ends. */
  lemma OneFate(w: Wallet, o: Options, intent: Intent, a: AttemptAnswers, reserved: Option<int>, k: nat, r: Receipt, q: Receipt)
    ensures !(PassesOn(w, o, intent, a, reserved, k) && PaidIn(w, o, intent, a, reserved, k, r))
    ensures !(PassesOn(w, o, intent, a, reserved, k) && EndsOpen(w, o, intent, a, reserved, k))
    ensures !(PaidIn(w, o, intent, a, reserved, k, r) && EndsOpen(w, o, intent, a, reserved, k))
    ensures PaidIn(w, o, intent, a, reserved, k, r) && PaidIn(w, o, intent, a, reserved, k, q) ==> r == q
  {
    AttemptExactly(w, o, intent, a, k, reserved, r);
    AttemptExactly(w, o, intent, a, k, reserved, q);
    hide Attempt, PassesOn, PaidIn, EndsOpen;
  }

  /** The run reaches attempt `m`, the last one made. */
  ghost predicate LastAttempt(w: Wallet, o: Options, intent: Intent, node: nat -> AttemptAnswers, m: nat) {
    1 <= m <= o.attempts && Reaches(w, o, intent, node, 1, m)
  }

  ghost predicate PaysAt(w: Wallet, o: Options, intent: Intent, node: nat -> AttemptAnswers, m: nat, r: Receipt) {
    LastAttempt(w, o, intent, node, m) && PaidIn(w, o, intent, node(m), Reserved(o, node, m), m, r)
  }

  ghost predicate OpenAt(w: Wallet, o: Options, intent: Intent, node: nat -> AttemptAnswers, m: nat) {
    LastAttempt(w, o, intent, node, m) && EndsOpen(w, o, intent, node(m), Reserved(o, node, m), m)
  }

  lemma OneEnd(w: Wallet, o: Options, intent: Intent, node: nat -> AttemptAnswers, m: nat, n: nat, r: Receipt, q: Receipt)
    ensures PaysAt(w, o, intent, node, m, r) && PaysAt(w, o, intent, node, n, q) ==> m == n && r == q
    ensures !(PaysAt(w, o, intent, node, m, r) && OpenAt(w, o, intent, node, n))
    ensures PaysAt(w, o, intent, node, m, r) ==> !Reaches(w, o, intent, node, 1, o.attempts + 1)
    ensures OpenAt(w, o, intent, node, m) ==> !Reaches(w, o, intent, node, 1, o.attempts + 1)
  {
    hide PassesOn, PaidIn, EndsOpen, Reserved;
    OneFate(w, o, intent, node(m), Reserved(o, node, m), m, r, q);
    OneFate(w, o, intent, node(n), Reserved(o, node, n), n, q, r);
  }

  lemma RunEnds(w: Wallet, o: Options, intent: Intent, node: nat -> AttemptAnswers)
    ensures match Run(w, o, intent, node).0
            case Paid(r) => PaysAt(w, o, intent, node, |Run(w, o, intent, node).1|, r)
            case Indeterminate => OpenAt(w, o, intent, node, |Run(w, o, intent, node).1|)
            case Unpaid => Reaches(w, o, intent, node, 1, o.attempts + 1)
  {
    assert Reserved(o, node, 1) == o.nonce;
    hide Payment, PaidIn, EndsOpen, Reserved, Reaches;
    RunFrom(w, o, intent, node, 1);
    var run := Run(w, o, intent, node);
    if !run.0.Unpaid? {
      var m: nat :| EndsAt(w, o, intent, node, 1, m, run);
    }
  }

  /**
   A run is paid with receipt `r` exactly when some attempt pays with it and every earlier
   one passed on; it is indeterminate exactly when such an attempt ends open; and it is unpaid
   exactly when all attempts pass on. The attempt that ends it is the last one made.
   */
  lemma RunExactly(w: Wallet, o: Options, intent: Intent, node: nat -> AttemptAnswers, r: Receipt)
    ensures var run := Run(w, o, intent, node);
            && (run.0 == Paid(r) <==> exists m: nat :: PaysAt(w, o, intent, node, m, r))
            && (run.0 == Indeterminate <==> exists m: nat :: OpenAt(w, o, intent, node, m))
            && (run.0 == Unpaid <==> Reaches(w, o, intent, node, 1, o.attempts + 1))
    ensures !Run(w, o, intent, node).0.Unpaid? ==> LastAttempt(w, o, intent, node, |Run(w, o, intent, node).1|)
  {
    RunEnds(w, o, intent, node);
    hide Run, Reaches, PaidIn, EndsOpen, LastAttempt;
    var run := Run(w, o, intent, node);
    var last, got := |run.1|, if run.0.Paid? then run.0.receipt else r;
    if m: nat :| PaysAt(w, o, intent, node, m, r) {
      OneEnd(w, o, intent, node, m, last, r, got);
    }
    if m: nat :| OpenAt(w, o, intent, node, m) {
      OneEnd(w, o, intent, node, last, m, got, r);
      OneEnd(w, o, intent, node, m, last, r, got);
    }
    OneEnd(w, o, intent, node, last, last, got, r);
  }
}
