/**
 The memo watcher: inbound transfers become deliveries. Transfers are handled one at a
 time, anchors persist, and the delivery call may fail before or after it anchored.
 */
module Watcher {
  import opened Collections
  import opened Text

  // ---------------------------------------------------------------------
  // Memos and addresses
  // ---------------------------------------------------------------------

  const DEM_MEMO_PREFIX := "DACS:"

  function DemMemoFor(jobId: string): string {
    DEM_MEMO_PREFIX + jobId
  }

  function JobIdFromMemo(memo: string): Option<string> {
    if DEM_MEMO_PREFIX <= memo then Some(memo[|DEM_MEMO_PREFIX|..]) else None
  }

  /** The memo names exactly the job it was built for. */
  lemma MemoRoundTrip(memo: string, jobId: string)
    ensures JobIdFromMemo(memo) == Some(jobId) <==> memo == DemMemoFor(jobId)
  {
    assert DemMemoFor(jobId)[|DEM_MEMO_PREFIX|..] == jobId;
    if DEM_MEMO_PREFIX <= memo {
      assert memo == DEM_MEMO_PREFIX + memo[|DEM_MEMO_PREFIX|..];
    }
  }

  const DID_PREFIX := "did:demos:agent:"

  function DidFromDemosAddr(addr: string): Option<string> {
    if |addr| == 66 && addr[..2] == "0x" && AllHex(addr[2..]) then Some(DID_PREFIX + Lower(addr[2..])) else None
  }

  function DemosAddrFromDid(did: string): Option<string> {
    if |did| >= 64 && AllHex(did[|did| - 64..]) then Some("0x" + Lower(did[|did| - 64..])) else None
  }

  /** The DID of an address leads back to that address, in lower case. */
  lemma AddressRoundTrip(addr: string)
    requires DidFromDemosAddr(addr).Some?
    ensures DemosAddrFromDid(DidFromDemosAddr(addr).value) == Some("0x" + Lower(addr[2..]))
  {
    var did, hex := DidFromDemosAddr(addr).value, Lower(addr[2..]);
    LowerHex(addr[2..]);
    assert did[|did| - 64..] == hex;
  }

  // ---------------------------------------------------------------------
  // One transfer
  // ---------------------------------------------------------------------

  datatype Transfer = Transfer(from: string, to: string, amount: int, memo: string)

  datatype ParkReason = NotTagged | NoDid | NoAgreement | NoParams | Underpaid | DeliveryFailed

  datatype Decision =
    | Delivered(jobId: string, from: string, amount: int, ref: string)
    | SkippedReplay(jobId: string)
    | Parked(job: Option<string>, memo: string, reason: ParkReason)

  type Params = string

  /** Anchored slots: the seller's deliveries by job, and buyers' agreements (with their params) by owner and job. */
  datatype Anchors = Anchors(deliveries: set<string>, agreements: map<(string, string), Option<Params>>)

  /** How the delivery call ends; a failure may come after the attestation was anchored. */
  datatype Outcome = Success(ref: string) | Failure(anchored: bool)

  datatype After = After(decision: Decision, handled: set<string>, anchors: Anchors)

  /** What one transfer leads to. */
  function React(handled: set<string>, anchors: Anchors, price: int, t: Transfer, outcome: Outcome): After {
    var job := JobIdFromMemo(t.memo);
    if job.None? || job.value == "" then After(Parked(None, t.memo, NotTagged), handled, anchors)
    else
      var jobId, buyer := job.value, DidFromDemosAddr(t.from);
      if jobId in handled then After(SkippedReplay(jobId), handled, anchors)
      else if jobId in anchors.deliveries then After(SkippedReplay(jobId), handled + {jobId}, anchors)
      else if buyer.None? then After(Parked(job, t.memo, NoDid), handled, anchors)
      else if (buyer.value, jobId) !in anchors.agreements then After(Parked(job, t.memo, NoAgreement), handled, anchors)
      else if anchors.agreements[(buyer.value, jobId)].None? then After(Parked(job, t.memo, NoParams), handled, anchors)
      else if t.amount < price then After(Parked(job, t.memo, Underpaid), handled, anchors)
      else Settle(handled, anchors, jobId, t, outcome)
  }

  function Settle(handled: set<string>, anchors: Anchors, jobId: string, t: Transfer, outcome: Outcome): After {
    var anchored := anchors.(deliveries := anchors.deliveries + {jobId});
    match outcome
    case Success(ref) => After(Delivered(jobId, t.from, t.amount, ref), handled + {jobId}, anchored)
    case Failure(true) => After(Parked(Some(jobId), t.memo, DeliveryFailed), handled, anchored)
    case Failure(false) => After(Parked(Some(jobId), t.memo, DeliveryFailed), handled, anchors)
  }

  /** The transfer pays for a job the payer itself agreed to, at no less than the price. */
  predicate Entitled(anchors: Anchors, price: int, t: Transfer, jobId: string) {
    && jobId != "" && t.memo == DemMemoFor(jobId) && t.amount >= price
    && DidFromDemosAddr(t.from).Some?
    && (DidFromDemosAddr(t.from).value, jobId) in anchors.agreements
    && anchors.agreements[(DidFromDemosAddr(t.from).value, jobId)].Some?
  }

  /** A transfer is delivered exactly when it is entitled, the job has no delivery yet, and the call succeeds. */
  lemma DeliveredExactly(handled: set<string>, anchors: Anchors, price: int, t: Transfer, outcome: Outcome, jobId: string)
    requires handled <= anchors.deliveries
    ensures React(handled, anchors, price, t, outcome).decision.Delivered?
            && React(handled, anchors, price, t, outcome).decision.jobId == jobId <==>
            Entitled(anchors, price, t, jobId) && jobId !in anchors.deliveries && outcome.Success?
  {
    MemoRoundTrip(t.memo, jobId);
    if JobIdFromMemo(t.memo).Some? {
      MemoRoundTrip(t.memo, JobIdFromMemo(t.memo).value);
    }
  }

  /** The memo names the job. */
  predicate Tagged(t: Transfer, jobId: string) {
    jobId != "" && t.memo == DemMemoFor(jobId)
  }

  /** The payer's agreement for the job, where it anchored one. */
  predicate Agreed(anchors: Anchors, t: Transfer, jobId: string, params: Option<Params>) {
    && DidFromDemosAddr(t.from).Some? && (DidFromDemosAddr(t.from).value, jobId) in anchors.agreements
    && anchors.agreements[(DidFromDemosAddr(t.from).value, jobId)] == params
  }

  lemma TaggedExactly(t: Transfer, jobId: string)
    ensures Tagged(t, jobId) <==> jobId != "" && JobIdFromMemo(t.memo) == Some(jobId)
  {
    MemoRoundTrip(t.memo, jobId);
  }

  /** A transfer is replayed exactly when its job was delivered before, whatever else holds of it. */
  lemma ReplayedExactly(handled: set<string>, anchors: Anchors, price: int, t: Transfer, outcome: Outcome, jobId: string)
    requires handled <= anchors.deliveries
    ensures React(handled, anchors, price, t, outcome).decision == SkippedReplay(jobId) <==> Tagged(t, jobId) && jobId in anchors.deliveries
    ensures React(handled, anchors, price, t, outcome).decision.SkippedReplay? ==>
              Tagged(t, React(handled, anchors, price, t, outcome).decision.jobId)
  {
    TaggedExactly(t, jobId);
    if React(handled, anchors, price, t, outcome).decision.SkippedReplay? {
      TaggedExactly(t, React(handled, anchors, price, t, outcome).decision.jobId);
    }
  }

  /** Why an untagged transfer, or one for an undelivered job, is parked. */
  lemma ParkedExactly(handled: set<string>, anchors: Anchors, price: int, t: Transfer, outcome: Outcome, jobId: string)
    requires handled <= anchors.deliveries
    ensures var decision := React(handled, anchors, price, t, outcome).decision;
            && (decision == Parked(None, t.memo, NotTagged) <==> forall job :: !Tagged(t, job))
            && (Tagged(t, jobId) && jobId !in anchors.deliveries ==>
                  && (decision == Parked(Some(jobId), t.memo, NoDid) <==> DidFromDemosAddr(t.from) == None)
                  && (decision == Parked(Some(jobId), t.memo, NoAgreement) <==>
                      DidFromDemosAddr(t.from).Some? && forall params :: !Agreed(anchors, t, jobId, params))
                  && (decision == Parked(Some(jobId), t.memo, NoParams) <==> Agreed(anchors, t, jobId, None))
                  && (decision == Parked(Some(jobId), t.memo, Underpaid) <==>
                      t.amount < price && exists params :: Agreed(anchors, t, jobId, Some(params)))
                  && (decision == Parked(Some(jobId), t.memo, DeliveryFailed) <==> Entitled(anchors, price, t, jobId) && outcome.Failure?))
  {
    forall job ensures Tagged(t, job) <==> job != "" && JobIdFromMemo(t.memo) == Some(job) { TaggedExactly(t, job); }
    if DidFromDemosAddr(t.from).Some? && (DidFromDemosAddr(t.from).value, jobId) in anchors.agreements {
      assert Agreed(anchors, t, jobId, anchors.agreements[(DidFromDemosAddr(t.from).value, jobId)]);
    }
    hide DidFromDemosAddr;
    var job := JobIdFromMemo(t.memo);
    assert job.Some? && job.value != "" ==> Tagged(t, job.value);
  }

  /** The delivery call is made exactly for an entitled transfer of an undelivered job; it alone anchors, and agreements stay. */
  lemma EffectExactly(handled: set<string>, anchors: Anchors, price: int, t: Transfer, outcome: Outcome, jobId: string)
    requires handled <= anchors.deliveries && Tagged(t, jobId)
    ensures var after := React(handled, anchors, price, t, outcome);
            && after.anchors.agreements == anchors.agreements
            && after.anchors.deliveries == anchors.deliveries
                                           + (if Entitled(anchors, price, t, jobId) && (outcome.Success? || outcome.anchored) then {jobId} else {})
            && after.handled == handled + (if jobId in anchors.deliveries || after.decision.Delivered? then {jobId} else {})
  {
    TaggedExactly(t, jobId);
    hide DidFromDemosAddr;
  }

  // ---------------------------------------------------------------------
  // Whole runs
  // ---------------------------------------------------------------------

  datatype Event =
    | Paid(t: Transfer, outcome: Outcome)
    | Restarted
    | AgreementAnchored(owner: string, jobId: string, params: Option<Params>)
    | DeliveredElsewhere(jobId: string)

  datatype Entry = Entry(t: Transfer, decision: Decision)

  /** The memory of the running watcher, the anchors, and every decision of every watcher so far. */
  datatype Machine = Machine(handled: set<string>, anchors: Anchors, log: seq<Entry>)

  function Step(m: Machine, price: int, e: Event): Machine {
    match e
    case Paid(t, outcome) =>
      var after := React(m.handled, m.anchors, price, t, outcome);
      Machine(after.handled, after.anchors, m.log + [Entry(t, after.decision)])
    case Restarted => m.(handled := {})
    case AgreementAnchored(owner, jobId, params) =>
      m.(anchors := m.anchors.(agreements := m.anchors.agreements[(owner, jobId) := params]))
    case DeliveredElsewhere(jobId) => m.(anchors := m.anchors.(deliveries := m.anchors.deliveries + {jobId}))
  }

  function Run(start: Anchors, price: int, events: seq<Event>): Machine {
    if events == [] then Machine({}, start, [])
    else Step(Run(start, price, events[..|events| - 1]), price, events[|events| - 1])
  }

  function Transfers(events: seq<Event>): seq<Transfer> {
    if events == [] then []
    else Transfers(events[..|events| - 1]) + if events[|events| - 1].Paid? then [events[|events| - 1].t] else []
  }

  ghost predicate Inv(m: Machine) {
    && m.handled <= m.anchors.deliveries
    && (forall i :: 0 <= i < |m.log| && m.log[i].decision.Delivered? ==> m.log[i].decision.jobId in m.anchors.deliveries)
    && (forall i, j :: 0 <= i < j < |m.log| && m.log[i].decision.Delivered? && m.log[j].decision.Delivered? ==>
                         m.log[i].decision.jobId != m.log[j].decision.jobId)
  }

  lemma StepKeeps(m: Machine, price: int, e: Event)
    requires Inv(m)
    ensures Inv(Step(m, price, e))
  {
    if e.Paid? {
      ReactKeepsAnchors(m.handled, m.anchors, price, e.t, e.outcome);
      var after := React(m.handled, m.anchors, price, e.t, e.outcome);
      hide React;
      var next := Step(m, price, e);
      assert forall i :: 0 <= i < |m.log| ==> next.log[i] == m.log[i];
    }
  }

  lemma ReactKeepsAnchors(handled: set<string>, anchors: Anchors, price: int, t: Transfer, outcome: Outcome)
    requires handled <= anchors.deliveries
    ensures var after := React(handled, anchors, price, t, outcome);
            && after.handled <= after.anchors.deliveries && anchors.deliveries <= after.anchors.deliveries
            && (after.decision.Delivered? ==> after.decision.jobId !in anchors.deliveries && after.decision.jobId in after.anchors.deliveries)
  {
  }

  lemma {:induction false} RunKeeps(start: Anchors, price: int, events: seq<Event>)
    ensures Inv(Run(start, price, events))
  {
    if events != [] {
      RunKeeps(start, price, events[..|events| - 1]);
      StepKeeps(Run(start, price, events[..|events| - 1]), price, events[|events| - 1]);
    }
  }

  function LoggedTransfers(log: seq<Entry>): (r: seq<Transfer>)
    ensures |r| == |log|
  {
    seq(|log|, i requires 0 <= i < |log| => log[i].t)
  }

  /** Over any run with any restarts, every transfer has exactly one decision, in order. */
  lemma {:induction false} OneDecisionPerTransfer(start: Anchors, price: int, events: seq<Event>)
    ensures LoggedTransfers(Run(start, price, events).log) == Transfers(events)
  {
    if events != [] {
      hide React;
      OneDecisionPerTransfer(start, price, events[..|events| - 1]);
    }
  }

  /** No job is delivered twice, restarts and deliveries made elsewhere included. */
  lemma AtMostOneDelivery(start: Anchors, price: int, events: seq<Event>, i: nat, j: nat)
    requires i < j < |Run(start, price, events).log|
    requires Run(start, price, events).log[i].decision.Delivered? && Run(start, price, events).log[j].decision.Delivered?
    ensures Run(start, price, events).log[i].decision.jobId != Run(start, price, events).log[j].decision.jobId
  {
    RunKeeps(start, price, events);
  }

  /** Every delivered transfer was entitled to its job when it arrived. */
  lemma {:induction false} DeliveredWasEntitled(start: Anchors, price: int, events: seq<Event>, i: nat) returns (k: nat)
    requires i < |Run(start, price, events).log| && Run(start, price, events).log[i].decision.Delivered?
    ensures k < |events| && events[k].Paid? && events[k].t == Run(start, price, events).log[i].t && events[k].outcome.Success?
    ensures var before, decision := Run(start, price, events[..k]), Run(start, price, events).log[i].decision;
            && Entitled(before.anchors, price, events[k].t, decision.jobId) && decision.jobId !in before.anchors.deliveries
            && decision.from == events[k].t.from && decision.amount == events[k].t.amount && decision.amount >= price
            && decision.ref == events[k].outcome.ref
  {
    var front := events[..|events| - 1];
    var m := Run(start, price, front);
    if i < |m.log| {
      k := DeliveredWasEntitled(start, price, front, i);
      assert events[..k] == front[..k] && events[k] == front[k];
    } else {
      k := |events| - 1;
      var e := events[k];
      RunKeeps(start, price, front);
      DeliveredExactly(m.handled, m.anchors, price, e.t, e.outcome, React(m.handled, m.anchors, price, e.t, e.outcome).decision.jobId);
    }
  }

  /** Once a delivery is anchored, every later transfer for the job is a replay, whatever it pays. */
  lemma {:induction false} AnchoredStaysAnchored(start: Anchors, price: int, events: seq<Event>, more: seq<Event>)
    ensures Run(start, price, events).anchors.deliveries <= Run(start, price, events + more).anchors.deliveries
    decreases |more|
  {
    if more == [] {
      assert events + more == events;
    } else {
      var front, last := events + more[..|more| - 1], more[|more| - 1];
      AnchoredStaysAnchored(start, price, events, more[..|more| - 1]);
      assert (events + more)[..|events + more| - 1] == front && (events + more)[|events + more| - 1] == last;
      RunKeeps(start, price, front);
      if last.Paid? {
        ReactKeepsAnchors(Run(start, price, front).handled, Run(start, price, front).anchors, price, last.t, last.outcome);
        hide React;
      }
    }
  }

  lemma ReplayAfterDelivery(start: Anchors, price: int, events: seq<Event>, more: seq<Event>, t: Transfer, outcome: Outcome, jobId: string)
    requires jobId in Run(start, price, events).anchors.deliveries && jobId != "" && t.memo == DemMemoFor(jobId)
    ensures var m := Run(start, price, events + more);
            React(m.handled, m.anchors, price, t, outcome).decision == SkippedReplay(jobId)
  {
    AnchoredStaysAnchored(start, price, events, more);
    MemoRoundTrip(t.memo, jobId);
    hide Run;
  }

  // ---------------------------------------------------------------------
  // The watcher and the in-memory ledger
  // ---------------------------------------------------------------------

  /** The anchoring substrate that watchers share. */
  class Substrate {
    var anchors: Anchors

    constructor (anchors: Anchors)
      ensures this.anchors == anchors
    {
      this.anchors := anchors;
    }

    method Deliver(jobId: string, outcome: Outcome) returns (ref: Option<string>)
      modifies this
      ensures outcome.Success? ==> ref == Some(outcome.ref)
      ensures outcome.Failure? ==> ref == None
      ensures anchors == if outcome.Success? || outcome.anchored then old(anchors).(deliveries := old(anchors).deliveries + {jobId}) else old(anchors)
    {
      if outcome.Success? || outcome.anchored {
        anchors := anchors.(deliveries := anchors.deliveries + {jobId});
      }
      ref := if outcome.Success? then Some(outcome.ref) else None;
    }
  }

  class SellerWatcher {
    const sub: Substrate
    const price: int
    var decisions: seq<Decision>
    var handled: set<string>

    constructor (sub: Substrate, price: int)
      ensures this.sub == sub && this.price == price && decisions == [] && handled == {}
    {
      this.sub := sub;
      this.price := price;
      decisions := [];
      handled := {};
    }

    method OnTransfer(t: Transfer, outcome: Outcome)
      modifies this, sub
      ensures var after := React(old(handled), old(sub.anchors), price, t, outcome);
              decisions == old(decisions) + [after.decision] && handled == after.handled && sub.anchors == after.anchors
    {
      var job := JobIdFromMemo(t.memo);
      if job.None? || job.value == "" {
        decisions := decisions + [Parked(None, t.memo, NotTagged)];
        return;
      }
      var jobId := job.value;
      if jobId in handled {
        decisions := decisions + [SkippedReplay(jobId)];
        return;
      }
      var already := jobId in sub.anchors.deliveries;
      if already {
        handled := handled + {jobId};
        decisions := decisions + [SkippedReplay(jobId)];
        return;
      }
      var buyerDid := DidFromDemosAddr(t.from);
      if buyerDid.None? {
        decisions := decisions + [Parked(job, t.memo, NoDid)];
        return;
      }
      if (buyerDid.value, jobId) !in sub.anchors.agreements {
        decisions := decisions + [Parked(job, t.memo, NoAgreement)];
        return;
      }
      var params := sub.anchors.agreements[(buyerDid.value, jobId)];
      if params.None? {
        decisions := decisions + [Parked(job, t.memo, NoParams)];
        return;
      }
      if t.amount < price {
        decisions := decisions + [Parked(job, t.memo, Underpaid)];
        return;
      }
      var attestationRef := sub.Deliver(jobId, outcome);
      if attestationRef.None? {
        decisions := decisions + [Parked(job, t.memo, DeliveryFailed)];
        return;
      }
      handled := handled + {jobId};
      decisions := decisions + [Delivered(jobId, t.from, t.amount, attestationRef.value)];
    }
  }

  datatype Listener = Listener(to: string, watcher: SellerWatcher)

  /** A listener: whom it listens for, where it anchors, its price, and how its delivery call would end. */
  datatype Turn = Turn(to: string, sub: Substrate, price: int, outcome: Outcome)

  /** What a watcher keeps. */
  datatype Book = Book(decisions: seq<Decision>, handled: set<string>)

  /** The books of all listeners and the anchors of all their substrates. */
  datatype Hall = Hall(books: seq<Book>, anchors: map<Substrate, Anchors>)

  ghost predicate Fits(turns: seq<Turn>, hall: Hall) {
    |hall.books| == |turns| && forall i :: 0 <= i < |turns| ==> turns[i].sub in hall.anchors
  }

  /** What listener `i` makes of the transfer in this state. */
  function Reaction(turns: seq<Turn>, t: Transfer, hall: Hall, i: nat): After
    requires Fits(turns, hall) && i < |turns|
  {
    React(hall.books[i].handled, hall.anchors[turns[i].sub], turns[i].price, t, turns[i].outcome)
  }

  function TakeTurn(turns: seq<Turn>, t: Transfer, hall: Hall, i: nat): (r: Hall)
    requires Fits(turns, hall) && i < |turns|
    ensures Fits(turns, r) && r.anchors.Keys == hall.anchors.Keys
  {
    if turns[i].to != t.to then hall
    else
      var after := Reaction(turns, t, hall, i);
      Hall(hall.books[i := Book(hall.books[i].decisions + [after.decision], after.handled)], hall.anchors[turns[i].sub := after.anchors])
  }

  /** The first `n` listeners in order. */
  function TakeTurns(turns: seq<Turn>, t: Transfer, hall: Hall, n: nat): (r: Hall)
    requires Fits(turns, hall) && n <= |turns|
    ensures Fits(turns, r) && r.anchors.Keys == hall.anchors.Keys
  {
    if n == 0 then hall else TakeTurn(turns, t, TakeTurns(turns, t, hall, n - 1), n - 1)
  }

  lemma {:induction false} NotYet(turns: seq<Turn>, t: Transfer, hall: Hall, n: nat, i: nat)
    requires Fits(turns, hall) && n <= i < |turns|
    ensures TakeTurns(turns, t, hall, n).books[i] == hall.books[i]
  {
    if n > 0 {
      NotYet(turns, t, hall, n - 1, i);
    }
  }

  /**
   Each listener of the recipient logs one decision: what the transfer leads to on the
   anchors that the listeners before it left. Any other keeps its book.
   */
  lemma {:induction false} EachListenerDecidesOnce(turns: seq<Turn>, t: Transfer, hall: Hall, n: nat, i: nat)
    requires Fits(turns, hall) && i < n <= |turns|
    ensures var before, book := TakeTurns(turns, t, hall, i), TakeTurns(turns, t, hall, n).books[i];
            if turns[i].to != t.to then book == hall.books[i]
            else
              var after := React(hall.books[i].handled, before.anchors[turns[i].sub], turns[i].price, t, turns[i].outcome);
              book == Book(hall.books[i].decisions + [after.decision], after.handled)
  {
    hide React;
    if n == i + 1 {
      NotYet(turns, t, hall, i, i);
    } else {
      EachListenerDecidesOnce(turns, t, hall, n - 1, i);
    }
  }

  /** Watchers remember only anchored jobs. */
  ghost predicate Remembers(turns: seq<Turn>, hall: Hall)
    requires Fits(turns, hall)
  {
    forall i :: 0 <= i < |turns| ==> hall.books[i].handled <= hall.anchors[turns[i].sub].deliveries
  }

  lemma TurnRemembers(turns: seq<Turn>, t: Transfer, hall: Hall, i: nat)
    requires Fits(turns, hall) && Remembers(turns, hall) && i < |turns|
    ensures Remembers(turns, TakeTurn(turns, t, hall, i))
    ensures forall s :: s in hall.anchors ==> hall.anchors[s].deliveries <= TakeTurn(turns, t, hall, i).anchors[s].deliveries
    ensures var after := Reaction(turns, t, hall, i);
            turns[i].to == t.to && after.decision.Delivered? ==>
              after.decision.jobId in TakeTurn(turns, t, hall, i).anchors[turns[i].sub].deliveries
  {
    ReactKeepsAnchors(hall.books[i].handled, hall.anchors[turns[i].sub], turns[i].price, t, turns[i].outcome);
    hide React;
  }

  lemma {:induction false} TurnsRemember(turns: seq<Turn>, t: Transfer, hall: Hall, m: nat, n: nat)
    requires Fits(turns, hall) && Remembers(turns, hall) && m <= n <= |turns|
    ensures Remembers(turns, TakeTurns(turns, t, hall, n))
    ensures forall s :: s in hall.anchors ==>
                          TakeTurns(turns, t, hall, m).anchors[s].deliveries <= TakeTurns(turns, t, hall, n).anchors[s].deliveries
    decreases n
  {
    hide TakeTurn;
    if m < n {
      TurnsRemember(turns, t, hall, m, n - 1);
    } else if n > 0 {
      TurnsRemember(turns, t, hall, n - 1, n - 1);
    }
    if n > 0 {
      TurnRemembers(turns, t, TakeTurns(turns, t, hall, n - 1), n - 1);
    }
  }

  /** Two watchers of one substrate never both deliver for a transfer. */
  lemma OneSubstrateDeliversOnce(turns: seq<Turn>, t: Transfer, hall: Hall, i: nat, j: nat)
    requires Fits(turns, hall) && Remembers(turns, hall) && i < j < |turns|
    requires turns[i].to == t.to && turns[i].sub == turns[j].sub
    ensures var first, second := Reaction(turns, t, TakeTurns(turns, t, hall, i), i), Reaction(turns, t, TakeTurns(turns, t, hall, j), j);
            !(first.decision.Delivered? && second.decision.Delivered?)
  {
    hide TakeTurns, Reaction, Remembers;
    var before, between := TakeTurns(turns, t, hall, i), TakeTurns(turns, t, hall, j);
    if Reaction(turns, t, before, i).decision.Delivered? && Reaction(turns, t, between, j).decision.Delivered? {
      TurnsRemember(turns, t, hall, i, i);
      TurnsRemember(turns, t, hall, i, j);
      DeliveredIsNew(turns, t, before, i);
      DeliveredIsNew(turns, t, between, j);
      DeliveredStays(turns, t, hall, i, j);
    }
  }

  lemma DeliveredStays(turns: seq<Turn>, t: Transfer, hall: Hall, i: nat, j: nat)
    requires Fits(turns, hall) && Remembers(turns, hall) && i < j <= |turns| && turns[i].to == t.to
    requires Reaction(turns, t, TakeTurns(turns, t, hall, i), i).decision.Delivered?
    ensures Reaction(turns, t, TakeTurns(turns, t, hall, i), i).decision.jobId in TakeTurns(turns, t, hall, j).anchors[turns[i].sub].deliveries
  {
    hide Reaction, Remembers, TakeTurn;
    TurnsRemember(turns, t, hall, i, i);
    TurnsRemember(turns, t, hall, i + 1, j);
    TurnRemembers(turns, t, TakeTurns(turns, t, hall, i), i);
    assert TakeTurns(turns, t, hall, i + 1) == TakeTurn(turns, t, TakeTurns(turns, t, hall, i), i);
  }

  lemma DeliveredIsNew(turns: seq<Turn>, t: Transfer, hall: Hall, i: nat)
    requires Fits(turns, hall) && Remembers(turns, hall) && i < |turns| && Reaction(turns, t, hall, i).decision.Delivered?
    ensures var jobId := Reaction(turns, t, hall, i).decision.jobId;
            JobIdFromMemo(t.memo) == Some(jobId) && jobId !in hall.anchors[turns[i].sub].deliveries
  {
    NamedByTheMemo(hall.books[i].handled, hall.anchors[turns[i].sub], turns[i].price, t, turns[i].outcome);
    ReactKeepsAnchors(hall.books[i].handled, hall.anchors[turns[i].sub], turns[i].price, t, turns[i].outcome);
    hide React;
  }

  lemma NamedByTheMemo(handled: set<string>, anchors: Anchors, price: int, t: Transfer, outcome: Outcome)
    ensures var decision := React(handled, anchors, price, t, outcome).decision;
            decision.Delivered? ==> JobIdFromMemo(t.memo) == Some(decision.jobId)
  {
  }

  /** The ledger awaits each listener of the recipient before the next. */
  class MockDemLedger {
    var transfers: seq<Transfer>
    var listeners: seq<Listener>

    constructor ()
      ensures transfers == [] && listeners == []
    {
      transfers, listeners := [], [];
    }

    /** Each watcher is subscribed once. */
    ghost predicate Valid()
      reads this
    {
      forall i, j :: 0 <= i < j < |listeners| ==> listeners[i].watcher != listeners[j].watcher
    }

    ghost function Substrates(): set<Substrate>
      reads this
    {
      set i | 0 <= i < |listeners| :: listeners[i].watcher.sub
    }

    ghost function Watched(): set<object>
      reads this
    {
      (set i | 0 <= i < |listeners| :: listeners[i].watcher) + Substrates()
    }

    ghost function Turns(outcomes: seq<Outcome>): (r: seq<Turn>)
      requires |outcomes| == |listeners|
      reads this
      ensures |r| == |listeners|
    {
      seq(|listeners|, i requires 0 <= i < |listeners| && |outcomes| == |listeners| reads this =>
        Turn(listeners[i].to, listeners[i].watcher.sub, listeners[i].watcher.price, outcomes[i]))
    }

    ghost function Books(): seq<Book>
      reads this, Watched()
    {
      seq(|listeners|, i requires 0 <= i < |listeners| reads this, Watched() =>
        assert listeners[i].watcher in Watched();
        Book(listeners[i].watcher.decisions, listeners[i].watcher.handled))
    }

    ghost function Now(): Hall
      reads this, Watched()
    {
      Hall(Books(), map s | s in Substrates() :: s.anchors)
    }

    lemma NowFits(outcomes: seq<Outcome>)
      requires |outcomes| == |listeners|
      ensures Fits(Turns(outcomes), Now())
    {
    }

    method OnTransferTo(to: string, watcher: SellerWatcher)
      requires Valid() && forall i :: 0 <= i < |listeners| ==> listeners[i].watcher != watcher
      modifies this
      ensures Valid() && listeners == old(listeners) + [Listener(to, watcher)] && transfers == old(transfers)
    {
      listeners := listeners + [Listener(to, watcher)];
    }

    method Hear(i: nat, t: Transfer, outcomes: seq<Outcome>)
      requires Valid() && |outcomes| == |listeners| && this !in Watched() && i < |listeners| && Fits(Turns(outcomes), Now())
      modifies Watched()
      ensures Now() == TakeTurn(Turns(outcomes), t, old(Now()), i)
    {
      hide React;
      var l := listeners[i];
      assert l.watcher in Watched() && l.watcher.sub in Watched() && l.watcher.sub in Substrates();
      if l.to == t.to {
        l.watcher.OnTransfer(t, outcomes[i]);
      }
    }

    method HearAll(t: Transfer, outcomes: seq<Outcome>)
      requires Valid() && |outcomes| == |listeners| && this !in Watched() && Fits(Turns(outcomes), Now())
      modifies Watched()
      ensures Now() == TakeTurns(Turns(outcomes), t, old(Now()), |listeners|)
    {
      hide TakeTurn, Turns, Now;
      ghost var turns, hall := Turns(outcomes), Now();
      for i := 0 to |listeners|
        invariant Now() == TakeTurns(turns, t, hall, i)
      {
        Hear(i, t, outcomes);
      }
    }

    /** Records the transfer and lets every listener of the recipient take its turn. */
    method SendTransfer(t: Transfer, outcomes: seq<Outcome>)
      requires Valid() && |outcomes| == |listeners| && this !in Watched()
      modifies this, Watched()
      ensures transfers == old(transfers) + [t] && listeners == old(listeners) && Valid()
      ensures Fits(Turns(outcomes), old(Now())) && Now() == TakeTurns(Turns(outcomes), t, old(Now()), |listeners|)
    {
      hide TakeTurn, TakeTurns;
      NowFits(outcomes);
      transfers := transfers + [t];
      assert Now() == old(Now());
      HearAll(t, outcomes);
    }
  }
}
