/** The transcript of a talk is what the policies said, and its ending is the one that follows. */
module NegotiationRecord {
  import opened Collections
  import opened Negotiation

  /** What the policy whose turn it is says after the first `n` turns of the transcript. */
  function Said(seller: Policy, buyer: Policy, cfg: Config, transcript: seq<Turn>, n: nat): Option<Move>
    requires n <= |transcript|
  {
    Ask(seller, buyer, SideAt(n), StateAt(transcript[..n], n, cfg))
  }

  /** The first `n` turns are proposals, each said by the side whose turn it was and within its guard. */
  ghost predicate Played(seller: Policy, buyer: Policy, cfg: Config, transcript: seq<Turn>, n: nat)
    requires n <= |transcript|
  {
    forall i :: 0 <= i < n ==>
                  && transcript[i].side == SideAt(i) && Said(seller, buyer, cfg, transcript, i) == Some(transcript[i].move)
                  && (transcript[i].move.Offer? || transcript[i].move.Counter?) && GuardOk(transcript[i].move, SideAt(i), cfg)
  }

  predicate Settles(cfg: Config, table: Option<Terms>) {
    table.Some? && SellerMaySettle(table.value, cfg.sellerGuard) && BuyerMaySettle(table.value, cfg.buyerGuard)
  }

  /** The last recorded move, what the policy said and what the other side has on the table give the reason. */
  predicate GivesReason(r: Result, cfg: Config, side: Side, last: Move, said: Option<Move>, table: Option<Terms>) {
    match r.reason
    case OutOfGuard => said.Some? && !GuardOk(said.value, side, cfg) && last == Reject
    case Rejected => said == Some(Reject) && last == Reject
    case NothingOnTable => Accepts(cfg, side, last, said) && table == None
    case FailsAGuard => Accepts(cfg, side, last, said) && table.Some? && !Settles(cfg, table)
    case Deal => Accepts(cfg, side, last, said) && Settles(cfg, table) && r.agreed == table
    case _ => false
  }

  predicate Accepts(cfg: Config, side: Side, last: Move, said: Option<Move>) {
    said == Some(last) && last.Accept? && GuardOk(last, side, cfg)
  }

  /** Why the talk ended as it did. */
  ghost predicate EndsFor(seller: Policy, buyer: Policy, cfg: Config, r: Result) {
    var n := |r.transcript|;
    match r.reason
    case TimedOut => n == MaxTurns(cfg) && Played(seller, buyer, cfg, r.transcript, n)
    case Threw => n < MaxTurns(cfg) && Played(seller, buyer, cfg, r.transcript, n) && Said(seller, buyer, cfg, r.transcript, n) == None
    case _ =>
      && 0 < n <= MaxTurns(cfg) && Played(seller, buyer, cfg, r.transcript, n - 1) && r.transcript[n - 1].side == SideAt(n - 1)
      && GivesReason(r, cfg, SideAt(n - 1), r.transcript[n - 1].move, Said(seller, buyer, cfg, r.transcript, n - 1),
                     OnTable(r.transcript, Other(SideAt(n - 1))))
  }

  lemma PlayedMore(seller: Policy, buyer: Policy, cfg: Config, transcript: seq<Turn>, turn: Turn)
    requires Played(seller, buyer, cfg, transcript, |transcript|)
    ensures Played(seller, buyer, cfg, transcript + [turn], |transcript|)
    ensures Said(seller, buyer, cfg, transcript + [turn], |transcript|) == Said(seller, buyer, cfg, transcript, |transcript|)
  {
    var more := transcript + [turn];
    forall i | 0 <= i <= |transcript| ensures more[..i] == transcript[..i] {}
  }

  /** Played through: the talk goes on from any faithful transcript to an ending that follows. */
  lemma {:induction false} TalkFrom(seller: Policy, buyer: Policy, cfg: Config, turn: nat, transcript: seq<Turn>)
    requires turn == |transcript| <= MaxTurns(cfg) && Played(seller, buyer, cfg, transcript, turn)
    ensures EndsFor(seller, buyer, cfg, Negotiate(seller, buyer, cfg, turn, transcript))
    decreases MaxTurns(cfg) - turn
  {
    hide Played, GuardOk, OnTable, SellerMaySettle, BuyerMaySettle, StateAt;
    if turn < MaxTurns(cfg) {
      var side := SideAt(turn);
      assert transcript[..turn] == transcript;
      var answer := Ask(seller, buyer, side, StateAt(transcript, turn, cfg));
      if answer.Some? {
        var move := answer.value;
        PlayedMore(seller, buyer, cfg, transcript, Turn(side, move));
        PlayedMore(seller, buyer, cfg, transcript, Turn(side, Reject));
        if GuardOk(move, side, cfg) && (move.Offer? || move.Counter?) {
          OneMorePlayed(seller, buyer, cfg, transcript, Turn(side, move));
          TalkFrom(seller, buyer, cfg, turn + 1, transcript + [Turn(side, move)]);
        }
      }
    }
  }

  lemma OneMorePlayed(seller: Policy, buyer: Policy, cfg: Config, transcript: seq<Turn>, turn: Turn)
    requires Played(seller, buyer, cfg, transcript, |transcript|) && turn.side == SideAt(|transcript|)
    requires Said(seller, buyer, cfg, transcript, |transcript|) == Some(turn.move)
    requires (turn.move.Offer? || turn.move.Counter?) && GuardOk(turn.move, turn.side, cfg)
    ensures Played(seller, buyer, cfg, transcript + [turn], |transcript| + 1)
  {
    PlayedMore(seller, buyer, cfg, transcript, turn);
    hide Said, GuardOk;
  }

  /**
   For arbitrary policies: every recorded proposal is what its side said, and the talk ends
   for the reason it gives: in time without an answer, on a throw, on a move out of guard, on a
   rejection, or on an acceptance, which is a deal exactly when the other side has a proposal
   that both guards let settle, and then on that proposal.
   */
  lemma TalkExactly(seller: Policy, buyer: Policy, cfg: Config)
    ensures EndsFor(seller, buyer, cfg, Negotiate(seller, buyer, cfg, 0, []))
  {
    TalkFrom(seller, buyer, cfg, 0, []);
  }
}
