/**
 The audit desk's negotiation: terms and money, the two guards, the turn loop, and the
 deterministic policies.
 */
module Negotiation {
  import opened Collections
  import opened Money

  // ---------------------------------------------------------------------
  // Terms and money
  // ---------------------------------------------------------------------

  datatype Tier = Quick | Deep

  datatype Deadline = Standard | Rush

  datatype Terms = Terms(tier: Tier, deadline: Deadline, price: real)

  datatype Move = Offer(terms: Terms) | Counter(terms: Terms) | Accept(terms: Terms) | Reject

  datatype Side = Seller | Buyer

  datatype Turn = Turn(side: Side, move: Move)

  /** The pre-scan; `deepPrice` stands for the deep tier's own bill. */
  datatype ScanFacts = ScanFacts(kloc: real, deepPrice: real)

  datatype Economics = Economics(quickBase: real, quickPerKloc: real, rushMultiplier: real, minMarginPct: real, listMarginPct: real)

  function BasePrice(scan: ScanFacts, tier: Tier, econ: Economics): real {
    if tier == Deep then scan.deepPrice else RoundCents(econ.quickBase + econ.quickPerKloc * Ceiling(scan.kloc) as real)
  }

  function WithRush(base: real, deadline: Deadline, econ: Economics): real {
    if deadline == Rush then base * econ.rushMultiplier else base
  }

  function WithMargin(cost: real, pct: real): real {
    cost * (1.0 + pct)
  }

  function CostFor(scan: ScanFacts, tier: Tier, deadline: Deadline, econ: Economics): real {
    RoundCents(WithRush(BasePrice(scan, tier, econ), deadline, econ))
  }

  function FloorFor(scan: ScanFacts, tier: Tier, deadline: Deadline, econ: Economics): real {
    RoundCents(WithMargin(CostFor(scan, tier, deadline, econ), econ.minMarginPct))
  }

  function AskFor(scan: ScanFacts, tier: Tier, deadline: Deadline, econ: Economics): real {
    RoundCents(WithMargin(CostFor(scan, tier, deadline, econ), econ.listMarginPct))
  }

  // ---------------------------------------------------------------------
  // The guards
  // ---------------------------------------------------------------------

  datatype SellerGuard = SellerGuard(tiers: set<Tier>, deadlines: set<Deadline>, floor: (Tier, Deadline) -> real)

  datatype BuyerGuard = BuyerGuard(tiers: set<Tier>, deadlines: set<Deadline>, budget: real, acceptable: set<Tier>)

  predicate ValidShape(t: Terms, tiers: set<Tier>, deadlines: set<Deadline>) {
    t.tier in tiers && t.deadline in deadlines && t.price > 0.0 && WholeCents(t.price)
  }

  predicate SellerMaySettle(t: Terms, g: SellerGuard) {
    ValidShape(t, g.tiers, g.deadlines) && t.price >= g.floor(t.tier, t.deadline)
  }

  predicate BuyerMaySettle(t: Terms, g: BuyerGuard) {
    ValidShape(t, g.tiers, g.deadlines) && t.tier in g.acceptable && t.price <= g.budget
  }

  // ---------------------------------------------------------------------
  // The turn loop
  // ---------------------------------------------------------------------

  datatype PublicState = PublicState(transcript: seq<Turn>, round: nat, maxRounds: int)

  /** A policy answers with a move, or throws. */
  type Policy = PublicState -> Option<Move>

  datatype Config = Config(maxTurns: int, sellerGuard: SellerGuard, buyerGuard: BuyerGuard)

  datatype Reason = Deal | Threw | OutOfGuard | Rejected | NothingOnTable | FailsAGuard | TimedOut

  datatype Result = Result(agreed: Option<Terms>, transcript: seq<Turn>, reason: Reason, turns: nat)

  function MaxTurns(cfg: Config): nat {
    if cfg.maxTurns < 2 then 2 else cfg.maxTurns
  }

  function SideAt(turn: nat): Side {
    if turn % 2 == 0 then Seller else Buyer
  }

  function Other(s: Side): Side {
    if s == Seller then Buyer else Seller
  }

  predicate Proposes(t: Turn, side: Side) {
    t.side == side && (t.move.Offer? || t.move.Counter?)
  }

  /** The terms a side has on the table: its last offer or counter. */
  function OnTable(transcript: seq<Turn>, side: Side): (r: Option<Terms>)
    ensures r.None? ==> forall i :: 0 <= i < |transcript| ==> !Proposes(transcript[i], side)
    ensures r.Some? ==> exists i :: 0 <= i < |transcript| && Proposes(transcript[i], side) && transcript[i].move.terms == r.value
                                    && forall j :: i < j < |transcript| ==> !Proposes(transcript[j], side)
  {
    if transcript == [] then None
    else
      var last := |transcript| - 1;
      if Proposes(transcript[last], side) then Some(transcript[last].move.terms)
      else OnTable(transcript[..last], side)
  }

  predicate GuardOk(move: Move, side: Side, cfg: Config) {
    move.Reject? || (if side == Seller then SellerMaySettle(move.terms, cfg.sellerGuard) else BuyerMaySettle(move.terms, cfg.buyerGuard))
  }

  function StateAt(transcript: seq<Turn>, turn: nat, cfg: Config): PublicState {
    PublicState(transcript, turn / 2 + 1, (MaxTurns(cfg) + 1) / 2)
  }

  function CloseOn(transcript: seq<Turn>, side: Side, cfg: Config, turns: nat): Result {
    match OnTable(transcript, Other(side))
    case None => Result(None, transcript, NothingOnTable, turns)
    case Some(table) =>
      if SellerMaySettle(table, cfg.sellerGuard) && BuyerMaySettle(table, cfg.buyerGuard)
      then Result(Some(table), transcript, Deal, turns)
      else Result(None, transcript, FailsAGuard, turns)
  }

  function Ask(seller: Policy, buyer: Policy, side: Side, state: PublicState): Option<Move> {
    if side == Seller then seller(state) else buyer(state)
  }

  /** The negotiation from turn `turn` on. */
  function Negotiate(seller: Policy, buyer: Policy, cfg: Config, turn: nat, transcript: seq<Turn>): Result
    decreases MaxTurns(cfg) - turn
  {
    if turn >= MaxTurns(cfg) then Result(None, transcript, TimedOut, MaxTurns(cfg))
    else
      var side := SideAt(turn);
      match Ask(seller, buyer, side, StateAt(transcript, turn, cfg))
      case None => Result(None, transcript, Threw, turn)
      case Some(move) =>
        if !GuardOk(move, side, cfg) then Result(None, transcript + [Turn(side, Reject)], OutOfGuard, turn + 1)
        else
          var said := transcript + [Turn(side, move)];
          match move
          case Reject => Result(None, said, Rejected, turn + 1)
          case Accept(_) => CloseOn(said, side, cfg, turn + 1)
          case _ => Negotiate(seller, buyer, cfg, turn + 1, said)
  }

  method OnTableFrom(transcript: seq<Turn>, side: Side) returns (r: Option<Terms>)
    ensures r == OnTable(transcript, side)
  {
    var i := |transcript|;
    while i > 0
      invariant 0 <= i <= |transcript|
      invariant OnTable(transcript, side) == OnTable(transcript[..i], side)
    {
      i := i - 1;
      assert transcript[..i + 1][..i] == transcript[..i];
      if Proposes(transcript[i], side) {
        return Some(transcript[i].move.terms);
      }
    }
    assert transcript[..0] == [];
    r := None;
  }

  method RunNegotiation(seller: Policy, buyer: Policy, cfg: Config) returns (r: Result)
    ensures r == Negotiate(seller, buyer, cfg, 0, [])
  {
    var maxTurns := MaxTurns(cfg);
    var transcript: seq<Turn> := [];
    var sellerRounds, buyerRounds := 0, 0;
    var turn := 0;
    while turn < maxTurns
      invariant 0 <= turn <= maxTurns
      invariant sellerRounds == (turn + 1) / 2 && buyerRounds == turn / 2
      invariant Negotiate(seller, buyer, cfg, 0, []) == Negotiate(seller, buyer, cfg, turn, transcript)
    {
      var side := if turn % 2 == 0 then Seller else Buyer;
      var round;
      if side == Seller {
        sellerRounds := sellerRounds + 1;
        round := sellerRounds;
      } else {
        buyerRounds := buyerRounds + 1;
        round := buyerRounds;
      }
      var state := PublicState(transcript, round, (maxTurns + 1) / 2);
      assert state == StateAt(transcript, turn, cfg);
      var answer := Ask(seller, buyer, side, state);
      if answer.None? {
        return Result(None, transcript, Threw, turn);
      }
      var move := answer.value;
      if !GuardOk(move, side, cfg) {
        return Result(None, transcript + [Turn(side, Reject)], OutOfGuard, turn + 1);
      }
      transcript := transcript + [Turn(side, move)];
      if move.Reject? {
        return Result(None, transcript, Rejected, turn + 1);
      }
      if move.Accept? {
        var table := OnTableFrom(transcript, Other(side));
        if table.None? {
          return Result(None, transcript, NothingOnTable, turn + 1);
        }
        if SellerMaySettle(table.value, cfg.sellerGuard) && BuyerMaySettle(table.value, cfg.buyerGuard) {
          return Result(table, transcript, Deal, turn + 1);
        }
        return Result(None, transcript, FailsAGuard, turn + 1);
      }
      turn := turn + 1;
    }
    r := Result(None, transcript, TimedOut, maxTurns);
  }

  // ---------------------------------------------------------------------
  // Safety, for all policies
  // ---------------------------------------------------------------------

  /** Sides alternate, seller first, and every recorded move passes its own side's guard. */
  ghost predicate Orderly(transcript: seq<Turn>, cfg: Config) {
    forall i :: 0 <= i < |transcript| ==>
                  transcript[i].side == SideAt(i) && GuardOk(transcript[i].move, transcript[i].side, cfg)
  }

  /** The agreed terms are the last proposal of the side that did not accept, and both guards take them. */
  ghost predicate SoundDeal(r: Result, cfg: Config) {
    r.agreed.Some? ==>
      && r.transcript != []
      && var last := r.transcript[|r.transcript| - 1];
         && last.move.Accept?
         && OnTable(r.transcript, Other(last.side)) == r.agreed
         && SellerMaySettle(r.agreed.value, cfg.sellerGuard)
         && BuyerMaySettle(r.agreed.value, cfg.buyerGuard)
  }

  lemma RejectPasses(side: Side, cfg: Config)
    ensures GuardOk(Reject, side, cfg)
  {
  }

  /** Whatever the policies do, even throw: bounded, orderly, and only a doubly guarded deal is agreed. */
  lemma {:induction false} NegotiationIsSafe(seller: Policy, buyer: Policy, cfg: Config, turn: nat, transcript: seq<Turn>)
    requires turn == |transcript| <= MaxTurns(cfg) && Orderly(transcript, cfg)
    ensures Orderly(Negotiate(seller, buyer, cfg, turn, transcript).transcript, cfg)
    ensures SoundDeal(Negotiate(seller, buyer, cfg, turn, transcript), cfg)
    ensures transcript <= Negotiate(seller, buyer, cfg, turn, transcript).transcript
    ensures Negotiate(seller, buyer, cfg, turn, transcript).turns <= MaxTurns(cfg)
    ensures |Negotiate(seller, buyer, cfg, turn, transcript).transcript| == Negotiate(seller, buyer, cfg, turn, transcript).turns
    ensures Negotiate(seller, buyer, cfg, turn, transcript).agreed.Some? <==> Negotiate(seller, buyer, cfg, turn, transcript).reason == Deal
    decreases MaxTurns(cfg) - turn
  {
    hide SellerMaySettle, BuyerMaySettle, OnTable, GuardOk;
    if turn < MaxTurns(cfg) {
      RejectPasses(SideAt(turn), cfg);
      var side := SideAt(turn);
      var answer := Ask(seller, buyer, side, StateAt(transcript, turn, cfg));
      if answer.Some? {
        assert (transcript + [Turn(side, answer.value)])[|transcript|] == Turn(side, answer.value);
      }
      if answer.Some? && GuardOk(answer.value, side, cfg) && (answer.value.Offer? || answer.value.Counter?) {
        NegotiationIsSafe(seller, buyer, cfg, turn + 1, transcript + [Turn(side, answer.value)]);
      }
    }
  }
}
