/** The deterministic seller and buyer, and when they agree. */
module NegotiationPolicies {
  import opened Collections
  import opened Money
  import opened Negotiation

  // ---------------------------------------------------------------------
  // What a policy reads off the transcript
  // ---------------------------------------------------------------------

  function LastCounterpartyMove(transcript: seq<Turn>, me: Side): Option<Move> {
    if transcript == [] then None
    else
      var last := transcript[|transcript| - 1];
      if last.side != me then Some(last.move) else LastCounterpartyMove(transcript[..|transcript| - 1], me)
  }

  function PriceTrajectory(transcript: seq<Turn>, side: Side): seq<real> {
    if transcript == [] then []
    else
      var last := transcript[|transcript| - 1];
      PriceTrajectory(transcript[..|transcript| - 1], side) + if Proposes(last, side) then [last.move.terms.price] else []
  }

  function ProjectedReach(trajectory: seq<real>): Option<real> {
    var n := |trajectory|;
    if n == 0 then None
    else if n == 1 then Some(trajectory[0])
    else
      var last, prev := trajectory[n - 1], trajectory[n - 2];
      Some(RoundCents(last + if last - prev > 0.0 then last - prev else 0.0))
  }

  method FindLastCounterpartyMove(transcript: seq<Turn>, me: Side) returns (r: Option<Move>)
    ensures r == LastCounterpartyMove(transcript, me)
  {
    var i := |transcript|;
    assert transcript[..i] == transcript;
    while i > 0
      invariant 0 <= i <= |transcript|
      invariant LastCounterpartyMove(transcript, me) == LastCounterpartyMove(transcript[..i], me)
    {
      i := i - 1;
      assert transcript[..i + 1][..i] == transcript[..i];
      if transcript[i].side != me {
        return Some(transcript[i].move);
      }
    }
    assert transcript[..0] == [];
    r := None;
  }

  method CollectPrices(transcript: seq<Turn>, side: Side) returns (prices: seq<real>)
    ensures prices == PriceTrajectory(transcript, side)
  {
    prices := [];
    var i := 0;
    while i < |transcript|
      invariant 0 <= i <= |transcript|
      invariant prices == PriceTrajectory(transcript[..i], side)
    {
      assert transcript[..i + 1][..i] == transcript[..i];
      if Proposes(transcript[i], side) {
        prices := prices + [transcript[i].move.terms.price];
      }
      i := i + 1;
    }
    assert transcript[..i] == transcript;
  }

  // ---------------------------------------------------------------------
  // The policies
  // ---------------------------------------------------------------------

  datatype SellerBrief = SellerBrief(scan: ScanFacts, guard: SellerGuard, econ: Economics, step: real, anchorTier: Tier, anchorDeadline: Deadline)

  datatype BuyerBrief = BuyerBrief(guard: BuyerGuard, preferredTier: Tier, preferredDeadline: Deadline, openDiscount: real, concessionRate: real)

  function MinReal(a: real, b: real): real { if b < a then b else a }

  /** Where a price ends up after moving the share `rate` of the way from `start` to `end`. */
  function Step(start: real, end: real, rate: real): real {
    start + (end - start) * rate
  }

  function Share(step: real, round: nat): real {
    step * round as real
  }

  function Conceded(b: SellerBrief, want: Terms, floor: real, round: nat): real {
    var ask := AskFor(b.scan, want.tier, want.deadline, b.econ);
    MaxReal(floor, RoundCents(Step(ask, floor, Share(b.step, round))))
  }

  /** The last seller round: hold the floor, or offer the quick tier to a buyer who cannot reach it. */
  function LastOffer(b: SellerBrief, transcript: seq<Turn>, want: Terms, floor: real): Terms {
    var reach := ProjectedReach(PriceTrajectory(transcript, Buyer)).GetOr(want.price);
    var quickFloor := b.guard.floor(Quick, want.deadline);
    if reach < floor && want.tier == Deep && Quick in b.guard.tiers && want.price >= quickFloor
    then Terms(Quick, want.deadline, quickFloor)
    else Terms(want.tier, want.deadline, floor)
  }

  /** The seller's answer to the terms a buyer proposed. */
  function SellerReply(b: SellerBrief, s: PublicState, want: Terms): Move {
    var floor := b.guard.floor(want.tier, want.deadline);
    if want.price >= floor then Accept(want.(price := RoundCents(want.price)))
    else if s.round < s.maxRounds then Counter(Terms(want.tier, want.deadline, Conceded(b, want, floor, s.round)))
    else Counter(LastOffer(b, s.transcript, want, floor))
  }

  function SellerMove(b: SellerBrief, s: PublicState): Move {
    match LastCounterpartyMove(s.transcript, Seller)
    case None => Offer(Terms(b.anchorTier, b.anchorDeadline, AskFor(b.scan, b.anchorTier, b.anchorDeadline, b.econ)))
    case Some(Reject) => Reject
    case Some(Accept(terms)) => if SellerMaySettle(terms, b.guard) then Accept(terms) else Reject
    case Some(last) => SellerReply(b, s, last.terms)
  }

  /** The buyer's own last price, if its last move named one. */
  function MyLastPrice(transcript: seq<Turn>): Option<real> {
    if transcript == [] then None
    else
      var last := transcript[|transcript| - 1];
      if last.side == Buyer then (if Proposes(last, Buyer) then Some(last.move.terms.price) else None)
      else MyLastPrice(transcript[..|transcript| - 1])
  }

  function Discounted(price: real, discount: real): real {
    price * (1.0 - discount)
  }

  /** The buyer's first answer: low, on its preferred terms. */
  function BuyerOpening(b: BuyerBrief, offered: Terms): Move {
    var price := RoundCents(MinReal(b.guard.budget, Discounted(offered.price, b.openDiscount)));
    var terms := Terms(b.preferredTier, b.preferredDeadline, price);
    if BuyerMaySettle(terms, b.guard) then Offer(terms) else Reject
  }

  /** The buyer's answer to seller terms once it has named a price of its own. */
  function BuyerReply(b: BuyerBrief, s: PublicState, offered: Terms, mine: real): Move {
    var budget := b.guard.budget;
    var isFinal := s.round >= s.maxRounds;
    var willingness := if isFinal then budget else RoundCents(Step(mine, budget, b.concessionRate));
    if BuyerMaySettle(offered, b.guard)
       && (offered.price <= willingness || (offered.tier != b.preferredTier && offered.price <= budget) || isFinal)
    then Accept(offered.(price := RoundCents(offered.price)))
    else if isFinal then Reject
    else Counter(Terms(b.preferredTier, b.preferredDeadline, willingness))
  }

  function BuyerMove(b: BuyerBrief, s: PublicState): Move {
    match LastCounterpartyMove(s.transcript, Buyer)
    case None => Reject
    case Some(Reject) => Reject
    case Some(last) =>
      match MyLastPrice(s.transcript)
      case None => BuyerOpening(b, last.terms)
      case Some(mine) => BuyerReply(b, s, last.terms, mine)
  }

  function DeterministicSeller(b: SellerBrief): Policy {
    s => Some(SellerMove(b, s))
  }

  function DeterministicBuyer(b: BuyerBrief): Policy {
    s => Some(BuyerMove(b, s))
  }

  // ---------------------------------------------------------------------
  // The pair
  // ---------------------------------------------------------------------

  /** A desk that sells above cost, a buyer whose preference both sides list, whole cents, and a share of the gap to concede. */
  ghost predicate Ready(sb: SellerBrief, bb: BuyerBrief, cfg: Config) {
    && cfg.sellerGuard == sb.guard && cfg.buyerGuard == bb.guard
    && (forall t, d :: sb.guard.floor(t, d) == FloorFor(sb.scan, t, d, sb.econ) && CostFor(sb.scan, t, d, sb.econ) > 0.0)
    && 0.0 <= sb.econ.minMarginPct <= sb.econ.listMarginPct
    && sb.anchorTier in sb.guard.tiers && sb.anchorDeadline in sb.guard.deadlines
    && bb.preferredTier in sb.guard.tiers && bb.preferredDeadline in sb.guard.deadlines
    && bb.preferredTier in bb.guard.tiers && bb.preferredDeadline in bb.guard.deadlines
    && bb.preferredTier in bb.guard.acceptable
    && WholeCents(bb.guard.budget)
    && 0.0 <= bb.concessionRate <= 1.0
  }

  function PreferredFloor(sb: SellerBrief, bb: BuyerBrief): real {
    sb.guard.floor(bb.preferredTier, bb.preferredDeadline)
  }

  /** The seller may end on the quick tier. */
  predicate MayDowngrade(sb: SellerBrief, bb: BuyerBrief) {
    bb.preferredTier == Deep && Quick in sb.guard.tiers
  }

  predicate TakesQuick(bb: BuyerBrief) {
    Quick in bb.guard.tiers && Quick in bb.guard.acceptable
  }

  lemma FloorFacts(sb: SellerBrief, bb: BuyerBrief, cfg: Config, t: Tier, d: Deadline)
    requires Ready(sb, bb, cfg)
    ensures var floor := sb.guard.floor(t, d);
            WholeCents(floor) && 0.01 <= floor <= AskFor(sb.scan, t, d, sb.econ)
    ensures WholeCents(AskFor(sb.scan, t, d, sb.econ))
  {
    hide CostFor, RoundCents, WithMargin, WholeCents;
    var cost := CostFor(sb.scan, t, d, sb.econ);
    assert sb.guard.floor(t, d) == FloorFor(sb.scan, t, d, sb.econ) && cost > 0.0;
    CostIsWhole(sb.scan, t, d, sb.econ);
    NoMargin(cost);
    RoundIsWhole(WithMargin(cost, sb.econ.minMarginPct));
    RoundIsWhole(WithMargin(cost, sb.econ.listMarginPct));
    MarginGrows(cost, 0.0, sb.econ.minMarginPct);
    MarginGrows(cost, sb.econ.minMarginPct, sb.econ.listMarginPct);
    WholeAtLeastOneCent(cost);
  }

  lemma CostIsWhole(scan: ScanFacts, t: Tier, d: Deadline, econ: Economics)
    ensures WholeCents(CostFor(scan, t, d, econ))
  {
    hide WithRush, BasePrice, RoundCents, WholeCents;
    RoundIsWhole(WithRush(BasePrice(scan, t, econ), d, econ));
  }

  lemma NoMargin(cost: real)
    ensures WithMargin(cost, 0.0) == cost
    ensures WholeCents(cost) ==> RoundCents(WithMargin(cost, 0.0)) == cost
  {
  }

  lemma MarginGrows(cost: real, m: real, n: real)
    requires cost > 0.0 && m <= n
    ensures RoundCents(WithMargin(cost, m)) <= RoundCents(WithMargin(cost, n))
  {
    var d := n - m;
    assert WithMargin(cost, n) == WithMargin(cost, m) + cost * d;
    RoundMonotone(WithMargin(cost, m), WithMargin(cost, n));
  }

  predicate OnPreferred(bb: BuyerBrief, t: Terms) {
    t.tier == bb.preferredTier && t.deadline == bb.preferredDeadline
  }

  /** The buyer has just proposed `want`: its preferred terms, within its guard. */
  ghost predicate BuyerSpoke(bb: BuyerBrief, transcript: seq<Turn>, want: Terms) {
    && |transcript| >= 2 && |transcript| % 2 == 0
    && Proposes(transcript[|transcript| - 1], Buyer) && transcript[|transcript| - 1].move.terms == want
    && OnPreferred(bb, want) && BuyerMaySettle(want, bb.guard)
  }

  lemma LastSpoken(transcript: seq<Turn>, turn: Turn)
    ensures turn.side == Seller ==> LastCounterpartyMove(transcript + [turn], Buyer) == Some(turn.move)
    ensures turn.side == Buyer ==> LastCounterpartyMove(transcript + [turn], Seller) == Some(turn.move)
    ensures turn.side == Seller ==> MyLastPrice(transcript + [turn]) == MyLastPrice(transcript)
    ensures Proposes(turn, turn.side) ==> OnTable(transcript + [turn], turn.side) == Some(turn.move.terms)
    ensures OnTable(transcript + [turn], Other(turn.side)) == OnTable(transcript, Other(turn.side))
  {
    assert (transcript + [turn])[..|transcript|] == transcript;
  }

  /** What both sides read off a transcript that ends with the buyer's proposal. */
  lemma AfterBuyer(bb: BuyerBrief, transcript: seq<Turn>, want: Terms, counter: Terms)
    requires BuyerSpoke(bb, transcript, want)
    ensures LastCounterpartyMove(transcript, Seller) == Some(transcript[|transcript| - 1].move)
    ensures OnTable(transcript, Buyer) == Some(want) && MyLastPrice(transcript) == Some(want.price)
    ensures var said := transcript + [Turn(Seller, Counter(counter))];
            && LastCounterpartyMove(said, Buyer) == Some(Counter(counter))
            && MyLastPrice(said) == Some(want.price) && OnTable(said, Seller) == Some(counter)
  {
    LastSpoken(transcript, Turn(Seller, Counter(counter)));
  }

  /** The seller's answer: it takes a price at or above its floor, and else counters at or above a floor of its own. */
  lemma SellerAnswer(sb: SellerBrief, bb: BuyerBrief, cfg: Config, s: PublicState, want: Terms)
    requires Ready(sb, bb, cfg) && OnPreferred(bb, want) && BuyerMaySettle(want, bb.guard)
    ensures GuardOk(SellerReply(sb, s, want), Seller, cfg)
    ensures want.price >= PreferredFloor(sb, bb) ==> SellerReply(sb, s, want) == Accept(want)
    ensures want.price < PreferredFloor(sb, bb) ==>
              && SellerReply(sb, s, want).Counter?
              && GoodCounter(sb, bb, s, want, SellerReply(sb, s, want).terms)
  {
    hide AskFor, WholeCents, RoundCents, ProjectedReach, PriceTrajectory, FloorFor, CostFor, Step, Share;
    FloorFacts(sb, bb, cfg, bb.preferredTier, bb.preferredDeadline);
    FloorFacts(sb, bb, cfg, Quick, bb.preferredDeadline);
    var ask := AskFor(sb.scan, want.tier, want.deadline, sb.econ);
    RoundIsWhole(Step(ask, PreferredFloor(sb, bb), Share(sb.step, s.round)));
    WholeIsItsRound(want.price);
  }

  lemma WholeIsItsRound(x: real)
    ensures WholeCents(x) <==> RoundCents(x) == x
  {
  }

  /** A counter on the preferred terms, or in the last round a quick tier the buyer's own price covers. */
  predicate GoodCounter(sb: SellerBrief, bb: BuyerBrief, s: PublicState, want: Terms, counter: Terms) {
    && counter.deadline == bb.preferredDeadline && WholeCents(counter.price) && counter.price > 0.0
    && if counter.tier == bb.preferredTier then
         counter.price >= PreferredFloor(sb, bb) && (s.round >= s.maxRounds ==> counter.price == PreferredFloor(sb, bb))
       else
         MayDowngrade(sb, bb) && s.round >= s.maxRounds && counter.tier == Quick && counter.price <= want.price
  }

  /** The buyer's answer to a counter. */
  lemma BuyerAnswer(sb: SellerBrief, bb: BuyerBrief, cfg: Config, s: PublicState, want: Terms, counter: Terms)
    requires Ready(sb, bb, cfg) && OnPreferred(bb, want) && BuyerMaySettle(want, bb.guard) && WholeCents(counter.price)
    ensures GuardOk(BuyerReply(bb, s, counter, want.price), Buyer, cfg)
    ensures BuyerReply(bb, s, counter, want.price).Accept? ==> BuyerMaySettle(counter, bb.guard)
    ensures s.round >= s.maxRounds ==>
              (if BuyerMaySettle(counter, bb.guard) then BuyerReply(bb, s, counter, want.price).Accept?
               else BuyerReply(bb, s, counter, want.price) == Reject)
    ensures s.round < s.maxRounds && !BuyerReply(bb, s, counter, want.price).Accept? ==>
              && BuyerReply(bb, s, counter, want.price).Counter?
              && OnPreferred(bb, BuyerReply(bb, s, counter, want.price).terms)
  {
    hide WholeCents, RoundCents, Step;
    var budget := bb.guard.budget;
    var next := Step(want.price, budget, bb.concessionRate);
    Between(want.price, budget, bb.concessionRate);
    RoundIsWhole(next);
    RoundMonotone(want.price, next);
    RoundMonotone(next, budget);
    WholeIsItsRound(want.price);
    WholeIsItsRound(budget);
    WholeIsItsRound(counter.price);
  }

  lemma Between(a: real, b: real, rate: real)
    requires a <= b && 0.0 <= rate <= 1.0
    ensures a <= Step(a, b, rate) <= b
  {
    var d := b - a;
    assert d - d * rate == d * (1.0 - rate);
    assert 0.0 <= d * rate && 0.0 <= d * (1.0 - rate);
  }

  /** The deterministic pair from turn `turn` on. */
  function Pair(sb: SellerBrief, bb: BuyerBrief, cfg: Config, transcript: seq<Turn>): Result {
    Negotiate(DeterministicSeller(sb), DeterministicBuyer(bb), cfg, |transcript|, transcript)
  }

  /** One seller turn after a buyer's proposal. */
  lemma SellerTurn(sb: SellerBrief, bb: BuyerBrief, cfg: Config, transcript: seq<Turn>, want: Terms)
    requires Ready(sb, bb, cfg) && BuyerSpoke(bb, transcript, want) && |transcript| < MaxTurns(cfg)
    ensures var move := SellerReply(sb, StateAt(transcript, |transcript|, cfg), want);
            if move.Accept? then Pair(sb, bb, cfg, transcript).agreed == Some(want)
            else move.Counter? && Pair(sb, bb, cfg, transcript) == Pair(sb, bb, cfg, transcript + [Turn(Seller, move)])
  {
    var s := StateAt(transcript, |transcript|, cfg);
    SellerAnswer(sb, bb, cfg, s, want);
    AfterBuyer(bb, transcript, want, want);
    var move := SellerReply(sb, s, want);
    assert SellerMove(sb, s) == move;
    hide SellerReply, SellerMove, BuyerMaySettle, SellerMaySettle, PreferredFloor, Negotiate, OnTable, MyLastPrice, LastCounterpartyMove;
    LastSpoken(transcript, Turn(Seller, move));
    OneTurn(DeterministicSeller(sb), DeterministicBuyer(bb), cfg, transcript, move);
    if move.Accept? {
      WantSettles(sb, bb, cfg, want);
    }
  }

  lemma WantSettles(sb: SellerBrief, bb: BuyerBrief, cfg: Config, want: Terms)
    requires Ready(sb, bb, cfg) && OnPreferred(bb, want) && BuyerMaySettle(want, bb.guard) && want.price >= PreferredFloor(sb, bb)
    ensures SellerMaySettle(want, cfg.sellerGuard) && BuyerMaySettle(want, cfg.buyerGuard)
  {
  }

  lemma SpokenAgain(bb: BuyerBrief, said: seq<Turn>, move: Move)
    requires |said| % 2 == 1 && move.Counter? && OnPreferred(bb, move.terms) && BuyerMaySettle(move.terms, bb.guard)
    ensures BuyerSpoke(bb, said + [Turn(Buyer, move)], move.terms)
  {
  }

  /** What the buyer says after a seller's counter, and that its own guard lets it pass. */
  lemma BuyerSays(sb: SellerBrief, bb: BuyerBrief, cfg: Config, transcript: seq<Turn>, want: Terms, counter: Terms, said: seq<Turn>)
    requires Ready(sb, bb, cfg) && BuyerSpoke(bb, transcript, want) && |transcript| + 1 < MaxTurns(cfg)
    requires said == transcript + [Turn(Seller, Counter(counter))] && WholeCents(counter.price)
    ensures BuyerMove(bb, StateAt(said, |said|, cfg)) == BuyerReply(bb, StateAt(said, |said|, cfg), counter, want.price)
    ensures GuardOk(BuyerReply(bb, StateAt(said, |said|, cfg), counter, want.price), Buyer, cfg)
    ensures OnTable(said, Seller) == Some(counter) && SideAt(|said|) == Buyer
  {
    hide BuyerReply, BuyerOpening, GuardOk, BuyerMaySettle, WholeCents, OnTable, LastCounterpartyMove, MyLastPrice, CostFor, FloorFor;
    BuyerAnswer(sb, bb, cfg, StateAt(said, |said|, cfg), want, counter);
    AfterBuyer(bb, transcript, want, counter);
  }

  /** One buyer turn after a seller's counter. */
  lemma BuyerTurn(sb: SellerBrief, bb: BuyerBrief, cfg: Config, transcript: seq<Turn>, want: Terms, counter: Terms, said: seq<Turn>, move: Move)
    requires Ready(sb, bb, cfg) && BuyerSpoke(bb, transcript, want) && |transcript| + 1 < MaxTurns(cfg)
    requires said == transcript + [Turn(Seller, Counter(counter))] && SellerMaySettle(counter, sb.guard)
    requires move == BuyerReply(bb, StateAt(said, |said|, cfg), counter, want.price)
    ensures move.Accept? ==> Pair(sb, bb, cfg, said).agreed == Some(counter)
    ensures move.Reject? ==> Pair(sb, bb, cfg, said).agreed == None
    ensures move.Counter? ==> BuyerSpoke(bb, said + [Turn(Buyer, move)], move.terms)
                              && Pair(sb, bb, cfg, said) == Pair(sb, bb, cfg, said + [Turn(Buyer, move)])
  {
    BuyerSays(sb, bb, cfg, transcript, want, counter, said);
    BuyerAnswer(sb, bb, cfg, StateAt(said, |said|, cfg), want, counter);
    hide BuyerReply, BuyerMove, BuyerMaySettle, SellerMaySettle, Negotiate, OnTable, BuyerSpoke;
    if move.Counter? {
      SpokenAgain(bb, said, move);
    }
    LastSpoken(said, Turn(Buyer, move));
    OneTurn(DeterministicSeller(sb), DeterministicBuyer(bb), cfg, said, move);
  }

  /** A guarded move of either side: a rejection ends it, an acceptance closes, a proposal goes on. */
  lemma OneTurn(seller: Policy, buyer: Policy, cfg: Config, transcript: seq<Turn>, move: Move)
    requires |transcript| < MaxTurns(cfg) && GuardOk(move, SideAt(|transcript|), cfg)
    requires Ask(seller, buyer, SideAt(|transcript|), StateAt(transcript, |transcript|, cfg)) == Some(move)
    ensures var said := transcript + [Turn(SideAt(|transcript|), move)];
            var r := Negotiate(seller, buyer, cfg, |transcript|, transcript);
            match move
            case Reject => r.agreed == None
            case Accept(_) => r == CloseOn(said, SideAt(|transcript|), cfg, |transcript| + 1)
            case _ => r == Negotiate(seller, buyer, cfg, |said|, said)
  {
  }

  // ---------------------------------------------------------------------
  // When they agree
  // ---------------------------------------------------------------------

  function AnchorAsk(sb: SellerBrief): Terms {
    Terms(sb.anchorTier, sb.anchorDeadline, AskFor(sb.scan, sb.anchorTier, sb.anchorDeadline, sb.econ))
  }

  /** The buyer's price after `k` concessions: it opens low and moves toward its budget. */
  function BuyerPrice(sb: SellerBrief, bb: BuyerBrief, k: nat): real {
    if k == 0 then RoundCents(MinReal(bb.guard.budget, Discounted(AnchorAsk(sb).price, bb.openDiscount)))
    else RoundCents(Step(BuyerPrice(sb, bb, k - 1), bb.guard.budget, bb.concessionRate))
  }

  /** How far the seller expects the buyer to come after `k` concessions. */
  function Reach(sb: SellerBrief, bb: BuyerBrief, k: nat): real {
    var p := BuyerPrice(sb, bb, k);
    if k == 0 then p
    else
      var prev := BuyerPrice(sb, bb, k - 1);
      RoundCents(p + if p - prev > 0.0 then p - prev else 0.0)
  }

  /** Concessions the buyer makes before the seller's last round. */
  function Concessions(cfg: Config): int {
    (MaxTurns(cfg) + 1) / 2 - 2
  }

  /** The last turn is the seller's, so nobody answers its last counter. */
  predicate SellerEnds(cfg: Config) {
    MaxTurns(cfg) % 2 == 1
  }

  /** The talk ends on a quick offer: the buyer's last price covers the quick floor and seems out of reach of its own. */
  predicate QuickComes(sb: SellerBrief, bb: BuyerBrief, cfg: Config)
    requires Concessions(cfg) >= 0
  {
    var k := Concessions(cfg);
    && MayDowngrade(sb, bb)
    && sb.guard.floor(Quick, bb.preferredDeadline) <= BuyerPrice(sb, bb, k) < PreferredFloor(sb, bb)
    && Reach(sb, bb, k) < PreferredFloor(sb, bb)
  }

  predicate Agrees(sb: SellerBrief, bb: BuyerBrief, cfg: Config)
    requires Concessions(cfg) >= 0
  {
    if SellerEnds(cfg) then PreferredFloor(sb, bb) <= BuyerPrice(sb, bb, Concessions(cfg))
    else if QuickComes(sb, bb, cfg) then TakesQuick(bb)
    else PreferredFloor(sb, bb) <= bb.guard.budget
  }

  /** The buyer's price never falls and never passes its budget. */
  lemma {:induction false} PriceRises(sb: SellerBrief, bb: BuyerBrief, cfg: Config, j: nat, k: nat)
    requires Ready(sb, bb, cfg) && j <= k
    ensures BuyerPrice(sb, bb, j) <= BuyerPrice(sb, bb, k) <= bb.guard.budget
    ensures WholeCents(BuyerPrice(sb, bb, k))
  {
    hide RoundCents, Step, WholeCents, AnchorAsk, Discounted;
    var budget := bb.guard.budget;
    WholeIsItsRound(budget);
    if k == 0 {
      var first := MinReal(budget, Discounted(AnchorAsk(sb).price, bb.openDiscount));
      RoundMonotone(first, budget);
      RoundIsWhole(first);
    } else {
      PriceRises(sb, bb, cfg, if j < k then j else k - 1, k - 1);
      var prev := BuyerPrice(sb, bb, k - 1);
      var next := Step(prev, budget, bb.concessionRate);
      Between(prev, budget, bb.concessionRate);
      RoundMonotone(prev, next);
      RoundMonotone(next, budget);
      RoundIsWhole(next);
      WholeIsItsRound(prev);
    }
  }

  /** The buyer has proposed after each of its `k` concessions, and the seller heard those prices. */
  ghost predicate Heard(sb: SellerBrief, bb: BuyerBrief, transcript: seq<Turn>, want: Terms, k: nat) {
    var prices := PriceTrajectory(transcript, Buyer);
    && BuyerSpoke(bb, transcript, want) && |transcript| == 2 * k + 2
    && want.price == BuyerPrice(sb, bb, k)
    && |prices| == k + 1 && prices[k] == want.price && (k > 0 ==> prices[k - 1] == BuyerPrice(sb, bb, k - 1))
  }

  lemma HeardReach(sb: SellerBrief, bb: BuyerBrief, transcript: seq<Turn>, want: Terms, k: nat)
    requires Heard(sb, bb, transcript, want, k)
    ensures ProjectedReach(PriceTrajectory(transcript, Buyer)) == Some(Reach(sb, bb, k))
  {
    hide RoundCents, BuyerPrice, PriceTrajectory, BuyerSpoke;
  }

  lemma HeardAgain(sb: SellerBrief, bb: BuyerBrief, transcript: seq<Turn>, want: Terms, k: nat, counter: Move, answer: Move)
    requires Heard(sb, bb, transcript, want, k) && counter.Counter? && answer.Counter?
    requires answer.terms.price == BuyerPrice(sb, bb, k + 1)
    requires BuyerSpoke(bb, transcript + [Turn(Seller, counter)] + [Turn(Buyer, answer)], answer.terms)
    ensures Heard(sb, bb, transcript + [Turn(Seller, counter)] + [Turn(Buyer, answer)], answer.terms, k + 1)
  {
    hide BuyerPrice, BuyerSpoke;
    var said := transcript + [Turn(Seller, counter)];
    var again := said + [Turn(Buyer, answer)];
    assert said[..|transcript|] == transcript && again[..|said|] == said;
    assert PriceTrajectory(again, Buyer) == PriceTrajectory(transcript, Buyer) + [answer.terms.price];
  }

  /** The seller's last word, and whether the buyer takes it. */
  lemma LastRound(sb: SellerBrief, bb: BuyerBrief, cfg: Config, s: PublicState, s2: PublicState, want: Terms)
    requires Ready(sb, bb, cfg) && OnPreferred(bb, want) && BuyerMaySettle(want, bb.guard)
    requires s.round >= s.maxRounds && s2.round >= s2.maxRounds && want.price < PreferredFloor(sb, bb)
    requires !SellerEnds(cfg) && Concessions(cfg) >= 0 && want.price == BuyerPrice(sb, bb, Concessions(cfg))
    requires ProjectedReach(PriceTrajectory(s.transcript, Buyer)) == Some(Reach(sb, bb, Concessions(cfg)))
    ensures SellerReply(sb, s, want).Counter?
    ensures BuyerReply(bb, s2, SellerReply(sb, s, want).terms, want.price).Accept? <==> Agrees(sb, bb, cfg)
    ensures var answer := BuyerReply(bb, s2, SellerReply(sb, s, want).terms, want.price); answer.Accept? || answer.Reject?
  {
    hide RoundCents, AskFor, Step, BuyerPrice, Reach, ProjectedReach, PriceTrajectory, CostFor, FloorFor;
    var counter := LastOffer(sb, s.transcript, want, PreferredFloor(sb, bb));
    FloorFacts(sb, bb, cfg, bb.preferredTier, bb.preferredDeadline);
    FloorFacts(sb, bb, cfg, Quick, bb.preferredDeadline);
    BuyerAnswer(sb, bb, cfg, s2, want, counter);
  }

  /** A buyer that answers a counter on its own terms before the last round either takes it or comes one step closer. */
  lemma MiddleRound(sb: SellerBrief, bb: BuyerBrief, cfg: Config, s2: PublicState, want: Terms, counter: Terms, k: nat)
    requires Ready(sb, bb, cfg) && s2.round < s2.maxRounds && want.price == BuyerPrice(sb, bb, k)
    requires counter.tier == bb.preferredTier && counter.price >= PreferredFloor(sb, bb)
    ensures var answer := BuyerReply(bb, s2, counter, want.price);
            && !answer.Reject? && (answer.Accept? ==> PreferredFloor(sb, bb) <= BuyerPrice(sb, bb, k + 1))
            && (answer.Counter? ==> answer.terms.price == BuyerPrice(sb, bb, k + 1))
  {
  }

  lemma TimeIsUp(sb: SellerBrief, bb: BuyerBrief, cfg: Config, transcript: seq<Turn>)
    requires |transcript| >= MaxTurns(cfg)
    ensures Pair(sb, bb, cfg, transcript).agreed == None
  {
  }

  /** The seller's last counter: its guard lets it pass, and its price is out of the buyer's own. */
  lemma LastCounter(sb: SellerBrief, bb: BuyerBrief, cfg: Config, transcript: seq<Turn>, want: Terms)
    requires Ready(sb, bb, cfg) && Concessions(cfg) >= 0 && Heard(sb, bb, transcript, want, Concessions(cfg))
    requires SellerReply(sb, StateAt(transcript, |transcript|, cfg), want).Counter?
    ensures var s, counter := StateAt(transcript, |transcript|, cfg), SellerReply(sb, StateAt(transcript, |transcript|, cfg), want).terms;
            && s.round >= s.maxRounds && s.transcript == transcript && |transcript| + 1 == 2 * Concessions(cfg) + 3
            && BuyerSpoke(bb, transcript, want) && OnPreferred(bb, want) && BuyerMaySettle(want, bb.guard)
            && want.price == BuyerPrice(sb, bb, Concessions(cfg)) && want.price < PreferredFloor(sb, bb)
            && SellerMaySettle(counter, sb.guard)
  {
    SellerAnswer(sb, bb, cfg, StateAt(transcript, |transcript|, cfg), want);
    hide SellerReply, BuyerMaySettle, BuyerPrice, PriceTrajectory;
  }

  /** Unanswered when the seller ends the talk, else taken or not. */
  lemma LastAnswer(sb: SellerBrief, bb: BuyerBrief, cfg: Config, transcript: seq<Turn>, want: Terms, reply: Move)
    requires Ready(sb, bb, cfg) && Concessions(cfg) >= 0 && Heard(sb, bb, transcript, want, Concessions(cfg))
    requires reply == SellerReply(sb, StateAt(transcript, |transcript|, cfg), want) && reply.Counter?
    ensures Pair(sb, bb, cfg, transcript + [Turn(Seller, reply)]).agreed.Some? <==> Agrees(sb, bb, cfg)
  {
    hide SellerReply, BuyerReply, Heard, BuyerSpoke, BuyerMaySettle, SellerMaySettle, BuyerPrice, Reach, ProjectedReach, PriceTrajectory, QuickComes, Pair, Ready;
    var s, said := StateAt(transcript, |transcript|, cfg), transcript + [Turn(Seller, reply)];
    LastCounter(sb, bb, cfg, transcript, want);
    if SellerEnds(cfg) {
      TimeIsUp(sb, bb, cfg, said);
    } else {
      hide Agrees;
      var s2 := StateAt(said, |said|, cfg);
      BuyerTurn(sb, bb, cfg, transcript, want, reply.terms, said, BuyerReply(bb, s2, reply.terms, want.price));
      HeardReach(sb, bb, transcript, want, Concessions(cfg));
      LastRound(sb, bb, cfg, s, s2, want);
    }
  }

  /** From any buyer proposal on, the pair agrees exactly when `Agrees` says. */
  lemma {:induction false} PairFromProposal(sb: SellerBrief, bb: BuyerBrief, cfg: Config, transcript: seq<Turn>, want: Terms, k: nat)
    requires Ready(sb, bb, cfg) && Heard(sb, bb, transcript, want, k) && k <= Concessions(cfg)
    ensures Pair(sb, bb, cfg, transcript).agreed.Some? <==> Agrees(sb, bb, cfg)
    decreases Concessions(cfg) - k
  {
    hide RoundCents, Step, ProjectedReach, PriceTrajectory, CostFor, AskFor, FloorFor, WholeCents, Reach;
    var s := StateAt(transcript, |transcript|, cfg);
    var reply := SellerReply(sb, s, want);
    SellerTurn(sb, bb, cfg, transcript, want);
    SellerAnswer(sb, bb, cfg, s, want);
    PriceRises(sb, bb, cfg, k, Concessions(cfg));
    hide SellerReply, BuyerReply, Pair, BuyerPrice;
    if reply.Counter? && k == Concessions(cfg) {
      LastAnswer(sb, bb, cfg, transcript, want, reply);
    } else if reply.Counter? {
      var said := transcript + [Turn(Seller, reply)];
      var s2 := StateAt(said, |said|, cfg);
      var answer := BuyerReply(bb, s2, reply.terms, want.price);
      BuyerTurn(sb, bb, cfg, transcript, want, reply.terms, said, answer);
      MiddleRound(sb, bb, cfg, s2, want, reply.terms, k);
      PriceRises(sb, bb, cfg, k + 1, Concessions(cfg));
      hide Heard, BuyerSpoke, StateAt;
      if answer.Counter? {
        HeardAgain(sb, bb, transcript, want, k, reply, answer);
        PairFromProposal(sb, bb, cfg, said + [Turn(Buyer, answer)], answer.terms, k + 1);
      }
    }
  }

  lemma Opening(sb: SellerBrief, bb: BuyerBrief, cfg: Config)
    requires Ready(sb, bb, cfg)
    ensures var ask := AnchorAsk(sb);
            var said := [Turn(Seller, Offer(ask))];
            Pair(sb, bb, cfg, []) == Pair(sb, bb, cfg, said)
            && match BuyerOpening(bb, ask)
               case Offer(want) => BuyerSpoke(bb, said + [Turn(Buyer, Offer(want))], want)
                                   && Pair(sb, bb, cfg, said) == Pair(sb, bb, cfg, said + [Turn(Buyer, Offer(want))])
               case _ => Pair(sb, bb, cfg, said).agreed == None
  {
    var ask := AnchorAsk(sb);
    FloorFacts(sb, bb, cfg, sb.anchorTier, sb.anchorDeadline);
    var none: seq<Turn> := [];
    var said := [Turn(Seller, Offer(ask))];
    assert none + said == said;
    hide Negotiate, AskFor, WholeCents, RoundCents;
    OneTurn(DeterministicSeller(sb), DeterministicBuyer(bb), cfg, none, Offer(ask));
    LastSpoken(none, Turn(Seller, Offer(ask)));
    OneTurn(DeterministicSeller(sb), DeterministicBuyer(bb), cfg, said, BuyerOpening(bb, ask));
  }

  /** The buyer opens exactly when its first price is positive. */
  lemma OpensExactly(sb: SellerBrief, bb: BuyerBrief, cfg: Config)
    requires Ready(sb, bb, cfg)
    ensures BuyerOpening(bb, AnchorAsk(sb)) ==
            if BuyerPrice(sb, bb, 0) > 0.0 then Offer(Terms(bb.preferredTier, bb.preferredDeadline, BuyerPrice(sb, bb, 0))) else Reject
  {
    hide RoundCents, Discounted, AnchorAsk;
    var price := MinReal(bb.guard.budget, Discounted(AnchorAsk(sb).price, bb.openDiscount));
    RoundIsWhole(price);
    RoundMonotone(price, bb.guard.budget);
    WholeIsItsRound(bb.guard.budget);
  }

  /** A buyer with a budget that opens at half the ask or more opens at a positive price. */
  lemma HalfAskOpens(sb: SellerBrief, bb: BuyerBrief, cfg: Config)
    requires Ready(sb, bb, cfg) && bb.openDiscount <= 0.5
    ensures BuyerPrice(sb, bb, 0) > 0.0 <==> bb.guard.budget > 0.0
  {
    FloorFacts(sb, bb, cfg, sb.anchorTier, sb.anchorDeadline);
    HalfIsLeft(AnchorAsk(sb).price, bb.openDiscount);
    PriceRises(sb, bb, cfg, 0, 0);
    hide RoundCents, Discounted, AnchorAsk;
    if bb.guard.budget > 0.0 {
      WholeAtLeastOneCent(bb.guard.budget);
      RoundPositive(MinReal(bb.guard.budget, Discounted(AnchorAsk(sb).price, bb.openDiscount)));
    }
  }

  lemma HalfIsLeft(price: real, discount: real)
    requires price > 0.0 && discount <= 0.5
    ensures Discounted(price, discount) >= price * 0.5
  {
    var spare := 0.5 - discount;
    assert price * spare >= 0.0;
    assert Discounted(price, discount) == price * (0.5 + spare) == price * 0.5 + price * spare;
  }

  lemma OpeningHeard(sb: SellerBrief, bb: BuyerBrief, want: Terms)
    requires BuyerOpening(bb, AnchorAsk(sb)) == Offer(want)
    requires BuyerSpoke(bb, [Turn(Seller, Offer(AnchorAsk(sb)))] + [Turn(Buyer, Offer(want))], want)
    ensures Heard(sb, bb, [Turn(Seller, Offer(AnchorAsk(sb)))] + [Turn(Buyer, Offer(want))], want, 0)
  {
    var said := [Turn(Seller, Offer(AnchorAsk(sb)))];
    var start := said + [Turn(Buyer, Offer(want))];
    assert start[..1] == said && said[..0] == [];
    assert PriceTrajectory(said, Buyer) == [];
  }

  /**
   When the deterministic pair agrees, for every number of turns. The buyer must open at a
   positive price and the seller must be asked again. If the last turn is the seller's, the
   buyer's last price must have come up to the floor of its preferred terms. Else, if the talk
   ends on a quick offer, the buyer must take quick; else its budget must reach that floor.
   The deal lies between its own floor and the budget.
   */
  lemma PairAgreesExactly(sb: SellerBrief, bb: BuyerBrief, cfg: Config)
    requires Ready(sb, bb, cfg)
    ensures var r := Negotiate(DeterministicSeller(sb), DeterministicBuyer(bb), cfg, 0, []);
            && (r.agreed.Some? <==>
                && BuyerPrice(sb, bb, 0) > 0.0 && MaxTurns(cfg) > 2
                && if SellerEnds(cfg) then PreferredFloor(sb, bb) <= BuyerPrice(sb, bb, Concessions(cfg))
                   else if QuickComes(sb, bb, cfg) then TakesQuick(bb)
                   else PreferredFloor(sb, bb) <= bb.guard.budget)
            && (r.agreed.Some? ==> sb.guard.floor(r.agreed.value.tier, r.agreed.value.deadline) <= r.agreed.value.price <= bb.guard.budget)
  {
    var ask := AnchorAsk(sb);
    var said := [Turn(Seller, Offer(ask))];
    FloorFacts(sb, bb, cfg, sb.anchorTier, sb.anchorDeadline);
    OpensExactly(sb, bb, cfg);
    Opening(sb, bb, cfg);
    NegotiationIsSafe(DeterministicSeller(sb), DeterministicBuyer(bb), cfg, 0, []);
    hide AskFor, RoundCents, BuyerPrice, BuyerOpening, Negotiate, QuickComes, Agrees;
    if BuyerPrice(sb, bb, 0) > 0.0 {
      var want := BuyerOpening(bb, ask).terms;
      if MaxTurns(cfg) > 2 {
        OpeningHeard(sb, bb, want);
        PairFromProposal(sb, bb, cfg, said + [Turn(Buyer, Offer(want))], want, 0);
        AgreesIs(sb, bb, cfg);
      } else {
        TimeIsUp(sb, bb, cfg, said + [Turn(Buyer, Offer(want))]);
      }
    }
  }

  lemma AgreesIs(sb: SellerBrief, bb: BuyerBrief, cfg: Config)
    requires Concessions(cfg) >= 0
    ensures Agrees(sb, bb, cfg) <==>
            if SellerEnds(cfg) then PreferredFloor(sb, bb) <= BuyerPrice(sb, bb, Concessions(cfg))
            else if QuickComes(sb, bb, cfg) then TakesQuick(bb)
            else PreferredFloor(sb, bb) <= bb.guard.budget
  {
  }

  /** The buyer answers last, after a counter, and opens at half the ask or more. */
  ghost predicate BuyerAnswersLast(sb: SellerBrief, bb: BuyerBrief, cfg: Config) {
    Ready(sb, bb, cfg) && MaxTurns(cfg) > 2 && !SellerEnds(cfg) && bb.openDiscount <= 0.5
  }

  /**
   So, when the buyer answers last, the pair always agrees when the budget reaches the floor
   of the preferred terms and a quick offer would be welcome or cannot come; where none can
   come, exactly then.
   */
  lemma DeterministicPairAgrees(sb: SellerBrief, bb: BuyerBrief, cfg: Config)
    requires BuyerAnswersLast(sb, bb, cfg)
    ensures var r := Negotiate(DeterministicSeller(sb), DeterministicBuyer(bb), cfg, 0, []);
            && (PreferredFloor(sb, bb) <= bb.guard.budget && (MayDowngrade(sb, bb) ==> TakesQuick(bb)) ==> r.agreed.Some?)
            && (!MayDowngrade(sb, bb) ==> (r.agreed.Some? <==> PreferredFloor(sb, bb) <= bb.guard.budget))
            && (r.agreed.Some? ==> sb.guard.floor(r.agreed.value.tier, r.agreed.value.deadline) <= r.agreed.value.price <= bb.guard.budget)
  {
    PairAgreesExactly(sb, bb, cfg);
    HalfAskOpens(sb, bb, cfg);
    FloorFacts(sb, bb, cfg, bb.preferredTier, bb.preferredDeadline);
    hide BuyerPrice, Reach, Negotiate, AskFor;
  }

  // ---------------------------------------------------------------------
  // The unwelcome quick offer
  // ---------------------------------------------------------------------

  function SellerGuardFor(scan: ScanFacts, tiers: set<Tier>, deadlines: set<Deadline>, econ: Economics): SellerGuard {
    SellerGuard(tiers, deadlines, (t, d) => FloorFor(scan, t, d, econ))
  }

  const DEFAULT_ECONOMICS := Economics(1.0, 0.25, 1.5, 0.15, 0.6)

  function SmallDesk(): SellerBrief {
    var scan := ScanFacts(1.0, 10.0);
    SellerBrief(scan, SellerGuardFor(scan, {Quick, Deep}, {Standard}, DEFAULT_ECONOMICS), DEFAULT_ECONOMICS, 0.34, Deep, Standard)
  }

  /** A buyer who can pay the deep floor to the cent, and wants nothing but the deep tier. */
  function DeepOnlyBuyer(): BuyerBrief {
    BuyerBrief(BuyerGuard({Quick, Deep}, {Standard}, 11.5, {Deep}), Deep, Standard, 0.35, 0.5)
  }

  function ShortTalk(): Config {
    Config(4, SmallDesk().guard, DeepOnlyBuyer().guard)
  }

  lemma CentsOf(x: real, cents: int)
    requires cents as real <= x * 100.0 + 0.5 < cents as real + 1.0
    ensures RoundCents(x) == cents as real / 100.0
  {
    FloorUnique(x * 100.0 + 0.5, cents);
  }

  lemma SmallDeskPrices()
    ensures var b := SmallDesk();
            && CostFor(b.scan, Deep, Standard, b.econ) == 10.0 && CostFor(b.scan, Quick, Standard, b.econ) == 1.25
            && CostFor(b.scan, Deep, Rush, b.econ) == 15.0 && CostFor(b.scan, Quick, Rush, b.econ) == 1.88
            && AskFor(b.scan, Deep, Standard, b.econ) == 16.0
            && b.guard.floor(Deep, Standard) == 11.5 && b.guard.floor(Quick, Standard) == 1.44
  {
    CentsOf(10.0, 1000);
    CentsOf(1.25, 125);
    CentsOf(15.0, 1500);
    CentsOf(1.875, 188);
    CentsOf(16.0, 1600);
    CentsOf(11.5, 1150);
    CentsOf(1.4375, 144);
    FloorUnique(-1.0, -1);
    assert Ceiling(1.0) == 1;
    var b := SmallDesk();
    assert BasePrice(b.scan, Quick, b.econ) == 1.25;
    assert WithRush(1.25, Rush, b.econ) == 1.875 && WithRush(10.0, Rush, b.econ) == 15.0;
    assert WithMargin(10.0, 0.15) == 11.5 && WithMargin(1.25, 0.15) == 1.4375 && WithMargin(10.0, 0.6) == 16.0;
  }

  /** When a buyer who can pay but will not take quick answers last, the talk fails exactly when it ends on a quick offer. */
  lemma UnwelcomeQuickOffer(sb: SellerBrief, bb: BuyerBrief, cfg: Config)
    requires BuyerAnswersLast(sb, bb, cfg) && PreferredFloor(sb, bb) <= bb.guard.budget && !TakesQuick(bb)
    ensures Negotiate(DeterministicSeller(sb), DeterministicBuyer(bb), cfg, 0, []).agreed == None <==> QuickComes(sb, bb, cfg)
  {
    PairAgreesExactly(sb, bb, cfg);
    HalfAskOpens(sb, bb, cfg);
    FloorFacts(sb, bb, cfg, bb.preferredTier, bb.preferredDeadline);
    hide BuyerPrice, Reach, Negotiate, AskFor;
  }

  /** And that happens: this buyer can pay the deep floor to the cent. */
  lemma UnwelcomeQuickOfferWalks()
    ensures Ready(SmallDesk(), DeepOnlyBuyer(), ShortTalk())
    ensures PreferredFloor(SmallDesk(), DeepOnlyBuyer()) == DeepOnlyBuyer().guard.budget
    ensures Negotiate(DeterministicSeller(SmallDesk()), DeterministicBuyer(DeepOnlyBuyer()), ShortTalk(), 0, []).agreed == None
  {
    var sb, bb, cfg := SmallDesk(), DeepOnlyBuyer(), ShortTalk();
    SmallDeskPrices();
    CentsOf(11.5, 1150);
    CentsOf(10.4, 1040);
    forall t, d ensures CostFor(sb.scan, t, d, sb.econ) > 0.0 {
      assert (t == Deep || t == Quick) && (d == Standard || d == Rush);
    }
    assert Ready(sb, bb, cfg);
    assert Discounted(16.0, 0.35) == 10.4;
    assert BuyerPrice(sb, bb, 0) == 10.4;
    UnwelcomeQuickOffer(sb, bb, cfg);
  }
}
