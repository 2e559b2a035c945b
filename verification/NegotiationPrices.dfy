/** What the deterministic pair agrees on: its prices turn by turn, and the terms of the deal. */
module NegotiationPrices {
  import opened Collections
  import opened Money
  import opened Negotiation
  import opened NegotiationPolicies

  // ---------------------------------------------------------------------
  // Cost, floor and ask
  // ---------------------------------------------------------------------

  /** `n` thousand lines, begun ones counting as whole. */
  predicate ThousandsBegun(kloc: real, n: int) {
    n as real - 1.0 < kloc <= n as real
  }

  /** A quick audit costs its base and so much per thousand lines begun; a rush multiplies; margins are added; all to half a cent. */
  lemma PricesExactly(scan: ScanFacts, tier: Tier, deadline: Deadline, econ: Economics, n: int)
    requires ThousandsBegun(scan.kloc, n)
    ensures var base := BasePrice(scan, tier, econ);
            if tier == Deep then base == scan.deepPrice
            else -0.005 <= base - (econ.quickBase + econ.quickPerKloc * n as real) <= 0.005
    ensures var due := BasePrice(scan, tier, econ) * if deadline == Rush then econ.rushMultiplier else 1.0;
            -0.005 <= CostFor(scan, tier, deadline, econ) - due <= 0.005
    ensures var cost := CostFor(scan, tier, deadline, econ);
            && -0.005 <= FloorFor(scan, tier, deadline, econ) - cost * (1.0 + econ.minMarginPct) <= 0.005
            && -0.005 <= AskFor(scan, tier, deadline, econ) - cost * (1.0 + econ.listMarginPct) <= 0.005
  {
    CeilingIs(scan.kloc, n);
    RoundsNear(econ.quickBase + econ.quickPerKloc * n as real);
    RoundsNear(WithRush(BasePrice(scan, tier, econ), deadline, econ));
    RoundsNear(WithMargin(CostFor(scan, tier, deadline, econ), econ.minMarginPct));
    RoundsNear(WithMargin(CostFor(scan, tier, deadline, econ), econ.listMarginPct));
    hide RoundCents, Ceiling;
  }

  lemma CeilingIs(x: real, n: int)
    requires ThousandsBegun(x, n)
    ensures Ceiling(x) == n
  {
    FloorUnique(-x, -n);
  }

  // ---------------------------------------------------------------------
  // The seller's counters
  // ---------------------------------------------------------------------

  function PreferredAsk(sb: SellerBrief, bb: BuyerBrief): real {
    AskFor(sb.scan, bb.preferredTier, bb.preferredDeadline, sb.econ)
  }

  /** The seller's counter on the buyer's preferred terms in a round before the last. */
  function CounterPrice(sb: SellerBrief, bb: BuyerBrief, round: nat): real {
    Conceded(sb, Terms(bb.preferredTier, bb.preferredDeadline, 0.0), PreferredFloor(sb, bb), round)
  }

  /** Where the counter would be without rounding or a floor: the ask, less `step` of the gap per round. */
  function IdealCounter(sb: SellerBrief, bb: BuyerBrief, round: nat): real {
    PreferredAsk(sb, bb) - (PreferredAsk(sb, bb) - PreferredFloor(sb, bb)) * (sb.step * round as real)
  }

  lemma RoundsNear(x: real)
    ensures -0.005 <= RoundCents(x) - x <= 0.005
  {
    RoundNear(x * 100.0);
  }

  /** A counter is in whole cents: the ideal one to half a cent where that is at the floor or above, else the floor. */
  lemma CounterExactly(sb: SellerBrief, bb: BuyerBrief, cfg: Config, round: nat)
    requires Ready(sb, bb, cfg)
    ensures var price, ideal, floor := CounterPrice(sb, bb, round), IdealCounter(sb, bb, round), PreferredFloor(sb, bb);
            && WholeCents(price) && price >= floor
            && (ideal >= floor ==> ideal - 0.005 <= price <= ideal + 0.005)
            && (ideal <= floor ==> price == floor)
  {
    FloorFacts(sb, bb, cfg, bb.preferredTier, bb.preferredDeadline);
    CounterIs(sb, bb, round);
    hide RoundCents, WholeCents, PreferredFloor, CounterPrice, IdealCounter, Ready;
    FlooredExactly(IdealCounter(sb, bb, round), PreferredFloor(sb, bb));
  }

  lemma CounterIs(sb: SellerBrief, bb: BuyerBrief, round: nat)
    ensures CounterPrice(sb, bb, round) == MaxReal(PreferredFloor(sb, bb), RoundCents(IdealCounter(sb, bb, round)))
  {
    hide RoundCents, AskFor, PreferredFloor, Step, Share, IdealCounter;
    IdealIs(sb, bb, round);
  }

  lemma IdealIs(sb: SellerBrief, bb: BuyerBrief, round: nat)
    ensures IdealCounter(sb, bb, round) == Step(PreferredAsk(sb, bb), PreferredFloor(sb, bb), Share(sb.step, round))
  {
    hide AskFor, PreferredFloor, PreferredAsk, Step, Share;
    StepsDown(PreferredAsk(sb, bb), PreferredFloor(sb, bb), sb.step, round);
  }

  lemma FlooredExactly(ideal: real, floor: real)
    requires WholeCents(floor)
    ensures var price := MaxReal(floor, RoundCents(ideal));
            && WholeCents(price) && price >= floor
            && (ideal >= floor ==> ideal - 0.005 <= price <= ideal + 0.005)
            && (ideal <= floor ==> price == floor)
  {
    hide RoundCents, WholeCents;
    RoundIsWhole(ideal);
    RoundsNear(ideal);
    WholeIsItsRound(floor);
    if ideal >= floor { RoundMonotone(floor, ideal); }
    if ideal <= floor { RoundMonotone(ideal, floor); }
  }

  lemma StepsDown(ask: real, floor: real, step: real, round: nat)
    ensures Step(ask, floor, Share(step, round)) == ask - (ask - floor) * (step * round as real)
  {
    var share := step * round as real;
    assert (floor - ask) * share == -((ask - floor) * share);
  }

  /** The counters of a seller that concedes start at the ask and never rise. */
  lemma CountersFall(sb: SellerBrief, bb: BuyerBrief, cfg: Config, round: nat, later: nat)
    requires Ready(sb, bb, cfg) && sb.step >= 0.0 && round <= later
    ensures CounterPrice(sb, bb, later) <= CounterPrice(sb, bb, round) <= CounterPrice(sb, bb, 0) == PreferredAsk(sb, bb)
  {
    FloorFacts(sb, bb, cfg, bb.preferredTier, bb.preferredDeadline);
    hide RoundCents, WholeCents, AskFor, FloorFor, CostFor;
    var ask, floor := PreferredAsk(sb, bb), PreferredFloor(sb, bb);
    WholeIsItsRound(ask);
    FurtherDown(ask, floor, sb.step, 0, round);
    FurtherDown(ask, floor, sb.step, round, later);
    RoundMonotone(Step(ask, floor, Share(sb.step, round)), Step(ask, floor, Share(sb.step, 0)));
    RoundMonotone(Step(ask, floor, Share(sb.step, later)), Step(ask, floor, Share(sb.step, round)));
    assert Step(ask, floor, Share(sb.step, 0)) == ask;
  }

  lemma FurtherDown(ask: real, floor: real, step: real, round: nat, later: nat)
    requires floor <= ask && step >= 0.0 && round <= later
    ensures Step(ask, floor, Share(step, later)) <= Step(ask, floor, Share(step, round))
  {
    var more := (later - round) as real * step;
    assert Share(step, later) == Share(step, round) + more && more >= 0.0;
    assert (ask - floor) * more >= 0.0;
    assert Step(ask, floor, Share(step, later)) == Step(ask, floor, Share(step, round)) - (ask - floor) * more;
  }

  // ---------------------------------------------------------------------
  // The buyer's prices
  // ---------------------------------------------------------------------

  /** The buyer opens at the discounted ask or its budget, and each time comes `concessionRate` of the way to its budget, to half a cent. */
  lemma BuyerPriceExactly(sb: SellerBrief, bb: BuyerBrief, k: nat)
    ensures var opening := MinReal(bb.guard.budget, AnchorAsk(sb).price * (1.0 - bb.openDiscount));
            opening - 0.005 <= BuyerPrice(sb, bb, 0) <= opening + 0.005
    ensures var p := BuyerPrice(sb, bb, k);
            var next := p + (bb.guard.budget - p) * bb.concessionRate;
            next - 0.005 <= BuyerPrice(sb, bb, k + 1) <= next + 0.005
  {
    hide RoundCents, AnchorAsk;
    RoundsNear(MinReal(bb.guard.budget, Discounted(AnchorAsk(sb).price, bb.openDiscount)));
    StepNear(BuyerPrice(sb, bb, k), bb.guard.budget, bb.concessionRate);
  }

  lemma StepNear(start: real, end: real, rate: real)
    ensures var next := start + (end - start) * rate; next - 0.005 <= RoundCents(Step(start, end, rate)) <= next + 0.005
  {
    hide RoundCents;
    RoundsNear(Step(start, end, rate));
  }

  lemma WholeSum(a: real, b: real)
    requires WholeCents(a) && WholeCents(b)
    ensures RoundCents(a + (b - a)) == b && RoundCents(a + (a - b)) == a + (a - b)
  {
    var i, j := Round(a * 100.0), Round(b * 100.0);
    assert a == i as real / 100.0 && b == j as real / 100.0;
    assert (a + (a - b)) * 100.0 == (2 * i - j) as real;
    RoundOfInt(2 * i - j);
  }

  /** The seller expects the buyer's last rise once more. */
  lemma ReachExactly(sb: SellerBrief, bb: BuyerBrief, cfg: Config, k: nat)
    requires Ready(sb, bb, cfg)
    ensures Reach(sb, bb, k) == BuyerPrice(sb, bb, k) + if k == 0 then 0.0 else BuyerPrice(sb, bb, k) - BuyerPrice(sb, bb, k - 1)
  {
    if k > 0 {
      PriceRises(sb, bb, cfg, k - 1, k);
      PriceRises(sb, bb, cfg, k - 1, k - 1);
      hide BuyerPrice, RoundCents, WholeCents;
      WholeSum(BuyerPrice(sb, bb, k), BuyerPrice(sb, bb, k - 1));
      WholeIsItsRound(BuyerPrice(sb, bb, k));
    }
  }

  // ---------------------------------------------------------------------
  // The deal
  // ---------------------------------------------------------------------

  /** The buyer's price is at the floor of its preferred terms. */
  predicate ReachesFloor(sb: SellerBrief, bb: BuyerBrief, k: nat) {
    PreferredFloor(sb, bb) <= BuyerPrice(sb, bb, k)
  }

  /** The seller's answer to the buyer's price number `k` is covered by the buyer's next price. */
  predicate TakesCounter(sb: SellerBrief, bb: BuyerBrief, cfg: Config, k: nat) {
    k < Concessions(cfg) && CounterPrice(sb, bb, k + 2) <= BuyerPrice(sb, bb, k + 1)
  }

  predicate ClosesAt(sb: SellerBrief, bb: BuyerBrief, cfg: Config, k: nat) {
    k <= Concessions(cfg) && (ReachesFloor(sb, bb, k) || TakesCounter(sb, bb, cfg, k))
  }

  /** The deal that closes there: the buyer's own price when it reaches the floor, else the seller's counter. */
  function DealAt(sb: SellerBrief, bb: BuyerBrief, k: nat): Terms {
    Terms(bb.preferredTier, bb.preferredDeadline, if ReachesFloor(sb, bb, k) then BuyerPrice(sb, bb, k) else CounterPrice(sb, bb, k + 2))
  }

  /** The deal on the seller's last offer: none when nobody answers it, else quick or the floor, if the buyer takes it. */
  function LastDeal(sb: SellerBrief, bb: BuyerBrief, cfg: Config): Option<Terms>
    requires Concessions(cfg) >= 0
  {
    if SellerEnds(cfg) then None
    else if QuickComes(sb, bb, cfg) then
      (if TakesQuick(bb) then Some(Terms(Quick, bb.preferredDeadline, sb.guard.floor(Quick, bb.preferredDeadline))) else None)
    else if PreferredFloor(sb, bb) <= bb.guard.budget then Some(Terms(bb.preferredTier, bb.preferredDeadline, PreferredFloor(sb, bb)))
    else None
  }

  /** The deal from the buyer's price number `k` on. */
  function DealFrom(sb: SellerBrief, bb: BuyerBrief, cfg: Config, k: nat): Option<Terms>
    requires k <= Concessions(cfg)
    decreases Concessions(cfg) - k
  {
    if ClosesAt(sb, bb, cfg, k) then Some(DealAt(sb, bb, k))
    else if k == Concessions(cfg) then LastDeal(sb, bb, cfg)
    else DealFrom(sb, bb, cfg, k + 1)
  }

  /** Before the last round the seller counters with `CounterPrice`. */
  lemma EarlyReply(sb: SellerBrief, bb: BuyerBrief, s: PublicState, want: Terms)
    requires OnPreferred(bb, want) && want.price < PreferredFloor(sb, bb) && s.round < s.maxRounds
    ensures SellerReply(sb, s, want) == Counter(Terms(bb.preferredTier, bb.preferredDeadline, CounterPrice(sb, bb, s.round)))
  {
    hide Step, Share, AskFor, RoundCents;
  }

  /** The buyer takes such a counter exactly when its next price covers it, and else names that price. */
  lemma EarlyAnswer(sb: SellerBrief, bb: BuyerBrief, cfg: Config, s: PublicState, mine: real, price: real, k: nat)
    requires Ready(sb, bb, cfg) && s.round < s.maxRounds && mine == BuyerPrice(sb, bb, k)
    requires WholeCents(price) && price >= PreferredFloor(sb, bb)
    ensures var counter := Terms(bb.preferredTier, bb.preferredDeadline, price);
            BuyerReply(bb, s, counter, mine) ==
            if price <= BuyerPrice(sb, bb, k + 1) then Accept(counter)
            else Counter(Terms(bb.preferredTier, bb.preferredDeadline, BuyerPrice(sb, bb, k + 1)))
  {
    FloorFacts(sb, bb, cfg, bb.preferredTier, bb.preferredDeadline);
    PriceRises(sb, bb, cfg, k, k + 1);
    WholeIsItsRound(price);
    hide RoundCents, WholeCents, Step, FloorFor, CostFor, AskFor, PreferredFloor;
    assert BuyerPrice(sb, bb, k + 1) == RoundCents(Step(mine, bb.guard.budget, bb.concessionRate));
  }

  /** The terms of the seller's last offer. */
  lemma LastOfferIs(sb: SellerBrief, bb: BuyerBrief, cfg: Config, s: PublicState, want: Terms)
    requires Ready(sb, bb, cfg) && OnPreferred(bb, want) && want.price < PreferredFloor(sb, bb)
    requires s.round >= s.maxRounds && Concessions(cfg) >= 0 && want.price == BuyerPrice(sb, bb, Concessions(cfg))
    requires ProjectedReach(PriceTrajectory(s.transcript, Buyer)) == Some(Reach(sb, bb, Concessions(cfg)))
    ensures SellerReply(sb, s, want) ==
            Counter(if QuickComes(sb, bb, cfg) then Terms(Quick, bb.preferredDeadline, sb.guard.floor(Quick, bb.preferredDeadline))
                    else Terms(bb.preferredTier, bb.preferredDeadline, PreferredFloor(sb, bb)))
  {
    hide Reach, ProjectedReach, PriceTrajectory, BuyerPrice, RoundCents, FloorFor, CostFor;
  }

  /** The buyer's last answer: it takes what its guard lets it settle. */
  lemma LastAnswerIs(sb: SellerBrief, bb: BuyerBrief, cfg: Config, s: PublicState, want: Terms, offer: Terms)
    requires Ready(sb, bb, cfg) && OnPreferred(bb, want) && BuyerMaySettle(want, bb.guard) && s.round >= s.maxRounds
    requires WholeCents(offer.price)
    ensures if BuyerMaySettle(offer, bb.guard) then BuyerReply(bb, s, offer, want.price).Accept?
            else BuyerReply(bb, s, offer, want.price) == Reject
  {
    BuyerAnswer(sb, bb, cfg, s, want, offer);
    hide BuyerReply, BuyerMaySettle, Ready;
  }

  /** Which of the last offers the buyer's guard lets it settle. */
  lemma LastOfferSettles(sb: SellerBrief, bb: BuyerBrief, cfg: Config)
    requires Ready(sb, bb, cfg) && Concessions(cfg) >= 0
    ensures WholeCents(sb.guard.floor(Quick, bb.preferredDeadline)) && WholeCents(PreferredFloor(sb, bb))
    ensures BuyerMaySettle(Terms(bb.preferredTier, bb.preferredDeadline, PreferredFloor(sb, bb)), bb.guard) <==> PreferredFloor(sb, bb) <= bb.guard.budget
    ensures QuickComes(sb, bb, cfg) ==>
              (BuyerMaySettle(Terms(Quick, bb.preferredDeadline, sb.guard.floor(Quick, bb.preferredDeadline)), bb.guard) <==> TakesQuick(bb))
  {
    FloorFacts(sb, bb, cfg, bb.preferredTier, bb.preferredDeadline);
    FloorFacts(sb, bb, cfg, Quick, bb.preferredDeadline);
    PriceRises(sb, bb, cfg, 0, Concessions(cfg));
    hide WholeCents, FloorFor, CostFor, AskFor, Reach, BuyerPrice;
  }

  function LastOfferTerms(sb: SellerBrief, bb: BuyerBrief, cfg: Config): Terms
    requires Concessions(cfg) >= 0
  {
    if QuickComes(sb, bb, cfg) then Terms(Quick, bb.preferredDeadline, sb.guard.floor(Quick, bb.preferredDeadline))
    else Terms(bb.preferredTier, bb.preferredDeadline, PreferredFloor(sb, bb))
  }

  lemma LastDealIs(sb: SellerBrief, bb: BuyerBrief, cfg: Config)
    requires Ready(sb, bb, cfg) && Concessions(cfg) >= 0 && !SellerEnds(cfg)
    ensures WholeCents(LastOfferTerms(sb, bb, cfg).price)
    ensures LastDeal(sb, bb, cfg) == if BuyerMaySettle(LastOfferTerms(sb, bb, cfg), bb.guard) then Some(LastOfferTerms(sb, bb, cfg)) else None
  {
    LastOfferSettles(sb, bb, cfg);
    hide QuickComes, TakesQuick, BuyerMaySettle, WholeCents, PreferredFloor, Ready;
  }

  /** The last round: the offer, and the buyer's answer to it, if it is asked. */
  lemma LastRoundDeal(sb: SellerBrief, bb: BuyerBrief, cfg: Config, transcript: seq<Turn>, want: Terms)
    requires Ready(sb, bb, cfg) && Concessions(cfg) >= 0 && Heard(sb, bb, transcript, want, Concessions(cfg))
    requires SellerReply(sb, StateAt(transcript, |transcript|, cfg), want).Counter?
    ensures Pair(sb, bb, cfg, transcript + [Turn(Seller, SellerReply(sb, StateAt(transcript, |transcript|, cfg), want))]).agreed == LastDeal(sb, bb, cfg)
  {
    var reply := SellerReply(sb, StateAt(transcript, |transcript|, cfg), want);
    LastCounterIs(sb, bb, cfg, transcript, want);
    hide SellerReply, StateAt, Heard, BuyerSpoke, BuyerMaySettle, SellerMaySettle, LastOfferTerms, Pair, Ready, WholeCents, MaxTurns, PriceTrajectory, BuyerPrice;
    if SellerEnds(cfg) {
      TimeIsUp(sb, bb, cfg, transcript + [Turn(Seller, reply)]);
    } else {
      LastDealIs(sb, bb, cfg);
      hide LastDeal;
      LastAnswered(sb, bb, cfg, transcript, want, LastOfferTerms(sb, bb, cfg));
    }
  }

  lemma LastCounterIs(sb: SellerBrief, bb: BuyerBrief, cfg: Config, transcript: seq<Turn>, want: Terms)
    requires Ready(sb, bb, cfg) && Concessions(cfg) >= 0 && Heard(sb, bb, transcript, want, Concessions(cfg))
    requires SellerReply(sb, StateAt(transcript, |transcript|, cfg), want).Counter?
    ensures SellerReply(sb, StateAt(transcript, |transcript|, cfg), want) == Counter(LastOfferTerms(sb, bb, cfg))
    ensures SellerMaySettle(LastOfferTerms(sb, bb, cfg), sb.guard) && BuyerSpoke(bb, transcript, want)
    ensures |transcript| + 1 == if SellerEnds(cfg) then MaxTurns(cfg) else MaxTurns(cfg) - 1
  {
    hide SellerReply, Heard, BuyerSpoke, BuyerMaySettle, SellerMaySettle, BuyerPrice, Reach, ProjectedReach, PriceTrajectory, QuickComes, Ready, PreferredFloor;
    LastCounter(sb, bb, cfg, transcript, want);
    HeardReach(sb, bb, transcript, want, Concessions(cfg));
    LastOfferIs(sb, bb, cfg, StateAt(transcript, |transcript|, cfg), want);
  }

  lemma LastAnswered(sb: SellerBrief, bb: BuyerBrief, cfg: Config, transcript: seq<Turn>, want: Terms, offer: Terms)
    requires Ready(sb, bb, cfg) && BuyerSpoke(bb, transcript, want) && |transcript| + 1 == MaxTurns(cfg) - 1 && !SellerEnds(cfg)
    requires SellerMaySettle(offer, sb.guard) && WholeCents(offer.price)
    ensures Pair(sb, bb, cfg, transcript + [Turn(Seller, Counter(offer))]).agreed == if BuyerMaySettle(offer, bb.guard) then Some(offer) else None
  {
    var said := transcript + [Turn(Seller, Counter(offer))];
    var s2 := StateAt(said, |said|, cfg);
    SpokenWant(bb, transcript, want);
    hide BuyerReply, BuyerSpoke, BuyerMaySettle, SellerMaySettle, Pair, Ready, WholeCents;
    LastAnswerIs(sb, bb, cfg, s2, want, offer);
    BuyerTurn(sb, bb, cfg, transcript, want, offer, said, BuyerReply(bb, s2, offer, want.price));
  }

  lemma SpokenWant(bb: BuyerBrief, transcript: seq<Turn>, want: Terms)
    requires BuyerSpoke(bb, transcript, want)
    ensures OnPreferred(bb, want) && BuyerMaySettle(want, bb.guard)
  {
  }

  /** The seller's turn: it takes a price at its floor, and else counters. */
  lemma SellerFirst(sb: SellerBrief, bb: BuyerBrief, cfg: Config, transcript: seq<Turn>, want: Terms, k: nat)
    requires Ready(sb, bb, cfg) && Heard(sb, bb, transcript, want, k) && k <= Concessions(cfg)
    ensures var reply := SellerReply(sb, StateAt(transcript, |transcript|, cfg), want);
            if ReachesFloor(sb, bb, k) then Pair(sb, bb, cfg, transcript).agreed == Some(DealAt(sb, bb, k))
            else reply.Counter? && Pair(sb, bb, cfg, transcript) == Pair(sb, bb, cfg, transcript + [Turn(Seller, reply)])
  {
    HeardIs(sb, bb, transcript, want, k);
    hide Heard, BuyerSpoke, SellerReply, Pair, BuyerPrice, CounterPrice, BuyerMaySettle, PreferredFloor;
    SellerTurn(sb, bb, cfg, transcript, want);
    SellerAnswer(sb, bb, cfg, StateAt(transcript, |transcript|, cfg), want);
  }

  lemma {:induction false} PairDealFrom(sb: SellerBrief, bb: BuyerBrief, cfg: Config, transcript: seq<Turn>, want: Terms, k: nat)
    requires Ready(sb, bb, cfg) && Heard(sb, bb, transcript, want, k) && k <= Concessions(cfg)
    ensures Pair(sb, bb, cfg, transcript).agreed == DealFrom(sb, bb, cfg, k)
    decreases Concessions(cfg) - k
  {
    hide Heard, Ready, SellerReply, Pair, BuyerPrice, ReachesFloor, DealAt, LastDeal, StateAt;
    var reply := SellerReply(sb, StateAt(transcript, |transcript|, cfg), want);
    SellerFirst(sb, bb, cfg, transcript, want, k);
    if !ReachesFloor(sb, bb, k) {
      if k == Concessions(cfg) {
        LastRoundDeal(sb, bb, cfg, transcript, want);
      } else {
        MiddleDeal(sb, bb, cfg, transcript, want, k);
        hide TakesCounter;
        if !TakesCounter(sb, bb, cfg, k) {
          var next := Terms(bb.preferredTier, bb.preferredDeadline, BuyerPrice(sb, bb, k + 1));
          PairDealFrom(sb, bb, cfg, transcript + [Turn(Seller, reply)] + [Turn(Buyer, Counter(next))], next, k + 1);
        }
      }
    }
  }

  /** A round before the last that the seller does not close. */
  lemma MiddleDeal(sb: SellerBrief, bb: BuyerBrief, cfg: Config, transcript: seq<Turn>, want: Terms, k: nat)
    requires Ready(sb, bb, cfg) && Heard(sb, bb, transcript, want, k) && k < Concessions(cfg) && !ReachesFloor(sb, bb, k)
    ensures var reply := SellerReply(sb, StateAt(transcript, |transcript|, cfg), want);
            var said := transcript + [Turn(Seller, reply)];
            var next := Terms(bb.preferredTier, bb.preferredDeadline, BuyerPrice(sb, bb, k + 1));
            var again := said + [Turn(Buyer, Counter(next))];
            if TakesCounter(sb, bb, cfg, k) then Pair(sb, bb, cfg, said).agreed == Some(DealAt(sb, bb, k))
            else Heard(sb, bb, again, next, k + 1) && Pair(sb, bb, cfg, said) == Pair(sb, bb, cfg, again)
  {
    var s := StateAt(transcript, |transcript|, cfg);
    HeardIs(sb, bb, transcript, want, k);
    EarlyReply(sb, bb, s, want);
    SellerAnswer(sb, bb, cfg, s, want);
    CounterExactly(sb, bb, cfg, s.round);
    hide SellerReply, BuyerReply, Heard, BuyerSpoke, BuyerMaySettle, CounterPrice, BuyerPrice, Pair, Ready, WholeCents, IdealCounter, PreferredFloor;
    var price := CounterPrice(sb, bb, k + 2);
    var counter := Terms(bb.preferredTier, bb.preferredDeadline, price);
    var said := transcript + [Turn(Seller, Counter(counter))];
    var s2 := StateAt(said, |said|, cfg);
    EarlyAnswer(sb, bb, cfg, s2, want.price, price, k);
    var answer := BuyerReply(bb, s2, counter, want.price);
    BuyerTurn(sb, bb, cfg, transcript, want, counter, said, answer);
    if !TakesCounter(sb, bb, cfg, k) {
      HeardAgain(sb, bb, transcript, want, k, Counter(counter), answer);
    }
  }

  lemma HeardIs(sb: SellerBrief, bb: BuyerBrief, transcript: seq<Turn>, want: Terms, k: nat)
    requires Heard(sb, bb, transcript, want, k)
    ensures BuyerSpoke(bb, transcript, want) && OnPreferred(bb, want) && BuyerMaySettle(want, bb.guard)
    ensures want.price == BuyerPrice(sb, bb, k) && |transcript| == 2 * k + 2
  {
    hide BuyerPrice, PriceTrajectory, BuyerMaySettle;
  }

  // ---------------------------------------------------------------------
  // The first close
  // ---------------------------------------------------------------------

  ghost predicate FirstClose(sb: SellerBrief, bb: BuyerBrief, cfg: Config, k: nat) {
    ClosesAt(sb, bb, cfg, k) && forall j: nat :: j < k ==> !ClosesAt(sb, bb, cfg, j)
  }

  lemma {:induction false} DealIsFirst(sb: SellerBrief, bb: BuyerBrief, cfg: Config, k: nat, first: nat)
    requires k <= Concessions(cfg) && forall j: nat :: j < k ==> !ClosesAt(sb, bb, cfg, j)
    ensures FirstClose(sb, bb, cfg, first) ==> DealFrom(sb, bb, cfg, k) == Some(DealAt(sb, bb, first))
    ensures (forall j: nat :: !ClosesAt(sb, bb, cfg, j)) ==> DealFrom(sb, bb, cfg, k) == LastDeal(sb, bb, cfg)
    decreases Concessions(cfg) - k
  {
    hide DealAt, LastDeal, ReachesFloor, TakesCounter;
    if !ClosesAt(sb, bb, cfg, k) && k < Concessions(cfg) {
      DealIsFirst(sb, bb, cfg, k + 1, first);
    }
  }

  /**
   The terms of the deal, for every number of turns. The first time the buyer's price reaches
   the floor, the deal is at that price; the first time its next price covers the seller's
   counter, at the counter, whichever comes first; failing both, on the last offer.
   */
  lemma DealExactly(sb: SellerBrief, bb: BuyerBrief, cfg: Config, first: nat)
    requires Ready(sb, bb, cfg) && BuyerPrice(sb, bb, 0) > 0.0 && MaxTurns(cfg) > 2
    ensures var r := Negotiate(DeterministicSeller(sb), DeterministicBuyer(bb), cfg, 0, []);
            && (FirstClose(sb, bb, cfg, first) ==> r.agreed == Some(DealAt(sb, bb, first)))
            && ((forall j: nat :: !ClosesAt(sb, bb, cfg, j)) ==> r.agreed == LastDeal(sb, bb, cfg))
  {
    var ask := AnchorAsk(sb);
    var said := [Turn(Seller, Offer(ask))];
    OpensExactly(sb, bb, cfg);
    Opening(sb, bb, cfg);
    hide AskFor, RoundCents, BuyerPrice, BuyerOpening, Negotiate, FirstClose, ClosesAt, DealAt, LastDeal, DealFrom, Ready;
    var want := BuyerOpening(bb, ask).terms;
    OpeningHeard(sb, bb, want);
    PairDealFrom(sb, bb, cfg, said + [Turn(Buyer, Offer(want))], want, 0);
    DealIsFirst(sb, bb, cfg, 0, first);
  }
}
