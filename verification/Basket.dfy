/** Basket selection and risk allocation: a greedy choice under three caps, then a shared
    stop-risk budget that can only shrink it. */
module Basket {
  import opened Common

  // ---------------------------------------------------------------- data

  /** The plan of one leg; `shares` is false for anything but a plain share purchase. */
  datatype Plan = Plan(symbol: string, shares: bool, quantity: int, limit: real, stop: Option<real>, cash: real)

  /** What the trade planner returns for a candidate: a positive quantity at a positive
      price, and for shares the cash that costs. */
  predicate Planned(p: Plan) {
    p.quantity > 0 && p.limit > 0.0 && p.cash >= 0.0 && (p.shares ==> p.cash == p.quantity as real * p.limit)
  }

  /** A ranked candidate with the planner's answer for it. */
  datatype Candidate = Candidate(symbol: string, sector: string, plan: Option<Plan>)

  predicate Answered(c: Candidate) {
    c.plan.Some? ==> Planned(c.plan.value) && c.plan.value.symbol == c.symbol
  }

  datatype Why = SectorFull | NoLeg | CashCap | NotShares | NoStop | BelowMinimum | OneShareTooRisky | NoBudget | UnsupportedMode

  datatype Rejection = Rejection(symbol: string, why: Why)

  datatype Config = Config(
    enabled: bool,
    cashFraction: real,
    maxSize: int,
    sectorCap: int,
    riskEnabled: bool,
    riskFraction: real,
    equalRisk: bool,
    minLegRisk: real)

  function CashBudget(cfg: Config, deployable: real): real {
    deployable * cfg.cashFraction
  }

  function RiskBudget(cfg: Config, equity: real): real {
    equity * cfg.riskFraction
  }

  // ---------------------------------------------------------------- the greedy choice

  datatype Choice = Choice(
    plans: seq<Plan>,
    selected: seq<Candidate>,
    rejected: seq<Rejection>,
    sectors: map<string, int>,
    total: real)

  const NothingYet: Choice := Choice([], [], [], map[], 0.0)

  function SectorOf(c: Candidate): string {
    if c.sector == "" then "UNKNOWN" else c.sector
  }

  function InSector(sectors: map<string, int>, sector: string): int {
    if sector in sectors then sectors[sector] else 0
  }

  /** Why the next candidate does not join, if it does not. */
  function Obstacle(cfg: Config, cap: real, s: Choice, c: Candidate): Option<Why> {
    if InSector(s.sectors, SectorOf(c)) >= cfg.sectorCap then Some(SectorFull)
    else if c.plan.None? then Some(NoLeg)
    else if s.total + c.plan.value.cash > cap then Some(CashCap)
    else None
  }

  function Consider(cfg: Config, cap: real, s: Choice, c: Candidate): Choice {
    if |s.plans| >= cfg.maxSize then s
    else
      match Obstacle(cfg, cap, s, c)
      case Some(why) => s.(rejected := s.rejected + [Rejection(c.symbol, why)])
      case None =>
        if c.plan.None? then s
        else Choice(s.plans + [c.plan.value], s.selected + [c], s.rejected,
                    s.sectors[SectorOf(c) := InSector(s.sectors, SectorOf(c)) + 1], s.total + c.plan.value.cash)
  }

  function Choose(cfg: Config, cap: real, ranked: seq<Candidate>): Choice {
    if |ranked| == 0 then NothingYet else Consider(cfg, cap, Choose(cfg, cap, Front(ranked)), Last(ranked))
  }

  method ChooseLegs(cfg: Config, cap: real, ranked: seq<Candidate>) returns (s: Choice)
    ensures s == Choose(cfg, cap, ranked)
  {
    var plans: seq<Plan> := [];
    var selected: seq<Candidate> := [];
    var rejected: seq<Rejection> := [];
    var sectors: map<string, int> := map[];
    var total := 0.0;
    for n := 0 to |ranked|
      invariant Choice(plans, selected, rejected, sectors, total) == Choose(cfg, cap, ranked[..n])
    {
      if |plans| >= cfg.maxSize {
        FullStays(cfg, cap, ranked, n, |ranked|);
        assert ranked[..|ranked|] == ranked;
        return Choice(plans, selected, rejected, sectors, total);
      }
      assert Front(ranked[..n + 1]) == ranked[..n];
      var candidate := ranked[n];
      var sector := if candidate.sector == "" then "UNKNOWN" else candidate.sector;
      if InSector(sectors, sector) >= cfg.sectorCap {
        rejected := rejected + [Rejection(candidate.symbol, SectorFull)];
        continue;
      }
      if candidate.plan.None? {
        rejected := rejected + [Rejection(candidate.symbol, NoLeg)];
        continue;
      }
      var plan := candidate.plan.value;
      if total + plan.cash > cap {
        rejected := rejected + [Rejection(candidate.symbol, CashCap)];
        continue;
      }
      plans := plans + [plan];
      selected := selected + [candidate];
      sectors := sectors[sector := InSector(sectors, sector) + 1];
      total := total + plan.cash;
    }
    assert ranked[..|ranked|] == ranked;
    s := Choice(plans, selected, rejected, sectors, total);
  }

  lemma {:induction false} FullStays(cfg: Config, cap: real, ranked: seq<Candidate>, n: nat, m: nat)
    requires n <= m <= |ranked| && |Choose(cfg, cap, ranked[..n]).plans| >= cfg.maxSize
    ensures Choose(cfg, cap, ranked[..m]) == Choose(cfg, cap, ranked[..n])
    decreases m - n
  {
    if n < m {
      FullStays(cfg, cap, ranked, n, m - 1);
      assert Front(ranked[..m]) == ranked[..m - 1];
    }
  }

  // ---------------------------------------------------------------- the caps

  function Cash(plans: seq<Plan>): real {
    if |plans| == 0 then 0.0 else Cash(Front(plans)) + Last(plans).cash
  }

  function CountSector(selected: seq<Candidate>, sector: string): nat {
    if |selected| == 0 then 0 else CountSector(Front(selected), sector) + if SectorOf(Last(selected)) == sector then 1 else 0
  }

  predicate SectorHolds(cfg: Config, s: Choice, sector: string) {
    && InSector(s.sectors, sector) == CountSector(s.selected, sector)
    && (CountSector(s.selected, sector) > 0 ==> CountSector(s.selected, sector) <= cfg.sectorCap)
  }

  ghost predicate WithinCaps(cfg: Config, cap: real, s: Choice) {
    && |s.plans| == |s.selected| && (|s.plans| > 0 ==> |s.plans| <= cfg.maxSize)
    && (forall i :: 0 <= i < |s.plans| ==> s.selected[i].plan == Some(s.plans[i]))
    && s.total == Cash(s.plans) && 0.0 <= s.total <= cap
    && (forall sector :: SectorHolds(cfg, s, sector))
  }

  predicate AllAnswered(ranked: seq<Candidate>) {
    forall i :: 0 <= i < |ranked| ==> Answered(ranked[i])
  }

  lemma ConsiderKeepsCaps(cfg: Config, cap: real, s: Choice, c: Candidate)
    requires WithinCaps(cfg, cap, s) && Answered(c)
    ensures WithinCaps(cfg, cap, Consider(cfg, cap, s, c))
  {
    assert c.plan.Some? ==> c.plan.value.cash >= 0.0;
    hide Planned, Answered, SectorOf;
    var t := Consider(cfg, cap, s, c);
    forall sector ensures SectorHolds(cfg, t, sector) {
      assert SectorHolds(cfg, s, sector);
      if |t.plans| > |s.plans| {
        SnocFront(s.selected, c);
      }
    }
    if |t.plans| > |s.plans| {
      SnocFront(s.plans, c.plan.value);
    }
  }

  /** The choice keeps every cap: cash, number of legs, and legs in each sector. */
  lemma {:induction false} ChoiceWithinCaps(cfg: Config, cap: real, ranked: seq<Candidate>)
    requires cap >= 0.0 && AllAnswered(ranked)
    ensures WithinCaps(cfg, cap, Choose(cfg, cap, ranked))
    decreases |ranked|
  {
    if |ranked| == 0 {
      forall sector ensures SectorHolds(cfg, NothingYet, sector) {
      }
    } else {
      assert forall i :: 0 <= i < |ranked| - 1 ==> Front(ranked)[i] == ranked[i];
      ChoiceWithinCaps(cfg, cap, Front(ranked));
      ConsiderKeepsCaps(cfg, cap, Choose(cfg, cap, Front(ranked)), Last(ranked));
    }
  }

  /** The candidate could still be added without breaking a cap. */
  predicate Fits(cfg: Config, cap: real, s: Choice, c: Candidate) {
    |s.plans| < cfg.maxSize && Obstacle(cfg, cap, s, c).None?
  }

  lemma RoomShrinks(cfg: Config, cap: real, s: Choice, c: Candidate, other: Candidate)
    requires Answered(c) && Fits(cfg, cap, Consider(cfg, cap, s, c), other)
    ensures Fits(cfg, cap, s, other)
  {
  }

  predicate Chosen(s: Choice, c: Candidate) {
    c in s.selected
  }

  /** The choice is maximal: no candidate that was left out could be added to it. */
  lemma {:induction false} ChoiceIsMaximal(cfg: Config, cap: real, ranked: seq<Candidate>, i: nat)
    requires AllAnswered(ranked) && i < |ranked|
    ensures Chosen(Choose(cfg, cap, ranked), ranked[i]) || !Fits(cfg, cap, Choose(cfg, cap, ranked), ranked[i])
    decreases |ranked|
  {
    var before, c := Choose(cfg, cap, Front(ranked)), Last(ranked);
    assert forall j :: 0 <= j < |ranked| - 1 ==> Front(ranked)[j] == ranked[j];
    if i < |ranked| - 1 {
      ChoiceIsMaximal(cfg, cap, Front(ranked), i);
      if Fits(cfg, cap, Choose(cfg, cap, ranked), ranked[i]) {
        RoomShrinks(cfg, cap, before, c, ranked[i]);
      }
    } else if Fits(cfg, cap, Choose(cfg, cap, ranked), c) {
      RoomShrinks(cfg, cap, before, c, c);
      assert Last(Choose(cfg, cap, ranked).selected) == c;
    }
  }

  /** Until the basket is full every candidate is accounted for: chosen or rejected. */
  lemma {:induction false} EveryoneAccountedFor(cfg: Config, cap: real, ranked: seq<Candidate>)
    ensures var s := Choose(cfg, cap, ranked);
            |s.plans| < cfg.maxSize ==> |s.selected| + |s.rejected| == |ranked|
    ensures |Choose(cfg, cap, ranked).plans| == |Choose(cfg, cap, ranked).selected|
    decreases |ranked|
  {
    if |ranked| > 0 {
      EveryoneAccountedFor(cfg, cap, Front(ranked));
    }
  }

  // ---------------------------------------------------------------- the risk budget

  function RiskPerShare(p: Plan): Option<real> {
    if p.limit <= 0.0 || p.stop.None? || p.stop.value <= 0.0 || p.stop.value >= p.limit then None
    else Some(p.limit - p.stop.value)
  }

  /** One leg under its share of the budget: shrunk, kept or rejected. */
  function AllocateLeg(cfg: Config, p: Plan, budget: real): Result<Plan, Why> {
    if !p.shares then Err(NotShares)
    else if RiskPerShare(p).None? then Err(NoStop)
    else if budget < cfg.minLegRisk then Err(BelowMinimum)
    else
      var affordable := (budget / RiskPerShare(p).value).Floor;
      if affordable <= 0 then Err(OneShareTooRisky)
      else if affordable < p.quantity then Ok(p.(quantity := affordable, cash := affordable as real * p.limit))
      else Ok(p)
  }

  function Kept(cfg: Config, plans: seq<Plan>, budget: real): seq<Plan> {
    if |plans| == 0 then []
    else
      var leg := AllocateLeg(cfg, Last(plans), budget);
      if leg.Ok? then Kept(cfg, Front(plans), budget) + [leg.value] else Kept(cfg, Front(plans), budget)
  }

  function Refused(cfg: Config, plans: seq<Plan>, budget: real): seq<Rejection> {
    if |plans| == 0 then []
    else
      var leg := AllocateLeg(cfg, Last(plans), budget);
      if leg.Ok? then Refused(cfg, Front(plans), budget)
      else Refused(cfg, Front(plans), budget) + [Rejection(Last(plans).symbol, leg.error)]
  }

  function MaxRisk(cfg: Config, equity: real): real {
    if RiskBudget(cfg, equity) > 0.0 then RiskBudget(cfg, equity) else 0.0
  }

  function AllRefused(plans: seq<Plan>, why: Why): seq<Rejection> {
    seq(|plans|, i requires 0 <= i < |plans| => Rejection(plans[i].symbol, why))
  }

  datatype Allocation = Allocation(plans: seq<Plan>, rejected: seq<Rejection>)

  function Allocate(cfg: Config, plans: seq<Plan>, equity: real): Allocation {
    if |plans| == 0 || !cfg.riskEnabled then Allocation(plans, [])
    else if equity <= 0.0 || MaxRisk(cfg, equity) <= 0.0 then Allocation([], AllRefused(plans, NoBudget))
    else if !cfg.equalRisk then Allocation([], AllRefused(plans, UnsupportedMode))
    else
      var budget := MaxRisk(cfg, equity) / |plans| as real;
      Allocation(Kept(cfg, plans, budget), Refused(cfg, plans, budget))
  }

  method AllocateRisk(cfg: Config, plans: seq<Plan>, equity: real) returns (adjusted: seq<Plan>, rejected: seq<Rejection>)
    ensures Allocation(adjusted, rejected) == Allocate(cfg, plans, equity)
  {
    if |plans| == 0 {
      return [], [];
    }
    var maxRisk := MaxRisk(cfg, equity);
    if !cfg.riskEnabled {
      return plans, [];
    }
    if equity <= 0.0 || maxRisk <= 0.0 {
      return [], AllRefused(plans, NoBudget);
    }
    if !cfg.equalRisk {
      return [], AllRefused(plans, UnsupportedMode);
    }
    var budget := maxRisk / |plans| as real;
    adjusted, rejected := [], [];
    for n := 0 to |plans|
      invariant adjusted == Kept(cfg, plans[..n], budget) && rejected == Refused(cfg, plans[..n], budget)
    {
      assert Front(plans[..n + 1]) == plans[..n];
      var leg := AllocateLeg(cfg, plans[n], budget);
      if leg.Err? {
        rejected := rejected + [Rejection(plans[n].symbol, leg.error)];
        continue;
      }
      adjusted := adjusted + [leg.value];
    }
    assert plans[..|plans|] == plans;
  }

  function LegRisk(p: Plan): real {
    if RiskPerShare(p).Some? then RiskPerShare(p).value * p.quantity as real else 0.0
  }

  function Risk(plans: seq<Plan>): real {
    if |plans| == 0 then 0.0 else Risk(Front(plans)) + LegRisk(Last(plans))
  }

  /** A kept leg stays within its share of the budget and within its plan, and is the
      largest such leg; it is refused only when no quantity would do. */
  lemma LegIsLargest(cfg: Config, p: Plan, budget: real)
    requires Planned(p)
    ensures var leg := AllocateLeg(cfg, p, budget);
            && (leg.Ok? ==>
                  && 1 <= leg.value.quantity <= p.quantity && leg.value == p.(quantity := leg.value.quantity, cash := leg.value.cash)
                  && leg.value.cash == leg.value.quantity as real * p.limit <= p.cash
                  && RiskPerShare(p).Some? && LegRisk(leg.value) <= budget
                  && (leg.value.quantity < p.quantity ==> RiskPerShare(p).value * (leg.value.quantity + 1) as real > budget))
            && (leg.Err? && leg.error == OneShareTooRisky ==> RiskPerShare(p).Some? && RiskPerShare(p).value > budget)
  {
    var leg := AllocateLeg(cfg, p, budget);
    if RiskPerShare(p).Some? {
      var risk := RiskPerShare(p).value;
      FloorFits(budget, risk);
      var affordable := (budget / risk).Floor;
      if leg.Ok? {
        ScaleReal(risk, leg.value.quantity as real, affordable as real);
        ScaleReal(p.limit, leg.value.quantity as real, p.quantity as real);
        if leg.value.quantity < p.quantity {
          AboveFloor(budget, risk, affordable + 1);
        }
      } else if leg.error == OneShareTooRisky {
        AboveFloor(budget, risk, 1);
      }
    }
  }

  /** What becomes of a leg, by its own numbers: refused unless it is a share purchase with a
      positive stop below a positive limit, its share of the budget reaches the minimum, and
      that pays for the risk of one share. The first of these that fails is the reason. */
  lemma LegExactly(cfg: Config, p: Plan, budget: real)
    ensures var (leg, stopped) := (AllocateLeg(cfg, p, budget), exists stop :: p.stop == Some(stop) && 0.0 < stop < p.limit);
            && (leg == Err(NotShares) <==> !p.shares)
            && (leg == Err(NoStop) <==> p.shares && !stopped)
            && (leg == Err(BelowMinimum) <==> p.shares && stopped && budget < cfg.minLegRisk)
            && (leg == Err(OneShareTooRisky) <==> p.shares && stopped && cfg.minLegRisk <= budget && budget < p.limit - p.stop.value)
            && (leg.Ok? <==> p.shares && stopped && cfg.minLegRisk <= budget && p.limit - p.stop.value <= budget)
  {
    if p.stop.Some? && 0.0 < p.stop.value < p.limit {
      var risk := p.limit - p.stop.value;
      FloorFits(budget, risk);
      if (budget / risk).Floor >= 1 {
        ScaleReal(risk, 1.0, (budget / risk).Floor as real);
      } else {
        AboveFloor(budget, risk, 1);
      }
    }
  }

  predicate AllPlanned(plans: seq<Plan>) {
    forall i :: 0 <= i < |plans| ==> Planned(plans[i])
  }

  /** The kept legs come from the plans in order: `from` gives each its plan. */
  ghost predicate KeptFrom(cfg: Config, plans: seq<Plan>, budget: real, from: seq<nat>) {
    && |from| == |Kept(cfg, plans, budget)| <= |plans|
    && (forall i :: 0 <= i < |from| ==> from[i] < |plans| && AllocateLeg(cfg, plans[from[i]], budget) == Ok(Kept(cfg, plans, budget)[i]))
    && (forall i, j :: 0 <= i < j < |from| ==> from[i] < from[j])
  }

  lemma {:induction false} KeptInOrder(cfg: Config, plans: seq<Plan>, budget: real) returns (from: seq<nat>)
    ensures KeptFrom(cfg, plans, budget, from)
    decreases |plans|
  {
    from := [];
    if |plans| > 0 {
      from := KeptInOrder(cfg, Front(plans), budget);
      assert forall i :: 0 <= i < |from| ==> Front(plans)[from[i]] == plans[from[i]];
      if AllocateLeg(cfg, Last(plans), budget).Ok? {
        from := from + [|plans| - 1];
      }
    }
  }

  lemma {:induction false} KeptWithinBudget(cfg: Config, plans: seq<Plan>, budget: real)
    requires AllPlanned(plans) && budget >= 0.0
    ensures Risk(Kept(cfg, plans, budget)) <= Allowance(budget, |plans|)
    ensures Cash(Kept(cfg, plans, budget)) <= Cash(plans)
    ensures |Kept(cfg, plans, budget)| <= |plans|
    decreases |plans|
  {
    if |plans| > 0 {
      assert forall i :: 0 <= i < |plans| - 1 ==> Front(plans)[i] == plans[i];
      assert Planned(Last(plans));
      hide LegRisk, AllocateLeg, Planned;
      KeptWithinBudget(cfg, Front(plans), budget);
      KeptLeg(cfg, Last(plans), budget);
      var leg := AllocateLeg(cfg, Last(plans), budget);
      if leg.Ok? {
        SnocFront(Kept(cfg, Front(plans), budget), leg.value);
      }
    }
  }

  lemma KeptLeg(cfg: Config, p: Plan, budget: real)
    requires Planned(p)
    ensures var leg := AllocateLeg(cfg, p, budget); leg.Ok? ==> LegRisk(leg.value) <= budget && leg.value.cash <= p.cash
    ensures p.cash >= 0.0
  {
    LegIsLargest(cfg, p, budget);
  }

  /** What `n` legs may risk together. */
  function Allowance(budget: real, n: nat): real {
    if n == 0 then 0.0 else Allowance(budget, n - 1) + budget
  }

  lemma {:induction false} AllowanceIsProduct(budget: real, n: nat)
    ensures Allowance(budget, n) == budget * n as real
    decreases n
  {
    if n > 0 {
      AllowanceIsProduct(budget, n - 1);
      assert n as real == (n - 1) as real + 1.0;
    }
  }

  lemma SharesAddUp(total: real, n: nat)
    requires n > 0 && total >= 0.0
    ensures total / n as real >= 0.0 && Allowance(total / n as real, n) == total
  {
    AllowanceIsProduct(total / n as real, n);
    QuotientTimes(total, n as real);
  }

  /** With the allocator on, the stop risk of all returned legs together is at most the
      configured fraction of equity, and their cash is no more than was planned. */
  lemma AllocationWithinBudget(cfg: Config, plans: seq<Plan>, equity: real)
    requires AllPlanned(plans) && cfg.riskEnabled
    ensures var a := Allocate(cfg, plans, equity);
            Risk(a.plans) <= MaxRisk(cfg, equity) && Cash(a.plans) <= Cash(plans) && |a.plans| <= |plans|
  {
    CashNotNegative(plans);
    if |plans| > 0 && equity > 0.0 && MaxRisk(cfg, equity) > 0.0 && cfg.equalRisk {
      var budget := MaxRisk(cfg, equity) / |plans| as real;
      hide MaxRisk, Risk, Cash, Kept, Refused, Allowance, AllPlanned;
      SharesAddUp(MaxRisk(cfg, equity), |plans|);
      KeptWithinBudget(cfg, plans, budget);
    }
  }

  lemma {:induction false} CashNotNegative(plans: seq<Plan>)
    requires AllPlanned(plans)
    ensures Cash(plans) >= 0.0
    decreases |plans|
  {
    if |plans| > 0 {
      assert forall i :: 0 <= i < |plans| - 1 ==> Front(plans)[i] == plans[i];
      CashNotNegative(Front(plans));
      assert Planned(plans[|plans| - 1]);
    }
  }

  // ---------------------------------------------------------------- the basket

  datatype BasketPlan = BasketPlan(plans: seq<Plan>, selected: seq<Candidate>, rejected: seq<Rejection>, total: real, cap: real)

  predicate HasSymbol(plans: seq<Plan>, symbol: string) {
    exists i :: 0 <= i < |plans| && plans[i].symbol == symbol
  }

  function StillSelected(selected: seq<Candidate>, plans: seq<Plan>): seq<Candidate> {
    if |selected| == 0 then []
    else if HasSymbol(plans, Last(selected).symbol) then StillSelected(Front(selected), plans) + [Last(selected)]
    else StillSelected(Front(selected), plans)
  }

  function PlanBasket(cfg: Config, ranked: seq<Candidate>, deployable: real, equity: real): Option<BasketPlan> {
    if !cfg.enabled || |ranked| == 0 || CashBudget(cfg, deployable) <= 0.0 then None
    else Allocated(cfg, Choose(cfg, CashBudget(cfg, deployable), ranked), CashBudget(cfg, deployable), equity)
  }

  function Allocated(cfg: Config, s: Choice, cap: real, equity: real): Option<BasketPlan> {
    var a := Allocate(cfg, s.plans, equity);
    if |a.plans| == 0 then None
    else Some(BasketPlan(a.plans, StillSelected(s.selected, a.plans), s.rejected + a.rejected, Cash(a.plans), cap))
  }

  method BuildBasket(cfg: Config, ranked: seq<Candidate>, deployable: real, equity: real) returns (r: Option<BasketPlan>)
    ensures r == PlanBasket(cfg, ranked, deployable, equity)
  {
    if !cfg.enabled {
      return None;
    }
    if |ranked| == 0 {
      return None;
    }
    var cap := CashBudget(cfg, deployable);
    if cap <= 0.0 {
      return None;
    }
    var s := ChooseLegs(cfg, cap, ranked);
    assert PlanBasket(cfg, ranked, deployable, equity) == Allocated(cfg, s, cap, equity);
    if |s.plans| == 0 {
      return None;
    }
    var plans, riskRejected := AllocateRisk(cfg, s.plans, equity);
    if |plans| == 0 {
      return None;
    }
    var selected: seq<Candidate> := [];
    var total := 0.0;
    for n := 0 to |s.selected|
      invariant selected == StillSelected(s.selected[..n], plans)
    {
      assert Front(s.selected[..n + 1]) == s.selected[..n];
      if HasSymbol(plans, s.selected[n].symbol) {
        selected := selected + [s.selected[n]];
      }
    }
    assert s.selected[..|s.selected|] == s.selected;
    for n := 0 to |plans|
      invariant total == Cash(plans[..n])
    {
      assert Front(plans[..n + 1]) == plans[..n];
      total := total + plans[n].cash;
    }
    assert plans[..|plans|] == plans;
    r := Some(BasketPlan(plans, selected, s.rejected + riskRejected, total, cap));
  }

  /** The chosen candidates whose legs survive the allocator. */
  function Survivors(cfg: Config, selected: seq<Candidate>, budget: real): seq<Candidate> {
    if |selected| == 0 then []
    else if Last(selected).plan.Some? && AllocateLeg(cfg, Last(selected).plan.value, budget).Ok?
    then Survivors(cfg, Front(selected), budget) + [Last(selected)]
    else Survivors(cfg, Front(selected), budget)
  }

  predicate Paired(plans: seq<Plan>, selected: seq<Candidate>) {
    |plans| == |selected| && forall i :: 0 <= i < |plans| ==> selected[i].plan == Some(plans[i]) && plans[i].symbol == selected[i].symbol
  }

  predicate SameSymbols(selected: seq<Candidate>, plans: seq<Plan>) {
    |selected| == |plans| && forall i :: 0 <= i < |plans| ==> selected[i].symbol == plans[i].symbol
  }

  lemma PairedFront(plans: seq<Plan>, selected: seq<Candidate>)
    requires Paired(plans, selected) && |plans| > 0
    ensures Paired(Front(plans), Front(selected)) && Last(selected).plan == Some(Last(plans)) && Last(plans).symbol == Last(selected).symbol
  {
  }

  /** The surviving legs are those of the surviving candidates, in order. */
  lemma {:induction false} SurvivorsMatchLegs(cfg: Config, plans: seq<Plan>, selected: seq<Candidate>, budget: real)
    requires Paired(plans, selected)
    ensures SameSymbols(Survivors(cfg, selected, budget), Kept(cfg, plans, budget))
    ensures |Refused(cfg, plans, budget)| == |plans| - |Kept(cfg, plans, budget)|
    decreases |plans|
  {
    if |plans| > 0 {
      PairedFront(plans, selected);
      SurvivorsMatchLegs(cfg, Front(plans), Front(selected), budget);
    }
  }

  /** No section of the basket grows: survivors of a sector are no more than were chosen. */
  lemma {:induction false} SurvivorsPerSector(cfg: Config, selected: seq<Candidate>, budget: real, sector: string)
    ensures CountSector(Survivors(cfg, selected, budget), sector) <= CountSector(selected, sector)
    decreases |selected|
  {
    if |selected| > 0 {
      SurvivorsPerSector(cfg, Front(selected), budget, sector);
      SnocFront(Survivors(cfg, Front(selected), budget), Last(selected));
    }
  }

  /** A symbol the allocator refused that one of the surviving legs also has. */
  ghost predicate SharesSymbol(refused: seq<Rejection>, plans: seq<Plan>) {
    exists i :: 0 <= i < |refused| && HasSymbol(plans, refused[i].symbol)
  }

  ghost predicate AllHave(legs: seq<Plan>, kept: seq<Plan>) {
    forall i :: 0 <= i < |kept| ==> HasSymbol(legs, kept[i].symbol)
  }

  lemma AllHaveSnoc(legs: seq<Plan>, kept: seq<Plan>, p: Plan)
    requires AllHave(legs, kept + [p])
    ensures AllHave(legs, kept) && HasSymbol(legs, p.symbol)
  {
    var all := kept + [p];
    assert all[|kept|] == p;
    assert forall i :: 0 <= i < |kept| ==> all[i] == kept[i];
  }

  /** The list of selected items, filtered by the symbols in `legs`. */
  lemma {:induction false} FilterKeepsSurvivors(cfg: Config, plans: seq<Plan>, selected: seq<Candidate>, budget: real, legs: seq<Plan>)
    requires Paired(plans, selected) && AllHave(legs, Kept(cfg, plans, budget))
    ensures |StillSelected(selected, legs)| >= |Kept(cfg, plans, budget)|
    ensures |StillSelected(selected, legs)| == |Kept(cfg, plans, budget)| <==> !SharesSymbol(Refused(cfg, plans, budget), legs)
    ensures !SharesSymbol(Refused(cfg, plans, budget), legs) ==> StillSelected(selected, legs) == Survivors(cfg, selected, budget)
    decreases |plans|
  {
    if |plans| > 0 {
      PairedFront(plans, selected);
      KeepsSymbol(cfg, Last(plans), budget);
      hide AllocateLeg, HasSymbol, SharesSymbol, AllHave;
      var leg := AllocateLeg(cfg, Last(plans), budget);
      if leg.Ok? {
        AllHaveSnoc(legs, Kept(cfg, Front(plans), budget), leg.value);
        FilterKeepsSurvivors(cfg, Front(plans), Front(selected), budget, legs);
      } else {
        FilterKeepsSurvivors(cfg, Front(plans), Front(selected), budget, legs);
        SharesMore(Refused(cfg, Front(plans), budget), Rejection(Last(plans).symbol, leg.error), legs);
      }
    } else {
      assert !SharesSymbol(Refused(cfg, plans, budget), legs);
    }
  }

  lemma KeepsSymbol(cfg: Config, p: Plan, budget: real)
    ensures var leg := AllocateLeg(cfg, p, budget); leg.Ok? ==> leg.value.symbol == p.symbol
  {
  }

  lemma SharesMore(refused: seq<Rejection>, r: Rejection, legs: seq<Plan>)
    ensures SharesSymbol(refused + [r], legs) <==> SharesSymbol(refused, legs) || HasSymbol(legs, r.symbol)
  {
    var all := refused + [r];
    assert all[|refused|] == r;
    assert forall i :: 0 <= i < |refused| ==> all[i] == refused[i];
  }

  /** For one budget, the filtered list matches the legs exactly when no refused leg has the
      symbol of a surviving one. */
  lemma SelectionMatchesLegs(cfg: Config, plans: seq<Plan>, selected: seq<Candidate>, budget: real)
    requires Paired(plans, selected)
    ensures var legs := Kept(cfg, plans, budget);
            SameSymbols(StillSelected(selected, legs), legs) <==> !SharesSymbol(Refused(cfg, plans, budget), legs)
  {
    var legs := Kept(cfg, plans, budget);
    assert AllHave(legs, legs);
    FilterKeepsSurvivors(cfg, plans, selected, budget, legs);
    SurvivorsMatchLegs(cfg, plans, selected, budget);
  }

  /** Every promise of a returned basket with the allocator on: total stop risk within its
      fraction of equity, total cash within the basket cap, no more legs than configured. */
  lemma BasketWithinBudgets(cfg: Config, ranked: seq<Candidate>, deployable: real, equity: real)
    requires AllAnswered(ranked) && cfg.riskEnabled && PlanBasket(cfg, ranked, deployable, equity).Some?
    ensures var b := PlanBasket(cfg, ranked, deployable, equity).value;
            && Risk(b.plans) <= equity * cfg.riskFraction
            && b.total == Cash(b.plans) <= b.cap == deployable * cfg.cashFraction
            && 0 < |b.plans| <= cfg.maxSize
  {
    var cap := CashBudget(cfg, deployable);
    var s := Choose(cfg, cap, ranked);
    ChoiceWithinCaps(cfg, cap, ranked);
    ChosenArePlanned(cfg, cap, ranked);
    AllocationWithinBudget(cfg, s.plans, equity);
    assert MaxRisk(cfg, equity) > 0.0;
  }

  lemma {:induction false} ChosenArePlanned(cfg: Config, cap: real, ranked: seq<Candidate>)
    requires AllAnswered(ranked)
    ensures AllPlanned(Choose(cfg, cap, ranked).plans) && Paired(Choose(cfg, cap, ranked).plans, Choose(cfg, cap, ranked).selected)
    decreases |ranked|
  {
    if |ranked| > 0 {
      assert forall i :: 0 <= i < |ranked| - 1 ==> Front(ranked)[i] == ranked[i];
      assert Answered(ranked[|ranked| - 1]);
      ChosenArePlanned(cfg, cap, Front(ranked));
    }
  }

  // ---------------------------------------------------------------- where the legs come from

  /** `small` is the part of `big` at the ascending positions `from`. */
  ghost predicate PartOf(small: seq<Candidate>, big: seq<Candidate>, from: seq<nat>) {
    && |from| == |small|
    && (forall i :: 0 <= i < |from| ==> from[i] < |big| && small[i] == big[from[i]])
    && (forall i, j :: 0 <= i < j < |from| ==> from[i] < from[j])
  }

  lemma {:induction false} ChosenArePart(cfg: Config, cap: real, ranked: seq<Candidate>) returns (from: seq<nat>)
    ensures PartOf(Choose(cfg, cap, ranked).selected, ranked, from)
    decreases |ranked|
  {
    if |ranked| == 0 {
      return [];
    }
    from := ChosenArePart(cfg, cap, Front(ranked));
    if Choose(cfg, cap, ranked).selected != Choose(cfg, cap, Front(ranked)).selected {
      from := from + [|ranked| - 1];
    }
  }

  lemma {:induction false} SurvivorsArePart(cfg: Config, selected: seq<Candidate>, budget: real) returns (from: seq<nat>)
    ensures PartOf(Survivors(cfg, selected, budget), selected, from)
    decreases |selected|
  {
    if |selected| == 0 {
      return [];
    }
    from := SurvivorsArePart(cfg, Front(selected), budget);
    if Survivors(cfg, selected, budget) != Survivors(cfg, Front(selected), budget) {
      from := from + [|selected| - 1];
    }
  }

  lemma PartOfPart(small: seq<Candidate>, mid: seq<Candidate>, big: seq<Candidate>, inner: seq<nat>, outer: seq<nat>) returns (from: seq<nat>)
    requires PartOf(small, mid, inner) && PartOf(mid, big, outer)
    ensures PartOf(small, big, from)
  {
    from := seq(|inner|, i requires 0 <= i < |inner| => outer[inner[i]]);
  }

  /** The leg is the plan, possibly for fewer shares and so for less cash. */
  predicate Shrunk(leg: Plan, p: Plan) {
    leg == p.(quantity := leg.quantity, cash := leg.cash) && 1 <= leg.quantity <= p.quantity && leg.cash <= p.cash
  }

  predicate FromPlans(legs: seq<Plan>, origins: seq<Candidate>) {
    |legs| == |origins| && forall i :: 0 <= i < |legs| ==> origins[i].plan.Some? && Shrunk(legs[i], origins[i].plan.value)
  }

  ghost predicate WithinSectors(cfg: Config, origins: seq<Candidate>) {
    forall sector :: CountSector(origins, sector) > 0 ==> CountSector(origins, sector) <= cfg.sectorCap
  }

  lemma {:induction false} KeptFromSurvivors(cfg: Config, plans: seq<Plan>, selected: seq<Candidate>, budget: real)
    requires Paired(plans, selected) && AllPlanned(plans)
    ensures FromPlans(Kept(cfg, plans, budget), Survivors(cfg, selected, budget))
    decreases |plans|
  {
    if |plans| > 0 {
      PairedFront(plans, selected);
      assert forall i :: 0 <= i < |plans| - 1 ==> Front(plans)[i] == plans[i];
      assert Planned(plans[|plans| - 1]);
      KeptFromSurvivors(cfg, Front(plans), Front(selected), budget);
      LegIsLargest(cfg, Last(plans), budget);
      hide AllocateLeg;
    }
  }

  lemma SurvivingLegs(cfg: Config, ranked: seq<Candidate>, cap: real, budget: real) returns (from: seq<nat>)
    requires AllAnswered(ranked) && cap >= 0.0
    ensures var s := Choose(cfg, cap, ranked);
            && PartOf(Survivors(cfg, s.selected, budget), ranked, from) && WithinSectors(cfg, Survivors(cfg, s.selected, budget))
            && FromPlans(Kept(cfg, s.plans, budget), Survivors(cfg, s.selected, budget))
  {
    var s := Choose(cfg, cap, ranked);
    ChosenArePlanned(cfg, cap, ranked);
    ChoiceWithinCaps(cfg, cap, ranked);
    KeptFromSurvivors(cfg, s.plans, s.selected, budget);
    hide Choose, PartOf, Survivors, Kept, FromPlans, CountSector;
    var outer := ChosenArePart(cfg, cap, ranked);
    var inner := SurvivorsArePart(cfg, s.selected, budget);
    from := PartOfPart(Survivors(cfg, s.selected, budget), s.selected, ranked, inner, outer);
    forall sector | CountSector(Survivors(cfg, s.selected, budget), sector) > 0
      ensures CountSector(Survivors(cfg, s.selected, budget), sector) <= cfg.sectorCap
    {
      SurvivorsPerSector(cfg, s.selected, budget, sector);
      assert SectorHolds(cfg, s, sector);
    }
  }

  lemma ChosenLegs(cfg: Config, ranked: seq<Candidate>, cap: real) returns (from: seq<nat>)
    requires AllAnswered(ranked) && cap >= 0.0
    ensures var s := Choose(cfg, cap, ranked);
            PartOf(s.selected, ranked, from) && WithinSectors(cfg, s.selected) && FromPlans(s.plans, s.selected)
  {
    ChosenArePlanned(cfg, cap, ranked);
    ChoiceWithinCaps(cfg, cap, ranked);
    from := ChosenArePart(cfg, cap, ranked);
    var s := Choose(cfg, cap, ranked);
    hide Choose, PartOf, CountSector;
    forall sector | CountSector(s.selected, sector) > 0 ensures CountSector(s.selected, sector) <= cfg.sectorCap {
      assert SectorHolds(cfg, s, sector);
    }
    assert forall i :: 0 <= i < |s.plans| ==> Planned(s.plans[i]);
  }

  /** Every leg of a returned basket is the plan of a ranked candidate, in rank order and one
      candidate each, for at least one share and no more than planned; and of every sector
      there are no more legs than configured. */
  lemma BasketLegs(cfg: Config, ranked: seq<Candidate>, deployable: real, equity: real) returns (origins: seq<Candidate>, from: seq<nat>)
    requires AllAnswered(ranked) && PlanBasket(cfg, ranked, deployable, equity).Some?
    ensures PartOf(origins, ranked, from) && WithinSectors(cfg, origins)
    ensures FromPlans(PlanBasket(cfg, ranked, deployable, equity).value.plans, origins)
  {
    var cap := CashBudget(cfg, deployable);
    var s := Choose(cfg, cap, ranked);
    hide Choose, PartOf, WithinSectors, FromPlans, Survivors, Kept, Refused, StillSelected, AllAnswered, CashBudget;
    if cfg.riskEnabled {
      var budget := MaxRisk(cfg, equity) / |s.plans| as real;
      from := SurvivingLegs(cfg, ranked, cap, budget);
      origins := Survivors(cfg, s.selected, budget);
    } else {
      from := ChosenLegs(cfg, ranked, cap);
      origins := s.selected;
    }
  }

  // ---------------------------------------------------------------- when the selection matches

  /** The allocator can keep this plan, given enough budget. */
  predicate Able(p: Plan) {
    p.shares && RiskPerShare(p).Some?
  }

  /** The smallest share of the budget at which it does. */
  function Threshold(cfg: Config, p: Plan): real
    requires Able(p)
  {
    if RiskPerShare(p).value < cfg.minLegRisk then cfg.minLegRisk else RiskPerShare(p).value
  }

  predicate Keeps(cfg: Config, budget: real, p: Plan) {
    Able(p) && Threshold(cfg, p) <= budget
  }

  lemma KeptExactly(cfg: Config, p: Plan, budget: real)
    ensures AllocateLeg(cfg, p, budget).Ok? <==> Keeps(cfg, budget, p)
  {
    if Able(p) {
      var risk := RiskPerShare(p).value;
      FloorFits(budget, risk);
      if (budget / risk).Floor >= 1 {
        ScaleReal(risk, 1.0, (budget / risk).Floor as real);
      } else {
        AboveFloor(budget, risk, 1);
      }
    }
  }

  /** The first plan is kept and the second, of the same symbol, refused. */
  predicate Parts(cfg: Config, budget: real, p: Plan, q: Plan) {
    p.symbol == q.symbol && Keeps(cfg, budget, p) && !Keeps(cfg, budget, q)
  }

  predicate SomeParted(cfg: Config, budget: real, plans: seq<Plan>) {
    exists i, j :: 0 <= i < |plans| && 0 <= j < |plans| && Parts(cfg, budget, plans[i], plans[j])
  }

  lemma {:induction false} KeptHas(cfg: Config, plans: seq<Plan>, budget: real, n: nat)
    requires n < |plans|
    ensures var leg := AllocateLeg(cfg, plans[n], budget);
            if leg.Ok? then HasSymbol(Kept(cfg, plans, budget), plans[n].symbol)
            else exists i :: 0 <= i < |Refused(cfg, plans, budget)| && Refused(cfg, plans, budget)[i].symbol == plans[n].symbol
    decreases |plans|
  {
    KeepsSymbol(cfg, plans[n], budget);
    KeepsSymbol(cfg, Last(plans), budget);
    hide AllocateLeg;
    var kept, refused := Kept(cfg, plans, budget), Refused(cfg, plans, budget);
    if n == |plans| - 1 {
      if AllocateLeg(cfg, Last(plans), budget).Ok? {
        SymbolAt(kept, |kept| - 1);
      } else {
        assert refused[|refused| - 1].symbol == Last(plans).symbol;
      }
    } else {
      KeptHas(cfg, Front(plans), budget, n);
      assert Kept(cfg, Front(plans), budget) <= kept && Refused(cfg, Front(plans), budget) <= refused;
      if AllocateLeg(cfg, plans[n], budget).Ok? {
        HasMore(Kept(cfg, Front(plans), budget), kept, plans[n].symbol);
      } else {
        var i :| 0 <= i < |Refused(cfg, Front(plans), budget)| && Refused(cfg, Front(plans), budget)[i].symbol == plans[n].symbol;
        assert refused[i].symbol == plans[n].symbol;
      }
    }
  }

  lemma HasMore(plans: seq<Plan>, more: seq<Plan>, symbol: string)
    requires plans <= more && HasSymbol(plans, symbol)
    ensures HasSymbol(more, symbol)
  {
    var i :| 0 <= i < |plans| && plans[i].symbol == symbol;
    assert more[i].symbol == symbol;
  }

  lemma {:induction false} RefusedComeFrom(cfg: Config, plans: seq<Plan>, budget: real, i: nat) returns (n: nat)
    requires i < |Refused(cfg, plans, budget)|
    ensures n < |plans| && plans[n].symbol == Refused(cfg, plans, budget)[i].symbol && AllocateLeg(cfg, plans[n], budget).Err?
    decreases |plans|
  {
    hide AllocateLeg;
    if i < |Refused(cfg, Front(plans), budget)| {
      n := RefusedComeFrom(cfg, Front(plans), budget, i);
    } else {
      n := |plans| - 1;
    }
  }

  /** For one budget the filtered list matches the legs exactly when that budget parts no two
      plans of one symbol. */
  lemma SelectionMatchesAt(cfg: Config, plans: seq<Plan>, selected: seq<Candidate>, budget: real)
    requires Paired(plans, selected)
    ensures var legs := Kept(cfg, plans, budget);
            SameSymbols(StillSelected(selected, legs), legs) <==> !SomeParted(cfg, budget, plans)
    ensures SomeParted(cfg, budget, plans) ==> |Kept(cfg, plans, budget)| > 0
  {
    var legs, refused := Kept(cfg, plans, budget), Refused(cfg, plans, budget);
    SelectionMatchesLegs(cfg, plans, selected, budget);
    hide AllocateLeg, Keeps, SameSymbols, StillSelected, Kept, Refused;
    if SharesSymbol(refused, legs) {
      var i :| 0 <= i < |refused| && HasSymbol(legs, refused[i].symbol);
      var k :| 0 <= k < |legs| && legs[k].symbol == refused[i].symbol;
      var y := RefusedComeFrom(cfg, plans, budget, i);
      var from := KeptInOrder(cfg, plans, budget);
      KeepsSymbol(cfg, plans[from[k]], budget);
      KeptExactly(cfg, plans[from[k]], budget);
      KeptExactly(cfg, plans[y], budget);
      assert Parts(cfg, budget, plans[from[k]], plans[y]);
    }
    if x, y :| 0 <= x < |plans| && 0 <= y < |plans| && Parts(cfg, budget, plans[x], plans[y]) {
      KeptExactly(cfg, plans[x], budget);
      KeptExactly(cfg, plans[y], budget);
      KeptHas(cfg, plans, budget, x);
      KeptHas(cfg, plans, budget, y);
    }
  }

  lemma {:induction false} AllStillSelected(plans: seq<Plan>, selected: seq<Candidate>, legs: seq<Plan>)
    requires Paired(plans, selected) && AllHave(legs, plans)
    ensures StillSelected(selected, legs) == selected
    decreases |plans|
  {
    if |plans| > 0 {
      PairedFront(plans, selected);
      AllHaveSnoc(legs, Front(plans), Last(plans));
      assert Front(plans) + [Last(plans)] == plans;
      AllStillSelected(Front(plans), Front(selected), legs);
    }
  }

  /** The selected list of the basket, if there is one, matches its legs. */
  predicate Matches(cfg: Config, ranked: seq<Candidate>, deployable: real, equity: real) {
    var b := PlanBasket(cfg, ranked, deployable, equity);
    b.Some? ==> SameSymbols(b.value.selected, b.value.plans)
  }

  /** The plans the greedy choice makes. */
  function Picked(cfg: Config, ranked: seq<Candidate>, deployable: real): seq<Plan> {
    Choose(cfg, CashBudget(cfg, deployable), ranked).plans
  }

  /** What each of these plans may risk. */
  function ShareOf(cfg: Config, plans: seq<Plan>, equity: real): real
    requires |plans| > 0
  {
    MaxRisk(cfg, equity) / |plans| as real
  }

  /** A returned basket misreports its selection exactly when the risk allocator is on and the
      budget of a leg parts two chosen plans of one symbol. */
  lemma BasketMatchesExactly(cfg: Config, ranked: seq<Candidate>, deployable: real, equity: real)
    requires AllAnswered(ranked) && PlanBasket(cfg, ranked, deployable, equity).Some?
    ensures var plans := Picked(cfg, ranked, deployable);
            && |plans| > 0
            && (Matches(cfg, ranked, deployable, equity) <==> !(cfg.riskEnabled && SomeParted(cfg, ShareOf(cfg, plans, equity), plans)))
  {
    var cap := CashBudget(cfg, deployable);
    var s := Choose(cfg, cap, ranked);
    ChosenArePlanned(cfg, cap, ranked);
    hide Choose, AllAnswered, AllPlanned, StillSelected, Kept, Refused, SomeParted;
    if cfg.riskEnabled {
      SelectionMatchesAt(cfg, s.plans, s.selected, ShareOf(cfg, s.plans, equity));
    } else {
      hide PlanBasket, Paired;
      AllSelected(cfg, s, cap, equity);
    }
  }

  lemma AllSelected(cfg: Config, s: Choice, cap: real, equity: real)
    requires Paired(s.plans, s.selected) && !cfg.riskEnabled && |s.plans| > 0
    ensures Allocated(cfg, s, cap, equity).Some?
    ensures var b := Allocated(cfg, s, cap, equity).value; SameSymbols(b.selected, b.plans)
  {
    assert AllHave(s.plans, s.plans);
    AllStillSelected(s.plans, s.selected, s.plans);
  }

  /** What the configuration accepts. */
  predicate Accepted(cfg: Config) {
    && 0.0 < cfg.cashFraction <= 1.0 && cfg.maxSize >= 1 && cfg.sectorCap >= 1
    && 0.0 < cfg.riskFraction <= 1.0 && cfg.equalRisk && cfg.minLegRisk >= 0.0
  }

  /** For this configuration, equity and cash, the selected list matches whatever fraction of
      equity is put at risk. */
  ghost predicate AlwaysMatches(cfg: Config, ranked: seq<Candidate>, deployable: real, equity: real) {
    forall f :: Accepted(cfg.(riskFraction := f)) ==> Matches(cfg.(riskFraction := f), ranked, deployable, equity)
  }

  /** The equity pays for keeping the first of two plans of one symbol, which is kept at less
      than the second needs. */
  predicate Split(cfg: Config, equity: real, n: nat, p: Plan, q: Plan) {
    && p.symbol == q.symbol && Able(p) && Threshold(cfg, p) * n as real <= equity
    && (Able(q) ==> Threshold(cfg, p) < Threshold(cfg, q))
  }

  predicate SomeSplit(cfg: Config, equity: real, plans: seq<Plan>) {
    exists i, j :: 0 <= i < |plans| && 0 <= j < |plans| && Split(cfg, equity, |plans|, plans[i], plans[j])
  }

  /** Two of the chosen plans are split, and there is a risk budget to split them. */
  predicate CanMislead(cfg: Config, ranked: seq<Candidate>, deployable: real, equity: real) {
    cfg.enabled && cfg.riskEnabled && deployable > 0.0 && SomeSplit(cfg, equity, Picked(cfg, ranked, deployable))
  }

  /** Under a configuration, with the equity and cash the plans were made for, some fraction of
      equity at risk makes the basket misreport its selection exactly when two of the chosen
      plans share a symbol and are split. */
  lemma SelectionMatchesExactly(cfg: Config, ranked: seq<Candidate>, deployable: real, equity: real)
    requires AllAnswered(ranked) && Accepted(cfg)
    ensures AlwaysMatches(cfg, ranked, deployable, equity) <==> !CanMislead(cfg, ranked, deployable, equity)
  {
    if CanMislead(cfg, ranked, deployable, equity) {
      var f := SplitMisleads(cfg, ranked, deployable, equity);
      assert Accepted(cfg.(riskFraction := f));
    } else {
      forall f | Accepted(cfg.(riskFraction := f)) ensures Matches(cfg.(riskFraction := f), ranked, deployable, equity) {
        UnsplitMatches(cfg, f, ranked, deployable, equity);
      }
    }
  }

  lemma {:induction false} ChoiceIgnoresRisk(cfg: Config, f: real, cap: real, ranked: seq<Candidate>)
    ensures Choose(cfg.(riskFraction := f), cap, ranked) == Choose(cfg, cap, ranked)
    decreases |ranked|
  {
    if |ranked| > 0 {
      ChoiceIgnoresRisk(cfg, f, cap, Front(ranked));
    }
  }

  lemma PicksIgnoreRisk(cfg: Config, f: real, ranked: seq<Candidate>, deployable: real)
    ensures Picked(cfg.(riskFraction := f), ranked, deployable) == Picked(cfg, ranked, deployable)
  {
    ChoiceIgnoresRisk(cfg, f, CashBudget(cfg, deployable), ranked);
    assert CashBudget(cfg.(riskFraction := f), deployable) == CashBudget(cfg, deployable);
  }

  lemma UnsplitMatches(cfg: Config, f: real, ranked: seq<Candidate>, deployable: real, equity: real)
    requires AllAnswered(ranked) && Accepted(cfg.(riskFraction := f)) && !CanMislead(cfg, ranked, deployable, equity)
    ensures Matches(cfg.(riskFraction := f), ranked, deployable, equity)
  {
    var at := cfg.(riskFraction := f);
    if PlanBasket(at, ranked, deployable, equity).Some? {
      BasketMatchesExactly(at, ranked, deployable, equity);
      if !cfg.riskEnabled {
        return;
      }
      CashNeedsDeployable(cfg, deployable);
      PicksIgnoreRisk(cfg, f, ranked, deployable);
      var plans := Picked(cfg, ranked, deployable);
      assert equity > 0.0;
      hide PlanBasket, Matches, Choose, Picked, Parts, Split, MaxRisk, ShareOf;
      if i, j :| 0 <= i < |plans| && 0 <= j < |plans| && Parts(at, ShareOf(at, plans, equity), plans[i], plans[j]) {
        PartedIsSplit(cfg, f, plans, equity, i, j);
        assert false;
      }
    }
  }

  lemma CashNeedsDeployable(cfg: Config, deployable: real)
    requires 0.0 < cfg.cashFraction
    ensures CashBudget(cfg, deployable) > 0.0 <==> deployable > 0.0
  {
    if deployable > 0.0 {
      ScaleStrict(cfg.cashFraction, 0.0, deployable);
    } else {
      ScaleReal(cfg.cashFraction, deployable, 0.0);
    }
  }

  lemma PartedIsSplit(cfg: Config, f: real, plans: seq<Plan>, equity: real, i: nat, j: nat)
    requires 0.0 < f <= 1.0 && equity > 0.0 && i < |plans| && j < |plans|
    requires var at := cfg.(riskFraction := f); Parts(at, ShareOf(at, plans, equity), plans[i], plans[j])
    ensures Split(cfg, equity, |plans|, plans[i], plans[j])
  {
    ShareWithin(f, equity, |plans| as real, Threshold(cfg, plans[i]));
  }

  lemma ShareWithin(f: real, equity: real, n: real, amount: real)
    requires 0.0 < f <= 1.0 && equity > 0.0 && n > 0.0 && amount <= equity * f / n
    ensures equity * f > 0.0 && amount * n <= equity
  {
    ScaleReal(equity, f, 1.0);
    QuotientTimes(equity * f, n);
    ScaleReal(n, amount, equity * f / n);
  }

  /** Two chosen plans that are split: at the fraction of equity that gives every leg just the
      budget the first one needs, the selected list names a candidate whose leg is not there. */
  lemma SplitMisleads(cfg: Config, ranked: seq<Candidate>, deployable: real, equity: real) returns (f: real)
    requires AllAnswered(ranked) && Accepted(cfg) && CanMislead(cfg, ranked, deployable, equity)
    ensures 0.0 < f <= 1.0 && PlanBasket(cfg.(riskFraction := f), ranked, deployable, equity).Some?
    ensures !Matches(cfg.(riskFraction := f), ranked, deployable, equity)
  {
    var plans := Picked(cfg, ranked, deployable);
    var i, j :| 0 <= i < |plans| && 0 <= j < |plans| && Split(cfg, equity, |plans|, plans[i], plans[j]);
    f := FractionThatParts(cfg, plans, equity, i, j);
    PicksIgnoreRisk(cfg, f, ranked, deployable);
    EmptyPicksNothing(cfg, ranked, deployable);
    CashNeedsDeployable(cfg, deployable);
    hide Picked, AllAnswered, SomeParted, SomeSplit, CanMislead, MaxRisk, ShareOf, Matches, PlanBasket, Split;
    PartedBasket(cfg.(riskFraction := f), ranked, deployable, equity);
  }

  lemma FractionThatParts(cfg: Config, plans: seq<Plan>, equity: real, i: nat, j: nat) returns (f: real)
    requires i < |plans| && j < |plans| && Split(cfg, equity, |plans|, plans[i], plans[j])
    ensures var at := cfg.(riskFraction := f);
            0.0 < f <= 1.0 && equity > 0.0 && MaxRisk(at, equity) > 0.0 && SomeParted(at, ShareOf(at, plans, equity), plans)
  {
    f := FractionFor(cfg, Threshold(cfg, plans[i]), |plans|, equity);
    var at := cfg.(riskFraction := f);
    assert ShareOf(at, plans, equity) == Threshold(at, plans[i]);
    assert Parts(at, ShareOf(at, plans, equity), plans[i], plans[j]);
  }

  /** A budget that parts two plans leaves one, so there is a basket, and it misreports. */
  lemma PartedBasket(cfg: Config, ranked: seq<Candidate>, deployable: real, equity: real)
    requires AllAnswered(ranked) && cfg.enabled && cfg.riskEnabled && cfg.equalRisk && |ranked| > 0
    requires CashBudget(cfg, deployable) > 0.0 && equity > 0.0 && MaxRisk(cfg, equity) > 0.0
    requires var plans := Picked(cfg, ranked, deployable);
             |plans| > 0 && SomeParted(cfg, ShareOf(cfg, plans, equity), plans)
    ensures PlanBasket(cfg, ranked, deployable, equity).Some? && !Matches(cfg, ranked, deployable, equity)
  {
    var s := Choose(cfg, CashBudget(cfg, deployable), ranked);
    ChosenArePlanned(cfg, CashBudget(cfg, deployable), ranked);
    SelectionMatchesAt(cfg, s.plans, s.selected, ShareOf(cfg, s.plans, equity));
    hide Choose, AllAnswered, AllPlanned, SomeParted, Kept, Refused, StillSelected, Matches;
    assert PlanBasket(cfg, ranked, deployable, equity).Some?;
    BasketMatchesExactly(cfg, ranked, deployable, equity);
  }

  lemma EmptyPicksNothing(cfg: Config, ranked: seq<Candidate>, deployable: real)
    ensures |Picked(cfg, ranked, deployable)| > 0 ==> |ranked| > 0
  {
  }

  lemma FractionFor(cfg: Config, budget: real, n: nat, equity: real) returns (f: real)
    requires budget > 0.0 && n > 0 && budget * n as real <= equity
    ensures equity > 0.0 && 0.0 < f <= 1.0
    ensures MaxRisk(cfg.(riskFraction := f), equity) > 0.0 && MaxRisk(cfg.(riskFraction := f), equity) / n as real == budget
  {
    var total := budget * n as real;
    assert total > 0.0;
    f := total / equity;
    QuotientTimes(total, equity);
    assert equity * f == total;
    assert f <= 1.0 by {
      if f > 1.0 {
        ScaleStrict(equity, 1.0, f);
        assert false;
      }
    }
  }

  /** Different symbols are enough, whatever the configuration, equity and cash. */
  lemma DistinctSymbolsMatch(cfg: Config, ranked: seq<Candidate>, deployable: real, equity: real)
    requires AllAnswered(ranked) && forall i, j :: 0 <= i < j < |ranked| ==> ranked[i].symbol != ranked[j].symbol
    ensures Matches(cfg, ranked, deployable, equity)
  {
    if PlanBasket(cfg, ranked, deployable, equity).Some? {
      var cap := CashBudget(cfg, deployable);
      var s := Choose(cfg, cap, ranked);
      ChosenArePlanned(cfg, cap, ranked);
      BasketMatchesExactly(cfg, ranked, deployable, equity);
      hide Choose, PlanBasket, AllAnswered, AllPlanned, Matches, SomeParted;
      var from := ChosenArePart(cfg, cap, ranked);
      forall i, j | 0 <= i < j < |s.plans| ensures s.plans[i].symbol != s.plans[j].symbol {
        assert s.selected[i] == ranked[from[i]] && s.selected[j] == ranked[from[j]];
      }
      NonePartedAlone(cfg, s.plans);
    }
  }

  lemma {:induction false} TwoInSector(selected: seq<Candidate>, i: nat, j: nat)
    requires i < j < |selected| && SectorOf(selected[i]) == SectorOf(selected[j])
    ensures CountSector(selected, SectorOf(selected[i])) >= 2
    decreases |selected|
  {
    if j < |selected| - 1 {
      TwoInSector(Front(selected), i, j);
    } else {
      OneInSector(Front(selected), i);
    }
  }

  lemma {:induction false} OneInSector(selected: seq<Candidate>, i: nat)
    requires i < |selected|
    ensures CountSector(selected, SectorOf(selected[i])) >= 1
    decreases |selected|
  {
    if i < |selected| - 1 {
      OneInSector(Front(selected), i);
    }
  }

  /** So is the default cap of one leg per sector, when candidates of one symbol agree on its
      sector. */
  lemma OnePerSectorMatches(cfg: Config, ranked: seq<Candidate>, deployable: real, equity: real)
    requires AllAnswered(ranked) && cfg.sectorCap == 1
    requires forall i, j :: 0 <= i < j < |ranked| && ranked[i].symbol == ranked[j].symbol ==> SectorOf(ranked[i]) == SectorOf(ranked[j])
    ensures Matches(cfg, ranked, deployable, equity)
  {
    if PlanBasket(cfg, ranked, deployable, equity).Some? {
      var cap := CashBudget(cfg, deployable);
      var s := Choose(cfg, cap, ranked);
      ChosenArePlanned(cfg, cap, ranked);
      ChoiceWithinCaps(cfg, cap, ranked);
      BasketMatchesExactly(cfg, ranked, deployable, equity);
      var from := ChosenArePart(cfg, cap, ranked);
      hide Choose, PlanBasket, AllAnswered, AllPlanned, Matches, SectorOf, CountSector, Parts, SomeParted;
      forall i, j | 0 <= i < j < |s.plans| ensures s.plans[i].symbol != s.plans[j].symbol {
        assert s.selected[i] == ranked[from[i]] && s.selected[j] == ranked[from[j]];
        if s.plans[i].symbol == s.plans[j].symbol {
          assert SectorHolds(cfg, s, SectorOf(s.selected[i]));
          TwoInSector(s.selected, i, j);
          assert false;
        }
      }
      NonePartedAlone(cfg, s.plans);
    }
  }

  lemma NonePartedAlone(cfg: Config, plans: seq<Plan>)
    requires forall i, j :: 0 <= i < j < |plans| ==> plans[i].symbol != plans[j].symbol
    ensures forall budget :: !SomeParted(cfg, budget, plans)
  {
    forall budget ensures !SomeParted(cfg, budget, plans) {
      forall i, j | 0 <= i < |plans| && 0 <= j < |plans| ensures !Parts(cfg, budget, plans[i], plans[j]) {
        assert i < j || j < i || i == j;
      }
    }
  }

  /** The default settings, with baskets switched on. */
  const Defaults: Config := Config(true, 0.005, 3, 1, true, 0.002, true, 20.0)

  /** A candidate with a plan for one share of 200. */
  function OneOf(sector: string, stop: real): Candidate {
    Candidate("A", sector, Some(Plan("A", true, 1, 200.0, Some(stop), 200.0)))
  }

  lemma BothPicked()
    ensures var (near, far) := (OneOf("TECH", 190.0), OneOf("", 50.0));
            var s := Choose(Defaults, 500.0, [near, far]);
            s.plans == [near.plan.value, far.plan.value] && s.selected == [near, far]
  {
    var near, far := OneOf("TECH", 190.0), OneOf("", 50.0);
    assert Front([near, far]) == [near] && Front([near]) == [];
    assert Choose(Defaults, 500.0, []) == NothingYet;
    assert Choose(Defaults, 500.0, [near]) == Choice([near.plan.value], [near], [], map["TECH" := 1], 200.0);
  }

  lemma OneKept(near: Candidate, far: Candidate)
    requires near == OneOf("TECH", 190.0) && far == OneOf("", 50.0)
    ensures Kept(Defaults, [near.plan.value, far.plan.value], 100.0) == [near.plan.value]
    ensures StillSelected([near, far], [near.plan.value]) == [near, far]
  {
    var p, q := near.plan.value, far.plan.value;
    KeptExactly(Defaults, p, 100.0);
    KeptExactly(Defaults, q, 100.0);
    assert (100.0 / 10.0).Floor == 10;
    assert AllocateLeg(Defaults, p, 100.0) == Ok(p) && AllocateLeg(Defaults, q, 100.0).Err?;
    hide AllocateLeg;
    assert Front([p, q]) == [p] && Front([p]) == [] && Front([near, far]) == [near] && Front([near]) == [];
    assert Kept(Defaults, [], 100.0) == [] && Kept(Defaults, [p], 100.0) == [p];
    SymbolAt([p], 0);
    assert StillSelected([], [p]) == [] && StillSelected([near], [p]) == [near];
  }

  /** With the default settings, equity and cash of 100000 and one share of 200 each, the most
      those settings allow a leg: a symbol listed under two sectors, once with a near stop and
      once with a far one. One leg stays, and both candidates are reported selected. */
  lemma SharedSymbolMisleads()
    ensures var (near, far) := (OneOf("TECH", 190.0), OneOf("", 50.0));
            var b := PlanBasket(Defaults, [near, far], 100000.0, 100000.0);
            && Accepted(Defaults) && AllAnswered([near, far])
            && b.Some? && b.value.plans == [near.plan.value] && b.value.selected == [near, far]
  {
    var near, far := OneOf("TECH", 190.0), OneOf("", 50.0);
    BothPicked();
    OneKept(near, far);
    assert CashBudget(Defaults, 100000.0) == 500.0 && MaxRisk(Defaults, 100000.0) / 2.0 == 100.0;
    hide Choose, Kept, Refused, StillSelected, CashBudget, MaxRisk;
    assert PlanBasket(Defaults, [near, far], 100000.0, 100000.0).Some?;
  }

  lemma SymbolAt(plans: seq<Plan>, i: nat)
    requires i < |plans|
    ensures HasSymbol(plans, plans[i].symbol)
  {
  }
}
