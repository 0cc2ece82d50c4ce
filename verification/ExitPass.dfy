/** One pass of the exit manager over the open trades: rule-driven exits first, then profit
    exits decided symbol by symbol over the legs that are left. */
module ExitPass {
  import opened Common

  // ---------------------------------------------------------------- data

  datatype Status = EntryPending | Open | ExitPending | Closed | Failed

  /** `age` is in seconds and absent without a readable entry time. */
  datatype Trade = Trade(
    id: int,
    symbol: string,
    status: Status,
    shares: bool,
    quantity: int,
    filled: Option<real>,
    limit: Option<real>,
    target: Option<real>,
    stop: Option<real>,
    age: Option<int>,
    maxDays: int,
    minProfit: Option<real>)

  datatype Reason = RiskExit | TimeExit | TakeProfit | StopLoss | ProfitExit | ManualClose

  datatype Decision = Exit(reason: Reason, order: int) | NoExit | NoPrice

  datatype Venue = Paper | Live | NoVenue

  datatype Reply = Accepted(order: int) | Refused

  /** What a pass meets: quotes, holdings (absent when they cannot be read), and the answer
      to the first and to a second order for a trade. A refusal stands for a rejection or an
      exception, neither of which placed an order. */
  datatype Env = Env(
    venue: Venue,
    risk: bool,
    prices: map<string, real>,
    held: string -> Option<int>,
    reply: (int, bool) -> Reply)

  function PriceOf(env: Env, symbol: string): Option<real> {
    if symbol in env.prices && env.prices[symbol] > 0.0 then Some(env.prices[symbol]) else None
  }

  function EntryPrice(t: Trade): Option<real> {
    if t.filled.Some? && t.filled.value != 0.0 then t.filled
    else if t.limit.Some? && t.limit.value != 0.0 then t.limit
    else None
  }

  // ---------------------------------------------------------------- one trade

  datatype Wish = Stay | Blind | Leave(reason: Reason)

  function LeaveAt(price: Option<real>, reason: Reason): Wish {
    if price.None? then Blind else Leave(reason)
  }

  predicate TooOld(t: Trade) {
    t.age.Some? && t.age.value >= (if t.maxDays < 1 then 1 else t.maxDays) * 86400
  }

  /** What the rules want of a trade, profit aside. */
  function Rules(env: Env, t: Trade): Wish {
    var price := PriceOf(env, t.symbol);
    if t.status.EntryPending? || !t.shares || EntryPrice(t).None? then Stay
    else if env.risk then LeaveAt(price, RiskExit)
    else if TooOld(t) then LeaveAt(price, TimeExit)
    else if price.None? then Blind
    else if t.target.Some? && price.value >= t.target.value then Leave(TakeProfit)
    else if t.stop.Some? && price.value <= t.stop.value then Leave(StopLoss)
    else Stay
  }

  /** An exit is never larger than what is held as far as is known. */
  predicate Covered(env: Env, t: Trade) {
    match env.venue
    case Paper => env.held(t.symbol).Some? && env.held(t.symbol).value > 0 && t.quantity <= env.held(t.symbol).value
    case Live => env.held(t.symbol).Some? && t.quantity <= env.held(t.symbol).value
    case NoVenue => false
  }

  function Submit(env: Env, t: Trade, reason: Reason, second: bool): Decision {
    if !Covered(env, t) then NoExit
    else
      match env.reply(t.id, second)
      case Accepted(order) => Exit(reason, order)
      case Refused => NoExit
  }

  function First(env: Env, t: Trade): Decision {
    match Rules(env, t)
    case Stay => NoExit
    case Blind => NoPrice
    case Leave(reason) => Submit(env, t, reason, false)
  }

  // ---------------------------------------------------------------- profit by symbol

  predicate Candidate(env: Env, t: Trade) {
    && t.status.Open? && t.shares && t.quantity > 0
    && EntryPrice(t).Some? && EntryPrice(t).value > 0.0 && PriceOf(env, t.symbol).Some?
  }

  /** Not exiting by rule, and fit for a profit exit. */
  predicate Eligible(env: Env, t: Trade) {
    First(env, t) == NoExit && Candidate(env, t)
  }

  function Threshold(t: Trade): real {
    if t.minProfit.Some? && t.minProfit.value > 0.0 then t.minProfit.value else 100.0
  }

  function Unrealized(env: Env, t: Trade): real
    requires Candidate(env, t)
  {
    (PriceOf(env, t.symbol).value - EntryPrice(t).value) * t.quantity as real
  }

  predicate LegOf(env: Env, t: Trade, symbol: string) {
    t.symbol == symbol && Eligible(env, t)
  }

  /** Positions of the eligible legs of a symbol. */
  function Legs(env: Env, trades: seq<Trade>, symbol: string): (legs: seq<nat>)
    ensures forall k :: 0 <= k < |legs| ==> legs[k] < |trades| && LegOf(env, trades[legs[k]], symbol)
  {
    if |trades| == 0 then []
    else if LegOf(env, Last(trades), symbol) then Legs(env, Front(trades), symbol) + [|trades| - 1]
    else Legs(env, Front(trades), symbol)
  }

  predicate AreLegs(env: Env, trades: seq<Trade>, legs: seq<nat>) {
    forall k :: 0 <= k < |legs| ==> legs[k] < |trades| && Eligible(env, trades[legs[k]])
  }

  function Total(env: Env, trades: seq<Trade>, legs: seq<nat>): real
    requires AreLegs(env, trades, legs)
  {
    if |legs| == 0 then 0.0 else Total(env, trades, Front(legs)) + Unrealized(env, trades[Last(legs)])
  }

  function Smaller(a: real, b: real): real { if a <= b then a else b }

  function Smallest(trades: seq<Trade>, legs: seq<nat>): real
    requires |legs| > 0 && forall k :: 0 <= k < |legs| ==> legs[k] < |trades|
  {
    if |legs| == 1 then Threshold(trades[legs[0]])
    else Smaller(Smallest(trades, Front(legs)), Threshold(trades[Last(legs)]))
  }

  /** The symbol's eligible legs together reach the smallest of their thresholds. */
  predicate Takes(env: Env, trades: seq<Trade>, symbol: string) {
    var legs := Legs(env, trades, symbol);
    |legs| > 0 && Total(env, trades, legs) >= Smallest(trades, legs)
  }

  function Final(env: Env, trades: seq<Trade>, t: Trade): Decision {
    if Eligible(env, t) && Takes(env, trades, t.symbol) then Submit(env, t, ProfitExit, true) else First(env, t)
  }

  function Decisions(env: Env, trades: seq<Trade>): (d: seq<Decision>)
    ensures |d| == |trades| && forall i :: 0 <= i < |trades| ==> d[i] == Final(env, trades, trades[i])
  {
    seq(|trades|, i requires 0 <= i < |trades| => Final(env, trades, trades[i]))
  }

  lemma {:induction false} LegsExactly(env: Env, trades: seq<Trade>, symbol: string, i: nat)
    requires i < |trades|
    ensures i in Legs(env, trades, symbol) <==> LegOf(env, trades[i], symbol)
    decreases |trades|
  {
    if i < |trades| - 1 {
      LegsExactly(env, Front(trades), symbol, i);
    } else {
      assert forall k :: 0 <= k < |Legs(env, Front(trades), symbol)| ==> Legs(env, Front(trades), symbol)[k] < |trades| - 1;
    }
  }

  lemma {:induction false} SmallestIsAttained(trades: seq<Trade>, legs: seq<nat>) returns (k: nat)
    requires |legs| > 0 && forall k :: 0 <= k < |legs| ==> legs[k] < |trades|
    ensures k < |legs| && Smallest(trades, legs) == Threshold(trades[legs[k]])
    ensures forall j :: 0 <= j < |legs| ==> Smallest(trades, legs) <= Threshold(trades[legs[j]])
    decreases |legs|
  {
    k := 0;
    if |legs| > 1 {
      k := SmallestIsAttained(trades, Front(legs));
      if Smallest(trades, Front(legs)) > Threshold(trades[Last(legs)]) {
        k := |legs| - 1;
      }
    }
  }

  /** A profit exit is submitted exactly for the eligible legs of a symbol whose unrealised
      profits together reach some leg's threshold. */
  lemma ProfitExitExactly(env: Env, trades: seq<Trade>, i: nat)
    requires i < |trades| && First(env, trades[i]) == NoExit && Covered(env, trades[i]) && env.reply(trades[i].id, true).Accepted?
    ensures Decisions(env, trades)[i].Exit? <==>
              Candidate(env, trades[i])
              && exists k :: 0 <= k < |Legs(env, trades, trades[i].symbol)|
                             && Total(env, trades, Legs(env, trades, trades[i].symbol))
                                >= Threshold(trades[Legs(env, trades, trades[i].symbol)[k]])
  {
    var legs := Legs(env, trades, trades[i].symbol);
    LegsExactly(env, trades, trades[i].symbol, i);
    if |legs| > 0 {
      var k := SmallestIsAttained(trades, legs);
      if Takes(env, trades, trades[i].symbol) {
        assert Total(env, trades, legs) >= Threshold(trades[legs[k]]);
      }
    }
  }

  // ---------------------------------------------------------------- when a trade leaves, in its own terms

  /** The price a trade was entered at: the fill or, when there is none or it is zero, the limit. */
  predicate EnteredAt(t: Trade, p: real) {
    p != 0.0 && (t.filled == Some(p) || ((t.filled == None || t.filled == Some(0.0)) && t.limit == Some(p)))
  }

  predicate HasEntry(t: Trade) {
    t.status != EntryPending && t.shares
    && ((t.filled.Some? && t.filled != Some(0.0)) || (t.limit.Some? && t.limit != Some(0.0)))
  }

  predicate Quoted(env: Env, t: Trade) {
    t.symbol in env.prices && 0.0 < env.prices[t.symbol]
  }

  /** Held for its days and no less than one, of 86400 seconds each. */
  predicate Expired(t: Trade) {
    t.age.Some? && 86400 <= t.age.value && 86400 * t.maxDays <= t.age.value
  }

  predicate AtTarget(env: Env, t: Trade) {
    Quoted(env, t) && t.target.Some? && t.target.value <= env.prices[t.symbol]
  }

  predicate AtStop(env: Env, t: Trade) {
    Quoted(env, t) && t.stop.Some? && env.prices[t.symbol] <= t.stop.value
  }

  /** The holding is known to cover the trade, a paper one only if there is something to sell,
      and the broker takes the order. */
  predicate Sendable(env: Env, t: Trade, second: bool) {
    && env.held(t.symbol).Some? && t.quantity <= env.held(t.symbol).value
    && (env.venue == Live || (env.venue == Paper && 0 < env.held(t.symbol).value))
    && env.reply(t.id, second).Accepted?
  }

  predicate LeavesFor(d: Decision, reason: Reason) {
    d.Exit? && d.reason == reason
  }

  /** The first of halt, age, target and stop that applies, and nothing without a quote. */
  lemma LeavesByRuleExactly(env: Env, trades: seq<Trade>, i: nat)
    requires i < |trades|
    ensures var (t, d) := (trades[i], Decisions(env, trades)[i]);
            var out := HasEntry(t) && Quoted(env, t) && Sendable(env, t, false);
            && (LeavesFor(d, RiskExit) <==> out && env.risk)
            && (LeavesFor(d, TimeExit) <==> out && !env.risk && Expired(t))
            && (LeavesFor(d, TakeProfit) <==> out && !env.risk && !Expired(t) && AtTarget(env, t))
            && (LeavesFor(d, StopLoss) <==> out && !env.risk && !Expired(t) && !AtTarget(env, t) && AtStop(env, t))
            && (d == NoPrice <==> HasEntry(t) && !Quoted(env, t))
            && (d.Exit? ==> env.reply(t.id, d.reason == ProfitExit) == Accepted(d.order))
  {
    EntryPriceExactly(trades[i]);
    ExpiredExactly(trades[i]);
    hide EntryPrice, TooOld, Takes, Candidate;
  }

  lemma EntryPriceExactly(t: Trade)
    ensures forall p :: EntryPrice(t) == Some(p) <==> EnteredAt(t, p)
    ensures HasEntry(t) <==> t.status != EntryPending && t.shares && EntryPrice(t).Some?
  {
  }

  lemma ExpiredExactly(t: Trade)
    ensures TooOld(t) <==> Expired(t)
  {
    if t.age.Some? {
      DaysInOrder(t.maxDays);
    }
  }

  lemma DaysInOrder(days: int)
    ensures if days < 1 then days * 86400 <= 86400 else 86400 <= days * 86400
  {
  }

  /** A leg for the profit rule: an open share position with a price paid and a quote, which
      no rule takes out. */
  ghost predicate Stays(env: Env, t: Trade) {
    && t.status == Open && t.shares && 0 < t.quantity && Quoted(env, t)
    && (exists p :: 0.0 < p && EnteredAt(t, p))
    && !((env.risk || Expired(t) || AtTarget(env, t) || AtStop(env, t)) && Sendable(env, t, false))
  }

  lemma StaysExactly(env: Env, t: Trade)
    ensures Eligible(env, t) <==> Stays(env, t)
    ensures Stays(env, t) ==> 0 < t.quantity
  {
    EntryPriceExactly(t);
    ExpiredExactly(t);
    hide EntryPrice, TooOld, EnteredAt;
  }

  /** Shares and cost of the legs of a symbol, added up over the list of trades. */
  ghost function SharesStaying(env: Env, trades: seq<Trade>, symbol: string): int {
    if |trades| == 0 then 0
    else SharesStaying(env, trades[1..], symbol) + if trades[0].symbol == symbol && Stays(env, trades[0]) then trades[0].quantity else 0
  }

  ghost function CostStaying(env: Env, trades: seq<Trade>, symbol: string): real {
    if |trades| == 0 then 0.0
    else CostStaying(env, trades[1..], symbol) + if trades[0].symbol == symbol && Stays(env, trades[0]) then CostOf(trades[0]) else 0.0
  }

  function CostOf(t: Trade): real {
    if EntryPrice(t).Some? then EntryPrice(t).value * t.quantity as real else 0.0
  }

  /** What the legs of a symbol fetch at its quote, less what they cost. */
  ghost function ProfitStaying(env: Env, trades: seq<Trade>, symbol: string): real
    requires symbol in env.prices
  {
    env.prices[symbol] * SharesStaying(env, trades, symbol) as real - CostStaying(env, trades, symbol)
  }

  lemma {:induction false} StayingSnoc(env: Env, trades: seq<Trade>, t: Trade, symbol: string)
    ensures SharesStaying(env, trades + [t], symbol)
         == SharesStaying(env, trades, symbol) + if t.symbol == symbol && Stays(env, t) then t.quantity else 0
    ensures CostStaying(env, trades + [t], symbol)
         == CostStaying(env, trades, symbol) + if t.symbol == symbol && Stays(env, t) then CostOf(t) else 0.0
    decreases |trades|
  {
    hide Stays, CostOf;
    if |trades| == 0 {
      assert [] + [t] == [t] && [t][1..] == [];
    } else {
      assert (trades + [t])[1..] == trades[1..] + [t];
      StayingSnoc(env, trades[1..], t, symbol);
    }
  }

  lemma {:induction false} TotalIsProfit(env: Env, trades: seq<Trade>, symbol: string)
    requires symbol in env.prices && env.prices[symbol] > 0.0
    ensures AreLegs(env, trades, Legs(env, trades, symbol))
    ensures Total(env, trades, Legs(env, trades, symbol)) == ProfitStaying(env, trades, symbol)
    decreases |trades|
  {
    LegsAscend(env, trades, symbol);
    if |trades| > 0 {
      var front, t := Front(trades), Last(trades);
      assert front + [t] == trades;
      TotalIsProfit(env, front, symbol);
      TotalOfFront(env, front, t, Legs(env, front, symbol));
      StayingSnoc(env, front, t, symbol);
      StaysExactly(env, t);
      hide Eligible, Stays, Total, CostOf, ProfitStaying;
      TotalOneMore(env, trades, Legs(env, front, symbol), symbol);
      ProfitOneMore(env, front, t, symbol);
    }
  }

  lemma TotalOneMore(env: Env, trades: seq<Trade>, legs: seq<nat>, symbol: string)
    requires |trades| > 0 && AreLegs(env, trades, legs)
    ensures Eligible(env, Last(trades)) ==>
              && AreLegs(env, trades, legs + [|trades| - 1]) && Candidate(env, Last(trades))
              && Total(env, trades, legs + [|trades| - 1]) == Total(env, trades, legs) + Unrealized(env, Last(trades))
  {
    SnocFront(legs, |trades| - 1);
    hide Unrealized;
  }

  lemma ProfitOneMore(env: Env, trades: seq<Trade>, t: Trade, symbol: string)
    requires symbol in env.prices && env.prices[symbol] > 0.0
    ensures if t.symbol == symbol && Eligible(env, t)
            then Candidate(env, t) && ProfitStaying(env, trades + [t], symbol) == ProfitStaying(env, trades, symbol) + Unrealized(env, t)
            else ProfitStaying(env, trades + [t], symbol) == ProfitStaying(env, trades, symbol)
  {
    StayingSnoc(env, trades, t, symbol);
    StaysExactly(env, t);
    hide SharesStaying, CostStaying, Stays;
    if t.symbol == symbol && Eligible(env, t) {
      LegValue(env.prices[symbol], EntryPrice(t).value, t.quantity, SharesStaying(env, trades, symbol));
    }
  }

  lemma LegValue(q: real, paid: real, quantity: int, n: int)
    ensures (q - paid) * quantity as real + q * n as real == q * (n + quantity) as real - paid * quantity as real
  {
  }

  lemma {:induction false} TotalOfFront(env: Env, trades: seq<Trade>, t: Trade, legs: seq<nat>)
    requires AreLegs(env, trades, legs)
    ensures AreLegs(env, trades + [t], legs) && Total(env, trades + [t], legs) == Total(env, trades, legs)
    decreases |legs|
  {
    hide Eligible, Unrealized;
    if |legs| > 0 {
      TotalOfFront(env, trades, t, Front(legs));
    }
  }

  /** The profit a trade asks for: its own if it has one, a hundred otherwise. */
  predicate Reaches(t: Trade, profit: real) {
    match t.minProfit
    case Some(least) => if least > 0.0 then least <= profit else 100.0 <= profit
    case None => 100.0 <= profit
  }

  /** A leg of `trades` for the symbol that asks for no more than this profit. */
  ghost predicate SomeLegAsks(env: Env, trades: seq<Trade>, symbol: string, profit: real) {
    exists k :: 0 <= k < |trades| && trades[k].symbol == symbol && Stays(env, trades[k]) && Reaches(trades[k], profit)
  }

  /** A trade leaves for profit exactly when it stays by the rules, can be sold, and the legs of
      its symbol at the quote, less what they cost, reach what one of them asks for. */
  lemma LeavesForProfitExactly(env: Env, trades: seq<Trade>, i: nat)
    requires i < |trades|
    ensures var (t, d) := (trades[i], Decisions(env, trades)[i]);
            LeavesFor(d, ProfitExit) <==>
              && Stays(env, t) && Sendable(env, t, true) && t.symbol in env.prices
              && SomeLegAsks(env, trades, t.symbol, ProfitStaying(env, trades, t.symbol))
  {
    var t := trades[i];
    StaysExactly(env, t);
    NotForProfitByRule(env, t);
    if Stays(env, t) {
      TotalIsProfit(env, trades, t.symbol);
      TakesExactly(env, trades, t.symbol, i);
    }
    hide Stays, Takes, SomeLegAsks, Eligible, First, ProfitStaying;
  }

  lemma NotForProfitByRule(env: Env, t: Trade)
    ensures !LeavesFor(First(env, t), ProfitExit)
    ensures LeavesFor(Submit(env, t, ProfitExit, true), ProfitExit) <==> Sendable(env, t, true)
    ensures Stays(env, t) ==> t.symbol in env.prices && env.prices[t.symbol] > 0.0
  {
  }

  lemma TakesExactly(env: Env, trades: seq<Trade>, symbol: string, i: nat)
    requires i < |trades| && trades[i].symbol == symbol && Eligible(env, trades[i])
    requires AreLegs(env, trades, Legs(env, trades, symbol))
    ensures Takes(env, trades, symbol) <==> SomeLegAsks(env, trades, symbol, Total(env, trades, Legs(env, trades, symbol)))
  {
    var legs := Legs(env, trades, symbol);
    LegsExactly(env, trades, symbol, i);
    var k := SmallestIsAttained(trades, legs);
    var total := Total(env, trades, legs);
    hide Eligible, Stays, Total, Smallest, Legs;
    if total >= Smallest(trades, legs) {
      StaysExactly(env, trades[legs[k]]);
      assert Reaches(trades[legs[k]], total);
    }
    if SomeLegAsks(env, trades, symbol, total) {
      var j :| 0 <= j < |trades| && trades[j].symbol == symbol && Stays(env, trades[j]) && Reaches(trades[j], total);
      StaysExactly(env, trades[j]);
      LegsExactly(env, trades, symbol, j);
      var n :| 0 <= n < |legs| && legs[n] == j;
      assert Smallest(trades, legs) <= Threshold(trades[legs[n]]);
    }
  }

  /** The plain case: a symbol with one leg leaves when quote less price paid, times its
      quantity, reaches what it asks for. */
  lemma OneLegForProfit(env: Env, t: Trade, paid: real)
    requires Stays(env, t) && Sendable(env, t, true) && EnteredAt(t, paid)
    ensures LeavesFor(Decisions(env, [t])[0], ProfitExit) <==> Reaches(t, (env.prices[t.symbol] - paid) * t.quantity as real)
  {
    EntryPriceExactly(t);
    LeavesForProfitExactly(env, [t], 0);
    NotForProfitByRule(env, t);
    hide Stays, EnteredAt, EntryPrice, Decisions;
    OneLegProfit(env, t);
    LegValue(env.prices[t.symbol], paid, t.quantity, 0);
    assert [t][0] == t;
  }

  lemma OneLegProfit(env: Env, t: Trade)
    requires Stays(env, t) && t.symbol in env.prices
    ensures ProfitStaying(env, [t], t.symbol) == env.prices[t.symbol] * t.quantity as real - CostOf(t)
    ensures forall profit :: SomeLegAsks(env, [t], t.symbol, profit) <==> Reaches(t, profit)
  {
    assert [t][1..] == [] && [t][0] == t;
    hide Stays, CostOf, Reaches;
    assert SharesStaying(env, [], t.symbol) == 0 && CostStaying(env, [], t.symbol) == 0.0;
    assert SharesStaying(env, [t], t.symbol) == t.quantity;
    assert CostStaying(env, [t], t.symbol) == CostOf(t);
    forall profit ensures SomeLegAsks(env, [t], t.symbol, profit) <==> Reaches(t, profit) {
      assert Reaches([t][0], profit) == Reaches(t, profit);
    }
  }

  /** The same holdings and answers at another set of quotes. */
  ghost predicate SameButQuotes(env: Env, other: Env) {
    other == env.(prices := other.prices)
  }

  /** While the rules take out none of its legs, a symbol that leaves for profit still does at a
      higher quote. */
  lemma HigherQuoteStillLeaves(env: Env, other: Env, trades: seq<Trade>, i: nat)
    requires i < |trades| && SameButQuotes(env, other) && LeavesFor(Decisions(env, trades)[i], ProfitExit)
    requires trades[i].symbol in other.prices && other.prices[trades[i].symbol] >= env.prices[trades[i].symbol]
    requires forall k :: 0 <= k < |trades| && trades[k].symbol == trades[i].symbol ==> (Stays(env, trades[k]) <==> Stays(other, trades[k]))
    ensures LeavesFor(Decisions(other, trades)[i], ProfitExit)
  {
    var symbol := trades[i].symbol;
    LeavesForProfitExactly(env, trades, i);
    LeavesForProfitExactly(other, trades, i);
    SameStaying(env, other, trades, symbol);
    MoreAtAHigherQuote(env, other, trades, symbol);
    hide Stays, ProfitStaying, Decisions, Sendable;
    var before, after := ProfitStaying(env, trades, symbol), ProfitStaying(other, trades, symbol);
    var k :| 0 <= k < |trades| && trades[k].symbol == symbol && Stays(env, trades[k]) && Reaches(trades[k], before);
    assert Stays(other, trades[k]) && Reaches(trades[k], after);
    assert Stays(other, trades[i]) && Sendable(other, trades[i], true) by {
      SameSending(env, other, trades[i]);
    }
  }

  lemma SameSending(env: Env, other: Env, t: Trade)
    requires SameButQuotes(env, other)
    ensures Sendable(env, t, true) == Sendable(other, t, true)
  {
  }

  lemma MoreAtAHigherQuote(env: Env, other: Env, trades: seq<Trade>, symbol: string)
    requires symbol in env.prices && symbol in other.prices && env.prices[symbol] <= other.prices[symbol]
    requires SharesStaying(env, trades, symbol) == SharesStaying(other, trades, symbol) >= 0
    requires CostStaying(env, trades, symbol) == CostStaying(other, trades, symbol)
    ensures ProfitStaying(env, trades, symbol) <= ProfitStaying(other, trades, symbol)
  {
    ScaleReal(SharesStaying(env, trades, symbol) as real, env.prices[symbol], other.prices[symbol]);
  }

  lemma {:induction false} SameStaying(env: Env, other: Env, trades: seq<Trade>, symbol: string)
    requires forall k :: 0 <= k < |trades| && trades[k].symbol == symbol ==> (Stays(env, trades[k]) <==> Stays(other, trades[k]))
    ensures SharesStaying(env, trades, symbol) == SharesStaying(other, trades, symbol) >= 0
    ensures CostStaying(env, trades, symbol) == CostStaying(other, trades, symbol)
    decreases |trades|
  {
    if |trades| > 0 {
      assert forall k :: 0 <= k < |trades| - 1 ==> trades[1..][k] == trades[k + 1];
      SameStaying(env, other, trades[1..], symbol);
      StaysExactly(env, trades[0]);
      StaysExactly(other, trades[0]);
      assert Stays(env, trades[0]) ==> 0 < trades[0].quantity;
      hide Stays, Eligible;
    }
  }

  // ---------------------------------------------------------------- the manager

  datatype Sell = Sell(id: int, symbol: string, quantity: int)

  datatype Book = Book(store: map<int, Trade>, order: seq<int>, sells: seq<Sell>)

  predicate Listed(store: map<int, Trade>, id: int) {
    id in store && (store[id].status.Open? || store[id].status.EntryPending?)
  }

  function ListOpen(store: map<int, Trade>, order: seq<int>): seq<Trade> {
    if |order| == 0 then []
    else if Listed(store, Last(order)) then ListOpen(store, Front(order)) + [store[Last(order)]]
    else ListOpen(store, Front(order))
  }

  predicate StoredOpen(store: map<int, Trade>, id: int) {
    id in store && store[id].status in {Open, EntryPending}
  }

  /** The pass looks at the trades stored open or pending entry, in the store's order. */
  ghost predicate OpenAt(store: map<int, Trade>, order: seq<int>, trades: seq<Trade>, at: seq<nat>) {
    && |at| == |trades|
    && (forall j, k :: 0 <= j < k < |at| ==> at[j] < at[k])
    && (forall k :: 0 <= k < |at| ==> at[k] < |order| && order[at[k]] in store && trades[k] == store[order[at[k]]])
    && (forall i :: 0 <= i < |order| ==> (i in at <==> StoredOpen(store, order[i])))
  }

  lemma {:induction false} ListOpenExactly(store: map<int, Trade>, order: seq<int>) returns (at: seq<nat>)
    ensures OpenAt(store, order, ListOpen(store, order), at)
    decreases |order|
  {
    if |order| == 0 {
      return [];
    }
    var front, id := Front(order), Last(order);
    at := ListOpenExactly(store, front);
    assert front + [id] == order;
    assert Listed(store, id) <==> StoredOpen(store, id);
    OneMoreOpen(store, front, id, ListOpen(store, front), at);
    if StoredOpen(store, id) {
      at := at + [|front|];
    }
  }

  lemma OneMoreOpen(store: map<int, Trade>, order: seq<int>, id: int, trades: seq<Trade>, at: seq<nat>)
    requires OpenAt(store, order, trades, at)
    ensures if StoredOpen(store, id) then OpenAt(store, order + [id], trades + [store[id]], at + [|order|])
            else OpenAt(store, order + [id], trades, at)
  {
    var more, all := order + [id], at + [|order|];
    assert forall i :: 0 <= i < |order| ==> more[i] == order[i];
    forall i | 0 <= i < |more|
      ensures StoredOpen(store, id) ==> (i in all <==> StoredOpen(store, more[i]))
      ensures !StoredOpen(store, id) ==> (i in at <==> StoredOpen(store, more[i]))
    {
      assert i in all <==> i in at || i == |order|;
    }
  }

  function Sold(sells: seq<Sell>, id: int): nat {
    if |sells| == 0 then 0 else Sold(Front(sells), id) + if Last(sells).id == id then 1 else 0
  }

  function SellsOf(sells: seq<Sell>, id: int): set<int> {
    set i | 0 <= i < |sells| && sells[i].id == id
  }

  lemma {:induction false} SoldExactly(sells: seq<Sell>, id: int)
    ensures Sold(sells, id) == |SellsOf(sells, id)|
    decreases |sells|
  {
    if |sells| > 0 {
      SoldExactly(Front(sells), id);
      var n := |sells| - 1;
      assert forall i :: 0 <= i < n ==> Front(sells)[i] == sells[i];
      assert SellsOf(sells, id) == SellsOf(Front(sells), id) + if sells[n].id == id then {n} else {};
    } else {
      assert SellsOf(sells, id) == {};
    }
  }

  /** The trade with its exit pending, if the decision is to exit. */
  function Marked(t: Trade, d: Decision): Trade {
    if d.Exit? then t.(status := ExitPending) else t
  }

  class AutonomousExitManager {
    var store: map<int, Trade>
    var order: seq<int>
    var sells: seq<Sell>

    ghost function View(): Book
      reads this
    {
      Book(store, order, sells)
    }

    constructor (store: map<int, Trade>, order: seq<int>)
      ensures View() == Book(store, order, [])
    {
      this.store, this.order, sells := store, order, [];
    }

    method SubmitExit(env: Env, t: Trade, reason: Reason, second: bool) returns (d: Decision)
      requires t.id in store && store[t.id] == t
      modifies this`store, this`sells
      ensures d == Submit(env, t, reason, second)
      ensures store == old(store)[t.id := Marked(t, d)]
      ensures sells == if d.Exit? then old(sells) + [Sell(t.id, t.symbol, t.quantity)] else old(sells)
    {
      assert store == store[t.id := t];
      if !Covered(env, t) {
        return NoExit;
      }
      var reply := env.reply(t.id, second);
      if reply.Refused? {
        return NoExit;
      }
      sells := sells + [Sell(t.id, t.symbol, t.quantity)];
      store := store[t.id := t.(status := ExitPending)];
      d := Exit(reason, reply.order);
    }

    method EvaluateOne(env: Env, t: Trade) returns (d: Decision)
      requires t.id in store && store[t.id] == t
      modifies this`store, this`sells
      ensures d == First(env, t)
      ensures store == old(store)[t.id := Marked(t, d)]
      ensures sells == if d.Exit? then old(sells) + [Sell(t.id, t.symbol, t.quantity)] else old(sells)
    {
      assert store == store[t.id := t];
      if t.status == EntryPending || !t.shares || EntryPrice(t).None? {
        return NoExit;
      }
      var price := PriceOf(env, t.symbol);
      if env.risk {
        if price.None? {
          return NoPrice;
        }
        d := SubmitExit(env, t, RiskExit, false);
        return;
      }
      if TooOld(t) {
        if price.None? {
          return NoPrice;
        }
        d := SubmitExit(env, t, TimeExit, false);
        return;
      }
      if price.None? {
        return NoPrice;
      }
      if t.target.Some? && price.value >= t.target.value {
        d := SubmitExit(env, t, TakeProfit, false);
        return;
      }
      if t.stop.Some? && price.value <= t.stop.value {
        d := SubmitExit(env, t, StopLoss, false);
        return;
      }
      d := NoExit;
    }
  
    /** One submission for trade `i` of the pass, recorded in `all`. */
    method Settle(env: Env, ghost b0: Book, trades: seq<Trade>, ghost all: seq<Decision>, i: nat, reason: Reason) returns (d: Decision)
      requires i < |trades| && Settled(View(), b0, trades, all) && all[i] == NoExit
      modifies this`store, this`sells
      ensures d == Submit(env, trades[i], reason, true) && Settled(View(), b0, trades, all[i := d])
    {
      SettledAt(View(), b0, trades, all, i);
      d := SubmitExit(env, trades[i], reason, true);
      SettledMove(old(View()), View(), b0, trades, all, i, d);
    }

    /** The first phase: every trade by its rules, candidates grouped by symbol in the order
        the symbols first appear. */
    method FirstPhase(env: Env, ghost b0: Book, trades: seq<Trade>)
      returns (decisions: seq<Decision>, groups: map<string, seq<nat>>, symbols: seq<string>)
      requires Settled(View(), b0, trades, NoDecisions(trades))
      modifies this`store, this`sells
      ensures |decisions| == |trades| && forall i :: 0 <= i < |trades| ==> decisions[i] == First(env, trades[i])
      ensures Settled(View(), b0, trades, decisions)
      ensures Grouped(env, trades, groups, symbols)
    {
      hide First, Grouped, Settled, Candidate;
      NothingGrouped(env, trades);
      decisions, groups, symbols := [], map[], [];
      ghost var all := NoDecisions(trades);
      for n := 0 to |trades|
        invariant |decisions| == n && |all| == |trades|
        invariant forall i :: 0 <= i < n ==> decisions[i] == First(env, trades[i]) == all[i]
        invariant forall i :: n <= i < |trades| ==> all[i] == NoExit
        invariant Settled(View(), b0, trades, all) && order == old(order)
        invariant Grouped(env, trades[..n], groups, symbols)
      {
        SettledAt(View(), b0, trades, all, n);
        ghost var before := View();
        var decision := EvaluateOne(env, trades[n]);
        SettledMove(before, View(), b0, trades, all, n, decision);
        all := all[n := decision];
        decisions := decisions + [decision];
        GroupedSnoc(env, trades, n, groups, symbols);
        if decision == NoExit && Candidate(env, trades[n]) {
          var symbol := trades[n].symbol;
          if symbol in groups {
            groups := groups[symbol := groups[symbol] + [n]];
          } else {
            groups := groups[symbol := [n]];
            symbols := symbols + [symbol];
          }
        }
      }
      assert trades[..|trades|] == trades;
      assert all == decisions;
    }

    /** A symbol's profit exit: every leg of the group is submitted. */
    method ExitGroup(env: Env, ghost b0: Book, trades: seq<Trade>, decisions: seq<Decision>, legs: seq<nat>) returns (out: seq<Decision>)
      requires Settled(View(), b0, trades, decisions) && AreLegs(env, trades, legs)
      requires forall j, k :: 0 <= j < k < |legs| ==> legs[j] != legs[k]
      requires forall k :: 0 <= k < |legs| ==> decisions[legs[k]] == NoExit
      modifies this`store, this`sells
      ensures Settled(View(), b0, trades, out)
      ensures forall i :: 0 <= i < |trades| ==>
                            out[i] == if i in legs then Submit(env, trades[i], ProfitExit, true) else decisions[i]
    {
      out := decisions;
      for k := 0 to |legs|
        invariant Settled(View(), b0, trades, out)
        invariant forall i :: 0 <= i < |trades| ==>
                                out[i] == if i in legs[..k] then Submit(env, trades[i], ProfitExit, true) else decisions[i]
      {
        assert legs[..k + 1] == legs[..k] + [legs[k]];
        assert legs[k] !in legs[..k];
        var decision := Settle(env, b0, trades, out, legs[k], ProfitExit);
        out := out[legs[k] := decision];
      }
      assert legs[..|legs|] == legs;
    }

    /** The second phase for one symbol. */
    method ProfitExitOf(env: Env, ghost b0: Book, trades: seq<Trade>, before: seq<Decision>, items: seq<nat>, ghost symbol: string)
      returns (after: seq<Decision>)
      requires Settled(View(), b0, trades, before) && items == Legs(env, trades, symbol) && |items| > 0
      requires forall i :: 0 <= i < |trades| && trades[i].symbol == symbol ==> before[i] == First(env, trades[i])
      modifies this`store, this`sells
      ensures Settled(View(), b0, trades, after)
      ensures DecidedFor(env, trades, symbol, before, after)
    {
      LegsAscend(env, trades, symbol);
      var aggregate := TotalOf(env, trades, items);
      var threshold := SmallestOf(trades, items);
      after := before;
      if aggregate >= threshold {
        after := ExitGroup(env, b0, trades, before, items);
      }
      SymbolDone(env, trades, symbol, before, after);
    }

    method SecondPhase(env: Env, ghost b0: Book, trades: seq<Trade>, first: seq<Decision>,
                       groups: map<string, seq<nat>>, symbols: seq<string>) returns (decisions: seq<Decision>)
      requires Settled(View(), b0, trades, first) && Grouped(env, trades, groups, symbols)
      requires DecidedIn(env, trades, [], first)
      modifies this`store, this`sells
      ensures Settled(View(), b0, trades, decisions) && DecidedIn(env, trades, symbols, decisions)
    {
      decisions := first;
      for k := 0 to |symbols|
        invariant Settled(View(), b0, trades, decisions) && DecidedIn(env, trades, symbols[..k], decisions)
      {
        assert symbols[..k + 1] == symbols[..k] + [symbols[k]];
        assert symbols[k] !in symbols[..k];
        assert GroupRight(env, trades, groups, symbols[k]);
        decisions := ProfitExitOf(env, b0, trades, decisions, groups[symbols[k]], symbols[k]);
      }
      assert symbols[..|symbols|] == symbols;
    }

    /** `evaluate_open_trades`: one decision for every listed trade, and the books follow. */
    method EvaluateOpenTrades(env: Env) returns (decisions: seq<Decision>)
      requires Filed(View())
      modifies this`store, this`sells
      ensures var trades := ListOpen(old(store), old(order));
              decisions == Decisions(env, trades) && Settled(View(), old(View()), trades, decisions)
    {
      var trades := ListOpen(store, order);
      ghost var b0 := View();
      ListedAre(store, order);
      NothingSettled(View(), trades);
      var first, groups, symbols := FirstPhase(env, b0, trades);
      decisions := SecondPhase(env, b0, trades, first, groups, symbols);
      AllDecided(env, trades, groups, symbols, decisions);
    }
  }

  method TotalOf(env: Env, trades: seq<Trade>, legs: seq<nat>) returns (sum: real)
    requires AreLegs(env, trades, legs)
    ensures sum == Total(env, trades, legs)
  {
    sum := 0.0;
    for k := 0 to |legs|
      invariant AreLegs(env, trades, legs[..k]) && sum == Total(env, trades, legs[..k])
    {
      assert Front(legs[..k + 1]) == legs[..k];
      sum := sum + Unrealized(env, trades[legs[k]]);
    }
    assert legs[..|legs|] == legs;
  }

  method SmallestOf(trades: seq<Trade>, legs: seq<nat>) returns (least: real)
    requires |legs| > 0 && forall k :: 0 <= k < |legs| ==> legs[k] < |trades|
    ensures least == Smallest(trades, legs)
  {
    least := Threshold(trades[legs[0]]);
    for k := 1 to |legs|
      invariant least == Smallest(trades, legs[..k])
    {
      assert Front(legs[..k + 1]) == legs[..k];
      least := Smaller(least, Threshold(trades[legs[k]]));
    }
    assert legs[..|legs|] == legs;
  }

  /** The store files every trade under its identifier, listed once. */
  ghost predicate Filed(b: Book) {
    && (forall id :: id in b.store ==> b.store[id].id == id)
    && (forall i, j :: 0 <= i < j < |b.order| ==> b.order[i] != b.order[j])
  }

  lemma {:induction false} ListedAre(store: map<int, Trade>, order: seq<int>)
    requires Filed(Book(store, order, []))
    ensures DistinctIds(ListOpen(store, order))
    ensures forall t :: t in ListOpen(store, order) ==> t.id in order && Listed(store, t.id) && store[t.id] == t
    decreases |order|
  {
    if |order| > 0 {
      var front := Front(order);
      assert forall i :: 0 <= i < |front| ==> front[i] == order[i] && order[i] != order[|order| - 1];
      ListedAre(store, front);
      var open := ListOpen(store, front);
      assert forall i :: 0 <= i < |open| ==> open[i] in open;
      assert Last(order) !in front && order == front + [Last(order)];
    }
  }

  lemma NothingSettled(b: Book, trades: seq<Trade>)
    requires DistinctIds(trades) && forall t :: t in trades ==> t.id in b.store && b.store[t.id] == t
    ensures Settled(b, b, trades, NoDecisions(trades))
  {
    var d := NoDecisions(trades);
    forall id ensures SoldRight(b, b, trades, d, id) {
    }
    forall i | 0 <= i < |trades| ensures StoredRight(b, trades, d, i) {
      assert trades[i] in trades;
    }
  }

  lemma {:induction false} LegsAscend(env: Env, trades: seq<Trade>, symbol: string)
    ensures Ascending(Legs(env, trades, symbol)) && AreLegs(env, trades, Legs(env, trades, symbol))
    decreases |trades|
  {
    if |trades| > 0 {
      LegsAscend(env, Front(trades), symbol);
      AscendingSnoc(Legs(env, Front(trades), symbol), |trades| - 1);
    }
  }

  predicate Ascending(legs: seq<nat>) {
    forall j, k :: 0 <= j < k < |legs| ==> legs[j] < legs[k]
  }

  lemma AscendingSnoc(legs: seq<nat>, x: nat)
    requires Ascending(legs) && forall j :: 0 <= j < |legs| ==> legs[j] < x
    ensures Ascending(legs + [x])
  {
  }

  /** `symbol` decided: its trades have their final decisions, the rest are as they were. */
  ghost predicate DecidedFor(env: Env, trades: seq<Trade>, symbol: string, before: seq<Decision>, after: seq<Decision>) {
    && |before| == |after| == |trades|
    && forall i :: 0 <= i < |trades| ==> after[i] == if trades[i].symbol == symbol then Final(env, trades, trades[i]) else before[i]
  }

  ghost predicate DecidedIn(env: Env, trades: seq<Trade>, symbols: seq<string>, d: seq<Decision>) {
    && |d| == |trades|
    && forall i :: 0 <= i < |trades| ==>
                     d[i] == if trades[i].symbol in symbols then Final(env, trades, trades[i]) else First(env, trades[i])
  }

  lemma {:induction false} SymbolDone(env: Env, trades: seq<Trade>, symbol: string, before: seq<Decision>, after: seq<Decision>)
    requires |before| == |after| == |trades| && |Legs(env, trades, symbol)| > 0
    requires forall i :: 0 <= i < |trades| && trades[i].symbol == symbol ==> before[i] == First(env, trades[i])
    requires if Takes(env, trades, symbol) then
               forall i :: 0 <= i < |trades| ==>
                             after[i] == if i in Legs(env, trades, symbol) then Submit(env, trades[i], ProfitExit, true) else before[i]
             else after == before
    ensures DecidedFor(env, trades, symbol, before, after)
  {
    forall i | 0 <= i < |trades| ensures after[i] == if trades[i].symbol == symbol then Final(env, trades, trades[i]) else before[i] {
      LegsExactly(env, trades, symbol, i);
    }
  }

  lemma AllDecided(env: Env, trades: seq<Trade>, groups: map<string, seq<nat>>, symbols: seq<string>, d: seq<Decision>)
    requires Grouped(env, trades, groups, symbols) && DecidedIn(env, trades, symbols, d)
    ensures d == Decisions(env, trades)
  {
    forall i | 0 <= i < |trades| ensures d[i] == Final(env, trades, trades[i]) {
      assert GroupRight(env, trades, groups, trades[i].symbol);
    }
  }

  function NoDecisions(trades: seq<Trade>): (d: seq<Decision>)
    ensures |d| == |trades| && forall i :: 0 <= i < |trades| ==> d[i] == NoExit
  {
    seq(|trades|, i => NoExit)
  }

  predicate Exiting(trades: seq<Trade>, d: seq<Decision>, id: int) {
    exists i :: 0 <= i < |trades| && i < |d| && trades[i].id == id && d[i].Exit?
  }

  predicate SoldRight(b: Book, b0: Book, trades: seq<Trade>, d: seq<Decision>, id: int) {
    Sold(b.sells, id) == Sold(b0.sells, id) + if Exiting(trades, d, id) then 1 else 0
  }

  predicate StoredRight(b: Book, trades: seq<Trade>, d: seq<Decision>, i: int)
    requires 0 <= i < |trades| && i < |d|
  {
    trades[i].id in b.store && b.store[trades[i].id] == Marked(trades[i], d[i])
  }

  ghost predicate DistinctIds(trades: seq<Trade>) {
    forall i, j :: 0 <= i < j < |trades| ==> trades[i].id != trades[j].id
  }

  ghost predicate Untouched(b: Book, b0: Book, trades: seq<Trade>) {
    && b.store.Keys == b0.store.Keys && b.order == b0.order
    && forall id :: id in b0.store && (forall i :: 0 <= i < |trades| ==> trades[i].id != id) ==> b.store[id] == b0.store[id]
  }

  /** The books after the decisions `d` on `trades`, starting from `b0`. */
  ghost predicate Settled(b: Book, b0: Book, trades: seq<Trade>, d: seq<Decision>) {
    && |d| == |trades| && DistinctIds(trades) && Untouched(b, b0, trades)
    && (forall i :: 0 <= i < |trades| ==> StoredRight(b, trades, d, i))
    && (forall id :: SoldRight(b, b0, trades, d, id))
  }

  lemma SettledAt(b: Book, b0: Book, trades: seq<Trade>, d: seq<Decision>, i: nat)
    requires Settled(b, b0, trades, d) && i < |trades| && d[i] == NoExit
    ensures trades[i].id in b.store && b.store[trades[i].id] == trades[i]
  {
    assert StoredRight(b, trades, d, i);
  }

  lemma ExitingMove(trades: seq<Trade>, d: seq<Decision>, i: nat, nd: Decision, id: int)
    requires DistinctIds(trades) && |d| == |trades| && i < |trades| && d[i] == NoExit
    ensures Exiting(trades, d[i := nd], id) <==> Exiting(trades, d, id) || (id == trades[i].id && nd.Exit?)
    ensures id == trades[i].id ==> !Exiting(trades, d, id)
  {
    if Exiting(trades, d, id) {
      var j :| 0 <= j < |trades| && j < |d| && trades[j].id == id && d[j].Exit?;
      assert d[i := nd][j] == d[j];
    }
    if id == trades[i].id && nd.Exit? {
      assert d[i := nd][i].Exit?;
    }
  }

  lemma SettledMove(b: Book, b': Book, b0: Book, trades: seq<Trade>, d: seq<Decision>, i: nat, nd: Decision)
    requires Settled(b, b0, trades, d) && i < |trades| && d[i] == NoExit
    requires b'.store == b.store[trades[i].id := Marked(trades[i], nd)] && b'.order == b.order
    requires b'.sells == if nd.Exit? then b.sells + [Sell(trades[i].id, trades[i].symbol, trades[i].quantity)] else b.sells
    ensures Settled(b', b0, trades, d[i := nd])
  {
    SettledAt(b, b0, trades, d, i);
    var e := d[i := nd];
    forall id ensures SoldRight(b', b0, trades, e, id) {
      assert SoldRight(b, b0, trades, d, id);
      ExitingMove(trades, d, i, nd, id);
      if nd.Exit? {
        SnocFront(b.sells, Sell(trades[i].id, trades[i].symbol, trades[i].quantity));
      }
    }
    forall j | 0 <= j < |trades| ensures StoredRight(b', trades, e, j) {
      assert StoredRight(b, trades, d, j);
    }
  }

  function GroupOf(groups: map<string, seq<nat>>, symbol: string): seq<nat> {
    if symbol in groups then groups[symbol] else []
  }

  predicate GroupRight(env: Env, trades: seq<Trade>, groups: map<string, seq<nat>>, symbol: string) {
    GroupOf(groups, symbol) == Legs(env, trades, symbol) && (symbol in groups ==> |groups[symbol]| > 0)
  }

  ghost predicate Grouped(env: Env, trades: seq<Trade>, groups: map<string, seq<nat>>, symbols: seq<string>) {
    && (forall symbol :: GroupRight(env, trades, groups, symbol))
    && (forall symbol :: symbol in symbols <==> symbol in groups)
    && (forall i, j :: 0 <= i < j < |symbols| ==> symbols[i] != symbols[j])
  }

  lemma NothingGrouped(env: Env, trades: seq<Trade>)
    ensures Grouped(env, trades[..0], map[], [])
  {
    assert trades[..0] == [];
    forall symbol ensures GroupRight(env, [], map[], symbol) {
    }
  }

  lemma GroupedSnoc(env: Env, trades: seq<Trade>, n: nat, groups: map<string, seq<nat>>, symbols: seq<string>)
    requires n < |trades| && Grouped(env, trades[..n], groups, symbols)
    ensures var (t, s) := (trades[n], trades[n].symbol);
            if !Eligible(env, t) then Grouped(env, trades[..n + 1], groups, symbols)
            else if s in groups then Grouped(env, trades[..n + 1], groups[s := groups[s] + [n]], symbols)
            else Grouped(env, trades[..n + 1], groups[s := [n]], symbols + [s])
  {
    var t, s := trades[n], trades[n].symbol;
    assert Front(trades[..n + 1]) == trades[..n];
    var after := if !Eligible(env, t) then groups else if s in groups then groups[s := groups[s] + [n]] else groups[s := [n]];
    var more := trades[..n + 1];
    forall symbol ensures GroupRight(env, more, after, symbol) {
      assert GroupRight(env, trades[..n], groups, symbol);
    }
  }

  // ---------------------------------------------------------------- at most one sell

  /** What happens to the books: a pass with its decisions, the reconciler putting a trade back
      to OPEN whose exit order failed, or other parts of the robot moving trades on and recording
      new ones: what they leave open was open before or has never been sold. */
  datatype Turn = Pass(decisions: seq<Decision>) | Revert(id: int) | MovesOn

  ghost predicate Follows(before: Book, turn: Turn, after: Book) {
    match turn
    case Pass(d) => Settled(after, before, ListOpen(before.store, before.order), d)
    case Revert(id) =>
      && id in before.store && before.store[id].status.ExitPending?
      && after == before.(store := before.store[id := before.store[id].(status := Open)])
    case MovesOn =>
      && Filed(after) && after.sells == before.sells
      && forall id :: Listed(after.store, id) ==> Listed(before.store, id) || Sold(before.sells, id) == 0
  }

  function Reverted(turns: seq<Turn>, id: int): nat {
    if |turns| == 0 then 0 else Reverted(Front(turns), id) + if Last(turns) == Revert(id) then 1 else 0
  }

  function RevertsOf(turns: seq<Turn>, id: int): set<int> {
    set i | 0 <= i < |turns| && turns[i] == Revert(id)
  }

  lemma {:induction false} RevertedExactly(turns: seq<Turn>, id: int)
    ensures Reverted(turns, id) == |RevertsOf(turns, id)|
    decreases |turns|
  {
    if |turns| > 0 {
      RevertedExactly(Front(turns), id);
      var n := |turns| - 1;
      assert forall i :: 0 <= i < n ==> Front(turns)[i] == turns[i];
      assert RevertsOf(turns, id) == RevertsOf(Front(turns), id) + if turns[n] == Revert(id) then {n} else {};
    } else {
      assert RevertsOf(turns, id) == {};
    }
  }

  predicate SoldRarely(b: Book, turns: seq<Turn>, id: int) {
    Sold(b.sells, id) <= Reverted(turns, id) + if Listed(b.store, id) then 0 else 1
  }

  /** What every turn keeps: a trade has been sold once more than it was put back at most, and
      no more often than that while it is listed. */
  ghost predicate SoldOnce(b: Book, turns: seq<Turn>) {
    Filed(b) && forall id :: SoldRarely(b, turns, id)
  }

  lemma ExitingIsListed(b: Book, trades: seq<Trade>, d: seq<Decision>, id: int)
    requires trades == ListOpen(b.store, b.order) && Filed(b) && Exiting(trades, d, id)
    ensures Listed(b.store, id)
  {
    ListedAre(b.store, b.order);
    var i :| 0 <= i < |trades| && i < |d| && trades[i].id == id && d[i].Exit?;
    assert trades[i] in trades;
  }

  /** A pass accepts at most one sell for a trade, and none for a trade that ever had one and
      was not put back since. */
  lemma PassSellsOnce(before: Book, after: Book, d: seq<Decision>, turns: seq<Turn>)
    requires SoldOnce(before, turns) && Follows(before, Pass(d), after)
    ensures SoldOnce(after, turns)
  {
    var trades := ListOpen(before.store, before.order);
    ListedAre(before.store, before.order);
    forall id | id in after.store ensures after.store[id].id == id {
      if i :| 0 <= i < |trades| && trades[i].id == id {
        assert StoredRight(after, trades, d, i);
      }
    }
    forall id ensures SoldRarely(after, turns, id) {
      assert SoldRight(after, before, trades, d, id) && SoldRarely(before, turns, id);
      if Exiting(trades, d, id) {
        ExitingIsListed(before, trades, d, id);
        var i :| 0 <= i < |trades| && i < |d| && trades[i].id == id && d[i].Exit?;
        assert StoredRight(after, trades, d, i);
      } else if id in before.store {
        if i :| 0 <= i < |trades| && trades[i].id == id {
          assert trades[i] in trades && StoredRight(after, trades, d, i);
        }
      }
    }
  }

  lemma TurnKeepsSoldOnce(before: Book, turn: Turn, after: Book, turns: seq<Turn>)
    requires SoldOnce(before, turns) && Follows(before, turn, after)
    ensures SoldOnce(after, turns + [turn])
  {
    if turn.Pass? {
      PassSellsOnce(before, after, turn.decisions, turns);
    }
    forall id ensures SoldRarely(after, turns + [turn], id) {
      SnocFront(turns, turn);
      assert SoldRarely(before, turns, id);
      assert turn.Pass? ==> SoldRarely(after, turns, id);
    }
  }

  /** Over any number of passes, whatever each of them meets and whichever trades are moved on,
      put back or newly recorded in between, a trade is sold at most once more often than it was
      put back to OPEN after a failed exit: never twice when it was not put back. */
  lemma {:induction false} PassesSellOnce(books: seq<Book>, turns: seq<Turn>, id: int)
    requires |books| == |turns| + 1 && SoldOnce(books[0], [])
    requires forall i :: 0 <= i < |turns| ==> Follows(books[i], turns[i], books[i + 1])
    ensures SoldOnce(Last(books), turns) && |SellsOf(Last(books).sells, id)| <= |RevertsOf(turns, id)| + 1
    decreases |turns|
  {
    hide Follows, SoldOnce;
    if |turns| > 0 {
      var n := |turns| - 1;
      forall i | 0 <= i < n ensures Follows(Front(books)[i], Front(turns)[i], Front(books)[i + 1]) {
        assert Follows(books[i], turns[i], books[i + 1]);
      }
      PassesSellOnce(Front(books), Front(turns), id);
      assert Follows(books[n], turns[n], books[n + 1]);
      TurnKeepsSoldOnce(books[n], turns[n], books[n + 1], Front(turns));
      assert Front(turns) + [turns[n]] == turns;
    }
    SoldOnceMeans(Last(books), turns, id);
  }

  lemma SoldOnceMeans(b: Book, turns: seq<Turn>, id: int)
    requires SoldOnce(b, turns)
    ensures |SellsOf(b.sells, id)| <= |RevertsOf(turns, id)| + 1
  {
    assert SoldRarely(b, turns, id);
    SoldExactly(b.sells, id);
    RevertedExactly(turns, id);
  }

  // ---------------------------------------------------------------- overselling

  function SoldShares(trades: seq<Trade>, d: seq<Decision>, symbol: string): int
    requires |trades| == |d|
  {
    if |trades| == 0 then 0
    else SoldShares(Front(trades), Front(d), symbol) + if Last(d).Exit? && Last(trades).symbol == symbol then Last(trades).quantity else 0
  }

  /** No single sell is larger than the holding. */
  lemma EachSellIsCovered(env: Env, trades: seq<Trade>, i: nat)
    requires i < |trades| && Decisions(env, trades)[i].Exit?
    ensures env.held(trades[i].symbol).Some? && trades[i].quantity <= env.held(trades[i].symbol).value
  {
  }

  /** A share leg with an entry price that the holding covers on its own. */
  predicate Sellable(t: Trade, symbol: string, h: int) {
    t.symbol == symbol && !t.status.EntryPending? && t.shares && EntryPrice(t).Some? && t.quantity <= h
  }

  function SellableShares(trades: seq<Trade>, symbol: string, h: int): int {
    if |trades| == 0 then 0
    else SellableShares(Front(trades), symbol, h) + if Sellable(Last(trades), symbol, h) then Last(trades).quantity else 0
  }

  predicate NoneShort(trades: seq<Trade>) {
    forall i :: 0 <= i < |trades| ==> trades[i].quantity >= 0
  }

  /** Whatever a pass meets, it sells no more of a symbol than its sellable legs. */
  lemma {:induction false} SellsWithinLegs(env: Env, trades: seq<Trade>, all: seq<Trade>, symbol: string, h: int)
    requires env.held(symbol) == Some(h) && NoneShort(trades)
    ensures SoldShares(trades, Passed(env, trades, all), symbol) <= SellableShares(trades, symbol, h)
    decreases |trades|
  {
    if |trades| > 0 {
      assert forall i :: 0 <= i < |trades| - 1 ==> Front(trades)[i] == trades[i];
      SellsWithinLegs(env, Front(trades), all, symbol, h);
      assert Front(Passed(env, trades, all)) == Passed(env, Front(trades), all);
    }
  }

  /** Under a halt that meets a quote and accepting brokers, every sellable leg leaves. */
  lemma {:induction false} HaltSellsEveryLeg(env: Env, trades: seq<Trade>, all: seq<Trade>, symbol: string, h: int)
    requires env.risk && PriceOf(env, symbol).Some? && env.held(symbol) == Some(h)
    requires env.venue.Live? || (env.venue.Paper? && h > 0)
    requires forall i :: 0 <= i < |trades| ==> env.reply(trades[i].id, false).Accepted?
    ensures SoldShares(trades, Passed(env, trades, all), symbol) == SellableShares(trades, symbol, h)
    decreases |trades|
  {
    if |trades| > 0 {
      assert forall i :: 0 <= i < |trades| - 1 ==> Front(trades)[i] == trades[i];
      HaltSellsEveryLeg(env, Front(trades), all, symbol, h);
      assert Front(Passed(env, trades, all)) == Passed(env, Front(trades), all);
      assert trades[|trades| - 1] == Last(trades);
    }
  }

  /** No pass can oversell a holding of `h`, whatever it meets. */
  ghost predicate NeverOversold(trades: seq<Trade>, symbol: string, h: int) {
    forall env: Env :: env.held(symbol) == Some(h) ==> SoldShares(trades, Decisions(env, trades), symbol) <= h
  }

  /** The guard looks at one order at a time. A holding can therefore be oversold exactly when
      the legs it covers one by one come to more than it holds together. */
  lemma NeverOversoldExactly(trades: seq<Trade>, symbol: string, h: int)
    requires NoneShort(trades)
    ensures NeverOversold(trades, symbol, h) <==> SellableShares(trades, symbol, h) <= h
  {
    forall env: Env | env.held(symbol) == Some(h)
      ensures SoldShares(trades, Decisions(env, trades), symbol) <= SellableShares(trades, symbol, h)
    {
      SellsWithinLegs(env, trades, trades, symbol, h);
      assert Passed(env, trades, trades) == Decisions(env, trades);
    }
    var halt := Env(Live, true, map[symbol := 1.0], (s: string) => Some(h), (id: int, second: bool) => Accepted(0));
    HaltSellsEveryLeg(halt, trades, trades, symbol, h);
    assert Passed(halt, trades, trades) == Decisions(halt, trades);
  }

  /** The decisions a pass over `all` takes for some of its trades. */
  function Passed(env: Env, trades: seq<Trade>, all: seq<Trade>): (d: seq<Decision>)
    ensures |d| == |trades| && forall i :: 0 <= i < |trades| ==> d[i] == Final(env, all, trades[i])
  {
    seq(|trades|, i requires 0 <= i < |trades| => Final(env, all, trades[i]))
  }

  /** Two legs of sixty shares against a holding of sixty: each passes the guard, and both
      are sold. */
  lemma TwoLegsOversell(env: Env, a: Trade, b: Trade)
    requires env.venue.Paper? && env.risk && PriceOf(env, a.symbol).Some? && env.held(a.symbol) == Some(60)
    requires a.status.Open? && a.shares && a.quantity == 60 && EntryPrice(a).Some? && env.reply(a.id, false).Accepted?
    requires b.status.Open? && b.shares && b.quantity == 60 && EntryPrice(b).Some? && env.reply(b.id, false).Accepted?
    requires a.symbol == b.symbol
    ensures SoldShares([a, b], Decisions(env, [a, b]), a.symbol) == 120
  {
    HaltSellsEveryLeg(env, [a, b], [a, b], a.symbol, 60);
    assert Passed(env, [a, b], [a, b]) == Decisions(env, [a, b]);
    assert Front([a, b]) == [a] && Front([a]) == [];
    assert SellableShares([a], a.symbol, 60) == 60;
  }
}
