/** The basket-aware live runner: gates, reconciliation passes, preflight and the
    submission loop, each shown to be a run of the live entry protocol. */
module LiveRunner {
  import opened Common
  import opened Idempotency
  import opened LiveProtocol

  // ---------------------------------------------------------------- inputs from outside

  datatype Plan = Plan(symbol: string, buyShares: bool, quantity: int, limitPrice: real, targetId: Option<int>, stopId: Option<int>)

  datatype Reply = Accepts(orderId: int) | Rejects | Raises

  /** What becomes of the trade record: stored, lost in a swallowed write, or never built. */
  datatype Recording = Stored(id: string) | Lost(id: string) | NotBuilt

  /** The outside world during one leg. */
  datatype LegWorld = LegWorld(
    lockWritable: bool,
    planRecorded: bool,
    reply: Reply,
    recording: Recording,
    marked: bool,
    cleared: bool)

  predicate Mints(world: LegWorld) {
    !world.recording.NotBuilt?
  }

  /** Identifiers are fresh and pairwise different, as random ones are. */
  ghost predicate FreshIds(minted: set<string>, worlds: seq<LegWorld>) {
    IdsLeft(minted, worlds, 0)
  }

  datatype LegResult = LegSubmitted | Duplicate | LegFailed

  datatype RunResult = NotReady | NoPlan | NoSlots | DuplicateBasket | NoTrade | FailedAt(leg: nat) | Executed

  datatype Rules = Rules(maxOpen: nat, maxDaily: nat, allowDuplicates: bool)

  // ---------------------------------------------------------------- what the store is read for

  predicate IsOpen(trade: Trade) {
    trade.status == EntryPending || trade.status == Open
  }

  function DayOf(minute: int): int {
    minute / 1440
  }

  function OpenIds(trades: map<string, Trade>): set<string> {
    set t | t in trades && IsOpen(trades[t])
  }

  function DayIds(trades: map<string, Trade>, day: int): set<string> {
    set t | t in trades && trades[t].status != Failed && DayOf(trades[t].minute) == day
  }

  /** What the two counts count. */
  lemma CountsExactly(trades: map<string, Trade>, day: int, t: string)
    ensures t in OpenIds(trades) <==> t in trades && (trades[t].status == EntryPending || trades[t].status == Open)
    ensures t in DayIds(trades, day) <==> t in trades && trades[t].status != Failed && 1440 * day <= trades[t].minute < 1440 * day + 1440
  {
  }

  predicate SymbolOpen(trades: map<string, Trade>, symbol: string) {
    exists t :: t in trades && IsOpen(trades[t]) && Normalize(trades[t].symbol) == Normalize(symbol)
  }

  predicate DuplicateSymbol(trades: map<string, Trade>, allowDuplicates: bool, symbol: string) {
    !allowDuplicates && (Normalize(symbol) == "" || SymbolOpen(trades, symbol))
  }

  // ---------------------------------------------------------------- reconciliation passes

  function RejectedPass(trades: map<string, Trade>, rejected: set<int>): map<string, Trade> {
    map t | t in trades :: if IsOpen(trades[t]) && trades[t].orderId in rejected
                           then trades[t].(status := Failed) else trades[t]
  }

  predicate ChildFilled(trade: Trade, filled: set<int>) {
    (trade.targetId.Some? && trade.targetId.value in filled) || (trade.stopId.Some? && trade.stopId.value in filled)
  }

  function FilledPass(trades: map<string, Trade>, filled: set<int>): map<string, Trade> {
    map t | t in trades :: if (trades[t].status == Open || trades[t].status == ExitPending) && ChildFilled(trades[t], filled)
                           then trades[t].(status := Closed) else trades[t]
  }

  const GRACE_MINUTES := 5

  predicate Stale(trade: Trade, held: set<string>, now: int) {
    IsOpen(trade) && now - trade.minute >= GRACE_MINUTES
    && Normalize(trade.symbol) != "" && Normalize(trade.symbol) !in held
  }

  function StalePass(trades: map<string, Trade>, held: set<string>, now: int): map<string, Trade> {
    map t | t in trades :: if Stale(trades[t], held, now) then trades[t].(status := Closed) else trades[t]
  }

  function Reconciled(trades: map<string, Trade>, rejected: set<int>, filled: set<int>, held: set<string>, now: int): map<string, Trade> {
    StalePass(FilledPass(RejectedPass(trades, rejected), filled), held, now)
  }

  /** What a gate evaluation makes of one trade, in the trade's own terms: an entry the broker
      rejected is FAILED; otherwise a trade with a filled bracket child is CLOSED, and so is an
      entry of five minutes or more that names a symbol the broker does not hold. All else stays
      as it was. */
  ghost predicate Gated(before: Trade, after: Trade, rejected: set<int>, filled: set<int>, held: set<string>, now: int) {
    if (before.status == EntryPending || before.status == Open) && before.orderId in rejected then
      after == before.(status := Failed)
    else if (before.status == Open || before.status == ExitPending)
            && ((exists i :: i in filled && before.targetId == Some(i)) || (exists i :: i in filled && before.stopId == Some(i))) then
      after == before.(status := Closed)
    else if (before.status == EntryPending || before.status == Open) && before.minute + 5 <= now
            && Normalize(before.symbol) != "" && Normalize(before.symbol) !in held then
      after == before.(status := Closed)
    else after == before
  }

  lemma GatesExactly(trades: map<string, Trade>, rejected: set<int>, filled: set<int>, held: set<string>, now: int)
    ensures var after := Reconciled(trades, rejected, filled, held, now);
            && after.Keys == trades.Keys
            && forall t :: t in trades ==> Gated(trades[t], after[t], rejected, filled, held, now)
  {
    hide Normalize;
    var first := RejectedPass(trades, rejected);
    var second := FilledPass(first, filled);
    var after := StalePass(second, held, now);
    forall t | t in trades ensures Gated(trades[t], after[t], rejected, filled, held, now) {
      assert t in first && t in second;
      assert ChildFilled(trades[t], filled) <==>
               (exists i :: i in filled && trades[t].targetId == Some(i)) || (exists i :: i in filled && trades[t].stopId == Some(i)) by {
        FilledMeans(trades[t], filled);
      }
    }
  }

  lemma FilledMeans(trade: Trade, filled: set<int>)
    ensures ChildFilled(trade, filled) <==>
              (exists i :: i in filled && trade.targetId == Some(i)) || (exists i :: i in filled && trade.stopId == Some(i))
  {
    SomeFilled(trade.targetId, filled);
    SomeFilled(trade.stopId, filled);
  }

  lemma SomeFilled(id: Option<int>, filled: set<int>)
    ensures id.Some? && id.value in filled <==> exists i :: i in filled && id == Some(i)
  {
    if id.Some? && id.value in filled {
      var i := id.value;
      assert i in filled && id == Some(i);
    }
  }

  /** A held symbol's trade that the broker neither rejected nor filled survives the gates, and
      so does a young one; a trade of five minutes whose symbol is not held does not stay open. */
  lemma HeldTradesStay(trades: map<string, Trade>, rejected: set<int>, filled: set<int>, held: set<string>, now: int, t: string)
    requires t in trades && (trades[t].status == EntryPending || trades[t].status == Open)
    ensures var (before, after) := (trades[t], Reconciled(trades, rejected, filled, held, now));
            var quiet := before.orderId !in rejected && forall i :: i in filled ==> before.targetId != Some(i) && before.stopId != Some(i);
            && t in after
            && (quiet && (Normalize(before.symbol) in held || now < before.minute + 5) ==> after[t] == before)
            && (Normalize(before.symbol) != "" && Normalize(before.symbol) !in held && before.minute + 5 <= now
                ==> after[t].status != EntryPending && after[t].status != Open)
  {
    GatesExactly(trades, rejected, filled, held, now);
    assert Gated(trades[t], Reconciled(trades, rejected, filled, held, now)[t], rejected, filled, held, now);
    hide Reconciled, Normalize;
  }

  /** `after` is `before` with some trades closed or failed. */
  ghost predicate OnlyReleases(before: map<string, Trade>, after: map<string, Trade>) {
    && after.Keys == before.Keys
    && (forall t :: t in before ==>
          && (after[t] == before[t] || after[t] == before[t].(status := Closed) || after[t] == before[t].(status := Failed))
          && (Terminal(before[t].status) ==> after[t] == before[t]))
  }

  lemma OnlyReleasesComposes(a: map<string, Trade>, b: map<string, Trade>, c: map<string, Trade>)
    requires OnlyReleases(a, b) && OnlyReleases(b, c)
    ensures OnlyReleases(a, c)
  {
    forall t | t in a
      ensures c[t] == a[t] || c[t] == a[t].(status := Closed) || c[t] == a[t].(status := Failed)
      ensures Terminal(a[t].status) ==> c[t] == a[t]
    {
      assert t in b && t in c;
    }
  }

  /** The same trades, possibly moved on: none opened again, none back from FAILED. */
  ghost predicate NoneReopened(before: map<string, Trade>, after: map<string, Trade>) {
    && after.Keys == before.Keys
    && (forall t :: t in before ==>
          && after[t].minute == before[t].minute && (IsOpen(after[t]) ==> IsOpen(before[t]))
          && (before[t].status == Failed ==> after[t].status == Failed))
  }

  lemma MovingOnShrinksCounts(before: map<string, Trade>, after: map<string, Trade>, day: int)
    requires NoneReopened(before, after)
    ensures OpenIds(after) <= OpenIds(before) && DayIds(after, day) <= DayIds(before, day)
  {
  }

  lemma ReleasingIsMovingOn(before: map<string, Trade>, after: map<string, Trade>)
    requires OnlyReleases(before, after)
    ensures NoneReopened(before, after)
  {
  }

  /** Reconciling never opens a trade, never adds one to a day, and never leaves a
      terminal status. */
  lemma ReconcilingOnlyReleases(trades: map<string, Trade>, rejected: set<int>, filled: set<int>, held: set<string>, now: int, day: int)
    ensures var after := Reconciled(trades, rejected, filled, held, now);
            && OnlyReleases(trades, after)
            && OpenIds(after) <= OpenIds(trades) && DayIds(after, day) <= DayIds(trades, day)
  {
    var first := RejectedPass(trades, rejected);
    var second := FilledPass(first, filled);
    var third := StalePass(second, held, now);
    assert OnlyReleases(trades, first);
    assert OnlyReleases(first, second);
    assert OnlyReleases(second, third);
    OnlyReleasesComposes(trades, first, second);
    OnlyReleasesComposes(trades, second, third);
    ReleasingIsMovingOn(trades, third);
    MovingOnShrinksCounts(trades, third, day);
  }

  lemma SubsetBound<T>(small: set<T>, big: set<T>, n: int)
    requires small <= big && |big| <= n
    ensures |small| <= n
  {
    assert |big| == |small| + |big - small| by {
      assert big == small + (big - small);
    }
  }

  lemma PlannedSymbolKey(symbol: string)
    ensures BuildKey(Normalize(symbol), "BUY", "", "") == EntryKey(symbol)
    ensures FreshLock(Normalize(symbol), "BUY", "", "") == FreshLock(symbol, "BUY", "", "")
    ensures Normalize(Normalize(symbol)) == Normalize(symbol)
  {
    NormalizeIdempotent(symbol);
  }

  lemma AcquiredThenCleared(log: seq<Line>, symbol: string, reason: Reason, key: string)
    requires !ActiveIn(log, EntryKey(symbol))
    ensures var held := AfterCall(log, CallAcquire(symbol, "BUY", "", ""));
            ActiveIn(AfterCall(held, CallClear(EntryKey(symbol), reason)), key) <==> ActiveIn(log, key)
  {
    hide BuildKey, Normalize, Replay, AfterCall;
    var mine := EntryKey(symbol);
    var held := AfterCall(log, CallAcquire(symbol, "BUY", "", ""));
    CallRefinesMap(log, CallAcquire(symbol, "BUY", "", ""));
    CallRefinesMap(held, CallClear(mine, reason));
    assert mine in Replay(held);
  }

  /** Both logs block exactly the same keys. */
  ghost predicate SameLocks(before: seq<Line>, after: seq<Line>) {
    forall key :: ActiveIn(after, key) <==> ActiveIn(before, key)
  }

  lemma SameAsItself(log: seq<Line>)
    ensures SameLocks(log, log)
  {
  }

  lemma TakenThenCleared(before: seq<Line>, after: seq<Line>, symbol: string, reason: Reason)
    requires !ActiveIn(before, EntryKey(symbol))
    requires after == AfterCall(AfterCall(before, CallAcquire(symbol, "BUY", "", "")), CallClear(EntryKey(symbol), reason))
    ensures SameLocks(before, after)
  {
    forall key ensures ActiveIn(after, key) <==> ActiveIn(before, key) {
      AcquiredThenCleared(before, symbol, reason, key);
    }
  }

  /** Of the locks listed as active, those not pending are still active exactly when
      their trade is not terminal; no other key is active. */
  ghost predicate ReleasedUpTo(log: seq<Line>, active: map<string, Lock>, pending: map<string, Lock>, trades: map<string, Trade>) {
    forall k :: ActiveIn(log, k) <==> k in active && (k in pending || !ReleasesLock(active[k], trades))
  }

  /** What a release pass leaves blocked: the keys blocked before but for those whose lock names a
      trade the store holds closed or failed. */
  ghost predicate ReleasedWhenTerminal(before: seq<Line>, after: seq<Line>, trades: map<string, Trade>) {
    forall k :: ActiveIn(after, k) <==>
                  ActiveIn(before, k)
                  && !exists t :: t in trades && t != "" && Replay(before)[k].tradeId == Some(t)
                                  && (trades[t].status == Closed || trades[t].status == Failed)
  }

  lemma ReleasedExactly(before: seq<Line>, after: seq<Line>, trades: map<string, Trade>)
    requires ReleasedUpTo(after, ActiveLocks(before), map[], trades)
    ensures ReleasedWhenTerminal(before, after, trades)
  {
    var active := ActiveLocks(before);
    forall k ensures ActiveIn(after, k) <==>
                       ActiveIn(before, k)
                       && !exists t :: t in trades && t != "" && Replay(before)[k].tradeId == Some(t)
                                       && (trades[t].status == Closed || trades[t].status == Failed)
    {
      if k in active && ReleasesLock(active[k], trades) {
        assert Replay(before)[k].tradeId == Some(active[k].tradeId.value);
      }
    }
  }

  /** The second log blocks one key more, or the same keys if that one was blocked. */
  ghost predicate OneLockMore(before: seq<Line>, after: seq<Line>, mine: string) {
    forall key :: ActiveIn(after, key) <==> ActiveIn(before, key) || key == mine
  }

  lemma TakenAddsOne(log: seq<Line>, symbol: string)
    ensures OneLockMore(log, AfterCall(log, CallAcquire(symbol, "BUY", "", "")), EntryKey(symbol))
  {
    CallRefinesMap(log, CallAcquire(symbol, "BUY", "", ""));
  }

  /** Marking a lock as submitted keeps it active and touches no other. */
  lemma MarkKeepsOne(before: seq<Line>, log: seq<Line>, mine: string, orderId: Option<int>, tradeId: Option<string>)
    requires OneLockMore(before, log, mine)
    ensures OneLockMore(before, AfterCall(log, CallMark(mine, orderId, tradeId)), mine)
  {
    assert ActiveIn(log, mine);
    CallRefinesMap(log, CallMark(mine, orderId, tradeId));
  }

  /** Why a run ends before its first leg, if it does. */
  function Stopped(plans: seq<Plan>, ready: bool, trades: map<string, Trade>, log: seq<Line>, rules: Rules, cap: real, now: int,
                   readable: bool, economic: seq<bool>): Option<RunResult>
    requires |plans| == |economic|
  {
    var open, today := |OpenIds(trades)|, |DayIds(trades, DayOf(now))|;
    if !ready || open >= rules.maxOpen || today >= rules.maxDaily then Some(NotReady)
    else if |plans| == 0 then Some(NoPlan)
    else if open + |plans| > rules.maxOpen || today + |plans| > rules.maxDaily then Some(NoSlots)
    else if !rules.allowDuplicates && !(readable && BasketClear(plans, trades, log)) then Some(DuplicateBasket)
    else if exists i :: 0 <= i < |plans| && !Affordable(plans[i], cap, economic[i]) then Some(NoTrade)
    else None
  }

  /** How a run with these legs ends, and after how many of them, given the stores as the
      gates left them. */
  ghost predicate EndsAs(result: RunResult, submitted: nat, plans: seq<Plan>, worlds: seq<LegWorld>, stopped: Option<RunResult>,
                         trades: map<string, Trade>, log: seq<Line>, allow: bool) {
    && submitted <= |plans| == |worlds|
    && (match stopped
        case Some(why) => result == why && submitted == 0
        case None => result == if submitted == |plans| then Executed else FailedAt(submitted))
    && (forall i :: 0 <= i < submitted ==> Goes(plans, worlds, i, trades, log, allow))
    && (stopped.None? && submitted < |plans| ==> !Goes(plans, worlds, submitted, trades, log, allow))
  }

  /** With duplicates disallowed a run that got as far as its legs fails at the first one the
      outside world refuses, and at no other. */
  lemma LegsFailExactly(result: RunResult, submitted: nat, plans: seq<Plan>, worlds: seq<LegWorld>, trades: map<string, Trade>, log: seq<Line>)
    requires EndsAs(result, submitted, plans, worlds, None, trades, log, false) && BasketClear(plans, trades, log)
    ensures result == Executed <==> forall i :: 0 <= i < |plans| ==> Granted(plans[i], worlds[i])
    ensures forall i :: 0 <= i < submitted ==> Granted(plans[i], worlds[i])
    ensures submitted < |plans| ==> result == FailedAt(submitted) && !Granted(plans[submitted], worlds[submitted])
  {
    hide BasketClear, Goes, Granted;
    forall i | 0 <= i < |plans| ensures Goes(plans, worlds, i, trades, log, false) <==> Granted(plans[i], worlds[i]) {
      PreflightForesees(plans, worlds, i, trades, log);
    }
  }

  lemma RemovalShrinks<K, V>(m: map<K, V>, key: K)
    requires key in m
    ensures |m - {key}| < |m|
  {
    assert m.Keys == (m - {key}).Keys + {key};
  }

  lemma ClearTouchesOneKey(log: seq<Line>, key: string, reason: Reason)
    ensures var after := AfterCall(log, CallClear(key, reason));
            !ActiveIn(after, key) && forall k :: k != key ==> (ActiveIn(after, k) <==> ActiveIn(log, k))
  {
    CallRefinesMap(log, CallClear(key, reason));
  }

  // ---------------------------------------------------------------- basket checks

  function BasketKeys(plans: seq<Plan>, n: nat): set<string>
    requires n <= |plans|
  {
    set i | 0 <= i < n :: Normalize(plans[i].symbol)
  }

  /** Leg `i` names a symbol, no earlier leg names it, no open trade holds it and no
      lock blocks it. */
  predicate LegClear(plans: seq<Plan>, i: nat, trades: map<string, Trade>, log: seq<Line>)
    requires i < |plans|
  {
    && Normalize(plans[i].symbol) != "" && Normalize(plans[i].symbol) !in BasketKeys(plans, i)
    && !SymbolOpen(trades, plans[i].symbol) && !ActiveIn(log, EntryKey(plans[i].symbol))
  }

  predicate BasketClear(plans: seq<Plan>, trades: map<string, Trade>, log: seq<Line>) {
    forall i :: 0 <= i < |plans| ==> LegClear(plans, i, trades, log)
  }

  /** Nothing outside the stores stands in the way of this leg. */
  predicate Granted(plan: Plan, world: LegWorld) {
    plan.buyShares && world.lockWritable && world.planRecorded && world.reply.Accepts?
  }

  /** No earlier leg, no lock and, unless duplicates are allowed, no open trade has the
      symbol of leg `i`. */
  predicate Unblocked(plans: seq<Plan>, i: nat, trades: map<string, Trade>, log: seq<Line>, allow: bool)
    requires i < |plans|
  {
    && Normalize(plans[i].symbol) !in BasketKeys(plans, i) && !ActiveIn(log, EntryKey(plans[i].symbol))
    && !DuplicateSymbol(trades, allow, plans[i].symbol)
  }

  /** Leg `i` gets through, judged by the stores as they were before the first leg. */
  predicate Goes(plans: seq<Plan>, worlds: seq<LegWorld>, i: nat, trades: map<string, Trade>, log: seq<Line>, allow: bool)
    requires i < |plans| == |worlds|
  {
    Granted(plans[i], worlds[i]) && Unblocked(plans, i, trades, log, allow)
  }

  /** The preflight foresees every duplicate: a leg it passed is later stopped by nothing
      but the outside world, whatever the legs before it did to the stores. */
  lemma PreflightForesees(plans: seq<Plan>, worlds: seq<LegWorld>, i: nat, trades: map<string, Trade>, log: seq<Line>)
    requires i < |plans| == |worlds| && BasketClear(plans, trades, log)
    ensures Goes(plans, worlds, i, trades, log, false) <==> Granted(plans[i], worlds[i])
  {
    assert LegClear(plans, i, trades, log);
  }

  function CappedQuantity(plan: Plan, cap: real): int {
    if plan.limitPrice > 0.0 && plan.quantity > 0 && plan.limitPrice * plan.quantity as real > cap
    then (cap / plan.limitPrice).Floor
    else plan.quantity
  }

  /** The cap only shrinks an order, to the largest size whose value fits. */
  lemma CapIsTight(plan: Plan, cap: real)
    requires plan.limitPrice > 0.0 && plan.quantity > 0
    ensures var q := CappedQuantity(plan, cap);
            && q <= plan.quantity && plan.limitPrice * q as real <= cap
            && (q < plan.quantity ==> plan.limitPrice * (q + 1) as real > cap)
  {
    if plan.limitPrice * plan.quantity as real > cap {
      var q := (cap / plan.limitPrice).Floor;
      FloorFits(cap, plan.limitPrice);
      AboveFloor(cap, plan.limitPrice, q + 1);
      if q > plan.quantity {
        ScaleReal(plan.limitPrice, plan.quantity as real, q as real);
      }
    }
  }

  predicate Affordable(plan: Plan, cap: real, economic: bool) {
    CappedQuantity(plan, cap) > 0 && (plan.buyShares ==> economic)
  }

  /** One share at least fits: there is something to buy, at a price within the cap if it has one,
      and a purchase of shares is worth its costs. */
  lemma AffordableExactly(plan: Plan, cap: real, economic: bool)
    ensures Affordable(plan, cap, economic) <==>
              0 < plan.quantity && (0.0 < plan.limitPrice ==> plan.limitPrice <= cap) && (plan.buyShares ==> economic)
  {
    if plan.limitPrice > 0.0 && plan.quantity > 0 {
      ScaleReal(plan.limitPrice, 1.0, plan.quantity as real);
      var q := (cap / plan.limitPrice).Floor;
      FloorFits(cap, plan.limitPrice);
      if q >= 1 {
        ScaleReal(plan.limitPrice, 1.0, q as real);
      } else {
        AboveFloor(cap, plan.limitPrice, 1);
      }
    }
  }

  /** Leg `i` names a symbol that no earlier leg, no trade open or pending entry and no active
      lock has. */
  ghost predicate NobodyHas(plans: seq<Plan>, i: nat, trades: map<string, Trade>, log: seq<Line>)
    requires i < |plans|
  {
    var symbol := Normalize(plans[i].symbol);
    && symbol != "" && (forall j :: 0 <= j < i ==> Normalize(plans[j].symbol) != symbol)
    && (forall t :: t in trades && (trades[t].status == EntryPending || trades[t].status == Open) ==> Normalize(trades[t].symbol) != symbol)
    && !ActiveIn(log, EntryKey(plans[i].symbol))
  }

  lemma LegClearExactly(plans: seq<Plan>, i: nat, trades: map<string, Trade>, log: seq<Line>)
    requires i < |plans|
    ensures LegClear(plans, i, trades, log) <==> NobodyHas(plans, i, trades, log)
  {
    hide Normalize, ActiveIn, EntryKey;
  }

  /** Which refusal ends a run before its first leg: the gates or a full book, no plan, too few
      slots for all legs, a duplicate unless they are allowed, a leg that does not fit. None of
      these holds exactly when the legs are sent. */
  lemma StoppedExactly(plans: seq<Plan>, ready: bool, trades: map<string, Trade>, log: seq<Line>, rules: Rules, cap: real, now: int,
                       readable: bool, economic: seq<bool>)
    requires |plans| == |economic|
    ensures var stopped := Stopped(plans, ready, trades, log, rules, cap, now, readable, economic);
            var (open, today, n) := (|OpenIds(trades)|, |DayIds(trades, DayOf(now))|, |plans|);
            var gates := ready && open < rules.maxOpen && today < rules.maxDaily;
            var slots := open + n <= rules.maxOpen && today + n <= rules.maxDaily;
            var clear := rules.allowDuplicates || (readable && forall i :: 0 <= i < n ==> NobodyHas(plans, i, trades, log));
            var fits := forall i :: 0 <= i < n ==>
                                      && 0 < plans[i].quantity && (0.0 < plans[i].limitPrice ==> plans[i].limitPrice <= cap)
                                      && (plans[i].buyShares ==> economic[i]);
            && (stopped == Some(NotReady) <==> !gates)
            && (stopped == Some(NoPlan) <==> gates && n == 0)
            && (stopped == Some(NoSlots) <==> gates && n > 0 && !slots)
            && (stopped == Some(DuplicateBasket) <==> gates && n > 0 && slots && !clear)
            && (stopped == Some(NoTrade) <==> gates && n > 0 && slots && clear && !fits)
            && (stopped == None <==> gates && n > 0 && slots && clear && fits)
  {
    forall i | 0 <= i < |plans| ensures LegClear(plans, i, trades, log) <==> NobodyHas(plans, i, trades, log) {
      LegClearExactly(plans, i, trades, log);
    }
    forall i | 0 <= i < |plans|
      ensures Affordable(plans[i], cap, economic[i]) <==>
                0 < plans[i].quantity && (0.0 < plans[i].limitPrice ==> plans[i].limitPrice <= cap) && (plans[i].buyShares ==> economic[i])
    {
      AffordableExactly(plans[i], cap, economic[i]);
    }
    hide LegClear, NobodyHas, Affordable, OpenIds, DayIds, DayOf;
  }

  /** A trade one run added: open, dated now, at least one share, within the cap. */
  predicate AddedWithin(trade: Trade, now: int, cap: real) {
    && trade.status == Open && trade.minute == now && trade.quantity > 0
    && (trade.price > 0.0 ==> trade.price * trade.quantity as real <= cap)
  }

  /** `after` is `before` plus at most `n` trades added by one run. */
  ghost predicate AddsAtMost(before: map<string, Trade>, after: map<string, Trade>, n: nat, now: int, cap: real) {
    && Extends(before, after, now, cap)
    && |OpenIds(after)| <= |OpenIds(before)| + n
    && |DayIds(after, DayOf(now))| <= |DayIds(before, DayOf(now))| + n
    && OtherDaysSame(before, after, DayOf(now))
  }

  ghost predicate Extends(before: map<string, Trade>, after: map<string, Trade>, now: int, cap: real) {
    && (forall t :: t in before ==> t in after && after[t] == before[t])
    && (forall t :: t in after && t !in before ==> AddedWithin(after[t], now, cap))
  }

  ghost predicate OtherDaysSame(before: map<string, Trade>, after: map<string, Trade>, day: int) {
    forall d :: d != day ==> DayIds(after, d) == DayIds(before, d)
  }

  lemma OneMoreTrade(before: map<string, Trade>, after: map<string, Trade>, n: nat, now: int, cap: real, trade: Trade)
    requires AddsAtMost(before, after, n, now, cap) && AddedWithin(trade, now, cap) && trade.id !in after
    ensures AddsAtMost(before, after[trade.id := trade], n + 1, now, cap)
  {
    AddedOpens(after, trade);
    AddedOnDay(after, trade);
    AddedElsewhere(before, after, trade);
  }

  lemma AddedOpens(trades: map<string, Trade>, trade: Trade)
    requires trade.id !in trades && trade.status == Open
    ensures |OpenIds(trades[trade.id := trade])| == |OpenIds(trades)| + 1
  {
    assert OpenIds(trades[trade.id := trade]) == OpenIds(trades) + {trade.id};
  }

  lemma AddedOnDay(trades: map<string, Trade>, trade: Trade)
    requires trade.id !in trades && trade.status == Open
    ensures |DayIds(trades[trade.id := trade], DayOf(trade.minute))| == |DayIds(trades, DayOf(trade.minute))| + 1
  {
    var day := DayOf(trade.minute);
    assert DayIds(trades[trade.id := trade], day) == DayIds(trades, day) + {trade.id};
  }

  lemma AddedElsewhere(before: map<string, Trade>, after: map<string, Trade>, trade: Trade)
    requires trade.id !in after && OtherDaysSame(before, after, DayOf(trade.minute))
    ensures OtherDaysSame(before, after[trade.id := trade], DayOf(trade.minute))
  {
    forall d | d != DayOf(trade.minute) ensures DayIds(after[trade.id := trade], d) == DayIds(before, d) {
      assert DayIds(after[trade.id := trade], d) == DayIds(after, d);
    }
  }

  lemma ReconciledWithin(trades: map<string, Trade>, rejected: set<int>, filled: set<int>, held: set<string>, now: int, maxOpen: nat, maxDaily: nat)
    ensures var after := Reconciled(trades, rejected, filled, held, now);
            && after.Keys == trades.Keys
            && (|OpenIds(trades)| <= maxOpen ==> |OpenIds(after)| <= maxOpen)
            && forall day :: |DayIds(trades, day)| <= maxDaily ==> |DayIds(after, day)| <= maxDaily
  {
    var after := Reconciled(trades, rejected, filled, held, now);
    ReconcilingOnlyReleases(trades, rejected, filled, held, now, 0);
    if |OpenIds(trades)| <= maxOpen {
      SubsetBound(OpenIds(after), OpenIds(trades), maxOpen);
    }
    forall day | |DayIds(trades, day)| <= maxDaily ensures |DayIds(after, day)| <= maxDaily {
      ReconcilingOnlyReleases(trades, rejected, filled, held, now, day);
      SubsetBound(DayIds(after, day), DayIds(trades, day), maxDaily);
    }
  }

  lemma WithinAfterAdding(settled: map<string, Trade>, after: map<string, Trade>, n: nat, now: int, cap: real, maxOpen: nat, maxDaily: nat)
    requires AddsAtMost(settled, after, n, now, cap)
    requires |OpenIds(settled)| + n <= maxOpen && |DayIds(settled, DayOf(now))| + n <= maxDaily
    ensures |OpenIds(after)| <= maxOpen
    ensures forall day :: |DayIds(settled, day)| <= maxDaily ==> |DayIds(after, day)| <= maxDaily
  {
  }

  // ---------------------------------------------------------------- run after run

  /** What one call met and did. */
  datatype Turn = Turn(rejected: set<int>, filled: set<int>, held: set<string>, now: int, submitted: nat, cap: real)

  function Settled(trades: map<string, Trade>, turn: Turn): map<string, Trade> {
    Reconciled(trades, turn.rejected, turn.filled, turn.held, turn.now)
  }

  predicate HasSlots(settled: map<string, Trade>, turn: Turn, maxOpen: nat, maxDaily: nat) {
    |OpenIds(settled)| + turn.submitted <= maxOpen && |DayIds(settled, DayOf(turn.now))| + turn.submitted <= maxDaily
  }

  /** The store after one call: reconciled, then at most the submitted legs added, for
      which there were slots. */
  ghost predicate OneRun(before: map<string, Trade>, after: map<string, Trade>, turn: Turn, maxOpen: nat, maxDaily: nat) {
    && AddsAtMost(Settled(before, turn), after, turn.submitted, turn.now, turn.cap)
    && (turn.submitted > 0 ==> HasSlots(Settled(before, turn), turn, maxOpen, maxDaily))
  }

  ghost predicate WithinLimits(trades: map<string, Trade>, maxOpen: nat, maxDaily: nat) {
    |OpenIds(trades)| <= maxOpen && forall day :: |DayIds(trades, day)| <= maxDaily
  }

  lemma OneRunKeepsLimits(before: map<string, Trade>, after: map<string, Trade>, turn: Turn, maxOpen: nat, maxDaily: nat)
    requires OneRun(before, after, turn, maxOpen, maxDaily) && WithinLimits(before, maxOpen, maxDaily)
    ensures WithinLimits(after, maxOpen, maxDaily)
  {
    ReconciledWithin(before, turn.rejected, turn.filled, turn.held, turn.now, maxOpen, maxDaily);
    if turn.submitted > 0 {
      WithinAfterAdding(Settled(before, turn), after, turn.submitted, turn.now, turn.cap, maxOpen, maxDaily);
    } else {
      forall day ensures |DayIds(after, day)| <= maxDaily {
      }
    }
  }

  lemma MovingOnKeepsLimits(before: map<string, Trade>, after: map<string, Trade>, maxOpen: nat, maxDaily: nat)
    requires NoneReopened(before, after) && WithinLimits(before, maxOpen, maxDaily)
    ensures WithinLimits(after, maxOpen, maxDaily)
  {
    MovingOnShrinksCounts(before, after, 0);
    SubsetBound(OpenIds(after), OpenIds(before), maxOpen);
    forall day ensures |DayIds(after, day)| <= maxDaily {
      MovingOnShrinksCounts(before, after, day);
      SubsetBound(DayIds(after, day), DayIds(before, day), maxDaily);
    }
  }

  /** What changes the store: a basket run, other parts of the robot moving trades on, or the
      trade reconciler putting a trade whose exit order failed back to OPEN. */
  datatype Move = Run(turn: Turn) | MovesOn | Reverts(id: string)

  ghost predicate Follows(before: map<string, Trade>, after: map<string, Trade>, m: Move, maxOpen: nat, maxDaily: nat) {
    match m
    case Run(turn) => OneRun(before, after, turn, maxOpen, maxDaily)
    case MovesOn => NoneReopened(before, after)
    case Reverts(id) => id in before && before[id].status == ExitPending && after == before[id := before[id].(status := Open)]
  }

  predicate HasSlot(before: map<string, Trade>, m: Move, maxOpen: nat) {
    m.Reverts? ==> |OpenIds(before)| < maxOpen
  }

  lemma RevertOpensOne(before: map<string, Trade>, after: map<string, Trade>, id: string, day: int)
    requires id in before && before[id].status == ExitPending && after == before[id := before[id].(status := Open)]
    ensures |OpenIds(after)| == |OpenIds(before)| + 1 && DayIds(after, day) == DayIds(before, day)
  {
    assert OpenIds(after) == OpenIds(before) + {id};
  }

  lemma MoveKeepsLimitsExactly(before: map<string, Trade>, after: map<string, Trade>, m: Move, maxOpen: nat, maxDaily: nat)
    requires Follows(before, after, m, maxOpen, maxDaily) && WithinLimits(before, maxOpen, maxDaily)
    ensures WithinLimits(after, maxOpen, maxDaily) <==> HasSlot(before, m, maxOpen)
  {
    match m
    case Run(turn) => OneRunKeepsLimits(before, after, turn, maxOpen, maxDaily);
    case MovesOn => MovingOnKeepsLimits(before, after, maxOpen, maxDaily);
    case Reverts(id) =>
      RevertOpensOne(before, after, id, 0);
      forall day ensures DayIds(after, day) == DayIds(before, day) {
        RevertOpensOne(before, after, id, day);
      }
  }

  ghost predicate AlwaysWithin(stores: seq<map<string, Trade>>, maxOpen: nat, maxDaily: nat) {
    forall n :: 0 <= n < |stores| ==> WithinLimits(stores[n], maxOpen, maxDaily)
  }

  predicate RevertsFindSlots(stores: seq<map<string, Trade>>, moves: seq<Move>, maxOpen: nat)
    requires |stores| == |moves| + 1
  {
    forall n :: 0 <= n < |moves| ==> HasSlot(stores[n], moves[n], maxOpen)
  }

  lemma OneMoreStore(stores: seq<map<string, Trade>>, moves: seq<Move>, n: nat, maxOpen: nat, maxDaily: nat)
    requires |stores| == |moves| + 1 && n == |moves| > 0
    ensures AlwaysWithin(stores, maxOpen, maxDaily) <==>
              AlwaysWithin(stores[..n], maxOpen, maxDaily) && WithinLimits(stores[n], maxOpen, maxDaily)
    ensures RevertsFindSlots(stores, moves, maxOpen) <==>
              RevertsFindSlots(stores[..n], moves[..n - 1], maxOpen) && HasSlot(stores[n - 1], moves[n - 1], maxOpen)
    ensures AlwaysWithin(stores[..n], maxOpen, maxDaily) ==> WithinLimits(stores[n - 1], maxOpen, maxDaily)
  {
    hide WithinLimits, HasSlot;
    assert forall k :: 0 <= k < n ==> stores[..n][k] == stores[k];
    assert forall k :: 0 <= k < n - 1 ==> moves[..n - 1][k] == moves[k];
  }

  /** Over every sequence of basket runs, with trades filled, closed, failed, sent to their
      exit or put back from it in between, a store that starts within the limits is within them
      at every moment exactly when every trade put back to OPEN found a free slot. The limits
      are on the number of open trades and on the number of trades of every day. */
  lemma {:induction false} RunsStayWithinLimits(stores: seq<map<string, Trade>>, moves: seq<Move>, maxOpen: nat, maxDaily: nat)
    requires |stores| == |moves| + 1 && WithinLimits(stores[0], maxOpen, maxDaily)
    requires forall n :: 0 <= n < |moves| ==> Follows(stores[n], stores[n + 1], moves[n], maxOpen, maxDaily)
    ensures AlwaysWithin(stores, maxOpen, maxDaily) <==> RevertsFindSlots(stores, moves, maxOpen)
    decreases |moves|
  {
    hide Follows, WithinLimits, HasSlot;
    var n := |moves|;
    if n > 0 {
      RunsStayWithinLimits(stores[..n], moves[..n - 1], maxOpen, maxDaily);
      assert Follows(stores[n - 1], stores[n], moves[n - 1], maxOpen, maxDaily);
      OneMoreStore(stores, moves, n, maxOpen, maxDaily);
      if WithinLimits(stores[n - 1], maxOpen, maxDaily) {
        MoveKeepsLimitsExactly(stores[n - 1], stores[n], moves[n - 1], maxOpen, maxDaily);
      }
    }
  }

  function OneShare(id: string, status: TradeStatus): Trade {
    Trade(id, id, status, 1, 1, 1.0, None, None, 0)
  }

  const OneLeg: Turn := Turn({}, {}, {}, 0, 1, 1.0)
  const Leaving: map<string, Trade> := map["A" := OneShare("A", ExitPending)]
  const Joined: map<string, Trade> := Leaving["B" := OneShare("B", Open)]

  /** With one slot: a trade is entered and sent to its exit, a second one takes the slot, and
      the first is put back. Every step is one the robot can take; two trades end up open. */
  lemma RevertExceedsLimit()
    ensures var entered := map["A" := OneShare("A", Open)];
            && WithinLimits(map[], 1, 2) && Follows(map[], entered, Run(OneLeg), 1, 2) && Follows(entered, Leaving, MovesOn, 1, 2)
            && Follows(Leaving, Joined, Run(OneLeg), 1, 2)
            && Follows(Joined, Joined["A" := OneShare("A", Open)], Reverts("A"), 1, 2)
    ensures !WithinLimits(Joined["A" := OneShare("A", Open)], 1, 2)
  {
    var nothing: map<string, Trade> := map[];
    assert forall day :: DayIds(nothing, day) == {};
    assert OpenIds(nothing) == {} && nothing["A" := OneShare("A", Open)] == map["A" := OneShare("A", Open)];
    AddsOneTrade(nothing, OneLeg, OneShare("A", Open), 1, 2);
    assert OpenIds(Leaving) == {} && DayIds(Leaving, 0) == {"A"};
    AddsOneTrade(Leaving, OneLeg, OneShare("B", Open), 1, 2);
    assert OpenIds(Joined) == {"B"};
    RevertOpensOne(Joined, Joined["A" := OneShare("A", Open)], "A", 0);
  }

  lemma AddsOneTrade(before: map<string, Trade>, turn: Turn, trade: Trade, maxOpen: nat, maxDaily: nat)
    requires Settled(before, turn) == before && trade.id !in before && turn.submitted == 1
    requires AddedWithin(trade, turn.now, turn.cap) && HasSlots(before, turn, maxOpen, maxDaily)
    ensures OneRun(before, before[trade.id := trade], turn, maxOpen, maxDaily)
  {
    assert AddsAtMost(before, before, 0, turn.now, turn.cap);
    OneMoreTrade(before, before, 0, turn.now, turn.cap, trade);
  }

  /** The identifiers the remaining legs will mint are still fresh. */
  ghost predicate IdsLeft(minted: set<string>, worlds: seq<LegWorld>, n: nat) {
    && n <= |worlds|
    && (forall i :: n <= i < |worlds| && Mints(worlds[i]) ==> worlds[i].recording.id != "" && worlds[i].recording.id !in minted)
    && (forall i, j :: n <= i < j < |worlds| && Mints(worlds[i]) && Mints(worlds[j])
          ==> worlds[i].recording.id != worlds[j].recording.id)
  }

  /** The first `n` legs, in plan order, are what the broker has accepted. */
  ghost predicate AcceptedInOrder(before: seq<Entry>, after: seq<Entry>, plans: seq<Plan>, worlds: seq<LegWorld>, n: nat) {
    && n <= |plans| == |worlds| && |after| == |before| + n && after[..|before|] == before
    && (forall i :: 0 <= i < n ==>
          after[|before| + i].key == EntryKey(plans[i].symbol) && worlds[i].reply == Accepts(after[|before| + i].orderId))
  }

  lemma NoSteps(s: State) returns (trace: seq<Step>)
    ensures trace == [] && After(s, trace) == s && NoOperator(trace)
  {
    trace := [];
  }

  lemma TraceJoins(s0: State, before: seq<Step>, steps: seq<Step>)
    requires NoOperator(before) && NoOperator(steps)
    ensures After(s0, before + steps) == After(After(s0, before), steps) && NoOperator(before + steps)
  {
    AfterConcat(s0, before, steps);
  }

  lemma DayIdsAre(trades: map<string, Trade>, day: int)
    ensures DayIds(trades, day) <= trades.Keys
    ensures forall t :: t in trades ==> (t in DayIds(trades, day) <==> trades[t].status != Failed && DayOf(trades[t].minute) == day)
  {
  }

  lemma OneLess(all: set<string>, rest: set<string>, seen: set<string>, t: string)
    requires t in rest && seen == all - rest
    ensures t !in seen && all - (rest - {t}) == if t in all then seen + {t} else seen
  {
  }

  lemma RejectedPassAt(trades: map<string, Trade>, rejected: set<int>)
    ensures RejectedPass(trades, rejected).Keys == trades.Keys
    ensures forall t :: t in trades ==>
                          RejectedPass(trades, rejected)[t] ==
                          if IsOpen(trades[t]) && trades[t].orderId in rejected then trades[t].(status := Failed) else trades[t]
  {
  }

  lemma FilledPassAt(trades: map<string, Trade>, filled: set<int>)
    ensures FilledPass(trades, filled).Keys == trades.Keys
    ensures forall t :: t in trades ==>
                          FilledPass(trades, filled)[t] ==
                          if (trades[t].status == Open || trades[t].status == ExitPending) && ChildFilled(trades[t], filled)
                          then trades[t].(status := Closed) else trades[t]
  {
  }

  lemma StalePassAt(trades: map<string, Trade>, held: set<string>, now: int)
    ensures StalePass(trades, held, now).Keys == trades.Keys
    ensures forall t :: t in trades ==>
                          StalePass(trades, held, now)[t] ==
                          if Stale(trades[t], held, now) then trades[t].(status := Closed) else trades[t]
  {
  }

  /** A pass over the store has dealt with all trades but `rest`. */
  ghost predicate Partway(now: map<string, Trade>, was: map<string, Trade>, target: map<string, Trade>, rest: set<string>) {
    && rest <= now.Keys == was.Keys == target.Keys
    && forall t :: t in now ==> now[t] == if t in rest then was[t] else target[t]
  }

  lemma PartwayStarts(was: map<string, Trade>, target: map<string, Trade>)
    requires target.Keys == was.Keys
    ensures Partway(was, was, target, was.Keys)
  {
  }

  lemma PartwayNext(now: map<string, Trade>, was: map<string, Trade>, target: map<string, Trade>, rest: set<string>, t: string)
    requires Partway(now, was, target, rest) && t in rest
    ensures t in now && t in was && t in target && now[t] == was[t]
    ensures Partway(now[t := target[t]], was, target, rest - {t})
    ensures now[t] == target[t] ==> Partway(now, was, target, rest - {t})
  {
  }

  lemma PartwayDone(now: map<string, Trade>, was: map<string, Trade>, target: map<string, Trade>)
    requires Partway(now, was, target, {})
    ensures now == target
  {
  }

  lemma ReleaseStarts(s0: State)
    requires s0.phase.Idle?
    ensures After(s0, [ReleaseBegins]) == s0.(phase := Releasing(ActiveLocks(s0.log), s0.trades)) && NoOperator([ReleaseBegins])
  {
    AfterSnoc(s0, [], ReleaseBegins);
    assert [] + [ReleaseBegins] == [ReleaseBegins];
  }

  lemma ReleaseStops(s0: State, trace: seq<Step>, s: State)
    requires After(s0, trace) == s.(phase := Releasing(map[], s.trades)) && s.phase.Idle? && NoOperator(trace)
    ensures After(s0, trace + [ReleaseEnds]) == s && NoOperator(trace + [ReleaseEnds])
  {
    AfterSnoc(s0, trace, ReleaseEnds);
  }

  lemma NothingReleased(log: seq<Line>, trades: map<string, Trade>)
    ensures ReleasedUpTo(log, ActiveLocks(log), ActiveLocks(log), trades)
  {
  }

  lemma NoKeys(plans: seq<Plan>)
    ensures BasketKeys(plans, 0) == {}
  {
  }

  lemma NextKeys(plans: seq<Plan>, i: nat)
    requires i < |plans|
    ensures BasketKeys(plans, i + 1) == BasketKeys(plans, i) + {Normalize(plans[i].symbol)}
  {
    hide Normalize;
  }

  /** What makes a leg clear, in the terms the check looks it up. */
  lemma LegClearMeans(plans: seq<Plan>, i: nat, trades: map<string, Trade>, log: seq<Line>)
    requires i < |plans|
    ensures var (symbol, locks) := (Normalize(plans[i].symbol), Replay(log));
            var key := BuildKey(symbol, "BUY", "", "");
            && Normalize(symbol) == symbol
            && (LegClear(plans, i, trades, log) <==>
                  && symbol != "" && symbol !in BasketKeys(plans, i) && !SymbolOpen(trades, symbol)
                  && !(key in locks && locks[key].Active()))
  {
    PlannedSymbolKey(plans[i].symbol);
    hide BuildKey;
    SymbolOpenNormalised(trades, plans[i].symbol);
  }

  lemma SymbolOpenNormalised(trades: map<string, Trade>, symbol: string)
    ensures SymbolOpen(trades, Normalize(symbol)) <==> SymbolOpen(trades, symbol)
  {
    NormalizeIdempotent(symbol);
  }

  lemma IdsLeftStep(minted: set<string>, worlds: seq<LegWorld>, n: nat)
    requires n < |worlds| && IdsLeft(minted, worlds, n)
    ensures Mints(worlds[n]) ==> worlds[n].recording.id != "" && worlds[n].recording.id !in minted
    ensures IdsLeft(minted + MintedBy(worlds[n]), worlds, n + 1)
  {
  }

  /** What the first `n` legs, all submitted, did to the locks and to the symbols in use. */
  ghost predicate LegsHold(plans: seq<Plan>, n: nat, log0: seq<Line>, trades0: map<string, Trade>, log: seq<Line>, trades: map<string, Trade>)
    requires n <= |plans|
  {
    && (forall s :: ActiveIn(log, EntryKey(s)) <==> ActiveIn(log0, EntryKey(s)) || Normalize(s) in BasketKeys(plans, n))
    && (forall s :: SymbolOpen(trades0, s) ==> SymbolOpen(trades, s))
    && (forall s :: SymbolOpen(trades, s) ==> SymbolOpen(trades0, s) || Normalize(s) in BasketKeys(plans, n))
  }

  lemma NoLegsHold(plans: seq<Plan>, log: seq<Line>, trades: map<string, Trade>)
    ensures LegsHold(plans, 0, log, trades, log, trades)
  {
    NoKeys(plans);
  }

  lemma OneLegMore(plans: seq<Plan>, n: nat, log0: seq<Line>, trades0: map<string, Trade>,
                   log: seq<Line>, trades: map<string, Trade>, log': seq<Line>, trades': map<string, Trade>,
                   quantity: int, now: int, world: LegWorld)
    requires n < |plans| && LegsHold(plans, n, log0, trades0, log, trades)
    requires OneLockMore(log, log', EntryKey(plans[n].symbol)) && world.reply.Accepts?
    requires trades' == Recorded(trades, plans[n], quantity, now, world) && (Mints(world) ==> world.recording.id !in trades)
    ensures LegsHold(plans, n + 1, log0, trades0, log', trades')
  {
    NextKeys(plans, n);
    hide Normalize, BuildKey, ActiveIn, BasketKeys, SymbolOpen, Recorded, EntryKey;
    forall s
      ensures ActiveIn(log', EntryKey(s)) <==> ActiveIn(log0, EntryKey(s)) || Normalize(s) in BasketKeys(plans, n + 1)
    {
      SymbolKeysOf(s, plans[n].symbol);
    }
    forall s
      ensures SymbolOpen(trades, s) ==> SymbolOpen(trades', s)
      ensures SymbolOpen(trades', s) ==> SymbolOpen(trades, s) || Normalize(s) == Normalize(plans[n].symbol)
    {
      RecordOpens(trades, plans[n], quantity, now, world, s);
    }
  }

  lemma SymbolKeysOf(s: string, t: string)
    ensures EntryKey(s) == EntryKey(t) <==> Normalize(s) == Normalize(t)
  {
    SymbolKeysSeparate(s, t, "BUY");
  }

  /** A trade record opens its own symbol and no other. */
  lemma RecordOpens(trades: map<string, Trade>, plan: Plan, quantity: int, now: int, world: LegWorld, s: string)
    requires world.reply.Accepts? && (Mints(world) ==> world.recording.id !in trades)
    ensures SymbolOpen(trades, s) ==> SymbolOpen(Recorded(trades, plan, quantity, now, world), s)
    ensures SymbolOpen(Recorded(trades, plan, quantity, now, world), s) ==> SymbolOpen(trades, s) || Normalize(s) == Normalize(plan.symbol)
  {
    hide Normalize;
    var after := Recorded(trades, plan, quantity, now, world);
    if SymbolOpen(trades, s) {
      var t :| t in trades && IsOpen(trades[t]) && Normalize(trades[t].symbol) == Normalize(s);
      assert t in after && after[t] == trades[t];
    }
  }

  /** The leg the stores stop now is the leg they stopped before the first one went. */
  lemma ForeseenExactly(plans: seq<Plan>, n: nat, log0: seq<Line>, trades0: map<string, Trade>,
                        log: seq<Line>, trades: map<string, Trade>, allow: bool)
    requires n < |plans| && LegsHold(plans, n, log0, trades0, log, trades)
    ensures Unblocked(plans, n, trades0, log0, allow) <==>
              !DuplicateSymbol(trades, allow, plans[n].symbol) && !ActiveIn(log, EntryKey(plans[n].symbol))
  {
    hide Normalize, BuildKey, ActiveIn, BasketKeys, SymbolOpen;
  }

  lemma AcceptedOneMore(before: seq<Entry>, entries: seq<Entry>, plans: seq<Plan>, worlds: seq<LegWorld>, n: nat, entry: Entry)
    requires AcceptedInOrder(before, entries, plans, worlds, n) && n < |plans|
    requires entry.key == EntryKey(plans[n].symbol) && worlds[n].reply == Accepts(entry.orderId)
    ensures AcceptedInOrder(before, entries + [entry], plans, worlds, n + 1)
  {
  }

  lemma RecordedAdds(before: map<string, Trade>, trades: map<string, Trade>, minted: set<string>, plan: Plan, quantity: int, n: nat,
                     now: int, cap: real, world: LegWorld)
    requires AddsAtMost(before, trades, n, now, cap) && trades.Keys <= minted && world.reply.Accepts?
    requires quantity > 0 && quantity == CappedQuantity(plan, cap)
    requires Mints(world) ==> world.recording.id !in minted
    ensures AddsAtMost(before, Recorded(trades, plan, quantity, now, world), n + 1, now, cap)
    ensures Recorded(trades, plan, quantity, now, world).Keys <= minted + MintedBy(world)
  {
    if world.recording.Stored? {
      QuantityFits(plan, quantity, cap);
      hide CappedQuantity, AddsAtMost;
      OneMoreTrade(before, trades, n, now, cap, TradeFor(plan, quantity, now, world));
    }
  }

  lemma QuantityFits(plan: Plan, quantity: int, cap: real)
    requires quantity > 0 && quantity == CappedQuantity(plan, cap)
    ensures plan.limitPrice > 0.0 ==> plan.limitPrice * quantity as real <= cap
  {
    if plan.limitPrice > 0.0 && plan.quantity > 0 {
      CapIsTight(plan, cap);
    }
  }

  /** `s` is `s0` after the first `n` legs, all of which went through. */
  ghost predicate Progress(s0: State, s: State, plans: seq<Plan>, worlds: seq<LegWorld>, n: nat, now: int, cap: real, allow: bool) {
    && n <= |plans| == |worlds|
    && AcceptedInOrder(s0.broker, s.broker, plans, worlds, n)
    && AddsAtMost(s0.trades, s.trades, n, now, cap) && s.trades.Keys <= s.minted && IdsLeft(s.minted, worlds, n)
    && LegsHold(plans, n, s0.log, s0.trades, s.log, s.trades)
    && (forall i :: 0 <= i < n ==> Goes(plans, worlds, i, s0.trades, s0.log, allow))
  }

  lemma NoProgress(s0: State, plans: seq<Plan>, worlds: seq<LegWorld>, now: int, cap: real, allow: bool)
    requires |plans| == |worlds| && FreshIds(s0.minted, worlds) && s0.trades.Keys <= s0.minted
    ensures Progress(s0, s0, plans, worlds, 0, now, cap, allow)
  {
    NoLegsHold(plans, s0.log, s0.trades);
    hide LegsHold, Goes;
  }

  lemma ProgressMeans(s0: State, s: State, plans: seq<Plan>, worlds: seq<LegWorld>, n: nat, now: int, cap: real, allow: bool)
    requires Progress(s0, s, plans, worlds, n, now, cap, allow)
    ensures n <= |plans| == |worlds| && AcceptedInOrder(s0.broker, s.broker, plans, worlds, n)
    ensures AddsAtMost(s0.trades, s.trades, n, now, cap) && s.trades.Keys <= s.minted && IdsLeft(s.minted, worlds, n)
    ensures LegsHold(plans, n, s0.log, s0.trades, s.log, s.trades)
    ensures forall i :: 0 <= i < n ==> Goes(plans, worlds, i, s0.trades, s0.log, allow)
  {
    hide AcceptedInOrder, AddsAtMost, IdsLeft, LegsHold, Goes;
  }

  lemma MoreProgress(s0: State, s: State, s': State, plans: seq<Plan>, worlds: seq<LegWorld>, n: nat, quantity: int,
                     now: int, cap: real, allow: bool)
    requires Progress(s0, s, plans, worlds, n, now, cap, allow) && n < |plans|
    requires Goes(plans, worlds, n, s0.trades, s0.log, allow) && worlds[n].reply.Accepts?
    requires quantity > 0 && quantity == CappedQuantity(plans[n], cap)
    requires |s'.broker| == |s.broker| + 1 && s'.broker == s.broker + [Last(s'.broker)]
    requires Last(s'.broker).key == EntryKey(plans[n].symbol) && worlds[n].reply == Accepts(Last(s'.broker).orderId)
    requires s'.trades == Recorded(s.trades, plans[n], quantity, now, worlds[n]) && s'.minted == s.minted + MintedBy(worlds[n])
    requires OneLockMore(s.log, s'.log, EntryKey(plans[n].symbol))
    ensures Progress(s0, s', plans, worlds, n + 1, now, cap, allow)
  {
    IdsLeftStep(s.minted, worlds, n);
    hide AcceptedInOrder, AddsAtMost, IdsLeft, LegsHold, Goes, OneLockMore, Recorded, CappedQuantity, EntryKey;
    AcceptedOneMore(s0.broker, s.broker, plans, worlds, n, Last(s'.broker));
    RecordedAdds(s0.trades, s.trades, s.minted, plans[n], quantity, n, now, cap, worlds[n]);
    OneLegMore(plans, n, s0.log, s0.trades, s.log, s.trades, s'.log, s'.trades, quantity, now, worlds[n]);
  }

  // ---------------------------------------------------------------- the runner

  class Runner {
    const locks: IdempotencyStore
    const allowDuplicates: bool
    const maxOpen: nat
    const maxDaily: nat
    const cashFraction: real
    var trades: map<string, Trade>
    ghost var broker: seq<Entry>
    ghost var minted: set<string>

    constructor (store: IdempotencyStore, allow: bool, open: nat, daily: nat, fraction: real)
      ensures locks == store && allowDuplicates == allow && maxOpen == open && maxDaily == daily && cashFraction == fraction
      ensures trades == map[] && broker == [] && minted == {}
    {
      locks, allowDuplicates, maxOpen, maxDaily, cashFraction := store, allow, open, daily, fraction;
      trades, broker, minted := map[], [], {};
    }

    function Limits(): Rules {
      Rules(maxOpen, maxDaily, allowDuplicates)
    }

    ghost function View(): State
      reads this, locks
    {
      State(locks.log, trades, broker, minted, Idle)
    }

    method DuplicateSymbolReason(symbol: string) returns (duplicate: bool)
      ensures duplicate == DuplicateSymbol(trades, allowDuplicates, symbol)
    {
      if allowDuplicates { return false; }
      if Normalize(symbol) == "" { return true; }
      var rest := trades.Keys;
      while rest != {}
        invariant rest <= trades.Keys
        invariant forall t :: t in trades && t !in rest ==> !(IsOpen(trades[t]) && Normalize(trades[t].symbol) == Normalize(symbol))
        decreases |rest|
      {
        var t :| t in rest;
        if IsOpen(trades[t]) && Normalize(trades[t].symbol) == Normalize(symbol) { return true; }
        rest := rest - {t};
      }
      return false;
    }

    method CountOpen() returns (n: nat)
      ensures n == |OpenIds(trades)|
    {
      n := |OpenIds(trades)|;
    }

    method CountLiveTradesToday(today: int) returns (n: nat)
      ensures n == |DayIds(trades, today)|
    {
      n := 0;
      hide DayIds, DayOf;
      var rest := trades.Keys;
      ghost var seen: set<string> := {};
      DayIdsAre(trades, today);
      while rest != {}
        invariant rest <= trades.Keys && seen == DayIds(trades, today) - rest && n == |seen|
        decreases |rest|
      {
        var t :| t in rest;
        OneLess(DayIds(trades, today), rest, seen, t);
        if trades[t].status != Failed && DayOf(trades[t].minute) == today {
          n := n + 1;
          seen := seen + {t};
        }
        rest := rest - {t};
      }
    }

    /** One leg: duplicate check, lock, plan record, broker, trade record, lock update. */
    method ExecuteLeg(plan: Plan, quantity: int, now: int, world: LegWorld)
      returns (result: LegResult, ghost trace: seq<Step>)
      requires Mints(world) ==> world.recording.id != "" && world.recording.id !in minted
      modifies this, locks
      ensures View() == After(old(View()), trace) && NoOperator(trace)
      ensures result == LegSubmitted <==>
                && Granted(plan, world) && !DuplicateSymbol(old(trades), allowDuplicates, plan.symbol)
                && !ActiveIn(old(locks.log), EntryKey(plan.symbol))
      ensures result == LegSubmitted ==> OneLockMore(old(locks.log), locks.log, EntryKey(plan.symbol))
      ensures result == LegSubmitted ==>
                && broker == old(broker) + [Entry(EntryKey(plan.symbol), world.reply.orderId, |old(locks.log)| + 1)]
                && trades == Recorded(old(trades), plan, quantity, now, world)
                && minted == old(minted) + MintedBy(world)
      ensures result != LegSubmitted ==> broker == old(broker) && trades == old(trades) && minted == old(minted)
      ensures result != LegSubmitted && world.cleared ==> SameLocks(old(locks.log), locks.log)
    {
      hide After, NoOperator, Recorded, ActiveIn, SameLocks, AfterCall, EntryKey, DuplicateSymbol;
      ghost var s0 := View();
      trace := NoSteps(s0);
      SameAsItself(locks.log);
      if !plan.buyShares {
        return LegFailed, trace;
      }
      var duplicate := DuplicateSymbolReason(plan.symbol);
      if duplicate {
        return Duplicate, trace;
      }
      if !world.lockWritable {
        return LegFailed, trace;
      }
      var acquired := TakeLock(plan.symbol);
      trace := NextStep(s0, trace, Acquire(plan.symbol));
      if !acquired {
        return Duplicate, trace;
      }
      assert After(s0, trace) == View().(phase := Held(plan.symbol));
      var submitted, reason, steps := FinishLeg(plan, quantity, now, world, s0, trace);
      if submitted {
        LegKeepsLock(s0.log, locks.log, plan, world);
      } else if world.cleared {
        TakenThenCleared(s0.log, locks.log, plan.symbol, reason);
      }
      return if submitted then LegSubmitted else LegFailed, steps;
    }

    /** The symbol is normalised once here and once more inside the store. */
    method TakeLock(symbol: string) returns (acquired: bool)
      modifies locks
      ensures locks.log == AfterCall(old(locks.log), CallAcquire(symbol, "BUY", "", ""))
      ensures acquired <==> !ActiveIn(old(locks.log), EntryKey(symbol))
      ensures if acquired then |locks.log| == |old(locks.log)| + 1 else locks.log == old(locks.log)
    {
      PlannedSymbolKey(symbol);
      var acquisition := locks.Acquire(Normalize(symbol), "BUY", "", "");
      acquired := acquisition.acquired;
    }

    /** The part of a leg that runs while it holds its lock. */
    method FinishLeg(plan: Plan, quantity: int, now: int, world: LegWorld, ghost s0: State, ghost before: seq<Step>)
      returns (submitted: bool, ghost reason: Reason, ghost trace: seq<Step>)
      requires Mints(world) ==> world.recording.id != "" && world.recording.id !in minted
      requires After(s0, before) == View().(phase := Held(plan.symbol)) && NoOperator(before)
      modifies this, locks
      ensures View() == After(s0, trace) && NoOperator(trace)
      ensures submitted <==> world.planRecorded && world.reply.Accepts?
      ensures submitted ==>
                && broker == old(broker) + [Entry(EntryKey(plan.symbol), world.reply.orderId, |old(locks.log)|)]
                && trades == Recorded(old(trades), plan, quantity, now, world)
                && minted == old(minted) + MintedBy(world)
                && locks.log == MarkedLog(old(locks.log), plan, world)
      ensures !submitted ==>
                && broker == old(broker) && trades == old(trades) && minted == old(minted)
                && (world.cleared ==> locks.log == AfterCall(old(locks.log), CallClear(EntryKey(plan.symbol), reason)))
    {
      ghost var s1 := View().(phase := Held(plan.symbol));
      reason := LifecycleWriteFailed;
      if !world.planRecorded {
        trace := Refuse(s0, s1, before, [PlanRecorded(false)], LifecycleWriteFailed, world.cleared);
        ReleaseRefused(EntryKey(plan.symbol), LifecycleWriteFailed, world.cleared);
        return false, reason, trace;
      }
      if !world.reply.Accepts? {
        var why := if world.reply.Raises? then ExecutorRaised else ExecutorRejected;
        trace := Refuse(s0, s1, before, [PlanRecorded(true), BrokerRefuses(world.reply.Raises?)], why, world.cleared);
        ReleaseRefused(EntryKey(plan.symbol), why, world.cleared);
        return false, why, trace;
      }
      RecordEntry(plan, quantity, now, world);
      ghost var s4 := View().(phase := Written(plan.symbol, world.reply.orderId, if Mints(world) then Some(world.recording.id) else None));
      trace := Accept(s0, s1, s4, before, plan, quantity, now, world);
      AfterSnoc(s0, trace, MarkSubmitted(world.marked));
      trace := trace + [MarkSubmitted(world.marked)];
      if world.marked {
        var marked := locks.MarkSubmitted(EntryKey(plan.symbol), Some(world.reply.orderId), RecordedId(world));
      }
      return true, reason, trace;
    }

    /** The broker has the order; the trade record may be stored, lost or never built. */
    method RecordEntry(plan: Plan, quantity: int, now: int, world: LegWorld)
      requires world.reply.Accepts?
      modifies this
      ensures broker == old(broker) + [Entry(EntryKey(plan.symbol), world.reply.orderId, |locks.log|)]
      ensures trades == Recorded(old(trades), plan, quantity, now, world)
      ensures minted == old(minted) + MintedBy(world)
    {
      broker := broker + [Entry(EntryKey(plan.symbol), world.reply.orderId, |locks.log|)];
      if world.recording.Stored? {
        trades := trades[world.recording.id := TradeFor(plan, quantity, now, world)];
      }
      minted := minted + MintedBy(world);
    }

    // ------------------------------------------------------------ gate evaluation

    method UpdateStatus(id: string, status: TradeStatus, ghost s0: State, ghost before: seq<Step>) returns (ghost trace: seq<Step>)
      requires id in trades && !Terminal(trades[id].status)
      requires View() == After(s0, before) && NoOperator(before)
      modifies this`trades
      ensures trades == old(trades)[id := old(trades)[id].(status := status)]
      ensures View() == After(s0, trace) && NoOperator(trace)
    {
      AfterSnoc(s0, before, StoreUpdates(id, status));
      trades := trades[id := trades[id].(status := status)];
      trace := before + [StoreUpdates(id, status)];
    }

    method ReconcileRejected(rejected: set<int>) returns (ghost trace: seq<Step>)
      modifies this`trades
      ensures trades == RejectedPass(old(trades), rejected)
      ensures View() == After(old(View()), trace) && NoOperator(trace)
    {
      RejectedPassAt(trades, rejected);
      hide After, NoOperator, RejectedPass;
      ghost var s0, target := View(), RejectedPass(trades, rejected);
      trace := NoSteps(s0);
      hide Partway;
      PartwayStarts(trades, target);
      var rest := trades.Keys;
      while rest != {}
        invariant Partway(trades, s0.trades, target, rest)
        invariant View() == After(s0, trace) && NoOperator(trace)
        decreases |rest|
      {
        var t :| t in rest;
        PartwayNext(trades, s0.trades, target, rest, t);
        if IsOpen(trades[t]) && trades[t].orderId in rejected {
          trace := UpdateStatus(t, Failed, s0, trace);
        }
        rest := rest - {t};
      }
      PartwayDone(trades, s0.trades, target);
    }

    method ReconcileFilled(filled: set<int>) returns (ghost trace: seq<Step>)
      modifies this`trades
      ensures trades == FilledPass(old(trades), filled)
      ensures View() == After(old(View()), trace) && NoOperator(trace)
    {
      FilledPassAt(trades, filled);
      hide After, NoOperator, FilledPass, ChildFilled;
      ghost var s0, target := View(), FilledPass(trades, filled);
      trace := NoSteps(s0);
      hide Partway;
      PartwayStarts(trades, target);
      var rest := trades.Keys;
      while rest != {}
        invariant Partway(trades, s0.trades, target, rest)
        invariant View() == After(s0, trace) && NoOperator(trace)
        decreases |rest|
      {
        var t :| t in rest;
        PartwayNext(trades, s0.trades, target, rest, t);
        if (trades[t].status == Open || trades[t].status == ExitPending) && ChildFilled(trades[t], filled) {
          trace := UpdateStatus(t, Closed, s0, trace);
        }
        rest := rest - {t};
      }
      PartwayDone(trades, s0.trades, target);
    }

    method ReconcileStale(held: set<string>, now: int) returns (ghost trace: seq<Step>)
      modifies this`trades
      ensures trades == StalePass(old(trades), held, now)
      ensures View() == After(old(View()), trace) && NoOperator(trace)
    {
      StalePassAt(trades, held, now);
      hide After, NoOperator, StalePass;
      ghost var s0, target := View(), StalePass(trades, held, now);
      trace := NoSteps(s0);
      hide Partway;
      PartwayStarts(trades, target);
      var rest := trades.Keys;
      while rest != {}
        invariant Partway(trades, s0.trades, target, rest)
        invariant View() == After(s0, trace) && NoOperator(trace)
        decreases |rest|
      {
        var t :| t in rest;
        PartwayNext(trades, s0.trades, target, rest, t);
        if Stale(trades[t], held, now) {
          trace := UpdateStatus(t, Closed, s0, trace);
        }
        rest := rest - {t};
      }
      PartwayDone(trades, s0.trades, target);
    }

    /** Clears exactly the active locks whose recorded trade is terminal. */
    method ReleaseTerminalLocks() returns (ghost trace: seq<Step>)
      modifies locks
      ensures View() == After(old(View()), trace) && NoOperator(trace)
      ensures ReleasedUpTo(locks.log, ActiveLocks(old(locks.log)), map[], trades)
    {
      ghost var s0 := View();
      var current := locks.ReplayUnlocked();
      var active := map k | k in current && current[k].Active() :: current[k];
      trace := [ReleaseBegins];
      ReleaseStarts(s0);
      NothingReleased(locks.log, trades);
      assert active == ActiveLocks(locks.log);
      hide After, NoOperator, ReleasedUpTo, ActiveLocks, Replay;
      var pending := active;
      while pending != map[]
        invariant pending.Keys <= active.Keys && forall k :: k in pending ==> pending[k] == active[k]
        invariant After(s0, trace) == View().(phase := Releasing(pending, trades)) && NoOperator(trace)
        invariant ReleasedUpTo(locks.log, active, pending, trades)
        decreases |pending|
      {
        var key :| key in pending;
        RemovalShrinks(pending, key);
        trace := ReleaseOne(key, active, pending, s0, trace);
        pending := pending - {key};
      }
      ReleaseStops(s0, trace, View());
      trace := trace + [ReleaseEnds];
    }

    method ReleaseOne(key: string, ghost active: map<string, Lock>, pending: map<string, Lock>, ghost s0: State, ghost before: seq<Step>)
      returns (ghost trace: seq<Step>)
      requires key in pending && key in active && active[key] == pending[key]
      requires After(s0, before) == View().(phase := Releasing(pending, trades)) && NoOperator(before)
      requires ReleasedUpTo(locks.log, active, pending, trades)
      modifies locks
      ensures After(s0, trace) == View().(phase := Releasing(pending - {key}, trades)) && NoOperator(trace)
      ensures ReleasedUpTo(locks.log, active, pending - {key}, trades)
    {
      AfterSnoc(s0, before, ReleaseNext(key, true));
      if ReleasesLock(pending[key], trades) {
        ClearTouchesOneKey(locks.log, key, TradeTerminal);
        var cleared := locks.Clear(key, TradeTerminal);
      }
      trace := before + [ReleaseNext(key, true)];
    }

    /** The passes of one gate evaluation, in order, and the two counts it reads. */
    method EvaluateGates(now: int, rejected: set<int>, filled: set<int>, held: set<string>)
      returns (openCount: nat, dayCount: nat, ghost trace: seq<Step>)
      modifies this`trades, locks
      ensures trades == Reconciled(old(trades), rejected, filled, held, now)
      ensures trades.Keys == old(trades).Keys
      ensures forall t :: t in trades ==> Gated(old(trades)[t], trades[t], rejected, filled, held, now)
      ensures openCount == |OpenIds(trades)| && dayCount == |DayIds(trades, DayOf(now))|
      ensures ReleasedWhenTerminal(old(locks.log), locks.log, trades)
      ensures View() == After(old(View()), trace) && NoOperator(trace)
      ensures broker == old(broker) && minted == old(minted)
    {
      ghost var s0 := View();
      GatesExactly(trades, rejected, filled, held, now);
      hide Gated, RejectedPass, FilledPass, StalePass, ReleasedWhenTerminal, ReleasedUpTo, ActiveLocks;
      ghost var before := locks.log;
      var t1 := ReconcileRejected(rejected);
      ghost var s1 := View();
      var t2 := ReconcileFilled(filled);
      ghost var s2 := View();
      var t3 := ReconcileStale(held, now);
      ghost var s3 := View();
      var t4 := ReleaseTerminalLocks();
      ReleasedExactly(before, locks.log, trades);
      AfterConcat(s0, t1, t2);
      AfterConcat(s0, t1 + t2, t3);
      AfterConcat(s0, t1 + t2 + t3, t4);
      trace := t1 + t2 + t3 + t4;
      openCount := CountOpen();
      dayCount := CountLiveTradesToday(DayOf(now));
    }

    // ------------------------------------------------------------ one run

    method PreflightDuplicateBasket(plans: seq<Plan>, readable: bool) returns (clear: bool)
      ensures clear <==> allowDuplicates || (readable && BasketClear(plans, trades, locks.log))
    {
      if allowDuplicates { return true; }
      if !readable { return false; }
      var active := locks.ReplayUnlocked();
      hide LegClear, BasketKeys, Replay, Normalize;
      var seen: set<string> := {};
      NoKeys(plans);
      for i := 0 to |plans|
        invariant seen == BasketKeys(plans, i)
        invariant forall j :: 0 <= j < i ==> LegClear(plans, j, trades, locks.log)
      {
        NextKeys(plans, i);
        var ok := CheckLeg(plans, i, seen, active);
        if !ok {
          assert !LegClear(plans, i, trades, locks.log);
          return false;
        }
        seen := seen + {Normalize(plans[i].symbol)};
      }
      return true;
    }

    /** One leg of the duplicate preflight, given the symbols of the legs before it. */
    method CheckLeg(plans: seq<Plan>, i: nat, seen: set<string>, active: map<string, Lock>) returns (ok: bool)
      requires !allowDuplicates && i < |plans| && seen == BasketKeys(plans, i) && active == Replay(locks.log)
      ensures ok <==> LegClear(plans, i, trades, locks.log)
    {
      LegClearMeans(plans, i, trades, locks.log);
      hide LegClear, BasketKeys, Replay, SymbolOpen, BuildKey, Normalize;
      var symbol := Normalize(plans[i].symbol);
      if symbol == "" || symbol in seen {
        return false;
      }
      var duplicate := DuplicateSymbolReason(symbol);
      if duplicate {
        return false;
      }
      var key := BuildKey(symbol, "BUY", "", "");
      return !(key in active && active[key].Active());
    }

    method CapLegs(plans: seq<Plan>, cap: real, economic: seq<bool>) returns (ok: bool, quantities: seq<int>)
      requires |economic| == |plans|
      ensures ok <==> forall i :: 0 <= i < |plans| ==> Affordable(plans[i], cap, economic[i])
      ensures ok ==> |quantities| == |plans| && forall i :: 0 <= i < |plans| ==> quantities[i] == CappedQuantity(plans[i], cap)
    {
      quantities := [];
      for i := 0 to |plans|
        invariant |quantities| == i
        invariant forall j :: 0 <= j < i ==> Affordable(plans[j], cap, economic[j]) && quantities[j] == CappedQuantity(plans[j], cap)
      {
        var quantity := plans[i].quantity;
        if plans[i].limitPrice > 0.0 && quantity > 0 {
          if plans[i].limitPrice * quantity as real > cap {
            quantity := (cap / plans[i].limitPrice).Floor;
          }
        }
        if quantity <= 0 || (plans[i].buyShares && !economic[i]) {
          assert !Affordable(plans[i], cap, economic[i]);
          return false, quantities;
        }
        quantities := quantities + [quantity];
      }
      return true, quantities;
    }

    /** Submits legs in plan order and stops at the first that fails. */
    method SubmitLegs(plans: seq<Plan>, quantities: seq<int>, cap: real, now: int, worlds: seq<LegWorld>)
      returns (result: RunResult, submitted: nat, ghost trace: seq<Step>)
      requires |quantities| == |plans| == |worlds|
      requires forall i :: 0 <= i < |plans| ==> quantities[i] > 0 && quantities[i] == CappedQuantity(plans[i], cap)
      requires FreshIds(minted, worlds) && trades.Keys <= minted
      modifies this, locks
      ensures View() == After(old(View()), trace) && NoOperator(trace)
      ensures AcceptedInOrder(old(broker), broker, plans, worlds, submitted)
      ensures AddsAtMost(old(trades), trades, submitted, now, cap) && trades.Keys <= minted
      ensures (result == Executed && submitted == |plans|) || (result == FailedAt(submitted) && submitted < |plans|)
      ensures forall i :: 0 <= i < submitted ==> Goes(plans, worlds, i, old(trades), old(locks.log), allowDuplicates)
      ensures submitted < |plans| ==> !Goes(plans, worlds, submitted, old(trades), old(locks.log), allowDuplicates)
    {
      trace, submitted := [], 0;
      ghost var s0 := View();
      NoProgress(s0, plans, worlds, now, cap, allowDuplicates);
      hide After, NoOperator, AddsAtMost, AcceptedInOrder, Progress, Goes, CappedQuantity, IdsLeft, LegsHold, FreshIds;
      while submitted < |plans|
        invariant submitted <= |plans|
        invariant View() == After(s0, trace) && NoOperator(trace)
        invariant Progress(s0, View(), plans, worlds, submitted, now, cap, allowDuplicates)
      {
        ProgressMeans(s0, View(), plans, worlds, submitted, now, cap, allowDuplicates);
        var ok, steps := SubmitOne(plans, submitted, quantities[submitted], cap, now, worlds, s0, trace);
        trace := steps;
        if !ok {
          return FailedAt(submitted), submitted, trace;
        }
        submitted := submitted + 1;
      }
      ProgressMeans(s0, View(), plans, worlds, submitted, now, cap, allowDuplicates);
      return Executed, submitted, trace;
    }

    method SubmitOne(plans: seq<Plan>, n: nat, quantity: int, cap: real, now: int, worlds: seq<LegWorld>, ghost s0: State, ghost before: seq<Step>)
      returns (ok: bool, ghost trace: seq<Step>)
      requires n < |plans| == |worlds| && quantity > 0 && quantity == CappedQuantity(plans[n], cap)
      requires View() == After(s0, before) && NoOperator(before)
      requires Progress(s0, View(), plans, worlds, n, now, cap, allowDuplicates)
      modifies this, locks
      ensures View() == After(s0, trace) && NoOperator(trace)
      ensures ok <==> Goes(plans, worlds, n, s0.trades, s0.log, allowDuplicates)
      ensures ok ==> Progress(s0, View(), plans, worlds, n + 1, now, cap, allowDuplicates)
      ensures !ok ==> trades == old(trades) && broker == old(broker) && minted == old(minted)
    {
      var plan, world := plans[n], worlds[n];
      ghost var s1 := View();
      ProgressMeans(s0, s1, plans, worlds, n, now, cap, allowDuplicates);
      IdsLeftStep(minted, worlds, n);
      ForeseenExactly(plans, n, s0.log, s0.trades, locks.log, trades, allowDuplicates);
      hide After, NoOperator, AddsAtMost, AcceptedInOrder, IdsLeft, CappedQuantity, DuplicateSymbol, ActiveIn, SameLocks, Recorded;
      hide LegsHold, OneLockMore, Granted, Unblocked, EntryKey, Progress;
      var leg, steps := ExecuteLeg(plan, quantity, now, world);
      TraceJoins(s0, before, steps);
      trace := before + steps;
      ok := leg == LegSubmitted;
      if ok {
        MoreProgress(s0, s1, View(), plans, worlds, n, quantity, now, cap, allowDuplicates);
      }
    }

    /** One call of the basket-aware run: gates, slot check, duplicate preflight,
        cash-capped preflight, submission.  `ready` stands for the gates that do not
        read the stores; `economic` for the profitability gate. */
    method RunOnce(plans: seq<Plan>, ready: bool, cash: real, now: int,
                   rejected: set<int>, filled: set<int>, held: set<string>,
                   readable: bool, economic: seq<bool>, worlds: seq<LegWorld>)
      returns (result: RunResult, submitted: nat, ghost trace: seq<Step>, ghost settled: seq<Line>)
      requires |plans| == |worlds| == |economic|
      requires FreshIds(minted, worlds) && trades.Keys <= minted
      modifies this, locks
      ensures View() == After(old(View()), trace) && NoOperator(trace)
      ensures ReleasedWhenTerminal(old(locks.log), settled, Reconciled(old(trades), rejected, filled, held, now))
      ensures var stores := Reconciled(old(trades), rejected, filled, held, now);
              var stopped := Stopped(plans, ready, stores, settled, Limits(), cash * cashFraction, now, readable, economic);
              && EndsAs(result, submitted, plans, worlds, stopped, stores, settled, allowDuplicates)
              && (stopped.Some? ==> trades == stores && locks.log == settled)
      ensures Inv(old(View()), true) ==> Inv(View(), true)
      ensures Inv(old(View()), false) ==> Inv(View(), false)
      ensures AcceptedInOrder(old(broker), broker, plans, worlds, submitted)
      ensures OneRun(old(trades), trades, Turn(rejected, filled, held, now, submitted, cash * cashFraction), maxOpen, maxDaily)
      ensures trades.Keys <= minted
      ensures WithinLimits(old(trades), maxOpen, maxDaily) ==> WithinLimits(trades, maxOpen, maxDaily)
    {
      hide Gated, ReleasedWhenTerminal, Reconciled;
      ghost var s0 := View();
      var openCount, dayCount, gateSteps := EvaluateGates(now, rejected, filled, held);
      settled := locks.log;
      var outcome, done, legSteps := RunSettled(plans, ready, openCount, dayCount, cash * cashFraction, now, readable, economic, worlds);
      AfterConcat(s0, gateSteps, legSteps);
      if Inv(s0, true) {
        RunKeepsInv(s0, gateSteps + legSteps, true);
      }
      if Inv(s0, false) {
        RunKeepsInv(s0, gateSteps + legSteps, false);
      }
      if WithinLimits(s0.trades, maxOpen, maxDaily) {
        OneRunKeepsLimits(s0.trades, trades, Turn(rejected, filled, held, now, done, cash * cashFraction), maxOpen, maxDaily);
      }
      return outcome, done, gateSteps + legSteps, settled;
    }

    /** The run once the stores are reconciled and counted. */
    method RunSettled(plans: seq<Plan>, ready: bool, openCount: nat, dayCount: nat, cap: real, now: int,
                      readable: bool, economic: seq<bool>, worlds: seq<LegWorld>)
      returns (result: RunResult, submitted: nat, ghost trace: seq<Step>)
      requires |plans| == |worlds| == |economic|
      requires FreshIds(minted, worlds) && trades.Keys <= minted
      requires openCount == |OpenIds(trades)| && dayCount == |DayIds(trades, DayOf(now))|
      modifies this, locks
      ensures View() == After(old(View()), trace) && NoOperator(trace)
      ensures AcceptedInOrder(old(broker), broker, plans, worlds, submitted)
      ensures AddsAtMost(old(trades), trades, submitted, now, cap) && trades.Keys <= minted
      ensures var stopped := Stopped(plans, ready, old(trades), old(locks.log), Limits(), cap, now, readable, economic);
              && EndsAs(result, submitted, plans, worlds, stopped, old(trades), old(locks.log), allowDuplicates)
              && (stopped.Some? ==> View() == old(View()))
      ensures submitted > 0 ==> |OpenIds(old(trades))| + submitted <= maxOpen && |DayIds(old(trades), DayOf(now))| + submitted <= maxDaily
    {
      trace := [];
      if !ready || openCount >= maxOpen || dayCount >= maxDaily {
        return NotReady, 0, trace;
      }
      if |plans| == 0 {
        return NoPlan, 0, trace;
      }
      var slots := if maxOpen - openCount < maxDaily - dayCount then maxOpen - openCount else maxDaily - dayCount;
      if |plans| > slots {
        return NoSlots, 0, trace;
      }
      var clear := PreflightDuplicateBasket(plans, readable);
      if !clear {
        return DuplicateBasket, 0, trace;
      }
      var ok, quantities := CapLegs(plans, cap, economic);
      if !ok {
        return NoTrade, 0, trace;
      }
      result, submitted, trace := SubmitLegs(plans, quantities, cap, now, worlds);
    }

    method ReleaseRefused(key: string, reason: Reason, written: bool)
      modifies locks
      ensures locks.log == if written then AfterCall(old(locks.log), CallClear(key, reason)) else old(locks.log)
    {
      if written {
        var cleared := locks.Clear(key, reason);
      }
    }
  }

  function TradeFor(plan: Plan, quantity: int, now: int, world: LegWorld): Trade
    requires world.reply.Accepts? && Mints(world)
  {
    Trade(world.recording.id, plan.symbol, Open, world.reply.orderId, quantity, plan.limitPrice, plan.targetId, plan.stopId, now)
  }

  function Recorded(trades: map<string, Trade>, plan: Plan, quantity: int, now: int, world: LegWorld): map<string, Trade>
    requires world.reply.Accepts?
  {
    if world.recording.Stored? then trades[world.recording.id := TradeFor(plan, quantity, now, world)] else trades
  }

  /** The record of an accepted order, when it is stored: the plan's own terms and bracket, the
      broker's order, open from now on. A record lost or never built leaves the store alone. */
  lemma RecordExactly(trades: map<string, Trade>, plan: Plan, quantity: int, now: int, world: LegWorld)
    requires world.reply.Accepts?
    ensures var after := Recorded(trades, plan, quantity, now, world);
            match world.recording
            case Stored(id) =>
              && id in after && after == trades[id := after[id]]
              && (after[id].id, after[id].symbol, after[id].status, after[id].minute) == (id, plan.symbol, Open, now)
              && (after[id].orderId, after[id].quantity, after[id].price) == (world.reply.orderId, quantity, plan.limitPrice)
              && (after[id].targetId, after[id].stopId) == (plan.targetId, plan.stopId)
            case Lost(_) => after == trades
            case NotBuilt => after == trades
  {
  }

  function RecordedId(world: LegWorld): Option<string> {
    if Mints(world) then Some(world.recording.id) else None
  }

  /** The log once an accepted leg has marked its lock, if the write succeeded. */
  function MarkedLog(log: seq<Line>, plan: Plan, world: LegWorld): seq<Line>
    requires world.reply.Accepts?
  {
    if world.marked then AfterCall(log, CallMark(EntryKey(plan.symbol), Some(world.reply.orderId), RecordedId(world))) else log
  }

  /** The lock of a submitted leg whose update was written names the broker's order and the trade,
      if there is a record or was to be one. */
  lemma MarkedNames(before: seq<Line>, plan: Plan, world: LegWorld)
    requires world.reply.Accepts? && world.marked && !ActiveIn(before, EntryKey(plan.symbol))
    ensures var locks := Replay(MarkedLog(AfterCall(before, CallAcquire(plan.symbol, "BUY", "", "")), plan, world));
            && EntryKey(plan.symbol) in locks
            && (var lock := locks[EntryKey(plan.symbol)];
                && lock.orderId == Some(world.reply.orderId) && lock.status == Submitted
                && (world.recording.NotBuilt? ==> lock.tradeId == None)
                && (!world.recording.NotBuilt? && world.recording.id != "" ==> lock.tradeId == Some(world.recording.id)))
  {
    var take := CallAcquire(plan.symbol, "BUY", "", "");
    CallRefinesMap(before, take);
    CallRefinesMap(AfterCall(before, take), CallMark(EntryKey(plan.symbol), Some(world.reply.orderId), RecordedId(world)));
    hide AfterCall, Replay, BuildKey, Normalize;
  }

  /** A submitted leg leaves one lock more than there was, its own. */
  lemma LegKeepsLock(before: seq<Line>, after: seq<Line>, plan: Plan, world: LegWorld)
    requires world.reply.Accepts?
    requires after == MarkedLog(AfterCall(before, CallAcquire(plan.symbol, "BUY", "", "")), plan, world)
    ensures OneLockMore(before, after, EntryKey(plan.symbol))
  {
    TakenAddsOne(before, plan.symbol);
    hide OneLockMore, AfterCall, EntryKey;
    if world.marked {
      MarkKeepsOne(before, AfterCall(before, CallAcquire(plan.symbol, "BUY", "", "")), EntryKey(plan.symbol),
                   Some(world.reply.orderId), RecordedId(world));
    }
  }

  function MintedBy(world: LegWorld): set<string> {
    if Mints(world) then {world.recording.id} else {}
  }

  /** The two ways a leg that holds its lock comes to give it back. */
  predicate RefusalSteps(steps: seq<Step>, reason: Reason) {
    || (steps == [PlanRecorded(false)] && reason == LifecycleWriteFailed)
    || (steps == [PlanRecorded(true), BrokerRefuses(true)] && reason == ExecutorRaised)
    || (steps == [PlanRecorded(true), BrokerRefuses(false)] && reason == ExecutorRejected)
  }

  /** Protocol steps of a leg that is turned away after taking the lock. */
  lemma Refuse(s0: State, s1: State, before: seq<Step>, middle: seq<Step>, reason: Reason, written: bool) returns (trace: seq<Step>)
    requires s1 == After(s0, before) && s1.phase.Held? && NoOperator(before)
    requires RefusalSteps(middle, reason)
    ensures NoOperator(trace)
    ensures After(s0, trace) == s1.(log := if written then AfterCall(s1.log, CallClear(EntryKey(s1.phase.symbol), reason)) else s1.log,
                                    phase := Idle)
  {
    hide After, NoOperator, EntryKey, AfterCall;
    trace := NextStep(s0, before, middle[0]);
    if |middle| == 2 {
      trace := NextStep(s0, trace, middle[1]);
    }
    trace := NextStep(s0, trace, AbortClears(written));
  }

  /** Protocol steps of a leg the broker accepts, up to the trade record. */
  lemma Accept(s0: State, s1: State, s4: State, before: seq<Step>, plan: Plan, quantity: int, now: int, world: LegWorld) returns (trace: seq<Step>)
    requires s1 == After(s0, before) && s1.phase == Held(plan.symbol) && NoOperator(before)
    requires world.reply.Accepts?
    requires Mints(world) ==> world.recording.id != "" && world.recording.id !in s1.minted
    requires s4 == s1.(broker := s1.broker + [Entry(EntryKey(plan.symbol), world.reply.orderId, |s1.log|)],
                       trades := Recorded(s1.trades, plan, quantity, now, world),
                       minted := s1.minted + MintedBy(world),
                       phase := Written(plan.symbol, world.reply.orderId, if Mints(world) then Some(world.recording.id) else None))
    ensures NoOperator(trace) && After(s0, trace) == s4
  {
    hide After, NoOperator, EntryKey, Apply, Recorded, MintedBy, Mints;
    trace := NextStep(s0, before, PlanRecorded(true));
    trace := NextStep(s0, trace, BrokerAccepts(world.reply.orderId));
    trace := NextStep(s0, trace, RecordStep(plan, quantity, now, world));
    AcceptSteps(s1, s4, plan, quantity, now, world);
  }

  /** The step that a leg's trade record amounts to. */
  function RecordStep(plan: Plan, quantity: int, now: int, world: LegWorld): (step: Step)
    requires world.reply.Accepts?
    ensures !step.OperatorClears?
  {
    match world.recording
    case Stored(id) => TradeWritten(TradeFor(plan, quantity, now, world))
    case Lost(id) => TradeLost(id)
    case NotBuilt => TradeNotBuilt
  }

  lemma AcceptSteps(s1: State, s4: State, plan: Plan, quantity: int, now: int, world: LegWorld)
    requires s1.phase == Held(plan.symbol) && world.reply.Accepts?
    requires Mints(world) ==> world.recording.id != "" && world.recording.id !in s1.minted
    requires s4 == s1.(broker := s1.broker + [Entry(EntryKey(plan.symbol), world.reply.orderId, |s1.log|)],
                       trades := Recorded(s1.trades, plan, quantity, now, world),
                       minted := s1.minted + MintedBy(world),
                       phase := Written(plan.symbol, world.reply.orderId, if Mints(world) then Some(world.recording.id) else None))
    ensures Apply(Apply(Apply(s1, PlanRecorded(true)), BrokerAccepts(world.reply.orderId)), RecordStep(plan, quantity, now, world)) == s4
  {
    hide EntryKey, AfterCall, ActiveIn;
    if world.recording.NotBuilt? {
      assert s1.minted + {} == s1.minted;
    }
  }

  lemma NextStep(s0: State, before: seq<Step>, step: Step) returns (trace: seq<Step>)
    requires NoOperator(before) && !step.OperatorClears?
    ensures trace == before + [step] && NoOperator(trace) && After(s0, trace) == Apply(After(s0, before), step)
  {
    AfterSnoc(s0, before, step);
    trace := before + [step];
  }
}
