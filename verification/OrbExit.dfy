/** The intraday life of a paper trade and the manager that ends it: entry, monitoring and
    the one exit every trade gets at most. */
module OrbExit {
  import opened Common
  import opened OrbAudit

  // ---------------------------------------------------------------- one trade

  datatype TradeState = EntryPending | Open | ExitPending | Closed | Failed

  /** Times are seconds; `flatAt` is absent when the configured flat time does not parse. */
  datatype Intraday = Intraday(
    terms: Terms,
    flatAt: Option<int>,
    maxHolding: Option<int>,
    state: TradeState,
    actualEntry: Option<real>,
    entrySlippage: Option<real>,
    filledAt: Option<int>,
    currentPrice: Option<real>,
    currentR: Option<real>,
    mfe: Option<real>,
    mae: Option<real>,
    exitOrder: Option<nat>,
    requestedExit: Option<real>,
    exitPrice: Option<real>,
    exitSlippage: Option<real>,
    exitReason: Option<ExitReason>,
    realized: Option<real>)

  function Registered(terms: Terms, flatAt: Option<int>, maxHolding: Option<int>): Intraday {
    Intraday(terms, flatAt, maxHolding, EntryPending, None, None, None, None, None, None, None, None, None, None, None, None, None)
  }

  function EntryForR(t: Intraday): real {
    if t.actualEntry.Some? then t.actualEntry.value else t.terms.entry
  }

  /** The multiple of the initial risk that `price` stands for. */
  function RMultiple(entry: real, stop: real, price: real): Option<real> {
    if entry - stop <= 0.0 then None else Some((price - entry) / (entry - stop))
  }

  function MaxOf(a: Option<real>, r: real): real {
    if a.Some? && a.value >= r then a.value else r
  }

  function MinOf(a: Option<real>, r: real): real {
    if a.Some? && a.value <= r then a.value else r
  }

  function FillEntry(t: Intraday, price: real, now: int): Intraday {
    if !t.state.EntryPending? then t
    else t.(actualEntry := Some(price), entrySlippage := Some(price - t.terms.entry), filledAt := Some(now), state := Open,
            currentR := Some(0.0), mfe := Some(0.0), mae := Some(0.0))
  }

  function FailEntry(t: Intraday): Intraday {
    if !t.state.EntryPending? then t else t.(state := Failed, exitReason := Some(BrokerFailure))
  }

  function CancelledEntry(t: Intraday): Intraday {
    t.(state := Closed, exitReason := Some(EntryCancelled))
  }

  function UpdatePrice(t: Intraday, price: real): Intraday {
    if !t.state.Open? then t
    else
      var r := RMultiple(EntryForR(t), t.terms.stop, price);
      t.(currentPrice := Some(price), currentR := r,
         mfe := if r.Some? then Some(MaxOf(t.mfe, r.value)) else t.mfe,
         mae := if r.Some? then Some(MinOf(t.mae, r.value)) else t.mae)
  }

  function RequestExit(t: Intraday, reason: ExitReason, price: real, order: nat): Option<Intraday> {
    if !t.state.Open? then None
    else Some(t.(state := ExitPending, exitReason := Some(reason), requestedExit := Some(price), exitOrder := Some(order)))
  }

  function FillExit(t: Intraday, price: real): Intraday {
    if !t.state.ExitPending? then t
    else t.(exitPrice := Some(price),
            exitSlippage := if t.requestedExit.Some? then Some(price - t.requestedExit.value) else t.exitSlippage,
            realized := RMultiple(EntryForR(t), t.terms.stop, price), state := Closed)
  }

  function FailExit(t: Intraday, reason: ExitReason): Intraday {
    if !t.state.Open? && !t.state.ExitPending? then t else t.(state := Failed, exitReason := Some(reason))
  }

  // ---------------------------------------------------------------- deciding an exit

  datatype Decision = Exited(reason: ExitReason) | NoExit | NoPrice

  /** Why a trade must leave now and the price level that goes with the reason. */
  function Trigger(t: Intraday, emergency: bool, price: Option<real>, now: int): Option<(ExitReason, Option<real>)> {
    if emergency then Some((EmergencyExit, price))
    else if price.Some? && price.value >= t.terms.target then Some((Target, Some(t.terms.target)))
    else if price.Some? && price.value <= t.terms.stop then Some((Stop, Some(t.terms.stop)))
    else if t.flatAt.Some? && now >= t.flatAt.value then Some((ForceFlat, price))
    else if t.maxHolding.Some? && t.filledAt.Some? && now - t.filledAt.value >= t.maxHolding.value * 60
    then Some((MaxHolding, price))
    else None
  }

  datatype Evaluated = Evaluated(trade: Intraday, log: seq<Record>, decision: Decision, ordered: bool)

  /** `ordered` says that an exit order identifier was consumed. */
  function TriggerExit(t: Intraday, reason: ExitReason, price: Option<real>, order: nat): Evaluated {
    if price.None? then Evaluated(FailExit(t, reason), [ExitFailed(t.terms.trade, reason)], NoPrice, false)
    else
      var pending := RequestExit(t, reason, price.value, order);
      if pending.None? then Evaluated(t, [], NoExit, true)
      else
        var closed := FillExit(pending.value, price.value);
        Evaluated(closed,
                  [ExitRequested(t.terms.trade, reason, price.value, order, t.terms.quantity),
                   ExitFilled(t.terms.trade, reason, price.value, closed.realized, closed.exitSlippage, closed.mfe, closed.mae)],
                  Exited(reason), true)
  }

  function Evaluate(t: Intraday, emergency: bool, price: Option<real>, now: int, order: nat): Evaluated {
    var marked := if price.Some? then UpdatePrice(t, price.value) else t;
    var trigger := Trigger(marked, emergency, price, now);
    if trigger.Some? then TriggerExit(marked, trigger.value.0, trigger.value.1, order)
    else Evaluated(marked, [], if price.None? then NoPrice else NoExit, false)
  }

  // ---------------------------------------------------------------- the manager

  /** What evaluating a trade reports; the order identifier has no part in it. */
  function DecisionOn(t: Intraday, emergency: bool, q: Quote): Decision {
    Evaluate(t, emergency, q.price, q.now, 0).decision
  }

  datatype Desk = Desk(trades: map<Id, Intraday>, order: seq<Id>, emergency: bool, seqNo: nat, disabled: set<string>)

  const EmptyDesk: Desk := Desk(map[], [], false, 0, {})

  datatype Quote = Quote(price: Option<real>, now: int)

  datatype Error = UnknownTrade | NotOpen | NotPending | BadHolding

  datatype Outcome = Outcome(desk: Desk, log: seq<Record>)

  function Register(d: Desk, terms: Terms, flatAt: Option<int>, maxHolding: Option<int>): Outcome {
    if (maxHolding.Some? && maxHolding.value <= 0) || terms.trade in d.trades then Outcome(d, [])
    else Outcome(d.(trades := d.trades[terms.trade := Registered(terms, flatAt, maxHolding)], order := d.order + [terms.trade]), [])
  }

  function MarkEntryFilled(d: Desk, id: Id, price: real, now: int): Outcome {
    if id !in d.trades then Outcome(d, [])
    else
      var t := FillEntry(d.trades[id], price, now);
      Outcome(d.(trades := d.trades[id := t]), [EntryFilled(id, price, t.entrySlippage)])
  }

  function MarkEntryFailed(d: Desk, id: Id): Outcome {
    if id !in d.trades then Outcome(d, [])
    else Outcome(d.(trades := d.trades[id := FailEntry(d.trades[id])]), [EntryFailed(id)])
  }

  function CancelEntry(d: Desk, id: Id): Outcome {
    if id !in d.trades || !d.trades[id].state.EntryPending? then Outcome(d, [])
    else Outcome(d.(trades := d.trades[id := CancelledEntry(d.trades[id])]), [EntryCancel(id)])
  }

  function EvaluateOne(d: Desk, id: Id, q: Quote): Outcome
    requires id in d.trades
  {
    var e := Evaluate(d.trades[id], d.emergency, q.price, q.now, d.seqNo + 1);
    Outcome(d.(trades := d.trades[id := e.trade], seqNo := if e.ordered then d.seqNo + 1 else d.seqNo), e.log)
  }

  /** The trades open when a pass begins, oldest first. */
  function OpenTrades(d: Desk, order: seq<Id>): seq<Id> {
    if |order| == 0 then []
    else if Last(order) in d.trades && d.trades[Last(order)].state.Open? then OpenTrades(d, Front(order)) + [Last(order)]
    else OpenTrades(d, Front(order))
  }

  function EvaluateEach(d: Desk, ids: seq<Id>, quotes: Id -> Quote): Outcome {
    if |ids| == 0 then Outcome(d, [])
    else
      var before := EvaluateEach(d, Front(ids), quotes);
      if Last(ids) !in before.desk.trades then before
      else
        var o := EvaluateOne(before.desk, Last(ids), quotes(Last(ids)));
        Outcome(o.desk, before.log + o.log)
  }

  function EvaluateAll(d: Desk, quotes: Id -> Quote): Outcome {
    EvaluateEach(d, OpenTrades(d, d.order), quotes)
  }

  function EvaluateTrade(d: Desk, id: Id, q: Quote): Outcome {
    if id !in d.trades || !d.trades[id].state.Open? then Outcome(d, []) else EvaluateOne(d, id, q)
  }

  function CloseNow(d: Desk, id: Id, price: Option<real>): Outcome {
    if id !in d.trades || !d.trades[id].state.Open? then Outcome(d, [])
    else if price.None? then Outcome(d, [CloseWithoutPrice(id)])
    else
      var e := TriggerExit(d.trades[id], ManualClose, price, d.seqNo + 1);
      Outcome(d.(trades := d.trades[id := e.trade], seqNo := d.seqNo + 1), e.log)
  }

  function SwitchEntries(d: Desk, strategy: string, disable: bool): Outcome {
    Outcome(d.(disabled := if disable then d.disabled + {strategy} else d.disabled - {strategy}), [EntriesSwitched(strategy, disable)])
  }

  class ORBExitManager {
    const audit: AuditLogger
    var trades: map<Id, Intraday>
    var order: seq<Id>
    var emergency: bool
    var seqNo: nat
    var newEntriesDisabled: set<string>

    ghost function View(): Desk
      reads this
    {
      Desk(trades, order, emergency, seqNo, newEntriesDisabled)
    }

    /** The manager and its log moved exactly as `o` says. */
    twostate predicate Did(o: Outcome)
      reads this, audit
    {
      View() == o.desk && audit.records == old(audit.records) + o.log
    }

    constructor (audit: AuditLogger)
      ensures this.audit == audit && View() == EmptyDesk
    {
      this.audit := audit;
      trades, order, emergency, seqNo, newEntriesDisabled := map[], [], false, 0, {};
    }

    method SetEmergencyStop(tripped: bool)
      modifies this`emergency
      ensures View() == old(View()).(emergency := tripped)
    {
      emergency := tripped;
    }

    method SwitchNewEntries(strategy: string, disable: bool)
      modifies this`newEntriesDisabled, audit
      ensures Did(SwitchEntries(old(View()), strategy, disable))
      ensures strategy in newEntriesDisabled <==> disable
    {
      newEntriesDisabled := if disable then newEntriesDisabled + {strategy} else newEntriesDisabled - {strategy};
      audit.LogDecision(EntriesSwitched(strategy, disable));
    }

    method RegisterTrade(terms: Terms, flatAt: Option<int>, maxHolding: Option<int>) returns (r: Result<Intraday, Error>)
      modifies this`trades, this`order
      ensures Did(Register(old(View()), terms, flatAt, maxHolding))
      ensures r.Ok? <==> maxHolding.None? || maxHolding.value > 0
      ensures r == if r.Ok? && terms.trade in trades then Ok(trades[terms.trade]) else Err(BadHolding)
    {
      if maxHolding.Some? && maxHolding.value <= 0 {
        return Err(BadHolding);
      }
      if terms.trade !in trades {
        trades := trades[terms.trade := Registered(terms, flatAt, maxHolding)];
        order := order + [terms.trade];
      }
      r := Ok(trades[terms.trade]);
    }

    method EntryFill(id: Id, price: real, now: int) returns (r: Result<Intraday, Error>)
      modifies this`trades, audit
      ensures Did(MarkEntryFilled(old(View()), id, price, now))
      ensures r == if id in trades then Ok(trades[id]) else Err(UnknownTrade)
    {
      if id !in trades {
        return Err(UnknownTrade);
      }
      var t := FillEntry(trades[id], price, now);
      trades := trades[id := t];
      audit.LogDecision(EntryFilled(id, price, t.entrySlippage));
      r := Ok(t);
    }

    method EntryFailure(id: Id) returns (r: Result<Intraday, Error>)
      modifies this`trades, audit
      ensures Did(MarkEntryFailed(old(View()), id))
      ensures r == if id in trades then Ok(trades[id]) else Err(UnknownTrade)
    {
      if id !in trades {
        return Err(UnknownTrade);
      }
      var t := FailEntry(trades[id]);
      trades := trades[id := t];
      audit.LogDecision(EntryFailed(id));
      r := Ok(t);
    }

    method Cancel(id: Id) returns (r: Result<Intraday, Error>)
      modifies this`trades, audit
      ensures Did(CancelEntry(old(View()), id))
      ensures r == if id !in old(trades) then Err(UnknownTrade)
                   else if !old(trades)[id].state.EntryPending? then Err(NotPending)
                   else Ok(CancelledEntry(old(trades)[id]))
    {
      if id !in trades {
        return Err(UnknownTrade);
      }
      if !trades[id].state.EntryPending? {
        return Err(NotPending);
      }
      var t := CancelledEntry(trades[id]);
      trades := trades[id := t];
      audit.LogDecision(EntryCancel(id));
      r := Ok(t);
    }

    method DoTriggerExit(id: Id, reason: ExitReason, price: Option<real>) returns (d: Decision)
      requires id in trades && trades[id].terms.trade == id
      modifies this`trades, this`seqNo, audit
      ensures var e := TriggerExit(old(trades)[id], reason, price, old(seqNo) + 1);
              && trades == old(trades)[id := e.trade] && d == e.decision
              && seqNo == (if e.ordered then old(seqNo) + 1 else old(seqNo))
              && audit.records == old(audit.records) + e.log
    {
      var t := trades[id];
      if price.None? {
        trades := trades[id := FailExit(t, reason)];
        audit.LogDecision(ExitFailed(id, reason));
        return NoPrice;
      }
      seqNo := seqNo + 1;
      var pending := RequestExit(t, reason, price.value, seqNo);
      if pending.None? {
        assert trades == trades[id := t];
        return NoExit;
      }
      trades := trades[id := pending.value];
      audit.LogDecision(ExitRequested(id, reason, price.value, seqNo, t.terms.quantity));
      var closed := FillExit(trades[id], price.value);
      trades := trades[id := closed];
      audit.LogDecision(ExitFilled(id, reason, price.value, closed.realized, closed.exitSlippage, closed.mfe, closed.mae));
      d := Exited(reason);
    }

    method DoEvaluateOne(id: Id, q: Quote) returns (d: Decision)
      requires id in trades && trades[id].terms.trade == id
      modifies this`trades, this`seqNo, audit
      ensures Did(EvaluateOne(old(View()), id, q))
      ensures d == DecisionOn(old(trades)[id], emergency, q)
    {
      var before := trades;
      if q.price.Some? {
        trades := trades[id := UpdatePrice(trades[id], q.price.value)];
      }
      var t := trades[id];
      assert forall u {:trigger before[id := u]} :: trades[id := u] == before[id := u];
      if emergency {
        d := DoTriggerExit(id, EmergencyExit, q.price);
        return;
      }
      if q.price.Some? {
        if q.price.value >= t.terms.target {
          d := DoTriggerExit(id, Target, Some(t.terms.target));
          return;
        }
        if q.price.value <= t.terms.stop {
          d := DoTriggerExit(id, Stop, Some(t.terms.stop));
          return;
        }
      }
      if t.flatAt.Some? && q.now >= t.flatAt.value {
        d := DoTriggerExit(id, ForceFlat, q.price);
        return;
      }
      if t.maxHolding.Some? && t.filledAt.Some? && q.now - t.filledAt.value >= t.maxHolding.value * 60 {
        d := DoTriggerExit(id, MaxHolding, q.price);
        return;
      }
      d := if q.price.None? then NoPrice else NoExit;
    }

    method EvaluateSingle(id: Id, q: Quote) returns (d: Option<Decision>)
      requires id in trades ==> trades[id].terms.trade == id
      modifies this`trades, this`seqNo, audit
      ensures Did(EvaluateTrade(old(View()), id, q))
      ensures d == if id in old(trades) && old(trades)[id].state.Open? then Some(DecisionOn(old(trades)[id], emergency, q)) else None
    {
      if id !in trades || !trades[id].state.Open? {
        return None;
      }
      var decision := DoEvaluateOne(id, q);
      d := Some(decision);
    }

    method CloseOnRequest(id: Id, price: Option<real>) returns (r: Result<Decision, Error>)
      requires id in trades ==> trades[id].terms.trade == id
      modifies this`trades, this`seqNo, audit
      ensures Did(CloseNow(old(View()), id, price))
      ensures r == if id !in old(trades) then Err(UnknownTrade)
                   else if !old(trades)[id].state.Open? then Err(NotOpen)
                   else if price.None? then Ok(NoPrice)
                   else Ok(Exited(ManualClose))
    {
      if id !in trades {
        return Err(UnknownTrade);
      }
      if !trades[id].state.Open? {
        return Err(NotOpen);
      }
      if price.None? {
        audit.LogDecision(CloseWithoutPrice(id));
        return Ok(NoPrice);
      }
      var d := DoTriggerExit(id, ManualClose, price);
      r := Ok(d);
    }
  
    method ListOpen() returns (open: seq<Id>)
      ensures open == OpenTrades(View(), order)
    {
      open := [];
      for n := 0 to |order|
        invariant open == OpenTrades(View(), order[..n])
      {
        assert Front(order[..n + 1]) == order[..n];
        if order[n] in trades && trades[order[n]].state.Open? {
          open := open + [order[n]];
        }
      }
      assert order[..|order|] == order;
    }

    /** One decision for each trade that is open when the pass begins. */
    method EvaluateAllOpen(quotes: Id -> Quote) returns (decisions: seq<Decision>)
      requires Consistent(View())
      modifies this`trades, this`seqNo, audit
      ensures Did(EvaluateAll(old(View()), quotes))
      ensures DecidedEach(old(View()), OpenTrades(old(View()), old(order)), quotes, decisions)
    {
      var open := ListOpen();
      OpenTradesAreOpen(View(), order);
      OpenTradesDistinct(View(), order);
      decisions := EvaluateListed(open, quotes);
    }

    method EvaluateListed(ids: seq<Id>, quotes: Id -> Quote) returns (decisions: seq<Decision>)
      requires Listed(View(), ids)
      modifies this`trades, this`seqNo, audit
      ensures Did(EvaluateEach(old(View()), ids, quotes))
      ensures DecidedEach(old(View()), ids, quotes, decisions)
    {
      decisions := [];
      ghost var start, done := View(), Outcome(View(), []);
      hide Listed, EvaluateEach, EvaluateOne, DecidedEach, DecisionOn;
      NothingDecided(start, ids, quotes);
      for n := 0 to |ids|
        invariant Listed(start, ids)
        invariant done == EvaluateEach(start, ids[..n], quotes)
        invariant View() == done.desk && audit.records == old(audit.records) + done.log
        invariant DecidedEach(start, ids[..n], quotes, decisions)
      {
        ghost var next := ListedStep(start, ids, n, quotes, done);
        DecidedOneMore(start, ids, n, quotes, decisions);
        var d := DoEvaluateOne(ids[n], quotes(ids[n]));
        decisions := decisions + [d];
        done := Outcome(next.desk, done.log + next.log);
      }
      assert ids[..|ids|] == ids;
    }
  }

  /** The decisions follow from the states the trades had when the pass began. */
  ghost predicate DecidedEach(d: Desk, ids: seq<Id>, quotes: Id -> Quote, decisions: seq<Decision>) {
    && |decisions| == |ids|
    && forall i :: 0 <= i < |ids| ==> ids[i] in d.trades && decisions[i] == DecisionOn(d.trades[ids[i]], d.emergency, quotes(ids[i]))
  }

  lemma NothingDecided(d: Desk, ids: seq<Id>, quotes: Id -> Quote)
    ensures DecidedEach(d, ids[..0], quotes, []) && EvaluateEach(d, ids[..0], quotes) == Outcome(d, [])
  {
  }

  lemma DecidedOneMore(d: Desk, ids: seq<Id>, n: nat, quotes: Id -> Quote, decisions: seq<Decision>)
    requires n < |ids| && Listed(d, ids) && DecidedEach(d, ids[..n], quotes, decisions)
    ensures ids[n] in d.trades
    ensures DecidedEach(d, ids[..n + 1], quotes, decisions + [DecisionOn(d.trades[ids[n]], d.emergency, quotes(ids[n]))])
  {
    hide DecisionOn;
    assert forall i :: 0 <= i <= n ==> ids[i] in ids;
    var more := decisions + [DecisionOn(d.trades[ids[n]], d.emergency, quotes(ids[n]))];
    forall i | 0 <= i < n + 1
      ensures ids[..n + 1][i] in d.trades && more[i] == DecisionOn(d.trades[ids[..n + 1][i]], d.emergency, quotes(ids[..n + 1][i]))
    {
      if i < n {
        assert ids[..n + 1][i] == ids[..n][i];
      }
    }
  }

  ghost predicate Listed(d: Desk, ids: seq<Id>) {
    Consistent(d) && Distinct(ids) && forall id :: id in ids ==> id in d.trades
  }

  lemma ListedStep(d: Desk, ids: seq<Id>, n: nat, quotes: Id -> Quote, done: Outcome) returns (next: Outcome)
    requires n < |ids| && Listed(d, ids) && done == EvaluateEach(d, ids[..n], quotes)
    ensures ids[n] in done.desk.trades && done.desk.trades[ids[n]].terms.trade == ids[n]
    ensures done.desk.trades[ids[n]] == d.trades[ids[n]] && done.desk.emergency == d.emergency
    ensures next == EvaluateOne(done.desk, ids[n], quotes(ids[n]))
    ensures EvaluateEach(d, ids[..n + 1], quotes) == Outcome(next.desk, done.log + next.log)
  {
    PassKeepsShape(d, ids[..n], quotes);
    var _ := EvaluatedOnce(d, ids[..n], quotes, ids[n]);
    next := EvaluateOne(done.desk, ids[n], quotes(ids[n]));
    EvaluateNext(d, ids, n, quotes, done, next);
  }

  lemma EvaluateNext(d: Desk, ids: seq<Id>, n: nat, quotes: Id -> Quote, done: Outcome, next: Outcome)
    requires n < |ids| && done == EvaluateEach(d, ids[..n], quotes) && ids[n] in done.desk.trades
    requires next == EvaluateOne(done.desk, ids[n], quotes(ids[n]))
    ensures EvaluateEach(d, ids[..n + 1], quotes) == Outcome(next.desk, done.log + next.log)
  {
    assert Front(ids[..n + 1]) == ids[..n];
  }

  ghost predicate Consistent(d: Desk) {
    && (forall id :: id in d.trades ==> d.trades[id].terms.trade == id)
    && (forall id :: id in d.trades <==> id in d.order)
    && Distinct(d.order)
  }

  ghost predicate Distinct(ids: seq<Id>) {
    forall i, j :: 0 <= i < j < |ids| ==> ids[i] != ids[j]
  }

  lemma DistinctFront(ids: seq<Id>)
    requires |ids| > 0 && Distinct(ids)
    ensures Distinct(Front(ids)) && Last(ids) !in Front(ids)
  {
    forall i | 0 <= i < |ids| - 1 ensures Front(ids)[i] != Last(ids) {
      assert ids[i] != ids[|ids| - 1];
    }
  }

  lemma InFront(ids: seq<Id>, id: Id)
    requires |ids| > 0
    ensures id in ids <==> id in Front(ids) || id == Last(ids)
  {
    assert ids == Front(ids) + [Last(ids)];
  }

  lemma {:induction false} OpenTradesAreOpen(d: Desk, order: seq<Id>)
    ensures forall id :: id in OpenTrades(d, order) <==> id in order && id in d.trades && d.trades[id].state.Open?
    decreases |order|
  {
    if |order| > 0 {
      OpenTradesAreOpen(d, Front(order));
      assert forall id :: id in order <==> id in Front(order) || id == Last(order);
    }
  }

  lemma EvaluateOneKeepsConsistent(d: Desk, id: Id, q: Quote)
    requires Consistent(d) && id in d.trades
    ensures Consistent(EvaluateOne(d, id, q).desk)
  {
  }

  // ---------------------------------------------------------------- what one evaluation does

  /** Held too long, past its flat time, or under the emergency stop: out whatever the price. */
  predicate ForcedOut(t: Intraday, emergency: bool, now: int) {
    || emergency
    || (t.flatAt.Some? && now >= t.flatAt.value)
    || (t.maxHolding.Some? && t.filledAt.Some? && now - t.filledAt.value >= t.maxHolding.value * 60)
  }

  /** An open trade is closed exactly when there is a price and it is at a level or the trade
      is forced out; failed exactly when it is forced out without a price; else it stays
      open. A level is left at the level itself, whatever the quote, unless the emergency
      stop is on. */
  lemma EvaluationExactly(t: Intraday, emergency: bool, price: Option<real>, now: int, order: nat)
    requires t.state.Open? && t.terms.stop < t.terms.target
    ensures var after := Evaluate(t, emergency, price, now, order).trade;
            && (after.state.Closed? <==>
                  price.Some? && (ForcedOut(t, emergency, now) || price.value >= t.terms.target || price.value <= t.terms.stop))
            && (after.state.Failed? <==> price.None? && ForcedOut(t, emergency, now))
            && (after.state.Open? <==> !after.state.Closed? && !after.state.Failed?)
            && after.actualEntry == t.actualEntry && after.terms == t.terms
            && (after.state.Closed? ==>
                  after.exitPrice == Some(if emergency then price.value
                                          else if price.value >= t.terms.target then t.terms.target
                                          else if price.value <= t.terms.stop then t.terms.stop
                                          else price.value)
                  && after.realized == RMultiple(EntryForR(t), t.terms.stop, after.exitPrice.value)
                  && after.exitSlippage == Some(0.0))
  {
  }

  /** The multiple of risk an exit at `price` realises: gain over the distance from entry to
      stop, the entry being the actual one where it is known. */
  ghost predicate Realises(t: Intraday, price: real, r: Option<real>) {
    var entry := match t.actualEntry case Some(p) => p case None => t.terms.entry;
    match r
    case Some(multiple) => entry > t.terms.stop && multiple * (entry - t.terms.stop) == price - entry
    case None => entry <= t.terms.stop
  }

  lemma MultipleOfRisk(t: Intraday, price: real)
    ensures Realises(t, price, RMultiple(EntryForR(t), t.terms.stop, price))
  {
    var risk := EntryForR(t) - t.terms.stop;
    if risk > 0.0 {
      QuotientTimes(price - EntryForR(t), risk);
    }
  }

  /** Why an open trade leaves: the emergency stop, its target, its stop, its flat time or its
      minutes of holding, whichever comes first in this order. */
  predicate MustGo(t: Intraday, emergency: bool, price: Option<real>, now: int, reason: ExitReason) {
    var target := price.Some? && t.terms.target <= price.value;
    var stopped := price.Some? && price.value <= t.terms.stop;
    var flat := t.flatAt.Some? && t.flatAt.value <= now;
    var held := t.maxHolding.Some? && t.filledAt.Some? && t.filledAt.value + 60 * t.maxHolding.value <= now;
    match reason
    case EmergencyExit => emergency
    case Target => !emergency && target
    case Stop => !emergency && !target && stopped
    case ForceFlat => !emergency && !target && !stopped && flat
    case MaxHolding => !emergency && !target && !stopped && !flat && held
    case _ => false
  }

  /** An evaluation of an open trade: it ends for exactly the reason that applies, closed at a
      price or failed without one, with the multiple of risk that price realises. */
  lemma EvaluationReason(t: Intraday, emergency: bool, price: Option<real>, now: int, order: nat, reason: ExitReason)
    requires t.state.Open?
    ensures var e := Evaluate(t, emergency, price, now, order);
            && (MustGo(t, emergency, price, now, reason) && price.Some? ==>
                  && e.trade.state == Closed && e.trade.exitReason == Some(reason) && e.decision == Exited(reason)
                  && e.trade.exitOrder == Some(order) && e.trade.exitPrice.Some? && Realises(t, e.trade.exitPrice.value, e.trade.realized))
            && (MustGo(t, emergency, price, now, reason) && price.None? ==>
                  e.trade.state == Failed && e.trade.exitReason == Some(reason) && e.decision == NoPrice && e.log == [ExitFailed(t.terms.trade, reason)])
            && ((e.trade.state == Closed || e.trade.state == Failed) && e.trade.exitReason == Some(reason) ==>
                  MustGo(t, emergency, price, now, reason))
            && (e.trade.state == Open ==>
                  !MustGo(t, emergency, price, now, reason) && e.log == [] && e.decision == (if price.Some? then NoExit else NoPrice))
  {
    var marked := if price.Some? then UpdatePrice(t, price.value) else t;
    forall p ensures Realises(t, p, RMultiple(EntryForR(marked), t.terms.stop, p)) {
      MultipleOfRisk(t, p);
    }
    hide RMultiple, EntryForR, Realises, MaxOf, MinOf;
  }

  /** A close on request: an open trade is closed at the quote with the multiple of risk that
      realises, left open without one, and nothing else is touched. */
  lemma CloseExactly(d: Desk, id: Id, price: Option<real>)
    requires id in d.trades && d.trades[id].state.Open?
    ensures var o := CloseNow(d, id, price);
            && (price.None? ==> o == Outcome(d, [CloseWithoutPrice(id)]))
            && (price.Some? ==>
                  && id in o.desk.trades && o.desk == d.(trades := d.trades[id := o.desk.trades[id]], seqNo := d.seqNo + 1)
                  && (var (t, after) := (d.trades[id], o.desk.trades[id]);
                      && after.state == Closed && after.exitReason == Some(ManualClose) && after.exitPrice == price
                      && after.exitOrder == Some(d.seqNo + 1) && Realises(t, price.value, after.realized)
                      && (after.terms, after.actualEntry, after.mfe, after.mae) == (t.terms, t.actualEntry, t.mfe, t.mae)))
  {
    if price.Some? {
      MultipleOfRisk(d.trades[id], price.value);
      hide RMultiple, Realises, EntryForR;
    }
  }

  /** An open trade seen at these prices, one after the other. */
  function Watched(t: Intraday, prices: seq<real>): Intraday {
    if |prices| == 0 then t else UpdatePrice(Watched(t, Front(prices)), Last(prices))
  }

  /** The gain that a multiple of the risk is. */
  function GainOf(multiple: Option<real>, risk: real): real {
    if multiple.Some? then multiple.value * risk else 0.0
  }

  /** The largest of zero and the gains over `entry` at these prices; and the smallest. */
  ghost predicate IsBest(gain: real, prices: seq<real>, entry: real) {
    && 0.0 <= gain && (forall i :: 0 <= i < |prices| ==> prices[i] - entry <= gain)
    && (gain == 0.0 || exists i :: 0 <= i < |prices| && prices[i] - entry == gain)
  }

  ghost predicate IsWorst(gain: real, prices: seq<real>, entry: real) {
    && gain <= 0.0 && (forall i :: 0 <= i < |prices| ==> gain <= prices[i] - entry)
    && (gain == 0.0 || exists i :: 0 <= i < |prices| && prices[i] - entry == gain)
  }

  lemma BestSnoc(gain: real, more: real, prices: seq<real>, price: real, entry: real)
    requires IsBest(gain, prices, entry) && gain <= more && price - entry <= more && (more == gain || more == price - entry)
    ensures IsBest(more, prices + [price], entry)
  {
    var all := prices + [price];
    assert all[|prices|] == price && forall i :: 0 <= i < |prices| ==> all[i] == prices[i];
    if more == gain && gain != 0.0 {
      var i :| 0 <= i < |prices| && prices[i] - entry == gain;
      assert all[i] - entry == more;
    }
  }

  lemma WorstSnoc(gain: real, less: real, prices: seq<real>, price: real, entry: real)
    requires IsWorst(gain, prices, entry) && less <= gain && less <= price - entry && (less == gain || less == price - entry)
    ensures IsWorst(less, prices + [price], entry)
  {
    var all := prices + [price];
    assert all[|prices|] == price && forall i :: 0 <= i < |prices| ==> all[i] == prices[i];
    if less == gain && gain != 0.0 {
      var i :| 0 <= i < |prices| && prices[i] - entry == gain;
      assert all[i] - entry == less;
    }
  }

  /** Excursions are extremes: from its fill on the best multiple of risk is the largest of zero
      and those of all prices seen, the worst the smallest. */
  lemma {:induction false} ExcursionsAreExtremes(t: Intraday, prices: seq<real>, entry: real)
    requires t.state == Open && t.actualEntry == Some(entry) && t.terms.stop < entry && t.mfe == Some(0.0) && t.mae == Some(0.0)
    ensures var (w, risk) := (Watched(t, prices), entry - t.terms.stop);
            && w.state == Open && w.terms == t.terms && w.actualEntry == t.actualEntry && w.mfe.Some? && w.mae.Some?
            && IsBest(GainOf(w.mfe, risk), prices, entry) && IsWorst(GainOf(w.mae, risk), prices, entry)
            && (|prices| > 0 ==> w.currentPrice == Some(Last(prices)))
    decreases |prices|
  {
    if |prices| > 0 {
      ExcursionsAreExtremes(t, Front(prices), entry);
      assert Front(prices) + [Last(prices)] == prices;
      hide UpdatePrice, IsBest, IsWorst, GainOf;
      OneMoreExtreme(Watched(t, Front(prices)), Front(prices), Last(prices), entry, entry - t.terms.stop);
    } else {
      NoGain(entry - t.terms.stop);
    }
  }

  lemma NoGain(risk: real)
    ensures GainOf(Some(0.0), risk) == 0.0
  {
  }

  lemma OneMoreExtreme(t: Intraday, prices: seq<real>, price: real, entry: real, risk: real)
    requires t.state == Open && t.actualEntry == Some(entry) && risk == entry - t.terms.stop && risk > 0.0 && t.mfe.Some? && t.mae.Some?
    requires IsBest(GainOf(t.mfe, risk), prices, entry) && IsWorst(GainOf(t.mae, risk), prices, entry)
    ensures var w := UpdatePrice(t, price);
            && w.state == Open && w.terms == t.terms && w.actualEntry == t.actualEntry && w.mfe.Some? && w.mae.Some?
            && IsBest(GainOf(w.mfe, risk), prices + [price], entry) && IsWorst(GainOf(w.mae, risk), prices + [price], entry)
            && w.currentPrice == Some(price)
  {
    var w := UpdatePrice(t, price);
    OneMorePrice(t, price, entry, risk);
    hide UpdatePrice, IsBest, IsWorst, GainOf;
    BestSnoc(GainOf(t.mfe, risk), GainOf(w.mfe, risk), prices, price, entry);
    WorstSnoc(GainOf(t.mae, risk), GainOf(w.mae, risk), prices, price, entry);
  }

  lemma OneMorePrice(t: Intraday, price: real, entry: real, risk: real)
    requires t.state == Open && t.actualEntry == Some(entry) && risk == entry - t.terms.stop && risk > 0.0 && t.mfe.Some? && t.mae.Some?
    ensures var w := UpdatePrice(t, price);
            && w == t.(currentPrice := Some(price), currentR := w.currentR, mfe := w.mfe, mae := w.mae) && w.mfe.Some? && w.mae.Some?
            && GainOf(t.mfe, risk) <= GainOf(w.mfe, risk) && GainOf(w.mae, risk) <= GainOf(t.mae, risk)
            && GainOf(w.mae, risk) <= price - entry <= GainOf(w.mfe, risk)
            && (GainOf(w.mfe, risk) == GainOf(t.mfe, risk) || GainOf(w.mfe, risk) == price - entry)
            && (GainOf(w.mae, risk) == GainOf(t.mae, risk) || GainOf(w.mae, risk) == price - entry)
  {
    var r := (price - entry) / risk;
    RatioGain(price - entry, risk);
    InOrder(risk, r, t.mfe.value);
    InOrder(risk, r, t.mae.value);
    hide GainOf;
    assert RMultiple(EntryForR(t), t.terms.stop, price) == Some(r);
    hide RMultiple, EntryForR;
  }

  lemma RatioGain(gain: real, risk: real)
    requires risk > 0.0
    ensures GainOf(Some(gain / risk), risk) == gain
  {
    QuotientTimes(gain, risk);
  }

  lemma InOrder(risk: real, a: real, b: real)
    requires risk > 0.0
    ensures a <= b ==> GainOf(Some(a), risk) <= GainOf(Some(b), risk)
    ensures b <= a ==> GainOf(Some(b), risk) <= GainOf(Some(a), risk)
  {
  }

  /** An evaluation sees its price first; what it then decides leaves the excursions alone. With
      no distance from entry to stop they stay as they were. */
  lemma EvaluationWatches(t: Intraday, emergency: bool, price: Option<real>, now: int, order: nat)
    requires t.state == Open
    ensures var (after, seen) := (Evaluate(t, emergency, price, now, order).trade, if price.Some? then Watched(t, [price.value]) else t);
            && (after.mfe, after.mae, after.currentPrice) == (seen.mfe, seen.mae, seen.currentPrice)
            && (after.state == Open ==> after == seen)
            && (t.actualEntry.Some? && t.actualEntry.value <= t.terms.stop ==> (after.mfe, after.mae) == (t.mfe, t.mae))
  {
    if price.Some? {
      assert Front([price.value]) == [] && Watched(t, []) == t;
    }
    hide MaxOf, MinOf, RMultiple;
  }

  /** The other calls, field by field: what a trade is when it is registered, filled, reported
      failed or cancelled. */
  lemma EntryCallsExactly(d: Desk, terms: Terms, flatAt: Option<int>, maxHolding: Option<int>, id: Id, price: real, now: int)
    ensures var after := Register(d, terms, flatAt, maxHolding).desk;
            if terms.trade !in d.trades && (maxHolding == None || (exists m :: maxHolding == Some(m) && m > 0)) then
              && after == d.(trades := after.trades, order := d.order + [terms.trade]) && terms.trade in after.trades
              && after.trades == d.trades[terms.trade := after.trades[terms.trade]]
              && (var t := after.trades[terms.trade];
                  && (t.terms, t.flatAt, t.maxHolding, t.state) == (terms, flatAt, maxHolding, EntryPending)
                  && t.actualEntry == None && t.exitReason == None && t.realized == None && t.exitPrice == None && t.filledAt == None)
            else after == d
    ensures id in d.trades && d.trades[id].state == EntryPending ==>
              && (var t := MarkEntryFilled(d, id, price, now).desk.trades[id];
                  && t.state == Open && t.actualEntry == Some(price) && t.entrySlippage == Some(price - d.trades[id].terms.entry)
                  && t.filledAt == Some(now) && t.mfe == Some(0.0) && t.mae == Some(0.0) && t.currentR == Some(0.0) && t.terms == d.trades[id].terms)
              && MarkEntryFailed(d, id).desk == d.(trades := d.trades[id := d.trades[id].(state := Failed, exitReason := Some(BrokerFailure))])
              && CancelEntry(d, id) == Outcome(d.(trades := d.trades[id := d.trades[id].(state := Closed, exitReason := Some(EntryCancelled))]),
                                               [EntryCancel(id)])
    ensures id in d.trades && d.trades[id].state != EntryPending ==>
              && MarkEntryFilled(d, id, price, now).desk == d && MarkEntryFailed(d, id).desk == d && CancelEntry(d, id) == Outcome(d, [])
  {
    if id in d.trades && d.trades[id].state != EntryPending {
      assert d.trades[id := d.trades[id]] == d.trades;
    }
  }

  // ---------------------------------------------------------------- one pass over the open trades

  lemma {:induction false} OpenTradesDistinct(d: Desk, order: seq<Id>)
    requires Distinct(order)
    ensures Distinct(OpenTrades(d, order))
    decreases |order|
  {
    if |order| > 0 {
      DistinctFront(order);
      OpenTradesDistinct(d, Front(order));
      OpenTradesAreOpen(d, Front(order));
      var front := OpenTrades(d, Front(order));
      assert forall i :: 0 <= i < |front| ==> front[i] in front;
    }
  }

  /** Trade `id` after a pass over `ids`: evaluated once from where it stood, or untouched. */
  ghost predicate PassedOver(d: Desk, ids: seq<Id>, quotes: Id -> Quote, id: Id, order: nat, after: Desk) {
    && id in after.trades && id in d.trades
    && after.trades[id] == if id in ids then Evaluate(d.trades[id], d.emergency, quotes(id).price, quotes(id).now, order).trade
                           else d.trades[id]
  }

  lemma {:induction false} PassKeepsShape(d: Desk, ids: seq<Id>, quotes: Id -> Quote)
    requires Consistent(d) && forall i :: i in ids ==> i in d.trades
    ensures var after := EvaluateEach(d, ids, quotes).desk;
            Consistent(after) && after.trades.Keys == d.trades.Keys && after.emergency == d.emergency
    decreases |ids|
  {
    if |ids| > 0 {
      PassKeepsShape(d, Front(ids), quotes);
      EvaluateOneKeepsConsistent(EvaluateEach(d, Front(ids), quotes).desk, Last(ids), quotes(Last(ids)));
    }
  }

  /** In a pass every listed trade is evaluated once, from the state it had when the pass
      began; all others keep theirs. */
  lemma {:induction false} EvaluatedOnce(d: Desk, ids: seq<Id>, quotes: Id -> Quote, id: Id) returns (order: nat)
    requires Consistent(d) && Distinct(ids) && id in d.trades
    requires forall i :: i in ids ==> i in d.trades
    ensures PassedOver(d, ids, quotes, id, order, EvaluateEach(d, ids, quotes).desk)
    decreases |ids|
  {
    order := 0;
    if |ids| > 0 {
      var last := Last(ids);
      DistinctFront(ids);
      InFront(ids, id);
      order := EvaluatedOnce(d, Front(ids), quotes, id);
      PassKeepsShape(d, Front(ids), quotes);
      if id == last {
        order := EvaluateEach(d, Front(ids), quotes).desk.seqNo + 1;
      }
    }
  }

  /** Every trade must leave: the emergency stop is tripped or its flat time is past. */
  predicate MustLeave(d: Desk, id: Id, now: int) {
    d.emergency || (id in d.trades && d.trades[id].flatAt.Some? && now >= d.trades[id].flatAt.value)
  }

  lemma LeavesWhenItMust(t: Intraday, emergency: bool, q: Quote, order: nat)
    requires t.state.Open? && (emergency || (t.flatAt.Some? && q.now >= t.flatAt.value))
    ensures var after := Evaluate(t, emergency, q.price, q.now, order).trade;
            && after.state == (if q.price.Some? then Closed else Failed)
            && (q.price.Some? ==> after.exitPrice.Some?)
            && (emergency ==> after.exitReason == Some(EmergencyExit) && after.exitPrice == (if q.price.Some? then q.price else t.exitPrice))
  {
  }

  /** With the emergency stop tripped, or past the force-flat instant, one pass leaves no
      trade open whatever prices are missing: with a price it is closed, without one it is
      failed, never left alone. */
  lemma NoneLeftOpen(d: Desk, quotes: Id -> Quote)
    requires Consistent(d)
    requires forall id :: id in d.trades && d.trades[id].state.Open? ==> MustLeave(d, id, quotes(id).now)
    ensures var after := EvaluateAll(d, quotes).desk;
            && after.trades.Keys == d.trades.Keys
            && forall id :: id in d.trades ==>
                              && !after.trades[id].state.Open?
                              && (d.trades[id].state.Open? ==> after.trades[id].state == if quotes(id).price.Some? then Closed else Failed)
                              && (!d.trades[id].state.Open? ==> after.trades[id] == d.trades[id])
  {
    var open := OpenTrades(d, d.order);
    OpenTradesAreOpen(d, d.order);
    OpenTradesDistinct(d, d.order);
    PassKeepsShape(d, open, quotes);
    var after := EvaluateAll(d, quotes).desk;
    forall id | id in d.trades
      ensures && !after.trades[id].state.Open?
              && (d.trades[id].state.Open? ==> after.trades[id].state == if quotes(id).price.Some? then Closed else Failed)
              && (!d.trades[id].state.Open? ==> after.trades[id] == d.trades[id])
    {
      var order := EvaluatedOnce(d, open, quotes, id);
      if id in open {
        LeavesWhenItMust(d.trades[id], d.emergency, quotes(id), order);
      }
    }
  }

  // ---------------------------------------------------------------- runs

  datatype Op =
    | Registration(terms: Terms, flatAt: Option<int>, maxHolding: Option<int>)
    | Fill(id: Id, price: real, now: int)
    | FillFailure(id: Id)
    | Cancellation(id: Id)
    | Pass(quotes: Id -> Quote)
    | Single(id: Id, quote: Quote)
    | Close(id: Id, offered: Option<real>)
    | Emergency(tripped: bool)
    | Switch(strategy: string, disable: bool)

  function Step(d: Desk, op: Op): Outcome {
    match op
    case Registration(terms, flatAt, maxHolding) => Register(d, terms, flatAt, maxHolding)
    case Fill(id, price, now) => MarkEntryFilled(d, id, price, now)
    case FillFailure(id) => MarkEntryFailed(d, id)
    case Cancellation(id) => CancelEntry(d, id)
    case Pass(quotes) => EvaluateAll(d, quotes)
    case Single(id, quote) => EvaluateTrade(d, id, quote)
    case Close(id, offered) => CloseNow(d, id, offered)
    case Emergency(tripped) => Outcome(d.(emergency := tripped), [])
    case Switch(strategy, disable) => SwitchEntries(d, strategy, disable)
  }

  function Run(ops: seq<Op>): Outcome {
    if |ops| == 0 then Outcome(EmptyDesk, [])
    else
      var before := Run(Front(ops));
      var o := Step(before.desk, Last(ops));
      Outcome(o.desk, before.log + o.log)
  }

  // ---------------------------------------------------------------- at most one exit

  predicate IsExit(r: Record, id: Id) {
    (r.ExitRequested? || r.ExitFilled?) && r.trade == id
  }

  function Requests(log: seq<Record>, id: Id): nat {
    if |log| == 0 then 0 else Requests(Front(log), id) + if Last(log).ExitRequested? && Last(log).trade == id then 1 else 0
  }

  function Fills(log: seq<Record>, id: Id): nat {
    if |log| == 0 then 0 else Fills(Front(log), id) + if Last(log).ExitFilled? && Last(log).trade == id then 1 else 0
  }

  lemma {:induction false} CountsAdd(a: seq<Record>, b: seq<Record>, id: Id)
    ensures Requests(a + b, id) == Requests(a, id) + Requests(b, id)
    ensures Fills(a + b, id) == Fills(a, id) + Fills(b, id)
    decreases |b|
  {
    if |b| == 0 {
      assert a + b == a;
    } else {
      assert Front(a + b) == a + Front(b);
      CountsAdd(a, Front(b), id);
    }
  }

  /** One exit was made of this trade, or none. */
  function Exits(t: Intraday): nat {
    if t.state.Closed? && t.exitReason != Some(EntryCancelled) then 1 else 0
  }

  /** The level an exit of this reason is made at, where the reason fixes it. */
  predicate FitsReason(terms: Terms, reason: ExitReason, price: real) {
    && (reason.Target? ==> price == terms.target)
    && (reason.Stop? ==> price == terms.stop)
    && !reason.EntryCancelled? && !reason.BrokerFailure?
  }

  /** An exit record is for the whole original quantity at the level its reason fixes. */
  predicate GoodRecord(terms: Terms, r: Record) {
    && (r.ExitRequested? ==> r.trade == terms.trade && r.quantity == terms.quantity && FitsReason(terms, r.reason, r.price))
    && (r.ExitFilled? ==> r.trade == terms.trade && FitsReason(terms, r.reason, r.price))
  }

  predicate GoodIn(d: Desk, r: Record) {
    r.ExitRequested? || r.ExitFilled? ==> r.trade in d.trades && GoodRecord(d.trades[r.trade].terms, r)
  }

  predicate CountsMatch(d: Desk, log: seq<Record>, id: Id) {
    Requests(log, id) == Fills(log, id) == if id in d.trades then Exits(d.trades[id]) else 0
  }

  ghost predicate Sound(d: Desk, log: seq<Record>) {
    && Consistent(d)
    && (forall id :: id in d.trades ==> !d.trades[id].state.ExitPending?)
    && (forall id :: CountsMatch(d, log, id))
    && (forall i :: 0 <= i < |log| ==> GoodIn(d, log[i]))
  }

  /** What a step on one trade must show for the whole desk to stay sound. */
  ghost predicate SoundMove(t: Intraday, after: Intraday, more: seq<Record>) {
    && after.terms == t.terms && !after.state.ExitPending?
    && Requests(more, t.terms.trade) == Fills(more, t.terms.trade) == Exits(after) - Exits(t)
    && (forall i :: 0 <= i < |more| ==> GoodRecord(t.terms, more[i]))
  }

  lemma {:induction false} OthersDoNotCount(terms: Terms, more: seq<Record>, id: Id)
    requires id != terms.trade && forall i :: 0 <= i < |more| ==> GoodRecord(terms, more[i])
    ensures Requests(more, id) == Fills(more, id) == 0
    decreases |more|
  {
    if |more| > 0 {
      OthersDoNotCount(terms, Front(more), id);
    }
  }

  lemma MoveKeepsSound(d: Desk, log: seq<Record>, id: Id, after: Intraday, more: seq<Record>, d': Desk)
    requires Sound(d, log) && id in d.trades && SoundMove(d.trades[id], after, more)
    requires d'.trades == d.trades[id := after] && d'.order == d.order
    ensures Sound(d', log + more)
  {
    forall i ensures CountsMatch(d', log + more, i) {
      assert CountsMatch(d, log, i);
      CountsAdd(log, more, i);
      if i != id {
        OthersDoNotCount(d.trades[id].terms, more, i);
      }
    }
    forall i | 0 <= i < |log + more| ensures GoodIn(d', (log + more)[i]) {
      if i < |log| {
        assert GoodIn(d, log[i]);
      } else {
        assert GoodRecord(d.trades[id].terms, more[i - |log|]);
      }
    }
  }

  lemma CountTwo(first: Record, second: Record, id: Id)
    requires first.ExitRequested? && second.ExitFilled? && first.trade == second.trade == id
    ensures Requests([first, second], id) == 1 && Fills([first, second], id) == 1
  {
    assert Front([first, second]) == [first] && Front([first]) == [];
    assert Requests([first], id) == 1 && Fills([first], id) == 0;
  }

  lemma CountOne(r: Record, id: Id)
    requires !r.ExitRequested? && !r.ExitFilled?
    ensures Requests([r], id) == 0 && Fills([r], id) == 0
  {
    assert Front([r]) == [];
  }

  lemma TriggerMoves(t: Intraday, reason: ExitReason, price: Option<real>, order: nat)
    requires t.state.Open? && (price.Some? ==> FitsReason(t.terms, reason, price.value))
    ensures SoundMove(t, TriggerExit(t, reason, price, order).trade, TriggerExit(t, reason, price, order).log)
  {
    var e := TriggerExit(t, reason, price, order);
    if price.None? {
      CountOne(e.log[0], t.terms.trade);
    } else {
      CountTwo(e.log[0], e.log[1], t.terms.trade);
    }
  }

  lemma EvaluationMoves(t: Intraday, emergency: bool, price: Option<real>, now: int, order: nat)
    requires t.state.Open?
    ensures SoundMove(t, Evaluate(t, emergency, price, now, order).trade, Evaluate(t, emergency, price, now, order).log)
  {
    var marked := if price.Some? then UpdatePrice(t, price.value) else t;
    var trigger := Trigger(marked, emergency, price, now);
    if trigger.Some? {
      TriggerMoves(marked, trigger.value.0, trigger.value.1, order);
    }
  }

  lemma EvaluateOneKeepsSound(d: Desk, log: seq<Record>, id: Id, q: Quote)
    requires Sound(d, log) && id in d.trades && d.trades[id].state.Open?
    ensures Sound(EvaluateOne(d, id, q).desk, log + EvaluateOne(d, id, q).log)
  {
    var o := EvaluateOne(d, id, q);
    EvaluationMoves(d.trades[id], d.emergency, q.price, q.now, d.seqNo + 1);
    MoveKeepsSound(d, log, id, o.desk.trades[id], o.log, o.desk);
  }

  lemma {:induction false} PassKeepsSound(d: Desk, log: seq<Record>, ids: seq<Id>, quotes: Id -> Quote)
    requires Sound(d, log) && Distinct(ids)
    requires forall id :: id in ids ==> id in d.trades && d.trades[id].state.Open?
    ensures Sound(EvaluateEach(d, ids, quotes).desk, log + EvaluateEach(d, ids, quotes).log)
    decreases |ids|
  {
    if |ids| == 0 {
      assert log + [] == log;
    } else {
      var last, before := Last(ids), EvaluateEach(d, Front(ids), quotes);
      DistinctFront(ids);
      PassKeepsSound(d, log, Front(ids), quotes);
      PassKeepsShape(d, Front(ids), quotes);
      var order := EvaluatedOnce(d, Front(ids), quotes, last);
      assert PassedOver(d, Front(ids), quotes, last, order, before.desk);
      EvaluateOneKeepsSound(before.desk, log + before.log, last, quotes(last));
      var o := EvaluateOne(before.desk, last, quotes(last));
      assert log + (before.log + o.log) == (log + before.log) + o.log;
    }
  }

  lemma RegistrationKeepsSound(d: Desk, log: seq<Record>, terms: Terms, flatAt: Option<int>, maxHolding: Option<int>)
    requires Sound(d, log)
    ensures Sound(Register(d, terms, flatAt, maxHolding).desk, log)
  {
    var after := Register(d, terms, flatAt, maxHolding).desk;
    if after != d {
      forall id ensures CountsMatch(after, log, id) {
        assert CountsMatch(d, log, id);
      }
      forall i | 0 <= i < |log| ensures GoodIn(after, log[i]) {
        assert GoodIn(d, log[i]);
      }
    }
  }

  lemma OneRecordMoves(t: Intraday, after: Intraday, r: Record)
    requires after.terms == t.terms && !after.state.ExitPending? && Exits(after) == Exits(t)
    requires !r.ExitRequested? && !r.ExitFilled?
    ensures SoundMove(t, after, [r])
  {
    CountOne(r, t.terms.trade);
  }

  lemma NeutralKeepsSound(d: Desk, log: seq<Record>, r: Record, d': Desk)
    requires Sound(d, log) && !r.ExitRequested? && !r.ExitFilled?
    requires d'.trades == d.trades && d'.order == d.order
    ensures Sound(d', log + [r]) && Sound(d', log)
  {
    forall id ensures CountsMatch(d', log + [r], id) && CountsMatch(d', log, id) {
      assert CountsMatch(d, log, id);
      CountsAdd(log, [r], id);
      CountOne(r, id);
    }
    forall i | 0 <= i < |log| ensures GoodIn(d', log[i]) {
      assert GoodIn(d, log[i]);
    }
  }

  lemma StepKeepsSound(d: Desk, log: seq<Record>, op: Op)
    requires Sound(d, log)
    ensures Sound(Step(d, op).desk, log + Step(d, op).log)
  {
    var o := Step(d, op);
    assert log + [] == log;
    match op
    case Registration(terms, flatAt, maxHolding) => RegistrationKeepsSound(d, log, terms, flatAt, maxHolding);
    case Fill(id, price, now) =>
      if id in d.trades {
        OneRecordMoves(d.trades[id], o.desk.trades[id], o.log[0]);
        MoveKeepsSound(d, log, id, o.desk.trades[id], o.log, o.desk);
      }
    case FillFailure(id) =>
      if id in d.trades {
        OneRecordMoves(d.trades[id], o.desk.trades[id], o.log[0]);
        MoveKeepsSound(d, log, id, o.desk.trades[id], o.log, o.desk);
      }
    case Cancellation(id) =>
      if id in d.trades && d.trades[id].state.EntryPending? {
        OneRecordMoves(d.trades[id], o.desk.trades[id], o.log[0]);
        MoveKeepsSound(d, log, id, o.desk.trades[id], o.log, o.desk);
      }
    case Pass(quotes) =>
      OpenTradesAreOpen(d, d.order);
      OpenTradesDistinct(d, d.order);
      PassKeepsSound(d, log, OpenTrades(d, d.order), quotes);
    case Single(id, quote) =>
      if id in d.trades && d.trades[id].state.Open? {
        EvaluateOneKeepsSound(d, log, id, quote);
      }
    case Close(id, offered) =>
      if id in d.trades && d.trades[id].state.Open? {
        if offered.None? {
          NeutralKeepsSound(d, log, o.log[0], d);
        } else {
          TriggerMoves(d.trades[id], ManualClose, offered, d.seqNo + 1);
          MoveKeepsSound(d, log, id, o.desk.trades[id], o.log, o.desk);
        }
      }
    case Emergency(tripped) => NeutralKeepsSound(d, log, EntriesSwitched("", tripped), o.desk);
    case Switch(strategy, disable) => NeutralKeepsSound(d, log, o.log[0], o.desk);
  }

  lemma {:induction false} RunKeepsSound(ops: seq<Op>)
    ensures Sound(Run(ops).desk, Run(ops).log)
    decreases |ops|
  {
    if |ops| == 0 {
      forall id ensures CountsMatch(EmptyDesk, [], id) {
      }
    } else {
      RunKeepsSound(Front(ops));
      StepKeepsSound(Run(Front(ops)).desk, Run(Front(ops)).log, Last(ops));
    }
  }

  /** Over any run of complete calls a trade gets at most one exit request and one exit
      fill, always for its original quantity, at the target when the target was reached
      and at the stop when the stop was. */
  lemma OneExitPerTrade(ops: seq<Op>, id: Id)
    ensures Requests(Run(ops).log, id) == Fills(Run(ops).log, id) <= 1
    ensures forall i :: 0 <= i < |Run(ops).log| && IsExit(Run(ops).log[i], id) ==>
                          id in Run(ops).desk.trades && GoodRecord(Run(ops).desk.trades[id].terms, Run(ops).log[i])
  {
    RunKeepsSound(ops);
    var o := Run(ops);
    assert CountsMatch(o.desk, o.log, id);
    forall i | 0 <= i < |o.log| && IsExit(o.log[i], id) ensures id in o.desk.trades && GoodRecord(o.desk.trades[id].terms, o.log[i]) {
      assert GoodIn(o.desk, o.log[i]);
    }
  }
}
