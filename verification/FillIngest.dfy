/** The broker-fill ingestor: reports matched to trades, trades closed, outcomes emitted. */
module FillIngest {
  import opened Common
  import opened FillMerge

  // ---------------------------------------------------------------- reports

  /** A raw report: missing or unusable numbers are absent, a missing identifier is empty;
      `extra` holds whatever of the remaining fields is there. */
  datatype Row = Row(order: Option<int>, quantity: Option<real>, price: Option<real>, exec: string, extra: map<Field, Value>)

  function Normalised(row: Row): Option<Fill> {
    if row.order.None? || row.quantity.None? || row.price.None? || row.quantity.value <= 0.0 || row.price.value <= 0.0 then None
    else
      var time := if Timestamp in row.extra && row.extra[Timestamp].Text? then row.extra[Timestamp].text else "";
      var exec := if row.exec == "" then MadeUp(row.order.value, row.quantity.value, row.price.value, time) else Given(row.exec);
      Some(Fill(exec, row.extra + map[OrderId := Whole(row.order.value), Quantity := Number(row.quantity.value),
                                      Price := Number(row.price.value)]))
  }

  /** A row is a report exactly when it has an order, a positive quantity and a positive price.
      The report says those three as the row does and the rest as it stands; it goes by the
      row's execution identifier or, without one, by order, quantity, price and time. */
  lemma NormalisedExactly(row: Row)
    ensures Normalised(row).Some? <==>
              row.order.Some? && (exists q :: row.quantity == Some(q) && q > 0.0) && (exists p :: row.price == Some(p) && p > 0.0)
    ensures Normalised(row).Some? ==>
              var f := Normalised(row).value;
              && row.order.Some? && row.quantity.Some? && row.price.Some?
              && f.fields.Keys == row.extra.Keys + {OrderId, Quantity, Price}
              && f.fields[OrderId] == Whole(row.order.value) && f.fields[Quantity] == Number(row.quantity.value)
              && f.fields[Price] == Number(row.price.value)
              && (forall k :: k in row.extra && k !in {OrderId, Quantity, Price} ==> f.fields[k] == row.extra[k])
              && (row.exec != "" ==> f.exec == Given(row.exec))
              && (row.exec == "" ==>
                    && f.exec.MadeUp? && f.exec.order == row.order.value && f.exec.quantity == row.quantity.value && f.exec.price == row.price.value
                    && (forall time :: Timestamp in row.extra && row.extra[Timestamp] == Text(time) ==> f.exec.time == time))
  {
  }

  function OrderOf(f: Fill): int {
    if OrderId in f.fields && f.fields[OrderId].Whole? then f.fields[OrderId].whole else -1
  }

  /** A report and whether, should it come to that, the outcome writer would take a record. */
  datatype Delivery = Delivery(fill: Fill, written: bool)

  // ---------------------------------------------------------------- trades

  datatype Status = Planned | Open | ExitPending | Closed | Failed

  datatype Reason = TakeProfit | StopLoss | Other(text: string)

  datatype Trade = Trade(
    id: int,
    status: Status,
    quantity: int,
    entryLimit: Option<real>,
    entryOrder: int,
    targetOrder: Option<int>,
    stopOrder: Option<int>,
    exitOrder: Option<int>,
    exitReason: Option<Reason>,
    entryFills: seq<Fill>,
    exitFills: seq<Fill>,
    entryPrice: Option<real>,
    exitPrice: Option<real>,
    pnl: Option<real>,
    emitted: bool)

  datatype Summary = Summary(quantity: int, average: real, commission: real)

  function Aggregate(fills: seq<Fill>, fallbackQuantity: int, fallbackPrice: Option<real>): Option<Summary> {
    if |fills| == 0 then
      if fallbackPrice.None? || fallbackQuantity <= 0 then None else Some(Summary(fallbackQuantity, fallbackPrice.value, 0.0))
    else
      var s := Sum(fills);
      if s.quantity <= 0 then None else Some(Summary(s.quantity, s.value / s.quantity as real, s.commission))
  }

  method AggregateFills(fills: seq<Fill>, fallbackQuantity: int, fallbackPrice: Option<real>) returns (r: Option<Summary>)
    ensures r == Aggregate(fills, fallbackQuantity, fallbackPrice)
  {
    if |fills| == 0 {
      if fallbackPrice.None? || fallbackQuantity <= 0 {
        return None;
      }
      return Some(Summary(fallbackQuantity, fallbackPrice.value, 0.0));
    }
    var total := TotalOf(fills);
    r := if total.quantity <= 0 then None else Some(Summary(total.quantity, total.value / total.quantity as real, total.commission));
  }

  lemma PlusZero(a: Totals)
    ensures Plus(a, Zero) == a
  {
  }

  lemma SumSnoc(fills: seq<Fill>, n: nat)
    requires n < |fills|
    ensures Sum(fills[..n + 1]) == Plus(Sum(fills[..n]), Part(fills[n]))
  {
    assert Front(fills[..n + 1]) == fills[..n];
  }

  method TotalOf(fills: seq<Fill>) returns (total: Totals)
    ensures total == Sum(fills)
  {
    total := Zero;
    for n := 0 to |fills|
      invariant total == Sum(fills[..n])
    {
      SumSnoc(fills, n);
      if Shares(fills[n]) > 0 && PriceOf(fills[n]) > 0.0 {
        total := Plus(total, Counted(fills[n]));
      } else {
        PlusZero(total);
      }
    }
    assert fills[..|fills|] == fills;
  }

  /** The known entry price, or failing that the entry limit. */
  function EntryFallback(t: Trade): Option<real> {
    if t.entryPrice.Some? && t.entryPrice.value != 0.0 then t.entryPrice else t.entryLimit
  }

  function EntrySummary(t: Trade): Option<Summary> {
    Aggregate(t.entryFills, t.quantity, EntryFallback(t))
  }

  function ExitSummary(t: Trade, exits: seq<Fill>): Option<Summary> {
    Aggregate(exits, t.quantity, t.exitPrice)
  }

  function CloseQuantity(t: Trade): int {
    var entry := EntrySummary(t);
    if entry.Some? && entry.value.quantity > 0 && entry.value.quantity < t.quantity then entry.value.quantity else t.quantity
  }

  function RealisedPnl(t: Trade, exits: seq<Fill>): Option<real> {
    var entry, exit := EntrySummary(t), ExitSummary(t, exits);
    if entry.None? || exit.None? then None else Some(PnlOf(entry.value, exit.value))
  }

  function PnlOf(entry: Summary, exit: Summary): real {
    Gain(entry.average, exit.average, if entry.quantity <= exit.quantity then entry.quantity else exit.quantity)
    - (entry.commission + exit.commission)
  }

  function Gain(entryAverage: real, exitAverage: real, quantity: int): real {
    (exitAverage - entryAverage) * quantity as real
  }

  // ---------------------------------------------------------------- one report

  datatype Role = EntryRole | ExitRole

  function RoleOf(t: Trade, e: Fill): Option<Role> {
    if !t.status.Open? && !t.status.ExitPending? && !t.status.Closed? then None
    else if OrderOf(e) == t.entryOrder then Some(EntryRole)
    else if Some(OrderOf(e)) == t.targetOrder || Some(OrderOf(e)) == t.stopOrder || Some(OrderOf(e)) == t.exitOrder then Some(ExitRole)
    else None
  }

  datatype Counters = Counters(entries: nat, exits: nat, closed: nat, outcomes: nat)

  const NoCounts: Counters := Counters(0, 0, 0, 0)

  function Added(a: Counters, b: Counters): Counters {
    Counters(a.entries + b.entries, a.exits + b.exits, a.closed + b.closed, a.outcomes + b.outcomes)
  }

  datatype Applied = Applied(trade: Trade, counters: Counters)

  function EntryFilled(t: Trade, e: Fill): Trade {
    var fills := Merge(t.entryFills, e);
    var summary := Aggregate(fills, t.quantity, t.entryLimit);
    t.(entryFills := fills, entryPrice := if summary.Some? then Some(summary.value.average) else t.entryPrice)
  }

  function ReasonFor(t: Trade, order: int): Option<Reason> {
    if t.targetOrder == Some(order) then Some(TakeProfit)
    else if t.stopOrder == Some(order) then Some(StopLoss)
    else t.exitReason
  }

  function ExitFilled(t: Trade, e: Fill): Trade {
    var fills := Merge(t.exitFills, e);
    var summary := ExitSummary(t, fills);
    var done := summary.Some? && summary.value.quantity >= CloseQuantity(t);
    t.(exitFills := fills,
       exitOrder := Some(OrderOf(e)),
       exitPrice := if summary.Some? then Some(summary.value.average) else t.exitPrice,
       exitReason := ReasonFor(t, OrderOf(e)),
       status := if done then Closed else if t.status.Open? then ExitPending else t.status,
       pnl := if done then RealisedPnl(t, fills) else t.pnl)
  }

  /** One report applied to the trade it belongs to; known reports change and count nothing. */
  function ApplyFill(t: Trade, role: Role, d: Delivery): Applied {
    if role.EntryRole? then
      if Merge(t.entryFills, d.fill) == t.entryFills then Applied(t, NoCounts)
      else Applied(EntryFilled(t, d.fill), Counters(1, 0, 0, 0))
    else if Merge(t.exitFills, d.fill) == t.exitFills then Applied(t, NoCounts)
    else
      var updated := ExitFilled(t, d.fill);
      if !updated.status.Closed? then Applied(updated, Counters(0, 1, 0, 0))
      else if updated.emitted || !d.written then Applied(updated, Counters(0, 1, 1, 0))
      else Applied(updated.(emitted := true), Counters(0, 1, 1, 1))
  }

  /** What one report does to a trade, field by field. A report that says something new of the
      entry gives the average price paid, and nothing else but the records. One of an exit gives
      its order and the average price received; it closes the trade or, while it was open, sends
      it to its exit. */
  lemma ReportMeans(t: Trade, role: Role, d: Delivery)
    ensures var u := ApplyFill(t, role, d).trade;
            && (u.id, u.quantity, u.entryLimit, u.entryOrder, u.targetOrder, u.stopOrder)
               == (t.id, t.quantity, t.entryLimit, t.entryOrder, t.targetOrder, t.stopOrder)
            && (role == EntryRole ==>
                  && u == t.(entryFills := Merge(t.entryFills, d.fill), entryPrice := u.entryPrice)
                  && (if u.entryFills != t.entryFills && 0 < Sum(u.entryFills).quantity
                      then u.entryPrice == Some(Sum(u.entryFills).value / Sum(u.entryFills).quantity as real)
                      else u.entryPrice == t.entryPrice))
            && (role == ExitRole ==> u.exitFills == Merge(t.exitFills, d.fill) && u.entryFills == t.entryFills && u.entryPrice == t.entryPrice)
            && (role == ExitRole && u.exitFills == t.exitFills ==> u == t)
            && (role == ExitRole && u.exitFills != t.exitFills ==>
                  && u.exitOrder == Some(OrderOf(d.fill))
                  && (if 0 < Sum(u.exitFills).quantity
                      then u.exitPrice == Some(Sum(u.exitFills).value / Sum(u.exitFills).quantity as real)
                      else u.exitPrice == t.exitPrice)
                  && (u.status == Closed || u.status == (if t.status == Open then ExitPending else t.status))
                  && (u.status != Closed ==> u.emitted == t.emitted)
                  && (u.status == Closed ==> u.emitted == (t.emitted || d.written)))
  {
    MergeNotEmpty(t.entryFills, d.fill);
    MergeNotEmpty(t.exitFills, d.fill);
    hide Sum, Merge;
  }

  lemma MergeNotEmpty(fills: seq<Fill>, e: Fill)
    ensures |Merge(fills, e)| > 0
  {
  }

  /** With no entries on record the shares are taken to be the planned ones, at the price known
      for them or, when none is or it is zero, at the limit. */
  lemma AssumedEntry(t: Trade, price: real)
    requires t.entryFills == [] && t.quantity > 0
    ensures EntrySummary(t) == Some(Summary(t.quantity, price, 0.0)) <==>
              || (t.entryPrice == Some(price) && price != 0.0)
              || ((t.entryPrice == None || t.entryPrice == Some(0.0)) && t.entryLimit == Some(price))
    ensures EntrySummary(t) == None <==> (t.entryPrice == None || t.entryPrice == Some(0.0)) && t.entryLimit == None
  {
  }

  // ---------------------------------------------------------------- the ingestor

  /** The trade store and the outcome records written, by trade. */
  datatype Books = Books(trades: seq<Trade>, outcomes: seq<int>)

  function FirstMatch(trades: seq<Trade>, e: Fill): nat
    ensures FirstMatch(trades, e) <= |trades|
    ensures forall i :: 0 <= i < FirstMatch(trades, e) ==> RoleOf(trades[i], e).None?
    ensures FirstMatch(trades, e) < |trades| ==> RoleOf(trades[FirstMatch(trades, e)], e).Some?
  {
    if |trades| == 0 || RoleOf(trades[0], e).Some? then 0 else 1 + FirstMatch(trades[1..], e)
  }

  function IngestOne(b: Books, d: Delivery): (Books, Counters) {
    var n := FirstMatch(b.trades, d.fill);
    if n == |b.trades| then (b, NoCounts)
    else
      var a := ApplyFill(b.trades[n], RoleOf(b.trades[n], d.fill).value, d);
      (Books(b.trades[n := a.trade], b.outcomes + if a.counters.outcomes > 0 then [a.trade.id] else []), a.counters)
  }

  function IngestAll(b: Books, ds: seq<Delivery>): (Books, Counters) {
    if |ds| == 0 then (b, NoCounts)
    else
      var before := IngestAll(b, Front(ds));
      var last := IngestOne(before.0, Last(ds));
      (last.0, Added(before.1, last.1))
  }

  /** How many of these reports belong to no trade when their turn comes. */
  function Unmatched(b: Books, ds: seq<Delivery>): (n: nat)
    ensures n <= |ds|
  {
    if |ds| == 0 then 0
    else
      var trades := IngestAll(b, Front(ds)).0.trades;
      Unmatched(b, Front(ds)) + if FirstMatch(trades, Last(ds).fill) == |trades| then 1 else 0
  }

  /** The reports that survive normalisation, each with its writer's answer. */
  function Deliveries(rows: seq<Row>, written: seq<bool>): seq<Delivery>
    requires |rows| == |written|
  {
    if |rows| == 0 then []
    else
      var fill := Normalised(Last(rows));
      if fill.Some? then Deliveries(Front(rows), Front(written)) + [Delivery(fill.value, Last(written))]
      else Deliveries(Front(rows), Front(written))
  }

  class BrokerFillIngestor {
    var trades: seq<Trade>
    var outcomes: seq<int>

    ghost function View(): Books
      reads this
    {
      Books(trades, outcomes)
    }

    constructor (trades: seq<Trade>, outcomes: seq<int>)
      ensures View() == Books(trades, outcomes)
    {
      this.trades, this.outcomes := trades, outcomes;
    }

    method Ingest(rows: seq<Row>, written: seq<bool>) returns (seen: nat, unmatched: nat, counters: Counters)
      requires |rows| == |written|
      modifies this
      ensures (View(), counters) == IngestAll(old(View()), Deliveries(rows, written))
      ensures seen == |Deliveries(rows, written)| && unmatched == Unmatched(old(View()), Deliveries(rows, written))
    {
      var events := Normalise(rows, written);
      seen, unmatched, counters := |events|, 0, NoCounts;
      for n := 0 to |events|
        invariant (View(), counters) == IngestAll(old(View()), events[..n]) && unmatched == Unmatched(old(View()), events[..n])
      {
        assert Front(events[..n + 1]) == events[..n];
        var matched, more := IngestEvent(events[n]);
        counters := Added(counters, more);
        unmatched := if matched then unmatched else unmatched + 1;
      }
      assert events[..|events|] == events;
    }

    method IngestEvent(d: Delivery) returns (matched: bool, counters: Counters)
      modifies this
      ensures (View(), counters) == IngestOne(old(View()), d)
      ensures matched <==> FirstMatch(old(trades), d.fill) < |old(trades)|
    {
      for index := 0 to |trades|
        invariant View() == old(View())
        invariant forall i :: 0 <= i < index ==> RoleOf(trades[i], d.fill).None?
      {
        var role := RoleOf(trades[index], d.fill);
        if role.Some? {
          MatchIs(trades, d.fill, index);
          counters := Apply(index, role.value, d);
          return true, counters;
        }
      }
      MatchIs(trades, d.fill, |trades|);
      return false, NoCounts;
    }

    method Apply(index: nat, role: Role, d: Delivery) returns (counters: Counters)
      requires index < |trades|
      modifies this
      ensures var a := ApplyFill(old(trades)[index], role, d);
              && trades == old(trades)[index := a.trade] && counters == a.counters
              && outcomes == old(outcomes) + if a.counters.outcomes > 0 then [a.trade.id] else []
    {
      var t := trades[index];
      if role == EntryRole {
        var fills, changed := MergeFill(t.entryFills, d.fill);
        if !changed {
          return NoCounts;
        }
        var summary := AggregateFills(fills, t.quantity, t.entryLimit);
        t := t.(entryFills := fills);
        if summary.Some? {
          t := t.(entryPrice := Some(summary.value.average));
        }
        trades := trades[index := t];
        return Counters(1, 0, 0, 0);
      }
      var fills, changed := MergeFill(t.exitFills, d.fill);
      if !changed {
        return NoCounts;
      }
      var updated := ExitFilled(t, d.fill);
      trades := trades[index := updated];
      counters := Counters(0, 1, 0, 0);
      if updated.status == Closed {
        counters := Counters(0, 1, 1, 0);
        if !updated.emitted && d.written {
          outcomes := outcomes + [updated.id];
          trades := trades[index := updated.(emitted := true)];
          counters := Counters(0, 1, 1, 1);
        }
      }
    }
  }

  method Normalise(rows: seq<Row>, written: seq<bool>) returns (events: seq<Delivery>)
    requires |rows| == |written|
    ensures events == Deliveries(rows, written)
  {
    events := [];
    for n := 0 to |rows|
      invariant events == Deliveries(rows[..n], written[..n])
    {
      assert Front(rows[..n + 1]) == rows[..n] && Front(written[..n + 1]) == written[..n];
      var fill := Normalised(rows[n]);
      if fill.Some? {
        events := events + [Delivery(fill.value, written[n])];
      }
    }
    assert rows[..|rows|] == rows && written[..|written|] == written;
  }

  lemma {:induction false} MatchIs(trades: seq<Trade>, e: Fill, n: nat)
    requires n <= |trades| && (forall i :: 0 <= i < n ==> RoleOf(trades[i], e).None?)
    requires n < |trades| ==> RoleOf(trades[n], e).Some?
    ensures FirstMatch(trades, e) == n
  {
  }

  // ---------------------------------------------------------------- at most one outcome

  function Count(outcomes: seq<int>, id: int): nat {
    if |outcomes| == 0 then 0 else Count(Front(outcomes), id) + if Last(outcomes) == id then 1 else 0
  }

  predicate CountedRight(b: Books, i: nat)
    requires i < |b.trades|
  {
    Count(b.outcomes, b.trades[i].id) == if b.trades[i].emitted then 1 else 0
  }

  ghost predicate Sound(b: Books) {
    && (forall i, j :: 0 <= i < j < |b.trades| ==> b.trades[i].id != b.trades[j].id)
    && (forall i :: 0 <= i < |b.trades| ==> CountedRight(b, i))
  }

  lemma ApplyKeepsIdentity(t: Trade, role: Role, d: Delivery)
    ensures var a := ApplyFill(t, role, d);
            && a.trade.id == t.id && (t.emitted ==> a.trade.emitted)
            && a.counters.outcomes == (if a.trade.emitted && !t.emitted then 1 else 0)
            && (a.counters.outcomes > 0 ==> a.trade.status.Closed? && d.written)
  {
  }

  lemma IngestOneKeepsSound(b: Books, d: Delivery)
    requires Sound(b)
    ensures Sound(IngestOne(b, d).0)
    ensures |IngestOne(b, d).0.outcomes| == |b.outcomes| + IngestOne(b, d).1.outcomes
  {
    var n, after := FirstMatch(b.trades, d.fill), IngestOne(b, d).0;
    if n < |b.trades| {
      ApplyKeepsIdentity(b.trades[n], RoleOf(b.trades[n], d.fill).value, d);
      assert CountedRight(b, n);
      forall i | 0 <= i < |after.trades| ensures CountedRight(after, i) {
        assert CountedRight(b, i);
        if |after.outcomes| > |b.outcomes| {
          SnocFront(b.outcomes, b.trades[n].id);
        } else {
          assert after.outcomes == b.outcomes;
        }
      }
    }
  }

  /** Over any number of ingests, with any redelivery and whatever the writer does, a trade
      has at most one outcome record, and it has one exactly when it says so. */
  lemma {:induction false} AtMostOneOutcome(b: Books, ds: seq<Delivery>)
    requires Sound(b)
    ensures var (after, counters) := IngestAll(b, ds);
            && Sound(after) && |after.outcomes| == |b.outcomes| + counters.outcomes
            && (forall i :: 0 <= i < |after.trades| ==>
                  Count(after.outcomes, after.trades[i].id) == (if after.trades[i].emitted then 1 else 0))
    decreases |ds|
  {
    if |ds| > 0 {
      AtMostOneOutcome(b, Front(ds));
      IngestOneKeepsSound(IngestAll(b, Front(ds)).0, Last(ds));
    }
    var after := IngestAll(b, ds).0;
    forall i | 0 <= i < |after.trades|
      ensures Count(after.outcomes, after.trades[i].id) == if after.trades[i].emitted then 1 else 0
    {
      assert CountedRight(after, i);
    }
  }

  datatype News = OfEntry | OfExit | OfClosedExit

  predicate Tells(before: Trade, after: Trade, news: News) {
    match news
    case OfEntry => after.entryFills != before.entryFills
    case OfExit => after.exitFills != before.exitFills
    case OfClosedExit => after.exitFills != before.exitFills && after.status == Closed
  }

  predicate SomeTells(before: seq<Trade>, after: seq<Trade>, news: News) {
    exists i :: 0 <= i < |before| && i < |after| && Tells(before[i], after[i], news)
  }

  /** Report `n` of a batch tells some trade this news. */
  predicate TellsAt(b: Books, ds: seq<Delivery>, n: nat, news: News)
    requires n < |ds|
  {
    SomeTells(IngestAll(b, ds[..n]).0.trades, IngestAll(b, ds[..n + 1]).0.trades, news)
  }

  function Telling(b: Books, ds: seq<Delivery>, news: News): set<nat> {
    set n | 0 <= n < |ds| && TellsAt(b, ds, n, news)
  }

  function CountOf(c: Counters, news: News): nat {
    match news
    case OfEntry => c.entries
    case OfExit => c.exits
    case OfClosedExit => c.closed
  }

  lemma ReportCounts(t: Trade, role: Role, d: Delivery, news: News)
    ensures var a := ApplyFill(t, role, d); CountOf(a.counters, news) == if Tells(t, a.trade, news) then 1 else 0
  {
    hide Merge, ExitSummary, CloseQuantity, RealisedPnl, Aggregate;
  }

  lemma OneReportCounts(b: Books, d: Delivery, news: News)
    ensures var (after, counters) := IngestOne(b, d); CountOf(counters, news) == if SomeTells(b.trades, after.trades, news) then 1 else 0
  {
    var n, after := FirstMatch(b.trades, d.fill), IngestOne(b, d).0;
    if n < |b.trades| {
      var role := RoleOf(b.trades[n], d.fill).value;
      ReportCounts(b.trades[n], role, d, news);
      hide ApplyFill, RoleOf;
      assert forall i :: 0 <= i < |b.trades| && i != n ==> after.trades[i] == b.trades[i];
      assert after.trades[n] == ApplyFill(b.trades[n], role, d).trade;
    }
  }

  lemma TellingSnoc(b: Books, ds: seq<Delivery>, news: News)
    requires |ds| > 0
    ensures var m := |ds| - 1;
            && TellsAt(b, ds, m, news) == SomeTells(IngestAll(b, Front(ds)).0.trades, IngestAll(b, ds).0.trades, news)
            && |Telling(b, ds, news)| == |Telling(b, Front(ds), news)| + if TellsAt(b, ds, m, news) then 1 else 0
  {
    hide IngestAll, SomeTells;
    var m := |ds| - 1;
    assert ds[..m] == Front(ds) && ds[..m + 1] == ds;
    forall n | 0 <= n < m ensures TellsAt(b, Front(ds), n, news) == TellsAt(b, ds, n, news) {
      assert Front(ds)[..n] == ds[..n] && Front(ds)[..n + 1] == ds[..n + 1];
    }
    assert Telling(b, ds, news) == Telling(b, Front(ds), news) + if TellsAt(b, ds, m, news) then {m} else {};
  }

  lemma {:induction false} CounterExactly(b: Books, ds: seq<Delivery>, news: News)
    ensures CountOf(IngestAll(b, ds).1, news) == |Telling(b, ds, news)|
    decreases |ds|
  {
    if |ds| == 0 {
      assert Telling(b, ds, news) == {};
    } else {
      CounterExactly(b, Front(ds), news);
      OneReportCounts(IngestAll(b, Front(ds)).0, Last(ds), news);
      TellingSnoc(b, ds, news);
      CountsAddUp(IngestAll(b, Front(ds)).1, IngestOne(IngestAll(b, Front(ds)).0, Last(ds)).1, news);
      hide Telling, SomeTells, IngestOne, TellsAt, CountOf, Added;
    }
  }

  lemma CountsAddUp(a: Counters, b: Counters, news: News)
    ensures CountOf(Added(a, b), news) == CountOf(a, news) + CountOf(b, news)
  {
  }

  /** The counters of a batch are numbers of reports: those that told an entry, or an exit,
      something new, and those of the latter that found or left their trade closed. */
  lemma CountersExactly(b: Books, ds: seq<Delivery>)
    ensures var counters := IngestAll(b, ds).1;
            && counters.entries == |Telling(b, ds, OfEntry)| && counters.exits == |Telling(b, ds, OfExit)|
            && counters.closed == |Telling(b, ds, OfClosedExit)|
  {
    CounterExactly(b, ds, OfEntry);
    CounterExactly(b, ds, OfExit);
    CounterExactly(b, ds, OfClosedExit);
    hide Telling, IngestAll;
  }

  /** Closings are not counted once: every exit report that changes the records of a trade
      already closed and reported counts as one more closed trade, and as no outcome. */
  lemma ClosedIsCountedAgain(t: Trade, d: Delivery)
    requires t.status.Closed? && t.emitted && Merge(t.exitFills, d.fill) != t.exitFills
    ensures ApplyFill(t, ExitRole, d).counters == Counters(0, 1, 1, 0)
  {
  }

  // ---------------------------------------------------------------- redelivery

  function FillsFor(t: Trade, role: Role): seq<Fill> {
    if role.EntryRole? then t.entryFills else t.exitFills
  }

  /** A matched report is idle, touching no field and counting nothing, exactly when all its
      fields are already in the trade's records. */
  lemma IdleExactly(t: Trade, role: Role, d: Delivery)
    requires UniqueIds(FillsFor(t, role))
    ensures ApplyFill(t, role, d) == Applied(t, NoCounts) <==> Knows(Records(FillsFor(t, role)), d.fill)
  {
    RedeliveryExactly(FillsFor(t, role), d.fill);
  }

  // ---------------------------------------------------------------- one trade on its own

  function TradeStep(t: Trade, d: Delivery): Trade {
    if RoleOf(t, d.fill).None? then t else ApplyFill(t, RoleOf(t, d.fill).value, d).trade
  }

  function TradeAll(t: Trade, ds: seq<Delivery>): Trade {
    if |ds| == 0 then t else TradeStep(TradeAll(t, Front(ds)), Last(ds))
  }

  /** What an exit report that changes the records makes of the reason: the bracket's target is a
      take-profit, its stop a stop-loss, and an order outside the bracket leaves it alone. */
  lemma ReasonOfExit(t: Trade, d: Delivery)
    requires TradeStep(t, d).exitFills != t.exitFills
    ensures var (order, after) := (OrderOf(d.fill), TradeStep(t, d).exitReason);
            && order != t.entryOrder
            && (t.targetOrder == Some(order) ==> after == Some(TakeProfit))
            && (t.targetOrder != Some(order) && t.stopOrder == Some(order) ==> after == Some(StopLoss))
            && (t.targetOrder != Some(order) && t.stopOrder != Some(order) ==> t.exitOrder == Some(order) && after == t.exitReason)
  {
  }

  /** The last report of the bracket's target or stop that changed the records. */
  function LastChild(t: Trade, ds: seq<Delivery>): Option<Fill> {
    if |ds| == 0 then None
    else if TradeAll(t, ds).exitFills != TradeAll(t, Front(ds)).exitFills && IsChild(t, Last(ds).fill) then Some(Last(ds).fill)
    else LastChild(t, Front(ds))
  }

  /** Over any run the last of those decides why the trade left: at its target, or else at its
      stop. Without one the reason is what it was. */
  lemma {:induction false} LastChildDecidesReason(t: Trade, ds: seq<Delivery>)
    requires Tracked(t)
    ensures var (last, after) := (LastChild(t, ds), TradeAll(t, ds));
            && SameOrders(t, after)
            && (last.None? ==> after.exitReason == t.exitReason)
            && (last.Some? && t.targetOrder == Some(OrderOf(last.value)) ==> after.exitReason == Some(TakeProfit))
            && (last.Some? && t.targetOrder != Some(OrderOf(last.value)) ==>
                  t.stopOrder == Some(OrderOf(last.value)) && after.exitReason == Some(StopLoss))
    decreases |ds|
  {
    if |ds| > 0 {
      LastChildDecidesReason(t, Front(ds));
      var s, d := TradeAll(t, Front(ds)), Last(ds);
      AnyStepKeepsOrders(t, s, d);
      if TradeAll(t, ds).exitFills != s.exitFills {
        ReasonOfExit(s, d);
      } else {
        ReasonStays(s, d);
      }
    }
  }

  lemma AnyStepKeepsOrders(t: Trade, u: Trade, d: Delivery)
    requires SameOrders(t, u)
    ensures SameOrders(t, TradeStep(u, d))
  {
  }

  lemma ReasonStays(t: Trade, d: Delivery)
    requires TradeStep(t, d).exitFills == t.exitFills
    ensures TradeStep(t, d).exitReason == t.exitReason
  {
  }

  predicate Tracked(t: Trade) {
    t.status.Open? || t.status.ExitPending? || t.status.Closed?
  }

  predicate IsEntry(t: Trade, e: Fill) {
    OrderOf(e) == t.entryOrder
  }

  /** The report is of a child of the entry bracket. */
  predicate IsChild(t: Trade, e: Fill) {
    !IsEntry(t, e) && (Some(OrderOf(e)) == t.targetOrder || Some(OrderOf(e)) == t.stopOrder)
  }

  /** No report is of an exit order outside the bracket. */
  predicate BracketOnly(t: Trade, ds: seq<Delivery>) {
    forall i :: 0 <= i < |ds| ==> IsEntry(t, ds[i].fill) || IsChild(t, ds[i].fill) || Some(OrderOf(ds[i].fill)) != t.exitOrder
  }

  function EntryReports(t: Trade, ds: seq<Delivery>): seq<Fill> {
    if |ds| == 0 then []
    else if IsEntry(t, Last(ds).fill) then EntryReports(t, Front(ds)) + [Last(ds).fill]
    else EntryReports(t, Front(ds))
  }

  function ExitReports(t: Trade, ds: seq<Delivery>): seq<Fill> {
    if |ds| == 0 then []
    else if IsChild(t, Last(ds).fill) then ExitReports(t, Front(ds)) + [Last(ds).fill]
    else ExitReports(t, Front(ds))
  }

  predicate SameOrders(t: Trade, u: Trade) {
    && u.id == t.id && u.entryOrder == t.entryOrder && u.targetOrder == t.targetOrder && u.stopOrder == t.stopOrder
    && u.quantity == t.quantity && u.entryLimit == t.entryLimit
    && (u.exitOrder == t.exitOrder || (u.exitOrder.Some? && (u.exitOrder == t.targetOrder || u.exitOrder == t.stopOrder)))
    && (Tracked(t) <==> Tracked(u))
  }

  lemma StepKeepsOrders(t: Trade, u: Trade, d: Delivery)
    requires SameOrders(t, u) && BracketOnly(t, [d])
    ensures SameOrders(t, TradeStep(u, d))
    ensures TradeStep(u, d).entryFills == if Tracked(t) && IsEntry(t, d.fill) then Merge(u.entryFills, d.fill) else u.entryFills
    ensures TradeStep(u, d).exitFills == if Tracked(t) && IsChild(t, d.fill) then Merge(u.exitFills, d.fill) else u.exitFills
  {
    assert [d][0] == d;
  }

  /** The records of a tracked trade are the merge of the reports about it, entries with
      entries and bracket exits with bracket exits. */
  lemma {:induction false} FillsAreMerged(t: Trade, ds: seq<Delivery>)
    requires Tracked(t) && BracketOnly(t, ds)
    ensures SameOrders(t, TradeAll(t, ds))
    ensures TradeAll(t, ds).entryFills == MergeAll(t.entryFills, EntryReports(t, ds))
    ensures TradeAll(t, ds).exitFills == MergeAll(t.exitFills, ExitReports(t, ds))
    decreases |ds|
  {
    if |ds| > 0 {
      assert forall i :: 0 <= i < |ds| - 1 ==> Front(ds)[i] == ds[i];
      FillsAreMerged(t, Front(ds));
      assert BracketOnly(t, [Last(ds)]) by {
        assert ds[|ds| - 1] == Last(ds);
      }
      StepKeepsOrders(t, TradeAll(t, Front(ds)), Last(ds));
      if IsEntry(t, Last(ds).fill) {
        SnocFront(EntryReports(t, Front(ds)), Last(ds).fill);
      }
      if IsChild(t, Last(ds).fill) {
        SnocFront(ExitReports(t, Front(ds)), Last(ds).fill);
      }
    }
  }

  // ---------------------------------------------------------------- confluence of ingestion

  function Reports(ds: seq<Delivery>): (r: seq<Fill>)
    ensures |r| == |ds| && forall i :: 0 <= i < |ds| ==> r[i] == ds[i].fill
  {
    seq(|ds|, i requires 0 <= i < |ds| => ds[i].fill)
  }

  lemma {:induction false} SelectedReports(t: Trade, ds: seq<Delivery>)
    ensures forall e :: e in EntryReports(t, ds) <==> e in Reports(ds) && IsEntry(t, e)
    ensures forall e :: e in ExitReports(t, ds) <==> e in Reports(ds) && IsChild(t, e)
    decreases |ds|
  {
    if |ds| > 0 {
      SelectedReports(t, Front(ds));
      assert Reports(ds) == Reports(Front(ds)) + [Last(ds).fill];
    }
  }

  /** All reports about one trade, with what is recorded already, contradict nothing. */
  ghost predicate CompatibleFor(t: Trade, ds: seq<Delivery>) {
    && UniqueIds(t.entryFills) && UniqueIds(t.exitFills)
    && Compatible(t.entryFills + EntryReports(t, ds)) && Compatible(t.exitFills + ExitReports(t, ds))
  }

  /** Reordering, repeating or rebatching compatible reports of a trade's entry and bracket
      exits changes neither its records nor the sums taken over them. */
  lemma {:induction false} IngestIsConfluent(t: Trade, ds: seq<Delivery>, es: seq<Delivery>)
    requires Tracked(t) && BracketOnly(t, ds) && BracketOnly(t, es)
    requires CompatibleFor(t, ds) && SameReports(Reports(ds), Reports(es))
    ensures var (a, b) := (TradeAll(t, ds), TradeAll(t, es));
            && UniqueIds(a.entryFills) && UniqueIds(a.exitFills)
            && Records(a.entryFills) == Records(b.entryFills) && Records(a.exitFills) == Records(b.exitFills)
            && Sum(a.entryFills) == Sum(b.entryFills) && Sum(a.exitFills) == Sum(b.exitFills)
  {
    FillsAreMerged(t, ds);
    FillsAreMerged(t, es);
    SelectedReports(t, ds);
    SelectedReports(t, es);
    MergeConfluent(t.entryFills, EntryReports(t, ds), EntryReports(t, es));
    MergeConfluent(t.exitFills, ExitReports(t, ds), ExitReports(t, es));
    SameRecordsSameSum(TradeAll(t, ds).entryFills, TradeAll(t, es).entryFills);
    SameRecordsSameSum(TradeAll(t, ds).exitFills, TradeAll(t, es).exitFills);
  }

  /** Delivering again any report already ingested changes nothing. */
  lemma {:induction false} RedeliveryAfterIngest(t: Trade, ds: seq<Delivery>, d: Delivery)
    requires Tracked(t) && BracketOnly(t, ds) && CompatibleFor(t, ds) && d.fill in Reports(ds)
    ensures TradeStep(TradeAll(t, ds), d) == TradeAll(t, ds)
  {
    hide TradeAll, EntryReports, ExitReports, MergeAll, Merge;
    FillsAreMerged(t, ds);
    SelectedReports(t, ds);
    assert BracketOnly(t, [d]) by {
      var i :| 0 <= i < |ds| && ds[i].fill == d.fill;
    }
    StepKeepsOrders(t, TradeAll(t, ds), d);
    if IsEntry(t, d.fill) {
      RedeliveryIsIdle(t.entryFills, EntryReports(t, ds), d.fill);
    } else if IsChild(t, d.fill) {
      RedeliveryIsIdle(t.exitFills, ExitReports(t, ds), d.fill);
    }
    UnchangedFills(TradeAll(t, ds), d);
  }

  lemma UnchangedFills(u: Trade, d: Delivery)
    requires TradeStep(u, d).entryFills == u.entryFills && TradeStep(u, d).exitFills == u.exitFills
    ensures TradeStep(u, d) == u
  {
  }

  // ---------------------------------------------------------------- many trades

  predicate Owns(t: Trade, order: int) {
    order == t.entryOrder || Some(order) == t.targetOrder || Some(order) == t.stopOrder || Some(order) == t.exitOrder
  }

  /** No order belongs to two trades. */
  ghost predicate Separate(trades: seq<Trade>) {
    forall i, j, order :: 0 <= i < |trades| && 0 <= j < |trades| && i != j && Owns(trades[i], order) ==> !Owns(trades[j], order)
  }

  lemma StepOwnsNoMore(t: Trade, d: Delivery, order: int)
    requires Owns(TradeStep(t, d), order)
    ensures Owns(t, order)
  {
  }

  lemma IngestOneIsPointwise(b: Books, d: Delivery)
    requires Separate(b.trades)
    ensures |IngestOne(b, d).0.trades| == |b.trades| && Separate(IngestOne(b, d).0.trades)
    ensures forall i :: 0 <= i < |b.trades| ==> IngestOne(b, d).0.trades[i] == TradeStep(b.trades[i], d)
  {
    var n, after := FirstMatch(b.trades, d.fill), IngestOne(b, d).0;
    forall i | 0 <= i < |b.trades| ensures after.trades[i] == TradeStep(b.trades[i], d) {
      if n < i && RoleOf(b.trades[i], d.fill).Some? {
        assert Owns(b.trades[n], OrderOf(d.fill)) && Owns(b.trades[i], OrderOf(d.fill));
        assert false;
      }
    }
    forall i, j, order | 0 <= i < |after.trades| && 0 <= j < |after.trades| && i != j && Owns(after.trades[i], order)
      ensures !Owns(after.trades[j], order)
    {
      StepOwnsNoMore(b.trades[i], d, order);
      if Owns(after.trades[j], order) {
        StepOwnsNoMore(b.trades[j], d, order);
      }
    }
  }

  /** When no order belongs to two trades, a batch does to each trade what the reports
      would do to that trade alone. */
  lemma {:induction false} IngestIsPointwise(b: Books, ds: seq<Delivery>)
    requires Separate(b.trades)
    ensures var after := IngestAll(b, ds).0;
            && Separate(after.trades) && |after.trades| == |b.trades|
            && forall i :: 0 <= i < |b.trades| ==> after.trades[i] == TradeAll(b.trades[i], ds)
    decreases |ds|
  {
    if |ds| > 0 {
      IngestIsPointwise(b, Front(ds));
      IngestOneIsPointwise(IngestAll(b, Front(ds)).0, Last(ds));
    }
  }

  // ---------------------------------------------------------------- profit and loss

  lemma {:induction false} SumIsPositive(fills: seq<Fill>)
    ensures Sum(fills).quantity >= 0 && Sum(fills).value >= 0.0
    ensures Sum(fills).quantity > 0 <==> Sum(fills).value > 0.0
    decreases |fills|
  {
    if |fills| > 0 {
      SumIsPositive(Front(fills));
      PartIsPositive(Last(fills));
    }
  }

  lemma PartIsPositive(f: Fill)
    ensures Part(f).quantity >= 0 && Part(f).value >= 0.0
    ensures Part(f).quantity > 0 <==> Part(f).value > 0.0
  {
    if Shares(f) > 0 && PriceOf(f) > 0.0 {
      assert Shares(f) as real * PriceOf(f) > 0.0;
    }
  }

  lemma AverageTimesQuantity(value: real, quantity: int)
    requires quantity > 0
    ensures (value / quantity as real) * quantity as real == value
  {
  }

  lemma AverageTimesLess(value: real, quantity: int, less: int)
    requires 0 < less < quantity && value > 0.0
    ensures (value / quantity as real) * less as real < value
  {
    var average := value / quantity as real;
    AverageTimesQuantity(value, quantity);
    assert average > 0.0;
    assert average * quantity as real - average * less as real == average * (quantity - less) as real;
    assert average * (quantity - less) as real > 0.0;
  }

  lemma Distribute(a: real, b: real, q: int)
    ensures (a - b) * q as real == a * q as real - b * q as real
  {
  }

  /** Cash in from the exits less cash out for the entries less all commissions. */
  function CashFlow(t: Trade, exits: seq<Fill>): real {
    Sum(exits).value - Sum(t.entryFills).value - (Sum(t.entryFills).commission + Sum(exits).commission)
  }

  lemma GainExactly(entryValue: real, entryQuantity: int, exitValue: real, exitQuantity: int, q: int)
    requires entryQuantity > 0 && exitQuantity > 0 && entryValue > 0.0 && exitValue > 0.0
    requires q == if entryQuantity <= exitQuantity then entryQuantity else exitQuantity
    ensures var gain := Gain(entryValue / entryQuantity as real, exitValue / exitQuantity as real, q);
            gain == exitValue - entryValue <==> entryQuantity == exitQuantity
  {
    Distribute(exitValue / exitQuantity as real, entryValue / entryQuantity as real, q);
    AverageTimesQuantity(entryValue, entryQuantity);
    AverageTimesQuantity(exitValue, exitQuantity);
    if q < entryQuantity {
      AverageTimesLess(entryValue, entryQuantity, q);
    }
    if q < exitQuantity {
      AverageTimesLess(exitValue, exitQuantity, q);
    }
  }

  /** Profit and loss is conserved exactly when the quantities match: it is what was paid
      and received if and only if as many shares were sold as were bought. */
  lemma PnlConservedExactly(t: Trade, exits: seq<Fill>)
    requires Sum(t.entryFills).quantity > 0 && Sum(exits).quantity > 0
    ensures RealisedPnl(t, exits).Some?
    ensures RealisedPnl(t, exits).value == CashFlow(t, exits) <==> Sum(t.entryFills).quantity == Sum(exits).quantity
  {
    var e, x := Sum(t.entryFills), Sum(exits);
    SumIsPositive(t.entryFills);
    SumIsPositive(exits);
    var q := if e.quantity <= x.quantity then e.quantity else x.quantity;
    GainExactly(e.value, e.quantity, x.value, x.quantity, q);
    assert EntrySummary(t) == Some(Summary(e.quantity, e.value / e.quantity as real, e.commission));
    assert ExitSummary(t, exits) == Some(Summary(x.quantity, x.value / x.quantity as real, x.commission));
  }

  /** The profit recorded is the profit of the records. */
  predicate Accurate(t: Trade) {
    t.pnl == RealisedPnl(t, t.exitFills)
  }

  /** A trade not closed yet is closed by an exit report exactly when the exits then cover the
      shares the entries filled, or the planned quantity while no more than that is known. */
  lemma ClosesExactly(t: Trade, d: Delivery)
    requires t.status.Open? || t.status.ExitPending?
    requires Merge(t.exitFills, d.fill) != t.exitFills && t.quantity > 0
    ensures var exits := Sum(Merge(t.exitFills, d.fill)).quantity;
            var bought := Sum(t.entryFills).quantity;
            ApplyFill(t, ExitRole, d).trade.status.Closed? <==>
              exits >= (if |t.entryFills| > 0 && 0 < bought < t.quantity then bought else t.quantity)
  {
    MergeNotEmpty(t.exitFills, d.fill);
    SumIsPositive(t.entryFills);
  }

  /** Closing records the profit of the records as they then stand. */
  lemma ClosingIsAccurate(t: Trade, d: Delivery)
    requires Merge(t.exitFills, d.fill) != t.exitFills && Sum(Merge(t.exitFills, d.fill)).quantity >= CloseQuantity(t)
    requires Sum(Merge(t.exitFills, d.fill)).quantity > 0
    ensures var after := ApplyFill(t, ExitRole, d).trade;
            after.status.Closed? && Accurate(after)
  {
    MergeNotEmpty(t.exitFills, d.fill);
    var fills, after := Merge(t.exitFills, d.fill), ApplyFill(t, ExitRole, d).trade;
    assert EntrySummary(after) == EntrySummary(t) && ExitSummary(after, fills) == ExitSummary(t, fills);
    assert after.exitFills == fills && after.pnl == RealisedPnl(t, fills);
  }

  /** The broker reports an entry execution again, now with its commission, after the trade
      was closed: the report is usable and matches the entry, the commission joins the records,
      and the recorded profit keeps ignoring it, by exactly that much. */
  lemma LateEntryCommissionIsLost(t: Trade, n: nat, row: Row, commission: real, written: bool)
    requires t.status.Closed? && Accurate(t) && UniqueIds(t.entryFills) && n < |t.entryFills|
    requires Part(t.entryFills[n]) != Zero && Sum(t.exitFills).quantity > 0
    requires row.order == Some(t.entryOrder) && row.quantity.Some? && row.quantity.value > 0.0
    requires row.price.Some? && row.price.value > 0.0 && row.exec != "" && row.extra == map[Commission := Number(commission)]
    requires t.entryFills[n] == Fill(Given(row.exec), map[OrderId := Whole(t.entryOrder), Quantity := Number(row.quantity.value),
                                                          Price := Number(row.price.value)])
    ensures Normalised(row).Some? && RoleOf(t, Normalised(row).value) == Some(EntryRole)
    ensures var after := TradeStep(t, Delivery(Normalised(row).value, written));
            && after.pnl == t.pnl && RealisedPnl(after, after.exitFills).Some? && after.pnl.Some?
            && after.pnl.value == RealisedPnl(after, after.exitFills).value + commission
  {
    var d := Delivery(Normalised(row).value, written);
    var before, after := t.entryFills[n], TradeStep(t, d);
    var merged := Merged(before, d.fill);
    assert merged.fields == before.fields[Commission := Number(commission)];
    MergeAt(t.entryFills, d.fill, n);
    assert merged != before by {
      assert Commission in merged.fields;
    }
    assert after.entryFills == t.entryFills[n := merged];
    hide Normalised, TradeStep, Merge, RoleOf;
    RecordWithCommission(t.entryFills, n, merged, commission);
    assert |t.exitFills| > 0;
    LaterCommission(t, after, commission);
  }

  lemma RecordWithCommission(fills: seq<Fill>, n: nat, merged: Fill, commission: real)
    requires n < |fills| && Commission !in fills[n].fields && Part(fills[n]) != Zero
    requires merged.fields == fills[n].fields[Commission := Number(commission)]
    ensures Sum(fills[n := merged]) == Totals(Sum(fills).quantity, Sum(fills).value, Sum(fills).commission + commission)
    ensures Sum(fills).quantity > 0
  {
    SumWithout(fills, n);
    SumWithout(fills[n := merged], n);
    assert Without(fills[n := merged], n) == Without(fills, n);
    PartWithCommission(fills[n], merged, commission);
    SumIsPositive(Without(fills, n));
    PartIsPositive(fills[n]);
  }

  lemma PartWithCommission(before: Fill, merged: Fill, commission: real)
    requires Commission !in before.fields && merged.fields == before.fields[Commission := Number(commission)] && Part(before) != Zero
    ensures Part(merged) == Totals(Part(before).quantity, Part(before).value, Part(before).commission + commission)
  {
    assert Shares(merged) == Shares(before) && PriceOf(merged) == PriceOf(before) && CommissionOf(before) == 0.0;
  }

  lemma LaterCommission(t: Trade, after: Trade, commission: real)
    requires |t.entryFills| > 0 && |after.entryFills| > 0 && |t.exitFills| > 0 && Sum(t.entryFills).quantity > 0 && Sum(t.exitFills).quantity > 0
    requires after == t.(entryFills := after.entryFills, entryPrice := after.entryPrice)
    requires Sum(after.entryFills) == Totals(Sum(t.entryFills).quantity, Sum(t.entryFills).value, Sum(t.entryFills).commission + commission)
    ensures RealisedPnl(t, t.exitFills).Some? && RealisedPnl(after, after.exitFills).Some?
    ensures RealisedPnl(t, t.exitFills).value == RealisedPnl(after, after.exitFills).value + commission
  {
  }

  /** Fractional shares: the sums count whole shares only, so the value of a fill is what
      was paid exactly when its quantity is whole. */
  lemma FractionsAreDropped(f: Fill, quantity: real, price: real)
    requires Quantity in f.fields && f.fields[Quantity] == Number(quantity) && quantity > 0.0
    requires Price in f.fields && f.fields[Price] == Number(price) && price > 0.0
    ensures Part(f).value == quantity * price <==> quantity == quantity.Floor as real
  {
    if quantity != quantity.Floor as real {
      assert quantity > quantity.Floor as real;
      assert quantity * price - quantity.Floor as real * price == (quantity - quantity.Floor as real) * price;
      assert (quantity - quantity.Floor as real) * price > 0.0;
      assert quantity * price > 0.0;
    }
  }
}
