/** Whole runs of the broker-fill ingestor: the profit a closed trade has on record, which
    reports may come in any order, and the store as a whole. */
module FillRuns {
  import opened Common
  import opened FillMerge
  import opened FillIngest

  // ---------------------------------------------------------------- the last settlement

  /** The report closes the trade, or closes it again: it changes the exit records, and they
      then cover the shares to be closed. */
  predicate Settles(t: Trade, d: Delivery) {
    && RoleOf(t, d.fill) == Some(ExitRole) && Merge(t.exitFills, d.fill) != t.exitFills
    && ExitSummary(t, Merge(t.exitFills, d.fill)).Some?
    && ExitSummary(t, Merge(t.exitFills, d.fill)).value.quantity >= CloseQuantity(t)
  }

  /** The trade as the last settling report left it. */
  function AtSettlement(t: Trade, ds: seq<Delivery>): Trade {
    if |ds| == 0 then t
    else if Settles(TradeAll(t, Front(ds)), Last(ds)) then TradeAll(t, ds)
    else AtSettlement(t, Front(ds))
  }

  /** Some report of the run closes the trade, or closes it again. */
  predicate SettledIn(t: Trade, ds: seq<Delivery>) {
    |ds| > 0 && (Settles(TradeAll(t, Front(ds)), Last(ds)) || SettledIn(t, Front(ds)))
  }

  lemma SettlingRecords(t: Trade, d: Delivery)
    ensures var after := TradeStep(t, d);
            if Settles(t, d) then after.status.Closed? && Accurate(after)
            else after.pnl == t.pnl && (after.status.Closed? <==> t.status.Closed?)
  {
    MergeNotEmpty(t.exitFills, d.fill);
  }

  /** What is on record for a settled trade is the profit of the records as they stood at its
      last settlement. Without a settlement nothing is recorded, whether the trade is still open
      or another part of the robot closed it; it is closed at the end if and only if it was
      before. */
  lemma {:induction false} RecordedAtSettlement(t: Trade, ds: seq<Delivery>)
    ensures var (w, u) := (TradeAll(t, ds), AtSettlement(t, ds));
            && w.pnl == u.pnl
            && (if SettledIn(t, ds) then w.status.Closed? && u.status.Closed? && Accurate(u)
                else u == t && (w.status.Closed? <==> t.status.Closed?))
    decreases |ds|
  {
    if |ds| > 0 {
      RecordedAtSettlement(t, Front(ds));
      SettlingRecords(TradeAll(t, Front(ds)), Last(ds));
    }
  }

  // ---------------------------------------------------------------- which reports count as exits

  /** The report is of the trade's exit order, and that is not an order of its bracket. */
  predicate IsOutside(t: Trade, e: Fill) {
    Some(OrderOf(e)) == t.exitOrder && !IsEntry(t, e) && !IsChild(t, e)
  }

  predicate IsClaim(t: Trade, e: Fill) {
    IsChild(t, e) || IsOutside(t, e)
  }

  /** Reports of the bracket's children and of the exit order outside it. */
  function ExitClaims(t: Trade, ds: seq<Delivery>): seq<Fill> {
    if |ds| == 0 then []
    else if IsClaim(t, Last(ds).fill) then ExitClaims(t, Front(ds)) + [Last(ds).fill]
    else ExitClaims(t, Front(ds))
  }

  lemma {:induction false} SelectedClaims(t: Trade, ds: seq<Delivery>)
    ensures forall e :: e in ExitClaims(t, ds) <==> e in Reports(ds) && IsClaim(t, e)
    decreases |ds|
  {
    if |ds| > 0 {
      SelectedClaims(t, Front(ds));
      assert Reports(ds) == Reports(Front(ds)) + [Last(ds).fill];
    }
  }

  /** An exit order outside the bracket is matched only until a child takes its place. */
  lemma StepMatches(t: Trade, u: Trade, d: Delivery)
    requires SameOrders(t, u)
    ensures SameOrders(t, TradeStep(u, d))
    ensures TradeStep(u, d).entryFills == if Tracked(t) && IsEntry(t, d.fill) then Merge(u.entryFills, d.fill) else u.entryFills
    ensures TradeStep(u, d).exitFills ==
            if Tracked(t) && (IsChild(t, d.fill) || (IsOutside(t, d.fill) && u.exitOrder == t.exitOrder)) then Merge(u.exitFills, d.fill)
            else u.exitFills
    ensures TradeStep(u, d).exitOrder ==
            if TradeStep(u, d).exitFills != u.exitFills then Some(OrderOf(d.fill)) else u.exitOrder
  {
  }

  /** The exit records of a tracked trade merge some of its claims: all of the bracket's
      children, and the outside reports that were matched. */
  lemma {:induction false} ClaimsAreMerged(t: Trade, ds: seq<Delivery>) returns (es: seq<Fill>)
    requires Tracked(t)
    ensures SameOrders(t, TradeAll(t, ds))
    ensures TradeAll(t, ds).entryFills == MergeAll(t.entryFills, EntryReports(t, ds))
    ensures TradeAll(t, ds).exitFills == MergeAll(t.exitFills, es)
    ensures forall e :: e in es ==> e in Reports(ds) && IsClaim(t, e)
    ensures forall e :: e in Reports(ds) && IsChild(t, e) ==> e in es
    decreases |ds|
  {
    if |ds| == 0 {
      return [];
    }
    hide TradeStep, Merge, IsEntry, Tracked;
    es := ClaimsAreMerged(t, Front(ds));
    var d := Last(ds);
    StepMatches(t, TradeAll(t, Front(ds)), d);
    assert Reports(ds) == Reports(Front(ds)) + [d.fill];
    if IsEntry(t, d.fill) {
      SnocFront(EntryReports(t, Front(ds)), d.fill);
    }
    if IsChild(t, d.fill) || (IsOutside(t, d.fill) && TradeAll(t, Front(ds)).exitOrder == t.exitOrder) {
      SnocFront(es, d.fill);
      es := es + [d.fill];
    }
  }

  // ---------------------------------------------------------------- records only grow

  /** No less of anything, and no more value without more shares. */
  predicate Below(a: Totals, b: Totals) {
    a.quantity <= b.quantity && a.value <= b.value && (a.quantity == b.quantity ==> a.value == b.value)
  }

  lemma PartGrows(a: Fill, b: Fill)
    requires forall k :: k in a.fields ==> k in b.fields && b.fields[k] == a.fields[k]
    ensures Below(Part(a), Part(b))
  {
    PartIsPositive(b);
    if Part(a) != Zero {
      assert Shares(b) == Shares(a) && PriceOf(b) == PriceOf(a);
    }
  }

  lemma BelowPlus(rest: Totals, a: Totals, b: Totals)
    requires Below(a, b)
    ensures Below(Plus(rest, a), Plus(rest, b))
  {
  }

  lemma MergeGrows(fills: seq<Fill>, e: Fill)
    requires UniqueIds(fills)
    requires forall f :: f in fills ==> Agree(f, e)
    ensures Below(Sum(fills), Sum(Merge(fills, e)))
  {
    var n := Position(fills, e.exec);
    if n == |fills| {
      MergeNew(fills, e);
      SnocFront(fills, e);
      PartIsPositive(e);
    } else {
      var merged := Merged(fills[n], e);
      MergeAt(fills, e, n);
      assert fills[n] in fills && Agree(fills[n], e);
      PartGrows(fills[n], merged);
      hide Merge, Part, UniqueIds, Agree, Merged;
      ReplacedGrows(fills, n, merged);
    }
  }

  lemma ReplacedGrows(fills: seq<Fill>, n: nat, f: Fill)
    requires n < |fills| && Below(Part(fills[n]), Part(f))
    ensures Below(Sum(fills), Sum(fills[n := f]))
  {
    assert Without(fills[n := f], n) == Without(fills, n);
    hide Part, Below, Without, Sum, Plus;
    SumWithout(fills, n);
    SumWithout(fills[n := f], n);
    BelowPlus(Sum(Without(fills, n)), Part(fills[n]), Part(f));
  }

  /** All claims about one trade, with what is recorded already, contradict nothing. */
  ghost predicate Consistent(t: Trade, ds: seq<Delivery>) {
    && UniqueIds(t.entryFills) && UniqueIds(t.exitFills)
    && Compatible(t.entryFills + EntryReports(t, ds)) && Compatible(t.exitFills + ExitClaims(t, ds))
  }

  lemma PrefixOfRun(t: Trade, ds: seq<Delivery>)
    requires |ds| > 0 && Consistent(t, ds)
    ensures Consistent(t, Front(ds))
  {
    assert Reports(ds) == Reports(Front(ds)) + [Last(ds).fill];
    SelectedReports(t, ds);
    SelectedReports(t, Front(ds));
    SelectedClaims(t, ds);
    SelectedClaims(t, Front(ds));
    assert forall e :: e in t.entryFills + EntryReports(t, Front(ds)) ==> e in t.entryFills + EntryReports(t, ds);
    assert forall e :: e in t.exitFills + ExitClaims(t, Front(ds)) ==> e in t.exitFills + ExitClaims(t, ds);
  }

  /** One more report of a run lets its records grow. */
  lemma StepGrows(t: Trade, ds: seq<Delivery>)
    requires Tracked(t) && |ds| > 0 && Consistent(t, ds)
    ensures var (s, w) := (TradeAll(t, Front(ds)), TradeAll(t, ds));
            && Below(Sum(s.entryFills), Sum(w.entryFills)) && Below(Sum(s.exitFills), Sum(w.exitFills))
            && (w.entryFills == s.entryFills || w.exitFills == s.exitFills)
  {
    hide TradeStep, Merge, MergeAll, Below, Sum, Agree, UniqueIds, EntryReports, ExitClaims, ExitReports, Compatible;
    PrefixOfRun(t, ds);
    var es := ClaimsAreMerged(t, Front(ds));
    var s, d := TradeAll(t, Front(ds)), Last(ds);
    StepMatches(t, s, d);
    SelectedReports(t, ds);
    SelectedReports(t, Front(ds));
    SelectedClaims(t, ds);
    assert Reports(ds) == Reports(Front(ds)) + [d.fill];
    BelowItself(Sum(s.entryFills));
    BelowItself(Sum(s.exitFills));
    if IsEntry(t, d.fill) {
      LastAgrees(t.entryFills, EntryReports(t, Front(ds)), EntryReports(t, ds), d.fill);
      MergeGrows(s.entryFills, d.fill);
    } else if IsClaim(t, d.fill) {
      LastAgrees(t.exitFills, es, ExitClaims(t, ds), d.fill);
      MergeGrows(s.exitFills, d.fill);
    }
  }

  lemma BelowItself(a: Totals)
    ensures Below(a, a)
  {
  }

  lemma BelowChain(a: Totals, b: Totals, c: Totals)
    requires Below(a, b) && Below(b, c)
    ensures Below(a, c)
  {
  }

  lemma LastAgrees(fills: seq<Fill>, before: seq<Fill>, after: seq<Fill>, e: Fill)
    requires UniqueIds(fills) && Compatible(fills + after) && e in after && forall r :: r in before ==> r in after
    ensures UniqueIds(MergeAll(fills, before)) && forall f :: f in MergeAll(fills, before) ==> Agree(f, e)
  {
    MergeAllIsPutAll(fills, before);
    var all := MergeAll(fills, before);
    RecordsAt(all);
    forall f | f in all ensures Agree(f, e) {
      var i :| 0 <= i < |all| && all[i] == f;
      assert HeldBy(Records(all), all[i]);
      if f.exec == e.exec {
        PutAllWasReported(fills + before, f.exec);
        forall k | k in f.fields && k in e.fields ensures f.fields[k] == e.fields[k] {
          var r :| r in fills + before && Says(r, f.exec, k, PutAll(fills + before)[f.exec][k]);
          assert r in fills + after && e in fills + after;
          assert Agree(r, e);
        }
      }
    }
  }

  /** From the last settlement on records only grow. No exit has been recorded since, when the
      trade was settled before any shares were known to be bought, and otherwise as long as no
      more shares have been bought than sold. */
  lemma {:induction false} SinceSettlement(t: Trade, ds: seq<Delivery>)
    requires Tracked(t) && Consistent(t, ds)
    ensures var (w, u) := (TradeAll(t, ds), AtSettlement(t, ds));
            && SameOrders(t, w) && u.quantity == t.quantity
            && Below(Sum(u.entryFills), Sum(w.entryFills)) && Below(Sum(u.exitFills), Sum(w.exitFills))
            && (SettledIn(t, ds) ==> CloseQuantity(u) <= Sum(u.exitFills).quantity && 0 < Sum(u.exitFills).quantity)
            && (SettledIn(t, ds) && Sum(u.entryFills).quantity == 0 ==> u.exitFills == w.exitFills)
            && (0 < Sum(u.entryFills).quantity && Sum(w.entryFills).quantity <= Sum(w.exitFills).quantity ==> u.exitFills == w.exitFills)
    decreases |ds|
  {
    if |ds| == 0 {
      BelowItself(Sum(t.entryFills));
      BelowItself(Sum(t.exitFills));
      return;
    }
    PrefixOfRun(t, ds);
    SinceSettlement(t, Front(ds));
    StepGrows(t, ds);
    var s, w, u := TradeAll(t, Front(ds)), TradeAll(t, ds), AtSettlement(t, ds);
    StepMatches(t, s, Last(ds));
    hide Sum, Below, Settles, CloseQuantity, TradeStep, Merge, Consistent, Tracked, IsEntry, IsChild;
    if Settles(s, Last(ds)) {
      BelowItself(Sum(w.entryFills));
      BelowItself(Sum(w.exitFills));
      SettledCovered(s, Last(ds));
    } else {
      BelowChain(Sum(u.entryFills), Sum(s.entryFills), Sum(w.entryFills));
      BelowChain(Sum(u.exitFills), Sum(s.exitFills), Sum(w.exitFills));
      StillFallsShort(u, s, Last(ds));
    }
  }

  /** A settling report leaves the shares to be closed sold. */
  lemma SettledCovered(s: Trade, d: Delivery)
    requires Settles(s, d)
    ensures var w := TradeStep(s, d);
            CloseQuantity(w) <= Sum(w.exitFills).quantity && 0 < Sum(w.exitFills).quantity
  {
    MergeNotEmpty(s.exitFills, d.fill);
    assert EntrySummary(TradeStep(s, d)) == EntrySummary(s);
  }

  /** Whatever has been reported since, no more is to be closed than planned; with no shares
      known to be bought, nothing less. */
  lemma ClosesNoMoreThanPlanned(s: Trade)
    ensures CloseQuantity(s) <= s.quantity
    ensures Sum(s.entryFills).quantity == 0 ==> CloseQuantity(s) == s.quantity
  {
  }

  /** An exit report that changes the records of a settled trade without settling it again
      finds fewer shares sold than bought, and some were bought already at the settlement. */
  lemma StillFallsShort(u: Trade, s: Trade, d: Delivery)
    requires !Settles(s, d) && u.quantity == s.quantity
    requires Below(Sum(u.entryFills), Sum(s.entryFills)) && Below(Sum(u.exitFills), Sum(TradeStep(s, d).exitFills))
    ensures var w := TradeStep(s, d);
            w.exitFills != s.exitFills ==>
              && (0 < Sum(u.entryFills).quantity ==> Sum(w.exitFills).quantity < Sum(w.entryFills).quantity)
              && !(Sum(u.entryFills).quantity == 0 && CloseQuantity(u) <= Sum(u.exitFills).quantity && 0 < Sum(u.exitFills).quantity)
  {
    ClosesNoMoreThanPlanned(u);
    ClosesNoMoreThanPlanned(s);
    UnsettledExitFallsShort(s, d);
  }

  lemma NotEmptyWhenShares(fills: seq<Fill>)
    requires Sum(fills).quantity > 0
    ensures |fills| > 0
  {
  }

  lemma ClosesNoMoreThanBought(s: Trade)
    requires 0 < Sum(s.entryFills).quantity
    ensures CloseQuantity(s) <= Sum(s.entryFills).quantity
  {
    NotEmptyWhenShares(s.entryFills);
    hide Sum;
  }

  lemma SummaryCountsShares(s: Trade, exits: seq<Fill>)
    requires 0 < Sum(exits).quantity
    ensures ExitSummary(s, exits).Some? && ExitSummary(s, exits).value.quantity == Sum(exits).quantity
  {
    NotEmptyWhenShares(exits);
    hide Sum;
  }

  lemma ExitStepOnly(s: Trade, d: Delivery)
    ensures var w := TradeStep(s, d);
            w.exitFills != s.exitFills ==>
              w.entryFills == s.entryFills && RoleOf(s, d.fill) == Some(ExitRole) && w.exitFills == Merge(s.exitFills, d.fill)
  {
  }

  /** An exit report that changes the records without settling leaves fewer shares sold than
      are to be closed. */
  lemma UnsettledExitFallsShort(s: Trade, d: Delivery)
    requires !Settles(s, d)
    ensures var w := TradeStep(s, d);
            w.exitFills != s.exitFills ==>
              && w.entryFills == s.entryFills
              && (0 < Sum(w.exitFills).quantity ==> Sum(w.exitFills).quantity < CloseQuantity(s))
              && (0 < Sum(s.entryFills).quantity ==> Sum(w.exitFills).quantity < Sum(s.entryFills).quantity)
  {
    ExitStepOnly(s, d);
    if 0 < Sum(s.entryFills).quantity {
      ClosesNoMoreThanBought(s);
    }
    hide TradeStep, Merge, Sum, RoleOf, ExitSummary, CloseQuantity;
    var exits := Merge(s.exitFills, d.fill);
    if 0 < Sum(exits).quantity {
      SummaryCountsShares(s, exits);
    }
  }

  // ---------------------------------------------------------------- recorded profit over runs

  /** As many shares bought as sold. */
  predicate Balanced(t: Trade) {
    0 < Sum(t.entryFills).quantity == Sum(t.exitFills).quantity
  }

  function Amount(price: real, quantity: int): real {
    price * quantity as real
  }

  /** What a settlement takes the shares bought to be: the entries on record or, with none on
      record, the planned quantity at the known price or limit. */
  function Assumed(u: Trade): Totals
    requires EntrySummary(u).Some?
  {
    var entry := EntrySummary(u).value;
    if |u.entryFills| > 0 then Sum(u.entryFills) else Totals(entry.quantity, Amount(entry.average, entry.quantity), 0.0)
  }

  /** What the entries came to, value and commission, beyond what the settlement assumed. */
  function LateCost(u: Trade, w: Trade): real
    requires EntrySummary(u).Some?
  {
    Sum(w.entryFills).value + Sum(w.entryFills).commission - Assumed(u).value - Assumed(u).commission
  }

  /** What `q` of the shares sold came to, at their average price. */
  function SoldFor(x: Totals, q: int): real
    requires x.quantity > 0
  {
    Amount(x.value / x.quantity as real, q)
  }

  /** The shares sold beyond those the settlement took to be bought. */
  function Unmet(u: Trade, w: Trade): int
    requires EntrySummary(u).Some?
  {
    Sum(w.exitFills).quantity - Assumed(u).quantity
  }

  lemma AssumedIsSummary(u: Trade)
    requires EntrySummary(u).Some?
    ensures var (entry, e) := (EntrySummary(u).value, Assumed(u));
            entry.quantity == e.quantity > 0 && entry.commission == e.commission && Amount(entry.average, entry.quantity) == e.value
  {
    if |u.entryFills| > 0 {
      AverageTimesQuantity(Sum(u.entryFills).value, Sum(u.entryFills).quantity);
    }
  }

  /** The shares whose profit a settlement counts: as many as it takes to be both bought and
      sold. */
  function CountedShares(u: Trade): int
    requires EntrySummary(u).Some?
  {
    if Assumed(u).quantity <= Sum(u.exitFills).quantity then Assumed(u).quantity else Sum(u.exitFills).quantity
  }

  lemma PnlOfCounted(u: Trade)
    requires EntrySummary(u).Some? && 0 < Sum(u.exitFills).quantity
    ensures var (e, x, q) := (EntrySummary(u).value, Sum(u.exitFills), CountedShares(u));
            RealisedPnl(u, u.exitFills) == Some(SoldFor(x, q) - Amount(e.average, q) - (e.commission + x.commission))
  {
    AssumedIsSummary(u);
    var entry, x, q := EntrySummary(u).value, Sum(u.exitFills), CountedShares(u);
    SummaryCountsShares(u, u.exitFills);
    var sold := ExitSummary(u, u.exitFills).value;
    assert sold == Summary(x.quantity, x.value / x.quantity as real, x.commission) by {
      NotEmptyWhenShares(u.exitFills);
    }
    assert RealisedPnl(u, u.exitFills) == Some(PnlOf(entry, sold));
    assert PnlOf(entry, sold) == Gain(entry.average, sold.average, q) - (entry.commission + sold.commission);
    hide *;
    GainSplits(x, entry.average, q);
  }

  lemma GainSplits(x: Totals, average: real, q: int)
    requires x.quantity > 0
    ensures Gain(average, x.value / x.quantity as real, q) == SoldFor(x, q) - Amount(average, q)
  {
    Distribute(x.value / x.quantity as real, average, q);
  }

  /** Profit of some of the shares sold, given what they are assumed to have cost. */
  lemma PnlOfFewer(t: Trade)
    requires EntrySummary(t).Some? && Assumed(t).quantity <= Sum(t.exitFills).quantity
    ensures 0 < Sum(t.exitFills).quantity
    ensures var (e, x) := (Assumed(t), Sum(t.exitFills));
            RealisedPnl(t, t.exitFills) == Some(SoldFor(x, e.quantity) - e.value - (e.commission + x.commission))
  {
    AssumedIsSummary(t);
    PnlOfCounted(t);
    hide EntrySummary, ExitSummary, RealisedPnl, Sum, SoldFor, Amount;
  }

  lemma SoldSplits(x: Totals, q: int)
    requires x.quantity > 0
    ensures SoldFor(x, q) + SoldFor(x, x.quantity - q) == x.value
  {
    var average := x.value / x.quantity as real;
    AverageTimesQuantity(x.value, x.quantity);
    assert average * q as real + average * (x.quantity - q) as real == average * x.quantity as real;
  }

  /** Conservation of recorded profit over whole runs, for a settled trade of which no more
      shares ended up bought than sold. With no entry to go by at the last settlement there is
      no profit on record. Otherwise it is the cash that changed hands exactly when what the
      entries came to beyond what that settlement assumed is what the shares sold beyond those
      it assumed came to. */
  lemma RecordedPnlExactly(t: Trade, ds: seq<Delivery>)
    requires Tracked(t) && SettledIn(t, ds) && Consistent(t, ds)
    requires Sum(TradeAll(t, ds).entryFills).quantity <= Sum(TradeAll(t, ds).exitFills).quantity
    ensures var (w, u) := (TradeAll(t, ds), AtSettlement(t, ds));
            && w.status.Closed? && 0 < Sum(w.exitFills).quantity
            && (if EntrySummary(u).None? then w.pnl.None?
                else w.pnl.Some? && Unmet(u, w) >= 0
                     && (w.pnl == Some(CashFlow(w, w.exitFills)) <==> LateCost(u, w) == SoldFor(Sum(w.exitFills), Unmet(u, w))))
  {
    var w, u := TradeAll(t, ds), AtSettlement(t, ds);
    RecordedAtSettlement(t, ds);
    SinceSettlement(t, ds);
    SumIsPositive(u.entryFills);
    hide Sum, TradeAll, AtSettlement, Consistent, Tracked, SettledIn, CloseQuantity, Below;
    BelowMeans(Sum(u.entryFills), Sum(w.entryFills));
    if EntrySummary(u).Some? {
      AssumedIsCovered(u, Sum(w.entryFills).quantity);
      CashOrNot(w, u);
    }
  }

  lemma BelowMeans(a: Totals, b: Totals)
    requires Below(a, b)
    ensures a.quantity <= b.quantity
  {
  }

  /** No more is assumed bought than was sold: with entries on record because no more is bought
      in the end, without them because the planned quantity is what had to be sold. */
  lemma AssumedIsCovered(u: Trade, bought: int)
    requires EntrySummary(u).Some? && CloseQuantity(u) <= Sum(u.exitFills).quantity
    requires Sum(u.entryFills).quantity <= bought
    requires 0 < Sum(u.entryFills).quantity ==> bought <= Sum(u.exitFills).quantity
    ensures Assumed(u).quantity <= Sum(u.exitFills).quantity
  {
  }

  /** The last part of it: `u` at its settlement and `w`, to which only entries were added. */
  lemma CashOrNot(w: Trade, u: Trade)
    requires u.exitFills == w.exitFills && w.pnl == u.pnl && Accurate(u)
    requires EntrySummary(u).Some? && Assumed(u).quantity <= Sum(u.exitFills).quantity
    ensures w.pnl.Some? && Unmet(u, w) >= 0 && 0 < Sum(w.exitFills).quantity
    ensures w.pnl == Some(CashFlow(w, w.exitFills)) <==> LateCost(u, w) == SoldFor(Sum(w.exitFills), Unmet(u, w))
  {
    hide Sum, SoldFor, RealisedPnl, EntrySummary, Assumed;
    PnlOfFewer(u);
    SoldSplits(Sum(w.exitFills), Assumed(u).quantity);
  }

  /** What the entries came to beyond the cost the settlement counted. */
  function UncountedCost(u: Trade, w: Trade): real
    requires EntrySummary(u).Some?
  {
    var e := EntrySummary(u).value;
    Sum(w.entryFills).value + Sum(w.entryFills).commission - Amount(e.average, CountedShares(u)) - e.commission
  }

  /** What the exits came to, after commissions, beyond the proceeds the settlement counted. */
  function UncountedProceeds(u: Trade, w: Trade): real
    requires EntrySummary(u).Some? && 0 < Sum(u.exitFills).quantity
  {
    var x := Sum(u.exitFills);
    Sum(w.exitFills).value - Sum(w.exitFills).commission - (SoldFor(x, CountedShares(u)) - x.commission)
  }

  lemma {:induction false} SettledWithExits(t: Trade, ds: seq<Delivery>)
    requires SettledIn(t, ds)
    ensures 0 < Sum(AtSettlement(t, ds).exitFills).quantity
    decreases |ds|
  {
    var s := TradeAll(t, Front(ds));
    if Settles(s, Last(ds)) {
      SettledCovered(s, Last(ds));
    } else {
      SettledWithExits(t, Front(ds));
    }
  }

  /** For every settled run at all, contradicting reports and unequal quantities included: no
      profit is on record when the last settlement had no entry to go by; otherwise it is the
      cash that changed hands exactly when what that settlement did not count evens out. */
  lemma RecordedPnlEvensOut(t: Trade, ds: seq<Delivery>)
    requires SettledIn(t, ds)
    ensures var (w, u) := (TradeAll(t, ds), AtSettlement(t, ds));
            && w.status.Closed? && 0 < Sum(u.exitFills).quantity
            && (if EntrySummary(u).None? then w.pnl.None?
                else w.pnl.Some?
                     && (w.pnl == Some(CashFlow(w, w.exitFills)) <==> UncountedCost(u, w) == UncountedProceeds(u, w)))
  {
    var w, u := TradeAll(t, ds), AtSettlement(t, ds);
    RecordedAtSettlement(t, ds);
    SettledWithExits(t, ds);
    hide TradeAll, AtSettlement, SettledIn, Sum, EntrySummary, RealisedPnl, CashFlow, UncountedCost, UncountedProceeds;
    if EntrySummary(u).Some? {
      PnlOfCounted(u);
      EvensOut(w, u);
    } else {
      NoEntryNoPnl(u);
    }
  }

  lemma NoEntryNoPnl(u: Trade)
    requires EntrySummary(u).None?
    ensures RealisedPnl(u, u.exitFills).None?
  {
  }

  lemma EvensOut(w: Trade, u: Trade)
    requires EntrySummary(u).Some? && 0 < Sum(u.exitFills).quantity
    requires var (e, x, q) := (EntrySummary(u).value, Sum(u.exitFills), CountedShares(u));
             w.pnl == Some(SoldFor(x, q) - Amount(e.average, q) - (e.commission + x.commission))
    ensures w.pnl == Some(CashFlow(w, w.exitFills)) <==> UncountedCost(u, w) == UncountedProceeds(u, w)
  {
    hide Sum, EntrySummary, CountedShares, SoldFor, Amount;
  }

  /** When all shares were known at the settlement, only a commission can come late: the
      recorded profit is the cash that changed hands exactly when none did. */
  lemma RecordedPnlWithoutLateShares(t: Trade, ds: seq<Delivery>)
    requires Tracked(t) && SettledIn(t, ds) && Consistent(t, ds)
    requires Balanced(TradeAll(t, ds)) && Balanced(AtSettlement(t, ds))
    ensures var (w, u) := (TradeAll(t, ds), AtSettlement(t, ds));
            && (w.pnl == Some(CashFlow(w, w.exitFills)) <==> Sum(w.entryFills).commission == Sum(u.entryFills).commission)
            && (Accurate(w) <==> Sum(w.entryFills).commission == Sum(u.entryFills).commission)
  {
    var w, u := TradeAll(t, ds), AtSettlement(t, ds);
    RecordedPnlExactly(t, ds);
    SinceSettlement(t, ds);
    NoLateShares(u, w);
    hide TradeAll, AtSettlement, Consistent, Tracked, SettledIn, Sum, RealisedPnl, CashFlow, SoldFor, LateCost, Unmet, EntrySummary;
    PnlConservedExactly(w, w.exitFills);
    NoneSoldForNone(Sum(w.exitFills));
  }

  lemma NoLateShares(u: Trade, w: Trade)
    requires Balanced(u) && Balanced(w) && u.exitFills == w.exitFills && Below(Sum(u.entryFills), Sum(w.entryFills))
    ensures EntrySummary(u).Some? && Unmet(u, w) == 0
    ensures LateCost(u, w) == Sum(w.entryFills).commission - Sum(u.entryFills).commission
  {
    NotEmptyWhenShares(u.entryFills);
    hide Sum;
  }

  lemma NoneSoldForNone(x: Totals)
    requires x.quantity > 0
    ensures SoldFor(x, 0) == 0.0
  {
  }

  /** One share, planned at `limit`, nothing reported of it so far. */
  function OneShare(limit: real): Trade {
    Trade(1, Open, 1, Some(limit), 100, Some(101), None, None, None, [], [], None, None, None, false)
  }

  /** A report of that share, bought or sold. */
  function ShareAt(order: int, price: real): Delivery {
    Delivery(Fill(Given(if order == 100 then "bought" else "sold"),
                  map[OrderId := Whole(order), Quantity := Number(1.0), Price := Number(price)]), true)
  }

  lemma PartOfShare(order: int, price: real)
    requires price > 0.0
    ensures Part(ShareAt(order, price).fill) == Totals(1, price, 0.0)
  {
    var f := ShareAt(order, price).fill;
    assert f.fields[Quantity] == Number(1.0) && f.fields[Price] == Number(price);
    assert Shares(f) == 1 && PriceOf(f) == price && CommissionOf(f) == 0.0;
    assert 1.0 * price == price;
  }

  lemma SumOfOne(f: Fill)
    ensures Sum([f]) == Part(f) && Merge([], f) == [f]
  {
    hide Part;
    assert Front([f]) == [];
  }

  lemma SoldFirst(limit: real, sold: real)
    requires sold > 0.0
    ensures var (t, x) := (OneShare(limit), ShareAt(101, sold));
            && Settles(t, x)
            && TradeStep(t, x) == t.(status := Closed, exitFills := [x.fill], exitOrder := Some(101), exitPrice := Some(sold),
                                     exitReason := Some(TakeProfit), pnl := Some(sold - limit), emitted := true)
  {
    PartOfShare(101, sold);
    SumOfOne(ShareAt(101, sold).fill);
    hide Sum, Merge, Part;
    assert (sold - limit) * 1.0 == sold - limit;
  }

  lemma BoughtLate(s: Trade, paid: real)
    requires paid > 0.0 && s.status.Closed? && s.entryOrder == 100 && s.entryFills == []
    ensures TradeStep(s, ShareAt(100, paid)) == s.(entryFills := [ShareAt(100, paid).fill], entryPrice := Some(paid))
  {
    PartOfShare(100, paid);
    SumOfOne(ShareAt(100, paid).fill);
    hide Sum, Merge, Part;
  }

  /** Its two reports say nothing of each other. */
  lemma OneOfEach(limit: real, paid: real, sold: real)
    ensures Consistent(OneShare(limit), [ShareAt(101, sold), ShareAt(100, paid)])
  {
    var t, x, e := OneShare(limit), ShareAt(101, sold), ShareAt(100, paid);
    SelectedReports(t, [x, e]);
    SelectedClaims(t, [x, e]);
    assert forall r :: r in Reports([x, e]) ==> r == x.fill || r == e.fill;
    assert !IsClaim(t, e.fill) && !IsEntry(t, x.fill);
  }

  /** The exit reported before the entry: the trade is settled at the limit, and the price paid
      never reaches the recorded profit. */
  lemma ExitBeforeEntry(limit: real, paid: real, sold: real)
    requires paid > 0.0 && sold > 0.0
    ensures var (t, ds) := (OneShare(limit), [ShareAt(101, sold), ShareAt(100, paid)]);
            var w := TradeAll(t, ds);
            && Tracked(t) && Consistent(t, ds) && SettledIn(t, ds) && Balanced(w)
            && w.pnl == Some(sold - limit) && CashFlow(w, w.exitFills) == sold - paid
  {
    var t, x, e := OneShare(limit), ShareAt(101, sold), ShareAt(100, paid);
    OneOfEach(limit, paid, sold);
    PartOfShare(101, sold);
    SumOfOne(ShareAt(101, sold).fill);
    PartOfShare(100, paid);
    SumOfOne(ShareAt(100, paid).fill);
    SoldFirst(limit, sold);
    BoughtLate(TradeStep(t, x), paid);
    hide Sum, Merge, Part, TradeStep, Settles, Consistent;
    assert Front([x, e]) == [x] && Front([x]) == [] && TradeAll(t, []) == t;
    assert TradeAll(t, [x]) == TradeStep(t, x) && SettledIn(t, [x]);
    assert TradeAll(t, [x, e]) == TradeStep(TradeStep(t, x), e);
  }

  /** A closed trade whose records have not changed since its last settlement is accurate. */
  lemma UnchangedIsAccurate(t: Trade, ds: seq<Delivery>)
    requires (t.status.Closed? ==> Accurate(t)) && TradeAll(t, ds).status.Closed?
    requires var (w, u) := (TradeAll(t, ds), AtSettlement(t, ds)); w.entryFills == u.entryFills && w.exitFills == u.exitFills
    requires |AtSettlement(t, ds).entryFills| > 0 && |AtSettlement(t, ds).exitFills| > 0
    ensures Accurate(TradeAll(t, ds))
  {
    RecordedAtSettlement(t, ds);
  }

  // ---------------------------------------------------------------- when order does not matter

  /** Every report names its order, as normalised ones do. */
  predicate Named(ds: seq<Delivery>) {
    forall i :: 0 <= i < |ds| ==> NamesOrder(ds[i].fill)
  }

  predicate NamesOrder(e: Fill) {
    OrderId in e.fields && e.fields[OrderId].Whole?
  }

  lemma {:induction false} NormalisedNames(rows: seq<Row>, written: seq<bool>)
    requires |rows| == |written|
    ensures Named(Deliveries(rows, written))
    decreases |rows|
  {
    if |rows| > 0 {
      NormalisedNames(Front(rows), Front(written));
    }
  }

  /** Claims of this kind that tell the exit records something new. */
  predicate NewOutside(t: Trade, ds: seq<Delivery>, e: Fill) {
    e in Reports(ds) && IsOutside(t, e) && !Knows(Records(t.exitFills), e)
  }

  predicate NewChild(t: Trade, ds: seq<Delivery>, e: Fill) {
    e in Reports(ds) && IsChild(t, e) && !Knows(Records(t.exitFills), e)
  }

  /** Some outside report and some bracket-child report both have something to tell. */
  ghost predicate Rivals(t: Trade, ds: seq<Delivery>) {
    (exists e :: NewOutside(t, ds, e)) && (exists e :: NewChild(t, ds, e))
  }

  /** All arrangements of these reports, repetitions included, leave the same exit records. */
  ghost predicate OrderFree(t: Trade, ds: seq<Delivery>) {
    forall p, q :: SameReports(Reports(p), Reports(ds)) && SameReports(Reports(q), Reports(ds)) ==>
                     Records(TradeAll(t, p).exitFills) == Records(TradeAll(t, q).exitFills)
  }

  lemma KnownStays(fills: seq<Fill>, more: seq<Fill>, e: Fill)
    requires UniqueIds(fills) && Compatible(fills + more) && Knows(Records(fills), e)
    ensures Knows(PutAll(fills + more), e)
  {
    RecordsAt(fills);
    assert Listed(fills, e.exec);
    var i :| 0 <= i < |fills| && fills[i].exec == e.exec;
    assert HeldBy(Records(fills), fills[i]) && fills[i] in fills + more;
    PutAllKnows(fills + more, fills[i]);
  }

  /** Reports all of which are known already add nothing. */
  lemma KnownAddsNothing(a: seq<Fill>, b: seq<Fill>)
    requires Compatible(b) && (forall e :: e in a ==> e in b) && (forall e :: e in b ==> Knows(PutAll(a), e))
    ensures PutAll(a) == PutAll(b)
  {
    assert Compatible(a);
    forall id | id in PutAll(a)
      ensures id in PutAll(b) && forall k :: k in PutAll(a)[id] ==> k in PutAll(b)[id] && PutAll(b)[id][k] == PutAll(a)[id][k]
    {
      Contained(a, b, id);
    }
    forall id | id in PutAll(b)
      ensures id in PutAll(a) && forall k :: k in PutAll(b)[id] ==> k in PutAll(a)[id] && PutAll(a)[id][k] == PutAll(b)[id][k]
    {
      PutAllWasReported(b, id);
      forall k | k in PutAll(b)[id] ensures k in PutAll(a)[id] && PutAll(a)[id][k] == PutAll(b)[id][k] {
        var e :| e in b && Says(e, id, k, PutAll(b)[id][k]);
        assert Knows(PutAll(a), e);
      }
    }
    forall id | id in PutAll(a) ensures PutAll(a)[id] == PutAll(b)[id] {
    }
  }

  lemma Contained(a: seq<Fill>, b: seq<Fill>, id: ExecId)
    requires Compatible(b) && (forall e :: e in a ==> e in b) && id in PutAll(a)
    ensures id in PutAll(b)
    ensures forall k :: k in PutAll(a)[id] ==> k in PutAll(b)[id] && PutAll(b)[id][k] == PutAll(a)[id][k]
  {
    PutAllWasReported(a, id);
    var first :| first in a && first.exec == id;
    PutAllKnows(b, first);
    forall k | k in PutAll(a)[id] ensures k in PutAll(b)[id] && PutAll(b)[id][k] == PutAll(a)[id][k] {
      var e :| e in a && Says(e, id, k, PutAll(a)[id][k]);
      PutAllKnows(b, e);
    }
  }

  lemma SubsetCompatible(a: seq<Fill>, b: seq<Fill>)
    requires Compatible(b) && forall e :: e in a ==> e in b
    ensures Compatible(a)
  {
  }

  /** With nothing new from outside the bracket, the records are those of its children. */
  lemma ChildrenOnly(t: Trade, ds: seq<Delivery>)
    requires Tracked(t) && UniqueIds(t.exitFills) && Compatible(t.exitFills + ExitClaims(t, ds))
    requires forall e :: !NewOutside(t, ds, e)
    ensures Records(TradeAll(t, ds).exitFills) == PutAll(t.exitFills + ExitReports(t, ds))
  {
    var es := ClaimsAreMerged(t, ds);
    SelectedClaims(t, ds);
    SelectedReports(t, ds);
    MergeAllIsPutAll(t.exitFills, es);
    var a, b := t.exitFills + ExitReports(t, ds), t.exitFills + es;
    SubsetCompatible(b, t.exitFills + ExitClaims(t, ds));
    SubsetCompatible(a, b);
    forall e | e in b ensures Knows(PutAll(a), e) {
      if e in a {
        PutAllKnows(a, e);
      } else {
        assert !NewOutside(t, ds, e);
        KnownStays(t.exitFills, ExitReports(t, ds), e);
      }
    }
    KnownAddsNothing(a, b);
  }

  /** With nothing new from the bracket's children, the exit order keeps its place, and the
      records are those of its reports. */
  lemma {:induction false} OutsideOnly(t: Trade, ds: seq<Delivery>) returns (es: seq<Fill>)
    requires Tracked(t) && UniqueIds(t.exitFills) && Compatible(t.exitFills + ExitClaims(t, ds))
    requires forall e :: !NewChild(t, ds, e)
    ensures TradeAll(t, ds).exitFills == MergeAll(t.exitFills, es) && TradeAll(t, ds).exitOrder == t.exitOrder
    ensures SameOrders(t, TradeAll(t, ds))
    ensures forall e :: e in es <==> e in Reports(ds) && IsClaim(t, e)
    decreases |ds|
  {
    if |ds| == 0 {
      return [];
    }
    var front, d := Front(ds), Last(ds);
    assert Reports(ds) == Reports(front) + [d.fill];
    SelectedClaims(t, ds);
    SelectedClaims(t, front);
    SubsetCompatible(t.exitFills + ExitClaims(t, front), t.exitFills + ExitClaims(t, ds));
    assert forall e :: NewChild(t, front, e) ==> NewChild(t, ds, e);
    es := OutsideOnly(t, front);
    StepMatches(t, TradeAll(t, front), d);
    if IsClaim(t, d.fill) {
      if IsChild(t, d.fill) {
        assert !NewChild(t, ds, d.fill);
        SubsetCompatible(t.exitFills + es, t.exitFills + ExitClaims(t, ds));
        KnownStays(t.exitFills, es, d.fill);
        MergeAllIsPutAll(t.exitFills, es);
        RedeliveryExactly(TradeAll(t, front).exitFills, d.fill);
      }
      SnocFront(es, d.fill);
      es := es + [d.fill];
    }
  }

  lemma FreeOfRivals(t: Trade, ds: seq<Delivery>, p: seq<Delivery>, q: seq<Delivery>)
    requires Tracked(t) && UniqueIds(t.exitFills) && Compatible(t.exitFills + ExitClaims(t, ds)) && !Rivals(t, ds)
    requires SameReports(Reports(p), Reports(ds)) && SameReports(Reports(q), Reports(ds))
    ensures Records(TradeAll(t, p).exitFills) == Records(TradeAll(t, q).exitFills)
  {
    SelectedClaims(t, ds);
    SelectedClaims(t, p);
    SelectedClaims(t, q);
    SubsetCompatible(t.exitFills + ExitClaims(t, p), t.exitFills + ExitClaims(t, ds));
    SubsetCompatible(t.exitFills + ExitClaims(t, q), t.exitFills + ExitClaims(t, ds));
    SelectedReports(t, p);
    SelectedReports(t, q);
    if forall e :: !NewOutside(t, ds, e) {
      assert forall e :: NewOutside(t, p, e) || NewOutside(t, q, e) ==> NewOutside(t, ds, e);
      ChildrenOnly(t, p);
      ChildrenOnly(t, q);
      SubsetCompatible(t.exitFills + ExitReports(t, p), t.exitFills + ExitClaims(t, p));
      SameReportsSameMap(t.exitFills + ExitReports(t, p), t.exitFills + ExitReports(t, q));
    } else {
      assert forall e :: NewChild(t, p, e) || NewChild(t, q, e) ==> NewChild(t, ds, e);
      var es := OutsideOnly(t, p);
      var fs := OutsideOnly(t, q);
      MergeConfluentClaims(t, es, fs, ExitClaims(t, ds));
    }
  }

  lemma MergeConfluentClaims(t: Trade, es: seq<Fill>, fs: seq<Fill>, claims: seq<Fill>)
    requires UniqueIds(t.exitFills) && Compatible(t.exitFills + claims) && SameReports(es, fs) && forall e :: e in es ==> e in claims
    ensures Records(MergeAll(t.exitFills, es)) == Records(MergeAll(t.exitFills, fs))
  {
    SubsetCompatible(t.exitFills + es, t.exitFills + claims);
    MergeConfluent(t.exitFills, es, fs);
  }

  lemma {:induction false} FirstThenRest(t: Trade, d: Delivery, ds: seq<Delivery>)
    ensures TradeAll(t, [d] + ds) == TradeAll(TradeStep(t, d), ds)
    decreases |ds|
  {
    if |ds| == 0 {
      assert [d] + ds == [d] && Front([d]) == [];
      assert TradeAll(t, [d]) == TradeStep(TradeAll(t, []), d);
    } else {
      assert Front([d] + ds) == [d] + Front(ds);
      FirstThenRest(t, d, Front(ds));
    }
  }

  /** Outside reports delivered first are recorded and stay so. */
  lemma OutsideFirst(t: Trade, d: Delivery, ds: seq<Delivery>)
    requires Tracked(t) && UniqueIds(t.exitFills) && Compatible(t.exitFills + ExitClaims(t, ds))
    requires IsOutside(t, d.fill) && d.fill in Reports(ds)
    ensures Knows(Records(TradeAll(t, [d] + ds).exitFills), d.fill)
  {
    var u := TradeStep(t, d);
    FirstThenRest(t, d, ds);
    assert SameOrders(t, t);
    StepMatches(t, t, d);
    var es := ClaimsAreMerged(u, ds);
    SelectedClaims(t, ds);
    MergeAllFrom(t.exitFills, d.fill, es);
    MergeAllIsPutAll(t.exitFills, [d.fill] + es);
    SubsetCompatible(t.exitFills + ([d.fill] + es), t.exitFills + ExitClaims(t, ds));
    PutAllKnows(t.exitFills + ([d.fill] + es), d.fill);
  }

  lemma {:induction false} MergeAllFrom(fills: seq<Fill>, e: Fill, es: seq<Fill>)
    ensures MergeAll(Merge(fills, e), es) == MergeAll(fills, [e] + es)
    decreases |es|
  {
    if |es| == 0 {
      assert [e] + es == [e] && Front([e]) == [];
      assert MergeAll(fills, [e]) == Merge(MergeAll(fills, []), e);
    } else {
      assert Front([e] + es) == [e] + Front(es);
      MergeAllFrom(fills, e, Front(es));
    }
  }

  lemma ChildTakesOver(t: Trade, d: Delivery, ds: seq<Delivery>) returns (es: seq<Fill>)
    requires Tracked(t) && UniqueIds(t.exitFills) && NewChild(t, ds, d.fill)
    ensures TradeAll(t, [d] + ds).exitFills == MergeAll(t.exitFills, [d.fill] + es)
    ensures forall r :: r in es ==> r in Reports(ds) && IsChild(t, r)
  {
    var u := TradeStep(t, d);
    FirstThenRest(t, d, ds);
    assert SameOrders(t, t);
    StepMatches(t, t, d);
    RedeliveryExactly(t.exitFills, d.fill);
    assert u.exitOrder == Some(OrderOf(d.fill));
    hide TradeStep, TradeAll, Merge, MergeAll, Records, Knows, UniqueIds;
    es := ClaimsAreMerged(u, ds);
    MergeAllFrom(t.exitFills, d.fill, es);
  }

  /** After a child with something to tell, reports from outside the bracket are not matched:
      what they would have told stays unknown. */
  lemma ChildFirst(t: Trade, d: Delivery, ds: seq<Delivery>, e: Fill)
    requires Tracked(t) && UniqueIds(t.exitFills) && Compatible(t.exitFills + ExitClaims(t, ds)) && Named(ds)
    requires NewChild(t, ds, d.fill) && NewOutside(t, ds, e)
    ensures !Knows(Records(TradeAll(t, [d] + ds).exitFills), e)
  {
    var es := ChildTakesOver(t, d, ds);
    var all := [d.fill] + es;
    SelectedClaims(t, ds);
    hide TradeAll, MergeAll, Records, Knows, ExitClaims, Compatible, UniqueIds, PutAll;
    MergeAllIsPutAll(t.exitFills, all);
    assert forall r :: r in all ==> r in ExitClaims(t, ds) && IsChild(t, r) && NamesOrder(r);
    if Knows(PutAll(t.exitFills + all), e) {
      ToldBefore(t, all, ExitClaims(t, ds), e);
    }
  }

  /** What children alone tell of an execution of another order was on record before. */
  lemma ToldBefore(t: Trade, children: seq<Fill>, claims: seq<Fill>, e: Fill)
    requires UniqueIds(t.exitFills) && Compatible(t.exitFills + claims) && e in claims && IsOutside(t, e) && NamesOrder(e)
    requires forall r :: r in children ==> r in claims && IsChild(t, r) && NamesOrder(r)
    requires Knows(PutAll(t.exitFills + children), e)
    ensures Knows(Records(t.exitFills), e)
  {
    var all := t.exitFills + children;
    PutAllWasReported(all, e.exec);
    forall r | r in children ensures r.exec != e.exec {
      assert r in t.exitFills + claims && e in t.exitFills + claims;
      assert Agree(r, e);
    }
    RecordsAt(t.exitFills);
    var first :| first in all && first.exec == e.exec;
    var i :| 0 <= i < |t.exitFills| && t.exitFills[i] == first;
    assert HeldBy(Records(t.exitFills), t.exitFills[i]);
    forall k | k in e.fields ensures k in first.fields && first.fields[k] == e.fields[k] {
      var r :| r in all && Says(r, e.exec, k, PutAll(all)[e.exec][k]);
      var j :| 0 <= j < |t.exitFills| && t.exitFills[j] == r;
      assert i == j;
    }
  }

  lemma OneMoreTime(d: Delivery, ds: seq<Delivery>)
    requires d.fill in Reports(ds)
    ensures SameReports(Reports([d] + ds), Reports(ds))
  {
    assert Reports([d] + ds) == [d.fill] + Reports(ds);
  }

  lemma RivalsDiffer(t: Trade, ds: seq<Delivery>, outside: Delivery, child: Delivery)
    requires Tracked(t) && UniqueIds(t.exitFills) && Compatible(t.exitFills + ExitClaims(t, ds)) && Named(ds)
    requires NewOutside(t, ds, outside.fill) && NewChild(t, ds, child.fill)
    ensures Records(TradeAll(t, [outside] + ds).exitFills) != Records(TradeAll(t, [child] + ds).exitFills)
  {
    OutsideFirst(t, outside, ds);
    ChildFirst(t, child, ds, outside.fill);
  }

  lemma RivalsMatter(t: Trade, ds: seq<Delivery>)
    requires Tracked(t) && UniqueIds(t.exitFills) && Compatible(t.exitFills + ExitClaims(t, ds)) && Named(ds) && Rivals(t, ds)
    ensures !OrderFree(t, ds)
  {
    var e :| NewOutside(t, ds, e);
    var c :| NewChild(t, ds, c);
    var i :| 0 <= i < |ds| && Reports(ds)[i] == e;
    var j :| 0 <= j < |ds| && Reports(ds)[j] == c;
    hide Records, TradeAll, ExitClaims, Compatible, UniqueIds, NewOutside, NewChild, Named, SameReports, Rivals, OrderFree;
    OneMoreTime(ds[i], ds);
    OneMoreTime(ds[j], ds);
    if OrderFree(t, ds) {
      OrderFreeMeans(t, ds, [ds[i]] + ds, [ds[j]] + ds);
      RivalsDiffer(t, ds, ds[i], ds[j]);
    }
  }

  lemma OrderFreeMeans(t: Trade, ds: seq<Delivery>, p: seq<Delivery>, q: seq<Delivery>)
    requires OrderFree(t, ds) && SameReports(Reports(p), Reports(ds)) && SameReports(Reports(q), Reports(ds))
    ensures Records(TradeAll(t, p).exitFills) == Records(TradeAll(t, q).exitFills)
  {
  }

  /** Reports that contradict nothing may come in any order, any number of times, exactly
      unless an exit order outside the bracket and a child of the bracket both have something
      new to tell: the first child report to do so takes the exit order's place. */
  lemma OutsideExitOrderMatters(t: Trade, ds: seq<Delivery>)
    requires Tracked(t) && UniqueIds(t.exitFills) && Compatible(t.exitFills + ExitClaims(t, ds)) && Named(ds)
    ensures OrderFree(t, ds) <==> !Rivals(t, ds)
  {
    if Rivals(t, ds) {
      RivalsMatter(t, ds);
    } else {
      forall p, q | SameReports(Reports(p), Reports(ds)) && SameReports(Reports(q), Reports(ds))
        ensures Records(TradeAll(t, p).exitFills) == Records(TradeAll(t, q).exitFills)
      {
        FreeOfRivals(t, ds, p, q);
      }
    }
  }

  // ---------------------------------------------------------------- the whole store

  /** The reports about every tracked trade stay within its bracket and contradict nothing. */
  ghost predicate AllConsistent(trades: seq<Trade>, ds: seq<Delivery>) {
    forall i :: 0 <= i < |trades| && Tracked(trades[i]) ==> BracketOnly(trades[i], ds) && CompatibleFor(trades[i], ds)
  }

  lemma {:induction false} UntrackedStays(t: Trade, ds: seq<Delivery>)
    requires !Tracked(t)
    ensures TradeAll(t, ds) == t
    decreases |ds|
  {
    if |ds| > 0 {
      UntrackedStays(t, Front(ds));
    }
  }

  lemma BracketOnlyStays(t: Trade, ds: seq<Delivery>, es: seq<Delivery>)
    requires BracketOnly(t, ds) && forall e :: e in Reports(es) ==> e in Reports(ds)
    ensures BracketOnly(t, es)
  {
    forall i | 0 <= i < |es| ensures IsEntry(t, es[i].fill) || IsChild(t, es[i].fill) || Some(OrderOf(es[i].fill)) != t.exitOrder {
      assert Reports(es)[i] in Reports(ds);
    }
  }

  predicate SameBooks(a: Trade, b: Trade) {
    && Records(a.entryFills) == Records(b.entryFills) && Records(a.exitFills) == Records(b.exitFills)
    && Sum(a.entryFills) == Sum(b.entryFills) && Sum(a.exitFills) == Sum(b.exitFills)
  }

  /** The whole store is confluent: when no order belongs to two trades, two deliveries of the
      same reports, in whatever order, batching and repetition, leave every trade with the same
      records and the same sums. */
  lemma StoreIsConfluent(b: Books, ds: seq<Delivery>, es: seq<Delivery>)
    requires Separate(b.trades) && AllConsistent(b.trades, ds) && SameReports(Reports(ds), Reports(es))
    ensures var (x, y) := (IngestAll(b, ds).0.trades, IngestAll(b, es).0.trades);
            |x| == |y| == |b.trades| && forall i :: 0 <= i < |b.trades| ==> SameBooks(x[i], y[i])
  {
    IngestIsPointwise(b, ds);
    IngestIsPointwise(b, es);
    forall i | 0 <= i < |b.trades| ensures SameBooks(TradeAll(b.trades[i], ds), TradeAll(b.trades[i], es)) {
      if Tracked(b.trades[i]) {
        BracketOnlyStays(b.trades[i], ds, es);
        IngestIsConfluent(b.trades[i], ds, es);
      } else {
        UntrackedStays(b.trades[i], ds);
        UntrackedStays(b.trades[i], es);
      }
    }
  }

  /** Delivering any report of a batch once more changes no trade of the store. */
  lemma StoreIgnoresRedelivery(b: Books, ds: seq<Delivery>, d: Delivery)
    requires Separate(b.trades) && AllConsistent(b.trades, ds) && d.fill in Reports(ds)
    ensures IngestOne(IngestAll(b, ds).0, d).0.trades == IngestAll(b, ds).0.trades
  {
    IngestIsPointwise(b, ds);
    IngestOneIsPointwise(IngestAll(b, ds).0, d);
    forall i | 0 <= i < |b.trades| ensures TradeStep(TradeAll(b.trades[i], ds), d) == TradeAll(b.trades[i], ds) {
      if Tracked(b.trades[i]) {
        RedeliveryAfterIngest(b.trades[i], ds, d);
      } else {
        UntrackedStays(b.trades[i], ds);
      }
    }
  }

  /** Recorded profit in the store, trade by trade. */
  lemma StorePnlExactly(b: Books, ds: seq<Delivery>, i: nat)
    requires Separate(b.trades) && i < |b.trades| && Tracked(b.trades[i]) && SettledIn(b.trades[i], ds) && Consistent(b.trades[i], ds)
    ensures |IngestAll(b, ds).0.trades| == |b.trades|
    ensures var (w, u) := (IngestAll(b, ds).0.trades[i], AtSettlement(b.trades[i], ds));
            && w.status.Closed?
            && (Sum(w.entryFills).quantity <= Sum(w.exitFills).quantity ==>
                  if EntrySummary(u).None? then w.pnl.None?
                  else 0 < Sum(w.exitFills).quantity
                       && (w.pnl == Some(CashFlow(w, w.exitFills)) <==> LateCost(u, w) == SoldFor(Sum(w.exitFills), Unmet(u, w))))
  {
    IngestIsPointwise(b, ds);
    RecordedAtSettlement(b.trades[i], ds);
    var w := TradeAll(b.trades[i], ds);
    hide TradeAll, IngestAll, Sum, EntrySummary, SettledIn, AtSettlement, Consistent;
    if Sum(w.entryFills).quantity <= Sum(w.exitFills).quantity {
      RecordedPnlExactly(b.trades[i], ds);
    }
  }
}
