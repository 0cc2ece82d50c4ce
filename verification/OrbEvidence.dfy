/** The evidence ledger: trades rebuilt from the audit log by a two-pass join, and when the
    rebuild agrees with the live executor and exit manager. */
module OrbEvidence {
  import opened Common
  import opened OrbAudit
  import M = OrbExit

  // ---------------------------------------------------------------- the ledger

  datatype Status = Submitted | OpenTrade | ClosedTrade | FailedTrade | CancelledTrade

  datatype Evidence = Evidence(
    terms: Terms,
    status: Status,
    actualEntry: Option<real>,
    entrySlippage: Option<real>,
    exitPrice: Option<real>,
    exitSlippage: Option<real>,
    exitReason: Option<ExitReason>,
    realized: Option<real>,
    mfe: Option<real>,
    mae: Option<real>)

  function NewEvidence(terms: Terms): Evidence {
    Evidence(terms, Submitted, None, None, None, None, None, None, None, None)
  }

  datatype Filter = Filter(strategy: Option<string>, session: Option<string>)

  const Everything: Filter := Filter(None, None)

  predicate Matches(f: Filter, strategy: string, session: string) {
    (f.strategy.Some? ==> f.strategy.value == strategy) && (f.session.Some? ==> f.session.value == session)
  }

  predicate IsExecution(r: Record, f: Filter) {
    r.PaperExecuted? && Matches(f, r.terms.strategy, r.terms.session)
  }

  /** Records of the exit manager about one trade; they carry neither strategy nor session. */
  predicate IsExitKind(r: Record) {
    r.EntryFilled? || r.EntryFailed? || r.EntryCancel? || r.ExitRequested? || r.ExitFilled? || r.ExitFailed? || r.CloseWithoutPrice?
  }

  function Update(e: Evidence, r: Record): Evidence {
    match r
    case EntryFilled(_, price, slippage) => e.(actualEntry := Some(price), entrySlippage := slippage, status := OpenTrade)
    case EntryFailed(_) => e.(status := FailedTrade)
    case ExitFilled(_, reason, price, realized, slippage, mfe, mae) =>
      e.(exitPrice := Some(price), exitReason := Some(reason), realized := realized, exitSlippage := slippage, mfe := mfe,
         mae := mae, status := ClosedTrade)
    case ExitFailed(_, reason) => e.(status := FailedTrade, exitReason := Some(reason))
    case EntryCancel(_) => e.(status := CancelledTrade, exitReason := Some(EntryCancelled))
    case _ => e
  }

  function PassOne(log: seq<Record>, f: Filter): map<Id, Evidence> {
    if |log| == 0 then map[]
    else if IsExecution(Last(log), f) then PassOne(Front(log), f)[Last(log).terms.trade := NewEvidence(Last(log).terms)]
    else PassOne(Front(log), f)
  }

  function ApplyExit(m: map<Id, Evidence>, r: Record): map<Id, Evidence> {
    if IsExitKind(r) && r.trade in m then m[r.trade := Update(m[r.trade], r)] else m
  }

  function PassTwo(m: map<Id, Evidence>, log: seq<Record>): map<Id, Evidence> {
    if |log| == 0 then m else ApplyExit(PassTwo(m, Front(log)), Last(log))
  }

  function TradeLedger(log: seq<Record>, f: Filter): map<Id, Evidence> {
    PassTwo(PassOne(log, f), log)
  }

  /** A trade is in the filtered ledger exactly when it has an execution record of the strategy and
      session asked for, if any were. */
  lemma {:induction false} TradeListedExactly(log: seq<Record>, f: Filter, t: Id)
    ensures t in TradeLedger(log, f) <==>
              exists i :: 0 <= i < |log| && log[i].PaperExecuted? && log[i].terms.trade == t
                          && (f.strategy == None || f.strategy == Some(log[i].terms.strategy))
                          && (f.session == None || f.session == Some(log[i].terms.session))
  {
    KeysOfPassTwo(PassOne(log, f), log);
    EnteredExactly(log, f, t);
  }

  lemma {:induction false} KeysOfPassTwo(m: map<Id, Evidence>, log: seq<Record>)
    ensures PassTwo(m, log).Keys == m.Keys
    decreases |log|
  {
    if |log| > 0 {
      KeysOfPassTwo(m, Front(log));
    }
  }

  lemma {:induction false} EnteredExactly(log: seq<Record>, f: Filter, t: Id)
    ensures t in PassOne(log, f) <==>
              exists i :: 0 <= i < |log| && log[i].PaperExecuted? && log[i].terms.trade == t
                          && (f.strategy == None || f.strategy == Some(log[i].terms.strategy))
                          && (f.session == None || f.session == Some(log[i].terms.session))
    decreases |log|
  {
    if |log| > 0 {
      EnteredExactly(Front(log), f, t);
      var n := |log| - 1;
      assert forall i :: 0 <= i < n ==> Front(log)[i] == log[i];
      assert IsExecution(log[n], f) && log[n].terms.trade == t <==>
               log[n].PaperExecuted? && log[n].terms.trade == t
               && (f.strategy == None || f.strategy == Some(log[n].terms.strategy))
               && (f.session == None || f.session == Some(log[n].terms.session));
    }
  }

  method BuildTradeLedger(log: seq<Record>, f: Filter) returns (trades: map<Id, Evidence>)
    ensures trades == TradeLedger(log, f)
  {
    trades := map[];
    for n := 0 to |log|
      invariant trades == PassOne(log[..n], f)
    {
      assert Front(log[..n + 1]) == log[..n];
      if IsExecution(log[n], f) {
        trades := trades[log[n].terms.trade := NewEvidence(log[n].terms)];
      }
    }
    assert log[..|log|] == log;
    for n := 0 to |log|
      invariant trades == PassTwo(PassOne(log, f), log[..n])
    {
      assert Front(log[..n + 1]) == log[..n];
      if IsExitKind(log[n]) && log[n].trade in trades {
        var id := log[n].trade;
        trades := trades[id := Update(trades[id], log[n])];
      }
    }
  }

  // ---------------------------------------------------------------- one trade of the ledger

  /** The records about one trade, applied in order to where its evidence stood. */
  function Replay(e: Evidence, log: seq<Record>, id: Id): Evidence {
    if |log| == 0 then e
    else
      var before := Replay(e, Front(log), id);
      if IsExitKind(Last(log)) && Last(log).trade == id then Update(before, Last(log)) else before
  }

  lemma {:induction false} PassTwoAt(m: map<Id, Evidence>, log: seq<Record>)
    ensures PassTwo(m, log).Keys == m.Keys
    ensures forall id :: id in m ==> PassTwo(m, log)[id] == Replay(m[id], log, id)
    decreases |log|
  {
    if |log| > 0 {
      PassTwoAt(m, Front(log));
    }
  }

  lemma {:induction false} ReplayConcat(e: Evidence, a: seq<Record>, b: seq<Record>, id: Id)
    ensures Replay(e, a + b, id) == Replay(Replay(e, a, id), b, id)
    decreases |b|
  {
    if |b| == 0 {
      assert a + b == a;
    } else {
      assert Front(a + b) == a + Front(b);
      ReplayConcat(e, a, Front(b), id);
    }
  }

  predicate Concerns(log: seq<Record>, id: Id) {
    exists i :: 0 <= i < |log| && IsExitKind(log[i]) && log[i].trade == id
  }

  lemma {:induction false} ReplayOfOthers(e: Evidence, log: seq<Record>, id: Id)
    requires !Concerns(log, id)
    ensures Replay(e, log, id) == e
    decreases |log|
  {
    if |log| > 0 {
      assert !Concerns(Front(log), id) by {
        assert forall i :: 0 <= i < |log| - 1 ==> Front(log)[i] == log[i];
      }
      ReplayOfOthers(e, Front(log), id);
    }
  }

  // ---------------------------------------------------------------- filtering

  function Restricted(m: map<Id, Evidence>, f: Filter): map<Id, Evidence> {
    map id | id in m && Matches(f, m[id].terms.strategy, m[id].terms.session) :: m[id]
  }

  predicate SameSession(a: Record, b: Record) {
    a.PaperExecuted? && b.PaperExecuted? && a.terms.trade == b.terms.trade ==>
      a.terms.strategy == b.terms.strategy && a.terms.session == b.terms.session
  }

  /** Execution records of one trade never disagree on its strategy or session. */
  ghost predicate OneSessionEach(log: seq<Record>) {
    forall i, j :: 0 <= i < |log| && 0 <= j < |log| ==> SameSession(log[i], log[j])
  }

  /** Entry `i` of the log is what put `e` under `id`. */
  predicate Source(log: seq<Record>, f: Filter, i: int, id: Id, e: Evidence) {
    0 <= i < |log| && IsExecution(log[i], f) && log[i].terms.trade == id && e == NewEvidence(log[i].terms)
  }

  lemma {:induction false} SourceOf(log: seq<Record>, f: Filter, id: Id) returns (i: int)
    requires id in PassOne(log, f)
    ensures Source(log, f, i, id, PassOne(log, f)[id])
    decreases |log|
  {
    if IsExecution(Last(log), f) && Last(log).terms.trade == id {
      i := |log| - 1;
    } else {
      i := SourceOf(Front(log), f, id);
    }
  }

  lemma {:induction false} ExecutionsAreEntered(log: seq<Record>, f: Filter, i: nat)
    requires i < |log| && IsExecution(log[i], f)
    ensures log[i].terms.trade in PassOne(log, f)
    decreases |log|
  {
    if i < |log| - 1 {
      ExecutionsAreEntered(Front(log), f, i);
    }
  }

  lemma {:induction false} PassOneRestricted(log: seq<Record>, f: Filter)
    requires OneSessionEach(log)
    ensures PassOne(log, f) == Restricted(PassOne(log, Everything), f)
    decreases |log|
  {
    if |log| > 0 {
      var front, r := Front(log), Last(log);
      assert forall i :: 0 <= i < |front| ==> front[i] == log[i];
      assert OneSessionEach(front);
      PassOneRestricted(front, f);
      if r.PaperExecuted? {
        if r.terms.trade in PassOne(front, Everything) {
          var i := SourceOf(front, Everything, r.terms.trade);
          assert SameSession(log[i], log[|log| - 1]);
        }
      }
    }
  }

  lemma {:induction false} ReplayKeepsTerms(e: Evidence, log: seq<Record>, id: Id)
    ensures Replay(e, log, id).terms == e.terms
    decreases |log|
  {
    if |log| > 0 {
      ReplayKeepsTerms(e, Front(log), id);
    }
  }

  /** Filtering commutes with rebuilding: although exit records name neither strategy nor
      session, the filtered ledger is the restriction of the full one, for every filter,
      exactly when no trade has execution records of two sessions. */
  lemma FilterExactly(log: seq<Record>)
    ensures (forall f :: TradeLedger(log, f) == Restricted(TradeLedger(log, Everything), f)) <==> OneSessionEach(log)
  {
    if OneSessionEach(log) {
      forall f ensures TradeLedger(log, f) == Restricted(TradeLedger(log, Everything), f) {
        FilterIsRestriction(log, f);
      }
    } else {
      var i, j :| 0 <= i < |log| && 0 <= j < |log| && !SameSession(log[i], log[j]);
      var f := MisfilteredBy(log, i, j);
      assert TradeLedger(log, f) != Restricted(TradeLedger(log, Everything), f);
    }
  }

  lemma FilterIsRestriction(log: seq<Record>, f: Filter)
    requires OneSessionEach(log)
    ensures TradeLedger(log, f) == Restricted(TradeLedger(log, Everything), f)
  {
    PassOneRestricted(log, f);
    PassTwoAt(PassOne(log, f), log);
    PassTwoAt(PassOne(log, Everything), log);
    forall id | id in PassOne(log, Everything) ensures TradeLedger(log, Everything)[id].terms == PassOne(log, Everything)[id].terms {
      ReplayKeepsTerms(PassOne(log, Everything)[id], log, id);
    }
  }

  lemma MisfilteredBy(log: seq<Record>, i: nat, j: nat) returns (f: Filter)
    requires i < |log| && j < |log| && !SameSession(log[i], log[j])
    ensures TradeLedger(log, f) != Restricted(TradeLedger(log, Everything), f)
  {
    var all, id := PassOne(log, Everything), log[i].terms.trade;
    ExecutionsAreEntered(log, Everything, i);
    var kept := all[id].terms;
    var k := if log[i].terms.strategy != kept.strategy || log[i].terms.session != kept.session then i else j;
    f := Filter(Some(log[k].terms.strategy), Some(log[k].terms.session));
    ExecutionsAreEntered(log, f, k);
    PassTwoAt(PassOne(log, f), log);
    PassTwoAt(all, log);
    ReplayKeepsTerms(all[id], log, id);
    assert id in TradeLedger(log, f) && id !in Restricted(TradeLedger(log, Everything), f);
  }

  // ---------------------------------------------------------------- agreement, trade by trade

  function StatusOf(t: M.Intraday): Status {
    match t.state
    case EntryPending => Submitted
    case Open => OpenTrade
    case ExitPending => OpenTrade
    case Closed => if t.exitReason == Some(EntryCancelled) then CancelledTrade else ClosedTrade
    case Failed => FailedTrade
  }

  /** The evidence says what the live trade says: status, entry fill, exit, realised R and,
      when `reasons` asks for it, the exit reason of every trade. Otherwise a failed entry, for
      which the log gives none, is let off. Excursions are logged when the exit fills. */
  predicate Agrees(e: Evidence, t: M.Intraday, reasons: bool) {
    && e.status == StatusOf(t)
    && e.actualEntry == t.actualEntry && e.entrySlippage == t.entrySlippage
    && e.exitPrice == t.exitPrice && e.exitSlippage == t.exitSlippage && e.realized == t.realized
    && e.exitReason == (if !reasons && t.exitReason == Some(BrokerFailure) then None else t.exitReason)
    && (t.state.Closed? && t.exitPrice.Some? ==> e.mfe == t.mfe && e.mae == t.mae)
  }

  /** Reporting an entry fill is safe while the entry is pending, or again at the same price
      while the trade is open. */
  predicate SafeFill(t: M.Intraday, price: real) {
    t.state.EntryPending? || (t.state.Open? && t.actualEntry == Some(price))
  }

  /** Reporting a failed entry is safe once the trade has failed; while the entry is pending it
      is safe for everything but the exit reason. */
  predicate SafeFailure(t: M.Intraday, reasons: bool) {
    t.state.Failed? || (!reasons && t.state.EntryPending?)
  }

  lemma ReplayOne(e: Evidence, r: Record, id: Id)
    requires IsExitKind(r) && r.trade == id
    ensures Replay(e, [r], id) == Update(e, r)
  {
    assert Front([r]) == [];
  }

  lemma ReplayTwo(e: Evidence, r: Record, s: Record, id: Id)
    requires IsExitKind(r) && r.trade == id && IsExitKind(s) && s.trade == id
    ensures Replay(e, [r, s], id) == Update(Update(e, r), s)
  {
    assert Front([r, s]) == [r];
    ReplayOne(e, r, id);
  }

  lemma FillAgreesExactly(e: Evidence, t: M.Intraday, price: real, now: int, reasons: bool)
    requires Agrees(e, t, reasons) && !t.state.ExitPending?
    ensures var after := M.FillEntry(t, price, now);
            Agrees(Update(e, EntryFilled(t.terms.trade, price, after.entrySlippage)), after, reasons) <==> SafeFill(t, price)
  {
  }

  lemma FailureAgreesExactly(e: Evidence, t: M.Intraday, reasons: bool)
    requires Agrees(e, t, reasons) && !t.state.ExitPending? && (t.state.EntryPending? ==> t.exitReason.None?)
    ensures Agrees(Update(e, EntryFailed(t.terms.trade)), M.FailEntry(t), reasons) <==> SafeFailure(t, reasons)
  {
  }

  lemma TriggerAgrees(e: Evidence, t: M.Intraday, reason: ExitReason, price: Option<real>, order: nat, reasons: bool)
    requires Agrees(e, t, reasons) && t.state.Open? && !reason.EntryCancelled? && !reason.BrokerFailure?
    ensures var v := M.TriggerExit(t, reason, price, order);
            Agrees(Replay(e, v.log, t.terms.trade), v.trade, reasons)
  {
    var v := M.TriggerExit(t, reason, price, order);
    if price.None? {
      ReplayOne(e, v.log[0], t.terms.trade);
    } else {
      ReplayTwo(e, v.log[0], v.log[1], t.terms.trade);
    }
  }

  lemma EvaluationAgrees(e: Evidence, t: M.Intraday, emergency: bool, q: M.Quote, order: nat, reasons: bool)
    requires Agrees(e, t, reasons) && t.state.Open?
    ensures var v := M.Evaluate(t, emergency, q.price, q.now, order);
            Agrees(Replay(e, v.log, t.terms.trade), v.trade, reasons)
  {
    var marked := if q.price.Some? then M.UpdatePrice(t, q.price.value) else t;
    assert Agrees(e, marked, reasons);
    var trigger := M.Trigger(marked, emergency, q.price, q.now);
    if trigger.Some? {
      TriggerAgrees(e, marked, trigger.value.0, trigger.value.1, order, reasons);
    }
  }

  // ---------------------------------------------------------------- proposals

  datatype ProposalEvidence = ProposalEvidence(strategy: string, session: string, status: ProposalStatus, trade: Option<Id>)

  predicate IsProposal(r: Record, f: Filter) {
    r.ProposalLogged? && Matches(f, r.strategy, r.session)
  }

  function Noted(m: map<Id, ProposalEvidence>, r: Record): ProposalEvidence
    requires r.ProposalLogged?
  {
    var e := if r.proposal in m then m[r.proposal] else ProposalEvidence(r.strategy, r.session, Pending, None);
    e.(status := r.status, trade := if r.executedAs.Some? then r.executedAs else e.trade)
  }

  function ProposalLedger(log: seq<Record>, f: Filter): map<Id, ProposalEvidence> {
    if |log| == 0 then map[]
    else
      var m := ProposalLedger(Front(log), f);
      if IsProposal(Last(log), f) then m[Last(log).proposal := Noted(m, Last(log))] else m
  }

  method BuildProposalLedger(log: seq<Record>, f: Filter) returns (out: map<Id, ProposalEvidence>)
    ensures out == ProposalLedger(log, f)
  {
    out := map[];
    for n := 0 to |log|
      invariant out == ProposalLedger(log[..n], f)
    {
      assert Front(log[..n + 1]) == log[..n];
      if IsProposal(log[n], f) {
        out := out[log[n].proposal := Noted(out, log[n])];
      }
    }
    assert log[..|log|] == log;
  }

  /** A record about proposal `p` of the strategy and session asked for, if any were. */
  predicate Concerning(r: Record, f: Filter, p: Id) {
    && r.ProposalLogged? && r.proposal == p
    && (f.strategy == None || f.strategy == Some(r.strategy)) && (f.session == None || f.session == Some(r.session))
  }

  /** A proposal is in the ledger exactly when some such record is in the log. */
  lemma {:induction false} ProposalListedExactly(log: seq<Record>, f: Filter, p: Id)
    ensures p in ProposalLedger(log, f) <==> exists i :: 0 <= i < |log| && Concerning(log[i], f, p)
    decreases |log|
  {
    if |log| > 0 {
      ProposalListedExactly(Front(log), f, p);
      var n := |log| - 1;
      assert forall i :: 0 <= i < n ==> Front(log)[i] == log[i];
      assert IsProposal(log[n], f) && log[n].proposal == p <==> Concerning(log[n], f, p);
    }
  }

  /** Its strategy and session are those of the first of them. */
  lemma {:induction false} FirstRecordNames(log: seq<Record>, f: Filter, p: Id, i: nat)
    requires i < |log| && Concerning(log[i], f, p) && forall j :: 0 <= j < i ==> !Concerning(log[j], f, p)
    ensures p in ProposalLedger(log, f)
    ensures var e := ProposalLedger(log, f)[p]; e.strategy == log[i].strategy && e.session == log[i].session
    decreases |log|
  {
    assert Last(log) == log[|log| - 1] && forall j :: 0 <= j < |log| - 1 ==> Front(log)[j] == log[j];
    if i < |log| - 1 {
      FirstRecordNames(Front(log), f, p, i);
    } else {
      ProposalListedExactly(Front(log), f, p);
    }
  }

  /** Its status is that of the last of them. */
  lemma {:induction false} LastRecordDecides(log: seq<Record>, f: Filter, p: Id, i: nat)
    requires i < |log| && Concerning(log[i], f, p) && forall j :: i < j < |log| ==> !Concerning(log[j], f, p)
    ensures p in ProposalLedger(log, f) && ProposalLedger(log, f)[p].status == log[i].status
    decreases |log|
  {
    if i < |log| - 1 {
      assert !Concerning(log[|log| - 1], f, p) && Last(log) == log[|log| - 1];
      LastRecordDecides(Front(log), f, p, i);
    }
  }

  /** Its trade is the one the last execution among them names. */
  lemma {:induction false} LastExecutionNames(log: seq<Record>, f: Filter, p: Id, i: nat)
    requires i < |log| && Concerning(log[i], f, p) && log[i].executedAs.Some?
    requires forall j :: i < j < |log| && Concerning(log[j], f, p) ==> log[j].executedAs.None?
    ensures p in ProposalLedger(log, f) && ProposalLedger(log, f)[p].trade == log[i].executedAs
    decreases |log|
  {
    if i < |log| - 1 {
      assert Concerning(log[|log| - 1], f, p) ==> log[|log| - 1].executedAs.None?;
      assert Last(log) == log[|log| - 1];
      LastExecutionNames(Front(log), f, p, i);
    }
  }

  lemma {:induction false} NoExecutionNoTrade(log: seq<Record>, f: Filter, p: Id)
    requires p in ProposalLedger(log, f) && forall i :: 0 <= i < |log| && Concerning(log[i], f, p) ==> log[i].executedAs.None?
    ensures ProposalLedger(log, f)[p].trade == None
    decreases |log|
  {
    var n := |log| - 1;
    assert Last(log) == log[n] && (Concerning(log[n], f, p) ==> log[n].executedAs.None?);
    assert forall j :: 0 <= j < n ==> Front(log)[j] == log[j];
    if p in ProposalLedger(Front(log), f) {
      NoExecutionNoTrade(Front(log), f, p);
    }
  }

  lemma {:induction false} ProposalLedgerSkips(log: seq<Record>, more: seq<Record>)
    requires forall i :: 0 <= i < |more| ==> !more[i].ProposalLogged?
    ensures ProposalLedger(log + more, Everything) == ProposalLedger(log, Everything)
    decreases |more|
  {
    if |more| == 0 {
      assert log + more == log;
    } else {
      assert Front(log + more) == log + Front(more);
      ProposalLedgerSkips(log, Front(more));
    }
  }

  lemma ProposalLedgerNotes(log: seq<Record>, r: Record, more: seq<Record>)
    requires r.ProposalLogged? && forall i :: 0 <= i < |more| ==> !more[i].ProposalLogged?
    ensures var m := ProposalLedger(log, Everything);
            ProposalLedger(log + ([r] + more), Everything) == m[r.proposal := Noted(m, r)]
  {
    SnocFront(log, r);
    ProposalLedgerSkips(log + [r], more);
    assert log + ([r] + more) == (log + [r]) + more;
  }
}
