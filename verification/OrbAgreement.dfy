/** Executor, exit manager and audit log together: in which runs the ledger rebuilt from the
    log is the live state, at every moment. */
module OrbAgreement {
  import opened Common
  import opened OrbAudit
  import opened OrbEvidence
  import X = OrbExecution
  import M = OrbExit

  // ---------------------------------------------------------------- the whole

  datatype World = World(books: X.Books, desk: M.Desk, log: seq<Record>)

  const Start: World := World(X.EmptyBooks, M.EmptyDesk, [])

  datatype Op = Call(call: X.Call) | Manage(op: M.Op)

  function Step(cfg: X.Config, w: World, op: Op): World {
    match op
    case Call(call) => var (books, more) := X.Step(cfg, w.books, call); World(books, w.desk, w.log + more)
    case Manage(m) => var o := M.Step(w.desk, m); World(w.books, o.desk, w.log + o.log)
  }

  function Run(cfg: X.Config, ops: seq<Op>): World {
    if |ops| == 0 then Start else Step(cfg, Run(cfg, Front(ops)), Last(ops))
  }

  /** Trade identifiers are minted once, and the manager is handed records the executor made. */
  predicate Possible(w: World, op: Op) {
    match op
    case Call(call) => X.Minted(w.books, call)
    case Manage(m) =>
      m.Registration? ==> m.terms.trade in w.books.trades && w.books.trades[m.terms.trade].terms == m.terms
  }

  predicate AllPossible(cfg: X.Config, ops: seq<Op>) {
    |ops| > 0 ==> AllPossible(cfg, Front(ops)) && Possible(Run(cfg, Front(ops)), Last(ops))
  }

  // ---------------------------------------------------------------- what every run keeps

  predicate SoundTrade(w: World, id: Id)
    requires id in w.desk.trades
  {
    var t := w.desk.trades[id];
    && id in w.books.trades && t.terms == w.books.trades[id].terms && t.terms.trade == id
    && !t.state.ExitPending? && (t.state.EntryPending? ==> t.exitReason.None? && t.exitPrice.None?)
  }

  predicate SoundRecord(w: World, r: Record) {
    && (IsExitKind(r) ==> r.trade in w.desk.trades)
    && (r.PaperExecuted? ==> r.terms.trade in w.books.trades && w.books.trades[r.terms.trade].terms == r.terms)
  }

  ghost predicate Entered(books: X.Books, m: map<Id, Evidence>) {
    m.Keys == books.trades.Keys && forall id :: id in m ==> m[id] == NewEvidence(books.trades[id].terms)
  }

  ghost predicate Sound(cfg: X.Config, w: World) {
    && X.Sound(cfg, w.books) && M.Consistent(w.desk)
    && (forall id :: id in w.desk.trades ==> SoundTrade(w, id))
    && (forall i :: 0 <= i < |w.log| ==> SoundRecord(w, w.log[i]))
    && Entered(w.books, PassOne(w.log, Everything))
  }

  /** The ledger of `w` and its live state say the same of trade `id`. */
  predicate AgreesOn(w: World, id: Id, reasons: bool)
    requires id in w.books.trades
  {
    var e := Replay(NewEvidence(w.books.trades[id].terms), w.log, id);
    if id in w.desk.trades then Agrees(e, w.desk.trades[id], reasons) else e == NewEvidence(w.books.trades[id].terms)
  }

  ghost predicate Agreement(w: World, reasons: bool) {
    forall id :: id in w.books.trades ==> AgreesOn(w, id, reasons)
  }

  /** One entry per executed trade, with its terms, and each in agreement. */
  ghost predicate LedgerIsLive(w: World, reasons: bool) {
    var ledger := TradeLedger(w.log, Everything);
    && ledger.Keys == w.books.trades.Keys
    && forall id :: id in ledger ==>
                      && ledger[id].terms == w.books.trades[id].terms
                      && (if id in w.desk.trades then Agrees(ledger[id], w.desk.trades[id], reasons)
                          else ledger[id] == NewEvidence(w.books.trades[id].terms))
  }

  lemma LedgerIsReplay(cfg: X.Config, w: World, reasons: bool)
    requires Sound(cfg, w)
    ensures LedgerIsLive(w, reasons) <==> Agreement(w, reasons)
    ensures TradeLedger(w.log, Everything).Keys == w.books.trades.Keys
    ensures OneSessionEach(w.log)
  {
    PassTwoAt(PassOne(w.log, Everything), w.log);
    var ledger := TradeLedger(w.log, Everything);
    forall id | id in w.books.trades
      ensures ledger[id] == Replay(NewEvidence(w.books.trades[id].terms), w.log, id)
      ensures ledger[id].terms == w.books.trades[id].terms
    {
      ReplayKeepsTerms(NewEvidence(w.books.trades[id].terms), w.log, id);
    }
    if LedgerIsLive(w, reasons) {
      forall id | id in w.books.trades ensures AgreesOn(w, id, reasons) {
        assert id in ledger;
      }
    }
    if Agreement(w, reasons) {
      forall id | id in ledger
        ensures if id in w.desk.trades then Agrees(ledger[id], w.desk.trades[id], reasons) else ledger[id] == NewEvidence(w.books.trades[id].terms)
      {
        assert AgreesOn(w, id, reasons);
      }
    }
    forall i, j | 0 <= i < |w.log| && 0 <= j < |w.log| ensures SameSession(w.log[i], w.log[j]) {
      assert SoundRecord(w, w.log[i]) && SoundRecord(w, w.log[j]);
    }
  }

  // ---------------------------------------------------------------- moves of one trade

  lemma {:induction false} PassOneSkips(log: seq<Record>, more: seq<Record>)
    requires forall i :: 0 <= i < |more| ==> !more[i].PaperExecuted?
    ensures PassOne(log + more, Everything) == PassOne(log, Everything)
    decreases |more|
  {
    if |more| == 0 {
      assert log + more == log;
    } else {
      assert Front(log + more) == log + Front(more);
      PassOneSkips(log, Front(more));
    }
  }

  predicate AllAbout(more: seq<Record>, id: Id) {
    forall i :: 0 <= i < |more| ==> IsExitKind(more[i]) && more[i].trade == id
  }

  /** `w'` is `w` after one trade moved to `after` and `more` was logged about it. */
  ghost predicate Moved(w: World, id: Id, after: M.Intraday, more: seq<Record>, w': World) {
    && id in w.desk.trades && AllAbout(more, id)
    && w'.books == w.books && w'.log == w.log + more
    && w'.desk.trades == w.desk.trades[id := after] && w'.desk.order == w.desk.order
    && after.terms == w.desk.trades[id].terms && !after.state.ExitPending?
    && (after.state.EntryPending? ==> after.exitReason.None? && after.exitPrice.None?)
  }

  lemma MoveKeepsSound(cfg: X.Config, w: World, id: Id, after: M.Intraday, more: seq<Record>, w': World)
    requires Sound(cfg, w) && Moved(w, id, after, more, w')
    ensures Sound(cfg, w')
  {
    PassOneSkips(w.log, more);
    assert SoundTrade(w, id);
    forall i | i in w'.desk.trades ensures SoundTrade(w', i) {
      assert i in w.desk.trades && SoundTrade(w, i);
    }
    forall i | 0 <= i < |w'.log| ensures SoundRecord(w', w'.log[i]) {
      if i < |w.log| {
        assert SoundRecord(w, w.log[i]);
      } else {
        assert w'.log[i] == more[i - |w.log|];
      }
    }
  }

  /** Agreement survives a move exactly when it survives for the trade that moved. */
  lemma MoveAgreesExactly(cfg: X.Config, w: World, id: Id, after: M.Intraday, more: seq<Record>, w': World, reasons: bool)
    requires Sound(cfg, w) && Agreement(w, reasons) && Moved(w, id, after, more, w')
    ensures SoundTrade(w, id) && AgreesOn(w, id, reasons)
    ensures Agreement(w', reasons) <==> Agrees(Replay(Replay(NewEvidence(w.books.trades[id].terms), w.log, id), more, id), after, reasons)
  {
    assert SoundTrade(w, id) && AgreesOn(w, id, reasons);
    forall i | i in w'.books.trades && i != id ensures AgreesOn(w', i, reasons) {
      assert AgreesOn(w, i, reasons);
      var fresh0 := NewEvidence(w.books.trades[i].terms);
      ReplayConcat(fresh0, w.log, more, i);
      assert !Concerns(more, i);
      ReplayOfOthers(Replay(fresh0, w.log, i), more, i);
    }
    ReplayConcat(NewEvidence(w.books.trades[id].terms), w.log, more, id);
    if Agreement(w', reasons) {
      assert AgreesOn(w', id, reasons);
    } else {
      var i :| i in w'.books.trades && !AgreesOn(w', i, reasons);
      assert i == id;
    }
  }

  // ---------------------------------------------------------------- evaluation

  lemma EvaluationIsMove(cfg: X.Config, w: World, id: Id, q: M.Quote)
    requires Sound(cfg, w) && id in w.desk.trades && w.desk.trades[id].state.Open?
    ensures var o := M.EvaluateOne(w.desk, id, q);
            var e := M.Evaluate(w.desk.trades[id], w.desk.emergency, q.price, q.now, w.desk.seqNo + 1);
            && id in o.desk.trades && o.desk.trades[id] == e.trade && o.log == e.log
            && Moved(w, id, e.trade, e.log, World(w.books, o.desk, w.log + o.log))
            && w.desk.trades[id].terms.trade == id && id in w.books.trades
  {
    assert SoundTrade(w, id);
  }

  lemma EvaluationKeeps(cfg: X.Config, w: World, id: Id, q: M.Quote, reasons: bool)
    requires Sound(cfg, w) && id in w.desk.trades && w.desk.trades[id].state.Open?
    ensures Sound(cfg, With(w, M.EvaluateOne(w.desk, id, q)))
    ensures Agreement(w, reasons) ==> Agreement(With(w, M.EvaluateOne(w.desk, id, q)), reasons)
  {
    var o := M.EvaluateOne(w.desk, id, q);
    var w' := World(w.books, o.desk, w.log + o.log);
    hide Sound, Moved, Agreement, Agrees, AgreesOn, Replay, M.Evaluate, M.EvaluateOne;
    EvaluationIsMove(cfg, w, id, q);
    MoveKeepsSound(cfg, w, id, o.desk.trades[id], o.log, w');
    if Agreement(w, reasons) {
      MoveAgreesExactly(cfg, w, id, o.desk.trades[id], o.log, w', reasons);
      EvaluationAgrees(Replay(NewEvidence(w.books.trades[id].terms), w.log, id), w.desk.trades[id], w.desk.emergency, q, w.desk.seqNo + 1, reasons);
    }
  }

  /** The world after the manager did `o`. */
  function With(w: World, o: M.Outcome): World {
    World(w.books, o.desk, w.log + o.log)
  }

  lemma {:induction false} PassKeeps(cfg: X.Config, w: World, ids: seq<Id>, quotes: Id -> M.Quote, reasons: bool)
    requires Sound(cfg, w) && M.Distinct(ids)
    requires forall id :: id in ids ==> id in w.desk.trades && w.desk.trades[id].state.Open?
    ensures Sound(cfg, With(w, M.EvaluateEach(w.desk, ids, quotes)))
    ensures Agreement(w, reasons) ==> Agreement(With(w, M.EvaluateEach(w.desk, ids, quotes)), reasons)
    decreases |ids|
  {
    if |ids| == 0 {
      assert With(w, M.EvaluateEach(w.desk, ids, quotes)) == w;
    } else {
      M.DistinctFront(ids);
      PassKeeps(cfg, w, Front(ids), quotes, reasons);
      LastOfPass(cfg, w, ids, quotes);
      EvaluationKeeps(cfg, With(w, M.EvaluateEach(w.desk, Front(ids), quotes)), Last(ids), quotes(Last(ids)), reasons);
    }
  }

  /** The last trade of a pass is still open when its turn comes. */
  lemma LastOfPass(cfg: X.Config, w: World, ids: seq<Id>, quotes: Id -> M.Quote)
    requires Sound(cfg, w) && M.Distinct(ids) && |ids| > 0
    requires forall id :: id in ids ==> id in w.desk.trades && w.desk.trades[id].state.Open?
    ensures var mid := With(w, M.EvaluateEach(w.desk, Front(ids), quotes));
            && Last(ids) in mid.desk.trades && mid.desk.trades[Last(ids)].state.Open?
            && With(w, M.EvaluateEach(w.desk, ids, quotes)) == With(mid, M.EvaluateOne(mid.desk, Last(ids), quotes(Last(ids))))
  {
    var last, before := Last(ids), M.EvaluateEach(w.desk, Front(ids), quotes);
    M.DistinctFront(ids);
    var order := M.EvaluatedOnce(w.desk, Front(ids), quotes, last);
    assert M.PassedOver(w.desk, Front(ids), quotes, last, order, before.desk);
    var o := M.EvaluateOne(before.desk, last, quotes(last));
    assert w.log + (before.log + o.log) == (w.log + before.log) + o.log;
  }

  // ---------------------------------------------------------------- one step

  /** The two reports that write to the log whether or not the trade took them. */
  predicate Safe(d: M.Desk, op: Op, reasons: bool) {
    && (op.Manage? && op.op.Fill? && op.op.id in d.trades ==> SafeFill(d.trades[op.op.id], op.op.price))
    && (op.Manage? && op.op.FillFailure? && op.op.id in d.trades ==> SafeFailure(d.trades[op.op.id], reasons))
  }

  lemma UnmentionedIsNew(cfg: X.Config, w: World, e: Evidence, id: Id)
    requires Sound(cfg, w) && id !in w.desk.trades
    ensures Replay(e, w.log, id) == e
  {
    forall i | 0 <= i < |w.log| ensures !(IsExitKind(w.log[i]) && w.log[i].trade == id) {
      assert SoundRecord(w, w.log[i]);
    }
    ReplayOfOthers(e, w.log, id);
  }

  /** What the executor logs: never an exit record, and an execution only with a new trade. */
  lemma ExecutorLogs(cfg: X.Config, b: X.Books, call: X.Call)
    requires X.Minted(b, call)
    ensures var (after, more) := X.Step(cfg, b, call);
            && (forall i :: 0 <= i < |more| ==> !IsExitKind(more[i]))
            && (after.trades == b.trades ==> forall i :: 0 <= i < |more| ==> !more[i].PaperExecuted?)
            && (after.trades != b.trades ==> NewTrade(b, call, after, more))
  {
  }

  predicate NewTrade(b: X.Books, call: X.Call, after: X.Books, more: seq<Record>) {
    && call.Execute? && call.newId !in b.trades && call.newId in after.trades
    && after.trades == b.trades[call.newId := after.trades[call.newId]]
    && after.trades[call.newId].terms.trade == call.newId
    && |more| == 2 && more[0].ProposalLogged? && more[1] == PaperExecuted(after.trades[call.newId].terms)
  }

  lemma PassOneOfNewTrade(log: seq<Record>, first: Record, terms: Terms)
    requires !first.PaperExecuted?
    ensures PassOne(log + [first, PaperExecuted(terms)], Everything) == PassOne(log, Everything)[terms.trade := NewEvidence(terms)]
  {
    var all := log + [first, PaperExecuted(terms)];
    assert Front(all) == log + [first];
    PassOneSkips(log, [first]);
  }

  lemma CallEnters(cfg: X.Config, b: X.Books, log: seq<Record>, call: X.Call)
    requires X.Minted(b, call) && Entered(b, PassOne(log, Everything))
    ensures var (after, more) := X.Step(cfg, b, call);
            && Entered(after, PassOne(log + more, Everything)) && Keeps(b, after)
            && forall i :: 0 <= i < |more| && more[i].PaperExecuted? ==>
                             more[i].terms.trade in after.trades && after.trades[more[i].terms.trade].terms == more[i].terms
  {
    ExecutorLogs(cfg, b, call);
    hide X.Step, PassOne;
    var (after, more) := X.Step(cfg, b, call);
    if after.trades == b.trades {
      PassOneSkips(log, more);
    } else {
      PassOneOfNewTrade(log, more[0], after.trades[call.newId].terms);
      assert more == [more[0], more[1]];
    }
  }

  /** Every trade is still there, as it was. */
  ghost predicate Keeps(b: X.Books, after: X.Books) {
    forall id :: id in b.trades ==> id in after.trades && after.trades[id] == b.trades[id]
  }

  lemma CallKeepsSound(cfg: X.Config, w: World, call: X.Call)
    requires Sound(cfg, w) && X.Minted(w.books, call)
    ensures Sound(cfg, Step(cfg, w, Call(call)))
  {
    X.StepKeepsSound(cfg, w.books, call);
    CallEnters(cfg, w.books, w.log, call);
    ExecutorLogs(cfg, w.books, call);
    hide X.Step, X.Sound, Entered, PassOne, X.Minted, NewTrade;
    var (after, more) := X.Step(cfg, w.books, call);
    var w' := Step(cfg, w, Call(call));
    forall i | i in w'.desk.trades ensures SoundTrade(w', i) {
      assert SoundTrade(w, i);
    }
    forall i | 0 <= i < |w'.log| ensures SoundRecord(w', w'.log[i]) {
      if i < |w.log| {
        assert SoundRecord(w, w.log[i]);
      } else {
        assert w'.log[i] == more[i - |w.log|];
      }
    }
  }

  /** The executor neither makes nor mends a disagreement. */
  lemma CallAgrees(cfg: X.Config, w: World, call: X.Call, reasons: bool)
    requires Sound(cfg, w) && X.Minted(w.books, call) && Agreement(w, reasons)
    ensures Agreement(Step(cfg, w, Call(call)), reasons)
  {
    var (after, more) := X.Step(cfg, w.books, call);
    var w' := Step(cfg, w, Call(call));
    ExecutorLogs(cfg, w.books, call);
    assert forall id :: id in w.desk.trades ==> SoundTrade(w, id);
    forall id | id in w'.books.trades ensures AgreesOn(w', id, reasons) {
      var e := NewEvidence(w'.books.trades[id].terms);
      ReplayConcat(e, w.log, more, id);
      assert !Concerns(more, id);
      ReplayOfOthers(Replay(e, w.log, id), more, id);
      if id in w.books.trades {
        assert AgreesOn(w, id, reasons);
      } else {
        UnmentionedIsNew(cfg, w, e, id);
      }
    }
  }

  lemma RegistrationKeeps(cfg: X.Config, w: World, terms: Terms, flatAt: Option<int>, maxHolding: Option<int>, reasons: bool)
    requires Sound(cfg, w) && terms.trade in w.books.trades && w.books.trades[terms.trade].terms == terms
    ensures Sound(cfg, With(w, M.Register(w.desk, terms, flatAt, maxHolding)))
    ensures Agreement(w, reasons) ==> Agreement(With(w, M.Register(w.desk, terms, flatAt, maxHolding)), reasons)
  {
    var w' := With(w, M.Register(w.desk, terms, flatAt, maxHolding));
    assert w'.log == w.log;
    forall i | i in w'.desk.trades ensures SoundTrade(w', i) {
      assert i in w.desk.trades ==> SoundTrade(w, i);
    }
    forall i | 0 <= i < |w'.log| ensures SoundRecord(w', w'.log[i]) {
      assert SoundRecord(w, w.log[i]);
    }
    if Agreement(w, reasons) {
      forall id | id in w'.books.trades ensures AgreesOn(w', id, reasons) {
        assert AgreesOn(w, id, reasons);
      }
    }
  }

  /** A record about no trade's exit, with the trades untouched. */
  lemma NeutralKeeps(cfg: X.Config, w: World, w': World, more: seq<Record>, reasons: bool)
    requires Sound(cfg, w) && w'.books == w.books && w'.log == w.log + more
    requires w'.desk.trades == w.desk.trades && w'.desk.order == w.desk.order
    requires forall i :: 0 <= i < |more| ==> more[i].EntriesSwitched?
    ensures Sound(cfg, w') && (Agreement(w, reasons) ==> Agreement(w', reasons))
  {
    PassOneSkips(w.log, more);
    forall i | i in w'.desk.trades ensures SoundTrade(w', i) {
      assert SoundTrade(w, i);
    }
    forall i | 0 <= i < |w'.log| ensures SoundRecord(w', w'.log[i]) {
      if i < |w.log| {
        assert SoundRecord(w, w.log[i]);
      } else {
        assert w'.log[i] == more[i - |w.log|];
      }
    }
    if Agreement(w, reasons) {
      forall id | id in w'.books.trades ensures AgreesOn(w', id, reasons) {
        assert AgreesOn(w, id, reasons);
        var e := NewEvidence(w.books.trades[id].terms);
        ReplayConcat(e, w.log, more, id);
        assert !Concerns(more, id);
        ReplayOfOthers(Replay(e, w.log, id), more, id);
      }
    }
  }

  /** A step that moves one trade and logs one record about it. */
  lemma ReportMoves(cfg: X.Config, w: World, id: Id, after: M.Intraday, r: Record, w': World, reasons: bool)
    requires Sound(cfg, w) && Moved(w, id, after, [r], w')
    ensures Sound(cfg, w') && SoundTrade(w, id)
    ensures Agreement(w, reasons) ==>
              && Agrees(Evidenced(w, id), w.desk.trades[id], reasons)
              && (Agreement(w', reasons) <==> Agrees(Update(Evidenced(w, id), r), after, reasons))
  {
    MoveKeepsSound(cfg, w, id, after, [r], w');
    assert SoundTrade(w, id) && [r][0] == r;
    if Agreement(w, reasons) {
      MoveAgreesExactly(cfg, w, id, after, [r], w', reasons);
      ReplayOne(Evidenced(w, id), r, id);
    }
  }

  /** What the log says of trade `id`. */
  function Evidenced(w: World, id: Id): Evidence
    requires id in w.books.trades
  {
    Replay(NewEvidence(w.books.trades[id].terms), w.log, id)
  }

  lemma FillReport(cfg: X.Config, w: World, id: Id, price: real, now: int, reasons: bool)
    requires Sound(cfg, w) && id in w.desk.trades
    ensures var w' := With(w, M.MarkEntryFilled(w.desk, id, price, now));
            Sound(cfg, w') && (Agreement(w, reasons) ==> (Agreement(w', reasons) <==> SafeFill(w.desk.trades[id], price)))
  {
    var o := M.MarkEntryFilled(w.desk, id, price, now);
    assert SoundTrade(w, id);
    hide Sound, Agreement, Replay, SoundTrade;
    ReportMoves(cfg, w, id, o.desk.trades[id], o.log[0], With(w, o), reasons);
    if Agreement(w, reasons) {
      FillAgreesExactly(Evidenced(w, id), w.desk.trades[id], price, now, reasons);
    }
  }

  lemma FailureReport(cfg: X.Config, w: World, id: Id, reasons: bool)
    requires Sound(cfg, w) && id in w.desk.trades
    ensures var w' := With(w, M.MarkEntryFailed(w.desk, id));
            Sound(cfg, w') && (Agreement(w, reasons) ==> (Agreement(w', reasons) <==> SafeFailure(w.desk.trades[id], reasons)))
  {
    var o := M.MarkEntryFailed(w.desk, id);
    assert SoundTrade(w, id);
    hide Sound, Agreement, Replay, SoundTrade;
    ReportMoves(cfg, w, id, o.desk.trades[id], o.log[0], With(w, o), reasons);
    if Agreement(w, reasons) {
      FailureAgreesExactly(Evidenced(w, id), w.desk.trades[id], reasons);
    }
  }

  lemma CancelReport(cfg: X.Config, w: World, id: Id, reasons: bool)
    requires Sound(cfg, w) && id in w.desk.trades && w.desk.trades[id].state.EntryPending?
    ensures Sound(cfg, With(w, M.CancelEntry(w.desk, id)))
    ensures Agreement(w, reasons) ==> Agreement(With(w, M.CancelEntry(w.desk, id)), reasons)
  {
    var o := M.CancelEntry(w.desk, id);
    assert SoundTrade(w, id);
    hide Sound, Agreement, Replay, SoundTrade;
    ReportMoves(cfg, w, id, o.desk.trades[id], o.log[0], With(w, o), reasons);
  }

  lemma UnquotedCloseReport(cfg: X.Config, w: World, id: Id, w': World, reasons: bool)
    requires Sound(cfg, w) && id in w.desk.trades
    requires w' == With(w, M.Outcome(w.desk, [CloseWithoutPrice(id)]))
    ensures Sound(cfg, w') && (Agreement(w, reasons) ==> Agreement(w', reasons))
  {
    var t := w.desk.trades[id];
    assert SoundTrade(w, id);
    assert w.desk.trades == w.desk.trades[id := t];
    hide Sound, Agreement, Agrees, Replay, SoundTrade;
    ReportMoves(cfg, w, id, t, CloseWithoutPrice(id), w', reasons);
  }

  lemma CloseReport(cfg: X.Config, w: World, id: Id, offered: Option<real>, reasons: bool)
    requires Sound(cfg, w) && id in w.desk.trades && w.desk.trades[id].state.Open?
    ensures Sound(cfg, With(w, M.CloseNow(w.desk, id, offered)))
    ensures Agreement(w, reasons) ==> Agreement(With(w, M.CloseNow(w.desk, id, offered)), reasons)
  {
    var o := M.CloseNow(w.desk, id, offered);
    if offered.None? {
      UnquotedCloseReport(cfg, w, id, With(w, o), reasons);
    } else {
      CloseIsMove(cfg, w, id, offered);
      hide Sound, Agreement, Agrees, Replay, Moved, M.CloseNow;
      MoveKeepsSound(cfg, w, id, o.desk.trades[id], o.log, With(w, o));
      if Agreement(w, reasons) {
        MoveAgreesExactly(cfg, w, id, o.desk.trades[id], o.log, With(w, o), reasons);
        TriggerAgrees(Evidenced(w, id), w.desk.trades[id], ManualClose, offered, w.desk.seqNo + 1, reasons);
      }
    }
  }

  lemma CloseIsMove(cfg: X.Config, w: World, id: Id, offered: Option<real>)
    requires Sound(cfg, w) && id in w.desk.trades && w.desk.trades[id].state.Open? && offered.Some?
    ensures var o := M.CloseNow(w.desk, id, offered);
            var e := M.TriggerExit(w.desk.trades[id], ManualClose, offered, w.desk.seqNo + 1);
            && id in o.desk.trades && o.desk.trades[id] == e.trade && o.log == e.log
            && Moved(w, id, e.trade, e.log, With(w, o))
            && w.desk.trades[id].terms.trade == id && id in w.books.trades
  {
    assert SoundTrade(w, id);
  }

  lemma IdleKeeps(w: World, o: M.Outcome)
    requires o == M.Outcome(w.desk, [])
    ensures With(w, o) == w
  {
  }

  lemma DeskIsConsistent(cfg: X.Config, w: World)
    requires Sound(cfg, w)
    ensures M.Consistent(w.desk) && M.Distinct(w.desk.order)
  {
  }

  lemma ManageKeeps(cfg: X.Config, w: World, op: M.Op, reasons: bool)
    requires Sound(cfg, w) && Possible(w, Manage(op))
    ensures Sound(cfg, Step(cfg, w, Manage(op)))
    ensures Agreement(w, reasons) ==> (Agreement(Step(cfg, w, Manage(op)), reasons) <==> Safe(w.desk, Manage(op), reasons))
  {
    hide Sound, Agreement, PassOne, M.Consistent;
    var o := M.Step(w.desk, op);
    if o == M.Outcome(w.desk, []) {
      IdleKeeps(w, o);
    }
    DeskIsConsistent(cfg, w);
    match op
    case Registration(terms, flatAt, maxHolding) => RegistrationKeeps(cfg, w, terms, flatAt, maxHolding, reasons);
    case Fill(id, price, now) =>
      if id in w.desk.trades {
        FillReport(cfg, w, id, price, now, reasons);
      }
    case FillFailure(id) =>
      if id in w.desk.trades {
        FailureReport(cfg, w, id, reasons);
      }
    case Cancellation(id) =>
      if id in w.desk.trades && w.desk.trades[id].state.EntryPending? {
        CancelReport(cfg, w, id, reasons);
      }
    case Pass(quotes) =>
      M.OpenTradesAreOpen(w.desk, w.desk.order);
      M.OpenTradesDistinct(w.desk, w.desk.order);
      PassKeeps(cfg, w, M.OpenTrades(w.desk, w.desk.order), quotes, reasons);
    case Single(id, quote) =>
      if id in w.desk.trades && w.desk.trades[id].state.Open? {
        EvaluationKeeps(cfg, w, id, quote, reasons);
      }
    case Close(id, offered) =>
      if id in w.desk.trades && w.desk.trades[id].state.Open? {
        CloseReport(cfg, w, id, offered, reasons);
      }
    case Emergency(tripped) => NeutralKeeps(cfg, w, With(w, o), [], reasons);
    case Switch(strategy, disable) => NeutralKeeps(cfg, w, With(w, o), o.log, reasons);
  }

  /** One step from agreement leads to agreement exactly when it is safe. */
  lemma StepAgreesExactly(cfg: X.Config, w: World, op: Op, reasons: bool)
    requires Sound(cfg, w) && Possible(w, op)
    ensures Sound(cfg, Step(cfg, w, op))
    ensures Agreement(w, reasons) ==> (Agreement(Step(cfg, w, op), reasons) <==> Safe(w.desk, op, reasons))
  {
    match op
    case Call(call) =>
      CallKeepsSound(cfg, w, call);
      if Agreement(w, reasons) {
        CallAgrees(cfg, w, call, reasons);
      }
    case Manage(m) => ManageKeeps(cfg, w, m, reasons);
  }

  // ---------------------------------------------------------------- whole runs

  lemma {:induction false} RunKeepsSound(cfg: X.Config, ops: seq<Op>)
    requires AllPossible(cfg, ops)
    ensures Sound(cfg, Run(cfg, ops))
    decreases |ops|
  {
    if |ops| == 0 {
      assert PassOne([], Everything) == map[];
    } else {
      RunKeepsSound(cfg, Front(ops));
      StepAgreesExactly(cfg, Run(cfg, Front(ops)), Last(ops), true);
    }
  }

  ghost predicate AlwaysLive(cfg: X.Config, ops: seq<Op>, reasons: bool) {
    LedgerIsLive(Run(cfg, ops), reasons) && (|ops| > 0 ==> AlwaysLive(cfg, Front(ops), reasons))
  }

  predicate AllSafe(cfg: X.Config, ops: seq<Op>, reasons: bool) {
    |ops| > 0 ==> AllSafe(cfg, Front(ops), reasons) && Safe(Run(cfg, Front(ops)).desk, Last(ops), reasons)
  }

  /** The rebuilt ledger is the live state after every step of a run, exit reasons included,
      exactly when every fill report came while the entry was pending (or repeated the fill of
      an open trade) and every entry failure came for a trade that had failed already. But for
      the exit reason of failed entries it is so exactly when the entry failures came for
      trades pending entry or failed. */
  lemma {:induction false} LedgerAlwaysLiveExactly(cfg: X.Config, ops: seq<Op>, reasons: bool)
    requires AllPossible(cfg, ops)
    ensures AlwaysLive(cfg, ops, reasons) <==> AllSafe(cfg, ops, reasons)
    decreases |ops|
  {
    RunKeepsSound(cfg, ops);
    LedgerIsReplay(cfg, Run(cfg, ops), reasons);
    if |ops| > 0 {
      LedgerAlwaysLiveExactly(cfg, Front(ops), reasons);
      var w := Run(cfg, Front(ops));
      RunKeepsSound(cfg, Front(ops));
      LedgerIsReplay(cfg, w, reasons);
      StepAgreesExactly(cfg, w, Last(ops), reasons);
      if AlwaysLive(cfg, Front(ops), reasons) {
        assert LedgerIsLive(w, reasons);
      }
    }
  }

  /** Whatever the run, the ledger has exactly one entry per executed trade, and filtering
      it by strategy and session is restricting it. */
  lemma OneEntryPerTrade(cfg: X.Config, ops: seq<Op>, f: Filter)
    requires AllPossible(cfg, ops)
    ensures TradeLedger(Run(cfg, ops).log, Everything).Keys == Run(cfg, ops).books.trades.Keys
    ensures TradeLedger(Run(cfg, ops).log, f) == Restricted(TradeLedger(Run(cfg, ops).log, Everything), f)
  {
    RunKeepsSound(cfg, ops);
    LedgerIsReplay(cfg, Run(cfg, ops), true);
    FilterIsRestriction(Run(cfg, ops).log, f);
  }

  /** A run of ordinary reports after which the ledger misses an exit reason: the entry of a
      registered trade fails, the store says BROKER_FAILURE and the ledger nothing. */
  lemma FailedEntryHasNoReason(cfg: X.Config, p: X.Proposal, id: Id)
    requires cfg.supportsBracket && p.Valid() && p.quantity > 0
    ensures var ops := Placed(p, X.TermsOf(cfg, p, id)) + [Manage(M.FillFailure(id))];
            var w := Run(cfg, ops);
            && AllPossible(cfg, ops) && AlwaysLive(cfg, ops, false) && !AlwaysLive(cfg, ops, true)
            && id in w.desk.trades && w.desk.trades[id].exitReason == Some(BrokerFailure)
            && id in TradeLedger(w.log, Everything) && TradeLedger(w.log, Everything)[id].exitReason == None
  {
    var placed, fails := Placed(p, X.TermsOf(cfg, p, id)), Manage(M.FillFailure(id));
    PlacedIsPending(cfg, p, id, false);
    PlacedIsPending(cfg, p, id, true);
    OneMore(cfg, placed, fails, false);
    OneMore(cfg, placed, fails, true);
    LedgerAlwaysLiveExactly(cfg, placed + [fails], false);
    LedgerAlwaysLiveExactly(cfg, placed + [fails], true);
    RunKeepsSound(cfg, placed + [fails]);
    LedgerIsReplay(cfg, Run(cfg, placed + [fails]), false);
    assert LedgerIsLive(Run(cfg, placed + [fails]), false);
    assert SoundTrade(Run(cfg, placed + [fails]), id);
  }

  // ---------------------------------------------------------------- executing twice

  /** The calls one request to execute a proposal makes once its trade exists: execute,
      register, report the entry filled at the planned price. */
  function ExecuteAgain(w: World, p: X.Proposal, trade: Terms, flatAt: Option<int>, maxHolding: Option<int>, now: int, newId: Id): seq<Op> {
    [Call(X.Execute(p, true, None, newId)), Manage(M.Registration(trade, flatAt, maxHolding)), Manage(M.Fill(trade.trade, trade.entry, now))]
  }

  /** Asking again to execute a proposal whose trade has ended returns the old record, yet
      the fill report it logs makes the ledger show the ended trade as open. */
  lemma ExecutingAgainReopensTheLedger(cfg: X.Config, w: World, p: X.Proposal, flatAt: Option<int>, maxHolding: Option<int>, now: int, newId: Id, reasons: bool)
    requires Sound(cfg, w) && Agreement(w, reasons) && p.id in w.books.byProposal
    requires w.books.byProposal[p.id] in w.desk.trades
    requires w.desk.trades[w.books.byProposal[p.id]].state.Closed?
    requires (maxHolding.Some? ==> maxHolding.value > 0) && newId !in w.books.trades
    ensures var id := w.books.byProposal[p.id];
            var ops := ExecuteAgain(w, p, w.books.trades[id].terms, flatAt, maxHolding, now, newId);
            var after := Step(cfg, Step(cfg, Step(cfg, w, ops[0]), ops[1]), ops[2]);
            && after.books == w.books && after.desk.trades[id].state.Closed?
            && id in TradeLedger(after.log, Everything) && TradeLedger(after.log, Everything)[id].status == OpenTrade
            && !LedgerIsLive(after, reasons)
  {
    var id := w.books.byProposal[p.id];
    assert SoundTrade(w, id) && X.Inverse(w.books);
    var terms := w.books.trades[id].terms;
    var ops := ExecuteAgain(w, p, terms, flatAt, maxHolding, now, newId);
    SecondExecuteIsIdle(cfg, w, p, newId);
    SecondRegistrationIsIdle(cfg, w, terms, flatAt, maxHolding);
    hide Sound, Agreement, LedgerIsLive, SoundTrade, SafeFill;
    var after := Step(cfg, w, ops[2]);
    assert after == With(w, M.MarkEntryFilled(w.desk, id, terms.entry, now));
    assert !SafeFill(w.desk.trades[id], terms.entry) by {
      ClosedIsNotFillable(w.desk.trades[id], terms.entry);
    }
    FillReport(cfg, w, id, terms.entry, now, reasons);
    LedgerIsReplay(cfg, after, reasons);
    FillReopens(w.log, after.log, id, terms.entry, w.desk.trades[id].entrySlippage);
  }

  lemma ClosedIsNotFillable(t: M.Intraday, price: real)
    requires t.state.Closed?
    ensures !SafeFill(t, price)
  {
  }

  lemma SecondExecuteIsIdle(cfg: X.Config, w: World, p: X.Proposal, newId: Id)
    requires p.id in w.books.byProposal && w.books.byProposal[p.id] in w.books.trades
    ensures Step(cfg, w, Call(X.Execute(p, true, None, newId))) == w
  {
    hide X.Gate;
    assert w.log + [] == w.log;
  }

  lemma SecondRegistrationIsIdle(cfg: X.Config, w: World, terms: Terms, flatAt: Option<int>, maxHolding: Option<int>)
    requires terms.trade in w.desk.trades
    ensures Step(cfg, w, Manage(M.Registration(terms, flatAt, maxHolding))) == w
  {
    assert w.log + [] == w.log;
  }

  lemma FillReopens(before: seq<Record>, after: seq<Record>, id: Id, price: real, slippage: Option<real>)
    requires after == before + [EntryFilled(id, price, slippage)] && id in TradeLedger(after, Everything)
    ensures TradeLedger(after, Everything)[id].status == OpenTrade
  {
    hide PassOne;
    SnocFront(before, EntryFilled(id, price, slippage));
    PassTwoAt(PassOne(after, Everything), after);
    PassTwoAt(PassOne(after, Everything), before);
  }

  lemma OneMore(cfg: X.Config, ops: seq<Op>, op: Op, reasons: bool)
    ensures Run(cfg, ops + [op]) == Step(cfg, Run(cfg, ops), op)
    ensures AllPossible(cfg, ops + [op]) <==> AllPossible(cfg, ops) && Possible(Run(cfg, ops), op)
    ensures AllSafe(cfg, ops + [op], reasons) <==> AllSafe(cfg, ops, reasons) && Safe(Run(cfg, ops).desk, op, reasons)
  {
    SnocFront(ops, op);
  }

  /** A run that places `p`: added, executed, registered. */
  function Placed(p: X.Proposal, trade: Terms): seq<Op> {
    [] + [Call(X.Add(p))] + [Call(X.Execute(p, true, None, trade.trade))] + [Manage(M.Registration(trade, None, None))]
  }

  lemma PlacedIsPending(cfg: X.Config, p: X.Proposal, id: Id, reasons: bool)
    requires cfg.supportsBracket && p.Valid() && p.quantity > 0
    ensures var ops := Placed(p, X.TermsOf(cfg, p, id));
            && AllPossible(cfg, ops) && AllSafe(cfg, ops, reasons)
            && id in Run(cfg, ops).desk.trades
            && Run(cfg, ops).desk.trades[id] == M.Registered(X.TermsOf(cfg, p, id), None, None)
  {
    var terms := X.TermsOf(cfg, p, id);
    var one := [] + [Call(X.Add(p))];
    var two := one + [Call(X.Execute(p, true, None, id))];
    OneMore(cfg, [], Call(X.Add(p)), reasons);
    OneMore(cfg, one, Call(X.Execute(p, true, None, id)), reasons);
    OneMore(cfg, two, Manage(M.Registration(terms, None, None)), reasons);
    var b := Run(cfg, one).books;
    assert b == X.Step(cfg, X.EmptyBooks, X.Add(p)).0;
    assert X.SessionTrades(b.trades, p.strategy, p.session) == {};
    assert X.Gate(cfg, b, p, true, None) == None;
  }

  /** The run of one request that trades `p`: placed and filled. */
  function Traded(p: X.Proposal, trade: Terms, now: int): seq<Op> {
    Placed(p, trade) + [Manage(M.Fill(trade.trade, trade.entry, now))]
  }

  lemma TradedIsOpen(cfg: X.Config, p: X.Proposal, id: Id, now: int, reasons: bool)
    requires cfg.supportsBracket && p.Valid() && p.quantity > 0
    ensures var ops := Traded(p, X.TermsOf(cfg, p, id), now);
            && AllPossible(cfg, ops) && AllSafe(cfg, ops, reasons)
            && id in Run(cfg, ops).desk.trades && Run(cfg, ops).desk.trades[id].state.Open?
  {
    PlacedIsPending(cfg, p, id, reasons);
    OneMore(cfg, Placed(p, X.TermsOf(cfg, p, id)), Manage(M.Fill(id, p.entry, now)), reasons);
  }

  /** A run in which the ledger does not stay live: the trade is closed by hand and its
      proposal is then executed again. */
  lemma LedgerGoesStale(cfg: X.Config, p: X.Proposal, id: Id, price: real, now: int, reasons: bool)
    requires cfg.supportsBracket && p.Valid() && p.quantity > 0
    ensures var ops := Traded(p, X.TermsOf(cfg, p, id), now) + [Manage(M.Close(id, Some(price)))] + [Manage(M.Fill(id, p.entry, now))];
            AllPossible(cfg, ops) && !AlwaysLive(cfg, ops, reasons)
  {
    var ops := Traded(p, X.TermsOf(cfg, p, id), now);
    TradedIsOpen(cfg, p, id, now, reasons);
    OneMore(cfg, ops, Manage(M.Close(id, Some(price))), reasons);
    OneMore(cfg, ops + [Manage(M.Close(id, Some(price)))], Manage(M.Fill(id, p.entry, now)), reasons);
    LedgerAlwaysLiveExactly(cfg, ops + [Manage(M.Close(id, Some(price)))] + [Manage(M.Fill(id, p.entry, now))], reasons);
  }

  // ---------------------------------------------------------------- proposals

  /** The proposal ledger knows every stored proposal, its status and its trade. */
  ghost predicate ProposalsAreLive(b: X.Books, m: map<Id, ProposalEvidence>) {
    && m.Keys == b.proposals.Keys && b.byProposal.Keys <= b.proposals.Keys
    && forall id :: id in m ==>
                      && m[id].status == b.proposals[id].status
                      && m[id].trade == if id in b.byProposal then Some(b.byProposal[id]) else None
  }

  predicate SoundStore(b: X.Books) {
    forall id :: id in b.proposals ==> b.proposals[id].id == id
  }

  /** The manager never writes about proposals. */
  lemma {:induction false} PassLogsNoProposals(d: M.Desk, ids: seq<Id>, quotes: Id -> M.Quote)
    ensures forall i :: 0 <= i < |M.EvaluateEach(d, ids, quotes).log| ==> !M.EvaluateEach(d, ids, quotes).log[i].ProposalLogged?
    decreases |ids|
  {
    if |ids| > 0 {
      PassLogsNoProposals(d, Front(ids), quotes);
    }
  }

  lemma ManagerLogsNoProposals(d: M.Desk, op: M.Op)
    ensures forall i :: 0 <= i < |M.Step(d, op).log| ==> !M.Step(d, op).log[i].ProposalLogged?
  {
    if op.Pass? {
      PassLogsNoProposals(d, M.OpenTrades(d, d.order), op.quotes);
    }
  }

  predicate SilentCall(b: X.Books, after: X.Books, more: seq<Record>) {
    && after.byProposal == b.byProposal && after.proposals.Keys == b.proposals.Keys
    && (forall id :: id in b.proposals ==> after.proposals[id].status == b.proposals[id].status)
    && forall i :: 0 <= i < |more| ==> !more[i].ProposalLogged?
  }

  /** The call moved one proposal and its first record says where. */
  predicate NotedCall(b: X.Books, after: X.Books, more: seq<Record>) {
    && |more| > 0 && more[0].ProposalLogged? && more[0].proposal in after.proposals
    && after.proposals == b.proposals[more[0].proposal := after.proposals[more[0].proposal]]
    && after.proposals[more[0].proposal].status == more[0].status
    && after.byProposal == (if more[0].executedAs.Some? then b.byProposal[more[0].proposal := more[0].executedAs.value] else b.byProposal)
    && forall i :: 0 < i < |more| ==> !more[i].ProposalLogged?
  }

  lemma CallShape(cfg: X.Config, b: X.Books, call: X.Call)
    requires SoundStore(b)
    ensures var (after, more) := X.Step(cfg, b, call);
            SoundStore(after) && (SilentCall(b, after, more) || NotedCall(b, after, more))
  {
  }

  lemma NotedKeepsProposals(b: X.Books, after: X.Books, log: seq<Record>, more: seq<Record>)
    requires NotedCall(b, after, more) && ProposalsAreLive(b, ProposalLedger(log, Everything))
    ensures ProposalsAreLive(after, ProposalLedger(log + more, Everything))
  {
    assert more == [more[0]] + more[1..];
    ProposalLedgerNotes(log, more[0], more[1..]);
  }

  lemma CallKeepsProposals(cfg: X.Config, b: X.Books, log: seq<Record>, call: X.Call)
    requires SoundStore(b) && ProposalsAreLive(b, ProposalLedger(log, Everything))
    ensures var (after, more) := X.Step(cfg, b, call);
            SoundStore(after) && ProposalsAreLive(after, ProposalLedger(log + more, Everything))
  {
    var (after, more) := X.Step(cfg, b, call);
    CallShape(cfg, b, call);
    if NotedCall(b, after, more) {
      NotedKeepsProposals(b, after, log, more);
    } else {
      ProposalLedgerSkips(log, more);
    }
  }

  /** In every run, safe or not, the proposal ledger rebuilt from the log gives each stored
      proposal its current status and the trade it was executed as. */
  lemma {:induction false} ProposalLedgerIsLive(cfg: X.Config, ops: seq<Op>)
    requires AllPossible(cfg, ops)
    ensures SoundStore(Run(cfg, ops).books)
    ensures ProposalsAreLive(Run(cfg, ops).books, ProposalLedger(Run(cfg, ops).log, Everything))
    decreases |ops|
  {
    if |ops| > 0 {
      ProposalLedgerIsLive(cfg, Front(ops));
      var w := Run(cfg, Front(ops));
      match Last(ops)
      case Call(call) => CallKeepsProposals(cfg, w.books, w.log, call);
      case Manage(m) =>
        ManagerLogsNoProposals(w.desk, m);
        ProposalLedgerSkips(w.log, M.Step(w.desk, m).log);
    }
  }
}
