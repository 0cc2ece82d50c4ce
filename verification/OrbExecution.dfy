/** Proposals and the paper executor: which calls become trades, with what protection, and
    how the store, the index and the log stay together. */
module OrbExecution {
  import opened Common
  import opened OrbAudit

  // ---------------------------------------------------------------- data

  datatype Proposal = Proposal(
    id: Id,
    strategy: string,
    session: string,
    symbol: string,
    quantity: int,
    entry: real,
    stop: real,
    target: real,
    status: ProposalStatus,
    recommendOnly: bool,
    limitOrder: bool,
    long: bool)
  {
    /** The re-validation of a pre-built card. */
    predicate Valid() {
      && recommendOnly && limitOrder && long && status.Pending?
      && stop > 0.0 && entry > 0.0 && target > 0.0 && stop < entry < target
    }
  }

  datatype Role = EntryOrder | StopOrder | TargetOrder

  datatype OrderType = Limit | StopType

  datatype Order = Order(id: nat, role: Role, buy: bool, kind: OrderType, quantity: int, price: real)

  datatype TradeRecord = TradeRecord(terms: Terms, orders: seq<Order>)

  datatype Config = Config(supportsBracket: bool, allowFallback: bool, sessionCap: int)

  datatype Books = Books(
    proposals: map<Id, Proposal>,
    trades: map<Id, TradeRecord>,
    byProposal: map<Id, Id>,
    emergency: bool,
    orderSeq: nat)

  datatype Refusal = Blocked(reason: BlockReason) | StoreRefused | UnknownProposal | WrongStatus | Invalid

  const EmptyBooks: Books := Books(map[], map[], map[], false, 0)

  // ---------------------------------------------------------------- one call

  function Cap(cfg: Config, override: Option<int>): int {
    if override.Some? then AtLeastOne(override.value) else AtLeastOne(cfg.sessionCap)
  }

  function AtLeastOne(n: int): (m: int)
    ensures m >= 1 && m >= n
  {
    if n >= 1 then n else 1
  }

  function SessionTrades(trades: map<Id, TradeRecord>, strategy: string, session: string): set<Id> {
    set t | t in trades && trades[t].terms.strategy == strategy && trades[t].terms.session == session
  }

  /** The first gate that stops a call for a proposal without a trade, if any does. */
  function Gate(cfg: Config, b: Books, p: Proposal, paper: bool, override: Option<int>): Option<BlockReason> {
    if !paper then Some(UnsupportedMode)
    else if b.emergency then Some(EmergencyBlock)
    else if !p.Valid() || p.quantity <= 0 then Some(NotExecutable)
    else if |SessionTrades(b.trades, p.strategy, p.session)| >= Cap(cfg, override) then Some(CapConsumed)
    else if !cfg.supportsBracket && !cfg.allowFallback then Some(MissingProtection)
    else if p.id !in b.proposals || !b.proposals[p.id].status.Pending? then Some(NotExecutable)
    else None
  }

  function TermsOf(cfg: Config, p: Proposal, trade: Id): Terms {
    Terms(trade, p.id, p.strategy, p.session, p.symbol, p.quantity, p.entry, p.stop, p.target,
          if cfg.supportsBracket then BracketConfirmed else ExitManagerFallback)
  }

  function Orders(cfg: Config, p: Proposal, first: nat): seq<Order> {
    var entry := Order(first, EntryOrder, true, Limit, p.quantity, p.entry);
    if cfg.supportsBracket
    then [entry, Order(first + 1, StopOrder, false, StopType, p.quantity, p.stop),
          Order(first + 2, TargetOrder, false, Limit, p.quantity, p.target)]
    else [entry]
  }

  function Logged(p: Proposal, executedAs: Option<Id>): Record {
    ProposalLogged(p.id, p.strategy, p.session, p.status, executedAs)
  }

  datatype Outcome = Outcome(books: Books, log: seq<Record>, result: Result<TradeRecord, Refusal>)

  /** `execute_paper`; `newId` is the identifier a new trade would get. */
  function ExecutePaper(cfg: Config, b: Books, p: Proposal, paper: bool, override: Option<int>, newId: Id): Outcome {
    if p.id in b.byProposal && b.byProposal[p.id] in b.trades then Outcome(b, [], Ok(b.trades[b.byProposal[p.id]]))
    else
      match Gate(cfg, b, p, paper, override)
      case Some(reason) => Outcome(b, [PaperRejected(p.id, p.strategy, p.session, reason)], Err(Blocked(reason)))
      case None =>
        var stored := b.proposals[p.id].(status := Executed);
        var trade := TradeRecord(TermsOf(cfg, p, newId), Orders(cfg, p, b.orderSeq));
        Outcome(Books(b.proposals[p.id := stored], b.trades[newId := trade], b.byProposal[p.id := newId], b.emergency,
                      b.orderSeq + |trade.orders|),
                [Logged(stored, Some(newId)), PaperExecuted(trade.terms)],
                Ok(trade))
  }

  datatype Change = Change(proposals: map<Id, Proposal>, log: seq<Record>, result: Result<Proposal, Refusal>)

  function AddTo(proposals: map<Id, Proposal>, p: Proposal): Change {
    if !p.Valid() then Change(proposals, [], Err(Invalid))
    else Change(proposals[p.id := p], [Logged(p, None)], Ok(p))
  }

  function SkipIn(proposals: map<Id, Proposal>, id: Id): Change {
    if id !in proposals then Change(proposals, [], Err(UnknownProposal))
    else
      var p := proposals[id];
      var q := p.(status := Skipped);
      if !p.status.Pending? && !p.status.Skipped? then Change(proposals, [], Err(WrongStatus))
      else Change(proposals[id := q], if p.status.Skipped? then [] else [Logged(q, None)], Ok(q))
  }

  function ExpireIn(proposals: map<Id, Proposal>, id: Id): Change {
    if id !in proposals then Change(proposals, [], Err(UnknownProposal))
    else
      var p := proposals[id];
      var q := p.(status := Expired);
      if !p.status.Pending? && !p.status.Expired? then Change(proposals, [], Err(WrongStatus))
      else Change(proposals[id := q], [Logged(q, None)], Ok(q))
  }

  // ---------------------------------------------------------------- the objects

  class ORBProposalStore {
    const audit: AuditLogger
    var proposals: map<Id, Proposal>

    constructor (audit: AuditLogger)
      ensures this.audit == audit && proposals == map[]
    {
      this.audit := audit;
      proposals := map[];
    }

    method Add(p: Proposal) returns (r: Result<Proposal, Refusal>)
      modifies this, audit
      ensures var c := AddTo(old(proposals), p);
              proposals == c.proposals && audit.records == old(audit.records) + c.log && r == c.result
    {
      if !p.Valid() {
        return Err(Invalid);
      }
      proposals := proposals[p.id := p];
      audit.LogDecision(Logged(p, None));
      r := Ok(p);
    }

    method Skip(id: Id) returns (r: Result<Proposal, Refusal>)
      modifies this, audit
      ensures var c := SkipIn(old(proposals), id);
              proposals == c.proposals && audit.records == old(audit.records) + c.log && r == c.result
    {
      if id !in proposals {
        return Err(UnknownProposal);
      }
      var p := proposals[id];
      if !p.status.Pending? && !p.status.Skipped? {
        return Err(WrongStatus);
      }
      var firstTransition := !p.status.Skipped?;
      var q := p.(status := Skipped);
      proposals := proposals[id := q];
      if firstTransition {
        audit.LogDecision(Logged(q, None));
      }
      r := Ok(q);
    }

    method Expire(id: Id) returns (r: Result<Proposal, Refusal>)
      modifies this, audit
      ensures var c := ExpireIn(old(proposals), id);
              proposals == c.proposals && audit.records == old(audit.records) + c.log && r == c.result
    {
      if id !in proposals {
        return Err(UnknownProposal);
      }
      var p := proposals[id];
      if !p.status.Pending? && !p.status.Expired? {
        return Err(WrongStatus);
      }
      var q := p.(status := Expired);
      proposals := proposals[id := q];
      audit.LogDecision(Logged(q, None));
      r := Ok(q);
    }

    method MarkExecuted(id: Id, trade: Id) returns (ok: bool)
      modifies this, audit
      ensures ok <==> id in old(proposals) && old(proposals)[id].status.Pending?
      ensures ok ==> proposals == old(proposals)[id := old(proposals)[id].(status := Executed)]
                     && audit.records == old(audit.records) + [Logged(proposals[id], Some(trade))]
      ensures !ok ==> proposals == old(proposals) && audit.records == old(audit.records)
    {
      if id !in proposals || !proposals[id].status.Pending? {
        return false;
      }
      proposals := proposals[id := proposals[id].(status := Executed)];
      audit.LogDecision(Logged(proposals[id], Some(trade)));
      ok := true;
    }
  }

  class ORBPaperExecutor {
    const cfg: Config
    const store: ORBProposalStore
    const audit: AuditLogger
    var trades: map<Id, TradeRecord>
    var byProposal: map<Id, Id>
    var emergency: bool
    var orderSeq: nat

    ghost function View(): Books
      reads this, store
    {
      Books(store.proposals, trades, byProposal, emergency, orderSeq)
    }

    constructor (cfg: Config, store: ORBProposalStore)
      ensures this.cfg == cfg && this.store == store && audit == store.audit
      ensures View() == EmptyBooks.(proposals := store.proposals)
    {
      this.cfg, this.store, audit := cfg, store, store.audit;
      trades, byProposal, emergency, orderSeq := map[], map[], false, 0;
    }

    method SetEmergencyStop(tripped: bool)
      modifies this`emergency
      ensures View() == old(View()).(emergency := tripped)
    {
      emergency := tripped;
    }

    method LogReject(p: Proposal, reason: BlockReason)
      requires audit == store.audit
      modifies audit
      ensures audit.records == old(audit.records) + [PaperRejected(p.id, p.strategy, p.session, reason)]
    {
      audit.LogDecision(PaperRejected(p.id, p.strategy, p.session, reason));
    }

    /** Protective orders for a proposal: a bracket, or under the fallback the entry only. */
    method Protect(p: Proposal) returns (orders: seq<Order>)
      requires cfg.supportsBracket || cfg.allowFallback
      modifies this`orderSeq
      ensures orders == Orders(cfg, p, old(orderSeq)) && orderSeq == old(orderSeq) + |orders|
    {
      orders := [Order(orderSeq, EntryOrder, true, Limit, p.quantity, p.entry)];
      orderSeq := orderSeq + 1;
      if cfg.supportsBracket {
        orders := orders + [Order(orderSeq, StopOrder, false, StopType, p.quantity, p.stop)];
        orderSeq := orderSeq + 1;
        orders := orders + [Order(orderSeq, TargetOrder, false, Limit, p.quantity, p.target)];
        orderSeq := orderSeq + 1;
      }
    }

    method Execute(p: Proposal, paper: bool, override: Option<int>, newId: Id) returns (r: Result<TradeRecord, Refusal>)
      requires audit == store.audit
      modifies this, store, audit
      ensures var o := ExecutePaper(cfg, old(View()), p, paper, override, newId);
              View() == o.books && audit.records == old(audit.records) + o.log && r == o.result
    {
      if p.id in byProposal && byProposal[p.id] in trades {
        return Ok(trades[byProposal[p.id]]);
      }
      if !paper {
        LogReject(p, UnsupportedMode);
        return Err(Blocked(UnsupportedMode));
      }
      if emergency {
        LogReject(p, EmergencyBlock);
        return Err(Blocked(EmergencyBlock));
      }
      if !p.Valid() {
        LogReject(p, NotExecutable);
        return Err(Blocked(NotExecutable));
      }
      if p.quantity <= 0 {
        LogReject(p, NotExecutable);
        return Err(Blocked(NotExecutable));
      }
      var consumed := |SessionTrades(trades, p.strategy, p.session)|;
      if consumed >= Cap(cfg, override) {
        LogReject(p, CapConsumed);
        return Err(Blocked(CapConsumed));
      }
      if !cfg.supportsBracket && !cfg.allowFallback {
        LogReject(p, MissingProtection);
        return Err(Blocked(MissingProtection));
      }
      var committed := store.MarkExecuted(p.id, newId);
      if !committed {
        LogReject(p, NotExecutable);
        return Err(Blocked(NotExecutable));
      }
      var orders := Protect(p);
      var trade := TradeRecord(TermsOf(cfg, p, newId), orders);
      trades := trades[newId := trade];
      byProposal := byProposal[p.id := newId];
      audit.LogDecision(PaperExecuted(trade.terms));
      r := Ok(trade);
    }
  }

  // ---------------------------------------------------------------- runs

  datatype Call =
    | Add(card: Proposal)
    | Skip(id: Id)
    | Expire(id: Id)
    | Execute(p: Proposal, paper: bool, override: Option<int>, newId: Id)
    | EmergencyStop(tripped: bool)

  function Step(cfg: Config, b: Books, c: Call): (Books, seq<Record>) {
    match c
    case Add(card) => var o := AddTo(b.proposals, card); (b.(proposals := o.proposals), o.log)
    case Skip(id) => var o := SkipIn(b.proposals, id); (b.(proposals := o.proposals), o.log)
    case Expire(id) => var o := ExpireIn(b.proposals, id); (b.(proposals := o.proposals), o.log)
    case Execute(p, paper, override, newId) =>
      var o := ExecutePaper(cfg, b, p, paper, override, newId); (o.books, o.log)
    case EmergencyStop(tripped) => (b.(emergency := tripped), [])
  }

  function Run(cfg: Config, b: Books, calls: seq<Call>): Books {
    if |calls| == 0 then b else Step(cfg, Run(cfg, b, Front(calls)), Last(calls)).0
  }

  /** New identifiers are minted at random; none is minted twice. */
  predicate Minted(b: Books, c: Call) {
    c.Execute? ==> c.newId !in b.trades
  }

  predicate AllMinted(cfg: Config, b: Books, calls: seq<Call>) {
    |calls| > 0 ==> AllMinted(cfg, b, Front(calls)) && Minted(Run(cfg, b, Front(calls)), Last(calls))
  }

  // ---------------------------------------------------------------- the two indexes

  /** A native bracket: a buy limit with a sell stop below and a sell limit above, all for
      the trade's whole quantity. */
  predicate FullBracket(t: TradeRecord) {
    && |t.orders| == 3
    && t.orders[0] == Order(t.orders[0].id, EntryOrder, true, Limit, t.terms.quantity, t.terms.entry)
    && t.orders[1] == Order(t.orders[1].id, StopOrder, false, StopType, t.terms.quantity, t.terms.stop)
    && t.orders[2] == Order(t.orders[2].id, TargetOrder, false, Limit, t.terms.quantity, t.terms.target)
    && t.orders[0].id < t.orders[1].id < t.orders[2].id
  }

  predicate EntryOnly(t: TradeRecord) {
    |t.orders| == 1 && t.orders[0] == Order(t.orders[0].id, EntryOrder, true, Limit, t.terms.quantity, t.terms.entry)
  }

  /** Never a naked entry, unless the fallback was configured and no bracket was to be had. */
  predicate Protected(cfg: Config, t: TradeRecord) {
    && t.terms.quantity > 0 && 0.0 < t.terms.stop < t.terms.entry < t.terms.target
    && (match t.terms.protection
        case BracketConfirmed => cfg.supportsBracket && FullBracket(t)
        case ExitManagerFallback => !cfg.supportsBracket && cfg.allowFallback && EntryOnly(t))
  }

  ghost predicate Inverse(b: Books) {
    && (forall p :: p in b.byProposal ==> b.byProposal[p] in b.trades && b.trades[b.byProposal[p]].terms.proposal == p)
    && (forall t :: t in b.trades ==>
                      && b.trades[t].terms.trade == t
                      && b.trades[t].terms.proposal in b.byProposal && b.byProposal[b.trades[t].terms.proposal] == t)
  }

  ghost predicate Sound(cfg: Config, b: Books) {
    && Inverse(b)
    && (forall t :: t in b.trades ==> Protected(cfg, b.trades[t]))
    && (forall p :: p in b.byProposal ==> p in b.proposals)
    && (forall p :: p in b.proposals && b.proposals[p].status.Executed? ==> p in b.byProposal)
  }

  lemma ExecuteKeepsSound(cfg: Config, b: Books, p: Proposal, paper: bool, override: Option<int>, newId: Id)
    requires Sound(cfg, b) && newId !in b.trades
    ensures Sound(cfg, ExecutePaper(cfg, b, p, paper, override, newId).books)
  {
  }

  lemma StepKeepsSound(cfg: Config, b: Books, c: Call)
    requires Sound(cfg, b) && Minted(b, c)
    ensures Sound(cfg, Step(cfg, b, c).0)
  {
    if c.Execute? {
      ExecuteKeepsSound(cfg, b, c.p, c.paper, c.override, c.newId);
    }
  }

  /** In every run the proposal index and the trade map are inverse to each other, every
      trade is protected, and whatever the store calls EXECUTED has a trade. */
  lemma {:induction false} RunKeepsSound(cfg: Config, calls: seq<Call>)
    requires AllMinted(cfg, EmptyBooks, calls)
    ensures Sound(cfg, Run(cfg, EmptyBooks, calls))
    decreases |calls|
  {
    if |calls| > 0 {
      RunKeepsSound(cfg, Front(calls));
      StepKeepsSound(cfg, Run(cfg, EmptyBooks, Front(calls)), Last(calls));
    }
  }

  // ---------------------------------------------------------------- refusal and repetition

  /** A refused call changes neither the index nor the store and writes one rejection. */
  lemma RefusalChangesNothing(cfg: Config, b: Books, p: Proposal, paper: bool, override: Option<int>, newId: Id)
    ensures var o := ExecutePaper(cfg, b, p, paper, override, newId);
            o.result.Err? ==> o.books == b && |o.log| == 1 && o.log[0].PaperRejected? && o.log[0].proposal == p.id
  {
  }

  /** A call makes a trade only in paper mode with no emergency stop, for a valid card the
      store holds as pending, under the session cap; and then it changes just that trade,
      that index entry and that card's status. */
  lemma NewTradeOnlyWhenSafe(cfg: Config, b: Books, p: Proposal, paper: bool, override: Option<int>, newId: Id)
    requires Sound(cfg, b) && newId !in b.trades
    ensures var o := ExecutePaper(cfg, b, p, paper, override, newId);
            newId in o.books.trades <==>
              && p.id !in b.byProposal && paper && !b.emergency && p.Valid() && p.quantity > 0
              && |SessionTrades(b.trades, p.strategy, p.session)| < Cap(cfg, override)
              && (cfg.supportsBracket || cfg.allowFallback)
              && p.id in b.proposals && b.proposals[p.id].status.Pending?
    ensures var o := ExecutePaper(cfg, b, p, paper, override, newId);
            newId in o.books.trades ==>
              && o.books.trades - {newId} == b.trades && o.books.byProposal - {p.id} == b.byProposal
              && o.books.proposals - {p.id} == b.proposals - {p.id} && o.books.proposals[p.id].status.Executed?
              && o.result == Ok(o.books.trades[newId]) && PaperExecuted(o.books.trades[newId].terms) in o.log
  {
    var o := ExecutePaper(cfg, b, p, paper, override, newId);
    if newId in o.books.trades {
      assert o.log[1] == PaperExecuted(o.books.trades[newId].terms);
    }
  }

  /** A pending recommend-only limit card to buy, with stop below entry below target. */
  predicate Executable(p: Proposal) {
    && p.recommendOnly && p.limitOrder && p.long && p.status == Pending
    && 0.0 < p.stop && p.stop < p.entry && p.entry < p.target && 0 < p.quantity
  }

  /** The session of the card holds no trade, or fewer than configured; a number given with the
      call takes the place of the configured one. */
  predicate HasRoom(cfg: Config, b: Books, p: Proposal, override: Option<int>) {
    var held := |set t | t in b.trades && b.trades[t].terms.strategy == p.strategy && b.trades[t].terms.session == p.session|;
    held < 1 || (match override case Some(n) => held < n case None => held < cfg.sessionCap)
  }

  /** Which gate refuses a card without a trade: the mode, the emergency stop, the card itself,
      the session's number of trades, missing protection and the store, in this order. */
  lemma RefusedExactly(cfg: Config, b: Books, p: Proposal, paper: bool, override: Option<int>, newId: Id)
    requires Sound(cfg, b)
    ensures var r := ExecutePaper(cfg, b, p, paper, override, newId).result;
            var (untraded, room) := (p.id !in b.byProposal, HasRoom(cfg, b, p, override));
            var protected := cfg.supportsBracket || cfg.allowFallback;
            var stored := p.id in b.proposals && b.proposals[p.id].status == Pending;
            && (r == Err(Blocked(UnsupportedMode)) <==> untraded && !paper)
            && (r == Err(Blocked(EmergencyBlock)) <==> untraded && paper && b.emergency)
            && (r == Err(Blocked(CapConsumed)) <==> untraded && paper && !b.emergency && Executable(p) && !room)
            && (r == Err(Blocked(MissingProtection)) <==> untraded && paper && !b.emergency && Executable(p) && room && !protected)
            && (r == Err(Blocked(NotExecutable)) <==>
                  untraded && paper && !b.emergency && (!Executable(p) || (room && protected && !stored)))
            && (r.Ok? <==> !untraded || (paper && !b.emergency && Executable(p) && room && protected && stored))
  {
    RoomExactly(cfg, b, p, override);
    hide Cap, HasRoom;
  }

  lemma RoomExactly(cfg: Config, b: Books, p: Proposal, override: Option<int>)
    ensures HasRoom(cfg, b, p, override) <==> |SessionTrades(b.trades, p.strategy, p.session)| < Cap(cfg, override)
  {
    assert SessionTrades(b.trades, p.strategy, p.session)
        == set t | t in b.trades && b.trades[t].terms.strategy == p.strategy && b.trades[t].terms.session == p.session;
  }

  /** What a new trade is: the card's own terms under the new identifier, protected by a bracket
      where there is one, and logged as the proposal's execution and the trade's. */
  lemma NewTradeExactly(cfg: Config, b: Books, p: Proposal, paper: bool, override: Option<int>, newId: Id)
    requires Sound(cfg, b) && newId !in b.trades && newId in ExecutePaper(cfg, b, p, paper, override, newId).books.trades
    ensures var o := ExecutePaper(cfg, b, p, paper, override, newId);
            var terms := o.books.trades[newId].terms;
            && (terms.trade, terms.proposal, terms.strategy, terms.session, terms.symbol) == (newId, p.id, p.strategy, p.session, p.symbol)
            && (terms.quantity, terms.entry, terms.stop, terms.target) == (p.quantity, p.entry, p.stop, p.target)
            && (terms.protection == BracketConfirmed <==> cfg.supportsBracket)
            && p.id in b.proposals
            && (var stored := b.proposals[p.id];
                o.log == [ProposalLogged(stored.id, stored.strategy, stored.session, Executed, Some(newId)), PaperExecuted(terms)])
            && p.id in o.books.byProposal && o.books.byProposal[p.id] == newId
            && o.books.emergency == b.emergency
            && o.books.proposals == b.proposals[p.id := b.proposals[p.id].(status := Executed)]
  {
  }

  /** The three ways the store is asked, and what each of them files and logs. */
  lemma StoreExactly(proposals: map<Id, Proposal>, p: Proposal, id: Id)
    ensures var c := AddTo(proposals, p);
            if p.recommendOnly && p.limitOrder && p.long && p.status == Pending && 0.0 < p.stop && p.stop < p.entry && p.entry < p.target
            then c == Change(proposals[p.id := p], [ProposalLogged(p.id, p.strategy, p.session, Pending, None)], Ok(p))
            else c == Change(proposals, [], Err(Invalid))
    ensures var c := SkipIn(proposals, id);
            && (id !in proposals ==> c == Change(proposals, [], Err(UnknownProposal)))
            && (id in proposals && proposals[id].status in {Pending, Skipped} ==>
                  && c.result.Ok? && c.proposals == proposals[id := proposals[id].(status := Skipped)]
                  && c.log == if proposals[id].status == Skipped then []
                              else [ProposalLogged(proposals[id].id, proposals[id].strategy, proposals[id].session, Skipped, None)])
            && (id in proposals && proposals[id].status !in {Pending, Skipped} ==> c == Change(proposals, [], Err(WrongStatus)))
    ensures var c := ExpireIn(proposals, id);
            && (id !in proposals ==> c == Change(proposals, [], Err(UnknownProposal)))
            && (id in proposals && proposals[id].status in {Pending, Expired} ==>
                  && c.result.Ok? && c.proposals == proposals[id := proposals[id].(status := Expired)]
                  && c.log == [ProposalLogged(proposals[id].id, proposals[id].strategy, proposals[id].session, Expired, None)])
            && (id in proposals && proposals[id].status !in {Pending, Expired} ==> c == Change(proposals, [], Err(WrongStatus)))
  {
  }

  /** Nothing is dropped from or changed in the trade map and the index. */
  ghost predicate Extends(b: Books, later: Books) {
    && (forall t :: t in b.trades ==> t in later.trades && later.trades[t] == b.trades[t])
    && (forall p :: p in b.byProposal ==> p in later.byProposal && later.byProposal[p] == b.byProposal[p])
  }

  lemma StepExtends(cfg: Config, b: Books, c: Call)
    requires Sound(cfg, b) && Minted(b, c)
    ensures Extends(b, Step(cfg, b, c).0)
  {
    hide Gate, Protected, TermsOf, Orders;
  }

  /** Trades and their index entries are never changed or dropped. */
  lemma {:induction false} TradesPersist(cfg: Config, b: Books, calls: seq<Call>)
    requires Sound(cfg, b) && AllMinted(cfg, b, calls)
    ensures Sound(cfg, Run(cfg, b, calls)) && Extends(b, Run(cfg, b, calls))
    decreases |calls|
  {
    if |calls| > 0 {
      TradesPersist(cfg, b, Front(calls));
      hide Sound, Step, Minted;
      StepKeepsSound(cfg, Run(cfg, b, Front(calls)), Last(calls));
      StepExtends(cfg, Run(cfg, b, Front(calls)), Last(calls));
    }
  }

  /** Once a proposal has been executed, executing it again, however much later and in
      whatever mode, returns the original record, places no order and logs nothing. */
  lemma ReexecutionReturnsOriginal(cfg: Config, b: Books, p: Proposal, newId: Id, override: Option<int>, calls: seq<Call>,
                                   again: Proposal, paper: bool, newOverride: Option<int>, otherId: Id)
    requires Sound(cfg, b) && newId !in b.trades && again.id == p.id
    requires var o := ExecutePaper(cfg, b, p, true, override, newId);
             o.result.Ok? && AllMinted(cfg, o.books, calls)
    ensures var first := ExecutePaper(cfg, b, p, true, override, newId);
            var later := Run(cfg, first.books, calls);
            ExecutePaper(cfg, later, again, paper, newOverride, otherId) == Outcome(later, [], first.result)
  {
    ExecuteKeepsSound(cfg, b, p, true, override, newId);
    TradesPersist(cfg, ExecutePaper(cfg, b, p, true, override, newId).books, calls);
  }

  // ---------------------------------------------------------------- the session cap

  /** Every number of trades a call allowed a session, given or configured, is within the bound. */
  predicate CapsWithin(cfg: Config, calls: seq<Call>, bound: int) {
    forall i :: 0 <= i < |calls| && calls[i].Execute? ==>
                  match calls[i].override case Some(n) => n <= bound case None => cfg.sessionCap <= bound
  }

  /** One more trade joins exactly its own session. */
  lemma OneMoreTrade(trades: map<Id, TradeRecord>, t: Id, r: TradeRecord, strategy: string, session: string)
    requires t !in trades
    ensures var (before, after) := (SessionTrades(trades, strategy, session), SessionTrades(trades[t := r], strategy, session));
            |after| == |before| + if r.terms.strategy == strategy && r.terms.session == session then 1 else 0
  {
    var before, after := SessionTrades(trades, strategy, session), SessionTrades(trades[t := r], strategy, session);
    if r.terms.strategy == strategy && r.terms.session == session {
      assert after == before + {t};
    } else {
      assert after == before;
    }
  }

  lemma SessionTradesAre(trades: map<Id, TradeRecord>, strategy: string, session: string)
    ensures SessionTrades(trades, strategy, session)
         == set t | t in trades && trades[t].terms.strategy == strategy && trades[t].terms.session == session
  {
  }

  /** A call that allows no more than the bound keeps every session within it. */
  lemma CallKeepsCap(cfg: Config, b: Books, c: Call, bound: nat, strategy: string, session: string)
    requires Minted(b, c) && CapsWithin(cfg, [c], bound) && bound >= 1 && |SessionTrades(b.trades, strategy, session)| <= bound
    ensures |SessionTrades(Step(cfg, b, c).0.trades, strategy, session)| <= bound
  {
    var after := Step(cfg, b, c).0;
    if after.trades != b.trades {
      assert [c][0] == c && Cap(cfg, c.override) <= bound;
      OneMoreTrade(b.trades, c.newId, after.trades[c.newId], strategy, session);
    }
  }

  /** No session of a strategy ever holds more trades than the largest number a call allowed,
      or one where that is less. */
  lemma {:induction false} SessionCapHolds(cfg: Config, calls: seq<Call>, bound: nat, strategy: string, session: string)
    requires AllMinted(cfg, EmptyBooks, calls) && CapsWithin(cfg, calls, bound) && bound >= 1
    ensures var trades := Run(cfg, EmptyBooks, calls).trades;
            |set t | t in trades && trades[t].terms.strategy == strategy && trades[t].terms.session == session| <= bound
    decreases |calls|
  {
    SessionTradesAre(Run(cfg, EmptyBooks, calls).trades, strategy, session);
    if |calls| > 0 {
      assert forall i :: 0 <= i < |calls| - 1 ==> Front(calls)[i] == calls[i];
      SessionCapHolds(cfg, Front(calls), bound, strategy, session);
      SessionTradesAre(Run(cfg, EmptyBooks, Front(calls)).trades, strategy, session);
      assert calls[|calls| - 1] == Last(calls);
      hide Step, SessionTrades, Minted;
      CallKeepsCap(cfg, Run(cfg, EmptyBooks, Front(calls)), Last(calls), bound, strategy, session);
    } else {
      assert SessionTrades(map[], strategy, session) == {};
    }
  }

  // ---------------------------------------------------------------- EXECUTED and having a trade

  /** The store calls a proposal EXECUTED exactly when it has a trade. */
  ghost predicate Linked(b: Books) {
    forall p :: p in b.proposals ==> (b.proposals[p].status.Executed? <==> p in b.byProposal)
  }

  /** Adding a card under the identifier of a proposal that has a trade. */
  predicate Readds(b: Books, c: Call) {
    c.Add? && c.card.Valid() && c.card.id in b.byProposal
  }

  predicate NeverReadds(cfg: Config, calls: seq<Call>) {
    |calls| > 0 ==> NeverReadds(cfg, Front(calls)) && !Readds(Run(cfg, EmptyBooks, Front(calls)), Last(calls))
  }

  /** Proposal `p` has a trade though the store does not call it executed. */
  predicate Unlinked(b: Books, p: Id) {
    p in b.proposals && p in b.byProposal && !b.proposals[p].status.Executed?
  }

  lemma LinkedMeans(cfg: Config, b: Books)
    requires Sound(cfg, b)
    ensures Linked(b) <==> forall p :: !Unlinked(b, p)
  {
    if forall p :: !Unlinked(b, p) {
      forall p | p in b.proposals ensures b.proposals[p].status.Executed? <==> p in b.byProposal {
        assert !Unlinked(b, p);
      }
    }
  }

  lemma UnlinkedStays(cfg: Config, b: Books, c: Call, p: Id)
    requires Sound(cfg, b) && Minted(b, c)
    ensures Unlinked(Step(cfg, b, c).0, p) <==> Unlinked(b, p) || (Readds(b, c) && c.card.id == p)
  {
    if c.Execute? {
      ExecuteLinks(cfg, b, c.p, c.paper, c.override, c.newId, p);
    }
  }

  lemma ExecuteLinks(cfg: Config, b: Books, p: Proposal, paper: bool, override: Option<int>, newId: Id, id: Id)
    requires Sound(cfg, b)
    ensures Unlinked(ExecutePaper(cfg, b, p, paper, override, newId).books, id) <==> Unlinked(b, id)
  {
  }

  lemma StepLinkedExactly(cfg: Config, b: Books, c: Call)
    requires Sound(cfg, b) && Minted(b, c)
    ensures Linked(Step(cfg, b, c).0) <==> Linked(b) && !Readds(b, c)
  {
    StepKeepsSound(cfg, b, c);
    hide Sound, Step, Linked, Unlinked;
    LinkedMeans(cfg, b);
    LinkedMeans(cfg, Step(cfg, b, c).0);
    forall p ensures Unlinked(Step(cfg, b, c).0, p) <==> Unlinked(b, p) || (Readds(b, c) && c.card.id == p) {
      UnlinkedStays(cfg, b, c, p);
    }
    if Readds(b, c) {
      assert Unlinked(Step(cfg, b, c).0, c.card.id);
    }
  }

  /** In a run, EXECUTED and having a trade mean the same at the end exactly when no card
      was ever added again under an executed proposal's identifier: the link does not heal. */
  lemma {:induction false} LinkedExactly(cfg: Config, calls: seq<Call>)
    requires AllMinted(cfg, EmptyBooks, calls)
    ensures Linked(Run(cfg, EmptyBooks, calls)) <==> NeverReadds(cfg, calls)
    decreases |calls|
  {
    if |calls| > 0 {
      LinkedExactly(cfg, Front(calls));
      RunKeepsSound(cfg, Front(calls));
      StepLinkedExactly(cfg, Run(cfg, EmptyBooks, Front(calls)), Last(calls));
    }
  }

  /** Any executable card added again after its trade: PENDING in the store, yet traded. */
  lemma ReaddingUnlinks(cfg: Config, p: Proposal, trade: Id)
    requires p.Valid() && p.quantity > 0 && cfg.supportsBracket
    ensures var calls := [Add(p), Execute(p, true, None, trade), Add(p)];
            && AllMinted(cfg, EmptyBooks, calls) && !Linked(Run(cfg, EmptyBooks, calls))
            && p.id in Run(cfg, EmptyBooks, calls).byProposal && Run(cfg, EmptyBooks, calls).proposals[p.id].status.Pending?
  {
    var one, two, calls := [Add(p)], [Add(p), Execute(p, true, None, trade)], [Add(p), Execute(p, true, None, trade), Add(p)];
    assert Front(one) == [] && Front(two) == one && Front(calls) == two;
    assert Run(cfg, EmptyBooks, []) == EmptyBooks && AllMinted(cfg, EmptyBooks, one) && AllMinted(cfg, EmptyBooks, two);
    var b := Run(cfg, EmptyBooks, one);
    assert b == Step(cfg, EmptyBooks, Add(p)).0;
    assert SessionTrades(b.trades, p.strategy, p.session) == {};
    assert Gate(cfg, b, p, true, None) == None;
    var c := Run(cfg, EmptyBooks, two);
    assert c == ExecutePaper(cfg, b, p, true, None, trade).books;
    assert p.id in c.byProposal;
    var d := Run(cfg, EmptyBooks, calls);
    assert d == Step(cfg, c, Add(p)).0;
    assert p.id in d.proposals && !d.proposals[p.id].status.Executed?;
  }
}
