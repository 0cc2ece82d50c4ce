/** The live entry protocol: what a leg of a basket does to the lock log, the trade
    store and the broker, one durable effect at a time, with crashes, gate
    evaluations, store reconciliations and operator clears anywhere in between. */
module LiveProtocol {
  import opened Common
  import opened Idempotency

  // ---------------------------------------------------------------- state

  datatype TradeStatus = EntryPending | Open | ExitPending | Closed | Failed

  predicate Terminal(status: TradeStatus) {
    status == Closed || status == Failed
  }

  datatype Trade = Trade(
    id: string,
    symbol: string,
    status: TradeStatus,
    orderId: int,
    quantity: int,
    price: real,
    targetId: Option<int>,
    stopId: Option<int>,
    minute: int)

  /** An entry order the broker accepted, with the length the lock log had then. */
  datatype Entry = Entry(key: string, orderId: int, at: nat)

  /** Where the runner is between two durable effects. */
  datatype Phase =
    | Idle
    | Held(symbol: string)
    | Planned(symbol: string)
    | Refused(symbol: string, reason: Reason)
    | AtBroker(symbol: string, orderId: int)
    | Written(symbol: string, orderId: int, tradeId: Option<string>)
    | Releasing(pending: map<string, Lock>, seen: map<string, Trade>)

  datatype State = State(
    log: seq<Line>,
    trades: map<string, Trade>,
    broker: seq<Entry>,
    minted: set<string>,
    phase: Phase)

  const Start := State([], map[], [], {}, Idle)

  function EntryKey(symbol: string): string {
    BuildKey(symbol, "BUY", "", "")
  }

  function ActiveLocks(log: seq<Line>): map<string, Lock> {
    var current := Replay(log);
    map k | k in current && current[k].Active() :: current[k]
  }

  // ---------------------------------------------------------------- steps

  datatype Step =
    | Acquire(symbol: string)
    | PlanRecorded(ok: bool)
    | BrokerAccepts(orderId: int)
    | BrokerRefuses(raised: bool)
    | AbortClears(written: bool)
    | TradeWritten(trade: Trade)
    | TradeLost(id: string)
    | TradeNotBuilt
    | MarkSubmitted(written: bool)
    | ReleaseBegins
    | ReleaseNext(key: string, written: bool)
    | ReleaseEnds
    | StoreUpdates(id: string, status: TradeStatus)
    | OperatorClears(key: string)
    | LogNoise(line: Line)
    | Crash

  predicate Enabled(s: State, step: Step) {
    match step
    case Acquire(_) => s.phase.Idle?
    case PlanRecorded(_) => s.phase.Held?
    case BrokerAccepts(_) => s.phase.Planned?
    case BrokerRefuses(_) => s.phase.Planned?
    case AbortClears(_) => s.phase.Refused?
    case TradeWritten(trade) =>
      // a fresh identifier, and the fields the runner copies from the plan and the reply
      s.phase.AtBroker? && trade.id != "" && trade.id !in s.minted && trade.status == Open
      && trade.symbol == s.phase.symbol && trade.orderId == s.phase.orderId
    case TradeLost(id) => s.phase.AtBroker? && id != "" && id !in s.minted
    case TradeNotBuilt => s.phase.AtBroker?
    case MarkSubmitted(_) => s.phase.Written?
    case ReleaseBegins => s.phase.Idle?
    case ReleaseNext(key, _) => s.phase.Releasing? && key in s.phase.pending
    case ReleaseEnds => s.phase.Releasing? && s.phase.pending == map[]
    case StoreUpdates(id, status) =>
      // no reconciliation pass leaves a terminal trade
      id in s.trades && (Terminal(s.trades[id].status) ==> Terminal(status))
    case OperatorClears(_) => true
    case LogNoise(line) => !line.Record?
    case Crash => true
  }

  /** Whether the gate pass clears a lock it has listed: the lock names a trade the
      pass has read, and that trade is terminal. */
  predicate ReleasesLock(lock: Lock, seen: map<string, Trade>) {
    lock.tradeId.Some? && lock.tradeId.value != "" && lock.tradeId.value in seen
    && Terminal(seen[lock.tradeId.value].status)
  }

  function Apply(s: State, step: Step): State {
    if !Enabled(s, step) then s else
    match step
    case Acquire(symbol) =>
      s.(log := AfterCall(s.log, CallAcquire(symbol, "BUY", "", "")),
         phase := if ActiveIn(s.log, EntryKey(symbol)) then Idle else Held(symbol))
    case PlanRecorded(ok) =>
      s.(phase := if ok then Planned(s.phase.symbol) else Refused(s.phase.symbol, LifecycleWriteFailed))
    case BrokerAccepts(orderId) =>
      s.(broker := s.broker + [Entry(EntryKey(s.phase.symbol), orderId, |s.log|)],
         phase := AtBroker(s.phase.symbol, orderId))
    case BrokerRefuses(raised) =>
      s.(phase := Refused(s.phase.symbol, if raised then ExecutorRaised else ExecutorRejected))
    case AbortClears(written) =>
      s.(log := if written then AfterCall(s.log, CallClear(EntryKey(s.phase.symbol), s.phase.reason)) else s.log,
         phase := Idle)
    case TradeWritten(trade) =>
      s.(trades := s.trades[trade.id := trade], minted := s.minted + {trade.id},
         phase := Written(s.phase.symbol, s.phase.orderId, Some(trade.id)))
    case TradeLost(id) =>
      s.(minted := s.minted + {id}, phase := Written(s.phase.symbol, s.phase.orderId, Some(id)))
    case TradeNotBuilt =>
      s.(phase := Written(s.phase.symbol, s.phase.orderId, None))
    case MarkSubmitted(written) =>
      s.(log := if written
                then AfterCall(s.log, CallMark(EntryKey(s.phase.symbol), Some(s.phase.orderId), s.phase.tradeId))
                else s.log,
         phase := Idle)
    case ReleaseBegins => s.(phase := Releasing(ActiveLocks(s.log), s.trades))
    case ReleaseNext(key, written) =>
      s.(log := if written && ReleasesLock(s.phase.pending[key], s.phase.seen)
                then AfterCall(s.log, CallClear(key, TradeTerminal))
                else s.log,
         phase := Releasing(s.phase.pending - {key}, s.phase.seen))
    case ReleaseEnds => s.(phase := Idle)
    case StoreUpdates(id, status) => s.(trades := s.trades[id := s.trades[id].(status := status)])
    case OperatorClears(key) => s.(log := AfterCall(s.log, CallClear(key, OperatorCleared)))
    case LogNoise(line) => s.(log := AfterCall(s.log, Noise(line)))
    case Crash => s.(phase := Idle)
  }

  function After(s: State, steps: seq<Step>): State {
    if |steps| == 0 then s else Apply(After(s, Front(steps)), Last(steps))
  }

  lemma AfterSnoc(s: State, steps: seq<Step>, step: Step)
    ensures After(s, steps + [step]) == Apply(After(s, steps), step)
  {
    SnocFront(steps, step);
  }

  lemma {:induction false} AfterConcat(s: State, xs: seq<Step>, ys: seq<Step>)
    ensures After(s, xs + ys) == After(After(s, xs), ys)
    decreases |ys|
  {
    if |ys| == 0 {
      assert xs + ys == xs;
    } else {
      assert Front(xs + ys) == xs + Front(ys) && Last(xs + ys) == Last(ys);
      AfterConcat(s, xs, Front(ys));
    }
  }

  // ---------------------------------------------------------------- what the protocol promises

  ghost predicate ClearedSince(log: seq<Line>, key: string, at: int) {
    ClearBetween(log, key, at, |log|)
  }

  /** Line `c` is the first CLEAR of `key` at or after position `at`. */
  ghost predicate FirstClear(log: seq<Line>, key: string, at: int, c: int) {
    && 0 <= at <= c < |log| && IsClearOf(log[c], key)
    && (forall i :: at <= i < c ==> !IsClearOf(log[i], key))
  }

  /** Two accepted entries of one key have a CLEAR of that key between them. */
  ghost predicate Separated(s: State) {
    forall i, j :: 0 <= i < j < |s.broker| && s.broker[i].key == s.broker[j].key
      ==> ClearBetween(s.log, s.broker[i].key, s.broker[i].at, s.broker[j].at)
  }

  /** A CLEAR that may follow entry `b`: an operator wrote it, or the trade recorded
      for exactly that broker order is terminal in the store. */
  predicate Justified(line: Line, b: Entry, trades: map<string, Trade>)
    requires line.Record?
  {
    || line.lock.reason == OperatorCleared
    || (&& line.lock.reason == TradeTerminal
        && line.lock.orderId == Some(b.orderId)
        && line.lock.tradeId.Some? && line.lock.tradeId.value in trades
        && var t := trades[line.lock.tradeId.value];
           t.orderId == b.orderId && EntryKey(t.symbol) == b.key && Terminal(t.status))
  }

  ghost predicate ClearsJustified(s: State) {
    forall i, c :: 0 <= i < |s.broker| && FirstClear(s.log, s.broker[i].key, s.broker[i].at, c)
      ==> Justified(s.log[c], s.broker[i], s.trades)
  }

  /** An entry whose key nobody has cleared since still blocks its key. */
  ghost predicate EntriesBlock(s: State) {
    forall i :: 0 <= i < |s.broker| && !ClearedSince(s.log, s.broker[i].key, s.broker[i].at)
      ==> ActiveIn(s.log, s.broker[i].key)
  }

  // ---------------------------------------------------------------- invariant

  /** The current lock of an uncleared entry is that entry's: once it names a trade,
      order and trade are the entry's own. */
  predicate Bound(lock: Lock, b: Entry, trades: map<string, Trade>) {
    lock.tradeId.Some? ==>
      && lock.orderId == Some(b.orderId)
      && (lock.tradeId.value in trades ==>
            var t := trades[lock.tradeId.value]; t.orderId == b.orderId && EntryKey(t.symbol) == b.key)
  }

  ghost predicate EntriesBound(s: State) {
    forall i :: 0 <= i < |s.broker| && !ClearedSince(s.log, s.broker[i].key, s.broker[i].at)
      ==> s.broker[i].key in Replay(s.log) && Bound(Replay(s.log)[s.broker[i].key], s.broker[i], s.trades)
  }

  ghost predicate EntriesPlaced(s: State) {
    && (forall i :: 0 <= i < |s.broker| ==> s.broker[i].at <= |s.log| && s.broker[i].key != "")
    && (forall i, j :: 0 <= i < j < |s.broker| ==> s.broker[i].at <= s.broker[j].at)
  }

  ghost predicate IdsMinted(s: State) {
    && s.trades.Keys <= s.minted
    && (forall k :: k in Replay(s.log) && Replay(s.log)[k].tradeId.Some? ==> Replay(s.log)[k].tradeId.value in s.minted)
  }

  /** With `just`, every CLEAR so far is also one that may follow the entry before it. */
  ghost predicate History(s: State, just: bool) {
    && Disciplined(s.log) && EntriesPlaced(s) && IdsMinted(s)
    && Separated(s) && (just ==> ClearsJustified(s)) && EntriesBlock(s) && EntriesBound(s)
  }

  ghost predicate AllCleared(s: State, key: string) {
    forall i :: 0 <= i < |s.broker| && s.broker[i].key == key ==> ClearedSince(s.log, key, s.broker[i].at)
  }

  ghost predicate PhaseOk(s: State) {
    match s.phase
    case Idle => true
    case Held(symbol) => OwnsLock(s, EntryKey(symbol))
    case Planned(symbol) => OwnsLock(s, EntryKey(symbol))
    case Refused(symbol, _) => AllCleared(s, EntryKey(symbol))
    case AtBroker(symbol, orderId) => LastEntryIs(s, EntryKey(symbol), orderId)
    case Written(symbol, orderId, tradeId) =>
      && LastEntryIs(s, EntryKey(symbol), orderId)
      && (tradeId.Some? ==>
            && tradeId.value != "" && tradeId.value in s.minted
            && (tradeId.value in s.trades ==>
                  s.trades[tradeId.value].orderId == orderId && EntryKey(s.trades[tradeId.value].symbol) == EntryKey(symbol)))
    case Releasing(pending, seen) =>
      && (forall k :: k in pending ==> StillListed(s.log, k, pending[k]))
      && (forall t :: t in seen && Terminal(seen[t].status) ==> t in s.trades && Terminal(s.trades[t].status))
  }

  /** A listed lock is still the current one, unless it has been cleared since. */
  ghost predicate StillListed(log: seq<Line>, key: string, lock: Lock) {
    key != "" && key in Replay(log) && (Replay(log)[key] == lock || !Replay(log)[key].Active())
  }

  ghost predicate OwnsLock(s: State, key: string) {
    AllCleared(s, key) && ActiveIn(s.log, key) && Replay(s.log)[key].tradeId.None?
  }

  ghost predicate LastEntryIs(s: State, key: string, orderId: int) {
    |s.broker| > 0 && Last(s.broker).key == key && Last(s.broker).orderId == orderId
  }

  ghost predicate Inv(s: State, just: bool) {
    History(s, just) && PhaseOk(s)
  }

  // ---------------------------------------------------------------- appending one line

  lemma ClearedSinceSnoc(log: seq<Line>, line: Line, key: string, at: nat)
    requires at <= |log|
    ensures ClearedSince(log + [line], key, at) <==> ClearedSince(log, key, at) || IsClearOf(line, key)
  {
    var after := log + [line];
    if ClearedSince(log, key, at) {
      var c :| 0 <= at <= c < |log| && IsClearOf(log[c], key);
      assert IsClearOf(after[c], key);
    }
    if IsClearOf(line, key) {
      assert IsClearOf(after[|log|], key);
    }
    if ClearedSince(after, key, at) {
      var c :| 0 <= at <= c < |after| && IsClearOf(after[c], key);
      if c < |log| {
        assert IsClearOf(log[c], key);
      }
    }
  }

  /** What a line must satisfy to leave the history of accepted entries intact. */
  ghost predicate Fits(s: State, line: Line, just: bool) {
    && line.Record? && WrittenByStore(line)
    && (line.op == AcquireOp ==> !ActiveIn(s.log, line.lock.key))
    && (line.lock.tradeId.Some? ==> line.lock.tradeId.value in s.minted)
    && (forall i :: 0 <= i < |s.broker| && s.broker[i].key == line.lock.key
                    && !ClearedSince(s.log, s.broker[i].key, s.broker[i].at)
          ==> if line.op == ClearOp then just ==> Justified(line, s.broker[i], s.trades)
              else Bound(line.lock, s.broker[i], s.trades))
  }

  lemma AppendKeepsSeparated(s: State, line: Line)
    requires EntriesPlaced(s) && Separated(s)
    ensures Separated(s.(log := s.log + [line]))
  {
    var after := s.log + [line];
    forall i, j | 0 <= i < j < |s.broker| && s.broker[i].key == s.broker[j].key
      ensures ClearBetween(after, s.broker[i].key, s.broker[i].at, s.broker[j].at)
    {
      var c :| 0 <= s.broker[i].at <= c < s.broker[j].at <= |s.log| && IsClearOf(s.log[c], s.broker[i].key);
      assert IsClearOf(after[c], s.broker[i].key);
    }
  }

  lemma AppendKeepsJustified(s: State, line: Line)
    requires EntriesPlaced(s) && ClearsJustified(s) && Fits(s, line, true)
    ensures ClearsJustified(s.(log := s.log + [line]))
  {
    var after := s.log + [line];
    forall i, c | 0 <= i < |s.broker| && FirstClear(after, s.broker[i].key, s.broker[i].at, c)
      ensures Justified(after[c], s.broker[i], s.trades)
    {
      var b := s.broker[i];
      assert forall k :: b.at <= k < |s.log| ==> after[k] == s.log[k];
      if c < |s.log| {
        assert FirstClear(s.log, b.key, b.at, c);
      } else {
        assert !ClearedSince(s.log, b.key, b.at);
      }
    }
  }

  lemma AppendKeepsHistory(s: State, line: Line, just: bool)
    requires History(s, just) && Fits(s, line, just)
    ensures History(s.(log := s.log + [line]), just)
  {
    var s' := s.(log := s.log + [line]);
    ReplaySnoc(s.log, line);
    AppendKeepsSeparated(s, line);
    if just {
      AppendKeepsJustified(s, line);
    }
    forall i | 0 <= i < |s.broker|
      ensures ClearedSince(s'.log, s.broker[i].key, s.broker[i].at)
         <==> ClearedSince(s.log, s.broker[i].key, s.broker[i].at) || IsClearOf(line, s.broker[i].key)
    {
      ClearedSinceSnoc(s.log, line, s.broker[i].key, s.broker[i].at);
    }
    assert Disciplined(s'.log) by {
      forall j | 0 <= j < |s'.log| && s'.log[j].Record? && s'.log[j].op == AcquireOp
        ensures !ActiveIn(s'.log[..j], s'.log[j].lock.key)
      {
        assert s'.log[..j] == s.log[..j];
        if j == |s.log| {
          assert s'.log[..j] == s.log;
        }
      }
    }
  }

  lemma NoiseKeepsHistory(s: State, line: Line, just: bool)
    requires History(s, just) && !line.Record?
    ensures History(s.(log := s.log + [line]), just)
  {
    var s' := s.(log := s.log + [line]);
    ReplaySnoc(s.log, line);
    AppendKeepsSeparated(s, line);
    forall i | 0 <= i < |s.broker|
      ensures ClearedSince(s'.log, s.broker[i].key, s.broker[i].at) <==> ClearedSince(s.log, s.broker[i].key, s.broker[i].at)
    {
      ClearedSinceSnoc(s.log, line, s.broker[i].key, s.broker[i].at);
    }
    forall i, c | just && 0 <= i < |s.broker| && FirstClear(s'.log, s.broker[i].key, s.broker[i].at, c)
      ensures Justified(s'.log[c], s.broker[i], s.trades)
    {
      assert forall k :: s.broker[i].at <= k < |s.log| ==> s'.log[k] == s.log[k];
      assert FirstClear(s.log, s.broker[i].key, s.broker[i].at, c);
    }
    forall j | 0 <= j < |s'.log| && s'.log[j].Record? && s'.log[j].op == AcquireOp
      ensures !ActiveIn(s'.log[..j], s'.log[j].lock.key)
    {
      assert s'.log[..j] == s.log[..j];
    }
  }

  /** Appending keeps every key that was cleared cleared. */
  lemma AppendKeepsAllCleared(s: State, line: Line, key: string)
    requires EntriesPlaced(s) && AllCleared(s, key)
    ensures AllCleared(s.(log := s.log + [line]), key)
  {
    forall i | 0 <= i < |s.broker| && s.broker[i].key == key
      ensures ClearedSince(s.log + [line], key, s.broker[i].at)
    {
      ClearedSinceSnoc(s.log, line, key, s.broker[i].at);
    }
  }

  // ---------------------------------------------------------------- one step

  lemma AcquireKeepsInv(s: State, symbol: string, just: bool)
    requires Inv(s, just) && s.phase.Idle?
    ensures Inv(Apply(s, Acquire(symbol)), just)
  {
    var key := EntryKey(symbol);
    ReplayKeyed(s.log);
    if !ActiveIn(s.log, key) {
      var line := Record(AcquireOp, FreshLock(symbol, "BUY", "", ""));
      assert AllCleared(s, key);
      AppendKeepsHistory(s, line, just);
      AppendKeepsAllCleared(s, line, key);
      ReplaySnoc(s.log, line);
    }
  }

  lemma AcceptKeepsInv(s: State, orderId: int, just: bool)
    requires Inv(s, just) && s.phase.Planned?
    ensures Inv(Apply(s, BrokerAccepts(orderId)), just)
  {
    var key := EntryKey(s.phase.symbol);
    var s' := Apply(s, BrokerAccepts(orderId));
    forall i, j | 0 <= i < j < |s'.broker| && s'.broker[i].key == s'.broker[j].key
      ensures ClearBetween(s'.log, s'.broker[i].key, s'.broker[i].at, s'.broker[j].at)
    {
      if j == |s.broker| {
        assert ClearedSince(s.log, key, s.broker[i].at);
      }
    }
    assert !ClearedSince(s'.log, key, |s.log|);
  }

  lemma AbortKeepsInv(s: State, written: bool, just: bool)
    requires Inv(s, just) && s.phase.Refused?
    ensures Inv(Apply(s, AbortClears(written)), just)
  {
    var key := EntryKey(s.phase.symbol);
    ReplayKeyed(s.log);
    if written && key in Replay(s.log) {
      AppendKeepsHistory(s, Record(ClearOp, ClearedLock(Replay(s.log)[key], s.phase.reason)), just);
    }
  }

  lemma TradeKeepsInv(s: State, step: Step, just: bool)
    requires Inv(s, just) && Enabled(s, step)
    requires step.TradeWritten? || step.TradeLost? || step.TradeNotBuilt?
    ensures Inv(Apply(s, step), just)
  {
    var s' := Apply(s, step);
    hide ActiveIn, Disciplined, ClearBetween, EntryKey;
    forall i, c | just && 0 <= i < |s.broker| && FirstClear(s.log, s.broker[i].key, s.broker[i].at, c)
      ensures Justified(s.log[c], s.broker[i], s'.trades)
    {
      assert Justified(s.log[c], s.broker[i], s.trades);
    }
  }

  lemma MarkKeepsInv(s: State, written: bool, just: bool)
    requires Inv(s, just) && s.phase.Written?
    ensures Inv(Apply(s, MarkSubmitted(written)), just)
  {
    var key := EntryKey(s.phase.symbol);
    ReplayKeyed(s.log);
    if written && key in Replay(s.log) {
      var lock := MarkedLock(Replay(s.log)[key], Some(s.phase.orderId), s.phase.tradeId);
      forall i | 0 <= i < |s.broker| && s.broker[i].key == key && !ClearedSince(s.log, key, s.broker[i].at)
        ensures Bound(lock, s.broker[i], s.trades)
      {
        if i < |s.broker| - 1 {
          WidenClear(s.log, key, s.broker[i].at, Last(s.broker).at);
          assert false;
        }
      }
      AppendKeepsHistory(s, Record(SubmittedOp, lock), just);
    }
  }

  lemma WidenClear(log: seq<Line>, key: string, from: int, until: int)
    requires ClearBetween(log, key, from, until)
    ensures ClearedSince(log, key, from)
  {
    var c :| 0 <= from <= c < until <= |log| && IsClearOf(log[c], key);
  }

  lemma ReleaseKeepsInv(s: State, key: string, written: bool, just: bool)
    requires Inv(s, just) && s.phase.Releasing? && key in s.phase.pending
    ensures Inv(Apply(s, ReleaseNext(key, written)), just)
  {
    ReplayKeyed(s.log);
    if written && ReleasesLock(s.phase.pending[key], s.phase.seen) {
      var line := Record(ClearOp, ClearedLock(Replay(s.log)[key], TradeTerminal));
      AppendKeepsHistory(s, line, just);
      ReplaySnoc(s.log, line);
    }
  }

  lemma StoreUpdateKeepsInv(s: State, id: string, status: TradeStatus, just: bool)
    requires Inv(s, just) && Enabled(s, StoreUpdates(id, status))
    ensures Inv(Apply(s, StoreUpdates(id, status)), just)
  {
    var s' := Apply(s, StoreUpdates(id, status));
    forall i, c | just && 0 <= i < |s.broker| && FirstClear(s.log, s.broker[i].key, s.broker[i].at, c)
      ensures Justified(s.log[c], s.broker[i], s'.trades)
    {
      assert Justified(s.log[c], s.broker[i], s.trades);
    }
  }

  /** A leg of this key has taken the lock and not yet reached the broker. */
  predicate BeforeBroker(s: State, key: string) {
    (s.phase.Held? || s.phase.Planned?) && EntryKey(s.phase.symbol) == key
  }

  /** A CLEAR or a noise line leaves the phase's facts alone, unless it clears a
      lock that a leg holds short of the broker. */
  lemma AppendKeepsPhase(s: State, line: Line, just: bool)
    requires Inv(s, just)
    requires line.Record? ==> line.lock.status == Cleared && line.lock.key != "" && !BeforeBroker(s, line.lock.key)
    ensures PhaseOk(s.(log := s.log + [line]))
  {
    ReplaySnoc(s.log, line);
    match s.phase
    case Held(symbol) => AppendKeepsAllCleared(s, line, EntryKey(symbol));
    case Planned(symbol) => AppendKeepsAllCleared(s, line, EntryKey(symbol));
    case Refused(symbol, _) => AppendKeepsAllCleared(s, line, EntryKey(symbol));
    case _ =>
  }

  lemma OperatorKeepsInv(s: State, key: string, just: bool)
    requires Inv(s, just) && !BeforeBroker(s, key)
    ensures Inv(Apply(s, OperatorClears(key)), just)
  {
    ReplayKeyed(s.log);
    if key in Replay(s.log) {
      var line := Record(ClearOp, ClearedLock(Replay(s.log)[key], OperatorCleared));
      AppendKeepsHistory(s, line, just);
      AppendKeepsPhase(s, line, just);
    }
  }

  lemma NoiseKeepsInv(s: State, line: Line, just: bool)
    requires Inv(s, just) && !line.Record?
    ensures Inv(Apply(s, LogNoise(line)), just)
  {
    hide History, PhaseOk;
    NoiseKeepsHistory(s, line, just);
    AppendKeepsPhase(s, line, just);
  }

  lemma StepKeepsInv(s: State, step: Step, just: bool)
    requires Inv(s, just)
    requires step.OperatorClears? ==> !BeforeBroker(s, step.key)
    ensures Inv(Apply(s, step), just)
  {
    ReplayKeyed(s.log);
    if Enabled(s, step) {
      match step
      case Acquire(symbol) => AcquireKeepsInv(s, symbol, just);
      case PlanRecorded(_) =>
      case BrokerAccepts(orderId) => AcceptKeepsInv(s, orderId, just);
      case BrokerRefuses(_) =>
      case AbortClears(written) => AbortKeepsInv(s, written, just);
      case TradeWritten(_) => TradeKeepsInv(s, step, just);
      case TradeLost(_) => TradeKeepsInv(s, step, just);
      case TradeNotBuilt => TradeKeepsInv(s, step, just);
      case MarkSubmitted(written) => MarkKeepsInv(s, written, just);
      case ReleaseBegins =>
      case ReleaseNext(key, written) => ReleaseKeepsInv(s, key, written, just);
      case ReleaseEnds =>
      case StoreUpdates(id, status) => StoreUpdateKeepsInv(s, id, status, just);
      case OperatorClears(key) => OperatorKeepsInv(s, key, just);
      case LogNoise(line) => NoiseKeepsInv(s, line, just);
      case Crash =>
    }
  }

  // ---------------------------------------------------------------- every run

  /** No operator clears a key while a leg holds it short of the broker. */
  ghost predicate Guarded(s: State, steps: seq<Step>) {
    forall n :: 0 <= n < |steps| && steps[n].OperatorClears? ==> !BeforeBroker(After(s, steps[..n]), steps[n].key)
  }

  lemma {:induction false} RunKeepsInv(s: State, steps: seq<Step>, just: bool)
    requires Inv(s, just) && Guarded(s, steps)
    ensures Inv(After(s, steps), just)
    decreases |steps|
  {
    if |steps| > 0 {
      var front := Front(steps);
      forall n | 0 <= n < |front| && front[n].OperatorClears?
        ensures !BeforeBroker(After(s, front[..n]), front[n].key)
      {
        assert front[..n] == steps[..n];
      }
      RunKeepsInv(s, front, just);
      StepKeepsInv(After(s, front), Last(steps), just);
    }
  }

  /** Safety over every run from an empty store, crashes included: accepted entries
      of one key are separated by a CLEAR; the first CLEAR after an entry is an
      operator's or follows the terminal trade of that very order; until then the
      key is blocked. */
  lemma LiveEntriesAreExclusive(steps: seq<Step>)
    requires Guarded(Start, steps)
    ensures var s := After(Start, steps); Separated(s) && ClearsJustified(s) && EntriesBlock(s)
  {
    StartHolds("");
    RunKeepsInv(Start, steps, true);
  }

  /** A crash at any point after the broker's acceptance changes nothing: as long as
      no CLEAR follows, a new leg of the symbol is refused the lock. */
  lemma UnclearedEntryRefusesNextLeg(steps: seq<Step>, s: State, i: nat, symbol: string, key: string)
    requires Guarded(Start, steps) && s == After(Start, steps)
    requires key == EntryKey(symbol) && i < |s.broker| && s.broker[i].key == key
    requires !ClearedSince(s.log, key, s.broker[i].at)
    ensures Apply(Apply(s, Crash), Acquire(symbol)) == Apply(s, Crash)
  {
    LiveEntriesAreExclusive(steps);
    hide After, Guarded, Separated, ClearsJustified, EntriesBlock, ClearedSince;
    BlockedLegIsRefused(s, i, symbol, key);
  }

  lemma BlockedLegIsRefused(s: State, i: nat, symbol: string, key: string)
    requires EntriesBlock(s) && key == EntryKey(symbol) && i < |s.broker| && s.broker[i].key == key
    requires !ClearedSince(s.log, key, s.broker[i].at)
    ensures Apply(Apply(s, Crash), Acquire(symbol)) == Apply(s, Crash)
  {
    assert ActiveIn(s.log, s.broker[i].key);
    hide EntriesBlock, ClearedSince, EntryKey, ActiveIn;
    RefusedLegChangesNothing(Apply(s, Crash), symbol);
  }

  lemma RefusedLegChangesNothing(s: State, symbol: string)
    requires s.phase.Idle? && ActiveIn(s.log, EntryKey(symbol))
    ensures Apply(s, Acquire(symbol)) == s
  {
  }

  ghost predicate NoOperator(steps: seq<Step>) {
    forall n :: 0 <= n < |steps| ==> !steps[n].OperatorClears?
  }

  /** The guard is exact.  After an operator clear, every continuation keeps entries
      separated if and only if the cleared key was not held by a leg short of the
      broker: otherwise one crash after acceptance lets a second entry in with no
      CLEAR between the two. */
  lemma OperatorClearIsSafeExactly(s: State, key: string)
    requires Inv(s, false)
    ensures (forall rest :: NoOperator(rest) ==> Separated(After(Apply(s, OperatorClears(key)), rest)))
       <==> !BeforeBroker(s, key)
  {
    if BeforeBroker(s, key) {
      ClearDeactivates(s.log, key, OperatorCleared);
      var rest := UnguardedContinuation(Apply(s, OperatorClears(key)), s.phase.symbol, key);
    } else {
      OperatorKeepsInv(s, key, false);
      forall rest | NoOperator(rest) ensures Separated(After(Apply(s, OperatorClears(key)), rest)) {
        RunKeepsInv(Apply(s, OperatorClears(key)), rest, false);
      }
    }
  }

  /** A leg that goes to the broker although its key is not blocked. */
  lemma UnguardedContinuation(s: State, symbol: string, key: string) returns (rest: seq<Step>)
    requires BeforeBroker(s, key) && !ActiveIn(s.log, key) && symbol == s.phase.symbol && key == EntryKey(symbol)
    ensures NoOperator(rest)
    ensures !Separated(After(s, rest))
  {
    var five := [BrokerAccepts(1), Crash, Acquire(symbol), PlanRecorded(true), BrokerAccepts(2)];
    if s.phase.Held? {
      var first := [PlanRecorded(true)];
      OneStep(s, PlanRecorded(true));
      AfterConcat(s, first, five);
      hide Separated, ActiveIn, EntryKey;
      SecondEntryBreaks(After(s, first), symbol, key, five);
      rest := first + five;
    } else {
      SecondEntryBreaks(s, symbol, key, five);
      rest := five;
    }
  }

  lemma OneStep(s: State, step: Step)
    ensures After(s, [step]) == Apply(s, step)
  {
    assert Front([step]) == [] && After(s, []) == s;
  }

  lemma SecondEntryBreaks(s: State, symbol: string, key: string, five: seq<Step>)
    requires s.phase == Planned(symbol) && key == EntryKey(symbol) && !ActiveIn(s.log, key)
    requires five == [BrokerAccepts(1), Crash, Acquire(symbol), PlanRecorded(true), BrokerAccepts(2)]
    ensures !Separated(After(s, five))
  {
    UnfoldFive(s, five[0], five[1], five[2], five[3], five[4]);
    var last := SecondEntry(s, symbol, key, 1, 2);
    var n := |s.broker|;
    assert last.broker[n].key == last.broker[n + 1].key;
    assert !ClearBetween(last.log, key, |s.log|, |s.log| + 1);
  }

  lemma ClearDeactivates(log: seq<Line>, key: string, reason: Reason)
    requires key in Replay(log)
    ensures !ActiveIn(AfterCall(log, CallClear(key, reason)), key)
  {
    ReplayKeyed(log);
    ReplaySnoc(log, Record(ClearOp, ClearedLock(Replay(log)[key], reason)));
  }

  lemma SecondEntry(s: State, symbol: string, key: string, o1: int, o2: int) returns (last: State)
    requires s.phase == Planned(symbol) && key == EntryKey(symbol) && !ActiveIn(s.log, key)
    ensures last == Apply(Apply(Apply(Apply(Apply(s, BrokerAccepts(o1)), Crash), Acquire(symbol)), PlanRecorded(true)), BrokerAccepts(o2))
    ensures last.broker == s.broker + [Entry(key, o1, |s.log|), Entry(key, o2, |s.log| + 1)]
    ensures last.log == s.log + [Record(AcquireOp, FreshLock(symbol, "BUY", "", ""))]
  {
    var s2 := Apply(Apply(s, BrokerAccepts(o1)), Crash);
    assert s2 == s.(broker := s.broker + [Entry(key, o1, |s.log|)], phase := Idle);
    var s4 := Apply(Apply(s2, Acquire(symbol)), PlanRecorded(true));
    assert s4 == s2.(log := s.log + [Record(AcquireOp, FreshLock(symbol, "BUY", "", ""))], phase := Planned(symbol));
    last := Apply(s4, BrokerAccepts(o2));
    assert last.broker == s.broker + [Entry(key, o1, |s.log|)] + [Entry(key, o2, |s.log| + 1)];
  }

  lemma UnfoldFive(s: State, a: Step, b: Step, c: Step, d: Step, e: Step)
    ensures After(s, [a, b, c, d, e]) == Apply(Apply(Apply(Apply(Apply(s, a), b), c), d), e)
  {
    assert Front([a, b, c, d, e]) == [a, b, c, d];
    assert Front([a, b, c, d]) == [a, b, c];
    assert Front([a, b, c]) == [a, b];
    assert Front([a, b]) == [a];
    assert Front([a]) == [];
    assert After(s, [a]) == Apply(After(s, []), a);
    assert After(s, [a, b]) == Apply(After(s, [a]), b);
    assert After(s, [a, b, c]) == Apply(After(s, [a, b]), c);
    assert After(s, [a, b, c, d]) == Apply(After(s, [a, b, c]), d);
  }

  lemma HeldThenCleared(symbol: string)
    ensures var (s, key) := (Apply(Start, Acquire(symbol)), EntryKey(symbol));
            && s.phase == Held(symbol) && Inv(s, true)
            && var t := Apply(s, OperatorClears(key)); t.phase == Held(symbol) && !ActiveIn(t.log, key)
  {
    var s, key := Apply(Start, Acquire(symbol)), EntryKey(symbol);
    StartHolds(key);
    hide EntryKey, ActiveIn, AfterCall, Replay, History;
    AcquireKeepsInv(Start, symbol, true);
    HolderClears(s, symbol);
  }

  lemma StartHolds(key: string)
    ensures Inv(Start, true) && !ActiveIn(Start.log, key)
  {
  }

  lemma HolderClears(s: State, symbol: string)
    requires s.phase == Held(symbol) && ActiveIn(s.log, EntryKey(symbol))
    ensures var t := Apply(s, OperatorClears(EntryKey(symbol))); t.phase == Held(symbol) && !ActiveIn(t.log, EntryKey(symbol))
  {
    ClearDeactivates(s.log, EntryKey(symbol), OperatorCleared);
    hide EntryKey, AfterCall, Replay;
  }

  /** Such a state is reached, by one step from an empty store; and from there a whole run ends
      with two accepted entries of one symbol and no CLEAR between them. */
  lemma UnguardedRun(symbol: string) returns (run: seq<Step>)
    ensures BeforeBroker(After(Start, [Acquire(symbol)]), EntryKey(symbol))
    ensures !Guarded(Start, run) && !Separated(After(Start, run))
  {
    var key := EntryKey(symbol);
    OneStep(Start, Acquire(symbol));
    HeldThenCleared(symbol);
    var first, second := Acquire(symbol), OperatorClears(key);
    hide Inv, Separated, After, Apply, EntryKey, Guarded, ActiveIn;
    AfterSnoc(Start, [first], second);
    var rest := UnguardedContinuation(After(Start, [first] + [second]), symbol, key);
    AfterConcat(Start, [first] + [second], rest);
    run := [first] + [second] + rest;
    assert run[1] == second && run[..1] == [first];
    UnguardedMeans(run, key);
  }

  lemma UnguardedMeans(run: seq<Step>, key: string)
    requires |run| > 1 && run[1] == OperatorClears(key) && BeforeBroker(After(Start, run[..1]), key)
    ensures !Guarded(Start, run)
  {
  }

  // ---------------------------------------------------------------- a crash inside a leg

  /** A leg of this key is somewhere between its lock and the update of that lock. */
  predicate InsideLeg(s: State, key: string) {
    (s.phase.Held? || s.phase.Planned? || s.phase.AtBroker? || s.phase.Written?) && EntryKey(s.phase.symbol) == key
  }

  /** The key is blocked by a lock that names no trade. */
  predicate Unnamed(log: seq<Line>, key: string) {
    ActiveIn(log, key) && Replay(log)[key].tradeId.None?
  }

  lemma CallKeepsUnnamed(log: seq<Line>, call: Call, key: string)
    requires Unnamed(log, key) && (call.CallMark? || call.CallClear? ==> call.key != key)
    ensures Unnamed(AfterCall(log, call), key)
  {
    hide BuildKey, AfterCall, Replay;
    CallRefinesMap(log, call);
  }

  lemma AcquiredIsUnnamed(log: seq<Line>, symbol: string)
    requires !ActiveIn(log, EntryKey(symbol))
    ensures Unnamed(AfterCall(log, CallAcquire(symbol, "BUY", "", "")), EntryKey(symbol))
  {
    hide AfterCall, Replay;
    CallRefinesMap(log, CallAcquire(symbol, "BUY", "", ""));
  }

  lemma LegStepKeepsUnnamed(s: State, step: Step, key: string)
    requires InsideLeg(s, key) ==> Unnamed(s.log, key)
    requires step != OperatorClears(key)
    ensures InsideLeg(Apply(s, step), key) ==> Unnamed(Apply(s, step).log, key)
  {
    if Enabled(s, step) {
      hide AfterCall, EntryKey, Unnamed, ActiveIn;
      match step
      case Acquire(symbol) =>
        if !ActiveIn(s.log, EntryKey(symbol)) {
          AcquiredIsUnnamed(s.log, symbol);
        }
      case OperatorClears(k) =>
        if InsideLeg(s, key) {
          CallKeepsUnnamed(s.log, CallClear(k, OperatorCleared), key);
        }
      case LogNoise(line) =>
        if InsideLeg(s, key) {
          CallKeepsUnnamed(s.log, Noise(line), key);
        }
      case _ =>
    }
  }

  ghost predicate NeverCleared(steps: seq<Step>, key: string) {
    forall n :: 0 <= n < |steps| ==> steps[n] != OperatorClears(key)
  }

  lemma {:induction false} LegHoldsUnnamed(steps: seq<Step>, key: string)
    requires NeverCleared(steps, key)
    ensures InsideLeg(After(Start, steps), key) ==> Unnamed(After(Start, steps).log, key)
    decreases |steps|
  {
    if |steps| > 0 {
      assert forall n :: 0 <= n < |steps| - 1 ==> Front(steps)[n] == steps[n];
      LegHoldsUnnamed(Front(steps), key);
      assert steps[|steps| - 1] == Last(steps);
      LegStepKeepsUnnamed(After(Start, Front(steps)), Last(steps), key);
    }
  }

  /** No leg is at work on the key, and the release pass holds no copy of its lock that names
      a trade. */
  predicate LeftAlone(phase: Phase, key: string) {
    match phase
    case Idle => true
    case Releasing(pending, _) => key in pending ==> pending[key].tradeId.None?
    case _ => EntryKey(phase.symbol) != key
  }

  predicate Orphaned(s: State, key: string) {
    Unnamed(s.log, key) && LeftAlone(s.phase, key)
  }

  lemma OrphanLogStays(s: State, step: Step, key: string)
    requires Orphaned(s, key) && step != OperatorClears(key) && Enabled(s, step)
    ensures Unnamed(Apply(s, step).log, key)
  {
    hide AfterCall, EntryKey, Unnamed;
    match step
    case Acquire(symbol) => CallKeepsUnnamed(s.log, CallAcquire(symbol, "BUY", "", ""), key);
    case AbortClears(_) => CallKeepsUnnamed(s.log, CallClear(EntryKey(s.phase.symbol), s.phase.reason), key);
    case MarkSubmitted(_) => CallKeepsUnnamed(s.log, CallMark(EntryKey(s.phase.symbol), Some(s.phase.orderId), s.phase.tradeId), key);
    case ReleaseNext(k, _) =>
      if k != key {
        CallKeepsUnnamed(s.log, CallClear(k, TradeTerminal), key);
      }
    case OperatorClears(k) => CallKeepsUnnamed(s.log, CallClear(k, OperatorCleared), key);
    case LogNoise(line) => CallKeepsUnnamed(s.log, Noise(line), key);
    case _ =>
  }

  lemma OrphanStays(s: State, step: Step, key: string)
    requires Orphaned(s, key) && step != OperatorClears(key)
    ensures Orphaned(Apply(s, step), key)
  {
    if Enabled(s, step) {
      OrphanLogStays(s, step, key);
      hide AfterCall, EntryKey, Replay;
    }
  }

  lemma {:induction false} OrphanRemains(s: State, rest: seq<Step>, key: string)
    requires Orphaned(s, key) && NeverCleared(rest, key)
    ensures Orphaned(After(s, rest), key)
    decreases |rest|
  {
    if |rest| > 0 {
      assert forall n :: 0 <= n < |rest| - 1 ==> Front(rest)[n] == rest[n];
      OrphanRemains(s, Front(rest), key);
      assert rest[|rest| - 1] == Last(rest);
      OrphanStays(After(s, Front(rest)), Last(rest), key);
    }
  }

  /** A crash anywhere between the lock of a leg and its SUBMITTED mark, before the broker or
      after, blocks the key: no gate pass and no other leg frees it, whatever they do, until an
      operator clears it. */
  lemma CrashBlocksUntilOperator(steps: seq<Step>, rest: seq<Step>, key: string)
    requires NeverCleared(steps, key) && InsideLeg(After(Start, steps), key) && NeverCleared(rest, key)
    ensures ActiveIn(After(Apply(After(Start, steps), Crash), rest).log, key)
  {
    LegHoldsUnnamed(steps, key);
    OrphanRemains(Apply(After(Start, steps), Crash), rest, key);
  }
}
