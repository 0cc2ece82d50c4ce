/** A second thread beside the runner: the gate evaluation that the background tick or a web page
    starts on a runner of its own, over the same lock log and trade store. It lists the active
    locks, then reads the trades, then clears one listed key after the other, while the first
    runner goes on. The clear is by key and does not look at the lock again. */
module LiveRace {
  import opened Common
  import opened Idempotency
  import opened LiveProtocol

  // ---------------------------------------------------------------- two threads

  /** Where the other gate evaluation is. */
  datatype Other =
    | Away
    | Listed(pending: map<string, Lock>)
    | Judging(pending: map<string, Lock>, seen: map<string, Trade>)

  datatype Pair = Pair(live: State, other: Other)

  datatype Move =
    | First(step: Step)
    | Lists
    | Reads
    | Releases(key: string, written: bool)
    | Leaves

  predicate Possible(p: Pair, m: Move) {
    match m
    case First(_) => true
    case Lists => p.other.Away?
    case Reads => p.other.Listed?
    case Releases(key, _) => p.other.Judging? && key in p.other.pending
    case Leaves => p.other.Judging? && p.other.pending == map[]
  }

  /** The other thread writes a CLEAR for the key of a lock it has listed. */
  predicate Clears(p: Pair, m: Move) {
    m.Releases? && m.written && Possible(p, m) && ReleasesLock(p.other.pending[m.key], p.other.seen)
  }

  function WithClear(s: State, key: string): State {
    s.(log := AfterCall(s.log, CallClear(key, TradeTerminal)))
  }

  /** One move of either thread; a crash ends both. */
  function Moved(p: Pair, m: Move): Pair {
    if !Possible(p, m) then p else
    match m
    case First(step) => Pair(Apply(p.live, step), if step.Crash? then Away else p.other)
    case Lists => p.(other := Listed(ActiveLocks(p.live.log)))
    case Reads => p.(other := Judging(p.other.pending, p.live.trades))
    case Releases(key, _) =>
      Pair(if Clears(p, m) then WithClear(p.live, key) else p.live, Judging(p.other.pending - {key}, p.other.seen))
    case Leaves => p.(other := Away)
  }

  function AfterMoves(p: Pair, moves: seq<Move>): Pair {
    if |moves| == 0 then p else Moved(AfterMoves(p, Front(moves)), Last(moves))
  }

  // ---------------------------------------------------------------- one clear

  /** The other thread's list names keys the log knows, and what it saw terminal still is. */
  ghost predicate OtherOk(p: Pair) {
    && (!p.other.Away? ==> forall k :: k in p.other.pending ==> k != "" && k in Replay(p.live.log))
    && (p.other.Judging? ==>
          forall t :: t in p.other.seen && Terminal(p.other.seen[t].status) ==> t in p.live.trades && Terminal(p.live.trades[t].status))
  }

  predicate NamesTerminal(lock: Lock, trades: map<string, Trade>) {
    lock.tradeId.Some? && lock.tradeId.value in trades && Terminal(trades[lock.tradeId.value].status)
  }

  /** A CLEAR of the key now would follow every accepted entry of it that is not cleared yet
      with good reason: the current lock names a terminal trade. */
  ghost predicate MayClear(s: State, key: string) {
    AllCleared(s, key) || (key in Replay(s.log) && NamesTerminal(Replay(s.log)[key], s.trades))
  }

  lemma ClearKeepsInv(s: State, key: string, just: bool)
    requires Inv(s, just) && key in Replay(s.log) && !BeforeBroker(s, key) && (just ==> MayClear(s, key))
    ensures Inv(WithClear(s, key), just)
  {
    ReplayKeyed(s.log);
    var line := Record(ClearOp, ClearedLock(Replay(s.log)[key], TradeTerminal));
    forall i | just && 0 <= i < |s.broker| && s.broker[i].key == key && !ClearedSince(s.log, key, s.broker[i].at)
      ensures Justified(line, s.broker[i], s.trades)
    {
      assert Bound(Replay(s.log)[key], s.broker[i], s.trades);
    }
    hide ClearBetween, EntryKey;
    AppendKeepsHistory(s, line, just);
    AppendKeepsPhase(s, line, just);
  }

  /** The promise about CLEARs survives a clear of a key exactly when it may be cleared: when no
      accepted entry of it is waiting for one, or the lock current by now names a terminal
      trade. Looking at the lock again would tell. */
  lemma ClearIsJustExactly(s: State, key: string)
    requires Inv(s, true) && key in Replay(s.log)
    ensures ClearsJustified(WithClear(s, key)) <==> MayClear(s, key)
  {
    ReplayKeyed(s.log);
    var line := Record(ClearOp, ClearedLock(Replay(s.log)[key], TradeTerminal));
    var after := s.log + [line];
    assert WithClear(s, key).log == after;
    if MayClear(s, key) {
      JustClearIsJust(s, key, line);
    } else {
      var i :| 0 <= i < |s.broker| && s.broker[i].key == key && !ClearedSince(s.log, key, s.broker[i].at);
      assert forall k :: 0 <= k < |s.log| ==> after[k] == s.log[k];
      assert after[|s.log|] == line && IsClearOf(line, key);
      assert FirstClear(after, key, s.broker[i].at, |s.log|);
      assert !Justified(line, s.broker[i], s.trades);
    }
  }

  lemma JustClearIsJust(s: State, key: string, line: Line)
    requires Inv(s, true) && key in Replay(s.log) && MayClear(s, key) && key != ""
    requires line == Record(ClearOp, ClearedLock(Replay(s.log)[key], TradeTerminal)) && line.lock.key == key
    ensures ClearsJustified(s.(log := s.log + [line]))
  {
    forall i | 0 <= i < |s.broker| && s.broker[i].key == key && !ClearedSince(s.log, key, s.broker[i].at)
      ensures Justified(line, s.broker[i], s.trades)
    {
      assert Bound(Replay(s.log)[key], s.broker[i], s.trades);
    }
    hide ClearBetween, EntryKey;
    AppendKeepsHistory(s, line, true);
  }

  // ---------------------------------------------------------------- every run of both

  /** A clear of a key that a leg of the first thread holds short of the broker. */
  predicate Hits(p: Pair, m: Move) {
    || (m.First? && m.step.OperatorClears? && BeforeBroker(p.live, m.step.key))
    || (Clears(p, m) && BeforeBroker(p.live, m.key))
  }

  ghost predicate Undisturbed(p: Pair, moves: seq<Move>) {
    forall n :: 0 <= n < |moves| ==> !Hits(AfterMoves(p, moves[..n]), moves[n])
  }

  /** Every clear of the other thread is one it may write. */
  ghost predicate Careful(p: Pair, moves: seq<Move>) {
    forall n :: 0 <= n < |moves| && Clears(AfterMoves(p, moves[..n]), moves[n]) ==> MayClear(AfterMoves(p, moves[..n]).live, moves[n].key)
  }

  lemma AppendKeepsKnown(log: seq<Line>, line: Line, key: string)
    requires key in Replay(log)
    ensures key in Replay(log + [line])
  {
    ReplaySnoc(log, line);
  }

  lemma CallKeepsKnown(log: seq<Line>, call: Call, key: string)
    requires key in Replay(log)
    ensures key in Replay(AfterCall(log, call))
  {
    hide Appended, Replay;
    match Appended(log, call)
    case Some(line) => AppendKeepsKnown(log, line, key);
    case None =>
  }

  lemma StepKeepsKnown(s: State, step: Step, key: string)
    requires key in Replay(s.log)
    ensures key in Replay(Apply(s, step).log)
  {
    hide AfterCall, Replay, EntryKey;
    if Enabled(s, step) {
      match step
      case Acquire(symbol) => CallKeepsKnown(s.log, CallAcquire(symbol, "BUY", "", ""), key);
      case AbortClears(_) => CallKeepsKnown(s.log, CallClear(EntryKey(s.phase.symbol), s.phase.reason), key);
      case MarkSubmitted(_) => CallKeepsKnown(s.log, CallMark(EntryKey(s.phase.symbol), Some(s.phase.orderId), s.phase.tradeId), key);
      case ReleaseNext(k, _) => CallKeepsKnown(s.log, CallClear(k, TradeTerminal), key);
      case OperatorClears(k) => CallKeepsKnown(s.log, CallClear(k, OperatorCleared), key);
      case LogNoise(line) => CallKeepsKnown(s.log, Noise(line), key);
      case _ =>
    }
  }

  lemma StepKeepsTerminal(s: State, step: Step, t: string)
    requires s.trades.Keys <= s.minted && t in s.trades && Terminal(s.trades[t].status)
    ensures t in Apply(s, step).trades && Terminal(Apply(s, step).trades[t].status)
  {
    hide AfterCall, EntryKey;
  }

  lemma MoveKeepsOther(p: Pair, m: Move)
    requires OtherOk(p) && p.live.trades.Keys <= p.live.minted
    ensures OtherOk(Moved(p, m))
  {
    ReplayKeyed(p.live.log);
    match m
    case First(step) =>
      var after := Moved(p, m);
      hide Apply, Replay;
      if !after.other.Away? {
        forall k | k in p.other.pending ensures k in Replay(after.live.log) {
          StepKeepsKnown(p.live, step, k);
        }
        if after.other.Judging? {
          forall t | t in p.other.seen && Terminal(p.other.seen[t].status)
            ensures t in after.live.trades && Terminal(after.live.trades[t].status)
          {
            StepKeepsTerminal(p.live, step, t);
          }
        }
      }
    case Releases(key, _) =>
      if Possible(p, m) {
        var after := Moved(p, m);
        forall k | k in after.other.pending ensures k != "" && k in Replay(after.live.log) {
          CallKeepsKnown(p.live.log, CallClear(key, TradeTerminal), k);
        }
      }
    case _ =>
  }

  lemma MoveKeepsInv(p: Pair, m: Move, just: bool)
    requires Inv(p.live, just) && OtherOk(p) && !Hits(p, m)
    requires just && Clears(p, m) ==> MayClear(p.live, m.key)
    ensures Inv(Moved(p, m).live, just) && OtherOk(Moved(p, m))
  {
    MoveKeepsOther(p, m);
    hide Inv, MayClear, BeforeBroker, WithClear, Apply, Replay;
    if m.First? {
      StepKeepsInv(p.live, m.step, just);
    } else if Clears(p, m) {
      ClearKeepsInv(p.live, m.key, just);
    }
  }

  lemma {:induction false} MovesKeepInv(p: Pair, moves: seq<Move>, just: bool)
    requires Inv(p.live, just) && OtherOk(p) && Undisturbed(p, moves) && (just ==> Careful(p, moves))
    ensures Inv(AfterMoves(p, moves).live, just) && OtherOk(AfterMoves(p, moves))
    decreases |moves|
  {
    hide Inv, OtherOk, Hits, Clears, MayClear;
    if |moves| > 0 {
      var n := |moves| - 1;
      assert forall k :: 0 <= k < n ==> moves[..n][..k] == moves[..k] && moves[..n][k] == moves[k];
      assert moves[..n] == Front(moves);
      MovesKeepInv(p, Front(moves), just);
      MoveKeepsInv(AfterMoves(p, Front(moves)), moves[n], just);
    }
  }

  /** Both threads at rest over empty stores. */
  const Outset: Pair := Pair(Start, Away)

  /** Safety over every run of both threads: as long as no clear, an operator's or the other
      thread's, hits a leg short of the broker, accepted entries of one key are separated by a
      CLEAR and block their key until one comes; and as long as the other thread clears only
      what may be cleared, that CLEAR is an operator's or follows the terminal trade of the
      very order. */
  lemma EntriesAreExclusiveBeside(moves: seq<Move>)
    requires Undisturbed(Outset, moves)
    ensures var s := AfterMoves(Outset, moves).live;
            Separated(s) && EntriesBlock(s) && (Careful(Outset, moves) ==> ClearsJustified(s))
  {
    StartHolds("");
    MovesKeepInv(Outset, moves, false);
    if Careful(Outset, moves) {
      MovesKeepInv(Outset, moves, true);
    }
  }

  /** A lock that is still the one listed, or by now cleared, may be cleared and is not held. */
  lemma FreshMayBeCleared(p: Pair, m: Move)
    requires Inv(p.live, false) && OtherOk(p) && Clears(p, m)
    requires Replay(p.live.log)[m.key] == p.other.pending[m.key] || !ActiveIn(p.live.log, m.key)
    ensures MayClear(p.live, m.key) && !Hits(p, m)
  {
    if !ActiveIn(p.live.log, m.key) {
      assert forall i :: 0 <= i < |p.live.broker| && p.live.broker[i].key == m.key ==> ClearedSince(p.live.log, m.key, p.live.broker[i].at);
    }
  }

  // ---------------------------------------------------------------- exactly when it is safe

  lemma {:induction false} LiftedMoves(p: Pair, steps: seq<Step>) returns (moves: seq<Move>)
    requires NoOperator(steps)
    ensures |moves| == |steps| && (forall n :: 0 <= n < |steps| ==> moves[n] == First(steps[n]))
    ensures AfterMoves(p, moves).live == After(p.live, steps) && Undisturbed(p, moves)
    ensures (forall n :: 0 <= n < |steps| ==> !steps[n].Crash?) ==> AfterMoves(p, moves).other == p.other
    decreases |steps|
  {
    if |steps| == 0 {
      return [];
    }
    assert forall n :: 0 <= n < |steps| - 1 ==> Front(steps)[n] == steps[n];
    var front := LiftedMoves(p, Front(steps));
    moves := front + [First(Last(steps))];
    assert Front(moves) == front && steps[|steps| - 1] == Last(steps);
    assert forall n :: 0 <= n < |steps| ==> moves[n] == First(steps[n]);
  }

  /** A clear by the other thread keeps accepted entries separated in every undisturbed
      continuation of both threads if and only if no leg holds that key short of the broker. */
  lemma ReleaseIsSafeExactly(p: Pair, m: Move)
    requires Inv(p.live, false) && OtherOk(p) && Clears(p, m)
    ensures (forall rest :: Undisturbed(Moved(p, m), rest) ==> Separated(AfterMoves(Moved(p, m), rest).live))
       <==> !BeforeBroker(p.live, m.key)
  {
    if BeforeBroker(p.live, m.key) {
      ClearDeactivates(p.live.log, m.key, TradeTerminal);
      var steps := UnguardedContinuation(Moved(p, m).live, p.live.phase.symbol, m.key);
      var rest := LiftedMoves(Moved(p, m), steps);
      assert !Separated(AfterMoves(Moved(p, m), rest).live);
    } else {
      MoveKeepsInv(p, m, false);
      forall rest | Undisturbed(Moved(p, m), rest) ensures Separated(AfterMoves(Moved(p, m), rest).live) {
        MovesKeepInv(Moved(p, m), rest, false);
      }
    }
  }

  // ---------------------------------------------------------------- a run that fails

  /** A leg from its lock to the broker. */
  function ToBroker(symbol: string): seq<Step> {
    [Acquire(symbol), PlanRecorded(true), BrokerAccepts(1)]
  }

  /** Its trade recorded and, later, closed. */
  function ToClose(t: Trade): seq<Step> {
    [TradeWritten(t), MarkSubmitted(true), StoreUpdates(t.id, Closed)]
  }

  /** The first thread's own release of that leg, and the next one. */
  function ReleaseAndNext(symbol: string): seq<Step> {
    [ReleaseBegins, ReleaseNext(EntryKey(symbol), true), ReleaseEnds, Acquire(symbol)]
  }

  lemma ThreeSteps(s: State, a: Step, b: Step, c: Step)
    ensures After(s, [a, b, c]) == Apply(Apply(Apply(s, a), b), c)
  {
    hide Apply;
    assert Front([a, b, c]) == [a, b] && Front([a, b]) == [a] && Front([a]) == [];
    assert After(s, []) == s && After(s, [a]) == Apply(s, a) && After(s, [a, b]) == Apply(Apply(s, a), b);
  }

  lemma FourSteps(s: State, a: Step, b: Step, c: Step, d: Step)
    ensures After(s, [a, b, c, d]) == Apply(Apply(Apply(Apply(s, a), b), c), d)
  {
    hide Apply;
    assert Front([a, b, c, d]) == [a, b, c];
    ThreeSteps(s, a, b, c);
  }

  lemma TakenFirst(symbol: string, key: string)
    requires key == EntryKey(symbol)
    ensures Replay(AfterCall([], CallAcquire(symbol, "BUY", "", ""))) == map[key := FreshLock(symbol, "BUY", "", "")]
    ensures !ActiveIn([], key)
  {
    CallRefinesMap([], CallAcquire(symbol, "BUY", "", ""));
    hide AfterCall, FreshLock, BuildKey;
  }

  lemma LegSent(symbol: string, key: string) returns (s: State)
    requires key == EntryKey(symbol)
    ensures s == After(Start, ToBroker(symbol)) && s.phase == AtBroker(symbol, 1) && s.trades == map[] && s.minted == {}
    ensures Replay(s.log) == map[key := FreshLock(symbol, "BUY", "", "")]
  {
    TakenFirst(symbol, key);
    ThreeSteps(Start, Acquire(symbol), PlanRecorded(true), BrokerAccepts(1));
    hide Replay, ActiveIn, FreshLock, After, AfterCall;
    var s1 := Apply(Start, Acquire(symbol));
    assert s1 == Start.(log := AfterCall([], CallAcquire(symbol, "BUY", "", "")), phase := Held(symbol));
    var s2 := Apply(s1, PlanRecorded(true));
    assert s2 == s1.(phase := Planned(symbol));
    s := Apply(s2, BrokerAccepts(1));
  }

  lemma LegClosed(s: State, symbol: string, t: Trade, key: string, lock: Lock) returns (u: State)
    requires t.id != "" && t.status == Open && t.symbol == symbol && t.orderId == 1 && key == EntryKey(symbol)
    requires s.phase == AtBroker(symbol, 1) && s.trades == map[] && s.minted == {} && Replay(s.log) == map[key := lock]
    ensures u == After(s, ToClose(t)) && u.phase.Idle?
    ensures Replay(u.log) == map[key := MarkedLock(lock, Some(1), Some(t.id))] && u.trades == map[t.id := t.(status := Closed)]
  {
    CallRefinesMap(s.log, CallMark(key, Some(1), Some(t.id)));
    ThreeSteps(s, TradeWritten(t), MarkSubmitted(true), StoreUpdates(t.id, Closed));
    hide AfterCall, EntryKey, Replay, After, MarkedLock;
    var s1 := Apply(s, TradeWritten(t));
    assert s1 == s.(trades := map[t.id := t], minted := {t.id}, phase := Written(symbol, 1, Some(t.id)));
    var s2 := Apply(s1, MarkSubmitted(true));
    assert s2 == s1.(log := AfterCall(s.log, CallMark(key, Some(1), Some(t.id))), phase := Idle);
    u := Apply(s2, StoreUpdates(t.id, Closed));
  }

  lemma ReleasedThenTaken(log: seq<Line>, symbol: string, key: string, lock: Lock)
    requires key == EntryKey(symbol) && Replay(log) == map[key := lock] && lock.Active()
    ensures ActiveLocks(log) == map[key := lock]
    ensures var cleared := AfterCall(log, CallClear(key, TradeTerminal));
            !ActiveIn(cleared, key) && key in Replay(AfterCall(cleared, CallAcquire(symbol, "BUY", "", "")))
  {
    var release, take := CallClear(key, TradeTerminal), CallAcquire(symbol, "BUY", "", "");
    CallRefinesMap(log, release);
    CallRefinesMap(AfterCall(log, release), take);
    hide AfterCall, BuildKey, FreshLock;
  }

  lemma ReleasesIt(s: State, key: string, lock: Lock) returns (u: State)
    requires s.phase.Idle? && ActiveLocks(s.log) == map[key := lock] && ReleasesLock(lock, s.trades)
    ensures u == Apply(Apply(Apply(s, ReleaseBegins), ReleaseNext(key, true)), ReleaseEnds)
    ensures u.log == AfterCall(s.log, CallClear(key, TradeTerminal)) && u.trades == s.trades && u.phase == Idle
  {
    hide AfterCall, ActiveLocks, ReleasesLock;
    var s1 := Apply(s, ReleaseBegins);
    assert s1 == s.(phase := Releasing(map[key := lock], s.trades));
    var s2 := Apply(s1, ReleaseNext(key, true));
    assert s2.phase == Releasing(map[], s.trades);
    assert s2.log == AfterCall(s.log, CallClear(key, TradeTerminal)) && s2.trades == s.trades;
    u := Apply(s2, ReleaseEnds);
  }

  lemma Takes(s: State, symbol: string)
    requires s.phase.Idle? && !ActiveIn(s.log, EntryKey(symbol))
    ensures var u := Apply(s, Acquire(symbol));
            u.log == AfterCall(s.log, CallAcquire(symbol, "BUY", "", "")) && u.trades == s.trades && u.phase == Held(symbol)
  {
    hide AfterCall, ActiveIn, EntryKey;
  }

  lemma NextLegHeld(s: State, symbol: string, key: string, lock: Lock)
    requires s.phase.Idle? && key == EntryKey(symbol) && Replay(s.log) == map[key := lock] && lock.Active()
    requires ReleasesLock(lock, s.trades)
    ensures ActiveLocks(s.log) == map[key := lock]
    ensures var u := After(s, ReleaseAndNext(symbol));
            u.phase == Held(symbol) && u.trades == s.trades && key in Replay(u.log)
  {
    ReleasedThenTaken(s.log, symbol, key, lock);
    assert ReleaseAndNext(symbol) == [ReleaseBegins, ReleaseNext(key, true), ReleaseEnds, Acquire(symbol)];
    hide *;
    FourSteps(s, ReleaseBegins, ReleaseNext(key, true), ReleaseEnds, Acquire(symbol));
    var u := ReleasesIt(s, key, lock);
    Takes(u, symbol);
  }

  lemma {:induction false} MovesConcat(p: Pair, xs: seq<Move>, ys: seq<Move>)
    ensures AfterMoves(p, xs + ys) == AfterMoves(AfterMoves(p, xs), ys)
    decreases |ys|
  {
    if |ys| == 0 {
      assert xs + ys == xs;
    } else {
      assert Front(xs + ys) == xs + Front(ys) && Last(xs + ys) == Last(ys);
      MovesConcat(p, xs, Front(ys));
    }
  }

  lemma ListsAndReads(p: Pair)
    requires p.other.Away?
    ensures AfterMoves(p, [Lists, Reads]) == p.(other := Judging(ActiveLocks(p.live.log), p.live.trades))
  {
    hide ActiveLocks;
    assert Front([Lists, Reads]) == [Lists] && Front([Lists]) == [] && AfterMoves(p, []) == p;
    assert AfterMoves(p, [Lists]) == Moved(p, Lists);
  }

  lemma ListedCanBeCleared(p: Pair, key: string, lock: Lock)
    requires p.other.Judging? && p.other.pending == map[key := lock] && ReleasesLock(lock, p.other.seen)
    ensures Clears(p, Releases(key, true))
  {
  }

  lemma LegDone(symbol: string, t: Trade, key: string) returns (s: State, lock: Lock)
    requires t.id != "" && t.status == Open && t.symbol == symbol && t.orderId == 1 && key == EntryKey(symbol)
    ensures s == After(Start, ToBroker(symbol) + ToClose(t)) && s.phase.Idle? && Replay(s.log) == map[key := lock]
    ensures lock.key == key && lock.Active() && ReleasesLock(lock, s.trades)
  {
    var sent := LegSent(symbol, key);
    var taken := FreshLock(symbol, "BUY", "", "");
    lock := MarkedLock(taken, Some(1), Some(t.id));
    hide After, EntryKey, Replay;
    s := LegClosed(sent, symbol, t, key, taken);
    AfterConcat(Start, ToBroker(symbol), ToClose(t));
  }

  /** No operator takes part. */
  ghost predicate OnTheirOwn(moves: seq<Move>) {
    forall n :: 0 <= n < |moves| && moves[n].First? ==> !moves[n].step.OperatorClears?
  }

  ghost predicate NoCrash(steps: seq<Step>) {
    forall n :: 0 <= n < |steps| ==> !steps[n].Crash?
  }

  lemma FirstGoesOn(p: Pair, before: seq<Move>, steps: seq<Step>) returns (moves: seq<Move>)
    requires NoOperator(steps) && OnTheirOwn(before)
    ensures OnTheirOwn(moves) && AfterMoves(p, moves).live == After(AfterMoves(p, before).live, steps)
    ensures NoCrash(steps) ==> AfterMoves(p, moves).other == AfterMoves(p, before).other
  {
    hide After, AfterMoves, Undisturbed;
    var more := LiftedMoves(AfterMoves(p, before), steps);
    MovesConcat(p, before, more);
    moves := before + more;
  }

  lemma OtherGoesOn(p: Pair, before: seq<Move>, more: seq<Move>)
    requires OnTheirOwn(before) && OnTheirOwn(more)
    ensures OnTheirOwn(before + more) && AfterMoves(p, before + more) == AfterMoves(AfterMoves(p, before), more)
  {
    MovesConcat(p, before, more);
  }

  /** The other thread lists the lock of a closed trade; the first releases that lock itself and
      takes it for the next leg. */
  lemma StaleClear(symbol: string, t: Trade, key: string) returns (moves: seq<Move>)
    requires t.id != "" && t.status == Open && t.symbol == symbol && t.orderId == 1 && key == EntryKey(symbol)
    ensures var p := AfterMoves(Outset, moves);
            Clears(p, Releases(key, true)) && p.live.phase == Held(symbol) && key in Replay(p.live.log)
    ensures OnTheirOwn(moves)
  {
    var s, lock := LegDone(symbol, t, key);
    NextLegHeld(s, symbol, key, lock);
    var steps, more := ToBroker(symbol) + ToClose(t), ReleaseAndNext(symbol);
    assert NoOperator(steps) && NoOperator(more) && NoCrash(steps) && NoCrash(more);
    assert AfterMoves(Outset, []) == Outset && OnTheirOwn([]) && OnTheirOwn([Lists, Reads]);
    hide *;
    var one := FirstGoesOn(Outset, [], steps);
    ListsAndReads(AfterMoves(Outset, one));
    OtherGoesOn(Outset, one, [Lists, Reads]);
    moves := FirstGoesOn(Outset, one + [Lists, Reads], more);
    ListedCanBeCleared(AfterMoves(Outset, moves), key, lock);
  }

  /** A whole run from empty stores in which a stale clear lets a second entry of one symbol in,
      with no CLEAR between the two. */
  lemma StaleClearRun(symbol: string, t: Trade) returns (moves: seq<Move>)
    requires t.id != "" && t.status == Open && t.symbol == symbol && t.orderId == 1
    ensures !Separated(AfterMoves(Outset, moves).live)
    ensures OnTheirOwn(moves)
  {
    var key := EntryKey(symbol);
    var before := StaleClear(symbol, t, key);
    var p, m := AfterMoves(Outset, before), Releases(key, true);
    ClearDeactivates(p.live.log, key, TradeTerminal);
    assert Front([m]) == [] && AfterMoves(p, []) == p && AfterMoves(p, [m]) == Moved(p, m) && OnTheirOwn([m]);
    hide Replay, EntryKey, AfterCall, ActiveIn, Separated, OnTheirOwn, AfterMoves, After;
    var steps := UnguardedContinuation(Moved(p, m).live, symbol, key);
    OtherGoesOn(Outset, before, [m]);
    moves := FirstGoesOn(Outset, before + [m], steps);
  }
}
