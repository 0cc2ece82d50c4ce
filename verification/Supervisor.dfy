/** The continuous supervisor: calls of `run_cycle` as interleaved steps, and the object as
    it behaves when calls do not overlap. Times are whole seconds. */
module Supervisor {
  import opened Common

  // ---------------------------------------------------------------- one call on its own

  /** The fields behind the state lock; `pauses` numbers the times the pause was set. */
  datatype Shared = Shared(
    paused: bool,
    pauses: nat,
    nextEligible: Option<int>,
    lastFinished: Option<int>,
    started: nat,
    completed: nat,
    failed: nat,
    overlaps: nat,
    cadenceSkips: nat)

  const Initial: Shared := Shared(false, 0, None, None, 0, 0, 0, 0, 0)

  datatype Outcome = Completed | Faulted | Overlapped | TooSoon | WasPaused

  function Paused(s: Shared): Shared {
    s.(paused := true, pauses := s.pauses + 1)
  }

  function Resumed(s: Shared): Shared {
    s.(paused := false)
  }

  /** Finished with a fault: paused until resumed. */
  function WithFault(s: Shared, cadence: int, finish: int): Shared {
    Paused(s).(lastFinished := Some(finish), nextEligible := Some(finish + cadence), failed := s.failed + 1)
  }

  function WithSuccess(s: Shared, cadence: int, finish: int): Shared {
    s.(lastFinished := Some(finish), nextEligible := Some(finish + cadence), completed := s.completed + 1)
  }

  /** Why a call is turned away before it asks for the run lock, if it is. */
  function TurnedAway(s: Shared, now: int): Option<Outcome> {
    if s.paused then Some(WasPaused)
    else if s.nextEligible.Some? && now < s.nextEligible.value then Some(TooSoon)
    else None
  }

  function Refusal(s: Shared, why: Outcome): Shared {
    if why.TooSoon? then s.(cadenceSkips := s.cadenceSkips + 1) else s
  }

  /** How the supervised work ends: a fault reported before the tick, or by it, or none. */
  datatype Ending = FaultBefore | FaultFromTick | Fine

  /** The clock readings of one call and how it ends. */
  datatype Script = Script(now: int, start: int, finish: int, ending: Ending)

  predicate Ticks(s: Shared, c: Script) {
    TurnedAway(s, c.now).None? && !c.ending.FaultBefore?
  }

  /** `run_cycle` with nobody else inside. */
  function CallAlone(cadence: int, s: Shared, c: Script): (Shared, Outcome) {
    match TurnedAway(s, c.now)
    case Some(why) => (Refusal(s, why), why)
    case None =>
      var begun := s.(started := s.started + 1);
      if c.ending.Fine? then (WithSuccess(begun, cadence, c.finish), Completed) else (WithFault(begun, cadence, c.finish), Faulted)
  }

  class ContinuousSupervisor {
    const cadence: int
    var paused: bool
    ghost var pauses: nat
    var nextEligible: Option<int>
    var lastFinished: Option<int>
    var started: nat
    var completed: nat
    var failed: nat
    var overlaps: nat
    var cadenceSkips: nat

    ghost function View(): Shared
      reads this
    {
      Shared(paused, pauses, nextEligible, lastFinished, started, completed, failed, overlaps, cadenceSkips)
    }

    constructor (seconds: int)
      ensures View() == Initial && cadence >= 1 && cadence >= seconds
    {
      cadence := if seconds < 1 then 1 else seconds;
      paused, pauses, nextEligible, lastFinished := false, 0, None, None;
      started, completed, failed, overlaps, cadenceSkips := 0, 0, 0, 0, 0;
    }

    method Pause()
      modifies this
      ensures View() == Paused(old(View()))
    {
      paused := true;
      pauses := pauses + 1;
    }

    method Resume()
      modifies this
      ensures View() == Resumed(old(View()))
    {
      paused := false;
    }

    method PauseWithFault(finish: int)
      modifies this
      ensures View() == WithFault(old(View()), cadence, finish)
    {
      Pause();
      lastFinished := Some(finish);
      nextEligible := Some(finish + cadence);
      failed := failed + 1;
    }

    method RunCycle(c: Script) returns (outcome: Outcome, ticked: bool)
      modifies this
      ensures (View(), outcome) == CallAlone(cadence, old(View()), c)
      ensures ticked == Ticks(old(View()), c)
    {
      if paused {
        return WasPaused, false;
      }
      if nextEligible.Some? && c.now < nextEligible.value {
        cadenceSkips := cadenceSkips + 1;
        return TooSoon, false;
      }
      started := started + 1;
      if c.ending == FaultBefore {
        PauseWithFault(c.finish);
        return Faulted, false;
      }
      if c.ending == FaultFromTick {
        PauseWithFault(c.finish);
        return Faulted, true;
      }
      lastFinished := Some(c.finish);
      nextEligible := Some(c.finish + cadence);
      completed := completed + 1;
      return Completed, true;
    }
  }

  // ---------------------------------------------------------------- calls one after another

  datatype Op = Call(c: Script) | PauseNow | ResumeNow

  function Step(cadence: int, s: Shared, op: Op): Shared {
    match op
    case Call(c) => CallAlone(cadence, s, c).0
    case PauseNow => Paused(s)
    case ResumeNow => Resumed(s)
  }

  function Run(cadence: int, ops: seq<Op>): Shared {
    if |ops| == 0 then Initial else Step(cadence, Run(cadence, Front(ops)), Last(ops))
  }

  /** Some call ended in a fault and nobody has resumed since. */
  predicate FaultPending(cadence: int, ops: seq<Op>) {
    |ops| > 0 && !Last(ops).ResumeNow?
    && (FaultPending(cadence, Front(ops))
        || (Last(ops).Call? && CallAlone(cadence, Run(cadence, Front(ops)), Last(ops).c).1.Faulted?))
  }

  lemma {:induction false} FaultKeepsPaused(cadence: int, ops: seq<Op>)
    ensures FaultPending(cadence, ops) ==> Run(cadence, ops).paused
    ensures var s := Run(cadence, ops);
            s.nextEligible == if s.lastFinished.Some? then Some(s.lastFinished.value + cadence) else None
    ensures var s := Run(cadence, ops); s.started == s.completed + s.failed && s.overlaps == 0
    decreases |ops|
  {
    if |ops| > 0 {
      FaultKeepsPaused(cadence, Front(ops));
    }
  }

  /** When calls do not overlap, a call that ticks does so with no fault pending, and on a
      clock that does not run backward no sooner than the cadence after the last finish. */
  lemma SequentialTicks(cadence: int, ops: seq<Op>, c: Script)
    requires Ticks(Run(cadence, ops), c) && c.now <= c.start
    ensures !FaultPending(cadence, ops)
    ensures Run(cadence, ops).lastFinished.Some? ==> c.start >= Run(cadence, ops).lastFinished.value + cadence
  {
    FaultKeepsPaused(cadence, ops);
  }

  /** When calls do not overlap, a call ticks exactly when the supervisor is not paused, the
      cadence has passed since the last finish, and no fault is found first. */
  lemma TicksExactly(cadence: int, ops: seq<Op>, c: Script)
    ensures var s := Run(cadence, ops);
            Ticks(s, c) <==> && !s.paused && (s.lastFinished.Some? ==> s.lastFinished.value + cadence <= c.now)
                             && (c.ending == Fine || c.ending == FaultFromTick)
  {
    FaultKeepsPaused(cadence, ops);
  }

  /** Whether it is paused is decided by the last that was done about it. */
  lemma {:induction false} PausedExactly(cadence: int, ops: seq<Op>)
    requires |ops| > 0
    ensures var (before, last, s) := (Run(cadence, Front(ops)), Last(ops), Run(cadence, ops));
            s.paused <==> || last == PauseNow
                          || (last.Call? && (before.paused || (Ticks(before, last.c.(ending := Fine)) && last.c.ending != Fine)))
  {
  }

  // ---------------------------------------------------------------- calls interleaved

  type CallId = nat

  /** Where a call stands. `seen` is the number of the last pause when it was let in. */
  datatype Phase =
    | Entered(now: int)
    | Admitted(seen: nat)
    | Blocked
    | Holding(seen: nat)
    | Begun(seen: nat)
    | Ticking
    | Resolved(outcome: Outcome)
    | Ended(outcome: Outcome)

  datatype System = System(shared: Shared, holder: Option<CallId>, calls: map<CallId, Phase>)

  const Idle: System := System(Initial, None, map[])

  datatype Action =
    | Begin(id: CallId, now: int)
    | Check(id: CallId)
    | TryLock(id: CallId)
    | CountOverlap(id: CallId)
    | CountStart(id: CallId)
    | StartTick(id: CallId)
    | Fail(id: CallId, finish: int)
    | Succeed(id: CallId, finish: int)
    | Release(id: CallId)
    | OperatorPause
    | OperatorResume

  /** The action is the next step of its call. */
  predicate Enabled(y: System, a: Action) {
    match a
    case Begin(id, _) => id !in y.calls
    case Check(id) => id in y.calls && y.calls[id].Entered?
    case TryLock(id) => id in y.calls && y.calls[id].Admitted?
    case CountOverlap(id) => id in y.calls && y.calls[id].Blocked?
    case CountStart(id) => id in y.calls && y.calls[id].Holding?
    case StartTick(id) => id in y.calls && y.calls[id].Begun?
    case Fail(id, _) => id in y.calls && (y.calls[id].Begun? || y.calls[id].Ticking?)
    case Succeed(id, _) => id in y.calls && y.calls[id].Ticking?
    case Release(id) => id in y.calls && y.calls[id].Resolved?
    case OperatorPause => true
    case OperatorResume => true
  }

  function Move(y: System, id: CallId, p: Phase, s: Shared): System {
    y.(shared := s, calls := y.calls[id := p])
  }

  /** One atomic step; each holds the state lock throughout, or touches only the run lock. */
  function Act(cadence: int, y: System, a: Action): System
    requires Enabled(y, a)
  {
    var s := y.shared;
    match a
    case Begin(id, now) => Move(y, id, Entered(now), s)
    case Check(id) =>
      var away := TurnedAway(s, y.calls[id].now);
      if away.Some? then Move(y, id, Ended(away.value), Refusal(s, away.value)) else Move(y, id, Admitted(s.pauses), s)
    case TryLock(id) =>
      if y.holder.None? then Move(y, id, Holding(y.calls[id].seen), s).(holder := Some(id)) else Move(y, id, Blocked, s)
    case CountOverlap(id) => Move(y, id, Ended(Overlapped), s.(overlaps := s.overlaps + 1))
    case CountStart(id) => Move(y, id, Begun(y.calls[id].seen), s.(started := s.started + 1))
    case StartTick(id) => Move(y, id, Ticking, s)
    case Fail(id, finish) => Move(y, id, Resolved(Faulted), WithFault(s, cadence, finish))
    case Succeed(id, finish) => Move(y, id, Resolved(Completed), WithSuccess(s, cadence, finish))
    case Release(id) => Move(y, id, Ended(y.calls[id].outcome), s).(holder := None)
    case OperatorPause => y.(shared := Paused(s))
    case OperatorResume => y.(shared := Resumed(s))
  }

  /** The actions one after another, or nothing when one of them is not enabled. */
  function Acts(cadence: int, y: System, actions: seq<Action>): Option<System>
    decreases |actions|
  {
    if |actions| == 0 then Some(y)
    else if !Enabled(y, actions[0]) then None
    else Acts(cadence, Act(cadence, y, actions[0]), actions[1..])
  }

  /** The check of a call, whatever the others do: turned away while paused, turned away and
      counted while not due, let in otherwise. */
  lemma CheckExactly(cadence: int, y: System, id: CallId)
    requires id in y.calls && y.calls[id].Entered?
    ensures Enabled(y, Check(id))
    ensures var (s, now, after) := (y.shared, y.calls[id].now, Act(cadence, y, Check(id)));
            var due := s.nextEligible.Some? ==> s.nextEligible.value <= now;
            && id in after.calls
            && (s.paused ==> after.calls[id] == Ended(WasPaused) && after.shared == s)
            && (!s.paused && !due ==> after.calls[id] == Ended(TooSoon) && after.shared == s.(cadenceSkips := s.cadenceSkips + 1))
            && (!s.paused && due ==> after.calls[id] == Admitted(s.pauses) && after.shared == s)
  {
  }

  /** An operator can always pause and resume: a call checked next is turned away, or judged by
      the cadence alone. */
  lemma OperatorDecides(cadence: int, y: System, id: CallId)
    requires id in y.calls && y.calls[id].Entered?
    ensures Enabled(y, OperatorPause) && Enabled(y, OperatorResume)
    ensures var after := Act(cadence, y, OperatorPause);
            Enabled(after, Check(id)) && Act(cadence, after, Check(id)).calls == y.calls[id := Ended(WasPaused)]
    ensures var after := Act(cadence, y, OperatorResume);
            && Enabled(after, Check(id))
            && ((y.shared.nextEligible.Some? ==> y.shared.nextEligible.value <= y.calls[id].now)
                ==> Act(cadence, after, Check(id)).calls == y.calls[id := Admitted(y.shared.pauses)])
  {
  }

  predicate Reached(cadence: int, actions: seq<Action>, y: System) {
    Acts(cadence, Idle, actions) == Some(y)
  }

  // ---------------------------------------------------------------- what every interleaving keeps

  predicate HoldsLock(p: Phase) {
    p.Holding? || p.Begun? || p.Ticking? || p.Resolved?
  }

  /** Counted as started and not yet as completed or failed. */
  predicate Unresolved(p: Phase) {
    p.Begun? || p.Ticking?
  }

  predicate ResultIs(p: Phase, o: Outcome) {
    (p.Resolved? || p.Ended?) && p.outcome == o
  }

  function WithResult(calls: map<CallId, Phase>, o: Outcome): set<CallId> {
    set id | id in calls && ResultIs(calls[id], o)
  }

  function UnresolvedCalls(calls: map<CallId, Phase>): set<CallId> {
    set id | id in calls && Unresolved(calls[id])
  }

  predicate LockIsRight(y: System, id: CallId) {
    id in y.calls && HoldsLock(y.calls[id]) <==> y.holder == Some(id)
  }

  /** Nobody was let in past a pause: if none was set since, there is none. */
  predicate SeenIsRight(s: Shared, p: Phase) {
    (p.Admitted? || p.Holding? || p.Begun?) ==> p.seen <= s.pauses && (p.seen == s.pauses ==> !s.paused)
  }

  ghost predicate LocksRight(y: System) {
    forall id :: LockIsRight(y, id)
  }

  ghost predicate SeenRight(y: System) {
    forall id :: id in y.calls ==> SeenIsRight(y.shared, y.calls[id])
  }

  predicate CountsRight(y: System) {
    && y.shared.completed == |WithResult(y.calls, Completed)|
    && y.shared.failed == |WithResult(y.calls, Faulted)|
    && y.shared.overlaps == |WithResult(y.calls, Overlapped)|
    && y.shared.cadenceSkips == |WithResult(y.calls, TooSoon)|
    && y.shared.started == y.shared.completed + y.shared.failed + |UnresolvedCalls(y.calls)|
  }

  ghost predicate Sound(y: System) {
    && LocksRight(y) && SeenRight(y) && CountsRight(y)
    && (forall id :: id in y.calls && y.calls[id].Resolved? ==> y.calls[id].outcome in {Completed, Faulted})
  }

  function One(b: bool): nat {
    if b then 1 else 0
  }

  lemma WithoutOne(s: set<CallId>, id: CallId)
    ensures |s| == |s - {id}| + One(id in s)
  {
    if id in s {
      assert s == (s - {id}) + {id};
    } else {
      assert s == s - {id};
    }
  }

  lemma CountOneMove(before: set<CallId>, after: set<CallId>, id: CallId)
    requires forall x :: x != id ==> (x in before <==> x in after)
    ensures |after| == |before| - One(id in before) + One(id in after)
  {
    WithoutOne(before, id);
    WithoutOne(after, id);
    assert before - {id} == after - {id};
  }

  lemma MoveResults(calls: map<CallId, Phase>, id: CallId, p: Phase, o: Outcome)
    ensures |WithResult(calls[id := p], o)| ==
            |WithResult(calls, o)| - One(id in calls && ResultIs(calls[id], o)) + One(ResultIs(p, o))
  {
    hide ResultIs;
    var before, after := WithResult(calls, o), WithResult(calls[id := p], o);
    assert forall x :: x != id ==> (x in before <==> x in after);
    CountOneMove(before, after, id);
  }

  lemma MoveUnresolved(calls: map<CallId, Phase>, id: CallId, p: Phase)
    ensures |UnresolvedCalls(calls[id := p])| ==
            |UnresolvedCalls(calls)| - One(id in calls && Unresolved(calls[id])) + One(Unresolved(p))
  {
    hide Unresolved;
    var before, after := UnresolvedCalls(calls), UnresolvedCalls(calls[id := p]);
    assert forall x :: x != id ==> (x in before <==> x in after);
    CountOneMove(before, after, id);
  }

  lemma ActKeepsCounts(cadence: int, y: System, a: Action)
    requires CountsRight(y) && Enabled(y, a)
    requires a.Release? ==> y.calls[a.id].outcome in {Completed, Faulted}
    ensures CountsRight(Act(cadence, y, a))
  {
    if !a.OperatorPause? && !a.OperatorResume? {
      var p := Act(cadence, y, a).calls[a.id];
      MoveResults(y.calls, a.id, p, Completed);
      MoveResults(y.calls, a.id, p, Faulted);
      MoveResults(y.calls, a.id, p, Overlapped);
      MoveResults(y.calls, a.id, p, TooSoon);
      MoveUnresolved(y.calls, a.id, p);
    }
  }

  lemma ActKeepsLocks(cadence: int, y: System, a: Action)
    requires LocksRight(y) && Enabled(y, a)
    ensures LocksRight(Act(cadence, y, a))
  {
    var z := Act(cadence, y, a);
    forall id ensures LockIsRight(z, id) {
      assert LockIsRight(y, id);
      if !a.OperatorPause? && !a.OperatorResume? {
        assert LockIsRight(y, a.id);
      }
    }
  }

  lemma ActKeepsSeen(cadence: int, y: System, a: Action)
    requires SeenRight(y) && Enabled(y, a)
    ensures SeenRight(Act(cadence, y, a))
  {
    var z := Act(cadence, y, a);
    forall id | id in z.calls ensures SeenIsRight(z.shared, z.calls[id]) {
      if id in y.calls {
        assert SeenIsRight(y.shared, y.calls[id]);
      }
    }
  }

  lemma ActKeepsSound(cadence: int, y: System, a: Action)
    requires Sound(y) && Enabled(y, a)
    ensures Sound(Act(cadence, y, a))
  {
    ActKeepsCounts(cadence, y, a);
    ActKeepsLocks(cadence, y, a);
    ActKeepsSeen(cadence, y, a);
  }

  lemma {:induction false} ActsKeepSound(cadence: int, y: System, actions: seq<Action>)
    requires Sound(y) && Acts(cadence, y, actions).Some?
    ensures Sound(Acts(cadence, y, actions).value)
    decreases |actions|
  {
    if |actions| > 0 {
      ActKeepsSound(cadence, y, actions[0]);
      ActsKeepSound(cadence, Act(cadence, y, actions[0]), actions[1..]);
    }
  }

  lemma ReachedIsSound(cadence: int, actions: seq<Action>, y: System)
    requires Reached(cadence, actions, y)
    ensures Sound(y)
  {
    assert Sound(Idle) by {
      assert UnresolvedCalls(map[]) == {};
      forall o ensures WithResult(map[], o) == {} {
      }
    }
    ActsKeepSound(cadence, Idle, actions);
  }

  /** Under every interleaving at most one tick runs, and only while its call has the lock. */
  lemma OneTickAtATime(cadence: int, actions: seq<Action>, y: System, a: CallId, b: CallId)
    requires Reached(cadence, actions, y)
    requires a in y.calls && y.calls[a].Ticking? && b in y.calls && y.calls[b].Ticking?
    ensures a == b && y.holder == Some(a)
  {
    ReachedIsSound(cadence, actions, y);
    assert LockIsRight(y, a) && LockIsRight(y, b);
  }

  /** Under every interleaving each counter counts the calls that ended its way, and cycles
      started are those completed, those failed, and the one not resolved yet, if any. */
  lemma CountersAddUp(cadence: int, actions: seq<Action>, y: System)
    requires Reached(cadence, actions, y)
    ensures y.shared.started == y.shared.completed + y.shared.failed + |UnresolvedCalls(y.calls)|
    ensures |UnresolvedCalls(y.calls)| <= 1
    ensures y.shared.completed == |WithResult(y.calls, Completed)| && y.shared.failed == |WithResult(y.calls, Faulted)|
    ensures y.shared.overlaps == |WithResult(y.calls, Overlapped)| && y.shared.cadenceSkips == |WithResult(y.calls, TooSoon)|
  {
    ReachedIsSound(cadence, actions, y);
    var unresolved := UnresolvedCalls(y.calls);
    if y.holder.Some? {
      forall id | id in unresolved ensures id in {y.holder.value} {
        assert LockIsRight(y, id);
      }
      SubsetIsSmaller(unresolved, {y.holder.value});
    } else {
      forall id ensures id !in unresolved {
        assert LockIsRight(y, id);
      }
      assert unresolved == {};
    }
  }

  lemma SubsetIsSmaller(a: set<CallId>, b: set<CallId>)
    requires a <= b
    ensures |a| <= |b|
  {
    assert b == a + (b - a);
  }

  /** A tick that starts under a pause belongs to a call that was let in before the pause
      was set: the pause is later than the call's check. */
  lemma TickUnderPauseCameEarlier(cadence: int, actions: seq<Action>, y: System, id: CallId)
    requires Reached(cadence, actions, y) && Enabled(y, StartTick(id)) && y.shared.paused
    ensures y.calls[id].seen < y.shared.pauses
  {
    ReachedIsSound(cadence, actions, y);
    assert SeenIsRight(y.shared, y.calls[id]);
  }

  predicate NoResume(actions: seq<Action>) {
    forall n :: 0 <= n < |actions| ==> !actions[n].OperatorResume?
  }

  /** The call was let in when the pauses numbered `n`; a pause holds exactly if one was set
      since. */
  predicate PausedSince(y: System, id: CallId, n: nat) {
    && (y.shared.paused <==> n < y.shared.pauses) && n <= y.shared.pauses && id in y.calls && !y.calls[id].Entered?
    && (y.calls[id].Admitted? || y.calls[id].Holding? || y.calls[id].Begun? ==> y.calls[id].seen == n)
  }

  lemma {:induction false} PausedSinceStays(cadence: int, y: System, actions: seq<Action>, id: CallId, n: nat)
    requires PausedSince(y, id, n) && NoResume(actions) && Acts(cadence, y, actions).Some?
    ensures PausedSince(Acts(cadence, y, actions).value, id, n)
    decreases |actions|
  {
    if |actions| > 0 {
      assert PausedSince(Act(cadence, y, actions[0]), id, n);
      assert forall k :: 0 <= k < |actions| - 1 ==> actions[1..][k] == actions[k + 1];
      PausedSinceStays(cadence, Act(cadence, y, actions[0]), actions[1..], id, n);
    }
  }

  /** A call is let in and later, with nobody resuming in between, starts its tick: it does so
      under a pause exactly when the pause was set after it was let in. */
  lemma TickUnderPauseExactly(cadence: int, y: System, id: CallId, actions: seq<Action>, z: System)
    requires Enabled(y, Check(id)) && Act(cadence, y, Check(id)).calls[id].Admitted?
    requires NoResume(actions) && Acts(cadence, Act(cadence, y, Check(id)), actions) == Some(z) && Enabled(z, StartTick(id))
    ensures z.shared.paused <==> z.calls[id].seen < z.shared.pauses
    ensures z.calls[id].seen == y.shared.pauses
  {
    PausedSinceStays(cadence, Act(cadence, y, Check(id)), actions, id, y.shared.pauses);
  }

  // ---------------------------------------------------------------- the two views agree

  function Opening(id: CallId, now: int): seq<Action> {
    [Begin(id, now), Check(id), TryLock(id), CountStart(id)]
  }

  function Closing(id: CallId, c: Script): seq<Action> {
    match c.ending
    case FaultBefore => [Fail(id, c.finish), Release(id)]
    case FaultFromTick => [StartTick(id), Fail(id, c.finish), Release(id)]
    case Fine => [StartTick(id), Succeed(id, c.finish), Release(id)]
  }

  /** The steps of one call, from its first clock reading to its return. */
  function StepsOf(s: Shared, id: CallId, c: Script): seq<Action> {
    if TurnedAway(s, c.now).Some? then [Begin(id, c.now), Check(id)] else Opening(id, c.now) + Closing(id, c)
  }

  /** The system once call `id` has been counted as started. */
  function Inside(y: System, id: CallId): System {
    System(y.shared.(started := y.shared.started + 1), Some(id), y.calls[id := Begun(y.shared.pauses)])
  }

  lemma OpeningGetsInside(cadence: int, y: System, id: CallId, now: int)
    requires y.holder.None? && id !in y.calls && TurnedAway(y.shared, now).None?
    ensures Acts(cadence, y, Opening(id, now)) == Some(Inside(y, id))
  {
    var p := Opening(id, now);
    var y1 := Act(cadence, y, p[0]);
    var y2 := Act(cadence, y1, p[1]);
    var y3 := Act(cadence, y2, p[2]);
    var y4 := Act(cadence, y3, p[3]);
    OneStep(cadence, y, p);
    OneStep(cadence, y1, p[1..]);
    OneStep(cadence, y2, p[2..]);
    OneStep(cadence, y3, p[3..]);
    assert y4.calls == y.calls[id := y4.calls[id]];
    assert y4 == Inside(y, id);
  }

  lemma ClosingLeaves(cadence: int, y: System, id: CallId, c: Script)
    requires id in y.calls && y.calls[id].Begun?
    ensures var s := if c.ending.Fine? then WithSuccess(y.shared, cadence, c.finish) else WithFault(y.shared, cadence, c.finish);
            Acts(cadence, y, Closing(id, c)) ==
            Some(System(s, None, y.calls[id := Ended(if c.ending.Fine? then Completed else Faulted)]))
  {
    var p := Closing(id, c);
    var y1 := Act(cadence, y, p[0]);
    var y2 := Act(cadence, y1, p[1]);
    OneStep(cadence, y, p);
    OneStep(cadence, y1, p[1..]);
    if c.ending.FaultBefore? {
      assert y2.calls == y.calls[id := y2.calls[id]];
    } else {
      var y3 := Act(cadence, y2, p[2]);
      OneStep(cadence, y2, p[2..]);
      assert y3.calls == y.calls[id := y3.calls[id]];
    }
  }

  /** A call whose steps nobody interrupts does to the shared fields what the object does,
      and ends as the object says. */
  lemma AloneIsSequential(cadence: int, y: System, id: CallId, c: Script)
    requires y.holder.None? && id !in y.calls
    ensures var (s, outcome) := CallAlone(cadence, y.shared, c);
            Acts(cadence, y, StepsOf(y.shared, id, c)) == Some(System(s, None, y.calls[id := Ended(outcome)]))
  {
    if TurnedAway(y.shared, c.now).Some? {
      var steps := [Begin(id, c.now), Check(id)];
      var y1 := Act(cadence, y, steps[0]);
      var y2 := Act(cadence, y1, steps[1]);
      OneStep(cadence, y, steps);
      OneStep(cadence, y1, steps[1..]);
      assert y2.calls == y.calls[id := y2.calls[id]];
    } else {
      OpeningGetsInside(cadence, y, id, c.now);
      ActsConcat(cadence, y, Opening(id, c.now), Closing(id, c));
      ClosingLeaves(cadence, Inside(y, id), id, c);
      var (_, outcome) := CallAlone(cadence, y.shared, c);
      assert Inside(y, id).calls[id := Ended(outcome)] == y.calls[id := Ended(outcome)];
    }
  }

  lemma OneStep(cadence: int, y: System, actions: seq<Action>)
    requires |actions| > 0 && Enabled(y, actions[0])
    ensures Acts(cadence, y, actions) == Acts(cadence, Act(cadence, y, actions[0]), actions[1..])
  {
  }

  /** Overlapping calls can tick after a fault: the second call is let in, the first then
      faults and releases the lock, and the second ticks although the supervisor is paused. */
  lemma OverlapTicksAfterFault(cadence: int, a: CallId, b: CallId, t: int)
    requires a != b
    ensures var actions := [Begin(a, t), Check(a), TryLock(a), CountStart(a), Begin(b, t), Check(b), Fail(a, t), Release(a),
                            TryLock(b), CountStart(b), StartTick(b)];
            var z := Acts(cadence, Idle, actions);
            z.Some? && z.value.shared.paused && z.value.shared.failed == 1 && b in z.value.calls && z.value.calls[b].Ticking?
  {
    var first := [Begin(a, t), Check(a), TryLock(a), CountStart(a), Begin(b, t), Check(b)];
    var second := [Fail(a, t), Release(a), TryLock(b), CountStart(b), StartTick(b)];
    FirstHalf(cadence, a, b, t);
    SecondHalf(cadence, a, b, t);
    assert first + second == [Begin(a, t), Check(a), TryLock(a), CountStart(a), Begin(b, t), Check(b), Fail(a, t), Release(a),
                              TryLock(b), CountStart(b), StartTick(b)];
    ActsConcat(cadence, Idle, first, second);
  }

  lemma {:induction false} ActsConcat(cadence: int, y: System, p: seq<Action>, q: seq<Action>)
    requires Acts(cadence, y, p).Some?
    ensures Acts(cadence, y, p + q) == Acts(cadence, Acts(cadence, y, p).value, q)
    decreases |p|
  {
    if |p| == 0 {
      assert p + q == q;
    } else {
      assert (p + q)[0] == p[0] && (p + q)[1..] == p[1..] + q;
      ActsConcat(cadence, Act(cadence, y, p[0]), p[1..], q);
    }
  }

  lemma FirstHalf(cadence: int, a: CallId, b: CallId, t: int)
    requires a != b
    ensures Acts(cadence, Idle, [Begin(a, t), Check(a), TryLock(a), CountStart(a), Begin(b, t), Check(b)]) ==
            Some(System(Initial.(started := 1), Some(a), map[a := Begun(0), b := Admitted(0)]))
  {
    var p := [Begin(a, t), Check(a), TryLock(a), CountStart(a), Begin(b, t), Check(b)];
    var y1 := Act(cadence, Idle, p[0]);
    var y2 := Act(cadence, y1, p[1]);
    var y3 := Act(cadence, y2, p[2]);
    var y4 := Act(cadence, y3, p[3]);
    var y5 := Act(cadence, y4, p[4]);
    var y6 := Act(cadence, y5, p[5]);
    OneStep(cadence, Idle, p);
    OneStep(cadence, y1, p[1..]);
    OneStep(cadence, y2, p[2..]);
    OneStep(cadence, y3, p[3..]);
    OneStep(cadence, y4, p[4..]);
    OneStep(cadence, y5, p[5..]);
    assert y6.calls == map[a := Begun(0), b := Admitted(0)];
  }

  lemma SecondHalf(cadence: int, a: CallId, b: CallId, t: int)
    requires a != b
    ensures var mid := System(Initial.(started := 1), Some(a), map[a := Begun(0), b := Admitted(0)]);
            var z := Acts(cadence, mid, [Fail(a, t), Release(a), TryLock(b), CountStart(b), StartTick(b)]);
            z.Some? && z.value.shared.paused && z.value.shared.failed == 1 && b in z.value.calls && z.value.calls[b].Ticking?
  {
    var p := [Fail(a, t), Release(a), TryLock(b), CountStart(b), StartTick(b)];
    var mid := System(Initial.(started := 1), Some(a), map[a := Begun(0), b := Admitted(0)]);
    var y1 := Act(cadence, mid, p[0]);
    var y2 := Act(cadence, y1, p[1]);
    var y3 := Act(cadence, y2, p[2]);
    var y4 := Act(cadence, y3, p[3]);
    OneStep(cadence, mid, p);
    OneStep(cadence, y1, p[1..]);
    OneStep(cadence, y2, p[2..]);
    OneStep(cadence, y3, p[3..]);
    OneStep(cadence, y4, p[4..]);
  }
}
