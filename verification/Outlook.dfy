/** The market-outlook cache: one thread generates while the others wait, and portfolio
    views are served only to and from callers with positions. Calls interleave at lock
    boundaries. */
module Outlook {
  import opened Common

  type CallId = nat

  /** A generated outlook: the call that made it and whether that call had positions. */
  datatype Report = Report(author: CallId, hadPositions: bool)

  datatype Cached = Cached(report: Report, at: int, ttl: int)

  /** The fields behind the lock, and the event. */
  datatype Shared = Shared(cache: Option<Cached>, hadPositions: bool, generating: bool, done: bool)

  const Initial: Shared := Shared(None, false, false, true)

  datatype Answer = FromCache(report: Report) | Generated(report: Report) | PulseOnly | Raised | Nothing

  // ---------------------------------------------------------------- critical sections

  function Invalidated(s: Shared, positions: bool): Shared {
    if positions && !s.hadPositions && s.cache.Some? then s.(cache := None) else s
  }

  predicate FreshAt(s: Shared, now: int) {
    s.cache.Some? && now - s.cache.value.at < s.cache.value.ttl
  }

  datatype Decision = Serve(report: Report) | Wait | Generate

  /** The first critical section of `get_outlook`. */
  function Decide(s: Shared, positions: bool, force: bool, now: int): (Shared, Decision) {
    var t := Invalidated(s, positions);
    if !force && FreshAt(t, now) then (t, Serve(t.cache.value.report))
    else if t.generating then (t, Wait)
    else (t.(generating := true, done := false), Generate)
  }

  /** The critical section after waiting. */
  function Reread(s: Shared, positions: bool): (Shared, Answer) {
    if s.cache.None? then (s, PulseOnly)
    else if positions && !s.hadPositions then (s.(cache := None), PulseOnly)
    else (s, FromCache(s.cache.value.report))
  }

  function Stored(s: Shared, r: Report, now: int, ttl: int): Shared {
    s.(cache := Some(Cached(r, now, ttl)), hadPositions := r.hadPositions)
  }

  /** `try_get_cached`. */
  function TryGet(s: Shared, positions: bool, now: int): (Shared, Answer) {
    var t := Invalidated(s, positions);
    if FreshAt(t, now) then (t, FromCache(t.cache.value.report)) else (t, Nothing)
  }

  class MarketOutlookGenerator {
    var cache: Option<Cached>
    var cacheHadPositions: bool
    var generating: bool
    var generationDone: bool

    ghost function View(): Shared
      reads this
    {
      Shared(cache, cacheHadPositions, generating, generationDone)
    }

    constructor ()
      ensures View() == Initial
    {
      cache, cacheHadPositions, generating, generationDone := None, false, false, true;
    }

    method MaybeInvalidate(positions: bool)
      modifies this`cache
      ensures View() == Invalidated(old(View()), positions)
    {
      if positions && !cacheHadPositions && cache.Some? {
        cache := None;
      }
    }

    method TryGetCached(positions: bool, now: int) returns (answer: Answer)
      modifies this`cache
      ensures (View(), answer) == TryGet(old(View()), positions, now)
    {
      MaybeInvalidate(positions);
      if cache.Some? {
        var age := now - cache.value.at;
        if age < cache.value.ttl {
          return FromCache(cache.value.report);
        }
      }
      answer := Nothing;
    }

    method EnterGetOutlook(positions: bool, force: bool, now: int) returns (decision: Decision)
      modifies this
      ensures (View(), decision) == Decide(old(View()), positions, force, now)
    {
      MaybeInvalidate(positions);
      if !force && cache.Some? {
        var age := now - cache.value.at;
        if age < cache.value.ttl {
          return Serve(cache.value.report);
        }
      }
      if generating {
        return Wait;
      }
      generating := true;
      generationDone := false;
      decision := Generate;
    }

    method AfterWait(positions: bool) returns (answer: Answer)
      modifies this`cache
      ensures (View(), answer) == Reread(old(View()), positions)
    {
      if cache.Some? {
        if positions && !cacheHadPositions {
          cache := None;
        } else {
          return FromCache(cache.value.report);
        }
      }
      answer := PulseOnly;
    }

    method StoreResult(r: Report, now: int, ttl: int)
      modifies this`cache, this`cacheHadPositions
      ensures View() == Stored(old(View()), r, now, ttl)
    {
      cache := Some(Cached(r, now, ttl));
      cacheHadPositions := r.hadPositions;
    }

    /** One caller alone: what it is answered, with the cache it leaves behind. */
    method GetOutlook(id: CallId, positions: bool, force: bool, now: int, later: int, ttl: int) returns (answer: Answer)
      requires !generating && (cache.Some? ==> cacheHadPositions == cache.value.report.hadPositions)
      modifies this
      ensures !generating && generationDone == (old(generationDone) || answer.Generated?)
      ensures cache.Some? ==> cacheHadPositions == cache.value.report.hadPositions
      ensures answer.FromCache? || answer == Generated(Report(id, positions))
      ensures positions && answer.FromCache? ==> answer.report.hadPositions
      ensures answer.FromCache? <==>
                && !force && old(cache).Some? && now < old(cache).value.at + old(cache).value.ttl
                && (positions ==> old(cacheHadPositions))
    {
      var decision := EnterGetOutlook(positions, force, now);
      match decision
      case Serve(report) => return FromCache(report);
      case Generate =>
        var r := Report(id, positions);
        StoreResult(r, later, ttl);
        generating := false;
        generationDone := true;
        return Generated(r);
    }

    method Invalidate()
      modifies this`cache
      ensures View() == old(View()).(cache := None)
    {
      cache := None;
    }
  }

  // ---------------------------------------------------------------- calls interleaved

  datatype Phase =
    | Arrived(positions: bool, force: bool)
    | Waiting(positions: bool)
    | Woken(positions: bool)
    | Generating(positions: bool)
    | Finishing(positions: bool, answer: Answer)
    | Setting(positions: bool, answer: Answer)
    | Returned(positions: bool, answer: Answer)

  /** `maker` names the generating call; the code keeps only the flag. */
  datatype System = System(shared: Shared, maker: Option<CallId>, calls: map<CallId, Phase>)

  const Idle: System := System(Initial, None, map[])

  datatype Action =
    | Arrive(id: CallId, positions: bool, force: bool)
    | Look(id: CallId, now: int)
    | Wake(id: CallId)
    | GiveUp(id: CallId)
    | ReadAgain(id: CallId)
    | Store(id: CallId, now: int, ttl: int)
    | Break(id: CallId)
    | Clear(id: CallId)
    | SetEvent(id: CallId)
    | Peek(id: CallId, positions: bool, now: int)
    | Drop

  predicate Enabled(y: System, a: Action) {
    match a
    case Arrive(id, _, _) => id !in y.calls
    case Look(id, _) => id in y.calls && y.calls[id].Arrived?
    case Wake(id) => id in y.calls && y.calls[id].Waiting? && y.shared.done
    case GiveUp(id) => id in y.calls && y.calls[id].Waiting?
    case ReadAgain(id) => id in y.calls && y.calls[id].Woken?
    case Store(id, _, _) => id in y.calls && y.calls[id].Generating?
    case Break(id) => id in y.calls && y.calls[id].Generating?
    case Clear(id) => id in y.calls && y.calls[id].Finishing?
    case SetEvent(id) => id in y.calls && y.calls[id].Setting?
    case Peek(id, _, _) => id !in y.calls
    case Drop => true
  }

  function Move(y: System, id: CallId, p: Phase, s: Shared): System {
    y.(shared := s, calls := y.calls[id := p])
  }

  function Act(y: System, a: Action): System
    requires Enabled(y, a)
  {
    var s := y.shared;
    match a
    case Arrive(id, positions, force) => Move(y, id, Arrived(positions, force), s)
    case Look(id, now) =>
      var call := y.calls[id];
      var (t, decision) := Decide(s, call.positions, call.force, now);
      (match decision
       case Serve(report) => Move(y, id, Returned(call.positions, FromCache(report)), t)
       case Wait => Move(y, id, Waiting(call.positions), t)
       case Generate => Move(y, id, Generating(call.positions), t).(maker := Some(id)))
    case Wake(id) => Move(y, id, Woken(y.calls[id].positions), s)
    case GiveUp(id) => Move(y, id, Woken(y.calls[id].positions), s)
    case ReadAgain(id) =>
      var (t, answer) := Reread(s, y.calls[id].positions);
      Move(y, id, Returned(y.calls[id].positions, answer), t)
    case Store(id, now, ttl) =>
      var r := Report(id, y.calls[id].positions);
      Move(y, id, Finishing(y.calls[id].positions, Generated(r)), Stored(s, r, now, ttl))
    case Break(id) => Move(y, id, Finishing(y.calls[id].positions, Raised), s)
    case Clear(id) =>
      Move(y, id, Setting(y.calls[id].positions, y.calls[id].answer), s.(generating := false)).(maker := None)
    case SetEvent(id) => Move(y, id, Returned(y.calls[id].positions, y.calls[id].answer), s.(done := true))
    case Peek(id, positions, now) =>
      var (t, answer) := TryGet(s, positions, now);
      Move(y, id, Returned(positions, answer), t)
    case Drop => y.(shared := s.(cache := None))
  }

  /** The first look of a call, in terms of the cache: an outlook made without positions is
      dropped for a caller that has them; one that is left and younger than its time to live is
      returned unless a new one is forced; otherwise the call waits for the one at work or goes to
      work itself. */
  lemma LookExactly(y: System, id: CallId, now: int)
    requires id in y.calls && y.calls[id].Arrived?
    ensures Enabled(y, Look(id, now))
    ensures var (call, s, after) := (y.calls[id], y.shared, Act(y, Look(id, now)));
            var usable := s.cache.Some? && (call.positions ==> s.hadPositions);
            var served := !call.force && usable && now < s.cache.value.at + s.cache.value.ttl;
            && id in after.calls
            && after.shared.cache == (if usable then s.cache else None)
            && (served ==> after.calls[id] == Returned(call.positions, FromCache(s.cache.value.report)))
            && (!served && s.generating ==> after.calls[id] == Waiting(call.positions))
            && (!served && !s.generating ==>
                  after.calls[id] == Generating(call.positions) && after.maker == Some(id) && after.shared.generating && !after.shared.done)
            && (served || s.generating ==> after.maker == y.maker && after.shared.generating == s.generating && after.shared.done == s.done)
  {
  }

  /** Dropping the cache is always possible and does nothing else. */
  lemma DropExactly(y: System)
    ensures Enabled(y, Drop) && Act(y, Drop) == y.(shared := y.shared.(cache := None))
  {
  }

  function Acts(y: System, actions: seq<Action>): Option<System>
    decreases |actions|
  {
    if |actions| == 0 then Some(y)
    else if !Enabled(y, actions[0]) then None
    else Acts(Act(y, actions[0]), actions[1..])
  }

  // ---------------------------------------------------------------- what every interleaving keeps

  predicate Makes(p: Phase) {
    p.Generating? || p.Finishing?
  }

  predicate MakerIsRight(y: System, id: CallId) {
    id in y.calls && Makes(y.calls[id]) <==> y.maker == Some(id)
  }

  /** A caller with positions is never handed a cached outlook made without. */
  predicate Proper(p: Phase) {
    (p.Finishing? || p.Setting? || p.Returned?) && p.positions && (p.answer.FromCache? || p.answer.Generated?) ==> p.answer.report.hadPositions
  }

  /** Somebody is about to set the event. */
  predicate Pending(calls: map<CallId, Phase>) {
    exists id :: id in calls && calls[id].Setting?
  }

  ghost predicate MakersRight(y: System) {
    y.shared.generating == y.maker.Some? && forall id :: MakerIsRight(y, id)
  }

  ghost predicate AnswersRight(y: System) {
    && (y.shared.cache.Some? ==> y.shared.hadPositions == y.shared.cache.value.report.hadPositions)
    && (forall id :: id in y.calls ==> Proper(y.calls[id]))
  }

  predicate EventRight(y: System) {
    y.shared.done || y.shared.generating || Pending(y.calls)
  }

  ghost predicate Sound(y: System) {
    MakersRight(y) && AnswersRight(y) && EventRight(y)
  }

  lemma ActKeepsMakers(y: System, a: Action)
    requires MakersRight(y) && Enabled(y, a)
    ensures MakersRight(Act(y, a))
  {
    var z := Act(y, a);
    forall id ensures MakerIsRight(z, id) {
      assert MakerIsRight(y, id);
      if !a.Drop? {
        assert MakerIsRight(y, a.id);
      }
    }
    if !a.Drop? {
      assert MakerIsRight(y, a.id);
    }
  }

  lemma ActKeepsAnswers(y: System, a: Action)
    requires AnswersRight(y) && Enabled(y, a)
    ensures AnswersRight(Act(y, a))
  {
    var z := Act(y, a);
    forall id | id in z.calls ensures Proper(z.calls[id]) {
      if id in y.calls {
        assert Proper(y.calls[id]);
      }
    }
  }

  lemma ActKeepsEvent(y: System, a: Action)
    requires EventRight(y) && Enabled(y, a)
    ensures EventRight(Act(y, a))
  {
    var z := Act(y, a);
    if Pending(y.calls) {
      var id :| id in y.calls && y.calls[id].Setting?;
      if !a.SetEvent? {
        assert id in z.calls && z.calls[id].Setting?;
      }
    }
    if a.Clear? {
      assert z.calls[a.id].Setting?;
    }
  }

  lemma {:induction false} ActsKeepSound(y: System, actions: seq<Action>)
    requires Sound(y) && Acts(y, actions).Some?
    ensures Sound(Acts(y, actions).value)
    decreases |actions|
  {
    if |actions| > 0 {
      ActKeepsMakers(y, actions[0]);
      ActKeepsAnswers(y, actions[0]);
      ActKeepsEvent(y, actions[0]);
      ActsKeepSound(Act(y, actions[0]), actions[1..]);
    }
  }

  lemma ReachedIsSound(actions: seq<Action>, y: System)
    requires Acts(Idle, actions) == Some(y)
    ensures Sound(y)
  {
    ActsKeepSound(Idle, actions);
  }

  /** Under every interleaving at most one call is generating. */
  lemma OneGenerator(actions: seq<Action>, y: System, a: CallId, b: CallId)
    requires Acts(Idle, actions) == Some(y)
    requires a in y.calls && y.calls[a].Generating? && b in y.calls && y.calls[b].Generating?
    ensures a == b && y.shared.generating
  {
    ReachedIsSound(actions, y);
    assert MakerIsRight(y, a) && MakerIsRight(y, b);
  }

  /** Under every interleaving, whichever way it got there, a cached outlook returned to a
      caller with positions was generated with positions. */
  lemma PortfolioAnswers(actions: seq<Action>, y: System, id: CallId)
    requires Acts(Idle, actions) == Some(y)
    requires id in y.calls && y.calls[id].Returned? && y.calls[id].positions && y.calls[id].answer.FromCache?
    ensures y.calls[id].answer.report.hadPositions
  {
    ReachedIsSound(actions, y);
    assert Proper(y.calls[id]);
  }

  /** Nobody is left waiting: when no call generates and none is about to set the event, it
      is set, and every waiter can go on. */
  lemma NobodyIsStranded(actions: seq<Action>, y: System, id: CallId)
    requires Acts(Idle, actions) == Some(y) && id in y.calls && y.calls[id].Waiting?
    requires forall other :: other in y.calls ==> !Makes(y.calls[other]) && !y.calls[other].Setting?
    ensures Enabled(y, Wake(id))
  {
    ReachedIsSound(actions, y);
    assert y.maker.Some? ==> MakerIsRight(y, y.maker.value);
  }

  // ---------------------------------------------------------------- an early wake

  lemma OneStep(y: System, actions: seq<Action>)
    requires |actions| > 0 && Enabled(y, actions[0])
    ensures Acts(y, actions) == Acts(Act(y, actions[0]), actions[1..])
  {
  }

  lemma {:induction false} ActsConcat(y: System, p: seq<Action>, q: seq<Action>)
    requires Acts(y, p).Some?
    ensures Acts(y, p + q) == Acts(Acts(y, p).value, q)
    decreases |p|
  {
    if |p| == 0 {
      assert p + q == q;
    } else {
      assert (p + q)[0] == p[0] && (p + q)[1..] == p[1..] + q;
      ActsConcat(Act(y, p[0]), p[1..], q);
    }
  }

  /** The flag is cleared before the event is set, and the event is set without the lock.
      A call can start generating in between; its waiters then wake at once. */
  lemma WaiterCanWakeEarly(t: int)
    ensures var first := [Arrive(0, false, true), Look(0, t), Break(0), Clear(0)];
            var second := [Arrive(1, false, true), Look(1, t), Arrive(2, false, true), Look(2, t), SetEvent(0)];
            var z := Acts(Idle, first + second);
            && z.Some? && 1 in z.value.calls && z.value.calls[1].Generating?
            && 2 in z.value.calls && z.value.calls[2].Waiting? && Enabled(z.value, Wake(2))
  {
    var first := [Arrive(0, false, true), Look(0, t), Break(0), Clear(0)];
    var second := [Arrive(1, false, true), Look(1, t), Arrive(2, false, true), Look(2, t), SetEvent(0)];
    FirstGeneration(t);
    SecondGeneration(t);
    ActsConcat(Idle, first, second);
  }

  lemma FirstGeneration(t: int)
    ensures Acts(Idle, [Arrive(0, false, true), Look(0, t), Break(0), Clear(0)]) ==
            Some(System(Shared(None, false, false, false), None, map[0 := Setting(false, Raised)]))
  {
    var p := [Arrive(0, false, true), Look(0, t), Break(0), Clear(0)];
    var y1 := Act(Idle, p[0]);
    var y2 := Act(y1, p[1]);
    var y3 := Act(y2, p[2]);
    var y4 := Act(y3, p[3]);
    OneStep(Idle, p);
    OneStep(y1, p[1..]);
    OneStep(y2, p[2..]);
    OneStep(y3, p[3..]);
    assert y4.calls == map[0 := Setting(false, Raised)];
  }

  lemma SecondGeneration(t: int)
    ensures var mid := System(Shared(None, false, false, false), None, map[0 := Setting(false, Raised)]);
            var z := Acts(mid, [Arrive(1, false, true), Look(1, t), Arrive(2, false, true), Look(2, t), SetEvent(0)]);
            && z.Some? && 1 in z.value.calls && z.value.calls[1].Generating?
            && 2 in z.value.calls && z.value.calls[2].Waiting? && z.value.shared.done
  {
    var p := [Arrive(1, false, true), Look(1, t), Arrive(2, false, true), Look(2, t), SetEvent(0)];
    var mid := System(Shared(None, false, false, false), None, map[0 := Setting(false, Raised)]);
    var y1 := Act(mid, p[0]);
    var y2 := Act(y1, p[1]);
    var y3 := Act(y2, p[2]);
    var y4 := Act(y3, p[3]);
    OneStep(mid, p);
    OneStep(y1, p[1..]);
    OneStep(y2, p[2..]);
    OneStep(y3, p[3..]);
    OneStep(y4, p[4..]);
  }
}
