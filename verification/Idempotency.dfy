/** The append-only lock log of autonomous/idempotency.py.

    The file is a sequence of whole lines.  Every operation replays it from the
    first line, so the log is the only state the store has. */
module Idempotency {
  import opened Common

  // ---------------------------------------------------------------- data

  datatype Status = InFlight | Submitted | Cleared

  /** The `reason` text stored with a lock, one constructor per text the live runner writes. */
  datatype Reason =
    | AcquiredBeforeSubmission
    | SubmissionAccepted
    | LifecycleWriteFailed
    | ExecutorRaised
    | ExecutorRejected
    | TradeTerminal
    | OperatorCleared

  datatype Lock = Lock(
    key: string,
    status: Status,
    symbol: string,
    action: string,
    orderId: Option<int>,
    tradeId: Option<string>,
    reason: Reason)
  {
    predicate Active() {
      status == InFlight || status == Submitted
    }
  }

  datatype Op = AcquireOp | SubmittedOp | ClearOp

  datatype Line = Blank | Unparsable | Record(op: Op, lock: Lock)

  datatype LockAcquisition = LockAcquisition(acquired: bool, lock: Lock, existing: Option<Lock>)

  // ---------------------------------------------------------------- keys

  predicate IsSpace(c: char) {
    c == ' ' || c == '\t' || c == '\n' || c == '\r'
  }

  function StripLeft(s: string): string {
    if |s| > 0 && IsSpace(s[0]) then StripLeft(s[1..]) else s
  }

  function StripRight(s: string): string {
    if |s| > 0 && IsSpace(s[|s| - 1]) then StripRight(s[..|s| - 1]) else s
  }

  function UpperChar(c: char): char {
    if 'a' <= c <= 'z' then (c as int - 32) as char else c
  }

  function Upper(s: string): (r: string)
    ensures |r| == |s|
    ensures forall i :: 0 <= i < |s| ==> r[i] == UpperChar(s[i])
  {
    if s == "" then "" else [UpperChar(s[0])] + Upper(s[1..])
  }

  function Normalize(s: string): string {
    Upper(StripRight(StripLeft(s)))
  }

  /** The part of a key after `autonomous-live:<ACTION>:`.  An empty `basket` or
      `leg` stands for a missing one: both are falsy where the key is built. */
  function KeySuffix(symbol: string, basket: string, leg: string): string {
    if basket != "" || leg != "" then
      Normalize(symbol) + ":" + (if basket == "" then "single" else basket)
      + ":" + (if leg == "" then "entry" else leg)
    else
      Normalize(symbol)
  }

  function BuildKey(symbol: string, action: string, basket: string, leg: string): (key: string)
    ensures key != ""
  {
    "autonomous-live:" + Normalize(action) + ":" + KeySuffix(symbol, basket, leg)
  }

  predicate Trimmed(s: string) {
    |s| > 0 ==> !IsSpace(s[0]) && !IsSpace(s[|s| - 1])
  }

  lemma {:induction false} StripLeftStops(s: string)
    ensures |StripLeft(s)| > 0 ==> !IsSpace(StripLeft(s)[0])
    decreases |s|
  {
    if |s| > 0 && IsSpace(s[0]) {
      StripLeftStops(s[1..]);
    }
  }

  lemma {:induction false} StripRightStops(s: string)
    requires |s| > 0 ==> !IsSpace(s[0])
    ensures Trimmed(StripRight(s))
    decreases |s|
  {
    if |s| > 0 && IsSpace(s[|s| - 1]) {
      StripRightStops(s[..|s| - 1]);
    }
  }

  /** Normalising twice is normalising once, so the symbol the runner has already
      upper-cased and trimmed names the same key as the symbol of the plan. */
  lemma NormalizeIdempotent(s: string)
    ensures Normalize(Normalize(s)) == Normalize(s)
  {
    var trimmed := StripRight(StripLeft(s));
    StripLeftStops(s);
    StripRightStops(StripLeft(s));
    var n := Normalize(s);
    assert Trimmed(n);
    assert StripRight(StripLeft(n)) == n;
    assert Upper(n) == n by {
      forall i | 0 <= i < |n| ensures Upper(n)[i] == n[i] {
        assert n[i] == UpperChar(trimmed[i]);
      }
    }
  }

  /** Letters are folded to capitals one for one and nothing else changes. */
  lemma CapitalsExactly(c: char)
    ensures 'a' <= c <= 'z' ==> 'A' <= UpperChar(c) <= 'Z' && UpperChar(c) as int - 'A' as int == c as int - 'a' as int
    ensures c < 'a' || 'z' < c ==> UpperChar(c) == c
  {
  }

  /** Two keys for the same action are equal exactly when their suffixes are. */
  lemma KeysEqualExactly(s1: string, b1: string, l1: string, s2: string, b2: string, l2: string, action: string)
    ensures BuildKey(s1, action, b1, l1) == BuildKey(s2, action, b2, l2)
       <==> KeySuffix(s1, b1, l1) == KeySuffix(s2, b2, l2)
  {
    var p := "autonomous-live:" + Normalize(action) + ":";
    var x, y := KeySuffix(s1, b1, l1), KeySuffix(s2, b2, l2);
    if p + x == p + y {
      assert x == (p + x)[|p|..];
      assert y == (p + y)[|p|..];
    }
  }

  /** Live entries never pass a basket or leg id: their keys separate symbols
      exactly up to trimming and case. */
  lemma SymbolKeysSeparate(s1: string, s2: string, action: string)
    ensures BuildKey(s1, action, "", "") == BuildKey(s2, action, "", "") <==> Normalize(s1) == Normalize(s2)
  {
    KeysEqualExactly(s1, "", "", s2, "", "", action);
  }

  lemma NormalizeFixes(s: string)
    requires Trimmed(s) && forall i :: 0 <= i < |s| ==> UpperChar(s[i]) == s[i]
    ensures Normalize(s) == s
  {
    assert StripRight(StripLeft(s)) == s;
    assert Upper(s) == s;
  }

  /** The key of a live entry reads as it does in the log. */
  lemma KeyReads(symbol: string)
    requires Trimmed(symbol) && forall i :: 0 <= i < |symbol| ==> UpperChar(symbol[i]) == symbol[i]
    ensures BuildKey(symbol, "BUY", "", "") == "autonomous-live:BUY:" + symbol
  {
    NormalizeFixes(symbol);
    NormalizeFixes("BUY");
    assert "autonomous-live:" + "BUY" + ":" == "autonomous-live:BUY:";
  }

  /** A symbol without a colon never names another symbol's leg. */
  lemma PlainSymbolNeverNamesALeg(s1: string, s2: string, basket: string, leg: string, action: string)
    requires basket != "" || leg != ""
    requires ':' !in Normalize(s1)
    ensures BuildKey(s1, action, "", "") != BuildKey(s2, action, basket, leg)
  {
    KeysEqualExactly(s1, "", "", s2, basket, leg, action);
    assert KeySuffix(s2, basket, leg)[|Normalize(s2)|] == ':';
  }

  /** With a colon it can: the separation of keys is lost. */
  lemma ColonSymbolNamesALeg()
    ensures BuildKey("A:B:L", "BUY", "", "") == BuildKey("A", "BUY", "B", "L")
    ensures Normalize("A:B:L") != Normalize("A")
  {
    NormalizeFixes("A:B:L");
    NormalizeFixes("A");
    assert "A" + ":" + "B" + ":" + "L" == "A:B:L";
    KeysEqualExactly("A:B:L", "", "", "A", "B", "L", "BUY");
  }

  // ---------------------------------------------------------------- replay

  function ApplyLine(current: map<string, Lock>, line: Line): map<string, Lock> {
    if line.Record? && line.lock.key != "" then current[line.lock.key := line.lock] else current
  }

  function Replay(log: seq<Line>): map<string, Lock> {
    if |log| == 0 then map[] else ApplyLine(Replay(Front(log)), Last(log))
  }

  predicate ActiveIn(log: seq<Line>, key: string) {
    var current := Replay(log);
    key in current && current[key].Active()
  }

  predicate IsRecordOf(line: Line, key: string) {
    line.Record? && line.lock.key == key
  }

  predicate IsClearOf(line: Line, key: string) {
    IsRecordOf(line, key) && line.op == ClearOp
  }

  predicate IsAcquireOf(line: Line, key: string) {
    IsRecordOf(line, key) && line.op == AcquireOp
  }

  /** Some line of `log[from..until]` clears `key`. */
  ghost predicate ClearBetween(log: seq<Line>, key: string, from: int, until: int) {
    exists c :: 0 <= from <= c < until <= |log| && IsClearOf(log[c], key)
  }

  lemma ReplaySnoc(log: seq<Line>, line: Line)
    ensures Replay(log + [line]) == ApplyLine(Replay(log), line)
  {
    SnocFront(log, line);
  }

  /** What replay means, without replaying: the current lock of a key is the one
      on the last line written for it. */
  lemma {:induction false} ReplayIsLastLine(log: seq<Line>, key: string, at: nat)
    requires key != "" && at < |log| && IsRecordOf(log[at], key)
    requires forall i :: at < i < |log| ==> !IsRecordOf(log[i], key)
    ensures key in Replay(log) && Replay(log)[key] == log[at].lock
    decreases |log|
  {
    if at < |log| - 1 {
      ReplayIsLastLine(Front(log), key, at);
    }
  }

  lemma {:induction false} ReplayAbsent(log: seq<Line>, key: string)
    requires forall i :: 0 <= i < |log| ==> !IsRecordOf(log[i], key)
    ensures key !in Replay(log)
    decreases |log|
  {
    if |log| > 0 {
      ReplayAbsent(Front(log), key);
    }
  }

  // ---------------------------------------------------------------- operations on the log

  /** Requests to the store.  `Noise` is a blank or unparsable line that found its
      way into the file between two operations. */
  datatype Call =
    | CallAcquire(symbol: string, action: string, basket: string, leg: string)
    | CallMark(key: string, orderId: Option<int>, tradeId: Option<string>)
    | CallClear(key: string, reason: Reason)
    | Noise(line: Line)

  function FreshLock(symbol: string, action: string, basket: string, leg: string): Lock {
    Lock(BuildKey(symbol, action, basket, leg), InFlight, Normalize(symbol), Normalize(action),
         None, None, AcquiredBeforeSubmission)
  }

  function MarkedLock(current: Lock, orderId: Option<int>, tradeId: Option<string>): Lock {
    current.(status := Submitted,
             orderId := if orderId.Some? then orderId else current.orderId,
             tradeId := if tradeId.Some? && tradeId.value != "" then tradeId else current.tradeId,
             reason := SubmissionAccepted)
  }

  function ClearedLock(current: Lock, reason: Reason): Lock {
    current.(status := Cleared, reason := reason)
  }

  /** What the three operations write: a fresh lock names no order and no trade; a mark keeps the
      order and the trade there were unless it names others; a clear keeps both. */
  lemma LocksSay(symbol: string, action: string, basket: string, leg: string, lock: Lock, orderId: Option<int>, tradeId: Option<string>, reason: Reason)
    ensures var l := FreshLock(symbol, action, basket, leg);
            && l.status == InFlight && l.orderId == None && l.tradeId == None && l.reason == AcquiredBeforeSubmission
            && l.key == BuildKey(symbol, action, basket, leg) && l.symbol == Normalize(symbol) && l.action == Normalize(action)
    ensures var l := MarkedLock(lock, orderId, tradeId);
            && (l.key, l.symbol, l.action) == (lock.key, lock.symbol, lock.action)
            && l.status == Submitted && l.reason == SubmissionAccepted
            && (orderId != None ==> l.orderId == orderId) && (orderId == None ==> l.orderId == lock.orderId)
            && (tradeId != None && tradeId != Some("") ==> l.tradeId == tradeId)
            && (tradeId == None || tradeId == Some("") ==> l.tradeId == lock.tradeId)
    ensures ClearedLock(lock, reason) == Lock(lock.key, Cleared, lock.symbol, lock.action, lock.orderId, lock.tradeId, reason)
  {
  }

  /** The line an operation appends, if it appends one. */
  function Appended(log: seq<Line>, call: Call): Option<Line> {
    var current := Replay(log);
    match call
    case CallAcquire(symbol, action, basket, leg) =>
      if ActiveIn(log, BuildKey(symbol, action, basket, leg)) then None
      else Some(Record(AcquireOp, FreshLock(symbol, action, basket, leg)))
    case CallMark(key, orderId, tradeId) =>
      if key in current then Some(Record(SubmittedOp, MarkedLock(current[key], orderId, tradeId))) else None
    case CallClear(key, reason) =>
      if key in current then Some(Record(ClearOp, ClearedLock(current[key], reason))) else None
    case Noise(line) =>
      if line.Record? then None else Some(line)
  }

  function AfterCall(log: seq<Line>, call: Call): seq<Line> {
    match Appended(log, call)
    case Some(line) => log + [line]
    case None => log
  }

  function AfterCalls(log: seq<Line>, calls: seq<Call>): seq<Line> {
    if |calls| == 0 then log else AfterCall(AfterCalls(log, Front(calls)), Last(calls))
  }

  // ---------------------------------------------------------------- the in-memory map it stands for

  function MapCall(locks: map<string, Lock>, call: Call): map<string, Lock> {
    match call
    case CallAcquire(symbol, action, basket, leg) =>
      var key := BuildKey(symbol, action, basket, leg);
      if key in locks && locks[key].Active() then locks
      else locks[key := FreshLock(symbol, action, basket, leg)]
    case CallMark(key, orderId, tradeId) =>
      if key in locks then locks[key := MarkedLock(locks[key], orderId, tradeId)] else locks
    case CallClear(key, reason) =>
      if key in locks then locks[key := ClearedLock(locks[key], reason)] else locks
    case Noise(_) => locks
  }

  function MapCalls(locks: map<string, Lock>, calls: seq<Call>): map<string, Lock> {
    if |calls| == 0 then locks else MapCall(MapCalls(locks, Front(calls)), Last(calls))
  }

  /** Keys map to locks that carry them, and no key is empty. */
  ghost predicate KeyedByKey(locks: map<string, Lock>) {
    forall k :: k in locks ==> locks[k].key == k && k != ""
  }

  lemma {:induction false} ReplayKeyed(log: seq<Line>)
    ensures KeyedByKey(Replay(log))
    decreases |log|
  {
    if |log| > 0 {
      ReplayKeyed(Front(log));
    }
  }

  lemma CallRefinesMap(log: seq<Line>, call: Call)
    ensures Replay(AfterCall(log, call)) == MapCall(Replay(log), call)
  {
    ReplayKeyed(log);
    hide BuildKey, Replay, Normalize;
    match Appended(log, call)
    case Some(line) => ReplaySnoc(log, line);
    case None =>
  }

  /** For every history of operations, with blank and unparsable lines anywhere,
      replaying the file gives the map the operations would have built in memory. */
  lemma {:induction false} LogRefinesMap(calls: seq<Call>)
    ensures Replay(AfterCalls([], calls)) == MapCalls(map[], calls)
    decreases |calls|
  {
    if |calls| > 0 {
      LogRefinesMap(Front(calls));
      CallRefinesMap(AfterCalls([], Front(calls)), Last(calls));
    }
  }

  // ---------------------------------------------------------------- exclusion

  /** Histories this store can have written: each ACQUIRE found its key inactive. */
  ghost predicate Disciplined(log: seq<Line>) {
    && (forall j :: 0 <= j < |log| && log[j].Record? ==> WrittenByStore(log[j]))
    && (forall j :: 0 <= j < |log| && log[j].Record? && log[j].op == AcquireOp ==> !ActiveIn(log[..j], log[j].lock.key))
  }

  predicate WrittenByStore(line: Line)
    requires line.Record?
  {
    && line.lock.key != ""
    && (line.op == AcquireOp ==> line.lock.status == InFlight)
    && (line.op == SubmittedOp ==> line.lock.status == Submitted)
    && (line.op == ClearOp ==> line.lock.status == Cleared)
  }

  lemma CallKeepsDiscipline(log: seq<Line>, call: Call)
    requires Disciplined(log)
    ensures Disciplined(AfterCall(log, call))
  {
    ReplayKeyed(log);
    var after := AfterCall(log, call);
    forall j | 0 <= j < |after| && after[j].Record? && after[j].op == AcquireOp
      ensures !ActiveIn(after[..j], after[j].lock.key)
    {
      if j < |log| {
        assert after[..j] == log[..j];
      } else {
        assert after[..j] == log;
      }
    }
  }

  lemma {:induction false} HistoriesAreDisciplined(calls: seq<Call>)
    ensures Disciplined(AfterCalls([], calls))
    decreases |calls|
  {
    if |calls| > 0 {
      HistoriesAreDisciplined(Front(calls));
      CallKeepsDiscipline(AfterCalls([], Front(calls)), Last(calls));
    }
  }

  /** A key that was active at some point stays so unless a line clears it. */
  lemma {:induction false} ActiveUntilCleared(log: seq<Line>, key: string, from: nat)
    requires Disciplined(log) && from <= |log|
    requires ActiveIn(log[..from], key)
    requires !ClearBetween(log, key, from, |log|)
    ensures ActiveIn(log, key)
    decreases |log| - from
  {
    if from == |log| {
      assert log[..from] == log;
    } else {
      assert log[..from + 1] == log[..from] + [log[from]];
      ReplaySnoc(log[..from], log[from]);
      assert !IsClearOf(log[from], key);
      ActiveUntilCleared(log, key, from + 1);
    }
  }

  /** Mutual exclusion in time: two successful acquisitions of one key always have
      a CLEAR of that key between them, in every history. */
  lemma AcquiresAreSeparatedByClear(calls: seq<Call>, key: string, i: nat, j: nat)
    requires i < j < |AfterCalls([], calls)|
    requires IsAcquireOf(AfterCalls([], calls)[i], key) && IsAcquireOf(AfterCalls([], calls)[j], key)
    ensures ClearBetween(AfterCalls([], calls), key, i, j)
  {
    var log := AfterCalls([], calls);
    HistoriesAreDisciplined(calls);
    if !ClearBetween(log, key, i, j) {
      var upto := log[..j];
      DisciplinePrefix(log, j);
      assert upto[..i + 1] == log[..i] + [log[i]];
      ReplaySnoc(log[..i], log[i]);
      assert ActiveIn(upto[..i + 1], key);
      forall c | i + 1 <= c < |upto| ensures !IsClearOf(upto[c], key) {
        assert upto[c] == log[c];
      }
      ActiveUntilCleared(upto, key, i + 1);
      assert false;
    }
  }

  lemma DisciplinePrefix(log: seq<Line>, n: nat)
    requires Disciplined(log) && n <= |log|
    ensures Disciplined(log[..n])
  {
    forall j | 0 <= j < n && log[..n][j].Record? && log[..n][j].op == AcquireOp
      ensures !ActiveIn(log[..n][..j], log[..n][j].lock.key)
    {
      assert log[..n][..j] == log[..j];
    }
  }

  /** `mark_submitted` does not look at the status it overwrites: acquire, clear,
      then mark leaves the key active again without a second acquisition. */
  lemma MarkRevivesClearedLock(symbol: string)
    ensures var key := BuildKey(symbol, "BUY", "", "");
            var calls := [CallAcquire(symbol, "BUY", "", ""), CallClear(key, OperatorCleared), CallMark(key, None, None)];
            !ActiveIn(AfterCalls([], calls[..2]), key) && ActiveIn(AfterCalls([], calls), key)
  {
    var key := BuildKey(symbol, "BUY", "", "");
    var c0, c1, c2 := CallAcquire(symbol, "BUY", "", ""), CallClear(key, OperatorCleared), CallMark(key, None, None);
    var calls := [c0, c1, c2];
    hide BuildKey, Normalize, Replay, AfterCalls;
    LogRefinesMap(calls[..2]);
    LogRefinesMap(calls);
    assert calls[..2] == [c0, c1] && Front(calls) == [c0, c1] && Front([c0, c1]) == [c0] && Front([c0]) == [];
    assert MapCalls(map[], [c0]) == MapCall(MapCalls(map[], []), c0);
    assert MapCalls(map[], [c0, c1]) == MapCall(MapCalls(map[], [c0]), c1);
    assert MapCalls(map[], calls) == MapCall(MapCalls(map[], [c0, c1]), c2);
  }

  /** Line `at` is the last one written for `key`, and it is not a CLEAR. */
  ghost predicate LastKeeps(log: seq<Line>, key: string, at: int) {
    && 0 <= at < |log| && IsRecordOf(log[at], key) && log[at].op != ClearOp
    && (forall i :: at < i < |log| ==> !IsRecordOf(log[i], key))
  }

  /** Exactly when a key is active: some line was written for it and the last one
      is not a CLEAR. */
  lemma ActiveExactly(log: seq<Line>, key: string)
    requires Disciplined(log) && key != ""
    ensures ActiveIn(log, key) <==> exists at :: LastKeeps(log, key, at)
  {
    if at :| LastKeeps(log, key, at) {
      ReplayIsLastLine(log, key, at);
    }
    if ActiveIn(log, key) {
      var at := ActiveHasLastLine(log, key);
    }
  }

  lemma {:induction false} ActiveHasLastLine(log: seq<Line>, key: string) returns (at: int)
    requires Disciplined(log) && key != "" && ActiveIn(log, key)
    ensures LastKeeps(log, key, at)
    decreases |log|
  {
    at := |log| - 1;
    if !IsRecordOf(Last(log), key) {
      DisciplinePrefix(log, at);
      at := ActiveHasLastLine(Front(log), key);
    }
  }

  // ---------------------------------------------------------------- the store

  class IdempotencyStore {
    var log: seq<Line>

    constructor ()
      ensures log == []
    {
      log := [];
    }

    method ReplayUnlocked() returns (current: map<string, Lock>)
      ensures current == Replay(log)
    {
      current := map[];
      var n := 0;
      while n < |log|
        invariant 0 <= n <= |log|
        invariant current == Replay(log[..n])
      {
        var line := log[n];
        assert log[..n + 1] == log[..n] + [line];
        ReplaySnoc(log[..n], line);
        if line.Record? && line.lock.key != "" {
          current := current[line.lock.key := line.lock];
        }
        n := n + 1;
      }
      assert log[..n] == log;
    }

    method Acquire(symbol: string, action: string, basket: string, leg: string) returns (r: LockAcquisition)
      modifies this
      ensures log == AfterCall(old(log), CallAcquire(symbol, action, basket, leg))
      ensures r.acquired <==> !ActiveIn(old(log), BuildKey(symbol, action, basket, leg))
      ensures r.acquired ==> r.lock == FreshLock(symbol, action, basket, leg) && r.existing.None?
      ensures !r.acquired ==> r.existing == Some(r.lock) && r.lock == Replay(old(log))[BuildKey(symbol, action, basket, leg)]
      ensures r.lock.key == BuildKey(symbol, action, basket, leg)
    {
      var key := BuildKey(symbol, action, basket, leg);
      var current := ReplayUnlocked();
      ReplayKeyed(log);
      if key in current && current[key].Active() {
        return LockAcquisition(false, current[key], Some(current[key]));
      }
      var lock := Lock(key, InFlight, Normalize(symbol), Normalize(action), None, None, AcquiredBeforeSubmission);
      log := log + [Record(AcquireOp, lock)];
      return LockAcquisition(true, lock, None);
    }

    /** Fails with the missing key when nothing was ever written for it. */
    method MarkSubmitted(key: string, orderId: Option<int>, tradeId: Option<string>) returns (r: Result<Lock, string>)
      modifies this
      ensures log == AfterCall(old(log), CallMark(key, orderId, tradeId))
      ensures r.Ok? <==> key in Replay(old(log))
      ensures r.Ok? ==> key in Replay(log) && Replay(log)[key] == r.value && r.value.status == Submitted
      ensures r.Err? ==> r.error == key
    {
      var current := ReplayUnlocked();
      ReplayKeyed(log);
      if key !in current {
        return Err(key);
      }
      var updated := MarkedLock(current[key], orderId, tradeId);
      ReplaySnoc(log, Record(SubmittedOp, updated));
      log := log + [Record(SubmittedOp, updated)];
      return Ok(updated);
    }

    method Clear(key: string, reason: Reason) returns (r: Option<Lock>)
      modifies this
      ensures log == AfterCall(old(log), CallClear(key, reason))
      ensures r.Some? <==> key in Replay(old(log))
      ensures !ActiveIn(log, key)
    {
      var current := ReplayUnlocked();
      ReplayKeyed(log);
      if key !in current {
        return None;
      }
      var updated := ClearedLock(current[key], reason);
      ReplaySnoc(log, Record(ClearOp, updated));
      log := log + [Record(ClearOp, updated)];
      return Some(updated);
    }
  }
}
