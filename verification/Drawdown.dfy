/** Drawdown and losing streaks: the running-peak loops, what they compute, and what a
    drawdown does to the recommended capital level. */
module Drawdown {
  import opened Common

  // ---------------------------------------------------------------- what is meant

  /** Cumulative result of the first outcomes. */
  function Total(values: seq<real>): real {
    if |values| == 0 then 0.0 else Total(Front(values)) + Last(values)
  }

  function Larger(a: real, b: real): real {
    if a >= b then a else b
  }

  function Peak(values: seq<real>): real {
    if |values| == 0 then 0.0 else Larger(Peak(Front(values)), Total(values))
  }

  function MaxDrawdown(values: seq<real>): real {
    if |values| == 0 then 0.0 else Larger(MaxDrawdown(Front(values)), Peak(values) - Total(values))
  }

  lemma OneMore(values: seq<real>, v: real)
    ensures Total(values + [v]) == Total(values) + v
    ensures Peak(values + [v]) == Larger(Peak(values), Total(values) + v)
    ensures MaxDrawdown(values + [v]) == Larger(MaxDrawdown(values), Peak(values + [v]) - Total(values + [v]))
  {
    SnocFront(values, v);
  }

  /** From the level after `i` outcomes to the level after `j`. */
  function Fall(values: seq<real>, i: nat, j: nat): real
    requires i <= |values| && j <= |values|
  {
    Total(values[..i]) - Total(values[..j])
  }

  lemma {:induction false} PeakIsHighest(values: seq<real>) returns (i: nat)
    ensures i <= |values| && Peak(values) == Total(values[..i])
    ensures forall k :: 0 <= k <= |values| ==> Total(values[..k]) <= Peak(values)
    decreases |values|
  {
    assert values[..|values|] == values;
    i := 0;
    if |values| > 0 {
      i := PeakIsHighest(Front(values));
      assert forall k :: 0 <= k < |values| ==> Front(values)[..k] == values[..k];
      if Total(values) > Peak(Front(values)) {
        i := |values|;
      }
    }
  }

  /** The drawdown is the largest fall from an earlier level to a later one: some fall is
      that large and none is larger. */
  lemma {:induction false} DrawdownIsLargestFall(values: seq<real>) returns (i: nat, j: nat)
    ensures i <= j <= |values| && MaxDrawdown(values) == Fall(values, i, j)
    ensures forall a, b :: 0 <= a <= b <= |values| ==> Fall(values, a, b) <= MaxDrawdown(values)
    decreases |values|
  {
    assert values[..|values|] == values;
    i, j := 0, 0;
    if |values| > 0 {
      i, j := DrawdownIsLargestFall(Front(values));
      var top := PeakIsHighest(values);
      assert forall k :: 0 <= k < |values| ==> Front(values)[..k] == values[..k];
      forall a, b | 0 <= a <= b <= |values| ensures Fall(values, a, b) <= MaxDrawdown(values) {
        if b < |values| {
          assert Fall(values, a, b) == Fall(Front(values), a, b);
        }
      }
      if Peak(values) - Total(values) > MaxDrawdown(Front(values)) {
        i, j := top, |values|;
      }
    }
  }

  // ---------------------------------------------------------------- the loops

  /** `_max_drawdown`. */
  method RunningDrawdown(values: seq<real>) returns (drawdown: real)
    ensures drawdown == MaxDrawdown(values)
  {
    var equity, peak := 0.0, 0.0;
    drawdown := 0.0;
    for n := 0 to |values|
      invariant equity == Total(values[..n]) && peak == Peak(values[..n]) && drawdown == MaxDrawdown(values[..n])
    {
      assert Front(values[..n + 1]) == values[..n];
      equity := equity + values[n];
      peak := Larger(peak, equity);
      drawdown := Larger(drawdown, peak - equity);
    }
    assert values[..|values|] == values;
  }

  function Known(results: seq<Option<real>>): seq<real> {
    if |results| == 0 then []
    else if Last(results).Some? then Known(Front(results)) + [Last(results).value]
    else Known(Front(results))
  }

  /** Losses at the very end. */
  function EndingLosses(values: seq<real>): nat {
    if |values| == 0 || Last(values) >= 0.0 then 0 else EndingLosses(Front(values)) + 1
  }

  function LongestLosses(values: seq<real>): nat {
    if |values| == 0 then 0
    else if EndingLosses(values) > LongestLosses(Front(values)) then EndingLosses(values)
    else LongestLosses(Front(values))
  }

  predicate AllLosses(values: seq<real>, i: nat, j: nat)
    requires i <= j <= |values|
  {
    forall k :: i <= k < j ==> values[k] < 0.0
  }

  lemma {:induction false} EndingIsMaximal(values: seq<real>)
    ensures EndingLosses(values) <= |values|
    ensures AllLosses(values, |values| - EndingLosses(values), |values|)
    ensures forall i :: 0 <= i <= |values| && AllLosses(values, i, |values|) ==> |values| - i <= EndingLosses(values)
    decreases |values|
  {
    if |values| > 0 {
      EndingIsMaximal(Front(values));
      forall i | 0 <= i <= |values| && AllLosses(values, i, |values|) ensures |values| - i <= EndingLosses(values) {
        if i < |values| {
          assert values[|values| - 1] < 0.0;
          assert AllLosses(Front(values), i, |values| - 1);
        }
      }
    }
  }

  /** The loss count is the length of the longest unbroken run of losses. */
  lemma {:induction false} LossesAreLongestRun(values: seq<real>) returns (i: nat, j: nat)
    ensures i <= j <= |values| && AllLosses(values, i, j) && j - i == LongestLosses(values)
    ensures forall a, b :: 0 <= a <= b <= |values| && AllLosses(values, a, b) ==> b - a <= LongestLosses(values)
    decreases |values|
  {
    i, j := 0, 0;
    EndingIsMaximal(values);
    if |values| > 0 {
      i, j := LossesAreLongestRun(Front(values));
      forall a, b | 0 <= a <= b <= |values| && AllLosses(values, a, b) ensures b - a <= LongestLosses(values) {
        if b < |values| {
          assert AllLosses(Front(values), a, b);
        }
      }
      if EndingLosses(values) > LongestLosses(Front(values)) {
        i, j := |values| - EndingLosses(values), |values|;
      }
    }
  }

  lemma OneMoreLoss(values: seq<real>, v: real)
    ensures var run := if v < 0.0 then EndingLosses(values) + 1 else 0;
            && EndingLosses(values + [v]) == run
            && LongestLosses(values + [v]) == if run > LongestLosses(values) then run else LongestLosses(values)
  {
    SnocFront(values, v);
  }

  lemma NothingYet()
    ensures Total([]) == 0.0 && Peak([]) == 0.0 && MaxDrawdown([]) == 0.0 && EndingLosses([]) == 0 && LongestLosses([]) == 0
  {
  }

  lemma KnownSnoc(results: seq<Option<real>>, n: nat)
    requires n < |results|
    ensures Known(results[..n + 1]) == if results[n].Some? then Known(results[..n]) + [results[n].value] else Known(results[..n])
  {
    assert Front(results[..n + 1]) == results[..n];
  }

  /** What the loop carries after the values so far. */
  datatype Stats = Stats(running: real, peak: real, drawdown: real, losses: nat, longest: nat)

  function StatsOf(values: seq<real>): Stats {
    Stats(Total(values), Peak(values), MaxDrawdown(values), EndingLosses(values), LongestLosses(values))
  }

  lemma StatsOfMore(values: seq<real>, v: real, s: Stats)
    requires s == StatsOf(values)
    ensures var (running, losses) := (s.running + v, if v < 0.0 then s.losses + 1 else 0);
            var peak := if running > s.peak then running else s.peak;
            StatsOf(values + [v]) ==
            Stats(running, peak, if peak - running > s.drawdown then peak - running else s.drawdown,
                  losses, if losses > s.longest then losses else s.longest)
  {
    OneMore(values, v);
    OneMoreLoss(values, v);
  }

  /** `compute_r_stats`: missing results are skipped, and do not break a run of losses. */
  method ComputeRStats(results: seq<Option<real>>) returns (maxDrawdown: real, maxLosses: nat)
    ensures maxDrawdown == MaxDrawdown(Known(results))
    ensures maxLosses == LongestLosses(Known(results))
  {
    NothingYet();
    assert Known(results[..0]) == [];
    hide Known, StatsOf;
    var running, peak, losses := 0.0, 0.0, 0;
    maxDrawdown, maxLosses := 0.0, 0;
    for n := 0 to |results|
      invariant Stats(running, peak, maxDrawdown, losses, maxLosses) == StatsOf(Known(results[..n]))
    {
      KnownSnoc(results, n);
      if results[n].None? {
        continue;
      }
      var r := results[n].value;
      StatsOfMore(Known(results[..n]), r, Stats(running, peak, maxDrawdown, losses, maxLosses));
      running := running + r;
      if running > peak {
        peak := running;
      }
      var drawdown := peak - running;
      if drawdown > maxDrawdown {
        maxDrawdown := drawdown;
      }
      if r < 0.0 {
        losses := losses + 1;
        if losses > maxLosses {
          maxLosses := losses;
        }
      } else {
        losses := 0;
      }
    }
    assert results[..|results|] == results;
  }

  // ---------------------------------------------------------------- later outcomes

  /** Later outcomes never lower the drawdown. */
  lemma {:induction false} LaterNeverLowers(values: seq<real>, more: seq<real>)
    ensures MaxDrawdown(values + more) >= MaxDrawdown(values)
    decreases |more|
  {
    if |more| == 0 {
      assert values + more == values;
    } else {
      assert Front(values + more) == values + Front(more);
      LaterNeverLowers(values, Front(more));
    }
  }

  // ---------------------------------------------------------------- an outcome in between

  lemma {:induction false} EarlierNeverLowers(pre: seq<real>, values: seq<real>)
    ensures Total(pre + values) == Total(pre) + Total(values)
    ensures Peak(pre + values) >= Total(pre) + Peak(values)
    ensures MaxDrawdown(pre + values) >= MaxDrawdown(values)
    decreases |values|
  {
    var _ := PeakIsHighest(pre);
    if |values| == 0 {
      assert pre + values == pre && pre[..|pre|] == pre;
      var _, _ := DrawdownIsLargestFall(pre);
      assert Fall(pre, 0, 0) == 0.0;
    } else {
      assert Front(pre + values) == pre + Front(values);
      EarlierNeverLowers(pre, Front(values));
    }
  }

  /** A win that makes up for everything before it starts the count anew. */
  lemma {:induction false} WinStartsAnew(before: seq<real>, win: real, after: seq<real>)
    requires Total(before) + win >= Peak(before)
    ensures Total(before + [win] + after) == Total(before) + win + Total(after)
    ensures Peak(before + [win] + after) == Total(before) + win + Peak(after)
    ensures MaxDrawdown(before + [win] + after) == Larger(MaxDrawdown(before), MaxDrawdown(after))
    decreases |after|
  {
    OneMore(before, win);
    if |after| == 0 {
      assert before + [win] + after == before + [win];
      var _, _ := DrawdownIsLargestFall(before);
      assert Fall(before, 0, 0) == 0.0;
    } else {
      assert Front(before + [win] + after) == before + [win] + Front(after);
      WinStartsAnew(before, win, Front(after));
    }
  }

  lemma SidesRemain(before: seq<real>, r: real, after: seq<real>)
    ensures MaxDrawdown(before + [r] + after) >= MaxDrawdown(before)
    ensures MaxDrawdown(before + [r] + after) >= MaxDrawdown(after)
  {
    hide MaxDrawdown, Total, Peak;
    LaterNeverLowers(before, [r] + after);
    assert before + ([r] + after) == before + [r] + after;
    EarlierNeverLowers(before + [r], after);
  }

  /** Whatever outcome comes in between, the drawdown is above the limit, exactly when it is
      so on one side already. */
  lemma OutcomeInBetween(before: seq<real>, after: seq<real>, limit: real)
    ensures (forall r :: MaxDrawdown(before + [r] + after) > limit) <==> MaxDrawdown(before) > limit || MaxDrawdown(after) > limit
  {
    hide MaxDrawdown, Total, Peak;
    forall r
      ensures MaxDrawdown(before + [r] + after) >= MaxDrawdown(before) && MaxDrawdown(before + [r] + after) >= MaxDrawdown(after)
    {
      SidesRemain(before, r, after);
    }
    WinStartsAnew(before, Peak(before) - Total(before), after);
  }

  // ---------------------------------------------------------------- capital levels

  datatype Row = Row(time: int, r: real)

  /** Rows by time, those of one time in the order they were read. */
  function Sorted(rows: seq<Row>): seq<Row> {
    if |rows| == 0 then [] else Insert(Sorted(Front(rows)), Last(rows))
  }

  function Insert(rows: seq<Row>, row: Row): seq<Row> {
    if |rows| == 0 || Last(rows).time <= row.time then rows + [row] else Insert(Front(rows), row) + [Last(rows)]
  }

  function Values(rows: seq<Row>): (v: seq<real>)
    ensures |v| == |rows| && forall i :: 0 <= i < |rows| ==> v[i] == rows[i].r
  {
    seq(|rows|, i requires 0 <= i < |rows| => rows[i].r)
  }

  lemma {:induction false} InsertKeepsBound(rows: seq<Row>, row: Row, bound: int)
    requires forall i :: 0 <= i < |rows| ==> rows[i].time <= bound
    requires row.time <= bound
    ensures forall i :: 0 <= i < |Insert(rows, row)| ==> Insert(rows, row)[i].time <= bound
    decreases |rows|
  {
    if |rows| > 0 && Last(rows).time > row.time {
      InsertKeepsBound(Front(rows), row, bound);
    }
  }

  lemma {:induction false} SortedKeepsBound(rows: seq<Row>, bound: int)
    requires forall i :: 0 <= i < |rows| ==> rows[i].time <= bound
    ensures forall i :: 0 <= i < |Sorted(rows)| ==> Sorted(rows)[i].time <= bound
    decreases |rows|
  {
    if |rows| > 0 {
      SortedKeepsBound(Front(rows), bound);
      InsertKeepsBound(Sorted(Front(rows)), Last(rows), bound);
    }
  }

  /** Rows no older than any before them, each in turn. */
  predicate Later(rows: seq<Row>, more: seq<Row>) {
    forall i, j :: 0 <= i < |rows + more| && |rows| <= j < |rows + more| && i < j ==> (rows + more)[i].time <= (rows + more)[j].time
  }

  /** Later rows are sorted to the end. */
  lemma {:induction false} LaterRowsComeLast(rows: seq<Row>, more: seq<Row>)
    requires Later(rows, more)
    ensures Sorted(rows + more) == Sorted(rows) + more
    decreases |more|
  {
    if |more| == 0 {
      assert rows + more == rows;
    } else {
      var all := rows + more;
      assert Front(all) == rows + Front(more) && Last(all) == Last(more);
      LaterFront(rows, more);
      hide Later, Insert;
      LaterRowsComeLast(rows, Front(more));
      SortedKeepsBound(Front(all), Last(more).time);
      InsertLast(Sorted(Front(all)), Last(more));
      assert (Sorted(rows) + Front(more)) + [Last(more)] == Sorted(rows) + more;
    }
  }

  lemma LaterFront(rows: seq<Row>, more: seq<Row>)
    requires Later(rows, more) && |more| > 0
    ensures Later(rows, Front(more))
    ensures forall i :: 0 <= i < |Front(rows + more)| ==> Front(rows + more)[i].time <= Last(more).time
  {
    var all := rows + more;
    assert forall i :: 0 <= i < |all| - 1 ==> (rows + Front(more))[i] == all[i] && Front(all)[i] == all[i];
    assert forall i :: 0 <= i < |all| - 1 ==> all[i].time <= all[|all| - 1].time;
  }

  lemma InsertLast(rows: seq<Row>, row: Row)
    requires forall i :: 0 <= i < |rows| ==> rows[i].time <= row.time
    ensures Insert(rows, row) == rows + [row]
  {
  }

  lemma ValuesConcat(a: seq<Row>, b: seq<Row>)
    ensures Values(a + b) == Values(a) + Values(b)
  {
  }

  lemma LaterRowsNeverLower(rows: seq<Row>, more: seq<Row>)
    requires Later(rows, more)
    ensures MaxDrawdown(Values(Sorted(rows + more))) >= MaxDrawdown(Values(Sorted(rows)))
  {
    LaterRowsComeLast(rows, more);
    ValuesConcat(Sorted(rows), more);
    LaterNeverLowers(Values(Sorted(rows)), Values(more));
  }

  datatype Action = Demote | Hold | Approve

  datatype Report = Report(action: Action, current: int, recommended: int, byDrawdown: bool)

  /** `otherReason` stands for the remaining demotion rules, `refused` for the promotion
      requirements, which this report only counts. */
  function Evaluate(levels: seq<int>, rows: seq<Row>, level: int, limit: real, otherReason: bool, refused: bool): Report
    requires |levels| > 0
  {
    var current := CurrentLevel(levels, level);
    var byDrawdown := current > 0 && MaxDrawdown(Values(Sorted(rows))) > limit;
    if byDrawdown || (current > 0 && otherReason) then
      Report(Demote, current, if levels[0] >= current - 1 then levels[0] else current - 1, byDrawdown)
    else if current + 1 !in levels || refused then Report(Hold, current, current, false)
    else Report(Approve, current, current + 1, false)
  }

  /** What the report recommends: one level down, but not below the lowest, when the drawdown is
      past the limit or another rule says so, unless the level is zero; otherwise one level up
      when there is such a level and nothing refuses it; otherwise the same level. The level is
      brought within the known ones first. */
  lemma RecommendedExactly(levels: seq<int>, rows: seq<Row>, level: int, limit: real, otherReason: bool, refused: bool)
    requires |levels| > 0 && levels[0] <= levels[|levels| - 1]
    ensures var r := Evaluate(levels, rows, level, limit, otherReason, refused);
            var down := 0 < r.current && (MaxDrawdown(Values(Sorted(rows))) > limit || otherReason);
            && levels[0] <= r.current <= levels[|levels| - 1] && (levels[0] <= level <= levels[|levels| - 1] ==> r.current == level)
            && (level < levels[0] ==> r.current == levels[0]) && (level > levels[|levels| - 1] ==> r.current == levels[|levels| - 1])
            && (r.action == Demote <==> down)
            && (r.action == Demote ==> levels[0] <= r.recommended && r.current - 1 <= r.recommended
                                       && (r.recommended == levels[0] || r.recommended + 1 == r.current))
            && (r.action == Approve <==> !down && !refused && exists i :: 0 <= i < |levels| && levels[i] == r.current + 1)
            && (r.action == Approve ==> r.recommended == r.current + 1)
            && (r.action == Hold ==> r.recommended == r.current)
            && (r.byDrawdown <==> 0 < r.current && MaxDrawdown(Values(Sorted(rows))) > limit)
  {
    hide MaxDrawdown, Values, Sorted;
  }

  /** A drawdown demotion persists: with whatever later outcomes and whatever else the report
      weighs, at the same level the same recommendation is made again. */
  lemma DemotionPersists(levels: seq<int>, rows: seq<Row>, more: seq<Row>, level: int, limit: real,
                         other: bool, refused: bool, laterOther: bool, laterRefused: bool)
    requires |levels| > 0 && Later(rows, more)
    requires Evaluate(levels, rows, level, limit, other, refused).byDrawdown
    ensures Evaluate(levels, rows + more, level, limit, laterOther, laterRefused) == Evaluate(levels, rows, level, limit, other, refused)
  {
    LaterRowsNeverLower(rows, more);
  }

  /** Of rows by time, those up to `time` and those past it. */
  function Upto(rows: seq<Row>, time: int): seq<Row> {
    if |rows| == 0 || Last(rows).time <= time then rows else Upto(Front(rows), time)
  }

  function Past(rows: seq<Row>, time: int): seq<Row> {
    if |rows| == 0 || Last(rows).time <= time then [] else Past(Front(rows), time) + [Last(rows)]
  }

  lemma {:induction false} InsertBetween(rows: seq<Row>, row: Row)
    ensures Insert(rows, row) == Upto(rows, row.time) + [row] + Past(rows, row.time)
    decreases |rows|
  {
    if |rows| > 0 && Last(rows).time > row.time {
      InsertBetween(Front(rows), row);
      var upto, past := Upto(Front(rows), row.time), Past(Front(rows), row.time);
      assert (upto + [row] + past) + [Last(rows)] == upto + [row] + (past + [Last(rows)]);
    }
  }

  predicate ByTime(rows: seq<Row>) {
    forall i, j :: 0 <= i < j < |rows| ==> rows[i].time <= rows[j].time
  }

  lemma {:induction false} SortedByTime(rows: seq<Row>)
    ensures ByTime(Sorted(rows))
    decreases |rows|
  {
    if |rows| > 0 {
      SortedByTime(Front(rows));
      InsertByTime(Sorted(Front(rows)), Last(rows));
    }
  }

  lemma {:induction false} InsertByTime(rows: seq<Row>, row: Row)
    requires ByTime(rows)
    ensures ByTime(Insert(rows, row))
    decreases |rows|
  {
    if |rows| > 0 && Last(rows).time > row.time {
      InsertByTime(Front(rows), row);
      InsertKeepsBound(Front(rows), row, Last(rows).time);
    }
  }

  lemma {:induction false} SidesMakeUp(rows: seq<Row>, time: int)
    ensures Upto(rows, time) + Past(rows, time) == rows
    decreases |rows|
  {
    if |rows| > 0 && Last(rows).time > time {
      SidesMakeUp(Front(rows), time);
      var upto, past := Upto(Front(rows), time), Past(Front(rows), time);
      assert upto + (past + [Last(rows)]) == (upto + past) + [Last(rows)];
    }
  }

  /** The two sides are what their names say. */
  lemma {:induction false} SidesOfTime(rows: seq<Row>, time: int)
    requires ByTime(rows)
    ensures forall i :: 0 <= i < |Upto(rows, time)| ==> Upto(rows, time)[i].time <= time
    ensures forall i :: 0 <= i < |Past(rows, time)| ==> Past(rows, time)[i].time > time
    decreases |rows|
  {
    if |rows| > 0 && Last(rows).time > time {
      assert forall i :: 0 <= i < |rows| - 1 ==> Front(rows)[i] == rows[i];
      SidesOfTime(Front(rows), time);
    }
  }

  function CurrentLevel(levels: seq<int>, level: int): int
    requires |levels| > 0
  {
    if level < levels[0] then levels[0] else if level > Last(levels) then Last(levels) else level
  }

  /** An outcome dated `time` that turns up later: the drawdown demotion survives whatever it
      is worth exactly when the outcomes up to that time, or those past it, fall by more than
      the limit on their own. */
  lemma InsertedOutcomeExactly(levels: seq<int>, rows: seq<Row>, time: int, level: int, limit: real, other: bool, refused: bool)
    requires |levels| > 0
    ensures (forall r :: Evaluate(levels, rows + [Row(time, r)], level, limit, other, refused).byDrawdown)
       <==> CurrentLevel(levels, level) > 0
            && (MaxDrawdown(Values(Upto(Sorted(rows), time))) > limit || MaxDrawdown(Values(Past(Sorted(rows), time))) > limit)
  {
    var upto, past := Values(Upto(Sorted(rows), time)), Values(Past(Sorted(rows), time));
    forall r ensures Values(Sorted(rows + [Row(time, r)])) == upto + [r] + past {
      assert Front(rows + [Row(time, r)]) == rows;
      InsertBetween(Sorted(rows), Row(time, r));
    }
    OutcomeInBetween(upto, past, limit);
    hide MaxDrawdown, Sorted;
    forall r
      ensures Evaluate(levels, rows + [Row(time, r)], level, limit, other, refused).byDrawdown <==>
              CurrentLevel(levels, level) > 0 && MaxDrawdown(upto + [r] + past) > limit
    {
    }
    if forall r :: Evaluate(levels, rows + [Row(time, r)], level, limit, other, refused).byDrawdown {
      assert Evaluate(levels, rows + [Row(time, 0.0)], level, limit, other, refused).byDrawdown;
      forall r ensures MaxDrawdown(upto + [r] + past) > limit {
        assert Evaluate(levels, rows + [Row(time, r)], level, limit, other, refused).byDrawdown;
      }
    }
  }

  /** Outcomes dated before existing ones can lift it: a win dated between the two losses. */
  lemma EarlierOutcomeCanLift()
    ensures var (rows, win) := ([Row(1, -4.0), Row(3, -4.0)], Row(2, 5.0));
            && Evaluate([0, 1], rows, 1, 6.0, false, false).action == Demote
            && Evaluate([0, 1], rows + [win], 1, 6.0, false, false).action != Demote
  {
    var a, b, win := Row(1, -4.0), Row(3, -4.0), Row(2, 5.0);
    var rows := [a, b];
    assert Front(rows) == [a] && Front([a]) == [];
    assert Sorted([a]) == [a] && Sorted(rows) == Insert([a], b) == [a, b];
    assert Front(rows + [win]) == rows;
    assert Front([a, b]) == [a] && Insert([a], win) == [a, win];
    assert Insert([a, b], win) == [a, win, b];
    assert Sorted(rows + [win]) == [a, win, b];
    TwoFalls(-4.0, -4.0);
    ThreeSteps(-4.0, 5.0, -4.0);
    assert Values([a, b]) == [-4.0, -4.0] && Values([a, win, b]) == [-4.0, 5.0, -4.0];
  }

  lemma TwoFalls(x: real, y: real)
    requires x <= 0.0 && y <= 0.0
    ensures MaxDrawdown([x, y]) == -(x + y)
  {
    OneMore([], x);
    OneMore([x], y);
    assert [] + [x] == [x] && [x] + [y] == [x, y];
  }

  lemma ThreeSteps(x: real, y: real, z: real)
    requires x <= 0.0 && y >= -x && z <= 0.0
    ensures MaxDrawdown([x, y, z]) == Larger(-x, -z)
  {
    OneMore([], x);
    OneMore([x], y);
    OneMore([x, y], z);
    assert [] + [x] == [x] && [x] + [y] == [x, y] && [x, y] + [z] == [x, y, z];
  }
}
