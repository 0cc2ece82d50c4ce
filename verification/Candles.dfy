/** Candle aggregation: the grouping loop, what it means on a time-ordered feed, and
    how candles of different lengths nest.

    A timestamp is a whole minute of market time, `1440 * day + minute of day`. */
module Candles {
  import opened Common

  // ---------------------------------------------------------------- data

  datatype Candle = Candle(
    symbol: string,
    timeframe: int,
    start: int,
    end: int,
    open: real,
    high: real,
    low: real,
    close: real,
    volume: real,
    closed: bool)
  {
    predicate Valid() {
      high >= low && high >= open && high >= close && low <= open && low <= close && volume >= 0.0
    }
  }

  function MinuteOfDay(c: Candle): (m: int)
    ensures 0 <= m < 1440
  {
    c.start % 1440
  }

  function Key(c: Candle, factor: int): int
    requires factor > 0
  {
    MinuteOfDay(c) / factor
  }

  function Max(a: real, b: real): real { if a >= b then a else b }

  function Min(a: real, b: real): real { if a <= b then a else b }

  /** A valid candle opens and closes between its low and high and has no negative volume. */
  lemma ValidExactly(c: Candle)
    ensures c.Valid() <==> 0.0 <= c.volume && c.low <= Min(c.open, c.close) && Max(c.open, c.close) <= c.high
  {
  }

  function High(g: seq<Candle>): real
    requires |g| > 0
  {
    if |g| == 1 then g[0].high else Max(High(Front(g)), Last(g).high)
  }

  function Low(g: seq<Candle>): real
    requires |g| > 0
  {
    if |g| == 1 then g[0].low else Min(Low(Front(g)), Last(g).low)
  }

  function Volume(g: seq<Candle>): real {
    if |g| == 0 then 0.0 else Volume(Front(g)) + Last(g).volume
  }

  function ClosedOnly(bars: seq<Candle>): seq<Candle> {
    if |bars| == 0 then []
    else if Last(bars).closed then ClosedOnly(Front(bars)) + [Last(bars)]
    else ClosedOnly(Front(bars))
  }

  /** The candle of length `timeframe` that a group of candles amounts to. */
  function Merge(timeframe: int, g: seq<Candle>): Candle
    requires |g| > 0
  {
    Candle(g[0].symbol, timeframe, g[0].start, Last(g).end, g[0].open, High(g), Low(g), Last(g).close, Volume(g), true)
  }

  /** High and low are the extrema: bounds that some candle attains. */
  lemma {:induction false} ExtremaAreAttained(g: seq<Candle>) returns (hi: nat, lo: nat)
    requires |g| > 0
    ensures forall i :: 0 <= i < |g| ==> g[i].low >= Low(g) && g[i].high <= High(g)
    ensures hi < |g| && lo < |g| && g[hi].high == High(g) && g[lo].low == Low(g)
    decreases |g|
  {
    hi, lo := 0, 0;
    if |g| > 1 {
      hi, lo := ExtremaAreAttained(Front(g));
      forall i | 0 <= i < |g| ensures g[i].low >= Low(g) && g[i].high <= High(g) {
        if i < |g| - 1 {
          assert g[i] == Front(g)[i];
        }
      }
      hi := if High(Front(g)) >= Last(g).high then hi else |g| - 1;
      lo := if Low(Front(g)) <= Last(g).low then lo else |g| - 1;
    }
  }

  /** The volumes from position `i` on, added up. */
  function VolumeFrom(g: seq<Candle>, i: nat): real
    requires i <= |g|
    decreases |g| - i
  {
    if i == |g| then 0.0 else g[i].volume + VolumeFrom(g, i + 1)
  }

  lemma {:induction false} VolumeFromSnoc(g: seq<Candle>, c: Candle, i: nat)
    requires i <= |g|
    ensures VolumeFrom(g + [c], i) == VolumeFrom(g, i) + c.volume
    decreases |g| - i
  {
    if i < |g| {
      assert (g + [c])[i] == g[i];
      VolumeFromSnoc(g, c, i + 1);
    } else {
      assert (g + [c])[i] == c && VolumeFrom(g + [c], i + 1) == 0.0;
    }
  }

  lemma {:induction false} VolumeIsSum(g: seq<Candle>)
    ensures Volume(g) == VolumeFrom(g, 0)
    decreases |g|
  {
    if |g| > 0 {
      VolumeIsSum(Front(g));
      VolumeFromSnoc(Front(g), Last(g), 0);
      assert Front(g) + [Last(g)] == g;
    }
  }

  /** One candle for `g`, field by field: it opens with the first bar and closes with the last,
      spans their extremes and adds up their volumes. */
  ghost predicate AmountsTo(c: Candle, timeframe: int, g: seq<Candle>) {
    && |g| > 0
    && c.timeframe == timeframe && c.closed && c.symbol == g[0].symbol
    && c.start == g[0].start && c.end == g[|g| - 1].end
    && c.open == g[0].open && c.close == g[|g| - 1].close
    && c.volume == VolumeFrom(g, 0)
    && (forall i :: 0 <= i < |g| ==> c.low <= g[i].low && g[i].high <= c.high)
    && (exists i :: 0 <= i < |g| && g[i].high == c.high)
    && (exists i :: 0 <= i < |g| && g[i].low == c.low)
  }

  lemma MergeAmounts(timeframe: int, g: seq<Candle>)
    requires |g| > 0
    ensures AmountsTo(Merge(timeframe, g), timeframe, g)
  {
    var hi, lo := ExtremaAreAttained(g);
    VolumeIsSum(g);
  }

  // ---------------------------------------------------------------- the aggregation loop

  function Minutes(g: seq<Candle>): (m: seq<int>)
    ensures |m| == |g| && forall i :: 0 <= i < |g| ==> m[i] == MinuteOfDay(g[i])
  {
    seq(|g|, i requires 0 <= i < |g| => MinuteOfDay(g[i]))
  }

  function Range(base: int, n: nat): (r: seq<int>)
    ensures |r| == n && forall i :: 0 <= i < n ==> r[i] == base + i
  {
    seq(n, i => base + i)
  }

  /** The right number of bars, whose minutes sorted are those of one aligned bucket. */
  predicate Covers(g: seq<Candle>, factor: int)
    requires factor > 0
  {
    |g| == factor && multiset(Minutes(g)) == multiset(Range(Key(g[0], factor) * factor, factor))
  }

  function Groups(bars: seq<Candle>, factor: int): seq<seq<Candle>>
    requires factor > 0
  {
    if |bars| == 0 then []
    else
      var groups, c := Groups(Front(bars), factor), Last(bars);
      if |groups| == 0 || |Last(groups)| == 0 || Key(Last(groups)[0], factor) != Key(c, factor)
      then groups + [[c]]
      else Front(groups) + [Last(groups) + [c]]
  }

  function Emit(groups: seq<seq<Candle>>, factor: int): seq<Candle>
    requires factor > 0
  {
    if |groups| == 0 then [] else Emit(Front(groups), factor) + EmitOne(Last(groups), factor)
  }

  function EmitOne(group: seq<Candle>, factor: int): seq<Candle>
    requires factor > 0
  {
    if Covers(group, factor) then [Merge(factor, group)] else []
  }

  function Aggregate(bars: seq<Candle>, factor: int): seq<Candle> {
    if factor <= 1 then bars else Emit(Groups(bars, factor), factor)
  }

  /** The bars are the minutes of one aligned bucket, each of them once. */
  ghost predicate OneBucketOf(g: seq<Candle>, factor: int)
    requires factor > 0
  {
    exists base :: FillsBucket(g, factor, base)
  }

  ghost predicate FillsBucket(g: seq<Candle>, factor: int, base: int)
    requires factor > 0
  {
    base % factor == 0 && forall m :: base <= m < base + factor ==> OnceIn(g, m)
  }

  ghost predicate OnceIn(g: seq<Candle>, m: int) {
    exists i :: 0 <= i < |g| && g[i].start % 1440 == m && forall j :: 0 <= j < |g| && g[j].start % 1440 == m ==> j == i
  }

  /** Every candle of `out` amounts to the minutes of one aligned bucket, adjacent bars starting
      at `at[i]`; the candles follow each other and share no bar. */
  ghost predicate Aggregated(out: seq<Candle>, bars: seq<Candle>, factor: int, at: seq<nat>)
    requires factor > 0
  {
    && |at| == |out|
    && (forall i :: 0 <= i < |at| ==> at[i] + factor <= |bars|)
    && (forall i :: 0 <= i < |at| ==> AmountsTo(out[i], factor, bars[at[i]..at[i] + factor]) && OneBucketOf(bars[at[i]..at[i] + factor], factor))
    && (forall i, j :: 0 <= i < j < |at| ==> at[i] + factor <= at[j])
  }

  lemma CoversBucket(g: seq<Candle>, factor: int)
    requires factor > 0 && Covers(g, factor)
    ensures OneBucketOf(g, factor)
  {
    var base := Key(g[0], factor) * factor;
    DivUnique(base, Key(g[0], factor), factor);
    DivBounds(base, factor);
    forall m | base <= m < base + factor ensures OnceIn(g, m) {
      var minutes, range := Minutes(g), Range(base, factor);
      assert range[m - base] == m;
      assert multiset(minutes)[m] == multiset(range)[m];
      RangeOnce(base, factor, m);
      OnceOnly(minutes, m);
      var i :| 0 <= i < |minutes| && minutes[i] == m && forall j :: 0 <= j < |minutes| && minutes[j] == m ==> j == i;
      assert g[i].start % 1440 == m && forall j :: 0 <= j < |g| && g[j].start % 1440 == m ==> minutes[j] == m;
    }
    assert FillsBucket(g, factor, base);
  }

  lemma {:induction false} RangeOnce(base: int, n: nat, m: int)
    requires base <= m < base + n
    ensures multiset(Range(base, n))[m] == 1
    decreases n
  {
    var r := Range(base, n);
    assert Front(r) == Range(base, n - 1) && Front(r) + [Last(r)] == r;
    if m < base + n - 1 {
      RangeOnce(base, n - 1, m);
    } else {
      assert m !in Front(r);
    }
  }

  lemma {:induction false} OnceOnly(s: seq<int>, m: int)
    requires multiset(s)[m] == 1
    ensures exists i :: 0 <= i < |s| && s[i] == m && forall j :: 0 <= j < |s| && s[j] == m ==> j == i
    decreases |s|
  {
    assert m in s;
    assert Front(s) + [Last(s)] == s;
    if Last(s) == m {
      assert multiset(Front(s))[m] == 0 && m !in Front(s);
      forall j | 0 <= j < |s| - 1 ensures s[j] != m {
        assert s[j] == Front(s)[j];
      }
      assert s[|s| - 1] == m;
    } else {
      OnceOnly(Front(s), m);
      var i :| 0 <= i < |Front(s)| && Front(s)[i] == m && forall j :: 0 <= j < |Front(s)| && Front(s)[j] == m ==> j == i;
      assert s[i] == m;
    }
  }

  /** The groups cut the feed into pieces. */
  function Sizes(groups: seq<seq<Candle>>): nat {
    if |groups| == 0 then 0 else Sizes(Front(groups)) + |Last(groups)|
  }

  function Joined(groups: seq<seq<Candle>>): (r: seq<Candle>)
    ensures |r| == Sizes(groups)
  {
    if |groups| == 0 then [] else Joined(Front(groups)) + Last(groups)
  }

  lemma {:induction false} GroupsJoin(bars: seq<Candle>, factor: int)
    requires factor > 0
    ensures Joined(Groups(bars, factor)) == bars
    decreases |bars|
  {
    if |bars| > 0 {
      GroupsJoin(Front(bars), factor);
      JoinOneMore(Groups(Front(bars), factor), Last(bars));
      assert Front(bars) + [Last(bars)] == bars;
      hide Key;
    }
  }

  lemma {:induction false} JoinPiece(groups: seq<seq<Candle>>, g: seq<Candle>)
    ensures Joined(groups + [g]) == Joined(groups) + g
  {
    SnocFront(groups, g);
  }

  /** A bar joins the pieces as a new one or at the end of the last. */
  lemma {:induction false} JoinOneMore(groups: seq<seq<Candle>>, c: Candle)
    ensures Joined(groups + [[c]]) == Joined(groups) + [c]
    ensures |groups| > 0 ==> Joined(Front(groups) + [Last(groups) + [c]]) == Joined(groups) + [c]
  {
    JoinPiece(groups, [c]);
    if |groups| > 0 {
      assert Front(groups) + [Last(groups)] == groups;
      JoinPiece(Front(groups), Last(groups));
      JoinPiece(Front(groups), Last(groups) + [c]);
      hide Joined;
    }
  }

  lemma {:induction false} EmittedAt(groups: seq<seq<Candle>>, factor: int) returns (at: seq<nat>)
    requires factor > 0
    ensures Aggregated(Emit(groups, factor), Joined(groups), factor, at)
    decreases |groups|
  {
    if |groups| == 0 {
      return [];
    }
    hide AmountsTo, OneBucketOf, Covers, Merge;
    at := EmittedAt(Front(groups), factor);
    assert forall i :: 0 <= i < |at| ==> at[i] + factor <= |Joined(Front(groups))|;
    var before, g, out := Joined(Front(groups)), Last(groups), Emit(Front(groups), factor);
    AggregatedGrows(out, before, g, factor, at);
    if Covers(g, factor) {
      MergeAmounts(factor, g);
      CoversBucket(g, factor);
      OneMoreAggregated(out, before, g, Merge(factor, g), factor, at);
      at := at + [|before|];
    }
  }

  lemma AggregatedGrows(out: seq<Candle>, bars: seq<Candle>, more: seq<Candle>, factor: int, at: seq<nat>)
    requires factor > 0 && Aggregated(out, bars, factor, at)
    ensures Aggregated(out, bars + more, factor, at)
  {
    forall i | 0 <= i < |at| ensures AmountsTo(out[i], factor, (bars + more)[at[i]..at[i] + factor]) && OneBucketOf((bars + more)[at[i]..at[i] + factor], factor) {
      assert (bars + more)[at[i]..at[i] + factor] == bars[at[i]..at[i] + factor];
    }
  }

  lemma OneMoreAggregated(out: seq<Candle>, bars: seq<Candle>, g: seq<Candle>, c: Candle, factor: int, at: seq<nat>)
    requires factor > 0 && Aggregated(out, bars + g, factor, at) && |g| == factor && AmountsTo(c, factor, g)
    requires forall i :: 0 <= i < |at| ==> at[i] + factor <= |bars|
    requires OneBucketOf(g, factor)
    ensures Aggregated(out + [c], bars + g, factor, at + [|bars|])
  {
    assert (bars + g)[|bars|..|bars| + factor] == g;
    hide AmountsTo, OneBucketOf;
  }

  /** For every feed at all: where the candles come from, and what is in them. */
  lemma AggregatesBuckets(bars: seq<Candle>, factor: int) returns (at: seq<nat>)
    requires factor >= 2
    ensures Aggregated(Aggregate(bars, factor), bars, factor, at)
  {
    GroupsJoin(bars, factor);
    at := EmittedAt(Groups(bars, factor), factor);
  }

  method AggregateCandles(oneMin: seq<Candle>, factor: int) returns (out: seq<Candle>)
    ensures out == Aggregate(oneMin, factor)
    ensures factor >= 2 ==> exists at :: Aggregated(out, oneMin, factor, at)
    ensures factor <= 1 ==> out == oneMin
  {
    if factor <= 1 {
      return oneMin;
    }
    var groups: seq<seq<Candle>> := [];
    var bucket: seq<Candle> := [];
    var currentKey := -1;
    for n := 0 to |oneMin|
      invariant n == 0 ==> groups == [] && bucket == []
      invariant n > 0 ==> |bucket| > 0 && currentKey == Key(bucket[0], factor) && groups + [bucket] == Groups(oneMin[..n], factor)
    {
      var c := oneMin[n];
      assert Front(oneMin[..n + 1]) == oneMin[..n];
      var key := Key(c, factor);
      if |bucket| == 0 || key != currentKey {
        if |bucket| > 0 {
          groups := groups + [bucket];
        }
        bucket := [c];
        currentKey := key;
      } else {
        assert Front(groups + [bucket]) == groups;
        bucket := bucket + [c];
      }
    }
    assert oneMin[..|oneMin|] == oneMin;
    if |bucket| > 0 {
      groups := groups + [bucket];
    }
    out := [];
    for n := 0 to |groups|
      invariant out == Emit(groups[..n], factor)
    {
      assert Front(groups[..n + 1]) == groups[..n];
      if Covers(groups[n], factor) {
        out := out + [Merge(factor, groups[n])];
      }
    }
    assert groups[..|groups|] == groups;
    ghost var at := AggregatesBuckets(oneMin, factor);
  }

  // ---------------------------------------------------------------- the last group

  /** `g` is the longest run of equal keys at the end of the feed. */
  predicate EndingRun(bars: seq<Candle>, g: seq<Candle>, factor: int)
    requires factor > 0 && |bars| > 0
  {
    && 0 < |g| <= |bars| && g == bars[|bars| - |g|..]
    && (forall i :: 0 <= i < |g| ==> Key(g[i], factor) == Key(Last(bars), factor))
    && (|g| < |bars| ==> Key(bars[|bars| - |g| - 1], factor) != Key(Last(bars), factor))
  }

  lemma RunStarts(bars: seq<Candle>, c: Candle, factor: int)
    requires factor > 0 && (|bars| > 0 ==> Key(Last(bars), factor) != Key(c, factor))
    ensures EndingRun(bars + [c], [c], factor)
  {
    assert (bars + [c])[|bars|..] == [c];
  }

  lemma RunGrows(bars: seq<Candle>, g: seq<Candle>, c: Candle, factor: int)
    requires factor > 0 && |bars| > 0 && EndingRun(bars, g, factor) && Key(Last(bars), factor) == Key(c, factor)
    ensures EndingRun(bars + [c], g + [c], factor)
  {
    var all, run := bars + [c], g + [c];
    assert all[|all| - |run|..] == run;
    assert |run| < |all| ==> all[|all| - |run| - 1] == bars[|bars| - |g| - 1];
  }

  /** The last group is the longest run of equal keys at the end of the feed. */
  lemma {:induction false} LastGroupIsMaximalRun(bars: seq<Candle>, factor: int)
    requires factor > 0 && |bars| > 0
    ensures |Groups(bars, factor)| > 0 && EndingRun(bars, Last(Groups(bars, factor)), factor)
    decreases |bars|
  {
    var front, c := Front(bars), Last(bars);
    assert bars == front + [c];
    if |front| == 0 {
      assert Groups(bars, factor) == [[c]];
      RunStarts(front, c, factor);
    } else {
      LastGroupIsMaximalRun(front, factor);
      var g := Last(Groups(front, factor));
      assert Key(g[0], factor) == Key(Last(front), factor);
      if Key(Last(front), factor) != Key(c, factor) {
        RunStarts(front, c, factor);
      } else {
        RunGrows(front, g, c, factor);
      }
    }
  }

  /** Exactly when one more bar takes back a candle already emitted: the last group was
      complete and the bar falls in its bucket. */
  predicate Retracts(bars: seq<Candle>, c: Candle, factor: int)
    requires factor > 0
  {
    |bars| > 0 && Key(Last(bars), factor) == Key(c, factor)
    && |Groups(bars, factor)| > 0 && Covers(Last(Groups(bars, factor)), factor)
  }

  /** For every feed at all: the candles so far survive one more bar exactly when it does
      not retract; then at most one candle is added, otherwise exactly the last is lost. */
  lemma AppendExactly(bars: seq<Candle>, c: Candle, factor: int)
    requires factor >= 2
    ensures Aggregate(bars, factor) <= Aggregate(bars + [c], factor) <==> !Retracts(bars, c, factor)
    ensures !Retracts(bars, c, factor) ==> |Aggregate(bars + [c], factor)| <= |Aggregate(bars, factor)| + 1
    ensures Retracts(bars, c, factor) ==>
              |Aggregate(bars, factor)| > 0 && Aggregate(bars + [c], factor) == Front(Aggregate(bars, factor))
  {
    SnocFront(bars, c);
    var groups, more := Groups(bars, factor), Groups(bars + [c], factor);
    if |bars| == 0 {
      assert more == [[c]] && Front(more) == [];
    } else {
      LastGroupIsMaximalRun(bars, factor);
      if Key(Last(bars), factor) != Key(c, factor) {
        assert more == groups + [[c]] && Front(more) == groups;
        assert Emit(more, factor) == Emit(groups, factor);
      } else {
        assert Front(more) == Front(groups) && Last(more) == Last(groups) + [c];
        var before := Emit(Front(groups), factor);
        if Covers(Last(groups), factor) {
          assert !Covers(Last(more), factor);
          assert Emit(groups, factor) == before + [Merge(factor, Last(groups))];
          assert Front(Emit(groups, factor)) == before;
        }
      }
    }
  }

  // ---------------------------------------------------------------- time-ordered feeds

  ghost predicate TimeOrdered(bars: seq<Candle>) {
    forall i, j :: 0 <= i < j < |bars| ==> MinuteOfDay(bars[i]) < MinuteOfDay(bars[j])
  }

  /** Minutes `MinuteOfDay(bars[from])`, one by one, up to `until`. */
  predicate Consecutive(bars: seq<Candle>, from: int, until: int)
    requires 0 <= from < until <= |bars|
  {
    forall i :: from <= i < until ==> MinuteOfDay(bars[i]) == MinuteOfDay(bars[from]) + (i - from)
  }

  /** The `factor` bars ending at position `n` fill one aligned bucket, in order. */
  predicate FullBucket(bars: seq<Candle>, n: int, factor: int)
    requires factor > 0 && 0 <= n <= |bars|
  {
    n >= factor && MinuteOfDay(bars[n - factor]) % factor == 0 && Consecutive(bars, n - factor, n)
  }

  /** The streaming form: a candle comes out when the bar that completes its bucket
      comes in, and nothing is ever taken back. */
  function Windows(bars: seq<Candle>, factor: int): seq<Candle>
    requires factor > 0
  {
    if |bars| == 0 then [] else Windows(Front(bars), factor) + Completed(bars, factor)
  }

  /** The candle the newest bar completes, if it completes one. */
  function Completed(bars: seq<Candle>, factor: int): seq<Candle>
    requires factor > 0
  {
    if FullBucket(bars, |bars|, factor) then [Merge(factor, bars[|bars| - factor..])] else []
  }

  lemma DivBounds(x: int, f: int)
    requires f > 0
    ensures x / f * f <= x < x / f * f + f && x % f == x - x / f * f
  {
  }

  lemma DivUnique(x: int, q: int, f: int)
    requires f > 0 && q * f <= x < q * f + f
    ensures x / f == q
  {
    var d := x / f;
    DivBounds(x, f);
    if d < q {
      MulStep(d, q, f);
    } else if d > q {
      MulStep(q, d, f);
    }
  }

  lemma MulStep(a: int, b: int, f: int)
    requires a < b && f > 0
    ensures a * f + f <= b * f
  {
    assert b * f - a * f == (b - a) * f;
    assert (b - a) * f >= f by {
      assert (b - a - 1) * f >= 0;
    }
  }

  lemma MinutesAreRange(g: seq<Candle>, base: int)
    requires |g| > 0 && TimeOrdered(g)
    requires forall i :: 0 <= i < |g| ==> base <= MinuteOfDay(g[i]) < base + |g|
    ensures forall i :: 0 <= i < |g| ==> MinuteOfDay(g[i]) == base + i
  {
    forall i | 0 <= i < |g| ensures MinuteOfDay(g[i]) == base + i {
      MinuteGap(g, 0, i);
      MinuteGap(g, i, |g| - 1);
    }
  }

  lemma {:induction false} MinuteGap(g: seq<Candle>, i: nat, j: nat)
    requires TimeOrdered(g) && i <= j < |g|
    ensures MinuteOfDay(g[j]) >= MinuteOfDay(g[i]) + (j - i)
    decreases j - i
  {
    if i < j {
      MinuteGap(g, i, j - 1);
    }
  }

  /** In a time-ordered group within one bucket, being complete means having `factor`
      bars, which are then the bucket's minutes in order. */
  lemma OrderedCover(g: seq<Candle>, factor: int)
    requires factor > 0 && |g| > 0 && TimeOrdered(g)
    requires forall i :: 0 <= i < |g| ==> Key(g[i], factor) == Key(g[0], factor)
    ensures |g| <= factor
    ensures Covers(g, factor) <==> |g| == factor
    ensures |g| == factor ==> MinuteOfDay(g[0]) % factor == 0 && Consecutive(g, 0, |g|)
  {
    var base := Key(g[0], factor) * factor;
    forall i | 0 <= i < |g| ensures base <= MinuteOfDay(g[i]) < base + factor {
      DivBounds(MinuteOfDay(g[i]), factor);
    }
    MinuteGap(g, 0, |g| - 1);
    if |g| == factor {
      MinutesAreRange(g, base);
      assert Minutes(g) == Range(base, factor);
      DivBounds(MinuteOfDay(g[0]), factor);
    }
  }

  /** A full bucket has one key throughout. */
  lemma BucketHasOneKey(bars: seq<Candle>, n: int, factor: int, i: int)
    requires factor > 0 && 0 <= n <= |bars| && FullBucket(bars, n, factor) && n - factor <= i < n
    ensures Key(bars[i], factor) == Key(bars[n - 1], factor)
    ensures MinuteOfDay(bars[n - 1]) % factor == factor - 1
  {
    var m := MinuteOfDay(bars[n - factor]);
    DivBounds(m, factor);
    DivUnique(MinuteOfDay(bars[i]), m / factor, factor);
    DivUnique(MinuteOfDay(bars[n - 1]), m / factor, factor);
    DivBounds(MinuteOfDay(bars[n - 1]), factor);
  }

  /** Within each bucket the minutes of neighbouring bars rise. A bucket number may come back
      later, as it does the next day. */
  predicate Rising(bars: seq<Candle>, factor: int)
    requires factor > 0
  {
    forall i :: 0 <= i < |bars| - 1 ==> RisesAt(bars, factor, i)
  }

  predicate RisesAt(bars: seq<Candle>, factor: int, i: int)
    requires factor > 0 && 0 <= i < |bars| - 1
  {
    Key(bars[i], factor) == Key(bars[i + 1], factor) ==> MinuteOfDay(bars[i]) < MinuteOfDay(bars[i + 1])
  }

  lemma OrderedIsRising(bars: seq<Candle>, factor: int)
    requires factor > 0 && TimeOrdered(bars)
    ensures Rising(bars, factor)
  {
  }

  lemma {:induction false} RunIsOrdered(g: seq<Candle>, factor: int)
    requires factor > 0 && Rising(g, factor) && forall i :: 0 <= i < |g| ==> Key(g[i], factor) == Key(g[0], factor)
    ensures TimeOrdered(g)
    decreases |g|
  {
    if |g| > 1 {
      assert forall i :: 0 <= i < |g| - 2 ==> RisesAt(g, factor, i) ==> RisesAt(Front(g), factor, i);
      RunIsOrdered(Front(g), factor);
      assert RisesAt(g, factor, |g| - 2);
      forall i, j | 0 <= i < j < |g| ensures MinuteOfDay(g[i]) < MinuteOfDay(g[j]) {
        assert Front(g)[i] == g[i] && Front(g)[|g| - 2] == g[|g| - 2];
        if j < |g| - 1 {
          assert Front(g)[j] == g[j];
        }
      }
    }
  }

  lemma RisingSlice(bars: seq<Candle>, from: int, until: int, factor: int)
    requires factor > 0 && Rising(bars, factor) && 0 <= from <= until <= |bars|
    ensures Rising(bars[from..until], factor)
  {
    forall i | 0 <= i < until - from - 1 ensures RisesAt(bars[from..until], factor, i) {
      assert RisesAt(bars, factor, from + i);
    }
  }

  /** The last group of a rising feed has at most `factor` bars, and is complete exactly when
      it has all of them. */
  lemma LastGroupSize(bars: seq<Candle>, factor: int)
    requires factor > 0 && |bars| > 0 && Rising(bars, factor)
    ensures |Groups(bars, factor)| > 0
    ensures var g := Last(Groups(bars, factor));
            && 0 < |g| <= factor && |g| <= |bars| && g == bars[|bars| - |g|..]
            && (Covers(g, factor) <==> |g| == factor)
            && (|g| == factor ==> MinuteOfDay(g[0]) % factor == 0 && Consecutive(g, 0, |g|))
  {
    LastGroupIsMaximalRun(bars, factor);
    var g := Last(Groups(bars, factor));
    RisingSlice(bars, |bars| - |g|, |bars|, factor);
    assert bars[|bars| - |g|..|bars|] == g;
    RunIsOrdered(g, factor);
    OrderedCover(g, factor);
  }

  lemma SuffixIsFullBucket(bars: seq<Candle>, g: seq<Candle>, factor: int)
    requires 0 < factor == |g| <= |bars| && g == bars[|bars| - factor..]
    requires MinuteOfDay(g[0]) % factor == 0 && Consecutive(g, 0, |g|)
    ensures FullBucket(bars, |bars|, factor)
  {
    var from := |bars| - factor;
    forall i | from <= i < |bars| ensures MinuteOfDay(bars[i]) == MinuteOfDay(bars[from]) + (i - from) {
      assert bars[i] == g[i - from];
    }
  }

  /** It is complete exactly when the newest bar has just filled a bucket. */
  lemma LastGroupFull(bars: seq<Candle>, factor: int)
    requires factor > 0 && |bars| > 0 && Rising(bars, factor)
    ensures |Groups(bars, factor)| > 0
    ensures Covers(Last(Groups(bars, factor)), factor) <==> FullBucket(bars, |bars|, factor)
    ensures FullBucket(bars, |bars|, factor) ==> Last(Groups(bars, factor)) == bars[|bars| - factor..]
  {
    LastGroupSize(bars, factor);
    var g := Last(Groups(bars, factor));
    if |g| == factor {
      SuffixIsFullBucket(bars, g, factor);
    } else if FullBucket(bars, |bars|, factor) {
      LastGroupIsMaximalRun(bars, factor);
      BucketHasOneKey(bars, |bars|, factor, |bars| - |g| - 1);
      assert false;
    }
  }

  /** A complete group cannot be joined by a later bar of its bucket. */
  lemma FullGroupIsLeft(bars: seq<Candle>, c: Candle, factor: int)
    requires factor > 0 && |bars| > 0 && Rising(bars + [c], factor)
    requires Key(Last(bars), factor) == Key(c, factor)
    ensures |Groups(bars, factor)| > 0 && !Covers(Last(Groups(bars, factor)), factor)
  {
    var more := bars + [c];
    SnocFront(bars, c);
    LastGroupIsMaximalRun(bars, factor);
    LastGroupSize(more, factor);
    assert Last(Groups(more, factor)) == Last(Groups(bars, factor)) + [c];
  }

  lemma PrefixRising(bars: seq<Candle>, c: Candle, factor: int)
    requires factor > 0 && Rising(bars + [c], factor)
    ensures Rising(bars, factor)
  {
    RisingSlice(bars + [c], 0, |bars|, factor);
    assert (bars + [c])[0..|bars|] == bars;
  }

  lemma PrefixTimeOrdered(bars: seq<Candle>, c: Candle)
    requires TimeOrdered(bars + [c])
    ensures TimeOrdered(bars)
  {
    assert forall i :: 0 <= i < |bars| ==> (bars + [c])[i] == bars[i];
  }

  /** What one more bar does to the batch form of a rising feed. */
  lemma BatchStep(bars: seq<Candle>, c: Candle, factor: int)
    requires factor >= 2 && Rising(bars + [c], factor)
    ensures Aggregate(bars + [c], factor) == Aggregate(bars, factor) + Completed(bars + [c], factor)
  {
    var more := bars + [c];
    SnocFront(bars, c);
    LastGroupFull(more, factor);
    assert Emit(Front(Groups(more, factor)), factor) == Aggregate(bars, factor) by {
      FinishedGroups(bars, c, factor);
    }
  }

  /** The groups before the last one are exactly those whose candles are already out. */
  lemma FinishedGroups(bars: seq<Candle>, c: Candle, factor: int)
    requires factor >= 2 && Rising(bars + [c], factor)
    ensures |Groups(bars + [c], factor)| > 0
    ensures Emit(Front(Groups(bars + [c], factor)), factor) == Aggregate(bars, factor)
  {
    SnocFront(bars, c);
    var groups, more := Groups(bars, factor), Groups(bars + [c], factor);
    if |bars| == 0 {
      assert Front(more) == [];
    } else {
      LastGroupIsMaximalRun(bars, factor);
      if Key(Last(bars), factor) != Key(c, factor) {
        assert Front(more) == groups;
      } else {
        FullGroupIsLeft(bars, c, factor);
        assert Front(more) == Front(groups);
      }
    }
  }

  /** Streaming equals batch: on a feed whose minutes rise within each bucket, a time-ordered
      session or a run of days, re-aggregating the whole buffer gives exactly the candles
      completed so far, each emitted when it completed. */
  lemma {:induction false} StreamingEqualsBatch(bars: seq<Candle>, factor: int)
    requires factor >= 2 && Rising(bars, factor)
    ensures Aggregate(bars, factor) == Windows(bars, factor)
    decreases |bars|
  {
    if |bars| > 0 {
      assert bars == Front(bars) + [Last(bars)];
      PrefixRising(Front(bars), Last(bars), factor);
      StreamingEqualsBatch(Front(bars), factor);
      BatchStep(Front(bars), Last(bars), factor);
    }
  }

  /** Every completed bucket of a rising feed is retracted by one more bar of
      that bucket, a repeated minute for instance. */
  lemma BarOfFullBucketRetracts(bars: seq<Candle>, c: Candle, factor: int)
    requires factor >= 2 && |bars| > 0 && Rising(bars, factor)
    requires FullBucket(bars, |bars|, factor) && Key(c, factor) == Key(Last(bars), factor)
    ensures |Aggregate(bars, factor)| > 0 && Aggregate(bars + [c], factor) == Front(Aggregate(bars, factor))
  {
    LastGroupFull(bars, factor);
    AppendExactly(bars, c, factor);
  }

  /** One more bar of a rising feed appends at most one candle. */
  lemma OneMoreBar(bars: seq<Candle>, c: Candle, factor: int)
    requires factor >= 2 && Rising(bars + [c], factor)
    ensures Aggregate(bars, factor) <= Aggregate(bars + [c], factor)
    ensures |Aggregate(bars + [c], factor)| <= |Aggregate(bars, factor)| + 1
  {
    BatchStep(bars, c, factor);
  }
}
