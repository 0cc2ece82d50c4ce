/** Runtime candle quality and closed aggregates: what HEALTHY means, which candles a
    healthy feed yields, and that longer candles are merges of shorter ones. */
module CandleAggregator {
  import opened Common
  import opened Candles

  // ---------------------------------------------------------------- quality

  datatype DataStatus = Healthy | WaitingForData | MissingBars | DuplicateBars | OutOfOrder | FormingOnly

  function Starts(bars: seq<Candle>): (s: seq<int>)
    ensures |s| == |bars| && forall i :: 0 <= i < |bars| ==> s[i] == bars[i].start
  {
    seq(|bars|, i requires 0 <= i < |bars| => bars[i].start)
  }

  /** The list equals its sorted copy. */
  predicate Sorted(s: seq<int>) {
    forall i, j :: 0 <= i < j < |s| ==> s[i] <= s[j]
  }

  function AssessOneMinuteQuality(bars: seq<Candle>): DataStatus {
    var closed := ClosedOnly(bars);
    var minutes := Starts(closed);
    if |bars| == 0 then WaitingForData
    else if |closed| == 0 then FormingOnly
    else if |set m | m in minutes| != |minutes| then DuplicateBars
    else if !Sorted(minutes) then OutOfOrder
    else if Last(minutes) - minutes[0] + 1 != |minutes| then MissingBars
    else Healthy
  }

  predicate MinuteByMinute(bars: seq<Candle>) {
    |bars| > 0 && forall i :: 0 <= i < |bars| ==> bars[i].start == bars[0].start + i
  }

  lemma {:induction false} DistinctExactly(s: seq<int>)
    ensures |set m | m in s| <= |s|
    ensures |set m | m in s| == |s| <==> forall i, j :: 0 <= i < j < |s| ==> s[i] != s[j]
    decreases |s|
  {
    if |s| > 0 {
      var front, x := Front(s), Last(s);
      DistinctExactly(front);
      var all, some := set m | m in s, set m | m in front;
      assert all == some + {x};
      if x in some {
        assert all == some;
        var i :| 0 <= i < |front| && front[i] == x;
        assert s[i] == s[|s| - 1];
      } else {
        assert |all| == |some| + 1;
        forall i | 0 <= i < |s| - 1 ensures s[i] != x {
          assert front[i] in some;
        }
        if forall i, j :: 0 <= i < j < |front| ==> front[i] != front[j] {
        } else {
          var i, j :| 0 <= i < j < |front| && front[i] == front[j];
          assert s[i] == s[j];
        }
      }
    }
  }

  lemma {:induction false} SpreadAtLeast(s: seq<int>, i: nat, j: nat)
    requires forall a, b :: 0 <= a < b < |s| ==> s[a] < s[b]
    requires i <= j < |s|
    ensures s[j] >= s[i] + (j - i)
    decreases j - i
  {
    if i < j {
      SpreadAtLeast(s, i, j - 1);
    }
  }

  /** HEALTHY says exactly that the closed bars follow each other minute by minute. */
  lemma HealthyExactly(bars: seq<Candle>)
    ensures AssessOneMinuteQuality(bars) == Healthy <==> MinuteByMinute(ClosedOnly(bars))
  {
    var closed := ClosedOnly(bars);
    var minutes := Starts(closed);
    if |closed| > 0 {
      DistinctExactly(minutes);
      if AssessOneMinuteQuality(bars) == Healthy {
        assert forall a, b :: 0 <= a < b < |minutes| ==> minutes[a] < minutes[b];
        forall i | 0 <= i < |closed| ensures closed[i].start == closed[0].start + i {
          SpreadAtLeast(minutes, 0, i);
          SpreadAtLeast(minutes, i, |minutes| - 1);
        }
      }
      if MinuteByMinute(closed) {
        assert forall i :: 0 <= i < |minutes| ==> minutes[i] == minutes[0] + i;
      }
    }
    if |bars| == 0 {
      assert closed == [];
    }
  }

  ghost predicate SameMinute(bars: seq<Candle>) {
    exists i, j :: 0 <= i < j < |bars| && bars[i].start == bars[j].start
  }

  ghost predicate StepsBack(bars: seq<Candle>) {
    exists i, j :: 0 <= i < j < |bars| && bars[j].start < bars[i].start
  }

  /** The other answers: no bars, none of them closed, a minute twice, a minute before one that
      came earlier, and otherwise a gap. */
  lemma QualityExactly(bars: seq<Candle>)
    ensures var (quality, closed) := (AssessOneMinuteQuality(bars), ClosedOnly(bars));
            && (quality == WaitingForData <==> bars == [])
            && (quality == FormingOnly <==> bars != [] && closed == [])
            && (quality == DuplicateBars <==> closed != [] && SameMinute(closed))
            && (quality == OutOfOrder <==> closed != [] && !SameMinute(closed) && StepsBack(closed))
            && (quality == MissingBars <==> closed != [] && !SameMinute(closed) && !StepsBack(closed) && !MinuteByMinute(closed))
  {
    var closed := ClosedOnly(bars);
    var minutes := Starts(closed);
    HealthyExactly(bars);
    if |bars| == 0 {
      assert closed == [];
    } else if |closed| > 0 {
      DistinctExactly(minutes);
      assert SameMinute(closed) <==> exists i, j :: 0 <= i < j < |minutes| && minutes[i] == minutes[j];
      assert StepsBack(closed) <==> !Sorted(minutes);
      hide ClosedOnly, MinuteByMinute;
    }
  }

  function ClosedAggregates(oneMin: seq<Candle>, factor: int): seq<Candle> {
    var closed := ClosedOnly(oneMin);
    if AssessOneMinuteQuality(closed) != Healthy then [] else Aggregate(closed, factor)
  }

  lemma {:induction false} ClosedOnlyTwice(bars: seq<Candle>)
    ensures forall i :: 0 <= i < |ClosedOnly(bars)| ==> ClosedOnly(bars)[i].closed
    ensures ClosedOnly(ClosedOnly(bars)) == ClosedOnly(bars)
    decreases |bars|
  {
    if |bars| > 0 {
      ClosedOnlyTwice(Front(bars));
      if Last(bars).closed {
        assert Front(ClosedOnly(bars)) == ClosedOnly(Front(bars));
      } else {
        assert ClosedOnly(bars) == ClosedOnly(Front(bars));
      }
    }
  }

  // ---------------------------------------------------------------- multiples

  lemma MultipleBelow(x: int, f: int)
    requires f > 0 && x > 0 && x % f == 0
    ensures x >= f && (x - f) % f == 0
  {
    DivBounds(x, f);
    var q := x / f;
    assert (q - 1) * f == q * f - f;
    if q <= 0 {
      MulStep(q - 1, 0, f);
    }
    DivUnique(x - f, q - 1, f);
    DivBounds(x - f, f);
  }

  lemma MultiplesAdd(x: int, y: int, f: int)
    requires f > 0 && x % f == 0 && y % f == 0
    ensures (x + y) % f == 0
  {
    DivBounds(x, f);
    DivBounds(y, f);
    var p, q := x / f, y / f;
    assert (p + q) * f == p * f + q * f;
    DivUnique(x + y, p + q, f);
    DivBounds(x + y, f);
  }

  lemma ProductIsMultiple(k: int, f: int)
    requires f > 0
    ensures (k * f) % f == 0
  {
    DivUnique(k * f, k, f);
    DivBounds(k * f, f);
  }

  lemma OneTimesLess(k: int, f: int)
    ensures (k - 1) * f == k * f - f
  {
  }

  lemma RestOfDivision(x: int, f: int)
    requires f > 0 && x >= 0
    ensures 0 <= x % f <= x && x % f < f && (x - x % f) % f == 0
  {
    DivBounds(x, f);
    if x / f < 0 {
      MulStep(x / f, 0, f);
    }
    MulNonNegative(x / f, f);
    ProductIsMultiple(x / f, f);
  }

  lemma MulNonNegative(a: int, b: int)
    requires a >= 0 && b >= 0
    ensures a * b >= 0
  {
  }

  // ---------------------------------------------------------------- chunks of full buckets

  /** `seg` cut from its end into pieces of `factor` bars, each merged. */
  function Chunks(seg: seq<Candle>, factor: int): seq<Candle>
    requires factor > 0
    decreases |seg|
  {
    if |seg| < factor then [] else Chunks(seg[..|seg| - factor], factor) + [Merge(factor, seg[|seg| - factor..])]
  }

  lemma {:induction false} ChunksCount(seg: seq<Candle>, factor: int, k: nat)
    requires factor > 0 && |seg| == k * factor
    ensures |Chunks(seg, factor)| == k
    decreases k
  {
    if k > 0 {
      OneTimesLess(k, factor);
      MulNonNegative(k - 1, factor);
      ChunksCount(seg[..|seg| - factor], factor, k - 1);
    }
  }

  lemma {:induction false} ExtremaConcat(x: seq<Candle>, y: seq<Candle>)
    requires |x| > 0 && |y| > 0
    ensures High(x + y) == Max(High(x), High(y)) && Low(x + y) == Min(Low(x), Low(y))
    decreases |y|
  {
    assert Front(x + y) == x + Front(y) && Last(x + y) == Last(y);
    if |y| == 1 {
      assert Front(y) == [] && x + [] == x;
    } else {
      ExtremaConcat(x, Front(y));
    }
  }

  lemma {:induction false} VolumeConcat(x: seq<Candle>, y: seq<Candle>)
    ensures Volume(x + y) == Volume(x) + Volume(y)
    decreases |y|
  {
    if |y| == 0 {
      assert x + y == x;
    } else {
      assert Front(x + y) == x + Front(y);
      VolumeConcat(x, Front(y));
    }
  }

  lemma MergeOfOne(timeframe: int, piece: Candle)
    ensures Merge(timeframe, [piece]) == piece.(timeframe := timeframe, closed := true)
  {
    assert Front([piece]) == [];
    assert Volume([piece]) == Volume([]) + piece.volume;
  }

  lemma MergeSnoc(timeframe: int, x: seq<Candle>, y: seq<Candle>, chunks: seq<Candle>, factor: int)
    requires |x| > 0 && |y| > 0 && |chunks| > 0 && Merge(timeframe, chunks) == Merge(timeframe, x)
    ensures Merge(timeframe, chunks + [Merge(factor, y)]) == Merge(timeframe, x + y)
  {
    SnocFront(chunks, Merge(factor, y));
    ExtremaConcat(x, y);
    VolumeConcat(x, y);
  }

  /** Merging pieces and then merging the results is merging everything at once. */
  lemma {:induction false} MergeOfChunks(seg: seq<Candle>, factor: int, timeframe: int)
    requires factor > 0 && |seg| > 0 && |seg| % factor == 0
    ensures |Chunks(seg, factor)| > 0
    ensures Merge(timeframe, Chunks(seg, factor)) == Merge(timeframe, seg)
    decreases |seg|
  {
    MultipleBelow(|seg|, factor);
    var cut := |seg| - factor;
    var x, y := seg[..cut], seg[cut..];
    assert seg == x + y;
    if cut == 0 {
      assert Chunks(x, factor) == [] && y == seg;
      MergeOfOne(timeframe, Merge(factor, y));
    } else {
      MergeOfChunks(x, factor, timeframe);
      MergeSnoc(timeframe, x, y, Chunks(x, factor), factor);
    }
  }

  lemma ConsecutiveSlice(bars: seq<Candle>, from: int, until: int, a: int, b: int)
    requires 0 <= from <= a < b <= until <= |bars| && Consecutive(bars, from, until)
    ensures Consecutive(bars, a, b)
  {
  }

  lemma ModOfSum(m: int, d: int, f: int)
    requires f > 0 && m % f == 0 && 0 <= d < f
    ensures (m + d) % f == d
  {
    DivBounds(m, f);
    DivUnique(m + d, m / f, f);
    DivBounds(m + d, f);
  }

  lemma FullBucketEndsOnBoundary(bars: seq<Candle>, n: int, factor: int)
    requires factor > 0 && 0 < n <= |bars| && FullBucket(bars, n, factor)
    ensures MinuteOfDay(bars[n - 1]) % factor == factor - 1
  {
    BucketHasOneKey(bars, n, factor, n - 1);
  }

  /** Over one aligned bucket of consecutive bars, exactly its last bar emits. */
  lemma {:induction false} OneBucket(bars: seq<Candle>, from: int, until: int, factor: int)
    requires factor > 0 && 0 <= from < until <= |bars| && until - from <= factor
    requires MinuteOfDay(bars[from]) % factor == 0 && Consecutive(bars, from, until)
    ensures until - from < factor ==> Windows(bars[..until], factor) == Windows(bars[..from], factor)
    ensures until - from == factor ==> Windows(bars[..until], factor) == Windows(bars[..from], factor) + [Merge(factor, bars[from..until])]
    decreases until - from
  {
    if from < until - 1 {
      ConsecutiveSlice(bars, from, until, from, until - 1);
      OneBucket(bars, from, until - 1, factor);
    }
    assert Front(bars[..until]) == bars[..until - 1];
    ModOfSum(MinuteOfDay(bars[from]), until - 1 - from, factor);
    if until - from == factor {
      assert FullBucket(bars[..until], until, factor);
      assert bars[..until][until - factor..] == bars[from..until];
    } else if FullBucket(bars[..until], until, factor) {
      FullBucketEndsOnBoundary(bars[..until], until, factor);
      assert false;
    }
  }

  /** One more aligned bucket after those that end at position `mid`. */
  lemma NextBucket(bars: seq<Candle>, from: int, mid: int, end: int, factor: int, before: seq<Candle>)
    requires factor > 0 && 0 <= from <= mid < end <= |bars| && end - mid == factor
    requires MinuteOfDay(bars[mid]) % factor == 0 && Consecutive(bars, from, end)
    requires Windows(bars[..mid], factor) == Windows(bars[..from], factor) + before
    ensures Windows(bars[..end], factor) == Windows(bars[..from], factor) + (before + [Merge(factor, bars[mid..end])])
  {
    ConsecutiveSlice(bars, from, end, mid, end);
    OneBucket(bars, mid, end, factor);
  }

  lemma ChunksSplit(bars: seq<Candle>, from: int, mid: int, end: int, factor: int)
    requires 0 <= from <= mid < end <= |bars| && end - mid == factor
    ensures Chunks(bars[from..end], factor) == Chunks(bars[from..mid], factor) + [Merge(factor, bars[mid..end])]
  {
    var seg := bars[from..end];
    assert seg[..|seg| - factor] == bars[from..mid] && seg[|seg| - factor..] == bars[mid..end];
  }

  /** Over aligned buckets of consecutive bars, the output grows by their candles. */
  lemma {:induction false} ManyBuckets(bars: seq<Candle>, from: int, end: int, factor: int)
    requires factor > 0 && 0 <= from <= end <= |bars| && (end - from) % factor == 0
    requires from < end ==> MinuteOfDay(bars[from]) % factor == 0 && Consecutive(bars, from, end)
    ensures Windows(bars[..end], factor) == Windows(bars[..from], factor) + Chunks(bars[from..end], factor)
    decreases end - from
  {
    if from < end {
      hide Windows, Chunks;
      MultipleBelow(end - from, factor);
      var mid := end - factor;
      if from < mid {
        ConsecutiveSlice(bars, from, end, from, mid);
      }
      ManyBuckets(bars, from, mid, factor);
      MultiplesAdd(MinuteOfDay(bars[from]), mid - from, factor);
      NextBucket(bars, from, mid, end, factor, Chunks(bars[from..mid], factor));
      ChunksSplit(bars, from, mid, end, factor);
    } else {
      assert bars[from..end] == [] && Chunks([], factor) == [];
    }
  }

  lemma DividesDown(m: int, k: int, f: int)
    requires f > 0 && k > 0 && m % (k * f) == 0
    ensures m % f == 0
  {
    assert k * f > 0;
    DivBounds(m, k * f);
    var q := m / (k * f);
    assert m == q * (k * f) == (q * k) * f;
    DivUnique(m, q * k, f);
    DivBounds(m, f);
  }

  // ---------------------------------------------------------------- nesting

  /** Candle `i` of the longer length is, field by field, what `k` adjacent shorter ones amount
      to. */
  ghost predicate NestedAt(longer: seq<Candle>, shorter: seq<Candle>, i: int, j: int, k: nat, timeframe: int)
    requires 0 <= i < |longer| && k > 0
  {
    0 <= j && j + k <= |shorter| && AmountsTo(longer[i], timeframe, shorter[j..j + k])
  }

  ghost predicate NestedSomewhere(longer: seq<Candle>, shorter: seq<Candle>, i: int, k: nat, timeframe: int)
    requires 0 <= i < |longer| && k > 0
  {
    exists j :: NestedAt(longer, shorter, i, j, k, timeframe)
  }

  ghost predicate Nested(longer: seq<Candle>, shorter: seq<Candle>, k: nat, timeframe: int)
    requires k > 0
  {
    forall i :: 0 <= i < |longer| ==> NestedSomewhere(longer, shorter, i, k, timeframe)
  }

  lemma NestedGrows(longer: seq<Candle>, shorter: seq<Candle>, more: seq<Candle>, k: nat, timeframe: int)
    requires k > 0 && Nested(longer, shorter, k, timeframe)
    ensures Nested(longer, shorter + more, k, timeframe)
  {
    var all := shorter + more;
    forall i | 0 <= i < |longer| ensures NestedSomewhere(longer, all, i, k, timeframe) {
      assert NestedSomewhere(longer, shorter, i, k, timeframe);
      var j :| NestedAt(longer, shorter, i, j, k, timeframe);
      SliceOfPrefix(shorter, more, j, k);
      assert NestedAt(longer, all, i, j, k, timeframe);
    }
  }

  lemma SliceOfPrefix(shorter: seq<Candle>, more: seq<Candle>, j: int, k: nat)
    requires 0 <= j && j + k <= |shorter|
    ensures (shorter + more)[j..j + k] == shorter[j..j + k]
  {
  }

  lemma NestedSnoc(longer: seq<Candle>, shorter: seq<Candle>, candle: Candle, k: nat, timeframe: int)
    requires 0 < k <= |shorter| && Nested(longer, shorter, k, timeframe)
    requires candle == Merge(timeframe, shorter[|shorter| - k..|shorter|])
    ensures Nested(longer + [candle], shorter, k, timeframe)
  {
    var all := longer + [candle];
    MergeAmounts(timeframe, shorter[|shorter| - k..|shorter|]);
    forall i | 0 <= i < |all| ensures NestedSomewhere(all, shorter, i, k, timeframe) {
      if i < |longer| {
        assert NestedSomewhere(longer, shorter, i, k, timeframe);
        var j :| NestedAt(longer, shorter, i, j, k, timeframe);
        assert NestedAt(all, shorter, i, j, k, timeframe);
      } else {
        assert NestedAt(all, shorter, i, |shorter| - k, k, timeframe);
      }
    }
  }

  /** The newest long candle is the merge of the `k` newest short ones. */
  lemma NewestNests(bars: seq<Candle>, factor: int, k: nat, long: int)
    requires factor > 0 && k > 0 && long == k * factor > 0 && FullBucket(bars, |bars|, long)
    ensures NewestNested(bars, factor, k, long)
  {
    var from := |bars| - long;
    var seg := bars[from..];
    DividesDown(MinuteOfDay(bars[from]), k, factor);
    ProductIsMultiple(k, factor);
    ManyBuckets(bars, from, |bars|, factor);
    assert bars[..|bars|] == bars && bars[from..|bars|] == seg;
    MergeOfChunks(seg, factor, long);
    ChunksCount(seg, factor, k);
    TailIs(Windows(bars[..from], factor), Chunks(seg, factor));
  }

  lemma TailIs(a: seq<Candle>, b: seq<Candle>)
    ensures (a + b)[|a + b| - |b|..] == b
  {
  }

  /** The `k` newest short candles make up the long candle that the newest bar completes. */
  ghost predicate NewestNested(bars: seq<Candle>, factor: int, k: nat, long: int)
    requires factor > 0 && 0 < long <= |bars|
  {
    var short := Windows(bars, factor);
    |short| >= k > 0 && Merge(long, bars[|bars| - long..]) == Merge(long, short[|short| - k..])
  }

  lemma NestAppend(longer: seq<Candle>, shorter: seq<Candle>, more: seq<Candle>, done: seq<Candle>, k: nat, long: int)
    requires k > 0 && Nested(longer, shorter, k, long) && |done| <= 1
    requires |done| == 1 ==> |shorter + more| >= k && done[0] == Merge(long, (shorter + more)[|shorter + more| - k..])
    ensures Nested(longer + done, shorter + more, k, long)
  {
    var short := shorter + more;
    NestedGrows(longer, shorter, more, k, long);
    if |done| == 1 {
      assert short[|short| - k..|short|] == short[|short| - k..];
      NestedSnoc(longer, short, done[0], k, long);
      assert done == [done[0]];
    } else {
      assert longer + done == longer;
    }
  }

  lemma NestOneMore(bars: seq<Candle>, factor: int, k: nat, long: int)
    requires |bars| > 0 && factor > 0 && k > 0 && long > 0
    requires Nested(Windows(Front(bars), long), Windows(Front(bars), factor), k, long)
    requires FullBucket(bars, |bars|, long) ==> NewestNested(bars, factor, k, long)
    ensures Nested(Windows(bars, long), Windows(bars, factor), k, long)
  {
    NestAppend(Windows(Front(bars), long), Windows(Front(bars), factor), Completed(bars, factor), Completed(bars, long), k, long);
  }

  /** Whatever bars come in, every long candle that is emitted is the open, high, low,
      close and volume of `k` adjacent short candles that are emitted too. */
  lemma {:induction false} WindowsNest(bars: seq<Candle>, factor: int, k: nat, long: int)
    requires factor > 0 && k > 0 && long == k * factor > 0
    ensures Nested(Windows(bars, long), Windows(bars, factor), k, long)
    decreases |bars|
  {
    if |bars| > 0 {
      WindowsNest(Front(bars), factor, k, long);
      if FullBucket(bars, |bars|, long) {
        NewestNests(bars, factor, k, long);
      }
      NestOneMore(bars, factor, k, long);
    }
  }

  lemma HealthyIsTimeOrdered(bars: seq<Candle>)
    requires MinuteByMinute(bars) && SameDay(bars)
    ensures TimeOrdered(bars) && Consecutive(bars, 0, |bars|)
  {
    forall i | 0 <= i < |bars| ensures MinuteOfDay(bars[i]) == MinuteOfDay(bars[0]) + i {
      DivBounds(bars[i].start, 1440);
      DivBounds(bars[0].start, 1440);
    }
  }

  /** One session: all bars belong to one market day. */
  predicate SameDay(bars: seq<Candle>) {
    forall i :: 0 <= i < |bars| ==> bars[i].start / 1440 == bars[0].start / 1440
  }

  /** Minute by minute the bucket changes at midnight too, unless a bucket is a whole day. */
  lemma HealthyIsRising(bars: seq<Candle>, factor: int)
    requires MinuteByMinute(bars) && factor > 0 && (factor < 1440 || SameDay(bars))
    ensures Rising(bars, factor)
  {
    if SameDay(bars) {
      HealthyIsTimeOrdered(bars);
      OrderedIsRising(bars, factor);
    } else {
      forall i | 0 <= i < |bars| - 1 ensures RisesAt(bars, factor, i) {
        NextMinute(bars[i].start);
        if MinuteOfDay(bars[i + 1]) == 0 {
          DivUnique(0, 0, factor);
          DivBounds(1439, factor);
          assert Key(bars[i], factor) >= 1;
        }
      }
    }
  }

  lemma NextMinute(start: int)
    ensures (start + 1) % 1440 == if start % 1440 == 1439 then 0 else start % 1440 + 1
  {
  }

  /** Closed aggregates of a healthy feed, over midnight or not, are the candles emitted when
      their buckets filled. */
  lemma HealthyFeedStreams(oneMin: seq<Candle>, factor: int, closed: seq<Candle>)
    requires factor >= 2 && closed == ClosedOnly(oneMin) && AssessOneMinuteQuality(closed) == Healthy
    requires factor < 1440 || SameDay(closed)
    ensures ClosedAggregates(oneMin, factor) == Windows(closed, factor)
  {
    ClosedOnlyTwice(oneMin);
    HealthyExactly(closed);
    HealthyIsRising(closed, factor);
    StreamingEqualsBatch(closed, factor);
  }

  /** Closed aggregates nest for every pair of lengths below a day, 5 and 15 minutes among
      them, and within one day for every pair at all. */
  lemma ClosedAggregatesNest(oneMin: seq<Candle>, factor: int, k: nat, long: int)
    requires factor >= 2 && k > 0 && long == k * factor && (long < 1440 || SameDay(ClosedOnly(oneMin)))
    ensures Nested(ClosedAggregates(oneMin, long), ClosedAggregates(oneMin, factor), k, long)
  {
    var closed := ClosedOnly(oneMin);
    if AssessOneMinuteQuality(closed) == Healthy {
      AtLeastOnce(k, factor);
      HealthyFeedStreams(oneMin, factor, closed);
      HealthyFeedStreams(oneMin, long, closed);
      WindowsNest(closed, factor, k, long);
    }
  }

  lemma AtLeastOnce(k: int, f: int)
    requires k > 0 && f >= 0
    ensures k * f >= f
  {
    OneTimesLess(k, f);
    MulNonNegative(k - 1, f);
  }

  // ---------------------------------------------------------------- which buckets

  /** Bars before the first boundary of a session that starts at minute `m`. */
  function Lead(m: int, factor: int): int
    requires factor > 0
  {
    (factor - m % factor) % factor
  }

  predicate OnBoundary(m: int, factor: int)
    requires factor > 0
  {
    m % factor == 0
  }

  lemma LeadReachesBoundary(m: int, factor: int)
    requires factor > 0
    ensures 0 <= Lead(m, factor) < factor && (m + Lead(m, factor)) % factor == 0
    ensures forall x :: m <= x < m + Lead(m, factor) ==> !OnBoundary(x, factor)
  {
    var r, q := m % factor, m / factor;
    DivBounds(m, factor);
    if r == 0 {
      DivUnique(factor, 1, factor);
      DivBounds(factor, factor);
    } else {
      DivUnique(factor - r, 0, factor);
      DivBounds(factor - r, factor);
      assert m + (factor - r) == (q + 1) * factor by { assert (q + 1) * factor == q * factor + factor; }
      DivUnique(m + (factor - r), q + 1, factor);
      DivBounds(m + (factor - r), factor);
      forall x | m <= x < m + (factor - r) ensures !OnBoundary(x, factor) {
        DivUnique(x, q, factor);
        DivBounds(x, factor);
      }
    }
  }

  /** No candle is emitted before the first boundary has been followed by a full bucket. */
  lemma {:induction false} NothingBeforeLead(bars: seq<Candle>, n: int, lead: int, factor: int)
    requires factor > 0 && 0 <= n <= |bars| && n <= lead
    requires |bars| > 0 ==> lead == Lead(MinuteOfDay(bars[0]), factor) && Consecutive(bars, 0, |bars|)
    ensures Windows(bars[..n], factor) == []
    decreases n
  {
    if n > 0 {
      NothingBeforeLead(bars, n - 1, lead, factor);
      assert Front(bars[..n]) == bars[..n - 1];
      LeadReachesBoundary(MinuteOfDay(bars[0]), factor);
      if FullBucket(bars[..n], n, factor) {
        assert false;
      }
    }
  }

  /** `out` is the candles of the whole buckets of `bars[lead..end]`; less than one is left. */
  ghost predicate BucketsBetween(bars: seq<Candle>, lead: int, end: int, factor: int, out: seq<Candle>)
    requires factor > 0
  {
    0 <= lead <= end <= |bars| < end + factor && (end - lead) % factor == 0 && out == Chunks(bars[lead..end], factor)
  }

  /** The part of a consecutive feed from its first boundary on: whole buckets emit,
      the unfinished tail does not. */
  lemma AlignedFeed(bars: seq<Candle>, lead: int, end: int, factor: int)
    requires factor > 0 && 0 <= lead <= end <= |bars| < end + factor && (end - lead) % factor == 0
    requires |bars| > 0 && Consecutive(bars, 0, |bars|)
    requires (MinuteOfDay(bars[0]) + lead) % factor == 0
    ensures Windows(bars, factor) == Windows(bars[..lead], factor) + Chunks(bars[lead..end], factor)
  {
    calc {
      Windows(bars, factor);
    == { MultiplesAdd(MinuteOfDay(bars[0]) + lead, end - lead, factor); UnfinishedTail(bars, end, factor); }
      Windows(bars[..end], factor);
    == { WholeBuckets(bars, lead, end, factor); }
      Windows(bars[..lead], factor) + Chunks(bars[lead..end], factor);
    }
  }

  lemma WholeBuckets(bars: seq<Candle>, lead: int, end: int, factor: int)
    requires factor > 0 && 0 <= lead <= end <= |bars| && (end - lead) % factor == 0
    requires |bars| > 0 && Consecutive(bars, 0, |bars|) && (MinuteOfDay(bars[0]) + lead) % factor == 0
    ensures Windows(bars[..end], factor) == Windows(bars[..lead], factor) + Chunks(bars[lead..end], factor)
  {
    if lead < end {
      ConsecutiveSlice(bars, 0, |bars|, lead, end);
    }
    ManyBuckets(bars, lead, end, factor);
  }

  lemma UnfinishedTail(bars: seq<Candle>, end: int, factor: int)
    requires factor > 0 && 0 <= end <= |bars| < end + factor && |bars| > 0 && Consecutive(bars, 0, |bars|)
    requires (MinuteOfDay(bars[0]) + end) % factor == 0
    ensures Windows(bars, factor) == Windows(bars[..end], factor)
  {
    assert bars[..|bars|] == bars;
    if end < |bars| {
      ConsecutiveSlice(bars, 0, |bars|, end, |bars|);
      OneBucket(bars, end, |bars|, factor);
    }
  }

  /** Where the last whole bucket ends, counting from `lead`. */
  function BucketEnd(n: int, lead: int, factor: int): int
    requires factor > 0
  {
    n - (n - lead) % factor
  }

  lemma BucketEndFits(n: int, lead: int, factor: int)
    requires factor > 0 && n >= lead
    ensures var end := BucketEnd(n, lead, factor); lead <= end <= n < end + factor && (end - lead) % factor == 0
  {
    RestOfDivision(n - lead, factor);
  }

  lemma OrderedSessionBuckets(closed: seq<Candle>, factor: int)
    requires factor > 0 && |closed| > 0 && Consecutive(closed, 0, |closed|)
    ensures var lead := Lead(MinuteOfDay(closed[0]), factor);
            && (|closed| < lead ==> Windows(closed, factor) == [])
            && (|closed| >= lead ==>
                  BucketsBetween(closed, lead, BucketEnd(|closed|, lead, factor), factor, Windows(closed, factor)))
  {
    var lead := Lead(MinuteOfDay(closed[0]), factor);
    assert closed[..|closed|] == closed;
    LeadReachesBoundary(MinuteOfDay(closed[0]), factor);
    hide Windows, Chunks, Lead, BucketEnd, Consecutive, MinuteOfDay;
    if |closed| < lead {
      NothingBeforeLead(closed, |closed|, lead, factor);
    } else {
      NothingBeforeLead(closed, lead, lead, factor);
      LongSession(closed, lead, factor);
    }
  }

  lemma LongSession(closed: seq<Candle>, lead: int, factor: int)
    requires factor > 0 && 0 <= lead <= |closed| && |closed| > 0 && Consecutive(closed, 0, |closed|)
    requires (MinuteOfDay(closed[0]) + lead) % factor == 0 && Windows(closed[..lead], factor) == []
    ensures BucketsBetween(closed, lead, BucketEnd(|closed|, lead, factor), factor, Windows(closed, factor))
  {
    BucketEndFits(|closed|, lead, factor);
    hide Windows, Chunks, BucketEnd, Consecutive, MinuteOfDay;
    AlignedFeed(closed, lead, BucketEnd(|closed|, lead, factor), factor);
  }

  /** Exactly the fully covered aligned buckets come out of a healthy session, in order:
      the bars before the first boundary and the unfinished tail give nothing. */
  lemma HealthySessionBuckets(oneMin: seq<Candle>, factor: int, closed: seq<Candle>)
    requires factor >= 2 && closed == ClosedOnly(oneMin) && SameDay(closed)
    requires AssessOneMinuteQuality(closed) == Healthy && |closed| > 0
    ensures var lead := Lead(MinuteOfDay(closed[0]), factor);
            && (|closed| < lead ==> ClosedAggregates(oneMin, factor) == [])
            && (|closed| >= lead ==>
                  BucketsBetween(closed, lead, BucketEnd(|closed|, lead, factor), factor, ClosedAggregates(oneMin, factor)))
  {
    ClosedOnlyTwice(oneMin);
    HealthyExactly(closed);
    HealthyIsTimeOrdered(closed);
    HealthyFeedStreams(oneMin, factor, closed);
    OrderedSessionBuckets(closed, factor);
  }

  // ---------------------------------------------------------------- over midnight

  /** No candle spans midnight: the candles of two days are those of the one and then those of
      the other. */
  lemma {:induction false} MidnightSplits(before: seq<Candle>, after: seq<Candle>, factor: int)
    requires factor > 0 && |after| > 0 && MinuteOfDay(after[0]) == 0
    ensures Windows(before + after, factor) == Windows(before, factor) + Windows(after, factor)
    decreases |after|
  {
    NoBucketSpansMidnight(before, after, factor);
    hide Completed, MinuteOfDay;
    var all := before + after;
    assert Front(all) == before + Front(after);
    var older, newer, last := Windows(before, factor), Windows(Front(after), factor), Completed(after, factor);
    if |after| > 1 {
      MidnightSplits(before, Front(after), factor);
    } else {
      assert Front(after) == [] && before + [] == before;
      assert older + newer == older;
    }
    assert older + newer + last == older + (newer + last);
  }

  lemma ZeroInside(bars: seq<Candle>, n: int, k: int, factor: int)
    requires factor > 0 && 0 <= n - factor < k < n <= |bars| && MinuteOfDay(bars[k]) == 0
    ensures !FullBucket(bars, n, factor)
  {
  }

  lemma SameBucketInSuffix(before: seq<Candle>, after: seq<Candle>, factor: int)
    requires 0 < factor <= |after|
    ensures FullBucket(before + after, |before + after|, factor) <==> FullBucket(after, |after|, factor)
  {
    var all, shift := before + after, |before|;
    assert forall i :: 0 <= i < |after| ==> all[shift + i] == after[i];
    if FullBucket(after, |after|, factor) {
      forall i | |all| - factor <= i < |all| ensures MinuteOfDay(all[i]) == MinuteOfDay(all[|all| - factor]) + (i - (|all| - factor)) {
        assert all[i] == after[i - shift];
      }
    }
    if FullBucket(all, |all|, factor) {
      forall i | |after| - factor <= i < |after| ensures MinuteOfDay(after[i]) == MinuteOfDay(after[|after| - factor]) + (i - (|after| - factor)) {
        assert all[shift + i] == after[i];
      }
    }
  }

  lemma NoBucketSpansMidnight(before: seq<Candle>, after: seq<Candle>, factor: int)
    requires factor > 0 && |after| > 0 && MinuteOfDay(after[0]) == 0
    ensures Completed(before + after, factor) == Completed(after, factor)
  {
    var all := before + after;
    if factor <= |after| {
      SameBucketInSuffix(before, after, factor);
      assert all[|all| - factor..] == after[|after| - factor..];
    } else if factor <= |all| {
      ZeroInside(all, |all|, |before|, factor);
    }
  }

  lemma {:induction false} OneKeyOneGroup(bars: seq<Candle>)
    requires |bars| > 0
    ensures Groups(bars, 1440) == [bars]
    decreases |bars|
  {
    if |bars| > 1 {
      OneKeyOneGroup(Front(bars));
      assert Front([Front(bars)]) == [];
      assert Front(bars) + [Last(bars)] == bars;
    } else {
      assert Front(bars) == [] && [Last(bars)] == bars;
    }
  }

  lemma {:induction false} MinutesFrom(bars: seq<Candle>, i: nat)
    requires MinuteByMinute(bars) && i < |bars| <= 1440
    ensures var m := MinuteOfDay(bars[0]); MinuteOfDay(bars[i]) == if m + i < 1440 then m + i else m + i - 1440
    decreases i
  {
    if i > 0 {
      MinutesFrom(bars, i - 1);
      NextMinute(bars[i - 1].start);
    }
  }

  lemma RotatedDay(minutes: seq<int>, m: int)
    requires 0 <= m < 1440 == |minutes|
    requires forall i :: 0 <= i < 1440 ==> minutes[i] == if m + i < 1440 then m + i else m + i - 1440
    ensures multiset(minutes) == multiset(Range(0, 1440))
  {
    assert minutes == Range(m, 1440 - m) + Range(0, m);
    assert Range(0, 1440) == Range(0, m) + Range(m, 1440 - m);
  }

  /** A bucket of a whole day is the one that breaks: it has the same number every day, so the
      first 1440 bars of a healthy feed make up a candle wherever they start, while a day is
      covered exactly when they start at midnight. */
  lemma DayBucketIgnoresMidnight(bars: seq<Candle>)
    requires MinuteByMinute(bars) && |bars| == 1440
    ensures Aggregate(bars, 1440) == [Merge(1440, bars)]
    ensures FullBucket(bars, 1440, 1440) <==> MinuteOfDay(bars[0]) == 0
  {
    var m := MinuteOfDay(bars[0]);
    forall i | 0 <= i < 1440 ensures MinuteOfDay(bars[i]) == if m + i < 1440 then m + i else m + i - 1440 {
      MinutesFrom(bars, i);
    }
    OneKeyOneGroup(bars);
    RotatedDay(Minutes(bars), m);
    assert Key(bars[0], 1440) * 1440 == 0;
    assert Front([bars]) == [];
    assert Emit([bars], 1440) == [] + EmitOne(bars, 1440);
  }
}
