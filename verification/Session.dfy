/** One opening-range session: the state machine fed one closed minute at a time, and the
    batch definition it agrees with on a time-ordered feed. */
module Session {
  import opened Common
  import opened Candles

  // ---------------------------------------------------------------- data

  type pos = x: int | x > 0 witness 1

  datatype State = Waiting | Building | RangeReady | Confirmed | Armed | InTrade | Done | Invalidated

  datatype Rejection = InsufficientBars | NonContiguousBars | ZeroWidth | TooNarrow | TooWide | CutoffReached

  datatype EntryModel = DisplacementGap | BreakRetest

  datatype Config = Config(
    open: int,
    rangeMinutes: pos,
    cutoff: int,
    longEnabled: bool,
    modelA: bool,
    modelB: bool,
    minWidth: real,
    maxWidth: real,
    minBarsAfter: int,
    bodyFraction: real,
    tick: real,
    gapTicks: int,
    gapStopTicks: int,
    slippageBps: real,
    toleranceBps: real,
    maxWait: int,
    bodyPct: real,
    lookback: pos,
    stopTicks: int,
    rr: real,
    maxTrades: int)
  {
    function RangeEnd(): int { open + rangeMinutes }
  }

  datatype OpeningRange = OpeningRange(start: int, end: int, high: real, low: real)

  datatype Confirmation = Confirmation(candle: Candle, rangeHigh: real, rangeLow: real, at: int)

  datatype Setup = Setup(
    model: EntryModel,
    detectedAt: int,
    entry: real,
    stop: real,
    target: real,
    risk: real,
    reward: real,
    range: OpeningRange,
    confirmation: Confirmation)

  datatype Snapshot = Snapshot(
    state: State,
    range: Option<OpeningRange>,
    confirmation: Option<Confirmation>,
    setup: Option<Setup>,
    trades: nat,
    rejections: seq<Rejection>,
    rangeBars: seq<Candle>,
    postBars: seq<Candle>)

  const Fresh: Snapshot := Snapshot(Waiting, None, None, None, 0, [], [], [])

  // ---------------------------------------------------------------- one step

  /** The opening range of the buffered bars, or why there is none. */
  function Finalize(cfg: Config, bars: seq<Candle>): Result<OpeningRange, Rejection> {
    if |bars| < cfg.rangeMinutes then Err(InsufficientBars)
    else if Minutes(bars) != Range(cfg.open, cfg.rangeMinutes) then Err(NonContiguousBars)
    else
      var high, low := High(bars), Low(bars);
      var width := if low > 0.0 then (high - low) / low else 0.0;
      if high - low <= 0.0 then Err(ZeroWidth)
      else if width < cfg.minWidth then Err(TooNarrow)
      else if width > cfg.maxWidth then Err(TooWide)
      else Ok(OpeningRange(bars[0].start, Last(bars).end, high, low))
  }

  /** The first candle that closes above `level`. */
  function FirstAbove(candles: seq<Candle>, level: real): Option<Candle> {
    if |candles| == 0 then None
    else if FirstAbove(Front(candles), level).Some? then FirstAbove(Front(candles), level)
    else if Last(candles).close > level then Some(Last(candles))
    else None
  }

  function Confirm(cfg: Config, range: OpeningRange, post: seq<Candle>): Option<Confirmation> {
    var first := FirstAbove(Aggregate(post, 5), range.high);
    if cfg.longEnabled && first.Some?
    then Some(Confirmation(first.value, range.high, range.low, first.value.end))
    else None
  }

  function Body(c: Candle): real {
    if c.close >= c.open then c.close - c.open else c.open - c.close
  }

  function BuildLongSetup(cfg: Config, model: EntryModel, entry: real, stop: real, bars: seq<Candle>,
                          range: OpeningRange, confirmation: Confirmation): Option<Setup>
    requires |bars| > 0
  {
    var risk := entry - stop;
    var target := entry + cfg.rr * risk;
    if stop >= entry || target <= entry then None
    else Some(Setup(model, Last(bars).end, entry, stop, target, risk, target - entry, range, confirmation))
  }

  function EntryPrice(cfg: Config, c: Candle): real {
    c.close * (1.0 + cfg.slippageBps / 10000.0)
  }

  function GapStop(cfg: Config, prev: Candle, cur: Candle): real {
    Min(prev.low, cur.low) - cfg.tick * cfg.gapStopTicks as real
  }

  function DetectModelA(cfg: Config, bars: seq<Candle>, range: OpeningRange, confirmation: Confirmation): Option<Setup> {
    if |bars| < 2 then None
    else
      var cur, prev := Last(bars), bars[|bars| - 2];
      var minAfter := if cfg.minBarsAfter > 1 then cfg.minBarsAfter else 1;
      if !cur.closed || cur.start < confirmation.at + (minAfter - 1) then None
      else if cur.close <= range.high then None
      else if Body(cur) < cfg.bodyFraction * (range.high - range.low) then None
      else if cur.low <= prev.high + cfg.tick * cfg.gapTicks as real then None
      else BuildLongSetup(cfg, DisplacementGap, EntryPrice(cfg, cur), GapStop(cfg, prev, cur), bars, range, confirmation)
  }

  /** A bar after the confirmation that comes back to the broken range high. */
  predicate Retest(cfg: Config, c: Candle, range: OpeningRange, confirmation: Confirmation) {
    var tolerance := cfg.toleranceBps / 10000.0;
    c.start >= confirmation.at && c.low <= range.high * (1.0 + tolerance) && c.high >= range.high * (1.0 - tolerance)
  }

  predicate RetestedBefore(cfg: Config, bars: seq<Candle>, n: int, range: OpeningRange, confirmation: Confirmation) {
    exists i :: 0 <= i < n && i < |bars| && Retest(cfg, bars[i], range, confirmation)
  }

  function RecentBars(cfg: Config, bars: seq<Candle>): (r: seq<Candle>)
    requires |bars| > 0
    ensures 0 < |r|
  {
    if |bars| <= cfg.lookback then bars else bars[|bars| - cfg.lookback..]
  }

  function SwingStop(cfg: Config, bars: seq<Candle>): real
    requires |bars| > 0
  {
    Low(RecentBars(cfg, bars)) - cfg.tick * cfg.stopTicks as real
  }

  function BodyShare(c: Candle): real
    requires c.high > c.low
  {
    Body(c) / (c.high - c.low)
  }

  function DetectModelB(cfg: Config, bars: seq<Candle>, range: OpeningRange, confirmation: Confirmation): Option<Setup> {
    if |bars| < 2 || !RetestedBefore(cfg, bars, |bars| - 1, range, confirmation) then None
    else
      var cur := Last(bars);
      if cur.end - confirmation.at > cfg.maxWait then None
      else if !cur.closed || cur.close <= range.high || cur.close <= cur.open then None
      else if cur.high - cur.low <= 0.0 then None
      else if BodyShare(cur) < cfg.bodyPct then None
      else BuildLongSetup(cfg, BreakRetest, EntryPrice(cfg, cur), SwingStop(cfg, bars), bars, range, confirmation)
  }

  function Detect(cfg: Config, bars: seq<Candle>, range: OpeningRange, confirmation: Confirmation): Option<Setup> {
    var a := if cfg.modelA then DetectModelA(cfg, bars, range, confirmation) else None;
    if a.Some? then a
    else if cfg.modelB then DetectModelB(cfg, bars, range, confirmation)
    else None
  }

  function Finalized(cfg: Config, s: Snapshot): Snapshot {
    if s.range.None? && (s.state.Building? || s.state.Waiting?) then
      match Finalize(cfg, s.rangeBars)
      case Ok(range) => s.(state := RangeReady, range := Some(range))
      case Err(reason) => s.(state := Invalidated, rejections := s.rejections + [reason])
    else s
  }

  function CutOff(s: Snapshot): Snapshot {
    if s.state.RangeReady? || s.state.Confirmed?
    then s.(state := Done, rejections := s.rejections + [CutoffReached])
    else s
  }

  function CheckConfirmation(cfg: Config, s: Snapshot): Snapshot {
    if s.range.Some? && Confirm(cfg, s.range.value, s.postBars).Some?
    then s.(state := Confirmed, confirmation := Confirm(cfg, s.range.value, s.postBars))
    else s
  }

  function Scan(cfg: Config, s: Snapshot): (Snapshot, Option<Setup>) {
    if s.trades >= cfg.maxTrades || s.range.None? || s.confirmation.None? then (s, None)
    else
      var setup := Detect(cfg, s.postBars, s.range.value, s.confirmation.value);
      if setup.Some?
      then (s.(setup := setup, state := InTrade, trades := s.trades + 1), setup)
      else (s, None)
  }

  function Trade(cfg: Config, s: Snapshot): (Snapshot, Option<Setup>) {
    var t := if s.state.RangeReady? then CheckConfirmation(cfg, s) else s;
    if t.state.Confirmed? then Scan(cfg, t) else (t, None)
  }

  /** One closed minute: the new state and the setup armed, if any. */
  function Step(cfg: Config, s: Snapshot, c: Candle): (Snapshot, Option<Setup>) {
    var m := MinuteOfDay(c);
    if !c.closed || m < cfg.open then (s, None)
    else if m < cfg.RangeEnd() then
      (s.(state := Building, rangeBars := if c.Valid() then s.rangeBars + [c] else s.rangeBars), None)
    else
      var t := Finalized(cfg, s);
      if t.state.Done? || t.state.Invalidated? then (t, None)
      else if m >= cfg.cutoff then (CutOff(t), None)
      else Trade(cfg, t.(postBars := t.postBars + [c]))
  }

  function Run(cfg: Config, feed: seq<Candle>): Snapshot {
    if |feed| == 0 then Fresh else Step(cfg, Run(cfg, Front(feed)), Last(feed)).0
  }

  /** All setups a run has armed, oldest first. */
  function ArmedSetups(cfg: Config, feed: seq<Candle>): seq<Setup> {
    if |feed| == 0 then []
    else
      var out := Step(cfg, Run(cfg, Front(feed)), Last(feed)).1;
      ArmedSetups(cfg, Front(feed)) + if out.Some? then [out.value] else []
  }

  // ---------------------------------------------------------------- the object

  class OpeningRangeSession {
    const cfg: Config
    var state: State
    var range: Option<OpeningRange>
    var confirmation: Option<Confirmation>
    var setup: Option<Setup>
    var tradesTaken: nat
    var rejections: seq<Rejection>
    var range1m: seq<Candle>
    var postRange1m: seq<Candle>

    ghost function View(): Snapshot
      reads this
    {
      Snapshot(state, range, confirmation, setup, tradesTaken, rejections, range1m, postRange1m)
    }

    constructor (cfg: Config)
      ensures this.cfg == cfg && View() == Fresh
    {
      this.cfg := cfg;
      state, range, confirmation, setup := Waiting, None, None, None;
      tradesTaken, rejections, range1m, postRange1m := 0, [], [], [];
    }

    method OnClosed1m(c: Candle) returns (armed: Option<Setup>)
      modifies this
      ensures (View(), armed) == Step(cfg, old(View()), c)
    {
      armed := None;
      if !c.closed {
        return;
      }
      var minute := MinuteOfDay(c);
      if minute < cfg.open {
        return;
      }
      if minute < cfg.RangeEnd() {
        state := Building;
        if c.Valid() {
          range1m := range1m + [c];
        }
        return;
      }
      if range.None? && (state == Building || state == Waiting) {
        FinalizeRange();
        if state == Invalidated {
          return;
        }
      }
      if state == Done || state == Invalidated {
        return;
      }
      if minute >= cfg.cutoff {
        if state == RangeReady || state == Confirmed {
          state := Done;
          rejections := rejections + [CutoffReached];
        }
        return;
      }
      postRange1m := postRange1m + [c];
      if state == RangeReady {
        CheckForConfirmation();
      }
      if state == Confirmed {
        armed := ScanEntryModels();
      }
    }

    method FinalizeRange()
      requires range.None? && (state == Building || state == Waiting)
      modifies this
      ensures View() == Finalized(cfg, old(View()))
    {
      var bars := range1m;
      if |bars| < cfg.rangeMinutes {
        state, rejections := Invalidated, rejections + [InsufficientBars];
        return;
      }
      if Minutes(bars) != Range(cfg.open, cfg.rangeMinutes) {
        state, rejections := Invalidated, rejections + [NonContiguousBars];
        return;
      }
      var high, low := High(bars), Low(bars);
      if high - low <= 0.0 {
        state, rejections := Invalidated, rejections + [ZeroWidth];
        return;
      }
      var width := if low > 0.0 then (high - low) / low else 0.0;
      if width < cfg.minWidth {
        state, rejections := Invalidated, rejections + [TooNarrow];
        return;
      }
      if width > cfg.maxWidth {
        state, rejections := Invalidated, rejections + [TooWide];
        return;
      }
      range := Some(OpeningRange(bars[0].start, bars[|bars| - 1].end, high, low));
      state := RangeReady;
    }

    method CheckForConfirmation()
      requires state == RangeReady
      modifies this`state, this`confirmation
      ensures View() == CheckConfirmation(cfg, old(View()))
    {
      if range.None? {
        return;
      }
      var first := FindBreakout(range.value.high);
      if first.Some? && cfg.longEnabled {
        confirmation := Some(Confirmation(first.value, range.value.high, range.value.low, first.value.end));
        state := Confirmed;
      }
    }

    /** The first five-minute candle so far that closes above the level. */
    method FindBreakout(level: real) returns (first: Option<Candle>)
      ensures first == FirstAbove(Aggregate(postRange1m, 5), level)
    {
      hide Aggregated, Aggregate;
      var candles := AggregateCandles(postRange1m, 5);
      for n := 0 to |candles|
        invariant FirstAbove(candles[..n], level).None?
      {
        assert Front(candles[..n + 1]) == candles[..n];
        if candles[n].close > level {
          FirstAboveOfPrefix(candles[..n + 1], candles, level);
          return Some(candles[n]);
        }
      }
      assert candles[..|candles|] == candles;
      first := None;
    }

    method ScanEntryModels() returns (armed: Option<Setup>)
      requires state == Confirmed
      modifies this`state, this`setup, this`tradesTaken
      ensures (View(), armed) == Scan(cfg, old(View()))
    {
      armed := None;
      if tradesTaken >= cfg.maxTrades || range.None? || confirmation.None? {
        return;
      }
      if cfg.modelA {
        armed := DetectModelA(cfg, postRange1m, range.value, confirmation.value);
      }
      if armed.None? && cfg.modelB {
        armed := FindModelB(cfg, postRange1m, range.value, confirmation.value);
      }
      if armed.Some? {
        setup := armed;
        state := Armed;
        tradesTaken := tradesTaken + 1;
        state := InTrade;
      }
    }
  }

  method FindModelB(cfg: Config, bars: seq<Candle>, range: OpeningRange, confirmation: Confirmation) returns (out: Option<Setup>)
    ensures out == DetectModelB(cfg, bars, range, confirmation)
  {
    if |bars| < 2 {
      return None;
    }
    var retest := 0;
    while retest < |bars| - 1 && !Retest(cfg, bars[retest], range, confirmation)
      invariant 0 <= retest <= |bars| - 1
      invariant !RetestedBefore(cfg, bars, retest, range, confirmation)
    {
      retest := retest + 1;
    }
    if retest == |bars| - 1 {
      return None;
    }
    assert RetestedBefore(cfg, bars, |bars| - 1, range, confirmation);
    var cur := bars[|bars| - 1];
    if cur.end - confirmation.at > cfg.maxWait {
      return None;
    }
    if !cur.closed || cur.close <= range.high || cur.close <= cur.open {
      return None;
    }
    if cur.high - cur.low <= 0.0 {
      return None;
    }
    if BodyShare(cur) < cfg.bodyPct {
      return None;
    }
    var entry := EntryPrice(cfg, cur);
    out := BuildLongSetup(cfg, BreakRetest, entry, SwingStop(cfg, bars), bars, range, confirmation);
  }

  // ---------------------------------------------------------------- first match

  lemma {:induction false} FirstAboveOfPrefix(candles: seq<Candle>, more: seq<Candle>, level: real)
    requires candles <= more && FirstAbove(candles, level).Some?
    ensures FirstAbove(more, level) == FirstAbove(candles, level)
    decreases |more|
  {
    if |candles| < |more| {
      FirstAboveOfPrefix(candles, Front(more), level);
    } else {
      assert candles == more;
    }
  }

  /** It is the first: everything before it closes at or below the level. */
  lemma {:induction false} FirstAboveExactly(candles: seq<Candle>, level: real) returns (n: nat)
    ensures n <= |candles| && forall i :: 0 <= i < n ==> candles[i].close <= level
    ensures n < |candles| <==> FirstAbove(candles, level).Some?
    ensures n < |candles| ==> candles[n].close > level && FirstAbove(candles, level) == Some(candles[n])
    decreases |candles|
  {
    n := 0;
    if |candles| > 0 {
      n := FirstAboveExactly(Front(candles), level);
      if n == |Front(candles)| && Last(candles).close <= level {
        n := |candles|;
      }
    }
  }

  // ---------------------------------------------------------------- every feed

  function Rank(s: State): nat {
    match s
    case Waiting => 0
    case Building => 1
    case RangeReady => 2
    case Confirmed => 3
    case Armed => 4
    case InTrade => 5
    case Done => 6
    case Invalidated => 7
  }

  predicate InOpeningWindow(cfg: Config, c: Candle) {
    c.closed && cfg.open <= MinuteOfDay(c) < cfg.RangeEnd()
  }

  /** What every feed keeps: a trade means the one armed setup, and the state then is past
      arming for good. */
  predicate Sound(cfg: Config, s: Snapshot) {
    && s.trades <= 1
    && (s.trades == 1 <==> s.setup.Some?)
    && (s.state in {RangeReady, Confirmed, InTrade, Done} ==> s.range.Some?)
    && (s.state in {Confirmed, InTrade} ==> s.confirmation.Some?)
    && (s.state.RangeReady? ==> s.confirmation.None?)
    && (s.confirmation.Some? ==> s.range.Some?)
    && (s.setup.Some? ==> s.range.Some? && s.state in {Building, InTrade})
    && (s.state.InTrade? ==> s.setup.Some?)
    && (s.setup.Some? ==> GoodSetup(cfg, s.setup.value))
    && !s.state.Armed?
  }

  predicate GoodSetup(cfg: Config, s: Setup) {
    && s.stop < s.entry < s.target
    && s.risk == s.entry - s.stop && s.reward == s.target - s.entry == cfg.rr * s.risk
  }

  lemma SetupIsGood(cfg: Config, model: EntryModel, entry: real, stop: real, bars: seq<Candle>,
                    range: OpeningRange, confirmation: Confirmation)
    requires |bars| > 0
    ensures var s := BuildLongSetup(cfg, model, entry, stop, bars, range, confirmation);
            s.Some? <==> stop < entry && cfg.rr * (entry - stop) > 0.0
    ensures var s := BuildLongSetup(cfg, model, entry, stop, bars, range, confirmation);
            s.Some? ==> GoodSetup(cfg, s.value)
  {
  }

  /** A displacement gap: a closed bar late enough after the confirmation, closing above the
      range with a body of the given share of its width, its low clear of the previous high. */
  predicate ShowsGap(cfg: Config, bars: seq<Candle>, range: OpeningRange, confirmation: Confirmation) {
    && |bars| >= 2
    && (var (cur, prev, width) := (bars[|bars| - 1], bars[|bars| - 2], range.high - range.low);
        && cur.closed && confirmation.at <= cur.start && confirmation.at + cfg.minBarsAfter <= cur.start + 1
        && range.high < cur.close
        && (cur.close - cur.open >= cfg.bodyFraction * width || cur.open - cur.close >= cfg.bodyFraction * width)
        && prev.high + cfg.tick * cfg.gapTicks as real < cur.low)
  }

  /** The price came back to the range high after the confirmation, within the tolerance. */
  predicate CameBack(cfg: Config, c: Candle, range: OpeningRange, confirmation: Confirmation) {
    && confirmation.at <= c.start
    && c.low - range.high <= range.high * (cfg.toleranceBps / 10000.0)
    && range.high - c.high <= range.high * (cfg.toleranceBps / 10000.0)
  }

  /** A break and retest: some earlier bar came back, and a bar not too late closes above the
      range and above its open, its body the given share of its height. */
  predicate ShowsRetest(cfg: Config, bars: seq<Candle>, range: OpeningRange, confirmation: Confirmation) {
    && |bars| >= 2 && (exists i :: 0 <= i < |bars| - 1 && CameBack(cfg, bars[i], range, confirmation))
    && (var cur := bars[|bars| - 1];
        && cur.closed && cur.end <= confirmation.at + cfg.maxWait
        && range.high < cur.close && cur.open < cur.close && cur.low < cur.high
        && cfg.bodyPct * (cur.high - cur.low) <= cur.close - cur.open)
  }

  /** The stop lies `cushion` below the lowest low of the last `n` bars. */
  ghost predicate StopsUnder(bars: seq<Candle>, n: int, stop: real, cushion: real) {
    && (forall i :: 0 <= i < |bars| && |bars| - n <= i ==> stop + cushion <= bars[i].low)
    && (exists i :: 0 <= i < |bars| && |bars| - n <= i && stop + cushion == bars[i].low)
  }

  /** What a setup says: the levels are those given, the target the configured multiple of the
      risk above the entry, and the bar, range and confirmation are named. */
  predicate SetupSays(s: Setup, cfg: Config, model: EntryModel, bars: seq<Candle>, range: OpeningRange, confirmation: Confirmation)
    requires |bars| > 0
  {
    && s.model == model && s.detectedAt == bars[|bars| - 1].end && s.range == range && s.confirmation == confirmation
    && s.entry == bars[|bars| - 1].close + bars[|bars| - 1].close * (cfg.slippageBps / 10000.0)
    && s.risk == s.entry - s.stop && s.target == s.entry + cfg.rr * s.risk && s.reward == s.target - s.entry
    && s.stop < s.entry && s.entry < s.target
  }

  /** Model A finds exactly the gaps whose levels make a trade, with the stop the given ticks
      below the lower of the two bars. */
  lemma ModelAExactly(cfg: Config, bars: seq<Candle>, range: OpeningRange, confirmation: Confirmation)
    ensures var found := DetectModelA(cfg, bars, range, confirmation);
            && (found.Some? ==>
                  && ShowsGap(cfg, bars, range, confirmation) && SetupSays(found.value, cfg, DisplacementGap, bars, range, confirmation)
                  && StopsUnder(bars, 2, found.value.stop, cfg.tick * cfg.gapStopTicks as real))
            && (found.None? && ShowsGap(cfg, bars, range, confirmation) ==>
                  forall s: Setup :: SetupSays(s, cfg, DisplacementGap, bars, range, confirmation)
                                     ==> !StopsUnder(bars, 2, s.stop, cfg.tick * cfg.gapStopTicks as real))
  {
    if |bars| >= 2 {
      var cur, prev := Last(bars), bars[|bars| - 2];
      GapStopIs(cfg, bars, cfg.tick * cfg.gapStopTicks as real);
      GapBuilds(cfg, bars, range, confirmation);
      BuildSays(cfg, DisplacementGap, bars, range, confirmation, GapStop(cfg, prev, cur));
      hide DetectModelA, StopsUnder, GapStop, ShowsGap, SetupSays, BuildLongSetup;
    }
  }

  lemma GapBuilds(cfg: Config, bars: seq<Candle>, range: OpeningRange, confirmation: Confirmation)
    requires |bars| >= 2
    ensures var (cur, prev) := (Last(bars), bars[|bars| - 2]);
            DetectModelA(cfg, bars, range, confirmation) ==
            if ShowsGap(cfg, bars, range, confirmation)
            then BuildLongSetup(cfg, DisplacementGap, EntryPrice(cfg, cur), GapStop(cfg, prev, cur), bars, range, confirmation)
            else None
  {
    BodyAtLeast(Last(bars), cfg.bodyFraction * (range.high - range.low));
    hide BuildLongSetup, EntryPrice, GapStop, Body;
  }

  /** With the levels as given a setup is built exactly when there is one that says so. */
  lemma BuildSays(cfg: Config, model: EntryModel, bars: seq<Candle>, range: OpeningRange, confirmation: Confirmation, stop: real)
    requires |bars| > 0
    ensures var built := BuildLongSetup(cfg, model, EntryPrice(cfg, Last(bars)), stop, bars, range, confirmation);
            && (built.Some? ==> SetupSays(built.value, cfg, model, bars, range, confirmation) && built.value.stop == stop)
            && (built.None? ==> forall s: Setup :: SetupSays(s, cfg, model, bars, range, confirmation) ==> s.stop != stop)
  {
    EntryIs(cfg, Last(bars));
    hide EntryPrice;
  }

  lemma EntryIs(cfg: Config, c: Candle)
    ensures EntryPrice(cfg, c) == c.close + c.close * (cfg.slippageBps / 10000.0)
  {
  }

  lemma BodyAtLeast(c: Candle, least: real)
    ensures Body(c) >= least <==> c.close - c.open >= least || c.open - c.close >= least
  {
  }

  /** Model B finds exactly the retests whose levels make a trade, with the stop the given ticks
      below the lowest of the bars it looks back at. */
  lemma ModelBExactly(cfg: Config, bars: seq<Candle>, range: OpeningRange, confirmation: Confirmation)
    ensures var found := DetectModelB(cfg, bars, range, confirmation);
            && (found.Some? ==>
                  && ShowsRetest(cfg, bars, range, confirmation) && SetupSays(found.value, cfg, BreakRetest, bars, range, confirmation)
                  && StopsUnder(bars, cfg.lookback, found.value.stop, cfg.tick * cfg.stopTicks as real))
            && (found.None? && ShowsRetest(cfg, bars, range, confirmation) ==>
                  forall s: Setup :: SetupSays(s, cfg, BreakRetest, bars, range, confirmation)
                                     ==> !StopsUnder(bars, cfg.lookback, s.stop, cfg.tick * cfg.stopTicks as real))
  {
    if |bars| >= 2 {
      RetestBuilds(cfg, bars, range, confirmation);
      SwingStopIs(cfg, bars, cfg.tick * cfg.stopTicks as real);
      BuildSays(cfg, BreakRetest, bars, range, confirmation, SwingStop(cfg, bars));
      hide DetectModelB, StopsUnder, ShowsRetest, SetupSays, BuildLongSetup, SwingStop;
    }
  }

  lemma RetestBuilds(cfg: Config, bars: seq<Candle>, range: OpeningRange, confirmation: Confirmation)
    requires |bars| >= 2
    ensures DetectModelB(cfg, bars, range, confirmation) ==
            if ShowsRetest(cfg, bars, range, confirmation)
            then BuildLongSetup(cfg, BreakRetest, EntryPrice(cfg, Last(bars)), SwingStop(cfg, bars), bars, range, confirmation)
            else None
  {
    var cur := Last(bars);
    RetestExactly(cfg, bars, range, confirmation);
    if cur.low < cur.high && cur.open < cur.close {
      ShareAtLeast(cur, cfg.bodyPct);
    }
    hide BuildLongSetup, EntryPrice, SwingStop, BodyShare, RetestedBefore, CameBack;
  }

  lemma RetestExactly(cfg: Config, bars: seq<Candle>, range: OpeningRange, confirmation: Confirmation)
    ensures RetestedBefore(cfg, bars, |bars| - 1, range, confirmation)
       <==> exists i :: 0 <= i < |bars| - 1 && CameBack(cfg, bars[i], range, confirmation)
  {
    forall i | 0 <= i < |bars| ensures Retest(cfg, bars[i], range, confirmation) <==> CameBack(cfg, bars[i], range, confirmation) {
      InTolerance(range.high, cfg.toleranceBps / 10000.0);
    }
  }

  lemma InTolerance(level: real, tolerance: real)
    ensures level * (1.0 + tolerance) == level + level * tolerance && level * (1.0 - tolerance) == level - level * tolerance
  {
  }

  lemma GapStopIs(cfg: Config, bars: seq<Candle>, cushion: real)
    requires |bars| >= 2 && cushion == cfg.tick * cfg.gapStopTicks as real
    ensures forall stop :: StopsUnder(bars, 2, stop, cushion) <==> stop == GapStop(cfg, bars[|bars| - 2], Last(bars))
  {
    var prev, cur := bars[|bars| - 2], Last(bars);
    assert bars[|bars| - 1] == cur;
    LowestStops(bars, 2, if prev.low <= cur.low then |bars| - 2 else |bars| - 1, cushion);
  }

  lemma LowestRecent(cfg: Config, bars: seq<Candle>) returns (lo: nat)
    requires |bars| > 0
    ensures lo < |bars| && |bars| - cfg.lookback <= lo && bars[lo].low == Low(RecentBars(cfg, bars))
    ensures forall i :: 0 <= i < |bars| && |bars| - cfg.lookback <= i ==> bars[lo].low <= bars[i].low
  {
    var recent := RecentBars(cfg, bars);
    var from := |bars| - |recent|;
    var _, k := ExtremaAreAttained(recent);
    hide Low;
    lo := from + k;
    assert recent[k] == bars[lo];
    forall i | 0 <= i < |bars| && |bars| - cfg.lookback <= i ensures bars[lo].low <= bars[i].low {
      assert bars[i] == recent[i - from];
    }
  }

  lemma SwingStopIs(cfg: Config, bars: seq<Candle>, cushion: real)
    requires |bars| > 0 && cushion == cfg.tick * cfg.stopTicks as real
    ensures forall stop :: StopsUnder(bars, cfg.lookback, stop, cushion) <==> stop == SwingStop(cfg, bars)
  {
    var lo := LowestRecent(cfg, bars);
    SwingStopFrom(cfg, bars, cushion);
    hide *;
    LowestStops(bars, cfg.lookback, lo, cushion);
  }

  lemma SwingStopFrom(cfg: Config, bars: seq<Candle>, cushion: real)
    requires |bars| > 0 && cushion == cfg.tick * cfg.stopTicks as real
    ensures SwingStop(cfg, bars) == Low(RecentBars(cfg, bars)) - cushion
  {
  }

  lemma LowestStops(bars: seq<Candle>, n: int, lo: int, cushion: real)
    requires 0 <= lo < |bars| && |bars| - n <= lo
    requires forall i :: 0 <= i < |bars| && |bars| - n <= i ==> bars[lo].low <= bars[i].low
    ensures forall stop :: StopsUnder(bars, n, stop, cushion) <==> stop == bars[lo].low - cushion
  {
  }

  lemma ShareAtLeast(c: Candle, share: real)
    requires c.high > c.low && c.close > c.open
    ensures BodyShare(c) >= share <==> share * (c.high - c.low) <= c.close - c.open
  {
    var body, height := c.close - c.open, c.high - c.low;
    QuotientTimes(body, height);
    if body / height >= share {
      ScaleReal(height, share, body / height);
    } else {
      ScaleStrict(height, body / height, share);
    }
  }

  lemma DetectedIsGood(cfg: Config, bars: seq<Candle>, range: OpeningRange, confirmation: Confirmation)
    ensures Detect(cfg, bars, range, confirmation).Some? ==> GoodSetup(cfg, Detect(cfg, bars, range, confirmation).value)
  {
    if Detect(cfg, bars, range, confirmation).Some? {
      var cur := Last(bars);
      SetupIsGood(cfg, DisplacementGap, EntryPrice(cfg, cur), GapStop(cfg, bars[|bars| - 2], cur), bars, range, confirmation);
      SetupIsGood(cfg, BreakRetest, EntryPrice(cfg, cur), SwingStop(cfg, bars), bars, range, confirmation);
      hide GoodSetup, BuildLongSetup, EntryPrice, GapStop, SwingStop, Body, BodyShare, RetestedBefore;
    }
  }

  /** Whichever model finds it, a setup enters above the range high at no less than the close,
      and its stop is below the newest bar and below the bars the model looks back at: the
      one before for a gap, the last few for a retest. */
  lemma StopIsBelowTheSwing(cfg: Config, bars: seq<Candle>, range: OpeningRange, confirmation: Confirmation)
    requires Detect(cfg, bars, range, confirmation).Some?
    requires |bars| > 0 && cfg.tick >= 0.0 && cfg.gapStopTicks >= 0 && cfg.stopTicks >= 0 && cfg.slippageBps >= 0.0 && range.high >= 0.0
    ensures |bars| >= 2
    ensures var s := Detect(cfg, bars, range, confirmation).value;
            && s.entry >= Last(bars).close > range.high && s.stop <= Last(bars).low
            && (s.model.DisplacementGap? ==> s.stop <= bars[|bars| - 2].low)
            && (s.model.BreakRetest? ==> forall i :: 0 <= i < |RecentBars(cfg, bars)| ==> s.stop <= RecentBars(cfg, bars)[i].low)
  {
    assert |bars| >= 2 && Last(bars).close > range.high;
    EntryAtLeastClose(cfg, Last(bars));
    NonNegativeProduct(cfg.tick, cfg.gapStopTicks as real);
    SwingStopIsLow(cfg, bars);
  }

  lemma EntryAtLeastClose(cfg: Config, c: Candle)
    requires cfg.slippageBps >= 0.0 && c.close >= 0.0
    ensures EntryPrice(cfg, c) >= c.close
  {
    NonNegativeProduct(c.close, cfg.slippageBps / 10000.0);
    assert EntryPrice(cfg, c) == c.close + c.close * (cfg.slippageBps / 10000.0);
  }

  lemma SwingStopIsLow(cfg: Config, bars: seq<Candle>)
    requires |bars| > 0 && cfg.tick >= 0.0 && cfg.stopTicks >= 0
    ensures forall i :: 0 <= i < |RecentBars(cfg, bars)| ==> SwingStop(cfg, bars) <= RecentBars(cfg, bars)[i].low
    ensures SwingStop(cfg, bars) <= Last(bars).low
  {
    NonNegativeProduct(cfg.tick, cfg.stopTicks as real);
    var _, _ := ExtremaAreAttained(RecentBars(cfg, bars));
    assert RecentBars(cfg, bars)[|RecentBars(cfg, bars)| - 1] == Last(bars);
  }

  lemma NonNegativeProduct(a: real, b: real)
    ensures a >= 0.0 && b >= 0.0 ==> a * b >= 0.0
  {
  }

  lemma FinalizedKeepsSound(cfg: Config, s: Snapshot)
    requires Sound(cfg, s)
    ensures Sound(cfg, Finalized(cfg, s)) && Finalized(cfg, s).trades == s.trades
    ensures Rank(Finalized(cfg, s).state) >= Rank(s.state)
  {
  }

  lemma ScanKeepsSound(cfg: Config, s: Snapshot)
    requires Sound(cfg, s) && s.state.Confirmed?
    ensures var (t, armed) := Scan(cfg, s);
            && Sound(cfg, t) && Rank(t.state) >= Rank(s.state)
            && t.trades == s.trades + (if armed.Some? then 1 else 0)
            && (armed.Some? ==> t.setup == armed)
  {
    DetectedIsGood(cfg, s.postBars, s.range.value, s.confirmation.value);
  }

  lemma TradeKeepsSound(cfg: Config, s: Snapshot)
    requires Sound(cfg, s)
    ensures var (t, armed) := Trade(cfg, s);
            && Sound(cfg, t) && Rank(t.state) >= Rank(s.state)
            && t.trades == s.trades + (if armed.Some? then 1 else 0)
            && (armed.Some? ==> t.setup == armed)
  {
    var t := if s.state.RangeReady? then CheckConfirmation(cfg, s) else s;
    if t.state.Confirmed? {
      ScanKeepsSound(cfg, t);
    }
  }

  lemma StepKeepsSound(cfg: Config, s: Snapshot, c: Candle)
    requires Sound(cfg, s)
    ensures var (t, armed) := Step(cfg, s, c);
            && Sound(cfg, t)
            && t.trades == s.trades + (if armed.Some? then 1 else 0)
            && (armed.Some? ==> t.setup == armed)
            && (Rank(t.state) >= Rank(s.state) || InOpeningWindow(cfg, c))
  {
    var m := MinuteOfDay(c);
    if c.closed && m >= cfg.open && m >= cfg.RangeEnd() {
      FinalizedKeepsSound(cfg, s);
      var t := Finalized(cfg, s);
      if !t.state.Done? && !t.state.Invalidated? && m < cfg.cutoff {
        TradeKeepsSound(cfg, t.(postBars := t.postBars + [c]));
      }
    }
  }

  /** Whatever the feed, and whatever trade limit is configured, a session arms at most one
      setup, with stop below entry below target and reward the configured multiple of risk. */
  lemma {:induction false} AtMostOneSetup(cfg: Config, feed: seq<Candle>)
    ensures Sound(cfg, Run(cfg, feed))
    ensures |ArmedSetups(cfg, feed)| == Run(cfg, feed).trades <= 1
    ensures forall i :: 0 <= i < |ArmedSetups(cfg, feed)| ==> GoodSetup(cfg, ArmedSetups(cfg, feed)[i])
    decreases |feed|
  {
    if |feed| > 0 {
      AtMostOneSetup(cfg, Front(feed));
      StepKeepsSound(cfg, Run(cfg, Front(feed)), Last(feed));
    }
  }

  /** The state moves backward exactly when a closed bar of the opening window arrives
      after the range has been finalized. */
  lemma BackwardExactly(cfg: Config, s: Snapshot, c: Candle)
    requires Sound(cfg, s)
    ensures Rank(Step(cfg, s, c).0.state) < Rank(s.state) <==> InOpeningWindow(cfg, c) && Rank(s.state) > Rank(Building)
  {
    StepKeepsSound(cfg, s, c);
  }

  function Plain(start: int): Candle {
    Candle("A", 1, start, start + 1, 10.0, 11.0, 9.0, 10.0, 1.0, true)
  }

  /** A whole run that moves backward: the range of a one-minute window is ready when the bar
      of that minute is delivered once more. */
  lemma LateBarMovesBackward(cfg: Config)
    requires cfg.open == 570 && cfg.rangeMinutes == 1 && cfg.cutoff == 600 && !cfg.longEnabled && cfg.minWidth == 0.0 && cfg.maxWidth == 1.0
    ensures Run(cfg, [Plain(570), Plain(571)]).state.RangeReady?
    ensures Run(cfg, [Plain(570), Plain(571), Plain(570)]).state.Building?
  {
    var a, b := Plain(570), Plain(571);
    SnocFront([a, b], a);
    SnocFront([a], b);
    assert [a] + [b] == [a, b] && [a, b] + [a] == [a, b, a];
    FirstPlain(cfg);
    PlainRange(cfg);
    hide Finalize, Trade, CheckConfirmation, Scan;
    SecondPlain(cfg);
  }

  lemma FirstPlain(cfg: Config)
    requires cfg.open == 570 && cfg.rangeMinutes == 1
    ensures Run(cfg, [Plain(570)]) == Fresh.(state := Building, rangeBars := [Plain(570)])
  {
    var a := Plain(570);
    assert Front([a]) == [] && Last([a]) == a && Fresh.rangeBars + [a] == [a];
    assert Run(cfg, [a]) == Step(cfg, Fresh, a).0;
    hide Finalize, Trade, CutOff;
  }

  lemma SecondPlain(cfg: Config)
    requires cfg.open == 570 && cfg.rangeMinutes == 1 && cfg.cutoff == 600 && !cfg.longEnabled
    requires Finalize(cfg, [Plain(570)]) == Ok(OpeningRange(570, 571, 11.0, 9.0))
    ensures Step(cfg, Fresh.(state := Building, rangeBars := [Plain(570)]), Plain(571)).0.state.RangeReady?
  {
    hide Finalize, Aggregate, FirstAbove;
  }

  lemma PlainRange(cfg: Config)
    requires cfg.open == 570 && cfg.rangeMinutes == 1 && cfg.minWidth == 0.0 && cfg.maxWidth == 1.0
    ensures Finalize(cfg, [Plain(570)]) == Ok(OpeningRange(570, 571, 11.0, 9.0))
  {
    assert Minutes([Plain(570)]) == Range(570, 1);
  }

  // ---------------------------------------------------------------- time-ordered feeds

  function RangeBars(cfg: Config, bars: seq<Candle>): seq<Candle> {
    if |bars| == 0 then []
    else if InOpeningWindow(cfg, Last(bars)) && Last(bars).Valid() then RangeBars(cfg, Front(bars)) + [Last(bars)]
    else RangeBars(cfg, Front(bars))
  }

  predicate InTradingWindow(cfg: Config, c: Candle) {
    c.closed && cfg.open <= MinuteOfDay(c) && cfg.RangeEnd() <= MinuteOfDay(c) < cfg.cutoff
  }

  /** The bars after the range and before the cutoff. */
  function PostBars(cfg: Config, bars: seq<Candle>): seq<Candle> {
    if |bars| == 0 then []
    else if InTradingWindow(cfg, Last(bars)) then PostBars(cfg, Front(bars)) + [Last(bars)]
    else PostBars(cfg, Front(bars))
  }

  /** The first prefix on which a confirmed breakout shows an entry. */
  function FirstSetup(cfg: Config, range: OpeningRange, post: seq<Candle>): Option<Setup> {
    if |post| == 0 || cfg.maxTrades <= 0 then None
    else if FirstSetup(cfg, range, Front(post)).Some? then FirstSetup(cfg, range, Front(post))
    else if Confirm(cfg, range, post).None? then None
    else Detect(cfg, post, range, Confirm(cfg, range, post).value)
  }

  /** Closed bars whose start times strictly increase within one market day. */
  ghost predicate OneSession(bars: seq<Candle>) {
    && (forall i :: 0 <= i < |bars| ==> bars[i].closed && bars[i].start / 1440 == bars[0].start / 1440)
    && (forall i, j :: 0 <= i < j < |bars| ==> bars[i].start < bars[j].start)
  }

  /** What the session amounts to once the range is known: no buffers are replayed. */
  function BatchAfterRange(cfg: Config, range: OpeningRange, bars: seq<Candle>): Snapshot
    requires |bars| > 0
  {
    var post := PostBars(cfg, bars);
    var confirmation, setup := Confirm(cfg, range, post), FirstSetup(cfg, range, post);
    var cut := MinuteOfDay(Last(bars)) >= cfg.cutoff;
    Snapshot(
      if setup.Some? then InTrade else if cut then Done else if confirmation.Some? then Confirmed else RangeReady,
      Some(range),
      confirmation,
      setup,
      if setup.Some? then 1 else 0,
      if setup.None? && cut then [CutoffReached] else [],
      RangeBars(cfg, bars),
      post)
  }

  /** The whole session as one function of the bars. */
  function Batch(cfg: Config, bars: seq<Candle>): Snapshot {
    if |bars| == 0 || MinuteOfDay(Last(bars)) < cfg.open then Fresh
    else if MinuteOfDay(Last(bars)) < cfg.RangeEnd() then Fresh.(state := Building, rangeBars := RangeBars(cfg, bars))
    else
      match Finalize(cfg, RangeBars(cfg, bars))
      case Err(reason) => Fresh.(state := Invalidated, rejections := [reason], rangeBars := RangeBars(cfg, bars))
      case Ok(range) => BatchAfterRange(cfg, range, bars)
  }

  lemma MinutesFollowStarts(a: Candle, b: Candle)
    requires a.start < b.start && a.start / 1440 == b.start / 1440
    ensures MinuteOfDay(a) < MinuteOfDay(b)
  {
    DivBounds(a.start, 1440);
    DivBounds(b.start, 1440);
  }

  lemma SessionIsTimeOrdered(bars: seq<Candle>)
    requires OneSession(bars)
    ensures TimeOrdered(bars)
  {
    forall i, j | 0 <= i < j < |bars| ensures MinuteOfDay(bars[i]) < MinuteOfDay(bars[j]) {
      MinutesFollowStarts(bars[i], bars[j]);
    }
  }

  lemma PrefixOneSession(bars: seq<Candle>)
    requires |bars| > 0 && OneSession(bars)
    ensures OneSession(Front(bars))
  {
  }

  lemma {:induction false} FiltersSelect(cfg: Config, bars: seq<Candle>)
    ensures forall c :: c in RangeBars(cfg, bars) ==> c in bars && InOpeningWindow(cfg, c)
    ensures forall c :: c in PostBars(cfg, bars) ==> c in bars && InTradingWindow(cfg, c)
    decreases |bars|
  {
    if |bars| > 0 {
      FiltersSelect(cfg, Front(bars));
    }
  }

  lemma SelectSnoc(cfg: Config, bars: seq<Candle>, c: Candle)
    ensures PostBars(cfg, bars + [c]) == if InTradingWindow(cfg, c) then PostBars(cfg, bars) + [c] else PostBars(cfg, bars)
    ensures !InOpeningWindow(cfg, c) ==> RangeBars(cfg, bars + [c]) == RangeBars(cfg, bars)
  {
    SnocFront(bars, c);
  }

  predicate EarlierThatDay(d: Candle, c: Candle) {
    d.start < c.start && d.start / 1440 == c.start / 1440
  }

  lemma SessionSnoc(bars: seq<Candle>, c: Candle)
    requires OneSession(bars) && c.closed && forall d :: d in bars ==> EarlierThatDay(d, c)
    ensures OneSession(bars + [c])
  {
    assert forall i :: 0 <= i < |bars| ==> bars[i] in bars;
  }

  /** The selected bars keep their order. */
  lemma {:induction false} PostBarsOrdered(cfg: Config, bars: seq<Candle>)
    requires OneSession(bars)
    ensures OneSession(PostBars(cfg, bars)) && TimeOrdered(PostBars(cfg, bars))
    decreases |bars|
  {
    if |bars| > 0 {
      var c := Last(bars);
      PrefixOneSession(bars);
      PostBarsOrdered(cfg, Front(bars));
      FiltersSelect(cfg, Front(bars));
      var post := PostBars(cfg, Front(bars));
      assert forall d :: d in post ==> EarlierThatDay(d, c);
      SessionSnoc(post, c);
    }
    hide OneSession, TimeOrdered;
    SessionIsTimeOrdered(PostBars(cfg, bars));
  }

  lemma {:induction false} EarlyBarsAreNotSelected(cfg: Config, bars: seq<Candle>)
    requires forall i :: 0 <= i < |bars| ==> MinuteOfDay(bars[i]) < cfg.RangeEnd()
    ensures PostBars(cfg, bars) == []
    ensures (forall i :: 0 <= i < |bars| ==> MinuteOfDay(bars[i]) < cfg.open) ==> RangeBars(cfg, bars) == []
    decreases |bars|
  {
    if |bars| > 0 {
      EarlyBarsAreNotSelected(cfg, Front(bars));
    }
  }

  /** A confirmation, once there, is that of every longer time-ordered feed. */
  lemma ConfirmationStays(cfg: Config, range: OpeningRange, post: seq<Candle>, c: Candle)
    requires TimeOrdered(post + [c]) && Confirm(cfg, range, post).Some?
    ensures Confirm(cfg, range, post + [c]) == Confirm(cfg, range, post)
  {
    OrderedIsRising(post + [c], 5);
    OneMoreBar(post, c, 5);
    FirstAboveOfPrefix(Aggregate(post, 5), Aggregate(post + [c], 5), range.high);
  }

  lemma DetectKeepsConfirmation(cfg: Config, post: seq<Candle>, range: OpeningRange, confirmation: Confirmation)
    ensures var setup := Detect(cfg, post, range, confirmation);
            setup.Some? ==> setup.value.confirmation == confirmation && setup.value.range == range
  {
  }

  lemma {:induction false} SetupNeedsConfirmation(cfg: Config, range: OpeningRange, post: seq<Candle>)
    requires TimeOrdered(post) && FirstSetup(cfg, range, post).Some?
    ensures Confirm(cfg, range, post) == Some(FirstSetup(cfg, range, post).value.confirmation)
    decreases |post|
  {
    var front, c := Front(post), Last(post);
    assert post == front + [c];
    if FirstSetup(cfg, range, front).None? {
      DetectKeepsConfirmation(cfg, post, range, Confirm(cfg, range, post).value);
    } else {
      PrefixTimeOrdered(front, c);
      SetupNeedsConfirmation(cfg, range, front);
      ConfirmationStays(cfg, range, front, c);
    }
  }

  /** The batch form of a session whose cutoff has not been reached. */
  function Trading(cfg: Config, range: OpeningRange, post: seq<Candle>, opening: seq<Candle>): Snapshot {
    var confirmation, setup := Confirm(cfg, range, post), FirstSetup(cfg, range, post);
    Snapshot(if setup.Some? then InTrade else if confirmation.Some? then Confirmed else RangeReady,
             Some(range), confirmation, setup, if setup.Some? then 1 else 0, [], opening, post)
  }

  lemma BatchIsTrading(cfg: Config, range: OpeningRange, bars: seq<Candle>)
    requires |bars| > 0
    ensures var t := Trading(cfg, range, PostBars(cfg, bars), RangeBars(cfg, bars));
            BatchAfterRange(cfg, range, bars) == if MinuteOfDay(Last(bars)) >= cfg.cutoff then CutOff(t) else t
  {
    hide Confirm, FirstSetup, PostBars, RangeBars;
  }

  /** One more bar before the cutoff takes the batch form to the batch form. */
  lemma TradingStep(cfg: Config, range: OpeningRange, post: seq<Candle>, c: Candle, opening: seq<Candle>)
    requires TimeOrdered(post + [c])
    ensures Trade(cfg, Trading(cfg, range, post, opening).(postBars := post + [c])).0 == Trading(cfg, range, post + [c], opening)
  {
    SnocFront(post, c);
    PrefixTimeOrdered(post, c);
    hide Detect, Aggregate, FirstAbove, TimeOrdered, Confirm;
    if Confirm(cfg, range, post).Some? {
      ConfirmationStays(cfg, range, post, c);
    }
    if FirstSetup(cfg, range, post).Some? {
      SetupNeedsConfirmation(cfg, range, post);
    }
  }

  lemma StepTrades(cfg: Config, s: Snapshot, c: Candle)
    requires PastRange(cfg, c) && s.range.Some? && s.state in {RangeReady, Confirmed, InTrade}
    ensures Step(cfg, s, c).0 == if MinuteOfDay(c) >= cfg.cutoff then CutOff(s) else Trade(cfg, s.(postBars := s.postBars + [c])).0
  {
    hide Trade, CutOff, Finalize;
  }

  lemma StepAfterCutoff(cfg: Config, s: Snapshot, c: Candle)
    requires PastRange(cfg, c) && s.range.Some? && MinuteOfDay(c) >= cfg.cutoff && s.state in {RangeReady, Confirmed, InTrade, Done}
    ensures Step(cfg, CutOff(s), c).0 == CutOff(s)
  {
    hide Trade, Finalize;
  }

  predicate PastRange(cfg: Config, c: Candle) {
    c.closed && MinuteOfDay(c) >= cfg.RangeEnd() && MinuteOfDay(c) >= cfg.open
  }

  /** Once the range is known, any further bar takes the batch form to the batch form. */
  lemma BarAfterRange(cfg: Config, range: OpeningRange, bars: seq<Candle>, c: Candle)
    requires |bars| > 0 && OneSession(bars + [c]) && PastRange(cfg, c) && MinuteOfDay(Last(bars)) < MinuteOfDay(c)
    ensures Step(cfg, BatchAfterRange(cfg, range, bars), c).0 == BatchAfterRange(cfg, range, bars + [c])
  {
    var post, opening := PostBars(cfg, bars), RangeBars(cfg, bars);
    var t := Trading(cfg, range, post, opening);
    assert Last(bars + [c]) == c;
    SelectSnoc(cfg, bars, c);
    PostBarsOrdered(cfg, bars + [c]);
    BatchIsTrading(cfg, range, bars);
    BatchIsTrading(cfg, range, bars + [c]);
    assert t.state in {RangeReady, Confirmed, InTrade} && t.range == Some(range) && t.postBars == post;
    hide Trading, Trade, Step, CutOff, BatchAfterRange, PostBars, RangeBars, OneSession, TimeOrdered;
    if MinuteOfDay(Last(bars)) >= cfg.cutoff {
      StepAfterCutoff(cfg, t, c);
    } else {
      StepTrades(cfg, t, c);
      if MinuteOfDay(c) < cfg.cutoff {
        TradingStep(cfg, range, post, c, opening);
      }
    }
  }

  /** The session before its range: nothing but the buffered opening bars. */
  predicate BeforeRange(cfg: Config, s: Snapshot, bars: seq<Candle>) {
    s == Fresh.(state := s.state, rangeBars := RangeBars(cfg, bars)) && s.state in {Waiting, Building}
  }

  lemma RangeFails(cfg: Config, s: Snapshot, bars: seq<Candle>, c: Candle)
    requires BeforeRange(cfg, s, bars) && PastRange(cfg, c) && Finalize(cfg, RangeBars(cfg, bars)).Err?
    ensures Step(cfg, s, c).0 == Fresh.(state := Invalidated, rejections := [Finalize(cfg, RangeBars(cfg, bars)).error],
                                        rangeBars := RangeBars(cfg, bars))
  {
    hide Finalize, RangeBars, Trade;
  }

  lemma RangeForms(cfg: Config, s: Snapshot, bars: seq<Candle>, c: Candle, range: OpeningRange)
    requires BeforeRange(cfg, s, bars) && PastRange(cfg, c) && Finalize(cfg, RangeBars(cfg, bars)) == Ok(range)
    ensures var t := Fresh.(state := RangeReady, range := Some(range), rangeBars := RangeBars(cfg, bars));
            Step(cfg, s, c).0 == if MinuteOfDay(c) >= cfg.cutoff then CutOff(t) else Trade(cfg, t.(postBars := [c])).0
  {
    hide Finalize, RangeBars, Trade, CutOff;
    assert [] + [c] == [c];
  }

  /** The bar that ends the opening window: the range is made of what came before. */
  lemma FirstBarAfterRange(cfg: Config, bars: seq<Candle>, c: Candle)
    requires OneSession(bars + [c]) && PastRange(cfg, c)
    requires forall i :: 0 <= i < |bars| ==> MinuteOfDay(bars[i]) < cfg.RangeEnd()
    requires BeforeRange(cfg, Batch(cfg, bars), bars)
    ensures Step(cfg, Batch(cfg, bars), c).0 == Batch(cfg, bars + [c])
  {
    EarlyBarsAreNotSelected(cfg, bars);
    SelectSnoc(cfg, bars, c);
    PostBarsOrdered(cfg, bars + [c]);
    assert Last(bars + [c]) == c;
    var finalized := Finalize(cfg, RangeBars(cfg, bars));
    if finalized.Err? {
      RangeFails(cfg, Batch(cfg, bars), bars, c);
    } else {
      RangeForms(cfg, Batch(cfg, bars), bars, c, finalized.value);
      FirstTradingStep(cfg, finalized.value, bars, c);
    }
  }

  lemma FirstTradingStep(cfg: Config, range: OpeningRange, bars: seq<Candle>, c: Candle)
    requires PastRange(cfg, c) && TimeOrdered([c]) && RangeBars(cfg, bars + [c]) == RangeBars(cfg, bars)
    requires PostBars(cfg, bars + [c]) == if MinuteOfDay(c) < cfg.cutoff then [c] else []
    ensures var t := Fresh.(state := RangeReady, range := Some(range), rangeBars := RangeBars(cfg, bars));
            BatchAfterRange(cfg, range, bars + [c]) ==
            if MinuteOfDay(c) >= cfg.cutoff then CutOff(t) else Trade(cfg, t.(postBars := [c])).0
  {
    var opening := RangeBars(cfg, bars);
    NothingTradedYet(cfg, range, opening);
    BatchIsTrading(cfg, range, bars + [c]);
    assert Last(bars + [c]) == c && [] + [c] == [c];
    hide Trading, Trade, CutOff, BatchAfterRange, PostBars, RangeBars, TimeOrdered;
    if MinuteOfDay(c) < cfg.cutoff {
      TradingStep(cfg, range, [], c, opening);
    }
  }

  lemma NothingTradedYet(cfg: Config, range: OpeningRange, opening: seq<Candle>)
    ensures Trading(cfg, range, [], opening) == Fresh.(state := RangeReady, range := Some(range), rangeBars := opening)
  {
    NoConfirmationYet(cfg, range);
    hide Confirm, FirstSetup;
  }

  lemma NoConfirmationYet(cfg: Config, range: OpeningRange)
    ensures Confirm(cfg, range, []).None? && FirstSetup(cfg, range, []).None?
  {
    assert Groups([], 5) == [];
  }

  lemma EarlierMinutes(bars: seq<Candle>, c: Candle)
    requires OneSession(bars + [c])
    ensures OneSession(bars)
    ensures forall i :: 0 <= i < |bars| ==> MinuteOfDay(bars[i]) < MinuteOfDay(c)
    ensures |bars| > 0 ==> forall i :: 0 <= i < |bars| ==> MinuteOfDay(bars[i]) <= MinuteOfDay(Last(bars))
  {
    var all := bars + [c];
    SessionIsTimeOrdered(all);
    PrefixOneSession(all);
    SnocFront(bars, c);
    forall i | 0 <= i < |bars| ensures MinuteOfDay(bars[i]) < MinuteOfDay(c) {
      assert all[i] == bars[i] && all[|bars|] == c;
    }
    SessionIsTimeOrdered(bars);
  }

  lemma BatchBeforeRange(cfg: Config, bars: seq<Candle>)
    requires OneSession(bars) && (|bars| > 0 ==> MinuteOfDay(Last(bars)) < cfg.RangeEnd())
    ensures BeforeRange(cfg, Batch(cfg, bars), bars)
  {
    if |bars| > 0 && MinuteOfDay(Last(bars)) < cfg.open {
      SessionIsTimeOrdered(bars);
      EarlyBarsAreNotSelected(cfg, bars);
    }
  }

  /** A bar before the session or inside its opening window. */
  lemma BarInWindow(cfg: Config, bars: seq<Candle>, c: Candle)
    requires OneSession(bars + [c]) && c.closed && !PastRange(cfg, c) && BeforeRange(cfg, Batch(cfg, bars), bars)
    requires |bars| > 0 ==> MinuteOfDay(Last(bars)) < MinuteOfDay(c)
    ensures Step(cfg, Batch(cfg, bars), c).0 == Batch(cfg, bars + [c])
  {
    SnocFront(bars, c);
    BatchBeforeRange(cfg, bars + [c]);
    hide Finalize, Trade, CutOff, BatchAfterRange;
  }

  lemma NoRangeNoSession(cfg: Config, bars: seq<Candle>, c: Candle)
    requires |bars| > 0 && PastRange(cfg, c) && MinuteOfDay(Last(bars)) >= cfg.RangeEnd()
    requires Finalize(cfg, RangeBars(cfg, bars)).Err?
    ensures Step(cfg, Batch(cfg, bars), c).0 == Batch(cfg, bars + [c])
  {
    SnocFront(bars, c);
    SelectSnoc(cfg, bars, c);
    hide Finalize, Trade, CutOff, BatchAfterRange;
  }

  lemma BatchWithRange(cfg: Config, bars: seq<Candle>, range: OpeningRange)
    requires |bars| > 0 && MinuteOfDay(Last(bars)) >= cfg.RangeEnd() && Finalize(cfg, RangeBars(cfg, bars)) == Ok(range)
    ensures Batch(cfg, bars) == BatchAfterRange(cfg, range, bars)
  {
    hide Finalize, BatchAfterRange, RangeBars;
  }

  lemma BatchStepSession(cfg: Config, bars: seq<Candle>, c: Candle)
    requires OneSession(bars + [c])
    ensures Step(cfg, Batch(cfg, bars), c).0 == Batch(cfg, bars + [c])
  {
    var all := bars + [c];
    SnocFront(bars, c);
    EarlierMinutes(bars, c);
    assert c.closed by {
      assert all[|bars|] == c;
    }
    hide Step, Batch, Finalize, BatchAfterRange, OneSession;
    if |bars| == 0 || MinuteOfDay(Last(bars)) < cfg.RangeEnd() {
      BatchBeforeRange(cfg, bars);
      if PastRange(cfg, c) {
        FirstBarAfterRange(cfg, bars, c);
      } else {
        BarInWindow(cfg, bars, c);
      }
    } else {
      SelectSnoc(cfg, bars, c);
      match Finalize(cfg, RangeBars(cfg, bars))
      case Err(_) => NoRangeNoSession(cfg, bars, c);
      case Ok(range) =>
        BarAfterRange(cfg, range, bars, c);
        BatchWithRange(cfg, bars, range);
        BatchWithRange(cfg, all, range);
    }
  }

  /** Streaming equals batch: the object fed a session minute by minute ends in exactly the
      state one evaluation of the whole session gives. */
  lemma {:induction false} SessionEqualsBatch(cfg: Config, bars: seq<Candle>)
    requires OneSession(bars)
    ensures Run(cfg, bars) == Batch(cfg, bars)
    decreases |bars|
  {
    if |bars| > 0 {
      assert bars == Front(bars) + [Last(bars)];
      PrefixOneSession(bars);
      SessionEqualsBatch(cfg, Front(bars));
      BatchStepSession(cfg, Front(bars), Last(bars));
    }
  }

  // ---------------------------------------------------------------- what a session promises

  /** The recorded confirmation is the first five-minute candle, among those of the bars
      after the range and before the cutoff, that closes above the range high. */
  lemma ConfirmationIsFirstBreakout(cfg: Config, bars: seq<Candle>) returns (n: nat)
    requires OneSession(bars) && cfg.longEnabled && Run(cfg, bars).range.Some?
    ensures var (r, candles) := (Run(cfg, bars), Windows(PostBars(cfg, bars), 5));
            && candles == Aggregate(PostBars(cfg, bars), 5)
            && n <= |candles| && (forall i :: 0 <= i < n ==> candles[i].close <= r.range.value.high)
            && (n < |candles| <==> r.confirmation.Some?)
            && (n < |candles| ==>
                  && candles[n].close > r.range.value.high
                  && r.confirmation.value == Confirmation(candles[n], r.range.value.high, r.range.value.low, candles[n].end))
  {
    SessionEqualsBatch(cfg, bars);
    PostBarsOrdered(cfg, bars);
    OrderedIsRising(PostBars(cfg, bars), 5);
    StreamingEqualsBatch(PostBars(cfg, bars), 5);
    n := FirstAboveExactly(Aggregate(PostBars(cfg, bars), 5), Run(cfg, bars).range.value.high);
  }

  /** A session has a range exactly when a bar past the opening window has arrived and the
      window held one valid bar for each of its minutes, wide enough and not too wide. */
  lemma RangeExactly(cfg: Config, bars: seq<Candle>)
    requires OneSession(bars)
    ensures var opening := RangeBars(cfg, bars);
            Run(cfg, bars).range.Some? <==>
              && |bars| > 0 && MinuteOfDay(Last(bars)) >= cfg.RangeEnd()
              && |opening| == cfg.rangeMinutes
              && (forall i :: 0 <= i < |opening| ==> MinuteOfDay(opening[i]) == cfg.open + i)
              && High(opening) > Low(opening)
              && cfg.minWidth <= Width(opening) <= cfg.maxWidth
  {
    SessionEqualsBatch(cfg, bars);
    var opening := RangeBars(cfg, bars);
    if |opening| == cfg.rangeMinutes && (forall i :: 0 <= i < |opening| ==> MinuteOfDay(opening[i]) == cfg.open + i) {
      assert Minutes(opening) == Range(cfg.open, cfg.rangeMinutes);
    }
    if |opening| > cfg.rangeMinutes && |bars| > 0 {
      TooManyOpeningBars(cfg, bars);
    }
  }

  function Width(g: seq<Candle>): real
    requires |g| > 0
  {
    if Low(g) > 0.0 then (High(g) - Low(g)) / Low(g) else 0.0
  }

  lemma TooManyOpeningBars(cfg: Config, bars: seq<Candle>)
    ensures |RangeBars(cfg, bars)| != cfg.rangeMinutes ==> Finalize(cfg, RangeBars(cfg, bars)).Err?
  {
    var opening := RangeBars(cfg, bars);
    assert |Minutes(opening)| == |opening| && |Range(cfg.open, cfg.rangeMinutes)| == cfg.rangeMinutes;
  }

  /** Range high and low are extrema of the opening minutes: bounds that are attained. */
  lemma RangeIsExtrema(cfg: Config, bars: seq<Candle>) returns (hi: nat, lo: nat)
    requires OneSession(bars) && Run(cfg, bars).range.Some?
    ensures var (opening, range) := (RangeBars(cfg, bars), Run(cfg, bars).range.value);
            && hi < |opening| && lo < |opening|
            && opening[hi].high == range.high && opening[lo].low == range.low
            && forall i :: 0 <= i < |opening| ==> range.low <= opening[i].low && opening[i].high <= range.high
  {
    SessionEqualsBatch(cfg, bars);
    hi, lo := ExtremaAreAttained(RangeBars(cfg, bars));
  }

  /** One more bar of a time-ordered session never moves the state backward. */
  lemma ForwardOnly(cfg: Config, bars: seq<Candle>, c: Candle)
    requires OneSession(bars + [c])
    ensures Rank(Run(cfg, bars + [c]).state) >= Rank(Run(cfg, bars).state)
  {
    SnocFront(bars, c);
    EarlierMinutes(bars, c);
    SessionEqualsBatch(cfg, bars);
    AtMostOneSetup(cfg, bars);
    BackwardExactly(cfg, Run(cfg, bars), c);
  }

  lemma SignalOf(cfg: Config, post: seq<Candle>, range: OpeningRange, confirmation: Confirmation)
    requires OneSession(post) && Detect(cfg, post, range, confirmation).Some?
    ensures |post| > 0 && Last(post).start >= confirmation.at && Last(post).close > range.high
    ensures Detect(cfg, post, range, confirmation).value.detectedAt == Last(post).end
    ensures Detect(cfg, post, range, confirmation).value.confirmation == confirmation
  {
    if DetectModelB(cfg, post, range, confirmation).Some? {
      var i :| 0 <= i < |post| - 1 && i < |post| && Retest(cfg, post[i], range, confirmation);
      assert post[i].start < post[|post| - 1].start;
    }
  }

  /** Bar `n` is the one that armed `setup`. */
  ghost predicate ArmedAt(cfg: Config, range: OpeningRange, post: seq<Candle>, n: int, setup: Setup) {
    && 0 <= n < |post| && FirstSetup(cfg, range, post[..n]).None? && FirstSetup(cfg, range, post[..n + 1]) == Some(setup)
    && setup.detectedAt == post[n].end && post[n].close > range.high && post[n].start >= setup.confirmation.at
  }

  lemma ArmedInLonger(cfg: Config, range: OpeningRange, front: seq<Candle>, post: seq<Candle>, n: int, setup: Setup)
    requires front <= post && ArmedAt(cfg, range, front, n, setup)
    ensures ArmedAt(cfg, range, post, n, setup)
  {
    assert front[..n] == post[..n] && front[..n + 1] == post[..n + 1];
  }

  /** A setup is armed on the first bar on which an entry shows, after the confirming candle
      has ended, closing above the range. */
  lemma {:induction false} SignalBar(cfg: Config, range: OpeningRange, post: seq<Candle>, setup: Setup) returns (n: int)
    requires OneSession(post) && FirstSetup(cfg, range, post) == Some(setup)
    ensures ArmedAt(cfg, range, post, n, setup)
    decreases |post|
  {
    hide Confirm, Detect, TimeOrdered;
    var front := Front(post);
    assert post[..|front|] == front && post[..|post|] == post;
    PrefixOneSession(post);
    if FirstSetup(cfg, range, front).Some? {
      n := SignalBar(cfg, range, front, setup);
      ArmedInLonger(cfg, range, front, post, n, setup);
    } else {
      n := |front|;
      SignalOf(cfg, post, range, Confirm(cfg, range, post).value);
    }
  }

  /** A setup is armed before the cutoff, on a bar that starts no earlier than the
      confirming candle's end and closes above the range high. */
  lemma ArmedAfterConfirmation(cfg: Config, bars: seq<Candle>) returns (signal: Candle)
    requires OneSession(bars) && Run(cfg, bars).setup.Some?
    ensures signal in bars && cfg.RangeEnd() <= MinuteOfDay(signal) < cfg.cutoff
    ensures var r := Run(cfg, bars);
            && r.range.Some? && r.confirmation == Some(r.setup.value.confirmation)
            && signal.start >= r.confirmation.value.at && signal.close > r.range.value.high
            && signal.end == r.setup.value.detectedAt && GoodSetup(cfg, r.setup.value)
  {
    SessionEqualsBatch(cfg, bars);
    AtMostOneSetup(cfg, bars);
    PostBarsOrdered(cfg, bars);
    FiltersSelect(cfg, bars);
    var post := PostBars(cfg, bars);
    var setup := Run(cfg, bars).setup.value;
    SessionIsTimeOrdered(post);
    SetupNeedsConfirmation(cfg, Run(cfg, bars).range.value, post);
    var n := SignalBar(cfg, Run(cfg, bars).range.value, post, setup);
    signal := post[n];
    assert signal in post;
  }

  /** Bars still forming change nothing, so a run is that of its closed bars. */
  lemma {:induction false} FormingBarsChangeNothing(cfg: Config, feed: seq<Candle>)
    ensures Run(cfg, feed) == Run(cfg, ClosedOnly(feed))
    ensures ArmedSetups(cfg, feed) == ArmedSetups(cfg, ClosedOnly(feed))
    decreases |feed|
  {
    if |feed| > 0 {
      FormingBarsChangeNothing(cfg, Front(feed));
      if Last(feed).closed {
        SnocFront(ClosedOnly(Front(feed)), Last(feed));
      }
    }
  }
}
