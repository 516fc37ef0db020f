/**
 * Sliding-window pressure detector with hysteresis (messageInsertLockPressure.ts): recent lock waits and lock
 * timeouts decide whether read receipts are shed.
 */
module LockPressure {
  import opened Basics

  datatype Sample = Sample(t: int, waitMs: int)

  const MAX_SAMPLES: nat := 512
  const MAX_TIMEOUT_MARKERS: nat := 128
  const TAIL_TRIGGER_MS := 380
  const TAIL_CLEAR_MS := 340
  const MIN_TAIL_SAMPLES := 4

  datatype Settings = Settings(windowMs: int, triggerP95: int, clearP95: int, minSamples: int, cooldownMs: int)

  function ReadSettings(window: Option<int>, p95: Option<int>, minSamples: Option<int>, cooldown: Option<int>,
                        recover: Option<int>): Settings
  {
    var trigger := ParseIntEnv(p95, 320, 200, 500);
    var clear := match recover
      case None => Max(120, trigger - 80)
      case Some(v) => Min(trigger, Max(80, v));
    Settings(ParseIntEnv(window, 30000, 5000, 120000), trigger, clear, ParseIntEnv(minSamples, 6, 1, 100),
             ParseIntEnv(cooldown, 3000, 500, 15000))
  }

  predicate Sane(cfg: Settings) {
    cfg.windowMs >= 0 && cfg.clearP95 <= cfg.triggerP95 && cfg.cooldownMs > 0 && cfg.minSamples >= 1
  }

  /** The settings of an empty environment. */
  lemma DefaultSettings()
    ensures ReadSettings(None, None, None, None, None) == Settings(30000, 320, 240, 6, 3000)
  {}

  /** Whatever the environment holds, the clear level never exceeds the trigger level; values in range are kept. */
  lemma SettingsAreSane(window: Option<int>, p95: Option<int>, minSamples: Option<int>, cooldown: Option<int>,
                        recover: Option<int>)
    ensures var cfg := ReadSettings(window, p95, minSamples, cooldown, recover);
            && Sane(cfg) && 80 <= cfg.clearP95 <= cfg.triggerP95 <= 500
            && 5000 <= cfg.windowMs <= 120000 && 1 <= cfg.minSamples <= 100 && 500 <= cfg.cooldownMs <= 15000
            && (window.Some? && 5000 <= window.value <= 120000 ==> cfg.windowMs == window.value)
            && (p95.Some? && 200 <= p95.value <= 500 ==> cfg.triggerP95 == p95.value)
            && (recover.Some? && 80 <= recover.value <= cfg.triggerP95 ==> cfg.clearP95 == recover.value)
            && (recover.None? ==> cfg.clearP95 == cfg.triggerP95 - 80)
            && (minSamples.Some? && 1 <= minSamples.value <= 100 ==> cfg.minSamples == minSamples.value)
            && (cooldown.Some? && 500 <= cooldown.value <= 15000 ==> cfg.cooldownMs == cooldown.value)
  {}

  // ---- Nearest-rank percentile ------------------------------------------------------------------------

  predicate IntLe(a: int, b: int) { a <= b }

  /** percentile95: rank ceil(0.95 n) of the sorted values, clamped into range; 0 for no values. */
  function Percentile95(values: seq<int>): int {
    var n := |values|;
    if n == 0 then 0
    else
      var sorted := Sort(values, IntLe);
      SortIsSortedPermutation(values, IntLe);
      sorted[NearestRank(n)]
  }

  /** The index `ceil(0.95 n) - 1`, clamped into range. */
  function NearestRank(n: nat): (i: nat)
    requires n >= 1
    ensures i < n && 20 * (i + 1) >= 19 * n && 20 * i < 19 * n
  {
    Max(0, Min(n - 1, (19 * n + 19) / 20 - 1))
  }

  function CountLe(s: seq<int>, x: int): nat {
    if s == [] then 0 else (if s[0] <= x then 1 else 0) + CountLe(s[1..], x)
  }

  lemma {:induction false} CountLeInsert(x: int, s: seq<int>, y: int)
    ensures CountLe(InsertSorted(x, s, IntLe), y) == CountLe(s, y) + if x <= y then 1 else 0
  {
    if s != [] && s[0] < x {
      CountLeInsert(x, s[1..], y);
    } else {
      assert ([x] + s)[1..] == s;
    }
  }

  lemma {:induction false} CountLeSort(s: seq<int>, y: int)
    ensures CountLe(Sort(s, IntLe), y) == CountLe(s, y)
  {
    if s == [] {
    } else {
      CountLeSort(s[1..], y);
      CountLeInsert(s[0], Sort(s[1..], IntLe), y);
    }
  }

  lemma {:induction false} CountLeSorted(s: seq<int>, i: nat, w: int)
    requires SortedBy(s, IntLe) && i < |s|
    ensures CountLe(s, s[i]) >= i + 1
    ensures w < s[i] ==> CountLe(s, w) <= i
  {
    if i > 0 {
      assert SortedBy(s[1..], IntLe);
      CountLeSorted(s[1..], i - 1, w);
      assert IntLe(s[0], s[i]);
    } else {
      if w < s[0] { CountLeNone(s, w); }
    }
  }

  lemma {:induction false} CountLeNone(s: seq<int>, w: int)
    requires forall i :: 0 <= i < |s| ==> w < s[i]
    ensures CountLe(s, w) == 0
  {
    if s == [] {
    } else {
      CountLeNone(s[1..], w);
    }
  }

  /** The result is a sample that at least 95% of the samples do not exceed, and the least such sample. */
  lemma Percentile95IsNearestRank(values: seq<int>)
    requires values != []
    ensures var p := Percentile95(values);
            && p in values && 20 * CountLe(values, p) >= 19 * |values|
            && (forall w <- values :: w < p ==> 20 * CountLe(values, w) < 19 * |values|)
  {
    var n := |values|;
    SortIsSortedPermutation(values, IntLe);
    var sorted := Sort(values, IntLe);
    var i := NearestRank(n);
    assert sorted[i] in multiset(sorted);
    CountLeSort(values, sorted[i]);
    CountLeSorted(sorted, i, sorted[i]);
    hide Sort, CountLe, NearestRank;
    forall w <- values | w < sorted[i] ensures 20 * CountLe(values, w) < 19 * n {
      CountLeSort(values, w);
      CountLeSorted(sorted, i, w);
    }
  }

  lemma {:induction false} CountLeMonotone(s: seq<int>, x: int, y: int)
    requires x <= y
    ensures CountLe(s, x) <= CountLe(s, y) <= |s|
  {
    if s == [] {
    } else {
      CountLeMonotone(s[1..], x, y);
    }
  }

  /** The percentile passes a level exactly when fewer than 95% of the samples stay within it. */
  lemma PercentileAbove(values: seq<int>, level: int)
    requires values != []
    ensures Percentile95(values) > level <==> 20 * CountLe(values, level) < 19 * |values|
  {
    var n := |values|;
    SortIsSortedPermutation(values, IntLe);
    var sorted := Sort(values, IntLe);
    var i := NearestRank(n);
    CountLeSort(values, level);
    CountLeSort(values, sorted[i]);
    CountLeSorted(sorted, i, level);
    hide Sort, NearestRank;
    if sorted[i] <= level { CountLeMonotone(values, sorted[i], level); }
    hide CountLe;
  }

  // ---- Windows ----------------------------------------------------------------------------------------

  function SampleTime(s: Sample): int { s.t }

  function MarkerTime(t: int): int { t }

  /** Drop the leading elements older than the cutoff. */
  function DropOld<T>(s: seq<T>, time: T -> int, cutoff: int): seq<T> {
    if s != [] && time(s[0]) < cutoff then DropOld(s[1..], time, cutoff) else s
  }

  function LastN<T>(s: seq<T>, n: nat): seq<T> {
    if |s| <= n then s else s[|s| - n..]
  }

  ghost predicate InOrder<T>(s: seq<T>, time: T -> int) {
    forall i, j :: 0 <= i < j < |s| ==> time(s[i]) <= time(s[j])
  }

  /** In a chronological sequence the elements inside the window are what remains after dropping old ones. */
  lemma {:induction false} DropOldKeepsRecent<T>(s: seq<T>, time: T -> int, cutoff: int, recent: T -> bool)
    requires InOrder(s, time) && forall x <- s :: recent(x) <==> time(x) >= cutoff
    ensures DropOld(s, time, cutoff) == Filter(s, recent)
  {
    if s == [] {
    } else {
      DropOldKeepsRecent(s[1..], time, cutoff, recent);
      if time(s[0]) >= cutoff {
        KeepAll(s, recent);
      }
    }
  }

  lemma {:induction false} KeepAll<T>(s: seq<T>, keep: T -> bool)
    requires forall i :: 0 <= i < |s| ==> keep(s[i])
    ensures Filter(s, keep) == s
  {
    if s == [] {
    } else {
      KeepAll(s[1..], keep);
      assert s == [s[0]] + s[1..];
    }
  }

  lemma {:induction false} DropOldSuffix<T>(s: seq<T>, time: T -> int, cutoff: int)
    ensures |DropOld(s, time, cutoff)| <= |s|
    ensures DropOld(s, time, cutoff) == s[|s| - |DropOld(s, time, cutoff)|..]
    ensures forall i :: 0 <= i < |s| - |DropOld(s, time, cutoff)| ==> time(s[i]) < cutoff
    ensures DropOld(s, time, cutoff) != [] ==> time(DropOld(s, time, cutoff)[0]) >= cutoff
  {
    if s != [] && time(s[0]) < cutoff {
      DropOldSuffix(s[1..], time, cutoff);
    }
  }

  /** A suffix of a chronological sequence is determined by where its first element stands to the cutoff. */
  lemma DropOldUnique<T>(s: seq<T>, time: T -> int, cutoff: int, k: nat)
    requires k <= |s| && (forall i :: 0 <= i < k ==> time(s[i]) < cutoff) && (k < |s| ==> time(s[k]) >= cutoff)
    ensures DropOld(s, time, cutoff) == s[k..]
  {
    DropOldSuffix(s, time, cutoff);
  }

  /** Recording x after pruning the kept window is the same as windowing the full history with x appended. */
  lemma WindowStep<T>(s: seq<T>, x: T, time: T -> int, n: nat, cutoff: int, cutoff': int)
    requires InOrder(s + [x], time) && cutoff <= cutoff' <= time(x) && n > 0
    ensures LastN(DropOld(LastN(DropOld(s, time, cutoff), n), time, cutoff') + [x], n)
            == LastN(DropOld(s + [x], time, cutoff'), n)
  {
    InOrderPrefix(s, x, time);
    WindowPrune(s, time, n, cutoff, cutoff');
    var d := DropOld(s, time, cutoff');
    DropOldAppend(s, x, time, cutoff');
    LastNAppend(d, x, n);
  }

  lemma InOrderPrefix<T>(s: seq<T>, x: T, time: T -> int)
    requires InOrder(s + [x], time)
    ensures InOrder(s, time)
  {
    assert forall i :: 0 <= i < |s| ==> (s + [x])[i] == s[i];
  }

  lemma DropOldAppend<T>(s: seq<T>, x: T, time: T -> int, cutoff: int)
    requires cutoff <= time(x)
    ensures DropOld(s + [x], time, cutoff) == DropOld(s, time, cutoff) + [x]
  {
    DropOldSuffix(s, time, cutoff);
    var k := |s| - |DropOld(s, time, cutoff)|;
    DropOldUnique(s + [x], time, cutoff, k);
  }

  lemma LastNAppend<T>(d: seq<T>, x: T, n: nat)
    requires n > 0
    ensures LastN(LastN(d, n) + [x], n) == LastN(d + [x], n)
  {}

  /** How many leading elements lie before the cutoff. */
  function Old<T>(s: seq<T>, time: T -> int, cutoff: int): (k: nat)
    ensures k <= |s| && DropOld(s, time, cutoff) == s[k..]
    ensures (forall i :: 0 <= i < k ==> time(s[i]) < cutoff) && (k < |s| ==> time(s[k]) >= cutoff)
  {
    DropOldSuffix(s, time, cutoff);
    |s| - |DropOld(s, time, cutoff)|
  }

  lemma OldGrows<T>(s: seq<T>, time: T -> int, cutoff: int, cutoff': int)
    requires cutoff <= cutoff'
    ensures Old(s, time, cutoff) <= Old(s, time, cutoff')
  {
    hide Old, DropOld;
  }

  lemma DropOldOfSuffix<T>(s: seq<T>, time: T -> int, cutoff: int, o: nat)
    requires InOrder(s, time) && o <= |s|
    ensures DropOld(s[o..], time, cutoff) == s[Max(o, Old(s, time, cutoff))..]
  {
    var b := Old(s, time, cutoff);
    hide Old, DropOld;
    if b >= o {
      DropOldUnique(s[o..], time, cutoff, b - o);
      assert s[o..][b - o..] == s[b..];
    } else {
      assert o < |s| ==> time(s[b]) <= time(s[o]);
      DropOldUnique(s[o..], time, cutoff, 0);
      assert s[o..][0..] == s[o..];
    }
  }

  lemma LastNOfSuffix<T>(s: seq<T>, a: nat, n: nat)
    requires a <= |s|
    ensures LastN(s[a..], n) == s[Max(a, |s| - n)..]
  {}

  /** Pruning the kept window again is the same as windowing the full history at the later cutoff. */
  lemma WindowPrune<T>(s: seq<T>, time: T -> int, n: nat, cutoff: int, cutoff': int)
    requires InOrder(s, time) && cutoff <= cutoff'
    ensures DropOld(LastN(DropOld(s, time, cutoff), n), time, cutoff') == LastN(DropOld(s, time, cutoff'), n)
  {
    var a, b := Old(s, time, cutoff), Old(s, time, cutoff');
    OldGrows(s, time, cutoff, cutoff');
    LastNOfSuffix(s, a, n);
    LastNOfSuffix(s, b, n);
    DropOldOfSuffix(s, time, cutoff', Max(a, |s| - n));
    hide Old, DropOld, LastN, InOrder;
    assert Max(Max(a, |s| - n), b) == Max(b, |s| - n);
  }

  // ---- The detector -----------------------------------------------------------------------------------

  datatype Detector = Detector(samples: seq<Sample>, timeouts: seq<int>, shedUntil: int)

  const FRESH := Detector([], [], 0)

  datatype Event = Waited(t: int, waitMs: int) | TimedOut(t: int) | Asked(t: int)

  function Waits(samples: seq<Sample>): seq<int> { seq(|samples|, i requires 0 <= i < |samples| => samples[i].waitMs) }

  predicate SomeAtLeast(waits: seq<int>, bound: int) { exists i :: 0 <= i < |waits| && waits[i] >= bound }

  predicate Pressured(cfg: Settings, waits: seq<int>, timeouts: nat) {
    || timeouts >= 1
    || (|waits| >= cfg.minSamples && Percentile95(waits) > cfg.triggerP95)
    || (|waits| >= MIN_TAIL_SAMPLES && SomeAtLeast(waits, TAIL_TRIGGER_MS))
  }

  predicate Healthy(cfg: Settings, waits: seq<int>, timeouts: nat) {
    && |waits| >= Max(MIN_TAIL_SAMPLES, cfg.minSamples) && timeouts == 0
    && Percentile95(waits) <= cfg.clearP95 && !SomeAtLeast(waits, TAIL_CLEAR_MS)
  }

  function Prune(cfg: Settings, d: Detector, now: int): Detector {
    d.(samples := DropOld(d.samples, SampleTime, now - cfg.windowMs),
       timeouts := DropOld(d.timeouts, MarkerTime, now - cfg.windowMs))
  }

  function Ask(cfg: Settings, d: Detector, now: int): (Detector, bool) {
    var p := Prune(cfg, d, now);
    var waits := Waits(p.samples);
    if Pressured(cfg, waits, |p.timeouts|) then (p.(shedUntil := Max(p.shedUntil, now + cfg.cooldownMs)), true)
    else if now < p.shedUntil then
      if Healthy(cfg, waits, |p.timeouts|) then (p.(shedUntil := 0), false) else (p, true)
    else (p, false)
  }

  function Step(cfg: Settings, d: Detector, e: Event): Detector {
    match e
    case Waited(t, w) =>
      var p := Prune(cfg, d, t);
      p.(samples := LastN(p.samples + [Sample(t, Max(0, w))], MAX_SAMPLES))
    case TimedOut(t) =>
      var p := Prune(cfg, d, t);
      p.(timeouts := LastN(p.timeouts + [t], MAX_TIMEOUT_MARKERS))
    case Asked(t) => Ask(cfg, d, t).0
  }

  function Run(cfg: Settings, events: seq<Event>): Detector {
    if events == [] then FRESH
    else Step(cfg, Run(cfg, events[..|events| - 1]), events[|events| - 1])
  }

  // ---- The same decision, read off the history alone --------------------------------------------------

  /** The clock starts at or after 0 and never goes back. */
  ghost predicate Chronological(events: seq<Event>) {
    && (forall i :: 0 <= i < |events| ==> events[i].t >= 0)
    && (forall i, j :: 0 <= i < j < |events| ==> events[i].t <= events[j].t)
  }

  function Recorded(events: seq<Event>): seq<Sample> {
    if events == [] then []
    else
      var e := events[|events| - 1];
      var before := Recorded(events[..|events| - 1]);
      if e.Waited? then before + [Sample(e.t, Max(0, e.waitMs))] else before
  }

  function Markers(events: seq<Event>): seq<int> {
    if events == [] then []
    else
      var e := events[|events| - 1];
      var before := Markers(events[..|events| - 1]);
      if e.TimedOut? then before + [e.t] else before
  }

  function SampledSince(cutoff: int): Sample -> bool { (s: Sample) => s.t >= cutoff }

  function MarkedSince(cutoff: int): int -> bool { (t: int) => t >= cutoff }

  /** The last 512 recorded waits inside the window that ends at now. */
  function WindowWaits(cfg: Settings, events: seq<Event>, now: int): seq<Sample> {
    var w := Filter(Recorded(events), SampledSince(now - cfg.windowMs));
    if |w| <= 512 then w else w[|w| - 512..]
  }

  /** The last 128 recorded timeouts inside the window that ends at now. */
  function WindowTimeouts(cfg: Settings, events: seq<Event>, now: int): seq<int> {
    var w := Filter(Markers(events), MarkedSince(now - cfg.windowMs));
    if |w| <= 128 then w else w[|w| - 128..]
  }

  function WaitsAt(cfg: Settings, events: seq<Event>, now: int): seq<int> {
    var w := WindowWaits(cfg, events, now);
    seq(|w|, i requires 0 <= i < |w| => w[i].waitMs)
  }

  /**
   * A timeout in the window, or enough waits of which fewer than 95% stay within the trigger level, or at least four
   * waits with one of 380 ms or more.
   */
  predicate Triggers(cfg: Settings, events: seq<Event>, now: int) {
    var waits := WaitsAt(cfg, events, now);
    || WindowTimeouts(cfg, events, now) != []
    || (|waits| >= cfg.minSamples && 20 * CountLe(waits, cfg.triggerP95) < 19 * |waits|)
    || (|waits| >= 4 && exists i :: 0 <= i < |waits| && waits[i] >= 380)
  }

  /** No timeout in the window, and enough waits, at least 95% of them within the clear level and all below 340 ms. */
  predicate Clears(cfg: Settings, events: seq<Event>, now: int) {
    var waits := WaitsAt(cfg, events, now);
    && WindowTimeouts(cfg, events, now) == [] && |waits| >= 4 && |waits| >= cfg.minSamples
    && 20 * CountLe(waits, cfg.clearP95) >= 19 * |waits|
    && (forall i :: 0 <= i < |waits| ==> waits[i] < 340)
  }

  /** The i-th event was a question that triggered less than one cooldown before now. */
  predicate TriggeredAt(cfg: Settings, events: seq<Event>, i: nat, now: int)
    requires i < |events|
  {
    events[i].Asked? && Triggers(cfg, events[..i], events[i].t) && now < events[i].t + cfg.cooldownMs
  }

  predicate ClearedAt(cfg: Settings, events: seq<Event>, j: nat)
    requires j < |events|
  {
    events[j].Asked? && Clears(cfg, events[..j], events[j].t)
  }

  /** Some trigger less than one cooldown ago has had no healthy clear since. */
  ghost predicate CoolingDown(cfg: Settings, events: seq<Event>, now: int) {
    exists i :: 0 <= i < |events| && TriggeredAt(cfg, events, i, now)
                && forall j :: i < j < |events| ==> !ClearedAt(cfg, events, j)
  }

  ghost predicate ShouldShed(cfg: Settings, events: seq<Event>, now: int) {
    Triggers(cfg, events, now) || (CoolingDown(cfg, events, now) && !Clears(cfg, events, now))
  }

  // ---- Agreement --------------------------------------------------------------------------------------

  function LastTime(events: seq<Event>): int { if events == [] then 0 else events[|events| - 1].t }

  lemma {:induction false} HistoryInOrder(events: seq<Event>)
    requires Chronological(events)
    ensures InOrder(Recorded(events), SampleTime) && InOrder(Markers(events), MarkerTime)
    ensures forall i :: 0 <= i < |Recorded(events)| ==> Recorded(events)[i].t <= LastTime(events)
    ensures forall i :: 0 <= i < |Markers(events)| ==> Markers(events)[i] <= LastTime(events)
  {
    if events == [] {
    } else {
      HistoryInOrder(events[..|events| - 1]);
    }
  }

  ghost predicate ArraysMatch(cfg: Settings, d: Detector, events: seq<Event>, now: int) {
    && d.samples == LastN(DropOld(Recorded(events), SampleTime, now - cfg.windowMs), MAX_SAMPLES)
    && d.timeouts == LastN(DropOld(Markers(events), MarkerTime, now - cfg.windowMs), MAX_TIMEOUT_MARKERS)
  }

  lemma PruneMatches(cfg: Settings, d: Detector, events: seq<Event>, since: int, now: int)
    requires InOrder(Recorded(events), SampleTime) && InOrder(Markers(events), MarkerTime)
    requires ArraysMatch(cfg, d, events, since) && since <= now
    ensures ArraysMatch(cfg, Prune(cfg, d, now), events, now)
  {
    WindowPrune(Recorded(events), SampleTime, MAX_SAMPLES, since - cfg.windowMs, now - cfg.windowMs);
    WindowPrune(Markers(events), MarkerTime, MAX_TIMEOUT_MARKERS, since - cfg.windowMs, now - cfg.windowMs);
  }

  lemma RecordMatches(cfg: Settings, d: Detector, before: seq<Event>, since: int, e: Event)
    requires cfg.windowMs >= 0 && ArraysMatch(cfg, d, before, since) && since <= e.t && !e.Asked?
    requires InOrder(Recorded(before), SampleTime) && InOrder(Markers(before), MarkerTime)
    requires InOrder(Recorded(before + [e]), SampleTime) && InOrder(Markers(before + [e]), MarkerTime)
    ensures ArraysMatch(cfg, Step(cfg, d, e), before + [e], e.t)
  {
    PruneMatches(cfg, d, before, since, e.t);
    assert (before + [e])[..|before|] == before;
    var from, cut := since - cfg.windowMs, e.t - cfg.windowMs;
    match e
    case Waited(t, w) => WindowStep(Recorded(before), Sample(t, Max(0, w)), SampleTime, MAX_SAMPLES, from, cut);
    case TimedOut(t) => WindowStep(Markers(before), t, MarkerTime, MAX_TIMEOUT_MARKERS, from, cut);
  }

  /** What the arrays match is the windows. */
  lemma MatchedAreWindows(cfg: Settings, d: Detector, events: seq<Event>, now: int)
    requires InOrder(Recorded(events), SampleTime) && InOrder(Markers(events), MarkerTime)
    requires ArraysMatch(cfg, d, events, now)
    ensures d.samples == WindowWaits(cfg, events, now) && d.timeouts == WindowTimeouts(cfg, events, now)
  {
    var cut := now - cfg.windowMs;
    DropOldKeepsRecent(Recorded(events), SampleTime, cut, SampledSince(cut));
    DropOldKeepsRecent(Markers(events), MarkerTime, cut, MarkedSince(cut));
    hide Filter, DropOld, Recorded, Markers, InOrder;
  }

  lemma AskOnlyPrunes(cfg: Settings, d: Detector, now: int)
    ensures var p := Prune(cfg, d, now);
            Ask(cfg, d, now).0.samples == p.samples && Ask(cfg, d, now).0.timeouts == p.timeouts
  {}

  lemma {:induction false} ArraysAlwaysMatch(cfg: Settings, events: seq<Event>)
    requires Chronological(events) && cfg.windowMs >= 0
    ensures ArraysMatch(cfg, Run(cfg, events), events, LastTime(events))
  {
    if events == [] {
    } else {
      hide Ask, Prune;
      var before := events[..|events| - 1];
      var e := events[|events| - 1];
      assert events == before + [e];
      ArraysAlwaysMatch(cfg, before);
      HistoryInOrder(before);
      HistoryInOrder(events);
      if e.Asked? {
        PruneMatches(cfg, Run(cfg, before), before, LastTime(before), e.t);
        AskOnlyPrunes(cfg, Run(cfg, before), e.t);
      } else {
        RecordMatches(cfg, Run(cfg, before), before, LastTime(before), e);
      }
    }
  }

  /** The two arrays hold exactly the last recorded entries inside the window of the latest event. */
  lemma ArraysAreWindows(cfg: Settings, events: seq<Event>)
    requires Chronological(events) && cfg.windowMs >= 0
    ensures Run(cfg, events).samples == WindowWaits(cfg, events, LastTime(events))
    ensures Run(cfg, events).timeouts == WindowTimeouts(cfg, events, LastTime(events))
  {
    ArraysAlwaysMatch(cfg, events);
    HistoryInOrder(events);
    MatchedAreWindows(cfg, Run(cfg, events), events, LastTime(events));
  }

  /** After pruning at a later time the arrays are the windows of that time. */
  lemma PrunedAreWindows(cfg: Settings, events: seq<Event>, now: int)
    requires Chronological(events) && cfg.windowMs >= 0 && LastTime(events) <= now
    ensures var p := Prune(cfg, Run(cfg, events), now);
            Waits(p.samples) == WaitsAt(cfg, events, now) && p.timeouts == WindowTimeouts(cfg, events, now)
  {
    ArraysAlwaysMatch(cfg, events);
    HistoryInOrder(events);
    PruneMatches(cfg, Run(cfg, events), events, LastTime(events), now);
    MatchedAreWindows(cfg, Prune(cfg, Run(cfg, events), now), events, now);
    hide Run, Prune, WindowWaits, WindowTimeouts, ArraysMatch;
  }

  /** The two tests of a call mean what the history definitions say. */
  lemma TestsMatchHistory(cfg: Settings, events: seq<Event>, now: int)
    requires Chronological(events) && Sane(cfg) && LastTime(events) <= now
    ensures var p := Prune(cfg, Run(cfg, events), now);
            && (Pressured(cfg, Waits(p.samples), |p.timeouts|) <==> Triggers(cfg, events, now))
            && (Healthy(cfg, Waits(p.samples), |p.timeouts|) <==> Clears(cfg, events, now))
            && !(Triggers(cfg, events, now) && Clears(cfg, events, now))
  {
    PrunedAreWindows(cfg, events, now);
    var waits := WaitsAt(cfg, events, now);
    hide Prune, Run, WaitsAt, WindowTimeouts, Percentile95, CountLe;
    if waits != [] {
      PercentileAbove(waits, cfg.triggerP95);
      PercentileAbove(waits, cfg.clearP95);
      CountLeMonotone(waits, cfg.clearP95, cfg.triggerP95);
    }
  }

  lemma PrefixAgrees(cfg: Settings, events: seq<Event>, n: nat, i: nat, now: int)
    requires i < n < |events|
    ensures TriggeredAt(cfg, events, i, now) == TriggeredAt(cfg, events[..n], i, now)
    ensures ClearedAt(cfg, events, i) == ClearedAt(cfg, events[..n], i)
  {
    assert events[..i] == events[..n][..i];
  }

  lemma CoolingDownStep(cfg: Settings, events: seq<Event>, now: int)
    requires events != []
    ensures var n := |events| - 1;
            CoolingDown(cfg, events, now) <==>
            (TriggeredAt(cfg, events, n, now) || (CoolingDown(cfg, events[..n], now) && !ClearedAt(cfg, events, n)))
  {
    hide TriggeredAt, ClearedAt;
    var n := |events| - 1;
    var before := events[..n];
    forall i | 0 <= i < n
      ensures TriggeredAt(cfg, events, i, now) == TriggeredAt(cfg, before, i, now)
      ensures ClearedAt(cfg, events, i) == ClearedAt(cfg, before, i)
    {
      PrefixAgrees(cfg, events, n, i, now);
    }
    if CoolingDown(cfg, before, now) && !ClearedAt(cfg, events, n) {
      var i :| 0 <= i < n && TriggeredAt(cfg, before, i, now) && forall j :: i < j < n ==> !ClearedAt(cfg, before, j);
      assert TriggeredAt(cfg, events, i, now);
    }
    if TriggeredAt(cfg, events, n, now) {
      assert CoolingDown(cfg, events, now);
    }
    if CoolingDown(cfg, events, now) && !TriggeredAt(cfg, events, n, now) {
      var i :| 0 <= i < n + 1 && TriggeredAt(cfg, events, i, now)
               && forall j :: i < j < n + 1 ==> !ClearedAt(cfg, events, j);
      assert TriggeredAt(cfg, before, i, now);
    }
  }

  /** readShedActiveUntilMs lies in the future exactly while some uncleared trigger is cooling down. */
  lemma {:induction false} ShedUntilIsCoolingDown(cfg: Settings, events: seq<Event>, now: int)
    requires Chronological(events) && Sane(cfg) && LastTime(events) <= now && 0 <= now
    ensures now < Run(cfg, events).shedUntil <==> CoolingDown(cfg, events, now)
  {
    if events == [] {
    } else {
      var n := |events| - 1;
      var before := events[..n];
      var e := events[n];
      assert LastTime(before) <= e.t;
      ShedUntilIsCoolingDown(cfg, before, now);
      CoolingDownStep(cfg, events, now);
      if e.Asked? {
        TestsMatchHistory(cfg, before, e.t);
        hide Pressured, Healthy, Triggers, Clears, Prune;
      }
    }
  }

  /** A call answers true exactly as the history definition says. */
  lemma DecisionMatchesHistory(cfg: Settings, events: seq<Event>, now: int)
    requires Chronological(events) && Sane(cfg) && LastTime(events) <= now && 0 <= now
    ensures Ask(cfg, Run(cfg, events), now).1 <==> ShouldShed(cfg, events, now)
  {
    TestsMatchHistory(cfg, events, now);
    ShedUntilIsCoolingDown(cfg, events, now);
    hide Pressured, Healthy, Triggers, Clears, Prune;
  }

  /** Never false while a recorded timeout is still inside the window. */
  lemma TimeoutForcesShedding(cfg: Settings, events: seq<Event>, now: int, i: nat)
    requires Chronological(events) && Sane(cfg) && LastTime(events) <= now && 0 <= now
    requires i < |Markers(events)| && Markers(events)[i] >= now - cfg.windowMs
    ensures Ask(cfg, Run(cfg, events), now).1
  {
    hide Ask, Run, Filter, CoolingDown, Clears, WaitsAt, Recorded, CountLe;
    DecisionMatchesHistory(cfg, events, now);
    FilterMembers(Markers(events), MarkedSince(now - cfg.windowMs));
    assert Markers(events)[i] in Markers(events);
  }

  // ---- The module state -------------------------------------------------------------------------------

  class PressureDetector {
    const cfg: Settings
    var acquireSamples: seq<Sample>
    var timeoutTimestamps: seq<int>
    var readShedActiveUntilMs: int

    ghost function View(): Detector
      reads this
    {
      Detector(acquireSamples, timeoutTimestamps, readShedActiveUntilMs)
    }

    constructor (cfg: Settings)
      ensures this.cfg == cfg && View() == FRESH
    {
      this.cfg := cfg;
      acquireSamples, timeoutTimestamps, readShedActiveUntilMs := [], [], 0;
    }

    method PruneAt(now: int)
      modifies this`acquireSamples, this`timeoutTimestamps
      ensures View() == Prune(cfg, old(View()), now)
    {
      var cutoff := now - cfg.windowMs;
      var i := 0;
      while i < |acquireSamples| && acquireSamples[i].t < cutoff
        invariant i <= |acquireSamples|
        invariant forall k :: 0 <= k < i ==> acquireSamples[k].t < cutoff
      {
        i := i + 1;
      }
      DropOldUnique(acquireSamples, SampleTime, cutoff, i);
      if i > 0 {
        acquireSamples := acquireSamples[i..];
      }
      var j := 0;
      while j < |timeoutTimestamps| && timeoutTimestamps[j] < cutoff
        invariant j <= |timeoutTimestamps|
        invariant forall k :: 0 <= k < j ==> timeoutTimestamps[k] < cutoff
      {
        j := j + 1;
      }
      DropOldUnique(timeoutTimestamps, MarkerTime, cutoff, j);
      if j > 0 {
        timeoutTimestamps := timeoutTimestamps[j..];
      }
    }

    method RecordAcquireWait(now: int, waitMs: int)
      modifies this`acquireSamples, this`timeoutTimestamps
      ensures View() == Step(cfg, old(View()), Waited(now, waitMs))
    {
      PruneAt(now);
      acquireSamples := acquireSamples + [Sample(now, Max(0, waitMs))];
      if |acquireSamples| > MAX_SAMPLES {
        acquireSamples := acquireSamples[|acquireSamples| - MAX_SAMPLES..];
      }
    }

    method RecordTimeout(now: int)
      modifies this`acquireSamples, this`timeoutTimestamps
      ensures View() == Step(cfg, old(View()), TimedOut(now))
    {
      PruneAt(now);
      timeoutTimestamps := timeoutTimestamps + [now];
      if |timeoutTimestamps| > MAX_TIMEOUT_MARKERS {
        timeoutTimestamps := timeoutTimestamps[|timeoutTimestamps| - MAX_TIMEOUT_MARKERS..];
      }
    }

    /** Recording, pruning and asking leave the history decision readable from the three fields. */
    method ShouldDefer(now: int) returns (defer: bool)
      modifies this
      ensures (View(), defer) == Ask(cfg, old(View()), now)
    {
      PruneAt(now);
      var waits := Waits(acquireSamples);
      var p95 := Percentile95(waits);
      var recentTimeouts := |timeoutTimestamps|;
      var hasTimeoutPressure := recentTimeouts >= 1;
      var hasP95Pressure := |waits| >= cfg.minSamples && p95 > cfg.triggerP95;
      var hasTailPressure := |waits| >= MIN_TAIL_SAMPLES && SomeAtLeast(waits, TAIL_TRIGGER_MS);
      if hasTimeoutPressure || hasP95Pressure || hasTailPressure {
        readShedActiveUntilMs := Max(readShedActiveUntilMs, now + cfg.cooldownMs);
        return true;
      }
      if now < readShedActiveUntilMs {
        var hasHealthyWindow :=
          && |waits| >= Max(MIN_TAIL_SAMPLES, cfg.minSamples) && recentTimeouts == 0
          && p95 <= cfg.clearP95 && !SomeAtLeast(waits, TAIL_CLEAR_MS);
        if hasHealthyWindow {
          readShedActiveUntilMs := 0;
          return false;
        }
        return true;
      }
      return false;
    }
  }
}
