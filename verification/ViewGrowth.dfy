/**
 The view-growth ledger: a view of a video adds a random increment, under a cap per video and hour, a
 ramp since the video's last growth, and at most one event per viewer and window.
 */
module ViewGrowth {
  import opened Wrappers

  type VideoId = nat
  type ViewerHash = nat
  type Time = int

  const HOUR := 3_600_000
  const MINUTE := 60_000

  datatype Config = Config(enabled: bool, maxPerEvent: nat, maxPerVideoHour: nat, windowMinutes: nat, randomMin: nat)
  {
    /** Every setting is parsed as a positive integer. */
    predicate Valid() { maxPerEvent > 0 && maxPerVideoHour > 0 && windowMinutes > 0 && randomMin > 0 }
  }

  datatype GrowthEvent = GrowthEvent(videoId: VideoId, viewer: ViewerHash, windowStart: Time, increment: nat,
                                     createdAt: Time)

  /** `baselines` is history: what each counter would be without the ledger. */
  datatype Ledger = Ledger(
    events: seq<GrowthEvent>,
    buckets: map<(VideoId, Time), nat>,
    viewCounts: map<VideoId, int>,
    baselines: map<VideoId, int>)

  // ---------------------------------------------------------------- pure parts

  function Floor(t: Time, step: nat): Time
    requires step > 0
  {
    t / step * step
  }

  function FloorToWindow(t: Time, config: Config): Time
    requires config.Valid()
  {
    Floor(t, config.windowMinutes * MINUTE)
  }

  function FloorToHour(t: Time): Time {
    Floor(t, HOUR)
  }

  function Min(a: int, b: int): int { if a < b then a else b }

  /** The ramp: how much one event may add, by the time since the video last grew. */
  function TimeBasedMax(latest: Option<Time>, now: Time, absoluteMax: nat): nat {
    if latest.None? then absoluteMax
    else
      var elapsed := now - latest.value;
      if elapsed < 5 * MINUTE then Min(absoluteMax, 10)
      else if elapsed < 15 * MINUTE then Min(absoluteMax, 30)
      else if elapsed < 30 * MINUTE then Min(absoluteMax, 75)
      else absoluteMax
  }

  /** `draw` is the random number: `randomInt(min, max + 1)` lies between the two. */
  function PickIncrement(randomMin: nat, max: nat, draw: nat): (increment: nat)
    ensures max > 0 ==> Min(randomMin, max) <= increment <= max
    ensures max == 0 ==> increment == 0
  {
    if max == 0 then 0
    else
      var min := Min(randomMin, max);
      if min >= max then max else min + draw % (max + 1 - min)
  }

  function Bucket(l: Ledger, v: VideoId, hour: Time): nat {
    if (v, hour) in l.buckets then l.buckets[(v, hour)] else 0
  }

  function MaxIncrement(config: Config, bucketTotal: nat, latest: Option<Time>, now: Time): nat {
    var remaining := if config.maxPerVideoHour > bucketTotal then config.maxPerVideoHour - bucketTotal else 0;
    Min(Min(config.maxPerEvent, remaining), TimeBasedMax(latest, now, config.maxPerEvent))
  }

  predicate Recorded(l: Ledger, v: VideoId, viewer: ViewerHash, windowStart: Time) {
    exists i :: 0 <= i < |l.events| && l.events[i].videoId == v && l.events[i].viewer == viewer
        && l.events[i].windowStart == windowStart
  }

  // ---------------------------------------------------------------- the transaction

  /** What the transaction read before it wrote; another one may have committed since. */
  datatype Reads = Reads(bucketTotal: nat, latest: Option<Time>)

  function Wanted(config: Config, read: Reads, now: Time, draw: nat): nat {
    PickIncrement(config.randomMin, MaxIncrement(config, read.bucketTotal, read.latest, now), draw)
  }

  /** The bucket's own condition decides, whatever was read: an increment that does not fit becomes zero. */
  function Applied(config: Config, l: Ledger, v: VideoId, read: Reads, now: Time, draw: nat): nat {
    var wanted := Wanted(config, read, now, draw);
    if Bucket(l, v, FloorToHour(now)) <= config.maxPerVideoHour - wanted then wanted else 0
  }

  function Append(l: Ledger, e: GrowthEvent): Ledger
    requires e.videoId in l.viewCounts
  {
    var slot := (e.videoId, FloorToHour(e.createdAt));
    l.(events := l.events + [e],
       buckets := l.buckets[slot := Bucket(l, e.videoId, FloorToHour(e.createdAt)) + e.increment],
       viewCounts := l.viewCounts[e.videoId := l.viewCounts[e.videoId] + e.increment])
  }

  /** A second event of the same viewer and window violates the unique key, and the whole transaction is undone. */
  function RecordTx(config: Config, l: Ledger, v: VideoId, viewer: ViewerHash, read: Reads, now: Time, draw: nat)
    : Ledger
    requires config.Valid()
  {
    if !config.enabled || v !in l.viewCounts || Recorded(l, v, viewer, FloorToWindow(now, config)) then l
    else Append(l, GrowthEvent(v, viewer, FloorToWindow(now, config), Applied(config, l, v, read, now, draw), now))
  }

  /** An administrator may set a counter; the ledger knows nothing of it. */
  function SetCount(l: Ledger, v: VideoId, count: int): Ledger {
    l.(viewCounts := l.viewCounts[v := count], baselines := l.baselines[v := count - Growth(l.events, v)])
  }

  // ---------------------------------------------------------------- sums

  function IncrementIf(e: GrowthEvent, v: VideoId, from: Time, until: Time): nat {
    if e.videoId == v && from <= e.createdAt < until then e.increment else 0
  }

  /** Growth of one video in [from, until). */
  function GrowthIn(events: seq<GrowthEvent>, v: VideoId, from: Time, until: Time): nat {
    if events == [] then 0
    else GrowthIn(events[..|events| - 1], v, from, until) + IncrementIf(events[|events| - 1], v, from, until)
  }

  function Growth(events: seq<GrowthEvent>, v: VideoId): nat {
    if events == [] then 0
    else
      Growth(events[..|events| - 1], v)
      + if events[|events| - 1].videoId == v then events[|events| - 1].increment else 0
  }

  lemma GrowthAppend(events: seq<GrowthEvent>, e: GrowthEvent, v: VideoId, from: Time, until: Time)
    ensures GrowthIn(events + [e], v, from, until) == GrowthIn(events, v, from, until) + IncrementIf(e, v, from, until)
    ensures Growth(events + [e], v) == Growth(events, v) + if e.videoId == v then e.increment else 0
  {
    assert (events + [e])[..|events|] == events;
  }

  lemma {:induction false} GrowthSplits(events: seq<GrowthEvent>, v: VideoId, from: Time, mid: Time, until: Time)
    requires from <= mid <= until
    ensures GrowthIn(events, v, from, until) == GrowthIn(events, v, from, mid) + GrowthIn(events, v, mid, until)
  {
    if events != [] { GrowthSplits(events[..|events| - 1], v, from, mid, until); }
  }

  // ---------------------------------------------------------------- the ledger invariant

  predicate HourSound(config: Config, l: Ledger, v: VideoId, k: int) {
    && Bucket(l, v, k * HOUR) == GrowthIn(l.events, v, k * HOUR, (k + 1) * HOUR)
    && Bucket(l, v, k * HOUR) <= config.maxPerVideoHour
  }

  predicate CountSound(l: Ledger, v: VideoId)
    requires v in l.viewCounts
  {
    v in l.baselines && l.viewCounts[v] == l.baselines[v] + Growth(l.events, v)
  }

  ghost predicate OneEventPerWindow(l: Ledger) {
    forall i, j :: 0 <= i < j < |l.events| ==>
      !(l.events[i].videoId == l.events[j].videoId && l.events[i].viewer == l.events[j].viewer
        && l.events[i].windowStart == l.events[j].windowStart)
  }

  /** The event's window starts at a multiple of its length and holds the moment of the event. */
  predicate WindowSound(config: Config, e: GrowthEvent)
    requires config.Valid()
  {
    && e.windowStart % (config.windowMinutes * 60_000) == 0
    && e.windowStart <= e.createdAt < e.windowStart + config.windowMinutes * 60_000
  }

  ghost predicate Inv(config: Config, l: Ledger)
    requires config.Valid()
  {
    && (forall i :: 0 <= i < |l.events| ==> WindowSound(config, l.events[i]))
    && (forall v, k :: HourSound(config, l, v, k))
    && (forall v :: v in l.viewCounts ==> CountSound(l, v))
    && OneEventPerWindow(l)
  }

  /** A time lies in hour `k` exactly when it is floored to that hour's start. */
  lemma HourOf(t: Time, k: int)
    ensures k * HOUR <= t < (k + 1) * HOUR <==> FloorToHour(t) == k * HOUR
  {
    if FloorToHour(t) == k * HOUR { assert t / HOUR == k; }
  }

  lemma FloorIsMultiple(t: Time, step: nat)
    requires step > 0
    ensures Floor(t, step) % step == 0 && Floor(t, step) <= t < Floor(t, step) + step
  {
    var q := t / step;
    assert (q * step) % step == 0 by { MultipleHasNoRemainder(q, step); }
  }

  lemma MultipleHasNoRemainder(q: int, step: nat)
    requires step > 0
    ensures (q * step) % step == 0
  {
    SameQuotient(q * step, q, step);
  }

  /** The only multiple within a step of `t` below it. */
  lemma SameQuotient(t: int, q: int, step: nat)
    requires step > 0 && q * step <= t < (q + 1) * step
    ensures t / step == q
  {
    var d := t / step - q;
    assert t == (t / step) * step + t % step;
    assert d * step == (t / step) * step - q * step;
    Spread(d, step);
  }

  lemma Spread(d: int, step: nat)
    ensures d >= 1 ==> d * step >= step
    ensures d <= -1 ==> d * step + step <= 0
  {
  }

  /** Two moments lie in one window exactly if they have the same number of windows before them. */
  lemma SameWindowIff(config: Config, e: GrowthEvent, now: Time)
    requires config.Valid() && WindowSound(config, e)
    ensures e.windowStart == FloorToWindow(now, config) <==>
              e.createdAt / (config.windowMinutes * 60_000) == now / (config.windowMinutes * 60_000)
  {
    var step := config.windowMinutes * 60_000;
    var q := e.windowStart / step;
    assert e.windowStart == q * step + e.windowStart % step;
    assert (q + 1) * step == q * step + step;
    SameQuotient(e.createdAt, q, step);
    if e.windowStart == FloorToWindow(now, config) {
      FloorIsMultiple(now, step);
      SameQuotient(now, q, step);
    }
  }

  lemma RecordKeepsInv(config: Config, l: Ledger, v: VideoId, viewer: ViewerHash, read: Reads, now: Time, draw: nat)
    requires config.Valid() && Inv(config, l)
    ensures Inv(config, RecordTx(config, l, v, viewer, read, now, draw))
  {
    var after := RecordTx(config, l, v, viewer, read, now, draw);
    if after != l {
      var e := after.events[|l.events|];
      FloorIsMultiple(now, config.windowMinutes * MINUTE);
      forall w, k
        ensures HourSound(config, after, w, k)
      {
        assert HourSound(config, l, w, k);
        GrowthAppend(l.events, e, w, k * HOUR, (k + 1) * HOUR);
        HourOf(now, k);
      }
      forall w | w in after.viewCounts
        ensures CountSound(after, w)
      {
        assert CountSound(l, w);
        GrowthAppend(l.events, e, w, 0, 0);
      }
    }
  }

  // ---------------------------------------------------------------- every run

  datatype Action =
    | Record(videoId: VideoId, viewer: ViewerHash, read: Reads, now: Time, draw: nat)
    | SetCounter(videoId: VideoId, count: int)

  function Step(config: Config, l: Ledger, a: Action): Ledger
    requires config.Valid()
  {
    match a
    case Record(v, viewer, read, now, draw) => RecordTx(config, l, v, viewer, read, now, draw)
    case SetCounter(v, count) => SetCount(l, v, count)
  }

  /** Any transactions in any order, each with any earlier, later or wrong reads. */
  ghost predicate IsRun(config: Config, states: seq<Ledger>, actions: seq<Action>)
    requires config.Valid()
  {
    && |states| == |actions| + 1
    && forall i :: 0 <= i < |actions| ==> states[i + 1] == Step(config, states[i], actions[i])
  }

  lemma {:induction false} RunKeepsInv(config: Config, states: seq<Ledger>, actions: seq<Action>, i: nat)
    requires config.Valid() && IsRun(config, states, actions) && Inv(config, states[0]) && i < |states|
    ensures Inv(config, states[i])
  {
    if i > 0 {
      RunKeepsInv(config, states, actions, i - 1);
      match actions[i - 1]
      case Record(v, viewer, read, now, draw) => RecordKeepsInv(config, states[i - 1], v, viewer, read, now, draw);
      case SetCounter(v, count) =>
        forall w, k
          ensures HourSound(config, states[i], w, k)
        {
          assert HourSound(config, states[i - 1], w, k);
        }
        forall w | w in states[i].viewCounts
          ensures CountSound(states[i], w)
        {
          if w != v { assert CountSound(states[i - 1], w); }
        }
    }
  }

  /**
   Conservation: a bucket is the sum of its hour's events and within the cap; a counter is its baseline
   plus all growth.
   */
  lemma LedgerIsConserved(config: Config, states: seq<Ledger>, actions: seq<Action>, i: nat, v: VideoId, k: int)
    requires config.Valid() && IsRun(config, states, actions) && Inv(config, states[0]) && i < |states|
    ensures Bucket(states[i], v, k * HOUR) ==
              GrowthIn(states[i].events, v, k * HOUR, (k + 1) * HOUR) <= config.maxPerVideoHour
    ensures v in states[i].viewCounts ==>
              v in states[i].baselines && states[i].viewCounts[v] ==
                  states[i].baselines[v] + Growth(states[i].events, v)
    ensures OneEventPerWindow(states[i])
    ensures forall j :: 0 <= j < |states[i].events| ==> WindowSound(config, states[i].events[j])
  {
    RunKeepsInv(config, states, actions, i);
    assert HourSound(config, states[i], v, k);
  }

  /** The viewer already has an event of the video in the window of this moment. */
  predicate SeenInWindow(config: Config, events: seq<GrowthEvent>, v: VideoId, viewer: ViewerHash, now: Time)
    requires config.Valid()
  {
    exists j :: 0 <= j < |events| && events[j].videoId == v && events[j].viewer == viewer
      && events[j].createdAt / (config.windowMinutes * 60_000) == now / (config.windowMinutes * 60_000)
  }

  /**
   In every run: a view of a known video appends one event of that moment, exactly if growth is enabled and
   the viewer has none yet in the same window of windowMinutes; else it changes nothing. What it adds goes to
   that video's counter and to the bucket of that clock hour alone.
   */
  lemma ViewIsRecordedIff(config: Config, states: seq<Ledger>, actions: seq<Action>, i: nat)
    requires config.Valid() && IsRun(config, states, actions) && Inv(config, states[0]) && i < |actions|
    requires actions[i].Record?
    ensures var l, after, a := states[i], states[i + 1], actions[i];
            var recorded := config.enabled && a.videoId in l.viewCounts
                            && !SeenInWindow(config, l.events, a.videoId, a.viewer, a.now);
            && (!recorded ==> after == l)
            && (recorded ==>
                  && |after.events| == |l.events| + 1 && after.events[..|l.events|] == l.events
                  && var e := after.events[|l.events|];
                     && e.videoId == a.videoId && e.viewer == a.viewer && e.createdAt == a.now
                     && after.viewCounts == l.viewCounts[a.videoId := l.viewCounts[a.videoId] + e.increment]
                     && after.baselines == l.baselines
                     && forall w, k: int :: Bucket(after, w, k * HOUR) ==
                          Bucket(l, w, k * HOUR) + if w == a.videoId && k == a.now / HOUR then e.increment else 0)
  {
    RunKeepsInv(config, states, actions, i);
    var l, a := states[i], actions[i];
    forall j | 0 <= j < |l.events|
      ensures l.events[j].windowStart == FloorToWindow(a.now, config) <==>
                l.events[j].createdAt / (config.windowMinutes * 60_000) == a.now / (config.windowMinutes * 60_000)
    {
      SameWindowIff(config, l.events[j], a.now);
    }
    assert Recorded(l, a.videoId, a.viewer, FloorToWindow(a.now, config)) <==>
             SeenInWindow(config, l.events, a.videoId, a.viewer, a.now);
  }

  /** Over n whole hours a video grows by at most n times the cap. */
  lemma {:induction false} HoursAreCapped(config: Config, l: Ledger, v: VideoId, k: int, n: nat)
    requires config.Valid() && Inv(config, l)
    ensures GrowthIn(l.events, v, k * HOUR, (k + n) * HOUR) <= n * config.maxPerVideoHour
    decreases n
  {
    if n == 0 {
      GrowthSplits(l.events, v, k * HOUR, k * HOUR, k * HOUR);
    } else {
      HoursAreCapped(config, l, v, k, n - 1);
      assert HourSound(config, l, v, k + n - 1);
      GrowthSplits(l.events, v, k * HOUR, (k + n - 1) * HOUR, (k + n) * HOUR);
      assert n * config.maxPerVideoHour == (n - 1) * config.maxPerVideoHour + config.maxPerVideoHour;
    }
  }

  /** The clock hours that [from, until) touches. */
  function HoursTouched(from: Time, until: Time): nat
    requires from < until
  {
    (until - 1) / HOUR - from / HOUR + 1
  }

  /** Over any span, growth is at most the cap times the number of clock hours touched. */
  lemma SpanIsCapped(config: Config, states: seq<Ledger>, actions: seq<Action>, i: nat, v: VideoId, from: Time,
                     until: Time)
    requires config.Valid() && IsRun(config, states, actions) && Inv(config, states[0]) && i < |states|
    requires from < until
    ensures GrowthIn(states[i].events, v, from, until) <= HoursTouched(from, until) * config.maxPerVideoHour
  {
    RunKeepsInv(config, states, actions, i);
    var k, n := from / HOUR, HoursTouched(from, until);
    var events := states[i].events;
    HoursAreCapped(config, states[i], v, k, n);
    assert k * HOUR <= from && until <= (k + n) * HOUR;
    GrowthSplits(events, v, k * HOUR, from, (k + n) * HOUR);
    GrowthSplits(events, v, from, until, (k + n) * HOUR);
  }

  /** An increment that is applied lies between min(randomMin, max) and max, for the reads it was computed from. */
  lemma AppliedIncrementBounds(config: Config, l: Ledger, v: VideoId, read: Reads, now: Time, draw: nat)
    requires config.Valid() && Applied(config, l, v, read, now, draw) > 0
    ensures var max := MaxIncrement(config, read.bucketTotal, read.latest, now);
            && Min(config.randomMin, max) <= Applied(config, l, v, read, now, draw) <= max
            && max <= config.maxPerEvent && max + read.bucketTotal <= config.maxPerVideoHour
            && max <= TimeBasedMax(read.latest, now, config.maxPerEvent)
  {
  }

  /** The most one event may add: the event's limit, what is left of the hour as read, and 10, 30 or 75 by the ramp. */
  predicate IsRoom(config: Config, read: Reads, now: Time, max: nat) {
    var ramp := if read.latest == None || now - read.latest.value >= 1_800_000 then config.maxPerEvent
                else if now - read.latest.value >= 900_000 then 75
                else if now - read.latest.value >= 300_000 then 30
                else 10;
    && max <= config.maxPerEvent && max <= ramp && (max > 0 ==> read.bucketTotal + max <= config.maxPerVideoHour)
    && (max == config.maxPerEvent || max == ramp || read.bucketTotal + max == config.maxPerVideoHour
        || (max == 0 && read.bucketTotal > config.maxPerVideoHour))
  }

  lemma RoomIsMax(config: Config, read: Reads, now: Time, max: nat)
    ensures IsRoom(config, read, now, max) <==> max == MaxIncrement(config, read.bucketTotal, read.latest, now)
  {
  }

  lemma PickIff(randomMin: nat, max: nat, n: nat)
    requires randomMin > 0
    ensures (exists draw: nat :: PickIncrement(randomMin, max, draw) == n) <==>
              (max == 0 && n == 0) || (max > 0 && (n == max || randomMin <= n <= max))
  {
    var min := Min(randomMin, max);
    if max == 0 { assert PickIncrement(randomMin, max, 0) == 0; }
    if max > 0 && min <= n <= max { assert PickIncrement(randomMin, max, n - min) == n; }
  }

  lemma HourStart(now: Time)
    ensures FloorToHour(now) == now - now % 3_600_000
  {
  }

  /** The bucket of this clock hour has room for so much. */
  predicate Fits(config: Config, l: Ledger, v: VideoId, now: Time, n: nat) {
    Bucket(l, v, now - now % 3_600_000) + n <= config.maxPerVideoHour
  }

  lemma AppliedIs(config: Config, l: Ledger, v: VideoId, read: Reads, now: Time, max: nat, draw: nat)
    requires IsRoom(config, read, now, max)
    ensures var wanted := PickIncrement(config.randomMin, max, draw);
            Applied(config, l, v, read, now, draw) == if Fits(config, l, v, now, wanted) then wanted else 0
  {
    RoomIsMax(config, read, now, max);
    HourStart(now);
  }

  /**
   Which increments the draws give: with room, every one from the random minimum up to the room that still fits
   the hour's bucket, and 0 exactly if the whole room no longer fits; without room, none.
   */
  lemma IncrementIff(config: Config, l: Ledger, v: VideoId, read: Reads, now: Time, max: nat, n: nat)
    requires config.Valid() && IsRoom(config, read, now, max)
    ensures (exists draw: nat :: Applied(config, l, v, read, now, draw) == n) <==>
              if max == 0 then n == 0
              else
                || ((n == max || config.randomMin <= n <= max) && Fits(config, l, v, now, n))
                || (n == 0 && !Fits(config, l, v, now, max))
  {
    PickIff(config.randomMin, max, n);
    PickIff(config.randomMin, max, max);
    forall draw: nat
      ensures var wanted := PickIncrement(config.randomMin, max, draw);
              Applied(config, l, v, read, now, draw) == if Fits(config, l, v, now, wanted) then wanted else 0
    {
      AppliedIs(config, l, v, read, now, max, draw);
    }
    assert forall draw: nat :: PickIncrement(config.randomMin, max, draw) <= max;
  }

  // ---------------------------------------------------------------- the ramp

  predicate Grows(e: GrowthEvent, v: VideoId) { e.videoId == v && e.increment > 0 }

  /** findFirst of the video's growing events, newest first. */
  function Latest(events: seq<GrowthEvent>, v: VideoId): Option<Time> {
    if events == [] then None
    else
      var e, rest := events[|events| - 1], Latest(events[..|events| - 1], v);
      if !Grows(e, v) then rest
      else if rest.None? || e.createdAt >= rest.value then Some(e.createdAt)
      else rest
  }

  lemma {:induction false} LatestIsLatest(events: seq<GrowthEvent>, v: VideoId, i: nat)
    requires i < |events| && Grows(events[i], v)
    ensures Latest(events, v).Some? && Latest(events, v).value >= events[i].createdAt
  {
    if i < |events| - 1 { LatestIsLatest(events[..|events| - 1], v, i); }
  }

  /** No event adds more than the ramp allows after the events before it. */
  ghost predicate Ramped(config: Config, events: seq<GrowthEvent>) {
    forall i :: 0 <= i < |events| && events[i].increment > 0 ==>
      events[i].increment <= TimeBasedMax(Latest(events[..i], events[i].videoId), events[i].createdAt,
          config.maxPerEvent)
  }

  /** The room that the hour's bucket has left at the moment of the write. */
  function Room(config: Config, l: Ledger, v: VideoId, now: Time): int {
    config.maxPerVideoHour - Bucket(l, v, FloorToHour(now))
  }

  /**
   What the transaction may draw from its reads, cut to the room there really is, stays within the ramp
   there really is; or even its least draw does not fit, and it adds nothing.
   */
  predicate RampSafe(config: Config, l: Ledger, v: VideoId, read: Reads, now: Time) {
    var max := MaxIncrement(config, read.bucketTotal, read.latest, now);
    || Min(config.randomMin, max) > Room(config, l, v, now)
    || Min(max, Room(config, l, v, now)) <= TimeBasedMax(Latest(l.events, v), now, config.maxPerEvent)
  }

  /** This transaction adds an event: nothing stops it. */
  predicate Records(config: Config, l: Ledger, v: VideoId, viewer: ViewerHash, now: Time)
    requires config.Valid()
  {
    config.enabled && v in l.viewCounts && !Recorded(l, v, viewer, FloorToWindow(now, config))
  }

  /** One transaction after the other: each reads what the last one left. */
  ghost predicate IsSerialRun(config: Config, states: seq<Ledger>, actions: seq<Action>)
    requires config.Valid()
  {
    && IsRun(config, states, actions)
    && (forall i :: 0 <= i < |actions| && actions[i].Record? ==>
          actions[i].read == Reads(Bucket(states[i], actions[i].videoId, FloorToHour(actions[i].now)),
                                   Latest(states[i].events, actions[i].videoId)))
  }

  /** Every transaction that adds an event meets the condition, stale as its reads may be. */
  ghost predicate IsRampSafeRun(config: Config, states: seq<Ledger>, actions: seq<Action>)
    requires config.Valid()
  {
    && IsRun(config, states, actions)
    && (forall i :: 0 <= i < |actions| && actions[i].Record? ==>
          var a := actions[i];
          Records(config, states[i], a.videoId, a.viewer, a.now) ==>
              RampSafe(config, states[i], a.videoId, a.read, a.now))
  }

  lemma AppendKeepsRamped(config: Config, events: seq<GrowthEvent>, e: GrowthEvent)
    requires Ramped(config, events)
    requires e.increment <= TimeBasedMax(Latest(events, e.videoId), e.createdAt, config.maxPerEvent)
    ensures Ramped(config, events + [e])
  {
    var after := events + [e];
    forall j | 0 <= j < |after| && after[j].increment > 0
      ensures after[j].increment <= TimeBasedMax(Latest(after[..j], after[j].videoId), after[j].createdAt,
                config.maxPerEvent)
    {
      assert after[..j] == events[..j];
      if j == |events| { assert events[..j] == events; }
    }
  }

  lemma SmallRemainder(a: nat, n: nat)
    requires a < n
    ensures a % n == a
  {
  }

  /** Every increment within its bounds is some draw's. */
  lemma PickReaches(randomMin: nat, max: nat, target: nat)
    requires Min(randomMin, max) <= target <= max
    ensures PickIncrement(randomMin, max, target - Min(randomMin, max)) == target
  {
    SmallRemainder(target - Min(randomMin, max), max + 1 - Min(randomMin, max));
  }

  /** The largest increment that a draw can make of these reads. */
  lemma LargestDraw(config: Config, l: Ledger, v: VideoId, read: Reads, now: Time) returns (draw: nat)
    requires config.Valid() && !RampSafe(config, l, v, read, now)
    ensures Applied(config, l, v, read, now, draw) ==
              Min(MaxIncrement(config, read.bucketTotal, read.latest, now), Room(config, l, v, now))
  {
    var max := MaxIncrement(config, read.bucketTotal, read.latest, now);
    var min := Min(config.randomMin, max);
    draw := Min(max, Room(config, l, v, now)) - min;
    PickReaches(config.randomMin, max, draw + min);
  }

  lemma AppendIsRampedIff(config: Config, events: seq<GrowthEvent>, e: GrowthEvent)
    requires Ramped(config, events)
    ensures Ramped(config, events + [e]) <==>
              e.increment <= TimeBasedMax(Latest(events, e.videoId), e.createdAt, config.maxPerEvent)
  {
    var after := events + [e];
    assert after[..|events|] == events && after[|events|] == e;
    if e.increment <= TimeBasedMax(Latest(events, e.videoId), e.createdAt, config.maxPerEvent) {
      AppendKeepsRamped(config, events, e);
    }
  }

  /** A transaction respects the ramp whatever it draws if and only if its reads meet the condition. */
  lemma RecordIsRampedIff(config: Config, l: Ledger, v: VideoId, viewer: ViewerHash, read: Reads, now: Time)
    requires config.Valid() && Ramped(config, l.events) && Records(config, l, v, viewer, now)
    ensures (forall draw: nat :: Ramped(config, RecordTx(config, l, v, viewer, read, now, draw).events))
            <==> RampSafe(config, l, v, read, now)
  {
    forall draw: nat
      ensures Ramped(config, RecordTx(config, l, v, viewer, read, now, draw).events)
              <==> Applied(config, l, v, read, now, draw) <= TimeBasedMax(Latest(l.events, v), now, config.maxPerEvent)
    {
      var e := GrowthEvent(v, viewer, FloorToWindow(now, config), Applied(config, l, v, read, now, draw), now);
      AppendIsRampedIff(config, l.events, e);
    }
    if !RampSafe(config, l, v, read, now) {
      var draw := LargestDraw(config, l, v, read, now);
      assert !Ramped(config, RecordTx(config, l, v, viewer, read, now, draw).events);
    }
  }

  lemma {:induction false} SafeRunsAreRamped(config: Config, states: seq<Ledger>, actions: seq<Action>, i: nat)
    requires config.Valid() && IsRampSafeRun(config, states, actions) && i < |states|
    requires Ramped(config, states[0].events)
    ensures Ramped(config, states[i].events)
  {
    if i > 0 {
      SafeRunsAreRamped(config, states, actions, i - 1);
      if actions[i - 1].Record? {
        var a := actions[i - 1];
        if Records(config, states[i - 1], a.videoId, a.viewer, a.now) {
          RecordIsRampedIff(config, states[i - 1], a.videoId, a.viewer, a.read, a.now);
          assert Ramped(config, RecordTx(config, states[i - 1], a.videoId, a.viewer, a.read, a.now, a.draw).events);
        }
      }
    }
  }

  /** Reads that are current always meet the condition. */
  lemma SerialRunsAreSafe(config: Config, states: seq<Ledger>, actions: seq<Action>)
    requires config.Valid() && IsSerialRun(config, states, actions)
    ensures IsRampSafeRun(config, states, actions)
  {
  }

  /** How many events of the video lie in [from, until), and how much the first `m` events added there. */
  function EventsIn(events: seq<GrowthEvent>, v: VideoId, from: Time, until: Time): nat {
    if events == [] then 0
    else
      var e := events[|events| - 1];
      EventsIn(events[..|events| - 1], v, from, until) + if e.videoId == v && from <= e.createdAt < until then 1 else 0
  }

  /** How much an event may add while the video last grew less than `span` ago. */
  function BandCap(span: Time): nat {
    if span <= 5 * MINUTE then 10 else if span <= 15 * MINUTE then 30 else 75
  }

  /** The ramp never falls with the time elapsed, never passes the maximum, and is open again after half an hour. */
  lemma RampRises(latest: Time, now: Time, later: Time, span: Time, absoluteMax: nat)
    requires latest <= now <= later
    ensures TimeBasedMax(Some(latest), now, absoluteMax)
              <= TimeBasedMax(Some(latest), later, absoluteMax) <= absoluteMax
    ensures now - latest < span <= 30 * MINUTE ==> TimeBasedMax(Some(latest), now, absoluteMax) <= BandCap(span)
    ensures now - latest >= 30 * MINUTE ==> TimeBasedMax(Some(latest), now, absoluteMax) == absoluteMax
    ensures absoluteMax >= 75 ==>
              && TimeBasedMax(Some(latest), latest + 5 * MINUTE - 1, absoluteMax) == 10
              && TimeBasedMax(Some(latest), latest + 5 * MINUTE, absoluteMax) == 30
              && TimeBasedMax(Some(latest), latest + 15 * MINUTE, absoluteMax) == 75
  {
  }

  lemma OneMoreEvent(cap: nat, n: nat)
    ensures cap * (n + 1 - 1) == cap * (n - 1) + cap
  {
  }

  lemma {:induction false} RampBounds(config: Config, events: seq<GrowthEvent>, v: VideoId, from: Time, until: Time)
    requires Ramped(config, events) && until - from <= 30 * MINUTE
    ensures GrowthIn(events, v, from, until) == 0
            || exists i :: 0 <= i < |events| && Grows(events[i], v) && from <= events[i].createdAt < until
    ensures GrowthIn(events, v, from, until) > 0 ==>
              && EventsIn(events, v, from, until) > 0
              && GrowthIn(events, v, from, until) <= config.maxPerEvent
                  + BandCap(until - from) * (EventsIn(events, v, from, until) - 1)
  {
    if events != [] {
      var n := |events| - 1;
      var rest, e := events[..n], events[n];
      forall j | 0 <= j < n
        ensures rest[..j] == events[..j]
      {
      }
      RampBounds(config, rest, v, from, until);
      OneMoreEvent(BandCap(until - from), EventsIn(rest, v, from, until));
      if Grows(e, v) && from <= e.createdAt < until && GrowthIn(rest, v, from, until) > 0 {
        var i :| 0 <= i < |rest| && Grows(rest[i], v) && from <= rest[i].createdAt < until;
        LatestIsLatest(rest, v, i);
        assert e.increment <= TimeBasedMax(Latest(events[..n], v), e.createdAt, config.maxPerEvent)
                 <= BandCap(until - from);
      }
    }
  }

  /**
   In every run whose reads meet the condition, n events of a video within a span add at most one full
   increment and, for each other event, 10 if the span is at most 5 minutes, 30 if at most 15, 75 if at most 30.
   */
  lemma GrowthRampHolds(config: Config, states: seq<Ledger>, actions: seq<Action>, i: nat, v: VideoId, from: Time,
                        until: Time)
    requires config.Valid() && IsRampSafeRun(config, states, actions) && Ramped(config, states[0].events)
               && i < |states|
    requires until - from <= 30 * MINUTE && EventsIn(states[i].events, v, from, until) > 0
    ensures GrowthIn(states[i].events, v, from, until) <=
              config.maxPerEvent + BandCap(until - from) * (EventsIn(states[i].events, v, from, until) - 1)
  {
    SafeRunsAreRamped(config, states, actions, i);
    RampBounds(config, states[i].events, v, from, until);
  }

  /**
   Two transactions that both read "never grown" add two full increments; the second one's reads miss
   the condition.
   */
  lemma StaleReadsBreakTheRamp()
    ensures var config := Config(true, 99, 5000, 15, 99);
            var l0 := Ledger([], map[], map[1 := 0], map[1 := 0]);
            var l1 := RecordTx(config, l0, 1, 7, Reads(0, None), 0, 0);
            var l2 := RecordTx(config, l1, 1, 8, Reads(0, None), 0, 0);
            && EventsIn(l2.events, 1, 0, 5 * MINUTE) == 2
            && GrowthIn(l2.events, 1, 0, 5 * MINUTE) == 198
            && !RampSafe(config, l1, 1, Reads(0, None), 0)
  {
    var config := Config(true, 99, 5000, 15, 99);
    var l0 := Ledger([], map[], map[1 := 0], map[1 := 0]);
    var l1 := RecordTx(config, l0, 1, 7, Reads(0, None), 0, 0);
    var l2 := RecordTx(config, l1, 1, 8, Reads(0, None), 0, 0);
    var first, second := GrowthEvent(1, 7, 0, 99, 0), GrowthEvent(1, 8, 0, 99, 0);
    assert l1 == Append(l0, first) && l2 == Append(l1, second);
    GrowthAppend([], first, 1, 0, 5 * MINUTE);
    GrowthAppend([first], second, 1, 0, 5 * MINUTE);
    assert [] + [first] == [first] == l1.events && [first] + [second] == l2.events;
    assert l2.events[..1] == [first] && [first][..0] == [];
    assert IncrementIf(first, 1, 0, 5 * MINUTE) == 99 == IncrementIf(second, 1, 0, 5 * MINUTE);
    assert GrowthIn([first], 1, 0, 5 * MINUTE) == 99;
    assert GrowthIn(l2.events, 1, 0, 5 * MINUTE) == 198;
    assert EventsIn([first], 1, 0, 5 * MINUTE) == 1;
  }

  // ---------------------------------------------------------------- the service

  class VideoViewGrowthService {
    var events: seq<GrowthEvent>
    var buckets: map<(VideoId, Time), nat>
    var viewCounts: map<VideoId, int>
    ghost var baselines: map<VideoId, int>
    const config: Config

    ghost function Rows(): Ledger
      reads this
    {
      Ledger(events, buckets, viewCounts, baselines)
    }

    constructor (config: Config)
      requires config.Valid()
      ensures this.config == config && Rows() == Ledger([], map[], map[], map[]) && Inv(config, Rows())
    {
      this.config, events, buckets, viewCounts, baselines := config, [], map[], map[], map[];
    }

    /** The viewer's earlier event in this window, by a scan of the table. */
    method FindEvent(v: VideoId, viewer: ViewerHash, windowStart: Time) returns (found: bool)
      ensures found == Recorded(Rows(), v, viewer, windowStart)
    {
      found := false;
      for i := 0 to |events|
        invariant found == exists j ::
                    0 <= j < i && events[j].videoId == v && events[j].viewer == viewer
                    && events[j].windowStart == windowStart
      {
        if events[i].videoId == v && events[i].viewer == viewer && events[i].windowStart == windowStart {
          found := true;
        }
      }
    }

    method FindLatest(v: VideoId) returns (latest: Option<Time>)
      ensures latest == Latest(events, v)
    {
      latest := None;
      for i := 0 to |events|
        invariant latest == Latest(events[..i], v)
      {
        assert events[..i + 1][..i] == events[..i];
        var e := events[i];
        if e.videoId == v && e.increment > 0 && (latest.None? || e.createdAt >= latest.value) {
          latest := Some(e.createdAt);
        }
      }
      assert events[..|events|] == events;
    }

    /** `None` when the video is missing; otherwise the counter and the increment applied. */
    method RecordPublicVideoView(v: VideoId, viewer: ViewerHash, now: Time, draw: nat)
      returns (result: Option<(int, nat)>)
      requires config.Valid()
      modifies `events, `buckets, `viewCounts
      ensures var read := Reads(Bucket(old(Rows()), v, FloorToHour(now)), Latest(old(events), v));
              Rows() == RecordTx(config, old(Rows()), v, viewer, read, now, draw)
      ensures result.None? <==> v !in old(viewCounts)
      ensures result.Some? ==>
                && v in viewCounts && result.value.0 == viewCounts[v]
                && viewCounts[v] == old(viewCounts)[v] + result.value.1
    {
      if v !in viewCounts { return None; }
      if !config.enabled { return Some((viewCounts[v], 0)); }
      var windowStart, bucketStart := FloorToWindow(now, config), FloorToHour(now);
      var seen := FindEvent(v, viewer, windowStart);
      if seen { return Some((viewCounts[v], 0)); }
      var latest := FindLatest(v);
      var total := if (v, bucketStart) in buckets then buckets[(v, bucketStart)] else 0;
      var increment := PickIncrement(config.randomMin, MaxIncrement(config, total, latest, now), draw);
      if total > config.maxPerVideoHour - increment { increment := 0; }
      buckets := buckets[(v, bucketStart) := total + increment];
      events := events + [GrowthEvent(v, viewer, windowStart, increment, now)];
      viewCounts := viewCounts[v := viewCounts[v] + increment];
      return Some((viewCounts[v], increment));
    }
  }
}
