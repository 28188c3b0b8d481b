/** The per-key fixed-window limiter: lazily rolled minute and UTC-day counters
    in a table that a background sweep shrinks. Times are nanoseconds. */
module RateLimiter {

  const MINUTE: int := 60_000_000_000
  const DAY: int := 86_400_000_000_000

  datatype Bucket = Bucket(windowStart: int, dayStart: int, count: nat, tokens: nat, dayCount: nat, dayTokens: nat)

  type Buckets = map<string, Bucket>

  /** A limit of zero or less means unlimited. */
  datatype Limits = Limits(rpm: int, tpm: int, dailyReq: int, dailyTok: int)

  datatype Verdict = Admitted | RateLimited | TokenLimited | DailyRequestLimited | DailyTokenLimited

  function UtcDayStart(t: int): (d: int)
    ensures d % DAY == 0 && d <= t < d + DAY
  {
    t - t % DAY
  }

  function Fresh(now: int): Bucket { Bucket(now, UtcDayStart(now), 0, 0, 0, 0) }

  function RollWindow(b: Bucket, now: int): Bucket {
    if now - b.windowStart >= MINUTE then b.(windowStart := now, count := 0, tokens := 0) else b
  }

  function RollDay(b: Bucket, now: int): Bucket {
    var day := UtcDayStart(now);
    if day != b.dayStart then b.(dayStart := day, dayCount := 0, dayTokens := 0) else b
  }

  function Roll(b: Bucket, now: int): Bucket { RollDay(RollWindow(b, now), now) }

  /** The bucket an operation on `key` works on: found or created, then rolled. */
  function Current(bs: Buckets, key: string, now: int): Bucket {
    Roll(if key in bs then bs[key] else Fresh(now), now)
  }

  function Judge(b: Bucket, lim: Limits): Verdict {
    if lim.rpm > 0 && b.count >= lim.rpm then RateLimited
    else if lim.tpm > 0 && b.tokens >= lim.tpm then TokenLimited
    else if lim.dailyReq > 0 && b.dayCount >= lim.dailyReq then DailyRequestLimited
    else if lim.dailyTok > 0 && b.dayTokens >= lim.dailyTok then DailyTokenLimited
    else Admitted
  }

  function Reserve(b: Bucket, lim: Limits): Bucket {
    if Judge(b, lim).Admitted? then b.(count := b.count + 1, dayCount := b.dayCount + 1) else b
  }

  /** What the sweep reaps. */
  predicate Idle(b: Bucket, now: int) {
    now - b.windowStart > 5 * MINUTE && b.dayCount == 0 && b.dayTokens == 0
  }

  function Swept(bs: Buckets, now: int): Buckets {
    map k | k in bs && !Idle(bs[k], now) :: bs[k]
  }

  // ----- Runs: timed calls, with sweeps anywhere between them -----

  datatype Op =
    | CheckAndReserve(key: string, limits: Limits)
    | AddTokens(key: string, amount: int)
    | Stats(key: string)
    | Sweep

  datatype Event = Event(at: int, op: Op)

  datatype Answer =
    | Verdict(verdict: Verdict)
    | Counters(count: nat, tokens: nat, dayCount: nat, dayTokens: nat)
    | Nothing

  function After(bs: Buckets, e: Event): Buckets {
    match e.op
    case CheckAndReserve(key, lim) => bs[key := Reserve(Current(bs, key, e.at), lim)]
    case AddTokens(key, n) =>
      if n <= 0 then bs
      else
        var b := Current(bs, key, e.at);
        bs[key := b.(tokens := b.tokens + n, dayTokens := b.dayTokens + n)]
    case Stats(key) => bs[key := Current(bs, key, e.at)]
    case Sweep => Swept(bs, e.at)
  }

  function AnswerTo(bs: Buckets, e: Event): Answer {
    match e.op
    case CheckAndReserve(key, lim) => Verdict(Judge(Current(bs, key, e.at), lim))
    case AddTokens(_, _) => Nothing
    case Stats(key) => var b := Current(bs, key, e.at); Counters(b.count, b.tokens, b.dayCount, b.dayTokens)
    case Sweep => Nothing
  }

  /** The answers to the calls of a run; a sweep gives none. */
  function Answers(bs: Buckets, run: seq<Event>): seq<Answer>
    decreases |run|
  {
    if run == [] then []
    else (if run[0].op.Sweep? then [] else [AnswerTo(bs, run[0])]) + Answers(After(bs, run[0]), run[1..])
  }

  function WithoutSweeps(run: seq<Event>): seq<Event> {
    if run == [] then []
    else (if run[0].op.Sweep? then [] else [run[0]]) + WithoutSweeps(run[1..])
  }

  /** Timestamps never go back, starting from `now`. */
  predicate Monotone(run: seq<Event>, now: int) {
    run == [] || (now <= run[0].at && Monotone(run[1..], run[0].at))
  }

  /** When `key` was admitted. */
  function Admissions(bs: Buckets, run: seq<Event>, key: string): seq<int>
    decreases |run|
  {
    if run == [] then []
    else (if Admits(bs, run[0], key) then [run[0].at] else []) + Admissions(After(bs, run[0]), run[1..], key)
  }

  predicate Admits(bs: Buckets, e: Event, key: string) {
    e.op.CheckAndReserve? && e.op.key == key && AnswerTo(bs, e) == Verdict(Admitted)
  }

  // ----- The sweep cannot be observed -----

  /** A table that was swept stands for one that was not: a missing bucket is an idle one. */
  ghost predicate Simulates(swept: Buckets, kept: Buckets, now: int) {
    && (forall k :: k in swept ==> k in kept && kept[k] == swept[k])
    && (forall k :: k in kept && k !in swept ==> Idle(kept[k], now))
  }

  lemma IdleIsFresh(b: Bucket, since: int, now: int)
    requires Idle(b, since) && since <= now
    ensures Roll(b, now) == Fresh(now) == Roll(Fresh(now), now)
  {
  }

  lemma SameCurrent(swept: Buckets, kept: Buckets, since: int, key: string, now: int)
    requires Simulates(swept, kept, since) && since <= now
    ensures Current(swept, key, now) == Current(kept, key, now)
  {
    if key in kept && key !in swept { IdleIsFresh(kept[key], since, now); }
  }

  lemma SimulationStep(swept: Buckets, kept: Buckets, since: int, e: Event)
    requires Simulates(swept, kept, since) && since <= e.at
    ensures AnswerTo(swept, e) == AnswerTo(kept, e)
    ensures Simulates(After(swept, e), if e.op.Sweep? then kept else After(kept, e), e.at)
  {
    if !e.op.Sweep? { SameCurrent(swept, kept, since, e.op.key, e.at); }
  }

  lemma {:induction false} SweepsUnobservableFrom(swept: Buckets, kept: Buckets, since: int, run: seq<Event>,
      key: string)
    requires Simulates(swept, kept, since) && Monotone(run, since)
    ensures Answers(swept, run) == Answers(kept, WithoutSweeps(run))
    ensures Admissions(swept, run, key) == Admissions(kept, WithoutSweeps(run), key)
    ensures Monotone(WithoutSweeps(run), since)
    decreases |run|
  {
    if run != [] {
      var e, rest := run[0], run[1..];
      SimulationStep(swept, kept, since, e);
      if e.op.Sweep? {
        SweepsUnobservableFrom(After(swept, e), kept, e.at, rest, key);
        assert WithoutSweeps(run) == WithoutSweeps(rest);
        MonotoneEarlier(WithoutSweeps(rest), e.at, since);
      } else {
        SweepsUnobservableFrom(After(swept, e), After(kept, e), e.at, rest, key);
        assert WithoutSweeps(run)[1..] == WithoutSweeps(rest);
      }
    }
  }

  lemma MonotoneEarlier(run: seq<Event>, now: int, before: int)
    requires Monotone(run, now) && before <= now
    ensures Monotone(run, before)
  {
  }

  /** Two runs of the same calls, swept at whatever points, get the same answers. */
  lemma SweepsUnobservable(run: seq<Event>, other: seq<Event>, start: int)
    requires Monotone(run, start) && Monotone(other, start)
    requires WithoutSweeps(run) == WithoutSweeps(other)
    ensures Answers(map[], run) == Answers(map[], other)
  {
    SweepsUnobservableFrom(map[], map[], start, run, "");
    SweepsUnobservableFrom(map[], map[], start, other, "");
  }

  // ----- Bounds over every interval -----

  /** How many of `times` lie in [lo, hi). */
  function Tally(times: seq<int>, lo: int, hi: int): nat {
    if times == [] then 0
    else Tally(times[..|times| - 1], lo, hi) + (if lo <= times[|times| - 1] < hi then 1 else 0)
  }

  lemma TallySplit(times: seq<int>, lo: int, mid: int, hi: int)
    requires lo <= mid <= hi
    ensures Tally(times, lo, hi) == Tally(times, lo, mid) + Tally(times, mid, hi)
  {
  }

  lemma TallySnoc(times: seq<int>, t: int, lo: int, hi: int)
    ensures Tally(times + [t], lo, hi) == Tally(times, lo, hi) + (if lo <= t < hi then 1 else 0)
  {
    assert (times + [t])[..|times|] == times;
  }

  lemma TallyWithin(times: seq<int>, lo: int, hi: int, outerLo: int, outerHi: int)
    requires outerLo <= lo && hi <= outerHi
    ensures Tally(times, lo, hi) <= Tally(times, outerLo, outerHi)
  {
  }

  ghost predicate AllBefore(times: seq<int>, limit: int) {
    forall i :: 0 <= i < |times| ==> times[i] < limit
  }

  lemma TallyUnder(times: seq<int>, lo: int, hi: int, outerLo: int, limit: int)
    requires AllBefore(times, limit) && outerLo <= lo
    ensures Tally(times, lo, hi) <= Tally(times, outerLo, limit)
    ensures limit <= lo ==> Tally(times, lo, hi) == 0
  {
  }

  /** Admissions in the half-open minute from `t`. */
  function InMinute(times: seq<int>, t: int): nat { Tally(times, t, t + MINUTE) }

  /** Admissions in the UTC day that starts at `d`. */
  function InDay(times: seq<int>, d: int): nat { Tally(times, d, d + DAY) }

  /** The minute counter counts the admissions of its window, the window before it had at most `rpm`. */
  ghost predicate WindowInv(b: Bucket, times: seq<int>, rpm: int, now: int) {
    && b.windowStart <= now
    && AllBefore(times, b.windowStart + MINUTE)
    && InMinute(times, b.windowStart) == b.count <= rpm
    && InMinute(times, b.windowStart - MINUTE) <= rpm
    && forall t :: InMinute(times, t) <= 2 * rpm
  }

  ghost predicate DayInv(b: Bucket, times: seq<int>, daily: int, now: int) {
    && b.dayStart <= now && b.dayStart % DAY == 0
    && AllBefore(times, b.dayStart + DAY)
    && InDay(times, b.dayStart) == b.dayCount <= daily
    && forall d :: d % DAY == 0 ==> InDay(times, d) <= daily
  }

  lemma RollKeepsWindow(b: Bucket, times: seq<int>, rpm: int, before: int, now: int)
    requires WindowInv(b, times, rpm, before) && before <= now
    ensures WindowInv(Roll(b, now), times, rpm, now)
  {
    if now - b.windowStart >= MINUTE {
      TallyUnder(times, now, now + MINUTE, b.windowStart, b.windowStart + MINUTE);
      TallyUnder(times, now - MINUTE, now, b.windowStart, b.windowStart + MINUTE);
    }
  }

  lemma RollKeepsDay(b: Bucket, times: seq<int>, daily: int, before: int, now: int)
    requires DayInv(b, times, daily, before) && before <= now
    ensures DayInv(Roll(b, now), times, daily, now)
  {
    var day := UtcDayStart(now);
    if day != b.dayStart {
      assert b.dayStart + DAY <= day;
      TallyUnder(times, day, day + DAY, b.dayStart, b.dayStart + DAY);
    }
  }

  lemma AdmitKeepsWindow(b: Bucket, b': Bucket, times: seq<int>, rpm: int, now: int)
    requires WindowInv(b, times, rpm, now) && now < b.windowStart + MINUTE && b.count < rpm
    requires b'.windowStart == b.windowStart && b'.count == b.count + 1
    ensures WindowInv(b', times + [now], rpm, now)
  {
    var w := b.windowStart;
    TallySnoc(times, now, w, w + MINUTE);
    TallySnoc(times, now, w - MINUTE, w);
    forall t ensures InMinute(times + [now], t) <= 2 * rpm {
      TallySnoc(times, now, t, t + MINUTE);
      assert InMinute(times, t) <= 2 * rpm;
      if t <= now < t + MINUTE {
        if w < t {
          TallyUnder(times, t, t + MINUTE, w, w + MINUTE);
        } else {
          TallySplit(times, t, w, t + MINUTE);
          TallyWithin(times, t, w, w - MINUTE, w);
          TallyWithin(times, w, t + MINUTE, w, w + MINUTE);
        }
      }
    }
  }

  /** Two UTC days that hold the same moment are the same. */
  lemma SameDay(d: int, e: int, now: int)
    requires d % DAY == 0 && e % DAY == 0 && d <= now < d + DAY && e <= now < e + DAY
    ensures d == e
  {
    assert d / DAY * DAY == d && e / DAY * DAY == e;
  }

  lemma AdmitKeepsDay(b: Bucket, b': Bucket, times: seq<int>, daily: int, now: int)
    requires DayInv(b, times, daily, now) && b.dayStart == UtcDayStart(now) && b.dayCount < daily
    requires b'.dayStart == b.dayStart && b'.dayCount == b.dayCount + 1
    ensures DayInv(b', times + [now], daily, now)
  {
    TallySnoc(times, now, b.dayStart, b.dayStart + DAY);
    forall d | d % DAY == 0 ensures InDay(times + [now], d) <= daily {
      assert InDay(times, d) <= daily;
      TallySnoc(times, now, d, d + DAY);
      if d <= now < d + DAY { SameDay(d, b.dayStart, now); }
    }
  }

  ghost predicate BucketInv(b: Bucket, times: seq<int>, lim: Limits, now: int) {
    && (lim.rpm > 0 ==> WindowInv(b, times, lim.rpm, now))
    && (lim.dailyReq > 0 ==> DayInv(b, times, lim.dailyReq, now))
  }

  /** Every check of `key` in the run uses the same limits. */
  predicate ConstantLimits(run: seq<Event>, key: string, lim: Limits) {
    forall i :: 0 <= i < |run| && run[i].op.CheckAndReserve? && run[i].op.key == key ==> run[i].op.limits == lim
  }

  ghost predicate TableInv(bs: Buckets, times: seq<int>, key: string, lim: Limits, now: int) {
    if key in bs then BucketInv(bs[key], times, lim, now) else times == []
  }

  lemma CurrentKeeps(bs: Buckets, times: seq<int>, key: string, lim: Limits, before: int, now: int)
    requires TableInv(bs, times, key, lim, before) && before <= now
    ensures BucketInv(Current(bs, key, now), times, lim, now)
  {
    if key in bs {
      if lim.rpm > 0 { RollKeepsWindow(bs[key], times, lim.rpm, before, now); }
      if lim.dailyReq > 0 { RollKeepsDay(bs[key], times, lim.dailyReq, before, now); }
    }
  }

  lemma AdmitKeeps(b: Bucket, times: seq<int>, lim: Limits, now: int)
    requires BucketInv(b, times, lim, now) && Judge(b, lim).Admitted?
    requires now < b.windowStart + MINUTE && b.dayStart == UtcDayStart(now)
    ensures BucketInv(Reserve(b, lim), times + [now], lim, now)
  {
    var b' := Reserve(b, lim);
    assert lim.rpm > 0 ==> WindowInv(b', times + [now], lim.rpm, now) by {
      if lim.rpm > 0 { AdmitKeepsWindow(b, b', times, lim.rpm, now); }
    }
    assert lim.dailyReq > 0 ==> DayInv(b', times + [now], lim.dailyReq, now) by {
      if lim.dailyReq > 0 { AdmitKeepsDay(b, b', times, lim.dailyReq, now); }
    }
  }

  lemma StepKeeps(bs: Buckets, times: seq<int>, key: string, lim: Limits, before: int, e: Event)
    requires TableInv(bs, times, key, lim, before) && before <= e.at && !e.op.Sweep?
    requires e.op.CheckAndReserve? && e.op.key == key ==> e.op.limits == lim
    ensures TableInv(After(bs, e), times + (if Admits(bs, e, key) then [e.at] else []), key, lim, e.at)
  {
    assert times + [] == times;
    if e.op.key != key {
      assert After(bs, e).Keys <= bs.Keys + {e.op.key};
      return;
    }
    CurrentKeeps(bs, times, key, lim, before, e.at);
    if Admits(bs, e, key) { AdmitKeeps(Current(bs, key, e.at), times, lim, e.at); }
  }

  lemma Regroup(a: seq<int>, b: seq<int>, c: seq<int>)
    ensures a + b + c == a + (b + c)
  {
  }

  lemma RunTail(run: seq<Event>, key: string, lim: Limits)
    requires run != [] && ConstantLimits(run, key, lim) && WithoutSweeps(run) == run
    ensures !run[0].op.Sweep? && WithoutSweeps(run[1..]) == run[1..] && ConstantLimits(run[1..], key, lim)
  {
    NoSweepHead(run);
    forall i | 0 <= i < |run[1..]| ensures run[1..][i] == run[i + 1] {}
  }

  lemma {:induction false} RunKeeps(bs: Buckets, times: seq<int>, run: seq<Event>, key: string, lim: Limits, now: int)
    returns (end: Buckets, last: int)
    requires TableInv(bs, times, key, lim, now) && Monotone(run, now) && ConstantLimits(run, key, lim)
    requires WithoutSweeps(run) == run
    ensures TableInv(end, times + Admissions(bs, run, key), key, lim, last)
    decreases |run|
  {
    if run == [] {
      assert times + [] == times;
      return bs, now;
    }
    var e, rest := run[0], run[1..];
    RunTail(run, key, lim);
    StepKeeps(bs, times, key, lim, now, e);
    var admitted := if Admits(bs, e, key) then [e.at] else [];
    end, last := RunKeeps(After(bs, e), times + admitted, rest, key, lim, e.at);
    Regroup(times, admitted, Admissions(After(bs, e), rest, key));
  }

  lemma SweepsOnlyShrink(run: seq<Event>)
    ensures |WithoutSweeps(run)| <= |run|
  {
  }

  lemma NoSweepHead(run: seq<Event>)
    requires run != [] && WithoutSweeps(run) == run
    ensures !run[0].op.Sweep? && WithoutSweeps(run[1..]) == run[1..]
  {
    SweepsOnlyShrink(run[1..]);
    assert WithoutSweeps(run)[1..] == run[1..];
  }

  lemma {:induction false} WithoutSweepsKeeps(run: seq<Event>, key: string, lim: Limits)
    requires ConstantLimits(run, key, lim)
    ensures ConstantLimits(WithoutSweeps(run), key, lim)
    ensures WithoutSweeps(WithoutSweeps(run)) == WithoutSweeps(run)
  {
    WithoutSweepsTwice(run);
    if run != [] {
      var rest := run[1..];
      forall i | 0 <= i < |rest| ensures rest[i] == run[i + 1] {}
      WithoutSweepsKeeps(rest, key, lim);
    }
  }

  /** With constant limits, swept at whatever points: every half-open minute admits
      at most twice the per-minute limit and every UTC day at most the daily limit. */
  lemma AdmissionBounds(run: seq<Event>, start: int, key: string, lim: Limits)
    requires Monotone(run, start) && ConstantLimits(run, key, lim)
    ensures lim.rpm > 0 ==> forall t :: InMinute(Admissions(map[], run, key), t) <= 2 * lim.rpm
    ensures lim.dailyReq > 0 ==> forall d :: d % DAY == 0 ==> InDay(Admissions(map[], run, key), d) <= lim.dailyReq
  {
    var calls := WithoutSweeps(run);
    SweepsUnobservableFrom(map[], map[], start, run, key);
    WithoutSweepsKeeps(run, key, lim);
    var end, last := RunKeeps(map[], [], calls, key, lim, start);
    assert [] + Admissions(map[], calls, key) == Admissions(map[], run, key);
  }

  // ----- Minutes without a window start inside -----

  predicate Touches(e: Event, key: string) {
    match e.op
    case CheckAndReserve(k, _) => k == key
    case AddTokens(k, n) => k == key && n > 0
    case Stats(k) => k == key
    case Sweep => false
  }

  /** The start of the key's window at each call that touches the key. */
  function WindowStarts(bs: Buckets, run: seq<Event>, key: string): seq<int>
    decreases |run|
  {
    if run == [] then []
    else
      (if Touches(run[0], key) then [Current(bs, key, run[0].at).windowStart] else []) +
      WindowStarts(After(bs, run[0]), run[1..], key)
  }

  /** No window starts strictly inside the minute from `t`. */
  ghost predicate NoStartInside(starts: seq<int>, t: int) {
    forall w :: w in starts ==> !(t < w < t + MINUTE)
  }

  /** The current window is among the starts, and every minute without a start inside has at most `rpm` admissions. */
  ghost predicate QuietInv(bs: Buckets, times: seq<int>, starts: seq<int>, key: string, rpm: int) {
    && (key in bs ==> bs[key].windowStart in starts)
    && forall t :: NoStartInside(starts, t) ==> InMinute(times, t) <= rpm
  }

  lemma AdmitKeepsQuiet(b: Bucket, times: seq<int>, starts: seq<int>, rpm: int, now: int)
    requires WindowInv(b, times, rpm, now) && now < b.windowStart + MINUTE && b.count < rpm && b.windowStart in starts
    requires forall t :: NoStartInside(starts, t) ==> InMinute(times, t) <= rpm
    ensures forall t :: NoStartInside(starts, t) ==> InMinute(times + [now], t) <= rpm
  {
    var w := b.windowStart;
    forall t | NoStartInside(starts, t) ensures InMinute(times + [now], t) <= rpm {
      TallySnoc(times, now, t, t + MINUTE);
      if t <= now < t + MINUTE {
        assert w <= t;
        TallyUnder(times, t, t + MINUTE, w, w + MINUTE);
      }
    }
  }

  lemma QuietStep(bs: Buckets, times: seq<int>, starts: seq<int>, key: string, lim: Limits, before: int, e: Event)
    requires lim.rpm > 0 && TableInv(bs, times, key, lim, before) && before <= e.at && !e.op.Sweep?
    requires e.op.CheckAndReserve? && e.op.key == key ==> e.op.limits == lim
    requires QuietInv(bs, times, starts, key, lim.rpm)
    ensures QuietInv(After(bs, e), times + (if Admits(bs, e, key) then [e.at] else []),
        starts + (if Touches(e, key) then [Current(bs, key, e.at).windowStart] else []), key, lim.rpm)
  {
    assert times + [] == times && starts + [] == starts;
    if Touches(e, key) {
      var b := Current(bs, key, e.at);
      var longer := starts + [b.windowStart];
      assert b.windowStart in longer && forall w :: w in starts ==> w in longer;
      forall t | NoStartInside(longer, t) ensures InMinute(times, t) <= lim.rpm { assert NoStartInside(starts, t); }
      CurrentKeeps(bs, times, key, lim, before, e.at);
      if Admits(bs, e, key) { AdmitKeepsQuiet(b, times, longer, lim.rpm, e.at); }
    }
  }

  lemma {:induction false} QuietRun(bs: Buckets, times: seq<int>, starts: seq<int>, run: seq<Event>, key: string,
      lim: Limits, now: int) returns (end: Buckets)
    requires lim.rpm > 0 && TableInv(bs, times, key, lim, now) && QuietInv(bs, times, starts, key, lim.rpm)
    requires Monotone(run, now) && ConstantLimits(run, key, lim) && WithoutSweeps(run) == run
    ensures QuietInv(end, times + Admissions(bs, run, key), starts + WindowStarts(bs, run, key), key, lim.rpm)
    decreases |run|
  {
    if run == [] {
      assert times + [] == times && starts + [] == starts;
      return bs;
    }
    var e, rest := run[0], run[1..];
    RunTail(run, key, lim);
    StepKeeps(bs, times, key, lim, now, e);
    QuietStep(bs, times, starts, key, lim, now, e);
    var admitted := if Admits(bs, e, key) then [e.at] else [];
    var started := if Touches(e, key) then [Current(bs, key, e.at).windowStart] else [];
    end := QuietRun(After(bs, e), times + admitted, starts + started, rest, key, lim, e.at);
    Regroup(times, admitted, Admissions(After(bs, e), rest, key));
    Regroup(starts, started, WindowStarts(After(bs, e), rest, key));
  }

  lemma {:induction false} SameStarts(swept: Buckets, kept: Buckets, since: int, run: seq<Event>, key: string)
    requires Simulates(swept, kept, since) && Monotone(run, since)
    ensures WindowStarts(swept, run, key) == WindowStarts(kept, WithoutSweeps(run), key)
    decreases |run|
  {
    if run != [] {
      var e, rest := run[0], run[1..];
      SimulationStep(swept, kept, since, e);
      if e.op.Sweep? {
        SameStarts(After(swept, e), kept, e.at, rest, key);
        assert WithoutSweeps(run) == WithoutSweeps(rest);
      } else {
        SameCurrent(swept, kept, since, key, e.at);
        SameStarts(After(swept, e), After(kept, e), e.at, rest, key);
        assert WithoutSweeps(run)[1..] == WithoutSweeps(rest);
      }
    }
  }

  /** With constant limits, swept at whatever points: a minute inside which no window of the key starts admits at most
      the limit, so only a minute that cuts into a new window can exceed it. */
  lemma QuietMinutes(run: seq<Event>, start: int, key: string, lim: Limits, t: int)
    requires Monotone(run, start) && ConstantLimits(run, key, lim) && lim.rpm > 0
    requires NoStartInside(WindowStarts(map[], run, key), t)
    ensures InMinute(Admissions(map[], run, key), t) <= lim.rpm
  {
    var calls := WithoutSweeps(run);
    SweepsUnobservableFrom(map[], map[], start, run, key);
    SameStarts(map[], map[], start, run, key);
    WithoutSweepsKeeps(run, key, lim);
    var end := QuietRun(map[], [], [], calls, key, lim, start);
    assert [] + Admissions(map[], calls, key) == Admissions(map[], run, key);
    assert [] + WindowStarts(map[], calls, key) == WindowStarts(map[], run, key);
  }

  // ----- The minute bound is the best possible -----

  function Burst(key: string, lim: Limits, at: int, n: nat): (run: seq<Event>)
    ensures |run| == n && forall i :: 0 <= i < n ==> run[i] == Event(at, CheckAndReserve(key, lim))
  {
    if n == 0 then [] else [Event(at, CheckAndReserve(key, lim))] + Burst(key, lim, at, n - 1)
  }

  function Same(at: int, n: nat): (times: seq<int>)
    ensures |times| == n && forall i :: 0 <= i < n ==> times[i] == at
  {
    if n == 0 then [] else [at] + Same(at, n - 1)
  }

  lemma AdmitOnce(bs: Buckets, key: string, lim: Limits, at: int)
    requires lim.tpm <= 0 && lim.dailyReq <= 0 && lim.dailyTok <= 0 && Current(bs, key, at).count < lim.rpm
    ensures var e := Event(at, CheckAndReserve(key, lim));
            && Admits(bs, e, key)
            && key in After(bs, e)
            && After(bs, e)[key].windowStart == Current(bs, key, at).windowStart
            && Current(After(bs, e), key, at) == Reserve(Current(bs, key, at), lim)
  {
  }

  lemma {:induction false} BurstAdmits(bs: Buckets, key: string, lim: Limits, at: int, n: nat, rest: seq<Event>)
    returns (end: Buckets)
    requires lim.tpm <= 0 && lim.dailyReq <= 0 && lim.dailyTok <= 0 && Current(bs, key, at).count + n <= lim.rpm
    ensures Admissions(bs, Burst(key, lim, at, n) + rest, key) == Same(at, n) + Admissions(end, rest, key)
    ensures if n == 0 then end == bs else key in end && end[key].windowStart == Current(bs, key, at).windowStart
    decreases n
  {
    if n == 0 {
      assert Burst(key, lim, at, n) + rest == rest;
      return bs;
    }
    var e := Event(at, CheckAndReserve(key, lim));
    var later := Burst(key, lim, at, n - 1) + rest;
    assert Burst(key, lim, at, n) + rest == [e] + later;
    AdmitOnce(bs, key, lim, at);
    end := BurstAdmits(After(bs, e), key, lim, at, n - 1, rest);
    AdmittedFirst(bs, e, later, key);
    assert [at] + (Same(at, n - 1) + Admissions(end, rest, key)) == Same(at, n) + Admissions(end, rest, key);
  }

  lemma AdmittedFirst(bs: Buckets, e: Event, later: seq<Event>, key: string)
    requires Admits(bs, e, key)
    ensures Admissions(bs, [e] + later, key) == [e.at] + Admissions(After(bs, e), later, key)
  {
    assert ([e] + later)[1..] == later;
  }

  lemma TallyAll(times: seq<int>, lo: int, hi: int)
    requires forall i :: 0 <= i < |times| ==> lo <= times[i] < hi
    ensures Tally(times, lo, hi) == |times|
  {
  }

  /** For every limit some run fits twice the limit into a minute, so the
      counter is a fixed window and not a rolling one. */
  lemma MinuteBoundIsTight(key: string, rpm: nat) returns (run: seq<Event>)
    requires rpm > 0
    ensures Monotone(run, 0) && ConstantLimits(run, key, Limits(rpm, 0, 0, 0))
    ensures exists t :: InMinute(Admissions(map[], run, key), t) == 2 * rpm
  {
    var lim := Limits(rpm, 0, 0, 0);
    var late := Burst(key, lim, MINUTE, rpm);
    var early := Burst(key, lim, MINUTE - 1, rpm) + late;
    var open := Event(0, Stats(key));
    run := [open] + early;
    assert run[1..] == early;
    var bs := After(map[], open);
    var mid := BurstAdmits(bs, key, lim, MINUTE - 1, rpm, late);
    assert late + [] == late;
    var end := BurstAdmits(mid, key, lim, MINUTE, rpm, []);
    var times := Admissions(map[], run, key);
    assert times == Same(MINUTE - 1, rpm) + Same(MINUTE, rpm);
    TallyAll(times, MINUTE - 1, MINUTE - 1 + MINUTE);
    assert InMinute(times, MINUTE - 1) == 2 * rpm;
    BurstMonotone(key, lim, MINUTE, rpm, []);
    BurstMonotone(key, lim, MINUTE - 1, rpm, late);
  }

  lemma {:induction false} BurstMonotone(key: string, lim: Limits, at: int, n: nat, rest: seq<Event>)
    requires Monotone(rest, at)
    ensures Monotone(Burst(key, lim, at, n) + rest, at)
  {
    var run := Burst(key, lim, at, n) + rest;
    if n == 0 {
      assert run == rest;
    } else {
      BurstMonotone(key, lim, at, n - 1, rest);
      assert run[1..] == Burst(key, lim, at, n - 1) + rest;
    }
  }

  // ----- What the counters are -----

  function TableAfter(bs: Buckets, run: seq<Event>): Buckets
    decreases |run|
  {
    if run == [] then bs else TableAfter(After(bs, run[0]), run[1..])
  }

  /** When the key was touched: checked, given tokens or asked about. */
  function TouchTimes(past: seq<Event>, key: string): seq<int> {
    if past == [] then []
    else
      var n := |past| - 1;
      TouchTimes(past[..n], key) + (if Touches(past[n], key) then [past[n].at] else [])
  }

  /** A window begins with the first touch, and with each touch a minute or more after the last beginning. */
  function WindowOf(touches: seq<int>): int
    requires touches != []
  {
    var n := |touches| - 1;
    if n == 0 then touches[0]
    else
      var w := WindowOf(touches[..n]);
      if touches[n] - w >= MINUTE then touches[n] else w
  }

  /** How many of `times` are not before `lo`. */
  function CountFrom(times: seq<int>, lo: int): nat {
    if times == [] then 0
    else CountFrom(times[..|times| - 1], lo) + (if times[|times| - 1] >= lo then 1 else 0)
  }

  /** The tokens an event adds for the key. */
  function TokensOf(e: Event, key: string): nat {
    if e.op.AddTokens? && e.op.key == key && e.op.amount > 0 then e.op.amount else 0
  }

  /** The tokens added for the key from `lo` on. */
  function TokensFrom(past: seq<Event>, key: string, lo: int): nat {
    if past == [] then 0
    else
      var n := |past| - 1;
      TokensFrom(past[..n], key, lo) + (if past[n].at >= lo then TokensOf(past[n], key) else 0)
  }

  ghost predicate TouchedBefore(past: seq<Event>, key: string, limit: int) {
    forall i :: 0 <= i < |past| && Touches(past[i], key) ==> past[i].at < limit
  }

  lemma {:induction false} NoneFrom(times: seq<int>, lo: int)
    requires AllBefore(times, lo)
    ensures CountFrom(times, lo) == 0
    decreases |times|
  {
    if times != [] { NoneFrom(times[..|times| - 1], lo); }
  }

  lemma {:induction false} NoTokensFrom(past: seq<Event>, key: string, lo: int)
    requires TouchedBefore(past, key, lo)
    ensures TokensFrom(past, key, lo) == 0
    decreases |past|
  {
    if past != [] {
      var n := |past| - 1;
      assert forall i :: 0 <= i < n ==> past[..n][i] == past[i];
      NoTokensFrom(past[..n], key, lo);
      assert Touches(past[n], key) ==> past[n].at < lo;
    }
  }

  /** A pair of counters for the period of length `len` from `start`, in which the key was last touched. */
  ghost predicate Counts(count: nat, tokens: nat, start: int, len: int, past: seq<Event>, times: seq<int>,
      key: string) {
    && count == CountFrom(times, start) && tokens == TokensFrom(past, key, start)
    && AllBefore(times, start + len) && TouchedBefore(past, key, start + len)
  }

  /** What a bucket holds after `past`, with the key admitted at `times`. */
  ghost predicate Holds(b: Bucket, past: seq<Event>, times: seq<int>, key: string) {
    && Counts(b.count, b.tokens, b.windowStart, MINUTE, past, times, key)
    && Counts(b.dayCount, b.dayTokens, b.dayStart, DAY, past, times, key) && b.dayStart % DAY == 0
  }

  /** A later period begins with nothing. */
  lemma CountsAnew(start: int, later: int, len: int, past: seq<Event>, times: seq<int>, key: string)
    requires AllBefore(times, start + len) && TouchedBefore(past, key, start + len) && start + len <= later && len > 0
    ensures Counts(0, 0, later, len, past, times, key)
  {
    NoneFrom(times, later);
    NoTokensFrom(past, key, later);
  }

  lemma RollHolds(b: Bucket, past: seq<Event>, times: seq<int>, key: string, now: int)
    requires Holds(b, past, times, key) && b.dayStart <= now
    ensures Holds(Roll(b, now), past, times, key)
  {
    var day := UtcDayStart(now);
    if now - b.windowStart >= MINUTE { CountsAnew(b.windowStart, now, MINUTE, past, times, key); }
    if day != b.dayStart { CountsAnew(b.dayStart, day, DAY, past, times, key); }
  }

  ghost predicate KeyHolds(bs: Buckets, past: seq<Event>, times: seq<int>, key: string, now: int) {
    if key in bs then
      && TouchTimes(past, key) != [] && bs[key].windowStart == WindowOf(TouchTimes(past, key))
      && bs[key].windowStart <= now && bs[key].dayStart <= now && Holds(bs[key], past, times, key)
    else times == [] && TouchTimes(past, key) == [] && forall i :: 0 <= i < |past| ==> !Touches(past[i], key)
  }

  lemma CurrentHolds(bs: Buckets, past: seq<Event>, times: seq<int>, key: string, before: int, now: int)
    requires KeyHolds(bs, past, times, key, before) && before <= now
    ensures var b := Current(bs, key, now);
            && Holds(b, past, times, key) && b.windowStart == WindowOf(TouchTimes(past, key) + [now])
            && b.windowStart <= now < b.windowStart + MINUTE && b.dayStart == UtcDayStart(now)
  {
    var touches := TouchTimes(past, key);
    assert (touches + [now])[..|touches|] == touches;
    if key in bs {
      RollHolds(bs[key], past, times, key, now);
    } else {
      NoTokensFrom(past, key, now);
      NoTokensFrom(past, key, UtcDayStart(now));
    }
  }

  lemma TouchTimesSnoc(past: seq<Event>, e: Event, key: string)
    ensures TouchTimes(past + [e], key) == TouchTimes(past, key) + (if Touches(e, key) then [e.at] else [])
  {
    assert (past + [e])[..|past|] == past;
  }

  lemma TokensSnoc(past: seq<Event>, e: Event, key: string, lo: int)
    ensures TokensFrom(past + [e], key, lo) ==
        TokensFrom(past, key, lo) + (if e.at >= lo then TokensOf(e, key) else 0)
  {
    assert (past + [e])[..|past|] == past;
  }

  lemma CountSnoc(times: seq<int>, t: int, lo: int)
    ensures CountFrom(times + [t], lo) == CountFrom(times, lo) + (if t >= lo then 1 else 0)
  {
    assert (times + [t])[..|times|] == times;
  }

  /** An event inside the period adds exactly itself to the counters. */
  lemma CountsSnoc(count: nat, tokens: nat, start: int, len: int, past: seq<Event>, times: seq<int>, key: string,
      e: Event)
    requires Counts(count, tokens, start, len, past, times, key) && (Touches(e, key) ==> start <= e.at < start + len)
    ensures Counts(count, tokens + TokensOf(e, key), start, len, past + [e], times, key)
    ensures Touches(e, key) ==>
        Counts(count + 1, tokens + TokensOf(e, key), start, len, past + [e], times + [e.at], key)
  {
    TokensSnoc(past, e, key, start);
    CountSnoc(times, e.at, start);
  }

  lemma EventHolds(b: Bucket, past: seq<Event>, times: seq<int>, key: string, e: Event)
    requires Holds(b, past, times, key)
    requires Touches(e, key) ==> b.windowStart <= e.at < b.windowStart + MINUTE && b.dayStart == UtcDayStart(e.at)
    ensures var n := TokensOf(e, key);
            var given := b.(tokens := b.tokens + n, dayTokens := b.dayTokens + n);
            && Holds(given, past + [e], times, key)
            && (Touches(e, key) ==>
                Holds(given.(count := b.count + 1, dayCount := b.dayCount + 1), past + [e], times + [e.at], key))
  {
    CountsSnoc(b.count, b.tokens, b.windowStart, MINUTE, past, times, key, e);
    CountsSnoc(b.dayCount, b.dayTokens, b.dayStart, DAY, past, times, key, e);
  }

  /** A call that touches the key. */
  lemma TouchKeeps(bs: Buckets, past: seq<Event>, times: seq<int>, key: string, before: int, e: Event)
    requires KeyHolds(bs, past, times, key, before) && before <= e.at && Touches(e, key)
    ensures KeyHolds(After(bs, e), past + [e], times + (if Admits(bs, e, key) then [e.at] else []), key, e.at)
  {
    var b := Current(bs, key, e.at);
    TouchTimesSnoc(past, e, key);
    CurrentHolds(bs, past, times, key, before, e.at);
    EventHolds(b, past, times, key, e);
    assert times + [] == times;
    assert Holds(After(bs, e)[key], past + [e], times + (if Admits(bs, e, key) then [e.at] else []), key);
  }

  lemma OtherKeeps(bs: Buckets, past: seq<Event>, times: seq<int>, key: string, before: int, e: Event)
    requires KeyHolds(bs, past, times, key, before) && before <= e.at && !Touches(e, key) && !e.op.Sweep?
    ensures KeyHolds(After(bs, e), past + [e], times, key, e.at)
  {
    TouchTimesSnoc(past, e, key);
    assert TouchTimes(past, key) + [] == TouchTimes(past, key);
    if key in bs { EventHolds(bs[key], past, times, key, e); }
  }

  lemma EventKeeps(bs: Buckets, past: seq<Event>, times: seq<int>, key: string, before: int, e: Event)
    requires KeyHolds(bs, past, times, key, before) && before <= e.at && !e.op.Sweep?
    ensures KeyHolds(After(bs, e), past + [e], times + (if Admits(bs, e, key) then [e.at] else []), key, e.at)
  {
    assert times + [] == times;
    if Touches(e, key) {
      TouchKeeps(bs, past, times, key, before, e);
    } else {
      OtherKeeps(bs, past, times, key, before, e);
    }
  }

  lemma {:induction false} RunHolds(bs: Buckets, past: seq<Event>, times: seq<int>, run: seq<Event>, key: string,
      now: int)
    returns (last: int)
    requires KeyHolds(bs, past, times, key, now) && Monotone(run, now) && WithoutSweeps(run) == run
    ensures KeyHolds(TableAfter(bs, run), past + run, times + Admissions(bs, run, key), key, last)
    ensures last == if run == [] then now else run[|run| - 1].at
    decreases |run|
  {
    if run == [] {
      assert past + [] == past && times + [] == times;
      return now;
    }
    var e, rest := run[0], run[1..];
    NoSweepHead(run);
    EventKeeps(bs, past, times, key, now, e);
    var admitted := if Admits(bs, e, key) then [e.at] else [];
    last := RunHolds(After(bs, e), past + [e], times + admitted, rest, key, e.at);
    assert past + [e] + rest == past + run;
    Regroup(times, admitted, Admissions(After(bs, e), rest, key));
  }

  lemma {:induction false} SweptSimulates(swept: Buckets, kept: Buckets, since: int, run: seq<Event>, now: int)
    returns (last: int)
    requires Simulates(swept, kept, since) && Monotone(run, since) && since <= now && Within(run, now)
    ensures last <= now && Simulates(TableAfter(swept, run), TableAfter(kept, WithoutSweeps(run)), last)
    decreases |run|
  {
    last := since;
    if run != [] {
      var e, rest := run[0], run[1..];
      SimulationStep(swept, kept, since, e);
      if e.op.Sweep? {
        assert WithoutSweeps(run) == WithoutSweeps(rest);
        last := SweptSimulates(After(swept, e), kept, e.at, rest, now);
      } else {
        assert WithoutSweeps(run)[1..] == WithoutSweeps(rest);
        last := SweptSimulates(After(swept, e), After(kept, e), e.at, rest, now);
      }
    }
  }

  predicate Within(run: seq<Event>, now: int) { forall i :: 0 <= i < |run| ==> run[i].at <= now }

  lemma {:induction false} SweepsDoNotTouch(run: seq<Event>, key: string, lo: int)
    ensures TouchTimes(WithoutSweeps(run), key) == TouchTimes(run, key)
    ensures TokensFrom(WithoutSweeps(run), key, lo) == TokensFrom(run, key, lo)
    decreases |run|
  {
    if run != [] {
      var n := |run| - 1;
      SweepsDoNotTouch(run[..n], key, lo);
      assert run == run[..n] + [run[n]];
      WithoutSweepsSnoc(run[..n], run[n]);
      var calls := WithoutSweeps(run[..n]);
      assert calls + [] == calls && TouchTimes(calls, key) + [] == TouchTimes(calls, key);
      if !run[n].op.Sweep? {
        TouchTimesSnoc(calls, run[n], key);
        TokensSnoc(calls, run[n], key, lo);
      }
    }
  }

  lemma {:induction false} WithoutSweepsSnoc(run: seq<Event>, e: Event)
    ensures WithoutSweeps(run + [e]) == WithoutSweeps(run) + (if e.op.Sweep? then [] else [e])
    decreases |run|
  {
    if run == [] {
      assert (run + [e])[1..] == [];
    } else {
      assert (run + [e])[1..] == run[1..] + [e];
      WithoutSweepsSnoc(run[1..], e);
    }
  }

  lemma {:induction false} WithoutSweepsTwice(run: seq<Event>)
    ensures WithoutSweeps(WithoutSweeps(run)) == WithoutSweeps(run)
  {
    if run != [] {
      var calls := WithoutSweeps(run[1..]);
      WithoutSweepsTwice(run[1..]);
      if run[0].op.Sweep? {
        assert WithoutSweeps(run) == calls;
      } else {
        assert WithoutSweeps(run)[1..] == calls;
      }
    }
  }

  lemma {:induction false} WithinWithout(run: seq<Event>, now: int)
    requires Within(run, now)
    ensures Within(WithoutSweeps(run), now)
    decreases |run|
  {
    if run != [] {
      assert forall i :: 0 <= i < |run[1..]| ==> run[1..][i] == run[i + 1];
      WithinWithout(run[1..], now);
    }
  }

  /** The bucket a call at `now` works on, after the events of `past`. */
  function BucketAt(past: seq<Event>, key: string, now: int): Bucket { Current(TableAfter(map[], past), key, now) }

  lemma CallsHold(calls: seq<Event>, start: int, key: string, now: int)
    requires Monotone(calls, start) && Within(calls, now) && start <= now && WithoutSweeps(calls) == calls
    ensures var b := BucketAt(calls, key, now);
            && Holds(b, calls, Admissions(map[], calls, key), key) && b.dayStart == UtcDayStart(now)
            && b.windowStart == WindowOf(TouchTimes(calls, key) + [now])
  {
    var last := RunHolds(map[], [], [], calls, key, start);
    assert [] + calls == calls && [] + Admissions(map[], calls, key) == Admissions(map[], calls, key);
    CurrentHolds(TableAfter(map[], calls), calls, Admissions(map[], calls, key), key, last, now);
  }

  /** With times that never go back and sweeps anywhere: the counters a call sees are the admissions of the key and the
      tokens added for it since its window began, and since the UTC day began. */
  lemma CountersExact(past: seq<Event>, start: int, key: string, now: int)
    requires Monotone(past, start) && Within(past, now) && start <= now
    ensures var b, admitted := BucketAt(past, key, now), Admissions(map[], past, key);
            var w, d := WindowOf(TouchTimes(past, key) + [now]), UtcDayStart(now);
            && b.windowStart == w && b.count == CountFrom(admitted, w) && b.tokens == TokensFrom(past, key, w)
            && b.dayStart == d && b.dayCount == CountFrom(admitted, d) && b.dayTokens == TokensFrom(past, key, d)
  {
    var calls := WithoutSweeps(past);
    SweepsUnobservableFrom(map[], map[], start, past, key);
    var last := SweptSimulates(map[], map[], start, past, now);
    SameCurrent(TableAfter(map[], past), TableAfter(map[], calls), last, key, now);
    WithinWithout(past, now);
    WithoutSweepsTwice(past);
    CallsHold(calls, start, key, now);
    SweepsDoNotTouch(past, key, WindowOf(TouchTimes(past, key) + [now]));
    SweepsDoNotTouch(past, key, UtcDayStart(now));
  }

  /** Every verdict, from the events before it: admitted exactly when each limit that is set exceeds what it limits;
      otherwise the first limit reached is named, in the order minute requests, minute tokens, day requests, day
      tokens. */
  lemma VerdictsExact(past: seq<Event>, start: int, key: string, lim: Limits, now: int)
    requires Monotone(past, start) && Within(past, now) && start <= now
    ensures var v := AnswerTo(TableAfter(map[], past), Event(now, CheckAndReserve(key, lim))).verdict;
            var admitted := Admissions(map[], past, key);
            var w, d := WindowOf(TouchTimes(past, key) + [now]), UtcDayStart(now);
            var noRequests := lim.rpm > 0 && CountFrom(admitted, w) >= lim.rpm;
            var noTokens := lim.tpm > 0 && TokensFrom(past, key, w) >= lim.tpm;
            var noDayRequests := lim.dailyReq > 0 && CountFrom(admitted, d) >= lim.dailyReq;
            var noDayTokens := lim.dailyTok > 0 && TokensFrom(past, key, d) >= lim.dailyTok;
            && (v.Admitted? <==> !noRequests && !noTokens && !noDayRequests && !noDayTokens)
            && (v.RateLimited? <==> noRequests)
            && (v.TokenLimited? <==> !noRequests && noTokens)
            && (v.DailyRequestLimited? <==> !noRequests && !noTokens && noDayRequests)
            && (v.DailyTokenLimited? <==> !noRequests && !noTokens && !noDayRequests && noDayTokens)
  {
    CountersExact(past, start, key, now);
  }

  /** Every answer to a query, from the events before it. */
  lemma StatsExact(past: seq<Event>, start: int, key: string, now: int)
    requires Monotone(past, start) && Within(past, now) && start <= now
    ensures var admitted := Admissions(map[], past, key);
            var w, d := WindowOf(TouchTimes(past, key) + [now]), UtcDayStart(now);
            AnswerTo(TableAfter(map[], past), Event(now, Stats(key))) ==
            Counters(CountFrom(admitted, w), TokensFrom(past, key, w), CountFrom(admitted, d), TokensFrom(past, key, d))
  {
    CountersExact(past, start, key, now);
  }

  // ----- The limiter object -----

  class Limiter {
    var buckets: Buckets

    constructor ()
      ensures buckets == map[]
    {
      buckets := map[];
    }

    method Get(key: string, now: int) returns (b: Bucket)
      modifies this
      ensures key in buckets && buckets[key] == b
      ensures Roll(b, now) == Current(old(buckets), key, now)
      ensures buckets == old(buckets)[key := b]
    {
      if key !in buckets {
        buckets := buckets[key := Bucket(now, UtcDayStart(now), 0, 0, 0, 0)];
      }
      b := buckets[key];
    }

    method CheckAndReserve(key: string, rpm: int, tpm: int, dailyReq: int, dailyTok: int, now: int)
        returns (verdict: Verdict)
      modifies this
      ensures buckets == After(old(buckets), Event(now, Op.CheckAndReserve(key, Limits(rpm, tpm, dailyReq, dailyTok))))
      ensures Verdict(verdict) ==
          AnswerTo(old(buckets), Event(now, Op.CheckAndReserve(key, Limits(rpm, tpm, dailyReq, dailyTok))))
    {
      var b := Get(key, now);
      b := Roll(b, now);
      buckets := buckets[key := b];
      if rpm > 0 && b.count >= rpm { return RateLimited; }
      if tpm > 0 && b.tokens >= tpm { return TokenLimited; }
      if dailyReq > 0 && b.dayCount >= dailyReq { return DailyRequestLimited; }
      if dailyTok > 0 && b.dayTokens >= dailyTok { return DailyTokenLimited; }
      buckets := buckets[key := b.(count := b.count + 1, dayCount := b.dayCount + 1)];
      return Admitted;
    }

    method AddTokens(key: string, tokens: int, now: int)
      modifies this
      ensures buckets == After(old(buckets), Event(now, Op.AddTokens(key, tokens)))
    {
      if tokens <= 0 { return; }
      var b := Get(key, now);
      b := Roll(b, now);
      buckets := buckets[key := b.(tokens := b.tokens + tokens, dayTokens := b.dayTokens + tokens)];
    }

    method Stats(key: string, now: int) returns (count: nat, tokens: nat, dayCount: nat, dayTokens: nat)
      modifies this
      ensures buckets == After(old(buckets), Event(now, Op.Stats(key)))
      ensures Counters(count, tokens, dayCount, dayTokens) == AnswerTo(old(buckets), Event(now, Op.Stats(key)))
    {
      var b := Get(key, now);
      b := Roll(b, now);
      buckets := buckets[key := b];
      return b.count, b.tokens, b.dayCount, b.dayTokens;
    }

    /** One tick of the background sweep. */
    method Sweep(now: int)
      modifies this
      ensures buckets == After(old(buckets), Event(now, Op.Sweep))
      ensures forall k :: k in old(buckets) && k !in buckets <==>
                k in old(buckets) && now - old(buckets)[k].windowStart > 300_000_000_000 &&
                old(buckets)[k].dayCount == 0 && old(buckets)[k].dayTokens == 0
    {
      var keys := buckets.Keys;
      while keys != {}
        invariant keys <= buckets.Keys <= old(buckets).Keys
        invariant forall k :: k in buckets ==> buckets[k] == old(buckets)[k]
        invariant forall k :: k in old(buckets) && k !in keys ==> (k in buckets <==> !Idle(old(buckets)[k], now))
        decreases keys
      {
        var k :| k in keys;
        if Idle(buckets[k], now) { buckets := buckets - {k}; }
        keys := keys - {k};
      }
    }
  }
}
