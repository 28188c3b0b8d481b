/** The monthly and daily usage counters of a key, rolled lazily at UTC day and month
    boundaries. Times are nanoseconds; a calendar gives the month of each UTC day. */
module Quota {

  const DAY: int := 86_400_000_000_000

  /** Days of one month are consecutive. */
  ghost predicate Calendar(monthOf: int -> int) {
    forall a, b, c :: a <= b <= c && monthOf(a) == monthOf(c) ==> monthOf(b) == monthOf(a)
  }

  datatype Use = Use(reqs: nat, toks: nat)

  datatype Bucket = Bucket(day: int, month: int, today: Use, thisMonth: Use)

  datatype Op = AddRequest | AddTokens(n: int) | Look

  datatype Event = Event(at: int, key: string, op: Op)

  function Plus(u: Use, op: Op): Use {
    match op
    case AddRequest => u.(reqs := u.reqs + 1)
    case AddTokens(n) => if n <= 0 then u else u.(toks := u.toks + n)
    case Look => u
  }

  function Roll(monthOf: int -> int, b: Bucket, now: int): Bucket {
    var day := now / DAY;
    var d := if now > (b.day + 1) * DAY || day != b.day then b.(day := day, today := Use(0, 0)) else b;
    if monthOf(day) != d.month then d.(month := monthOf(day), thisMonth := Use(0, 0)) else d
  }

  function Current(monthOf: int -> int, bs: map<string, Bucket>, key: string, now: int): Bucket {
    Roll(monthOf, if key in bs then bs[key] else Bucket(now / DAY, monthOf(now / DAY), Use(0, 0), Use(0, 0)), now)
  }

  function After(monthOf: int -> int, bs: map<string, Bucket>, e: Event): map<string, Bucket> {
    if e.op.AddTokens? && e.op.n <= 0 then bs
    else
      var b := Current(monthOf, bs, e.key, e.at);
      bs[e.key := b.(today := Plus(b.today, e.op), thisMonth := Plus(b.thisMonth, e.op))]
  }

  function Replay(monthOf: int -> int, run: seq<Event>): map<string, Bucket> {
    if run == [] then map[] else After(monthOf, Replay(monthOf, run[..|run| - 1]), run[|run| - 1])
  }

  /** What `key` used in the period `v`, where `period` gives the period of a day. */
  function Used(run: seq<Event>, key: string, period: int -> int, v: int): Use {
    if run == [] then Use(0, 0)
    else
      var e, before := run[|run| - 1], Used(run[..|run| - 1], key, period, v);
      if e.key == key && period(e.at / DAY) == v then Plus(before, e.op) else before
  }

  function Self(): int -> int { (d: int) => d }

  predicate Monotone(run: seq<Event>) { forall i, j :: 0 <= i < j < |run| ==> run[i].at <= run[j].at }

  lemma DayMonotone(a: int, b: int)
    requires a <= b
    ensures a / DAY <= b / DAY
  {
  }

  lemma {:induction false} NothingUsedYet(run: seq<Event>, key: string, period: int -> int, v: int)
    requires forall i :: 0 <= i < |run| && run[i].key == key && !Idle(run[i].op) ==> period(run[i].at / DAY) != v
    ensures Used(run, key, period, v) == Use(0, 0)
    decreases |run|
  {
    if run != [] {
      var n := |run| - 1;
      assert forall i :: 0 <= i < n ==> run[..n][i] == run[i];
      NothingUsedYet(run[..n], key, period, v);
    }
  }

  /** Changes no counter and creates no bucket. */
  predicate Idle(op: Op) { op.AddTokens? && op.n <= 0 }

  ghost predicate Exact(monthOf: int -> int, run: seq<Event>, key: string, b: Bucket) {
    && b.today == Used(run, key, Self(), b.day)
    && b.thisMonth == Used(run, key, monthOf, b.month)
    && b.month == monthOf(b.day)
    && (forall i :: 0 <= i < |run| && run[i].key == key && !Idle(run[i].op) ==> run[i].at / DAY <= b.day)
  }

  ghost predicate KeyExact(monthOf: int -> int, run: seq<Event>, key: string) {
    var bs := Replay(monthOf, run);
    if key in bs then Exact(monthOf, run, key, bs[key])
    else forall i :: 0 <= i < |run| && run[i].key == key ==> Idle(run[i].op)
  }

  /** The day test of the source, with its redundant first part, is a change of day. */
  lemma RollIsDayChange(monthOf: int -> int, b: Bucket, now: int)
    requires b.month == monthOf(b.day)
    ensures Roll(monthOf, b, now).day == now / DAY && Roll(monthOf, b, now).month == monthOf(now / DAY)
    ensures Roll(monthOf, b, now).today == if now / DAY == b.day then b.today else Use(0, 0)
    ensures Roll(monthOf, b, now).thisMonth == if monthOf(now / DAY) == b.month then b.thisMonth else Use(0, 0)
  {
  }

  lemma RollKeepsExact(monthOf: int -> int, run: seq<Event>, key: string, b: Bucket, now: int)
    requires Calendar(monthOf) && Exact(monthOf, run, key, b) && b.day <= now / DAY
    ensures Exact(monthOf, run, key, Roll(monthOf, b, now))
  {
    RollIsDayChange(monthOf, b, now);
    var day := now / DAY;
    if day != b.day { NothingUsedYet(run, key, Self(), day); }
    if monthOf(day) != b.month { NothingUsedYet(run, key, monthOf, monthOf(day)); }
  }

  lemma CurrentExact(monthOf: int -> int, run: seq<Event>, key: string, now: int)
    requires Calendar(monthOf) && KeyExact(monthOf, run, key)
    requires key in Replay(monthOf, run) ==> Replay(monthOf, run)[key].day <= now / DAY
    ensures Exact(monthOf, run, key, Current(monthOf, Replay(monthOf, run), key, now))
  {
    var bs := Replay(monthOf, run);
    if key in bs {
      RollKeepsExact(monthOf, run, key, bs[key], now);
    } else {
      NothingUsedYet(run, key, Self(), now / DAY);
      NothingUsedYet(run, key, monthOf, monthOf(now / DAY));
    }
  }

  lemma ExactSnoc(monthOf: int -> int, run: seq<Event>, e: Event, b: Bucket)
    requires Exact(monthOf, run, e.key, b) && b.day == e.at / DAY
    ensures Exact(monthOf, run + [e], e.key, b.(today := Plus(b.today, e.op), thisMonth := Plus(b.thisMonth, e.op)))
  {
    assert (run + [e])[..|run|] == run;
  }

  lemma {:induction false} BucketDayReached(monthOf: int -> int, run: seq<Event>, key: string, now: int)
    requires Monotone(run) && (forall i :: 0 <= i < |run| ==> run[i].at <= now) && key in Replay(monthOf, run)
    ensures Replay(monthOf, run)[key].day <= now / DAY
    decreases |run|
  {
    var n := |run| - 1;
    var e, before := run[n], run[..n];
    assert forall i :: 0 <= i < n ==> before[i] == run[i];
    if e.key == key && !Idle(e.op) {
      DayMonotone(e.at, now);
    } else {
      BucketDayReached(monthOf, before, key, now);
    }
  }

  lemma {:induction false} ReplayExact(monthOf: int -> int, run: seq<Event>, key: string)
    requires Calendar(monthOf) && Monotone(run)
    ensures KeyExact(monthOf, run, key)
    decreases |run|
  {
    if run != [] {
      var n := |run| - 1;
      var e, before := run[n], run[..n];
      assert run == before + [e];
      assert forall i :: 0 <= i < n ==> before[i] == run[i];
      ReplayExact(monthOf, before, key);
      if e.key == key && !Idle(e.op) {
        if key in Replay(monthOf, before) { BucketDayReached(monthOf, before, key, e.at); }
        CurrentExact(monthOf, before, key, e.at);
        ExactSnoc(monthOf, before, e, Current(monthOf, Replay(monthOf, before), key, e.at));
      }
    }
  }

  /** For every run with times that never go back, the counters a call at `now` sees are exactly what the key used
      in the current UTC day and in the current month. */
  lemma CountersExact(monthOf: int -> int, run: seq<Event>, key: string, now: int)
    requires Calendar(monthOf) && Monotone(run) && forall i :: 0 <= i < |run| ==> run[i].at <= now
    ensures var b := Current(monthOf, Replay(monthOf, run), key, now);
            b.today == Used(run, key, Self(), now / DAY) && b.thisMonth == Used(run, key, monthOf, monthOf(now / DAY))
  {
    ReplayExact(monthOf, run, key);
    var bs := Replay(monthOf, run);
    if key in bs { BucketDayReached(monthOf, run, key, now); }
    CurrentExact(monthOf, run, key, now);
    RollIsDayChange(monthOf, if key in bs then bs[key] else Bucket(now / DAY, monthOf(now / DAY), Use(0, 0), Use(0, 0)),
        now);
  }

  datatype Verdict = Ok | DailyRequests | MonthlyRequests | DailyTokens | MonthlyTokens

  /** A limit of zero or less is no limit. */
  function Judge(b: Bucket, dayReq: int, dayTok: int, monthReq: int, monthTok: int): Verdict {
    if dayReq > 0 && b.today.reqs >= dayReq then DailyRequests
    else if monthReq > 0 && b.thisMonth.reqs >= monthReq then MonthlyRequests
    else if dayTok > 0 && b.today.toks >= dayTok then DailyTokens
    else if monthTok > 0 && b.thisMonth.toks >= monthTok then MonthlyTokens
    else Ok
  }

  /** How often the key was admitted in the period `v`. */
  function RequestsIn(run: seq<Event>, key: string, period: int -> int, v: int): nat {
    if run == [] then 0
    else
      var e := run[|run| - 1];
      RequestsIn(run[..|run| - 1], key, period, v) +
      (if e.key == key && e.op.AddRequest? && period(e.at / DAY) == v then 1 else 0)
  }

  /** The tokens added for the key in the period `v`. */
  function TokensIn(run: seq<Event>, key: string, period: int -> int, v: int): nat {
    if run == [] then 0
    else
      var e := run[|run| - 1];
      TokensIn(run[..|run| - 1], key, period, v) +
      (if e.key == key && e.op.AddTokens? && e.op.n > 0 && period(e.at / DAY) == v then e.op.n else 0)
  }

  lemma {:induction false} UsedExact(run: seq<Event>, key: string, period: int -> int, v: int)
    ensures Used(run, key, period, v) == Use(RequestsIn(run, key, period, v), TokensIn(run, key, period, v))
    decreases |run|
  {
    if run != [] { UsedExact(run[..|run| - 1], key, period, v); }
  }

  /** Every verdict, from the events before it: no limit that is set is reached, or the first one that is gets named, in
      the order day requests, month requests, day tokens, month tokens. */
  lemma VerdictsExact(monthOf: int -> int, run: seq<Event>, key: string, now: int, dayReq: int, dayTok: int,
      monthReq: int, monthTok: int)
    requires Calendar(monthOf) && Monotone(run) && forall i :: 0 <= i < |run| ==> run[i].at <= now
    ensures var verdict := Judge(Current(monthOf, Replay(monthOf, run), key, now), dayReq, dayTok, monthReq, monthTok);
            var day, month := now / DAY, monthOf(now / DAY);
            var a := dayReq > 0 && RequestsIn(run, key, Self(), day) >= dayReq;
            var b := monthReq > 0 && RequestsIn(run, key, monthOf, month) >= monthReq;
            var c := dayTok > 0 && TokensIn(run, key, Self(), day) >= dayTok;
            var d := monthTok > 0 && TokensIn(run, key, monthOf, month) >= monthTok;
            && (verdict.Ok? <==> !a && !b && !c && !d)
            && (verdict.DailyRequests? <==> a) && (verdict.MonthlyRequests? <==> !a && b)
            && (verdict.DailyTokens? <==> !a && !b && c) && (verdict.MonthlyTokens? <==> !a && !b && !c && d)
  {
    CountersExact(monthOf, run, key, now);
    UsedExact(run, key, Self(), now / DAY);
    UsedExact(run, key, monthOf, monthOf(now / DAY));
  }

  class Manager {
    const monthOf: int -> int
    var buckets: map<string, Bucket>

    constructor (monthOf: int -> int)
      ensures buckets == map[] && this.monthOf == monthOf
    {
      this.monthOf := monthOf;
      buckets := map[];
    }

    /** Finds or creates the key's bucket and rolls it. */
    method Fetch(key: string, now: int) returns (b: Bucket)
      modifies this
      ensures b == Current(monthOf, old(buckets), key, now) && buckets == old(buckets)[key := b]
    {
      if key !in buckets {
        buckets := buckets[key := Bucket(now / DAY, monthOf(now / DAY), Use(0, 0), Use(0, 0))];
      }
      b := Roll(monthOf, buckets[key], now);
      buckets := buckets[key := b];
    }

    method Check(key: string, dayReq: int, dayTok: int, monthReq: int, monthTok: int, now: int) returns (v: Verdict)
      modifies this
      ensures buckets == After(monthOf, old(buckets), Event(now, key, Look))
      ensures v == Judge(Current(monthOf, old(buckets), key, now), dayReq, dayTok, monthReq, monthTok)
    {
      var b := Fetch(key, now);
      if dayReq > 0 && b.today.reqs >= dayReq { return DailyRequests; }
      if monthReq > 0 && b.thisMonth.reqs >= monthReq { return MonthlyRequests; }
      if dayTok > 0 && b.today.toks >= dayTok { return DailyTokens; }
      if monthTok > 0 && b.thisMonth.toks >= monthTok { return MonthlyTokens; }
      return Ok;
    }

    method Usage(key: string, now: int) returns (today: Use, thisMonth: Use)
      modifies this
      ensures buckets == After(monthOf, old(buckets), Event(now, key, Look))
      ensures var b := Current(monthOf, old(buckets), key, now); today == b.today && thisMonth == b.thisMonth
    {
      var b := Fetch(key, now);
      return b.today, b.thisMonth;
    }

    method AddRequest(key: string, now: int)
      modifies this
      ensures buckets == After(monthOf, old(buckets), Event(now, key, Op.AddRequest))
    {
      var b := Fetch(key, now);
      var t, m := b.today, b.thisMonth;
      buckets := buckets[key := b.(today := t.(reqs := t.reqs + 1), thisMonth := m.(reqs := m.reqs + 1))];
    }

    method AddTokens(key: string, tokens: int, now: int)
      modifies this
      ensures buckets == After(monthOf, old(buckets), Event(now, key, Op.AddTokens(tokens)))
    {
      if tokens <= 0 { return; }
      var b := Fetch(key, now);
      var t, m := b.today, b.thisMonth;
      buckets := buckets[key := b.(today := t.(toks := t.toks + tokens), thisMonth := m.(toks := m.toks + tokens))];
    }
  }
}
