/** Choosing one backend of a candidate list: weighted round robin over a
    per-model counter, plain round robin, sticky assignment, and the two greedy policies. */
module Balancer {
  import opened Options

  datatype Candidate = Candidate(id: string, weight: int, active: int, latency: int)

  datatype Policy = WeightedRoundRobin | RoundRobin | LeastConnections | LeastLatency | Sticky

  /** The counter is an unsigned 64-bit number. */
  const WRAP: nat := 0x1_0000_0000_0000_0000

  /** A negative weight counts as one, zero as no traffic. */
  function Effective(w: int): nat { if w < 0 then 1 else w }

  function Total(cs: seq<Candidate>): nat {
    if cs == [] then 0 else Total(cs[..|cs| - 1]) + Effective(cs[|cs| - 1].weight)
  }

  /** Total weight listed before candidate `i`. */
  function Before(cs: seq<Candidate>, i: nat): nat
    requires i <= |cs|
  {
    Total(cs[..i])
  }

  /** The counter value gives the turn to candidate `i`. */
  predicate Chosen(cs: seq<Candidate>, counter: nat, i: nat) {
    Total(cs) > 0 && i < |cs| && Before(cs, i) <= counter % Total(cs) < Before(cs, i) + Effective(cs[i].weight)
  }

  function CounterOf(counters: map<string, nat>, model: string): nat {
    if model in counters then counters[model] else 0
  }

  function StickyKey(model: string, key: string): string { model + "|" + key }

  /** The key has been given a backend for the model, and that backend is a candidate. */
  predicate Held(sticky: map<string, string>, model: string, key: string, cs: seq<Candidate>) {
    && key != "" && StickyKey(model, key) in sticky
    && exists j :: 0 <= j < |cs| && cs[j].id == sticky[StickyKey(model, key)]
  }

  /** The turn goes by weight and uses up one counter value; without any weight the first candidate is taken. */
  predicate TakesTurn(cs: seq<Candidate>, model: string, i: nat, before: map<string, nat>, after: map<string, nat>) {
    if Total(cs) > 0 then
      && Chosen(cs, CounterOf(before, model), i)
      && after == before[model := (CounterOf(before, model) + 1) % WRAP]
    else i == 0 && after == before
  }

  /** A held key gets its own backend back and nothing changes; otherwise a turn is taken, and remembered unless the
      key is empty. */
  predicate Sticks(cs: seq<Candidate>, model: string, key: string, i: nat, counters: map<string, nat>,
                   counters': map<string, nat>, sticky: map<string, string>, sticky': map<string, string>)
    requires i < |cs|
  {
    if Held(sticky, model, key, cs) then
      cs[i].id == sticky[StickyKey(model, key)] && counters' == counters && sticky' == sticky
    else
      && TakesTurn(cs, model, i, counters, counters')
      && sticky' == if key == "" then sticky else sticky[StickyKey(model, key) := cs[i].id]
  }

  lemma BeforeNext(cs: seq<Candidate>, i: nat)
    requires i < |cs|
    ensures Before(cs, i + 1) == Before(cs, i) + Effective(cs[i].weight)
  {
    assert cs[..i + 1][..i] == cs[..i];
  }

  lemma BeforeMonotone(cs: seq<Candidate>, i: nat, j: nat)
    requires i <= j <= |cs|
    ensures Before(cs, i) <= Before(cs, j)
    decreases j - i
  {
    if i < j {
      BeforeNext(cs, j - 1);
      BeforeMonotone(cs, i, j - 1);
    }
  }

  /** Every counter value gives the turn to at most one candidate. */
  lemma ChosenIsUnique(cs: seq<Candidate>, counter: nat, i: nat, j: nat)
    requires Chosen(cs, counter, i) && Chosen(cs, counter, j)
    ensures i == j
  {
    if i < j {
      BeforeNext(cs, i);
      BeforeMonotone(cs, i + 1, j);
    } else if j < i {
      BeforeNext(cs, j);
      BeforeMonotone(cs, j + 1, i);
    }
  }

  // ----- Exact shares -----

  /** How many of the counter values start .. start+n-1 fall in [lo, hi) modulo `w`. */
  function Hits(lo: nat, hi: nat, w: nat, start: nat, n: nat): nat
    requires w > 0
  {
    if n == 0 then 0
    else Hits(lo, hi, w, start, n - 1) + (if lo <= (start + n - 1) % w < hi then 1 else 0)
  }

  lemma {:induction false} HitsSplit(lo: nat, hi: nat, w: nat, start: nat, a: nat, b: nat)
    requires w > 0
    ensures Hits(lo, hi, w, start, a + b) == Hits(lo, hi, w, start, a) + Hits(lo, hi, w, start + a, b)
    decreases b
  {
    if b > 0 { HitsSplit(lo, hi, w, start, a, b - 1); }
  }

  lemma AtLeastOnce(k: int, w: nat)
    requires k >= 1
    ensures k * w >= w
  {
    assert k * w == (k - 1) * w + w;
  }

  lemma DivModUnique(x: nat, w: nat, q: nat, r: nat)
    requires w > 0 && r < w && x == q * w + r
    ensures x % w == r && x / w == q
  {
    var q' := x / w;
    assert x == q' * w + x % w && x % w < w;
    assert q * w - q' * w == (q - q') * w == -((q' - q) * w);
    if q' < q {
      AtLeastOnce(q - q', w);
      assert false;
    } else if q < q' {
      AtLeastOnce(q' - q, w);
      assert false;
    }
  }

  lemma ModPeriod(x: nat, w: nat)
    requires w > 0
    ensures (x + w) % w == x % w
  {
    var q := x / w;
    assert x == q * w + x % w;
    assert (q + 1) * w == q * w + w;
    DivModUnique(x + w, w, q + 1, x % w);
  }

  lemma {:induction false} FirstLap(lo: nat, hi: nat, w: nat, n: nat)
    requires lo <= hi <= w && n <= w && w > 0
    ensures Hits(lo, hi, w, 0, n) == if n <= lo then 0 else if n <= hi then n - lo else hi - lo
    decreases n
  {
    if n > 0 {
      FirstLap(lo, hi, w, n - 1);
      DivModUnique(n - 1, w, 0, n - 1);
    }
  }

  lemma {:induction false} AnyLap(lo: nat, hi: nat, w: nat, start: nat)
    requires lo <= hi <= w && w > 0
    ensures Hits(lo, hi, w, start, w) == hi - lo
    decreases start
  {
    if start == 0 {
      FirstLap(lo, hi, w, w);
    } else {
      AnyLap(lo, hi, w, start - 1);
      HitsSplit(lo, hi, w, start - 1, 1, w);
      HitsSplit(lo, hi, w, start - 1, w, 1);
      assert Hits(lo, hi, w, start - 1 + w, 0) == 0 && Hits(lo, hi, w, start - 1, 0) == 0;
      ModPeriod(start - 1, w);
    }
  }

  /** `laps` times `w`, as repeated addition. */
  function Rep(laps: nat, w: nat): nat {
    if laps == 0 then 0 else Rep(laps - 1, w) + w
  }

  lemma {:induction false} RepIsProduct(laps: nat, w: nat)
    ensures Rep(laps, w) == laps * w
  {
    if laps > 0 {
      RepIsProduct(laps - 1, w);
      assert laps * w == (laps - 1) * w + w;
    }
  }

  lemma {:induction false} ManyLaps(lo: nat, w: nat, whole: nat, start: nat, laps: nat, rest: nat)
    requires lo + w <= whole && rest < whole
    ensures Rep(laps, w) <= Hits(lo, lo + w, whole, start, Rep(laps, whole) + rest) <= Rep(laps, w) + w
    ensures Hits(lo, lo + w, whole, start, Rep(laps, whole) + rest) <= Rep(laps, w) + rest
    decreases laps
  {
    if laps == 0 {
      HitsAtMost(lo, lo + w, whole, start, rest);
      AnyLap(lo, lo + w, whole, start);
      HitsSplit(lo, lo + w, whole, start, rest, whole - rest);
    } else {
      ManyLaps(lo, w, whole, start + whole, laps - 1, rest);
      AnyLap(lo, lo + w, whole, start);
      HitsSplit(lo, lo + w, whole, start, whole, Rep(laps - 1, whole) + rest);
    }
  }

  lemma HitsAtMost(lo: nat, hi: nat, w: nat, start: nat, n: nat)
    requires w > 0
    ensures Hits(lo, hi, w, start, n) <= n
  {
  }

  /** How often `i` appears. */
  function Times(picks: seq<nat>, i: nat): nat {
    if picks == [] then 0 else Times(picks[..|picks| - 1], i) + (if picks[|picks| - 1] == i then 1 else 0)
  }

  /** The calls of a run got their turns from consecutive counter values. */
  predicate Consecutive(cs: seq<Candidate>, start: nat, picks: seq<nat>) {
    forall j :: 0 <= j < |picks| ==> Chosen(cs, start + j, picks[j])
  }

  lemma ConsecutiveSnoc(cs: seq<Candidate>, start: nat, picks: seq<nat>, i: nat)
    requires Consecutive(cs, start, picks) && Chosen(cs, start + |picks|, i)
    ensures Consecutive(cs, start, picks + [i])
  {
  }

  lemma {:induction false} TimesAreHits(cs: seq<Candidate>, start: nat, picks: seq<nat>, i: nat)
    requires Total(cs) > 0 && i < |cs| && Consecutive(cs, start, picks)
    ensures Times(picks, i) == Hits(Before(cs, i), Before(cs, i) + Effective(cs[i].weight), Total(cs), start, |picks|)
    decreases |picks|
  {
    if picks != [] {
      var n := |picks| - 1;
      TimesAreHits(cs, start, picks[..n], i);
      assert Chosen(cs, start + n, picks[n]);
      if Chosen(cs, start + n, i) { ChosenIsUnique(cs, start + n, i, picks[n]); }
    }
  }

  /** What a weight of `w` gets in `laps` whole laps and `rest` more turns. */
  predicate Share(got: nat, w: nat, laps: nat, rest: nat) {
    && laps * w <= got <= laps * w + w
    && got <= laps * w + rest
  }

  lemma HitsAreShares(got: nat, lo: nat, w: nat, whole: nat, start: nat, n: nat, laps: nat, rest: nat)
    requires lo + w <= whole && n == laps * whole + rest && rest < whole
    requires got == Hits(lo, lo + w, whole, start, n)
    ensures Share(got, w, laps, rest)
    ensures w == 0 ==> got == 0
  {
    RepIsProduct(laps, whole);
    RepIsProduct(laps, w);
    ManyLaps(lo, w, whole, start, laps, rest);
  }

  lemma WithinTotal(cs: seq<Candidate>, i: nat)
    requires i < |cs|
    ensures Before(cs, i) + Effective(cs[i].weight) <= Total(cs)
  {
    BeforeNext(cs, i);
    BeforeMonotone(cs, i + 1, |cs|);
    assert cs[..|cs|] == cs;
  }

  /** Weighted round robin is exact: over n = laps*W + rest consecutive turns, a candidate of weight w of a total W is
      picked between laps*w and laps*w + min(w, rest) times, so exactly w times in W turns, and never if w is 0. */
  lemma FairShares(cs: seq<Candidate>, start: nat, picks: seq<nat>, i: nat, laps: nat, rest: nat)
    requires i < |cs| && Consecutive(cs, start, picks)
    requires |picks| == laps * Total(cs) + rest && rest < Total(cs)
    ensures Share(Times(picks, i), if cs[i].weight < 0 then 1 else cs[i].weight, laps, rest)
    ensures cs[i].weight == 0 ==> Times(picks, i) == 0
  {
    WithinTotal(cs, i);
    TimesAreHits(cs, start, picks, i);
    HitsAreShares(Times(picks, i), Before(cs, i), Effective(cs[i].weight), Total(cs), start, |picks|, laps, rest);
  }

  /** `n` turns are `laps` laps of `whole` and `rest` more. */
  predicate Laps(n: nat, whole: nat, laps: nat, rest: nat) { n == laps * whole + rest && rest < whole }

  /** Every candidate got its share of the picks. */
  predicate FairlyShared(cs: seq<Candidate>, picks: seq<nat>, laps: nat, rest: nat) {
    forall i: nat :: i < |cs| ==> Share(Times(picks, i), Effective(cs[i].weight), laps, rest)
  }

  lemma RunsAreFair(cs: seq<Candidate>, start: nat, picks: seq<nat>, laps: nat, rest: nat)
    requires Laps(|picks|, Total(cs), laps, rest) && Consecutive(cs, start, picks)
    ensures FairlyShared(cs, picks, laps, rest)
  {
    forall i: nat | i < |cs| ensures Share(Times(picks, i), Effective(cs[i].weight), laps, rest) {
      FairShares(cs, start, picks, i, laps, rest);
    }
  }

  /** Plain round robin is fair in the same sense, with every candidate weighing one. */
  lemma RoundRobinShares(len: nat, start: nat, picks: seq<nat>, i: nat, laps: nat, rest: nat)
    requires i < len && forall j :: 0 <= j < |picks| ==> picks[j] == (start + j) % len
    requires |picks| == laps * len + rest && rest < len
    ensures Share(Times(picks, i), 1, laps, rest)
  {
    RoundRobinHits(len, start, picks, i);
    HitsAreShares(Times(picks, i), i, 1, len, start, |picks|, laps, rest);
  }

  lemma {:induction false} RoundRobinHits(len: nat, start: nat, picks: seq<nat>, i: nat)
    requires i < len && forall j :: 0 <= j < |picks| ==> picks[j] == (start + j) % len
    ensures Times(picks, i) == Hits(i, i + 1, len, start, |picks|)
    decreases |picks|
  {
    if picks != [] { RoundRobinHits(len, start, picks[..|picks| - 1], i); }
  }

  // ----- The balancer object -----

  class Balancer {
    var counters: map<string, nat>
    var sticky: map<string, string>

    constructor ()
      ensures counters == map[] && sticky == map[]
    {
      counters, sticky := map[], map[];
    }

    ghost predicate Valid()
      reads this
    {
      forall m :: m in counters ==> counters[m] < WRAP
    }

    /** Returns the counter's value and advances it, wrapping at 64 bits. */
    method Tick(model: string) returns (idx: nat)
      requires Valid()
      modifies this`counters
      ensures Valid()
      ensures idx == CounterOf(old(counters), model) < WRAP && (model !in old(counters) ==> idx == 0)
      ensures counters == old(counters)[model := (idx + 1) % WRAP]
    {
      idx := CounterOf(counters, model);
      counters := counters[model := (idx + 1) % WRAP];
    }

    /** The turn belongs to the candidate whose weight interval holds the counter; with no
        weight at all the first candidate is used and the counter stays. */
    method ChooseWeightedRR(model: string, cs: seq<Candidate>) returns (i: nat)
      requires Valid() && cs != []
      modifies this`counters
      ensures Valid() && i < |cs|
      ensures TakesTurn(cs, model, i, old(counters), counters)
    {
      var totalWeight := 0;
      i := 0;
      while i < |cs|
        invariant i <= |cs| && totalWeight == Before(cs, i)
        invariant counters == old(counters)
      {
        BeforeNext(cs, i);
        totalWeight := totalWeight + (if cs[i].weight < 0 then 1 else cs[i].weight);
        i := i + 1;
      }
      assert cs[..|cs|] == cs;
      if totalWeight <= 0 { return 0; }
      var idx := Tick(model);
      var target := idx % totalWeight;
      i := 0;
      while i < |cs|
        invariant i <= |cs| && 0 <= target
        invariant target + Before(cs, i) == idx % totalWeight
        invariant Valid() && counters == old(counters)[model := (idx + 1) % WRAP]
      {
        BeforeNext(cs, i);
        var w := if cs[i].weight < 0 then 1 else cs[i].weight;
        if w != 0 {
          if target < w { return; }
          target := target - w;
        }
        i := i + 1;
      }
      assert false;
    }

    /** A key keeps the backend it was given for as long as that backend is a candidate; otherwise it
        is given one by weight, and keeps that. */
    method ChooseSticky(model: string, cs: seq<Candidate>, apiKeyID: string) returns (i: nat)
      requires Valid() && cs != []
      modifies this
      ensures Valid() && i < |cs|
      ensures Sticks(cs, model, apiKeyID, i, old(counters), counters, old(sticky), sticky)
    {
      if apiKeyID == "" {
        i := ChooseWeightedRR(model, cs);
        return;
      }
      var key := StickyKey(model, apiKeyID);
      if key in sticky {
        i := 0;
        while i < |cs|
          invariant i <= |cs|
          invariant forall j :: 0 <= j < i ==> cs[j].id != sticky[key]
          invariant Valid() && counters == old(counters) && sticky == old(sticky)
        {
          if cs[i].id == sticky[key] { return; }
          i := i + 1;
        }
      }
      i := ChooseWeightedRR(model, cs);
      sticky := sticky[key := cs[i].id];
    }

    /** Nothing is chosen from nothing; a single candidate is chosen without using up a turn. */
    method Choose(model: string, policy: Policy, cs: seq<Candidate>, apiKeyID: string) returns (choice: Option<nat>)
      requires Valid()
      modifies this
      ensures Valid()
      ensures choice.None? <==> cs == []
      ensures choice.Some? ==> choice.value < |cs|
      ensures |cs| <= 1 ==> counters == old(counters) && sticky == old(sticky)
      ensures |cs| > 1 && policy.WeightedRoundRobin? ==> TakesTurn(cs, model, choice.value, old(counters), counters)
      ensures |cs| > 1 && policy.RoundRobin? ==>
                && choice.value == CounterOf(old(counters), model) % |cs|
                && counters == old(counters)[model := (CounterOf(old(counters), model) + 1) % WRAP]
      ensures |cs| > 1 && policy.Sticky? ==>
          Sticks(cs, model, apiKeyID, choice.value, old(counters), counters, old(sticky), sticky)
      ensures |cs| > 1 && policy.LeastConnections? ==> LeastLoaded(cs, choice.value)
      ensures |cs| > 1 && policy.LeastLatency? ==> Quickest(cs, choice.value)
      ensures policy.LeastConnections? || policy.LeastLatency? ==> counters == old(counters)
      ensures !policy.Sticky? ==> sticky == old(sticky)
    {
      if |cs| == 0 { return None; }
      if |cs| == 1 { return Some(0); }
      var i;
      match policy {
        case LeastConnections => i := ChooseLeast(cs);
        case LeastLatency => i := ChooseLeastLatency(cs);
        case RoundRobin =>
          i := Tick(model);
          i := i % |cs|;
        case Sticky => i := ChooseSticky(model, cs, apiKeyID);
        case WeightedRoundRobin => i := ChooseWeightedRR(model, cs);
      }
      return Some(i);
    }
  }

  /** A run of weighted choices from one list, as long as the counter does not wrap: every candidate gets its share. */
  method Distribution(b: Balancer, model: string, cs: seq<Candidate>, n: nat, ghost laps: nat, ghost rest: nat)
    returns (picks: seq<nat>)
    requires b.Valid() && Laps(n, Total(cs), laps, rest) && CounterOf(b.counters, model) + n <= WRAP
    modifies b
    ensures |picks| == n && Consecutive(cs, old(CounterOf(b.counters, model)), picks)
    ensures FairlyShared(cs, picks, laps, rest)
  {
    picks := WeightedRun(b, model, cs, n);
    RunsAreFair(cs, old(CounterOf(b.counters, model)), picks, laps, rest);
  }

  method WeightedRun(b: Balancer, model: string, cs: seq<Candidate>, n: nat) returns (picks: seq<nat>)
    requires b.Valid() && Total(cs) > 0 && CounterOf(b.counters, model) + n <= WRAP
    modifies b
    ensures |picks| == n && Consecutive(cs, old(CounterOf(b.counters, model)), picks)
  {
    picks := [];
    ghost var start := CounterOf(b.counters, model);
    for j := 0 to n
      invariant b.Valid() && |picks| == j
      invariant start + j < WRAP ==> CounterOf(b.counters, model) == start + j
      invariant Consecutive(cs, start, picks)
    {
      var i := b.ChooseWeightedRR(model, cs);
      ConsecutiveSnoc(cs, start, picks, i);
      picks := picks + [i];
    }
  }

  /** The picks of a plain round robin run. */
  predicate InTurn(len: nat, start: nat, picks: seq<nat>) {
    len > 0 && forall j :: 0 <= j < |picks| ==> picks[j] == (start + j) % len
  }

  lemma RoundRobinIsFair(len: nat, start: nat, picks: seq<nat>, laps: nat, rest: nat)
    requires Laps(|picks|, len, laps, rest) && InTurn(len, start, picks)
    ensures forall i: nat :: i < len ==> Share(Times(picks, i), 1, laps, rest)
  {
    forall i: nat | i < len ensures Share(Times(picks, i), 1, laps, rest) {
      RoundRobinShares(len, start, picks, i, laps, rest);
    }
  }

  /** The same for plain round robin, through the balancer's own dispatch. */
  method EvenDistribution(b: Balancer, model: string, cs: seq<Candidate>, n: nat, ghost laps: nat, ghost rest: nat)
    returns (picks: seq<nat>)
    requires b.Valid() && |cs| > 1 && Laps(n, |cs|, laps, rest) && CounterOf(b.counters, model) + n <= WRAP
    modifies b
    ensures |picks| == n && InTurn(|cs|, old(CounterOf(b.counters, model)), picks)
    ensures forall i: nat :: i < |cs| ==> Share(Times(picks, i), 1, laps, rest)
  {
    picks := RoundRobinRun(b, model, cs, n);
    RoundRobinIsFair(|cs|, old(CounterOf(b.counters, model)), picks, laps, rest);
  }

  method RoundRobinRun(b: Balancer, model: string, cs: seq<Candidate>, n: nat) returns (picks: seq<nat>)
    requires b.Valid() && |cs| > 1 && CounterOf(b.counters, model) + n <= WRAP
    modifies b
    ensures |picks| == n && InTurn(|cs|, old(CounterOf(b.counters, model)), picks)
  {
    picks := [];
    ghost var start := CounterOf(b.counters, model);
    for j := 0 to n
      invariant b.Valid() && |picks| == j
      invariant start + j < WRAP ==> CounterOf(b.counters, model) == start + j
      invariant InTurn(|cs|, start, picks)
    {
      var choice := b.Choose(model, RoundRobin, cs, "");
      picks := picks + [choice.value];
    }
  }

  /** The first of the candidates with the fewest active requests. */
  predicate LeastLoaded(cs: seq<Candidate>, i: nat) {
    && i < |cs|
    && (forall j :: 0 <= j < |cs| ==> cs[i].active <= cs[j].active)
    && (forall j :: 0 <= j < i ==> cs[i].active < cs[j].active)
  }

  /** The first of the lowest positive latencies if anyone has one, else the first candidate. */
  predicate Quickest(cs: seq<Candidate>, i: nat) {
    && i < |cs|
    && (if cs[i].latency > 0 then
          && (forall j :: 0 <= j < |cs| && cs[j].latency > 0 ==> cs[i].latency <= cs[j].latency)
          && (forall j :: 0 <= j < i && cs[j].latency > 0 ==> cs[i].latency < cs[j].latency)
        else i == 0 && forall j :: 0 <= j < |cs| ==> cs[j].latency <= 0)
  }

  method ChooseLeast(cs: seq<Candidate>) returns (best: nat)
    requires cs != []
    ensures LeastLoaded(cs, best)
  {
    best := 0;
    for i := 0 to |cs|
      invariant best < |cs| && best <= i
      invariant forall j :: 0 <= j < i ==> cs[best].active <= cs[j].active
      invariant forall j :: 0 <= j < best ==> cs[best].active < cs[j].active
    {
      if cs[i].active < cs[best].active { best := i; }
    }
  }

  method ChooseLeastLatency(cs: seq<Candidate>) returns (best: nat)
    requires cs != []
    ensures Quickest(cs, best)
  {
    best := 0;
    var bestLat := if cs[0].latency > 0 then cs[0].latency else -1;
    for i := 0 to |cs|
      invariant best < |cs| && best <= i
      invariant forall j :: 0 <= j < best && cs[j].latency > 0 ==> bestLat < cs[j].latency
      invariant if bestLat < 0 then best == 0 && cs[0].latency <= 0 && (forall j :: 0 <= j < i ==> cs[j].latency <= 0)
                else cs[best].latency == bestLat > 0 && forall j :: 0 <= j < i && cs[j].latency > 0 ==>
                    bestLat <= cs[j].latency
    {
      if cs[i].latency > 0 && (bestLat < 0 || cs[i].latency < bestLat) {
        best, bestLat := i, cs[i].latency;
      }
    }
  }

  /** Two pairs share a sticky slot only if a model name contains the separator. */
  lemma StickyKeysApart(model: string, key: string, model': string, key': string)
    requires '|' !in model && '|' !in model' && StickyKey(model, key) == StickyKey(model', key')
    ensures model == model' && key == key'
  {
    var s := StickyKey(model, key);
    assert s[|model|] == '|' && s[|model'|] == '|';
    assert model == s[..|model|] && model' == s[..|model'|];
    assert key == s[|model| + 1..] && key' == s[|model'| + 1..];
  }
}
