/** What the concurrency limit and the monthly request limit of a key amount to over every interleaving of
    admissions, and that the monthly bound cannot be improved. */
module AdmissionCaps {
  import opened Admission
  import opened Counting
  import opened Options

  /** Every request of `run` under the key `name` carries these settings. */
  predicate SameSettings(run: seq<Step>, k: Key) {
    forall i :: 0 <= i < |run| && run[i].Begin? && run[i].key.Some? && run[i].key.value.id == k.id ==>
        run[i].key.value == k
  }

  predicate Settled(s: State, k: Key) {
    forall id :: id in s.tickets && s.tickets[id].key.Some? && s.tickets[id].key.value.id == k.id ==>
        s.tickets[id].key.value == k
  }

  lemma StepKeepsSettled(env: Env, s: State, step: Step, k: Key)
    requires Settled(s, k) && SameSettings([step], k) && Enabled(env, s, step)
    ensures Settled(Apply(env, s, step), k)
  {
    assert [step][0] == step;
    StepFrame(env, s, step);
    var u := Apply(env, s, step);
    if !step.NewMonth? && !step.Begin? { assert u.tickets[step.id].key == s.tickets[step.id].key; }
  }

  lemma StepKeepsConcurrencyCap(env: Env, s: State, step: Step, k: Key)
    requires Settled(s, k) && Enabled(env, s, step) && Get(s.current, k.id) <= k.concLimit
    ensures Get(Apply(env, s, step).current, k.id) <= k.concLimit
  {
  }

  lemma HeadAndTail(run: seq<Step>, k: Key)
    requires run != [] && SameSettings(run, k)
    ensures SameSettings([run[0]], k) && SameSettings(run[1..], k)
  {
    forall i | 0 <= i < |run[1..]| ensures run[1..][i] == run[i + 1] {}
  }

  lemma {:induction false} ConcurrencyCapFrom(env: Env, s: State, run: seq<Step>, k: Key)
    requires Settled(s, k) && SameSettings(run, k) && Possible(env, s, run) && Get(s.current, k.id) <= k.concLimit
    ensures Get(Final(env, s, run).current, k.id) <= k.concLimit
    decreases |run|
  {
    if run != [] {
      HeadAndTail(run, k);
      StepKeepsSettled(env, s, run[0], k);
      StepKeepsConcurrencyCap(env, s, run[0], k);
      ConcurrencyCapFrom(env, Apply(env, s, run[0]), run[1..], k);
    }
  }

  /** With unchanged settings, a key with a concurrency limit never has more live holders than the limit. */
  lemma ConcurrencyCap(env: Env, run: seq<Step>, k: Key)
    requires SameSettings(run, k) && Possible(env, INIT, run) && k.concLimit > 0
    ensures Count(Final(env, INIT, run).tickets, HoldsKey(k.id)) <= k.concLimit
  {
    ConcurrencyCapFrom(env, INIT, run, k);
    NothingLeaks(env, run);
    assert CountsRight(env, Final(env, INIT, run), k.id);
  }

  /** After every run, who can go on: a request at the concurrency check passes exactly when its key has no limit or
      fewer live holders than the limit, and is turned away exactly otherwise; one at the queue gets a place exactly
      when there is no queue or its scope has one free. */
  lemma GrantsExactly(env: Env, run: seq<Step>, id: nat)
    requires Possible(env, INIT, run) && id in Final(env, INIT, run).tickets
    ensures var s := Final(env, INIT, run);
            var t := s.tickets[id];
            && (t.stage.AtConcurrency? ==>
                t.key.Some? && var k := t.key.value;
                && (Enabled(env, s, TakeConcurrency(id)) <==>
                    k.concLimit <= 0 || Count(s.tickets, HoldsKey(k.id)) < k.concLimit)
                && (Enabled(env, s, Reject(id)) <==> 0 < k.concLimit <= Count(s.tickets, HoldsKey(k.id))))
            && (t.stage.AtQueue? ==>
                && (Enabled(env, s, TakeQueue(id)) <==>
                    !env.queueOn || Count(s.tickets, HoldsScope(t.model)) < env.maxConc)
                && (Enabled(env, s, Reject(id)) <==> env.queueOn))
  {
    InitInv(env);
    RunKeeps(env, INIT, run);
    var s := Final(env, INIT, run);
    var t := s.tickets[id];
    assert Shaped(env, t) && CountsRight(env, s, t.model);
    if t.key.Some? { assert CountsRight(env, s, t.key.value.id); }
  }

  function Limited(limit: int): Key { Key("k", limit, false, None) }

  const BARE := Env(false, false, 0)

  /** `n` requests hold a place of the key, under the first `n` ids. */
  ghost predicate Filled(s: State, n: nat)
      { Get(s.current, "k") == n && forall id: nat :: n <= id ==> id !in s.tickets }

  /** The same with the next request at `stage` on its way. */
  ghost predicate Filling(s: State, limit: int, n: nat, stage: Stage) {
    && Get(s.current, "k") == n && n in s.tickets && s.tickets[n] == Ticket(Some(Limited(limit)), "m", stage, [])
    && forall id: nat :: n < id ==> id !in s.tickets
  }

  lemma FillBegins(s: State, limit: nat, n: nat)
    requires Filled(s, n)
    ensures var step := Begin(n, Some(Limited(limit)), "m");
            Enabled(BARE, s, step) && Filling(Apply(BARE, s, step), limit, n, AtLimiter)
  {
  }

  lemma FillGoesOn(s: State, limit: nat, n: nat)
    ensures Filling(s, limit, n, AtLimiter) ==>
              Enabled(BARE, s, LimiterPasses(n)) && Filling(Apply(BARE, s, LimiterPasses(n)), limit, n, AtMonthly)
    ensures Filling(s, limit, n, AtMonthly) ==>
              Enabled(BARE, s, MonthlyPasses(n)) && Filling(Apply(BARE, s, MonthlyPasses(n)), limit, n, AtConcurrency)
  {
  }

  lemma FillTakes(s: State, limit: nat, n: nat)
    requires Filling(s, limit, n, AtConcurrency) && n < limit
    ensures Enabled(BARE, s, TakeConcurrency(n)) && Filled(Apply(BARE, s, TakeConcurrency(n)), n + 1)
  {
  }

  lemma FillOne(run: seq<Step>, s: State, limit: nat, n: nat) returns (longer: seq<Step>, t: State)
    requires Possible(BARE, INIT, run) && Final(BARE, INIT, run) == s && SameSettings(run, Limited(limit))
    requires Filled(s, n) && n < limit
    ensures Possible(BARE, INIT, longer) && Final(BARE, INIT, longer) == t && SameSettings(longer, Limited(limit))
    ensures Filled(t, n + 1)
  {
    var begin := Begin(n, Some(Limited(limit)), "m");
    FillBegins(s, limit, n);
    var a := Apply(BARE, s, begin);
    FillGoesOn(a, limit, n);
    var b := Apply(BARE, a, LimiterPasses(n));
    FillGoesOn(b, limit, n);
    var c := Apply(BARE, b, MonthlyPasses(n));
    FillTakes(c, limit, n);
    t := Apply(BARE, c, TakeConcurrency(n));
    longer := Extend(BARE, run, s, begin, a);
    longer := Extend(BARE, longer, a, LimiterPasses(n), b);
    longer := Extend(BARE, longer, b, MonthlyPasses(n), c);
    longer := Extend(BARE, longer, c, TakeConcurrency(n), t);
  }

  lemma {:induction false} FillAll(limit: nat, n: nat) returns (run: seq<Step>, s: State)
    requires n <= limit
    ensures Possible(BARE, INIT, run) && Final(BARE, INIT, run) == s && SameSettings(run, Limited(limit))
    ensures Filled(s, n)
    decreases n
  {
    if n == 0 { return [], INIT; }
    run, s := FillAll(limit, n - 1);
    run, s := FillOne(run, s, limit, n - 1);
  }

  /** The concurrency limit is used to the full: for every positive limit some run has exactly that many live holders.
      */
  lemma ConcurrencyCapIsReached(limit: nat) returns (env: Env, k: Key, run: seq<Step>)
    requires limit > 0
    ensures k.concLimit == limit && SameSettings(run, k) && Possible(env, INIT, run)
    ensures Count(Final(env, INIT, run).tickets, HoldsKey(k.id)) == limit
  {
    env, k := BARE, Limited(limit);
    var s;
    run, s := FillAll(limit, limit);
    NothingLeaks(env, run);
    assert CountsRight(env, s, k.id);
  }

  // ----- Every request can end -----

  function Rank(t: Ticket): nat {
    |t.releases| +
    match t.stage
    case AtLimiter => 20
    case AtMonthly => 18
    case AtConcurrency => 16
    case AtDelay => 14
    case AtQueue => 12
    case AtAccount => 10
    case Admitted => 8
    case Unwinding(_) => 4
    case Finished(_) => 0
  }

  /** What the request does next: it passes where it can, and is turned away where it cannot. */
  function NextStep(env: Env, s: State, id: nat): Step
    requires id in s.tickets
  {
    match s.tickets[id].stage
    case AtLimiter => LimiterPasses(id)
    case AtMonthly => if Enabled(env, s, MonthlyPasses(id)) then MonthlyPasses(id) else Reject(id)
    case AtConcurrency => if Enabled(env, s, TakeConcurrency(id)) then TakeConcurrency(id) else Reject(id)
    case AtDelay => DelayElapses(id)
    case AtQueue => if Enabled(env, s, TakeQueue(id)) then TakeQueue(id) else Reject(id)
    case AtAccount => Account(id)
    case Admitted => Leave(id)
    case Unwinding(_) => if s.tickets[id].releases != [] then RunRelease(id) else Finish(id)
    case Finished(_) => NewMonth
  }

  lemma NextStepEnabled(env: Env, s: State, id: nat)
    requires id in s.tickets && Shaped(env, s.tickets[id]) && !s.tickets[id].stage.Finished?
    ensures var step := NextStep(env, s, id);
            !step.NewMonth? && !step.Begin? && step.id == id && EnabledFor(env, s, step, s.tickets[id])
  {
  }

  lemma MovesDown(env: Env, s: State, step: Step, t: Ticket)
    requires !step.NewMonth? && !step.Begin? && EnabledFor(env, s, step, t)
    ensures var u := ApplyTo(env, s, step, t); step.id in u.tickets && Rank(u.tickets[step.id]) < Rank(t)
  {
    if step.RunRelease? {
      ReleaseMovesDown(s, step.id, t);
    } else {
      var t' := ApplyTo(env, s, step, t).tickets[step.id];
      assert |t'.releases| <= |t.releases| + 1;
    }
  }

  lemma ReleaseMovesDown(s: State, id: nat, t: Ticket)
    requires t.releases != []
    ensures var u := RunLast(s, id, t); id in u.tickets && Rank(u.tickets[id]) < Rank(t)
  {
  }

  /** Every step of `run` is taken by the request `id`. */
  predicate StepsOf(run: seq<Step>, id: nat) { forall i :: 0 <= i < |run| ==> !run[i].NewMonth? && run[i].id == id }

  lemma {:induction false} EndsFrom(env: Env, s: State, id: nat) returns (more: seq<Step>)
    requires Inv(env, s) && id in s.tickets
    ensures Possible(env, s, more) && StepsOf(more, id)
    ensures id in Final(env, s, more).tickets && Final(env, s, more).tickets[id].stage.Finished?
    decreases Rank(s.tickets[id])
  {
    more := [];
    if !s.tickets[id].stage.Finished? {
      var step := NextStep(env, s, id);
      NextStepEnabled(env, s, id);
      MovesDown(env, s, step, s.tickets[id]);
      StepKeeps(env, s, step);
      var rest := EndsFrom(env, Apply(env, s, step), id);
      more := [step] + rest;
      assert more[0] == step && more[1..] == rest;
    }
  }

  /** No request waits for another: after every run, each request can be brought to its end by its own steps alone,
      whatever the others hold. */
  lemma EveryRequestCanEnd(env: Env, run: seq<Step>, id: nat) returns (more: seq<Step>)
    requires Possible(env, INIT, run) && id in Final(env, INIT, run).tickets
    ensures var s := Final(env, INIT, run);
            && Possible(env, s, more) && StepsOf(more, id)
            && var t := Final(env, s, more); id in t.tickets && t.tickets[id].stage.Finished?
  {
    InitInv(env);
    RunKeeps(env, INIT, run);
    more := EndsFrom(env, Final(env, INIT, run), id);
  }

  // ----- The monthly limit -----

  predicate NoNewMonth(run: seq<Step>) { forall i :: 0 <= i < |run| ==> !run[i].NewMonth? }

  lemma {:induction false} MonthMovesWithAdded(env: Env, s: State, run: seq<Step>, key: string)
    requires Possible(env, s, run) && NoNewMonth(run)
    ensures Get(Final(env, s, run).month, key) - Get(s.month, key) ==
        Get(Final(env, s, run).added, key) - Get(s.added, key)
    decreases |run|
  {
    if run != [] {
      StepMovesBoth(env, s, run[0], key);
      forall i | 0 <= i < |run[1..]| ensures run[1..][i] == run[i + 1] {}
      MonthMovesWithAdded(env, Apply(env, s, run[0]), run[1..], key);
    }
  }

  lemma StepMovesBoth(env: Env, s: State, step: Step, key: string)
    requires Enabled(env, s, step) && !step.NewMonth?
    ensures var u := Apply(env, s, step);
            Get(u.month, key) - Get(s.month, key) == Get(u.added, key) - Get(s.added, key)
  {
  }

  /** The monthly counter is what was admitted since the month began: over every run, a month's beginning and a run
      within the month, it counts exactly the requests of the key admitted in that last part. */
  lemma MonthExact(env: Env, before: seq<Step>, after: seq<Step>, key: string)
    requires env.quotaOn && Possible(env, INIT, before) && NoNewMonth(after)
    requires Possible(env, Final(env, INIT, before).(month := map[]), after)
    ensures var reset := Final(env, INIT, before).(month := map[]);
            var s := Final(env, reset, after);
            Get(s.month, key) == Count(s.tickets, AdmittedUnder(key)) - Count(reset.tickets, AdmittedUnder(key))
  {
    var s := Final(env, INIT, before);
    var reset := Apply(env, s, NewMonth);
    InitInv(env);
    RunKeeps(env, INIT, before);
    StepKeeps(env, s, NewMonth);
    RunKeeps(env, reset, after);
    assert CountsRight(env, reset, key) && CountsRight(env, Final(env, reset, after), key);
    MonthMovesWithAdded(env, reset, after, key);
  }

  /** So the monthly check lets a request of the key pass exactly when the key has no monthly limit or fewer requests
      than that were admitted since the month began; a key with a quota can be turned away for its tokens as well. */
  lemma MonthlyGrantsExactly(env: Env, before: seq<Step>, after: seq<Step>, id: nat)
    requires env.quotaOn && Possible(env, INIT, before) && NoNewMonth(after)
    requires Possible(env, Final(env, INIT, before).(month := map[]), after)
    requires var s := Final(env, Final(env, INIT, before).(month := map[]), after);
             id in s.tickets && s.tickets[id].stage.AtMonthly?
    ensures var reset := Final(env, INIT, before).(month := map[]);
            var s := Final(env, reset, after);
            s.tickets[id].key.Some? && var k := s.tickets[id].key.value;
            var admitted := Count(s.tickets, AdmittedUnder(k.id)) - Count(reset.tickets, AdmittedUnder(k.id));
            && (Enabled(env, s, MonthlyPasses(id)) <==> !(k.monthly.Some? && 0 < k.monthly.value <= admitted))
            && (Enabled(env, s, Reject(id)) <==> k.monthly.Some?)
  {
    var s := Final(env, INIT, before);
    var reset := Apply(env, s, NewMonth);
    InitInv(env);
    RunKeeps(env, INIT, before);
    StepKeeps(env, s, NewMonth);
    RunKeeps(env, reset, after);
    var t := Final(env, reset, after).tickets[id];
    assert Shaped(env, t);
    MonthExact(env, before, after, t.key.value.id);
  }

  /** Past the monthly check, not yet accounted. */
  function InFlight(key: string): Ticket -> bool {
    (t: Ticket) => t.key.Some? && t.key.value.id == key && Flying(t.stage)
  }

  predicate Flying(stage: Stage) { stage.AtConcurrency? || stage.AtDelay? || stage.AtQueue? || stage.AtAccount? }

  /** At no point are more than `most` requests of the key between check and account. */
  ghost predicate AtMostInFlight(env: Env, s: State, run: seq<Step>, key: string, most: nat)
    requires Possible(env, s, run)
    decreases |run|
  {
    && Count(s.tickets, InFlight(key)) <= most
    && (run != [] ==> AtMostInFlight(env, Apply(env, s, run[0]), run[1..], key, most))
  }

  ghost predicate MonthlySlack(s: State, k: Key, most: nat) {
    k.monthly.Some? && Get(s.month, k.id) + Count(s.tickets, InFlight(k.id)) <= k.monthly.value - 1 + most
  }

  lemma PassingMovesSlack(env: Env, s: State, id: nat, k: Key)
    requires Enabled(env, s, MonthlyPasses(id)) && Settled(s, k)
    requires env.quotaOn && k.monthly.Some? && k.monthly.value > 0
    ensures var u := Apply(env, s, MonthlyPasses(id));
            && u.month == s.month && u.tickets == s.tickets[id := u.tickets[id]] && !InFlight(k.id)(s.tickets[id])
            && (InFlight(k.id)(u.tickets[id]) ==> Get(s.month, k.id) < k.monthly.value)
  {
  }

  lemma AccountMovesSlack(env: Env, s: State, id: nat, k: Key)
    requires Enabled(env, s, Account(id))
    ensures var u := Apply(env, s, Account(id));
            && u.tickets == s.tickets[id := u.tickets[id]] && !InFlight(k.id)(u.tickets[id])
            && Get(u.month, k.id) <= Get(s.month, k.id) + One(InFlight(k.id)(s.tickets[id]))
  {
  }

  lemma ReleaseKeepsSlack(env: Env, s: State, id: nat, k: Key)
    requires Enabled(env, s, RunRelease(id))
    ensures var u := Apply(env, s, RunRelease(id));
            && u.month == s.month && u.tickets == s.tickets[id := u.tickets[id]]
            && InFlight(k.id)(u.tickets[id]) == InFlight(k.id)(s.tickets[id])
  {
  }

  lemma OthersKeepSlack(env: Env, s: State, step: Step, k: Key)
    requires Enabled(env, s, step) && !step.NewMonth? && !step.MonthlyPasses? && !step.Account? && !step.RunRelease?
    ensures var u := Apply(env, s, step);
            && u.month == s.month && u.tickets == s.tickets[step.id := u.tickets[step.id]]
            && (InFlight(k.id)(u.tickets[step.id]) ==> step.id in s.tickets && InFlight(k.id)(s.tickets[step.id]))
  {
  }

  lemma StepKeepsSlack(env: Env, s: State, step: Step, k: Key, most: nat)
    requires Enabled(env, s, step) && Settled(s, k) && MonthlySlack(s, k, most)
    requires env.quotaOn && k.monthly.value > 0
    requires step.MonthlyPasses? ==> Count(Apply(env, s, step).tickets, InFlight(k.id)) <= most
    ensures MonthlySlack(Apply(env, s, step), k, most)
  {
    if !step.NewMonth? {
      if step.MonthlyPasses? {
        PassingMovesSlack(env, s, step.id, k);
      } else if step.Account? {
        AccountMovesSlack(env, s, step.id, k);
      } else if step.RunRelease? {
        ReleaseKeepsSlack(env, s, step.id, k);
      } else {
        OthersKeepSlack(env, s, step, k);
      }
      CountPut(s.tickets, step.id, Apply(env, s, step).tickets[step.id], InFlight(k.id));
    }
  }

  lemma {:induction false} MonthlyCapFrom(env: Env, s: State, run: seq<Step>, k: Key, most: nat)
    requires Settled(s, k) && SameSettings(run, k) && Possible(env, s, run) && MonthlySlack(s, k, most)
    requires env.quotaOn && k.monthly.value > 0 && AtMostInFlight(env, s, run, k.id, most)
    ensures MonthlySlack(Final(env, s, run), k, most)
    decreases |run|
  {
    if run != [] {
      HeadAndTail(run, k);
      StepKeepsSettled(env, s, run[0], k);
      StepKeepsSlack(env, s, run[0], k, most);
      MonthlyCapFrom(env, Apply(env, s, run[0]), run[1..], k, most);
    }
  }

  /** The monthly check and its accounting are separate steps, so the counter can pass the limit, but
      by less than the number of the key's requests ever in between; one at a time, it never does. */
  lemma MonthlyCap(env: Env, run: seq<Step>, k: Key, most: nat)
    requires SameSettings(run, k) && Possible(env, INIT, run) && env.quotaOn
    requires k.monthly.Some? && k.monthly.value > 0 && most > 0 && AtMostInFlight(env, INIT, run, k.id, most)
    ensures Get(Final(env, INIT, run).month, k.id) <= k.monthly.value + (most - 1)
    ensures most == 1 ==> Get(Final(env, INIT, run).month, k.id) <= k.monthly.value
  {
    CountZero(INIT.tickets, InFlight(k.id));
    MonthlyCapFrom(env, INIT, run, k, most);
  }

  // ----- The monthly bound is the best possible -----

  const OPEN := Env(true, false, 0)

  function Capped(limit: int): Key { Key("k", 0, false, Some(limit)) }

  function CappedAt(k: Key, stage: Stage): Ticket {
    Ticket(Some(k), "m", stage,
      if stage.AtLimiter? || stage.AtMonthly? || stage.AtConcurrency? then [] else [FreeConcurrency(k.id, k.concLimit)])
  }

  /** `run` is a run of requests under `k` that ends in `s`, with at most `most` of them in flight at any point. */
  ghost predicate Reaches(env: Env, k: Key, most: nat, run: seq<Step>, s: State) {
    Possible(env, INIT, run) && Final(env, INIT, run) == s && SameSettings(run, k) &&
        AtMostInFlight(env, INIT, run, k.id, most)
  }

  lemma {:induction false} AtMostSnoc(env: Env, s: State, run: seq<Step>, step: Step, key: string, most: nat)
    requires Possible(env, s, run) && AtMostInFlight(env, s, run, key, most) && Enabled(env, Final(env, s, run), step)
    requires Count(Apply(env, Final(env, s, run), step).tickets, InFlight(key)) <= most
    ensures Possible(env, s, run + [step]) && AtMostInFlight(env, s, run + [step], key, most)
    decreases |run|
  {
    ExtendFrom(env, s, run, step);
    var longer := run + [step];
    if run == [] {
      assert longer[1..] == [];
    } else {
      assert longer[1..] == run[1..] + [step];
      AtMostSnoc(env, Apply(env, s, run[0]), run[1..], step, key, most);
    }
  }

  lemma Advance(env: Env, k: Key, most: nat, run: seq<Step>, s: State, step: Step) returns (longer: seq<Step>)
    requires Reaches(env, k, most, run, s) && Enabled(env, s, step) && (step.Begin? ==> step.key == Some(k))
    requires Count(Apply(env, s, step).tickets, InFlight(k.id)) <= most
    ensures Reaches(env, k, most, longer, Apply(env, s, step))
  {
    longer := run + [step];
    ExtendFrom(env, INIT, run, step);
    AtMostSnoc(env, INIT, run, step, k.id, most);
  }

  /** `counted` requests are accounted for, and the requests with the `ready` next ids are about to be. */
  ghost predicate Lined(s: State, k: Key, counted: nat, ready: nat) {
    && Get(s.month, k.id) == counted && Count(s.tickets, InFlight(k.id)) == ready
    && (forall id: nat :: counted <= id < counted + ready ==>
        id in s.tickets && s.tickets[id] == CappedAt(k, AtAccount))
    && (forall id: nat :: counted + ready <= id ==> id !in s.tickets)
  }

  /** The same with the next request at `stage` on its way. */
  ghost predicate Walking(s: State, k: Key, counted: nat, ready: nat, stage: Stage) {
    var next := counted + ready;
    && Get(s.month, k.id) == counted && next in s.tickets && s.tickets[next] == CappedAt(k, stage)
    && Count(s.tickets, InFlight(k.id)) == ready + One(Flying(stage))
    && (forall id: nat :: counted <= id < next ==> id in s.tickets && s.tickets[id] == CappedAt(k, AtAccount))
    && (forall id: nat :: next < id ==> id !in s.tickets)
  }

  /** Moving request `id` to `stage` changes the number in flight by that request alone. */
  lemma MoveCapped(m: map<nat, Ticket>, k: Key, id: nat, from: Option<Stage>, stage: Stage)
    requires if from.Some? then id in m && m[id] == CappedAt(k, from.value) else id !in m
    ensures Count(m[id := CappedAt(k, stage)], InFlight(k.id)) ==
            Count(m, InFlight(k.id)) - One(from.Some? && Flying(from.value)) + One(Flying(stage))
  {
    CountPut(m, id, CappedAt(k, stage), InFlight(k.id));
  }

  function StepFrom(stage: Stage, id: nat): Step {
    match stage
    case AtLimiter => LimiterPasses(id)
    case AtMonthly => MonthlyPasses(id)
    case AtConcurrency => TakeConcurrency(id)
    case AtDelay => DelayElapses(id)
    case _ => TakeQueue(id)
  }

  function StageAfter(stage: Stage): Stage {
    match stage
    case AtLimiter => AtMonthly
    case AtMonthly => AtConcurrency
    case AtConcurrency => AtDelay
    case AtDelay => AtQueue
    case _ => AtAccount
  }

  function StagesLeft(stage: Stage): nat {
    match stage
    case AtLimiter => 5
    case AtMonthly => 4
    case AtConcurrency => 3
    case AtDelay => 2
    case AtQueue => 1
    case _ => 0
  }

  lemma WalkStep(s: State, limit: nat, counted: nat, ready: nat, stage: Stage)
    requires Walking(s, Capped(limit), counted, ready, stage) && counted < limit && StagesLeft(stage) > 0
    ensures var step := StepFrom(stage, counted + ready);
            Enabled(OPEN, s, step) && Walking(Apply(OPEN, s, step), Capped(limit), counted, ready, StageAfter(stage))
  {
    var k, next := Capped(limit), counted + ready;
    var none: seq<Release> := [];
    assert none + [FreeConcurrency(k.id, k.concLimit)] == [FreeConcurrency(k.id, k.concLimit)];
    var u := Apply(OPEN, s, StepFrom(stage, next));
    assert u.tickets == s.tickets[next := CappedAt(k, StageAfter(stage))];
    MoveCapped(s.tickets, k, next, Some(stage), StageAfter(stage));
  }

  lemma {:induction false} Walk(run: seq<Step>, s: State, limit: nat, counted: nat, ready: nat, stage: Stage, most: nat)
    returns (longer: seq<Step>, t: State)
    requires Reaches(OPEN, Capped(limit), most, run, s) && Walking(s, Capped(limit), counted, ready, stage)
    requires counted < limit && ready < most && (StagesLeft(stage) > 0 || stage == AtAccount)
    ensures Reaches(OPEN, Capped(limit), most, longer, t) && Walking(t, Capped(limit), counted, ready, AtAccount)
    decreases StagesLeft(stage)
  {
    if stage == AtAccount { return run, s; }
    var step := StepFrom(stage, counted + ready);
    WalkStep(s, limit, counted, ready, stage);
    longer := Advance(OPEN, Capped(limit), most, run, s, step);
    longer, t := Walk(longer, Apply(OPEN, s, step), limit, counted, ready, StageAfter(stage), most);
  }

  lemma BeginOne(s: State, k: Key, counted: nat, ready: nat)
    requires Lined(s, k, counted, ready)
    ensures var begin := Begin(counted + ready, Some(k), "m");
            Enabled(OPEN, s, begin) && Walking(Apply(OPEN, s, begin), k, counted, ready, AtLimiter)
  {
    var next := counted + ready;
    MoveCapped(s.tickets, k, next, None, AtLimiter);
    assert Apply(OPEN, s, Begin(next, Some(k), "m")).tickets == s.tickets[next := CappedAt(k, AtLimiter)];
  }

  lemma AdmitOne(run: seq<Step>, s: State, limit: nat, counted: nat, ready: nat, most: nat)
    returns (longer: seq<Step>, t: State)
    requires Reaches(OPEN, Capped(limit), most, run, s) && Lined(s, Capped(limit), counted, ready)
    requires counted < limit && ready < most
    ensures Reaches(OPEN, Capped(limit), most, longer, t) && Lined(t, Capped(limit), counted, ready + 1)
  {
    var k, next := Capped(limit), counted + ready;
    var begin := Begin(next, Some(k), "m");
    BeginOne(s, k, counted, ready);
    longer := Advance(OPEN, k, most, run, s, begin);
    longer, t := Walk(longer, Apply(OPEN, s, begin), limit, counted, ready, AtLimiter, most);
  }

  lemma AccountOne(run: seq<Step>, s: State, limit: nat, counted: nat, ready: nat, most: nat)
    returns (longer: seq<Step>, t: State)
    requires Reaches(OPEN, Capped(limit), most, run, s) && Lined(s, Capped(limit), counted, ready) && 0 < ready <= most
    ensures Reaches(OPEN, Capped(limit), most, longer, t) && Lined(t, Capped(limit), counted + 1, ready - 1)
  {
    var k := Capped(limit);
    MoveCapped(s.tickets, k, counted, Some(AtAccount), Admitted);
    t := Apply(OPEN, s, Account(counted));
    assert t.tickets == s.tickets[counted := CappedAt(k, Admitted)];
    longer := Advance(OPEN, k, most, run, s, Account(counted));
  }

  lemma {:induction false} OneByOne(limit: nat, n: nat, most: nat) returns (run: seq<Step>, s: State)
    requires n < limit && most > 0
    ensures Reaches(OPEN, Capped(limit), most, run, s) && Lined(s, Capped(limit), n, 0)
    decreases n
  {
    if n == 0 {
      CountZero(INIT.tickets, InFlight(Capped(limit).id));
      return [], INIT;
    }
    run, s := OneByOne(limit, n - 1, most);
    run, s := AdmitOne(run, s, limit, n - 1, 0, most);
    run, s := AccountOne(run, s, limit, n - 1, 1, most);
  }

  lemma {:induction false} AllPassTheCheck(limit: nat, n: nat, most: nat) returns (run: seq<Step>, s: State)
    requires limit > 0 && n <= most && most > 0
    ensures Reaches(OPEN, Capped(limit), most, run, s) && Lined(s, Capped(limit), limit - 1, n)
    decreases n
  {
    if n == 0 {
      run, s := OneByOne(limit, limit - 1, most);
    } else {
      run, s := AllPassTheCheck(limit, n - 1, most);
      run, s := AdmitOne(run, s, limit, limit - 1, n - 1, most);
    }
  }

  lemma {:induction false} AllAreCounted(run: seq<Step>, s: State, limit: nat, counted: nat, ready: nat, most: nat)
    returns (longer: seq<Step>, t: State)
    requires Reaches(OPEN, Capped(limit), most, run, s) && Lined(s, Capped(limit), counted, ready) && ready <= most
    ensures Reaches(OPEN, Capped(limit), most, longer, t) && Lined(t, Capped(limit), counted + ready, 0)
    decreases ready
  {
    if ready == 0 { return run, s; }
    longer, t := AccountOne(run, s, limit, counted, ready, most);
    longer, t := AllAreCounted(longer, t, limit, counted + 1, ready - 1, most);
  }

  /** The monthly bound is reached: for every limit and every number of requests in flight, some run brings the counter
      to exactly limit + most - 1. */
  lemma MonthlyCapIsTight(limit: nat, most: nat) returns (env: Env, k: Key, run: seq<Step>)
    requires limit > 0 && most > 0
    ensures k.monthly == Some(limit) && env.quotaOn && SameSettings(run, k)
    ensures Possible(env, INIT, run) && AtMostInFlight(env, INIT, run, k.id, most)
    ensures Get(Final(env, INIT, run).month, k.id) == limit + most - 1
  {
    env, k := OPEN, Capped(limit);
    var s;
    run, s := AllPassTheCheck(limit, most, most);
    run, s := AllAreCounted(run, s, limit, limit - 1, most, most);
  }

  /** In particular two interleaved requests pass a limit of one. */
  lemma MonthlyCapOvershoots() returns (env: Env, k: Key, run: seq<Step>)
    ensures k.monthly == Some(1) && env.quotaOn && SameSettings(run, k) && Possible(env, INIT, run)
    ensures Get(Final(env, INIT, run).month, k.id) == 2
  {
    env, k, run := MonthlyCapIsTight(1, 2);
  }
}
