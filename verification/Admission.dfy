/** Admission control: many requests run `admit` and, later, their stack of
    release functions, interleaved step by step over the shared concurrency map,
    the queue semaphores and the monthly request counters. */
module Admission {
  import opened Counting
  import opened Options

  /** Whether a quota manager and a queue are attached, and the semaphore size of a scope. */
  datatype Env = Env(quotaOn: bool, queueOn: bool, maxConc: nat)

  /** What `admit` reads from the caller's key. `monthly` is the monthly request limit when the key has a quota. */
  datatype Key = Key(id: string, concLimit: int, delayed: bool, monthly: Option<int>)

  /** One pushed release function. */
  datatype Release = FreeConcurrency(key: string, limit: int) | FreeQueue(scope: string)

  /** The check that turned a request away. */
  datatype Gate = ByLimiter | ByQuota | ByConcurrency | ByDelay | ByQueue

  datatype Ending = Served | Refused(gate: Gate)

  datatype Stage =
    | AtLimiter | AtMonthly | AtConcurrency | AtDelay | AtQueue | AtAccount
    | Admitted
    | Unwinding(end: Ending)
    | Finished(end: Ending)

  datatype Ticket = Ticket(key: Option<Key>, model: string, stage: Stage, releases: seq<Release>)

  datatype State = State(
    tickets: map<nat, Ticket>,
    current: map<string, nat>,    // in-flight requests of limited keys
    sems: map<string, nat>,       // queue places taken, by scope
    reserved: map<string, nat>,   // requests the limiter counted as admitted, ever
    added: map<string, nat>,      // calls of quota.AddRequest, ever
    month: map<string, nat>)      // the monthly request counter

  const INIT := State(map[], map[], map[], map[], map[], map[])

  function Get(m: map<string, nat>, k: string): nat { if k in m then m[k] else 0 }

  // ----- The concurrency map -----

  function Acquired(current: map<string, nat>, key: string, limit: int): Option<map<string, nat>> {
    if limit <= 0 then Some(current)
    else if Get(current, key) >= limit then None
    else Some(current[key := Get(current, key) + 1])
  }

  function Released(current: map<string, nat>, key: string, limit: int): map<string, nat> {
    if limit <= 0 then current
    else if Get(current, key) <= 1 then current - {key}
    else current[key := Get(current, key) - 1]
  }

  class Concurrency {
    var current: map<string, nat>

    constructor ()
      ensures current == map[]
    {
      current := map[];
    }

    method Acquire(key: string, limit: int) returns (ok: bool)
      modifies this
      ensures ok <==> limit <= 0 || Get(old(current), key) < limit
      ensures Get(current, key) == Get(old(current), key) + (if ok && limit > 0 then 1 else 0)
      ensures forall k :: k != key ==> Get(current, k) == Get(old(current), k)
      ensures ok <==> Acquired(old(current), key, limit).Some?
      ensures current == if ok then Acquired(old(current), key, limit).value else old(current)
    {
      if limit <= 0 { return true; }
      if Get(current, key) >= limit { return false; }
      current := current[key := Get(current, key) + 1];
      return true;
    }

    method Release(key: string, limit: int)
      modifies this
      ensures Get(current, key) == Get(old(current), key) - (if limit > 0 && Get(old(current), key) > 0 then 1 else 0)
      ensures limit > 0 && Get(current, key) == 0 ==> key !in current
      ensures forall k :: k != key ==> Get(current, k) == Get(old(current), k)
      ensures current == Released(old(current), key, limit)
    {
      if limit <= 0 { return; }
      if Get(current, key) > 0 { current := current[key := Get(current, key) - 1]; }
      if Get(current, key) == 0 { current := current - {key}; }
    }
  }

  // ----- Steps -----

  datatype Step =
    | Begin(id: nat, key: Option<Key>, model: string)
    | LimiterPasses(id: nat)
    | MonthlyPasses(id: nat)
    | TakeConcurrency(id: nat)
    | DelayElapses(id: nat)
    | TakeQueue(id: nat)
    | Account(id: nat)
    | Reject(id: nat)        // whichever check the request stands at turns it away
    | Leave(id: nat)         // the handler is done and runs the deferred release
    | RunRelease(id: nat)    // the next release function, last pushed first
    | Finish(id: nat)
    | NewMonth

  /** May the check the ticket stands at reject it here? */
  predicate CanReject(env: Env, s: State, t: Ticket) {
    match t.stage
    case AtLimiter => true
    case AtMonthly => env.quotaOn && t.key.Some? && t.key.value.monthly.Some?
    case AtConcurrency => t.key.Some? && Acquired(s.current, t.key.value.id, t.key.value.concLimit).None?
    case AtDelay => t.key.Some? && t.key.value.delayed
    case AtQueue => env.queueOn
    case _ => false
  }

  function GateOf(stage: Stage): Gate {
    match stage
    case AtLimiter => ByLimiter
    case AtMonthly => ByQuota
    case AtConcurrency => ByConcurrency
    case AtDelay => ByDelay
    case _ => ByQueue
  }

  predicate MonthlyAllows(env: Env, s: State, k: Key) {
    env.quotaOn && k.monthly.Some? && k.monthly.value > 0 ==> Get(s.month, k.id) < k.monthly.value
  }

  predicate Enabled(env: Env, s: State, step: Step) {
    if step.NewMonth? then true
    else if step.Begin? then step.id !in s.tickets
    else step.id in s.tickets && EnabledFor(env, s, step, s.tickets[step.id])
  }

  predicate EnabledFor(env: Env, s: State, step: Step, t: Ticket) {
    match step
    case LimiterPasses(_) => t.stage.AtLimiter?
    case MonthlyPasses(_) => t.stage.AtMonthly? && t.key.Some? && MonthlyAllows(env, s, t.key.value)
    case TakeConcurrency(_) =>
      t.stage.AtConcurrency? && t.key.Some? && Acquired(s.current, t.key.value.id, t.key.value.concLimit).Some?
    case DelayElapses(_) => t.stage.AtDelay?
    case TakeQueue(_) => t.stage.AtQueue? && (env.queueOn ==> Get(s.sems, t.model) < env.maxConc)
    case Account(_) => t.stage.AtAccount?
    case Reject(_) => CanReject(env, s, t)
    case Leave(_) => t.stage.Admitted?
    case RunRelease(_) => t.stage.Unwinding? && t.releases != []
    case Finish(_) => t.stage.Unwinding? && t.releases == []
    case _ => false
  }

  function At(s: State, id: nat, t: Ticket): State { s.(tickets := s.tickets[id := t]) }

  function RunLast(s: State, id: nat, t: Ticket): State
    requires t.releases != []
  {
    var last := |t.releases| - 1;
    var u := At(s, id, t.(releases := t.releases[..last]));
    match t.releases[last]
    case FreeConcurrency(key, limit) => u.(current := Released(s.current, key, limit))
    case FreeQueue(scope) => u.(sems := s.sems[scope := if Get(s.sems, scope) > 0 then Get(s.sems, scope) - 1 else 0])
  }

  function Apply(env: Env, s: State, step: Step): State
    requires Enabled(env, s, step)
  {
    if step.NewMonth? then s.(month := map[])
    else if step.Begin? then
      At(s, step.id, Ticket(step.key, step.model, if step.key.Some? then AtLimiter else AtQueue, []))
    else ApplyTo(env, s, step, s.tickets[step.id])
  }

  function ApplyTo(env: Env, s: State, step: Step, t: Ticket): State
    requires EnabledFor(env, s, step, t)
  {
    match step
    case LimiterPasses(id) =>
      var u := At(s, id, t.(stage := AtMonthly));
      if t.key.Some? then u.(reserved := s.reserved[t.key.value.id := Get(s.reserved, t.key.value.id) + 1]) else u
    case MonthlyPasses(id) => At(s, id, t.(stage := AtConcurrency))
    case TakeConcurrency(id) =>
      var k := t.key.value;
      At(s, id, t.(stage := AtDelay, releases := t.releases + [FreeConcurrency(k.id, k.concLimit)]))
        .(current := Acquired(s.current, k.id, k.concLimit).value)
    case DelayElapses(id) => At(s, id, t.(stage := AtQueue))
    case TakeQueue(id) =>
      if env.queueOn then
        At(s, id, t.(stage := AtAccount, releases := t.releases + [FreeQueue(t.model)]))
          .(sems := s.sems[t.model := Get(s.sems, t.model) + 1])
      else At(s, id, t.(stage := AtAccount))
    case Account(id) =>
      var u := At(s, id, t.(stage := Admitted));
      if env.quotaOn && t.key.Some? then
        var k := t.key.value.id;
        u.(added := s.added[k := Get(s.added, k) + 1], month := s.month[k := Get(s.month, k) + 1])
      else u
    case Reject(id) => At(s, id, t.(stage := Unwinding(Refused(GateOf(t.stage)))))
    case Leave(id) => At(s, id, t.(stage := Unwinding(Served)))
    case RunRelease(id) => RunLast(s, id, t)
    case Finish(id) => At(s, id, t.(stage := Finished(t.stage.end)))
  }

  predicate Possible(env: Env, s: State, run: seq<Step>)
    decreases |run|
  {
    run == [] || (Enabled(env, s, run[0]) && Possible(env, Apply(env, s, run[0]), run[1..]))
  }

  function Final(env: Env, s: State, run: seq<Step>): State
    requires Possible(env, s, run)
    decreases |run|
  {
    if run == [] then s else Final(env, Apply(env, s, run[0]), run[1..])
  }

  // ----- What every interleaving keeps -----

  /** The release stack of a request that took everything on its way. */
  function FullStack(t: Ticket): seq<Release> {
    (if t.key.Some? then [FreeConcurrency(t.key.value.id, t.key.value.concLimit)] else []) + [FreeQueue(t.model)]
  }

  ghost predicate Shaped(env: Env, t: Ticket) {
    var base := |FullStack(t)| - 1;
    && t.releases <= FullStack(t)
    && match t.stage
       case AtLimiter => t.key.Some? && t.releases == []
       case AtMonthly => t.key.Some? && t.releases == []
       case AtConcurrency => t.key.Some? && t.releases == []
       case AtDelay => t.key.Some? && |t.releases| == base
       case AtQueue => |t.releases| == base
       case AtAccount => |t.releases| == base + One(env.queueOn)
       case Admitted => |t.releases| == base + One(env.queueOn)
       case Unwinding(_) => true
       case Finished(_) => t.releases == []
  }

  predicate WasAdmitted(t: Ticket) {
    match t.stage
    case Admitted => true
    case Unwinding(end) => end.Served?
    case Finished(end) => end.Served?
    case _ => false
  }

  predicate PassedLimiter(t: Ticket) {
    match t.stage
    case AtLimiter => false
    case Unwinding(end) => end != Refused(ByLimiter)
    case Finished(end) => end != Refused(ByLimiter)
    case _ => true
  }

  /** Holds a counted concurrency place of `key`. */
  function HoldsKey(key: string): Ticket -> bool {
    (t: Ticket) => t.releases != [] && t.releases[0].FreeConcurrency? && t.releases[0].key == key &&
        t.releases[0].limit > 0
  }

  /** Holds a queue place of `scope`. */
  function HoldsScope(scope: string): Ticket -> bool {
    (t: Ticket) => t.releases != [] && t.releases[|t.releases| - 1] == FreeQueue(scope)
  }

  function AdmittedUnder(key: string): Ticket -> bool {
    (t: Ticket) => WasAdmitted(t) && t.key.Some? && t.key.value.id == key
  }

  /** Was counted by the limiter under `key`. */
  function ReservedUnder(key: string): Ticket -> bool {
    (t: Ticket) => PassedLimiter(t) && t.key.Some? && t.key.value.id == key
  }

  ghost predicate CountsRight(env: Env, s: State, name: string) {
    && Get(s.current, name) == Count(s.tickets, HoldsKey(name))
    && Get(s.sems, name) == Count(s.tickets, HoldsScope(name)) <= env.maxConc
    && Get(s.reserved, name) == Count(s.tickets, ReservedUnder(name))
    && Get(s.added, name) == (if env.quotaOn then Count(s.tickets, AdmittedUnder(name)) else 0)
  }

  ghost predicate Inv(env: Env, s: State) {
    && (forall id :: id in s.tickets ==> Shaped(env, s.tickets[id]))
    && (forall k :: k in s.current ==> s.current[k] > 0)
    && (forall name :: CountsRight(env, s, name))
  }

  /** Moving one ticket from `t` to `t'` changes the shared counts of `name` by what the ticket took or gave. */
  predicate Balanced(env: Env, s: State, u: State, t: Ticket, t': Ticket, name: string) {
    && Get(u.current, name) + One(HoldsKey(name)(t)) == Get(s.current, name) + One(HoldsKey(name)(t'))
    && Get(u.sems, name) + One(HoldsScope(name)(t)) == Get(s.sems, name) + One(HoldsScope(name)(t'))
    && Get(u.sems, name) <= env.maxConc
    && Get(u.reserved, name) + One(ReservedUnder(name)(t)) == Get(s.reserved, name) + One(ReservedUnder(name)(t'))
    && Get(u.added, name) + One(env.quotaOn && AdmittedUnder(name)(t)) ==
       Get(s.added, name) + One(env.quotaOn && AdmittedUnder(name)(t'))
  }

  ghost predicate Covered(env: Env, s: State, t: Ticket, name: string) {
    && One(HoldsKey(name)(t)) <= Get(s.current, name)
    && One(HoldsScope(name)(t)) <= Get(s.sems, name) <= env.maxConc
  }

  /** What a well-shaped stack looks like from both ends. */
  lemma StackEnds(env: Env, t: Ticket)
    requires Shaped(env, t) && t.releases != []
    ensures t.key.Some? ==> t.releases[0] == FreeConcurrency(t.key.value.id, t.key.value.concLimit)
    ensures t.key.None? ==> t.releases == [FreeQueue(t.model)]
    ensures |t.releases| <= 2
    ensures |t.releases| == 2 ==> t.key.Some? && t.releases[1] == FreeQueue(t.model)
  {
    assert forall i :: 0 <= i < |t.releases| ==> t.releases[i] == FullStack(t)[i];
  }

  lemma QuietBalances(env: Env, s: State, u: State, t: Ticket, t': Ticket, name: string)
    requires Covered(env, s, t, name) && u.current == s.current && u.sems == s.sems
    requires u.reserved == s.reserved && u.added == s.added && t'.releases == t.releases && t'.key == t.key
    requires t.key.Some? ==>
        PassedLimiter(t') == PassedLimiter(t) && (env.quotaOn ==> WasAdmitted(t') == WasAdmitted(t))
    ensures Balanced(env, s, u, t, t', name)
  {
  }

  lemma LimiterBalances(env: Env, s: State, id: nat, t: Ticket, name: string)
    requires Shaped(env, t) && EnabledFor(env, s, LimiterPasses(id), t) && Covered(env, s, t, name)
    ensures var u := ApplyTo(env, s, LimiterPasses(id), t);
            Shaped(env, u.tickets[id]) && Balanced(env, s, u, t, u.tickets[id], name)
  {
  }

  lemma TakeConcurrencyBalances(env: Env, s: State, id: nat, t: Ticket, name: string)
    requires Shaped(env, t) && EnabledFor(env, s, TakeConcurrency(id), t) && Covered(env, s, t, name)
    ensures var u := ApplyTo(env, s, TakeConcurrency(id), t);
            Shaped(env, u.tickets[id]) && Balanced(env, s, u, t, u.tickets[id], name)
  {
    var k := t.key.value;
    var t' := ApplyTo(env, s, TakeConcurrency(id), t).tickets[id];
    assert t'.releases == [FreeConcurrency(k.id, k.concLimit)];
    assert FullStack(t') == [FreeConcurrency(k.id, k.concLimit), FreeQueue(t.model)];
  }

  lemma TakeQueueCounts(env: Env, s: State, id: nat, t: Ticket, t': Ticket, name: string)
    requires EnabledFor(env, s, TakeQueue(id), t) && Covered(env, s, t, name) && env.queueOn
    requires t' == t.(stage := AtAccount, releases := t.releases + [FreeQueue(t.model)])
    requires t.releases == [] || (|t.releases| == 1 && t.releases[0].FreeConcurrency?)
    ensures Balanced(env, s, ApplyTo(env, s, TakeQueue(id), t), t, t', name)
  {
  }

  lemma TakeQueueBalances(env: Env, s: State, id: nat, t: Ticket, name: string)
    requires Shaped(env, t) && EnabledFor(env, s, TakeQueue(id), t) && Covered(env, s, t, name) && env.queueOn
    ensures var u := ApplyTo(env, s, TakeQueue(id), t);
            Shaped(env, u.tickets[id]) && Balanced(env, s, u, t, u.tickets[id], name)
  {
    var t' := ApplyTo(env, s, TakeQueue(id), t).tickets[id];
    if t.releases != [] { StackEnds(env, t); }
    assert t'.releases == FullStack(t');
    TakeQueueCounts(env, s, id, t, t', name);
  }

  lemma AccountCounts(env: Env, s: State, id: nat, t: Ticket, name: string)
    requires t.stage.AtAccount? && t.key.Some? && env.quotaOn && Covered(env, s, t, name)
    ensures Balanced(env, s, ApplyTo(env, s, Account(id), t), t, t.(stage := Admitted), name)
  {
  }

  lemma AccountBalances(env: Env, s: State, id: nat, t: Ticket, name: string)
    requires Shaped(env, t) && EnabledFor(env, s, Account(id), t) && Covered(env, s, t, name)
    ensures var u := ApplyTo(env, s, Account(id), t);
            Shaped(env, u.tickets[id]) && Balanced(env, s, u, t, u.tickets[id], name)
  {
    var u, t' := ApplyTo(env, s, Account(id), t), t.(stage := Admitted);
    assert u.tickets[id] == t' && FullStack(t') == FullStack(t);
    if env.quotaOn && t.key.Some? {
      AccountCounts(env, s, id, t, name);
    } else {
      QuietBalances(env, s, u, t, t', name);
    }
  }

  /** Steps that change nothing but the stage. */
  lemma StageBalances(env: Env, s: State, step: Step, t: Ticket, name: string)
    requires Shaped(env, t) && EnabledFor(env, s, step, t) && Covered(env, s, t, name)
    requires !step.RunRelease? && !step.LimiterPasses? && !step.TakeConcurrency? && !step.Account?
    requires step.TakeQueue? ==> !env.queueOn
    ensures var u := ApplyTo(env, s, step, t);
            Shaped(env, u.tickets[step.id]) && Balanced(env, s, u, t, u.tickets[step.id], name)
  {
    var u := ApplyTo(env, s, step, t);
    var t' := u.tickets[step.id];
    assert t' == t.(stage := t'.stage) && FullStack(t') == FullStack(t);
    assert WasAdmitted(t') == WasAdmitted(t) && PassedLimiter(t') == PassedLimiter(t);
    QuietBalances(env, s, u, t, t', name);
  }

  lemma TakeBalances(env: Env, s: State, step: Step, t: Ticket, name: string)
    requires Shaped(env, t) && EnabledFor(env, s, step, t) && Covered(env, s, t, name) && !step.RunRelease?
    ensures var u := ApplyTo(env, s, step, t);
            Shaped(env, u.tickets[step.id]) && Balanced(env, s, u, t, u.tickets[step.id], name)
  {
    if step.LimiterPasses? {
      LimiterBalances(env, s, step.id, t, name);
    } else if step.TakeConcurrency? {
      TakeConcurrencyBalances(env, s, step.id, t, name);
    } else if step.TakeQueue? && env.queueOn {
      TakeQueueBalances(env, s, step.id, t, name);
    } else if step.Account? {
      AccountBalances(env, s, step.id, t, name);
    } else {
      StageBalances(env, s, step, t, name);
    }
  }

  lemma ReleaseConcurrencyBalances(env: Env, s: State, id: nat, t: Ticket, name: string)
    requires Shaped(env, t) && EnabledFor(env, s, RunRelease(id), t) && Covered(env, s, t, name)
    requires |t.releases| == 1 && t.key.Some?
    ensures var u := RunLast(s, id, t);
            Shaped(env, u.tickets[id]) && Balanced(env, s, u, t, u.tickets[id], name)
  {
    StackEnds(env, t);
    assert RunLast(s, id, t).tickets[id].releases == [];
  }

  lemma ReleaseQueueBalances(env: Env, s: State, id: nat, t: Ticket, name: string)
    requires Shaped(env, t) && EnabledFor(env, s, RunRelease(id), t) && Covered(env, s, t, name)
    requires |t.releases| == 2 || t.key.None?
    ensures var u := RunLast(s, id, t);
            Shaped(env, u.tickets[id]) && Balanced(env, s, u, t, u.tickets[id], name)
  {
    StackEnds(env, t);
    var t' := RunLast(s, id, t).tickets[id];
    assert t'.releases == if t.key.None? then [] else [t.releases[0]];
    assert FullStack(t') == FullStack(t);
  }

  lemma ReleaseBalances(env: Env, s: State, id: nat, t: Ticket, name: string)
    requires Shaped(env, t) && EnabledFor(env, s, RunRelease(id), t) && Covered(env, s, t, name)
    ensures var u := RunLast(s, id, t);
            Shaped(env, u.tickets[id]) && Balanced(env, s, u, t, u.tickets[id], name)
  {
    StackEnds(env, t);
    if |t.releases| == 1 && t.key.Some? {
      ReleaseConcurrencyBalances(env, s, id, t, name);
    } else {
      ReleaseQueueBalances(env, s, id, t, name);
    }
  }

  lemma CoveredByCount(env: Env, s: State, id: nat, name: string)
    requires CountsRight(env, s, name) && id in s.tickets
    ensures Covered(env, s, s.tickets[id], name)
  {
    if HoldsKey(name)(s.tickets[id]) { CountWitness(s.tickets, HoldsKey(name), id); }
    if HoldsScope(name)(s.tickets[id]) { CountWitness(s.tickets, HoldsScope(name), id); }
  }

  lemma BalancedKeepsCounts(env: Env, s: State, u: State, id: nat, t: Ticket, name: string)
    requires CountsRight(env, s, name) && u.tickets == s.tickets[id := t]
    requires if id in s.tickets then Balanced(env, s, u, s.tickets[id], t, name)
             else Balanced(env, s, u, t, t, name) && t.releases == [] && !WasAdmitted(t) && !ReservedUnder(name)(t)
    ensures CountsRight(env, u, name)
  {
    CountPut(s.tickets, id, t, HoldsKey(name));
    CountPut(s.tickets, id, t, HoldsScope(name));
    CountPut(s.tickets, id, t, ReservedUnder(name));
    CountPut(s.tickets, id, t, AdmittedUnder(name));
  }

  lemma MoveKeepsCounts(env: Env, s: State, step: Step, name: string)
    requires Enabled(env, s, step) && !step.NewMonth? && !step.Begin?
    requires Shaped(env, s.tickets[step.id]) && CountsRight(env, s, name)
    ensures Shaped(env, Apply(env, s, step).tickets[step.id]) && CountsRight(env, Apply(env, s, step), name)
  {
    var t := s.tickets[step.id];
    CoveredByCount(env, s, step.id, name);
    if step.RunRelease? { ReleaseBalances(env, s, step.id, t, name); } else { TakeBalances(env, s, step, t, name); }
    var u := Apply(env, s, step);
    assert u.tickets == s.tickets[step.id := u.tickets[step.id]];
    BalancedKeepsCounts(env, s, u, step.id, u.tickets[step.id], name);
  }

  lemma StepKeepsCounts(env: Env, s: State, step: Step, name: string)
    requires Inv(env, s) && Enabled(env, s, step)
    ensures CountsRight(env, Apply(env, s, step), name)
    ensures !step.NewMonth? ==>
        step.id in Apply(env, s, step).tickets && Shaped(env, Apply(env, s, step).tickets[step.id])
  {
    assert CountsRight(env, s, name);
    if step.Begin? {
      BalancedKeepsCounts(env, s, Apply(env, s, step), step.id, Apply(env, s, step).tickets[step.id], name);
    } else if !step.NewMonth? {
      assert Shaped(env, s.tickets[step.id]);
      MoveKeepsCounts(env, s, step, name);
    }
  }

  lemma StepKeepsPositive(env: Env, s: State, step: Step)
    requires (forall k :: k in s.current ==> s.current[k] > 0) && Enabled(env, s, step)
    ensures forall k :: k in Apply(env, s, step).current ==> Apply(env, s, step).current[k] > 0
  {
  }

  lemma StepFrame(env: Env, s: State, step: Step)
    requires Enabled(env, s, step)
    ensures forall id :: id in Apply(env, s, step).tickets ==>
              (!step.NewMonth? && id == step.id) ||
                  (id in s.tickets && Apply(env, s, step).tickets[id] == s.tickets[id])
  {
  }

  lemma StepKeeps(env: Env, s: State, step: Step)
    requires Inv(env, s) && Enabled(env, s, step)
    ensures Inv(env, Apply(env, s, step))
  {
    StepKeepsPositive(env, s, step);
    StepFrame(env, s, step);
    StepKeepsCounts(env, s, step, "");
    forall name ensures CountsRight(env, Apply(env, s, step), name) { StepKeepsCounts(env, s, step, name); }
  }

  lemma {:induction false} RunKeeps(env: Env, s: State, run: seq<Step>)
    requires Inv(env, s) && Possible(env, s, run)
    ensures Inv(env, Final(env, s, run))
    decreases |run|
  {
    if run != [] {
      StepKeeps(env, s, run[0]);
      RunKeeps(env, Apply(env, s, run[0]), run[1..]);
    }
  }

  lemma InitInv(env: Env)
    ensures Inv(env, INIT)
  {
    forall name ensures CountsRight(env, INIT, name) {
      CountZero(INIT.tickets, HoldsKey(name));
      CountZero(INIT.tickets, HoldsScope(name));
      CountZero(INIT.tickets, ReservedUnder(name));
      CountZero(INIT.tickets, AdmittedUnder(name));
    }
  }

  /** Nothing is leaked: each key's count is its live limited holders and the map keeps no zero entry; each scope's
      occupancy is its live holders; a finished request, rejected or not, holds no place; the quota manager was told of
      exactly the admitted requests of each key; and the limiter has counted exactly the requests that passed it. */
  ghost predicate NoLeak(env: Env, s: State) {
    && (forall name :: CountsRight(env, s, name))
    && (forall k :: k in s.current ==> s.current[k] > 0)
    && (forall id :: id in s.tickets && s.tickets[id].stage.Finished? ==> s.tickets[id].releases == [])
  }

  /** No interleaving of admissions and releases leaks anything. */
  lemma NothingLeaks(env: Env, run: seq<Step>)
    requires Possible(env, INIT, run)
    ensures NoLeak(env, Final(env, INIT, run))
  {
    InitInv(env);
    RunKeeps(env, INIT, run);
    var s := Final(env, INIT, run);
    forall id | id in s.tickets && s.tickets[id].stage.Finished? ensures s.tickets[id].releases == [] {
      assert Shaped(env, s.tickets[id]);
    }
  }

  predicate AllFinished(s: State) {
    forall id :: id in s.tickets ==> s.tickets[id].stage.Finished?
  }

  /** When every request has finished, all shared state is back where it started. */
  lemma QuiescentIsEmpty(env: Env, run: seq<Step>)
    requires Possible(env, INIT, run) && AllFinished(Final(env, INIT, run))
    ensures Final(env, INIT, run).current == map[]
    ensures forall scope :: Get(Final(env, INIT, run).sems, scope) == 0
  {
    NothingLeaks(env, run);
    var s := Final(env, INIT, run);
    forall name ensures Get(s.sems, name) == 0 && name !in s.current {
      assert CountsRight(env, s, name);
      CountZero(s.tickets, HoldsKey(name));
      CountZero(s.tickets, HoldsScope(name));
    }
  }

  // ----- What the limiter counted -----

  /** Turned away by a check after the limiter. */
  function RefusedLater(key: string): Ticket -> bool {
    (t: Ticket) => ReservedUnder(key)(t) && (t.stage.Unwinding? || t.stage.Finished?) && t.stage.end.Refused?
  }

  /** Past the limiter, neither admitted nor turned away yet. */
  function OnItsWay(key: string): Ticket -> bool {
    (t: Ticket) => ReservedUnder(key)(t) && !WasAdmitted(t) && !t.stage.Unwinding? && !t.stage.Finished?
  }

  lemma ReservationsSplit(m: map<nat, Ticket>, key: string)
    ensures Count(m, ReservedUnder(key)) ==
            Count(m, AdmittedUnder(key)) + Count(m, RefusedLater(key)) + Count(m, OnItsWay(key))
  {
    var admitted, refused, under := Having(m, AdmittedUnder(key)), Having(m, RefusedLater(key)),
        Having(m, OnItsWay(key));
    assert admitted !! refused && (admitted + refused) !! under;
    assert Having(m, ReservedUnder(key)) == admitted + refused + under;
  }

  /** In every interleaving the limiter has counted exactly the requests that passed it: those admitted, those still on
      their way, and those turned away by a later check. */
  lemma ReservationsExact(env: Env, run: seq<Step>, key: string)
    requires Possible(env, INIT, run)
    ensures var s := Final(env, INIT, run);
            Get(s.reserved, key) ==
            Count(s.tickets, AdmittedUnder(key)) + Count(s.tickets, RefusedLater(key)) + Count(s.tickets, OnItsWay(key))
  {
    NothingLeaks(env, run);
    assert CountsRight(env, Final(env, INIT, run), key);
    ReservationsSplit(Final(env, INIT, run).tickets, key);
  }

  /** A rejection gives back every place but not the limiter's count: when all requests have finished, the limiter has
      counted exactly the admissions if and only if no request of the key was turned away after the limiter. */
  lemma ReservationsMatchExactly(env: Env, run: seq<Step>, key: string)
    requires Possible(env, INIT, run) && AllFinished(Final(env, INIT, run))
    ensures var s := Final(env, INIT, run);
            Get(s.reserved, key) == Count(s.tickets, AdmittedUnder(key)) <==>
            forall id :: id in s.tickets ==> !RefusedLater(key)(s.tickets[id])
  {
    ReservationsExact(env, run, key);
    var m := Final(env, INIT, run).tickets;
    CountZero(m, OnItsWay(key));
    if forall id :: id in m ==> !RefusedLater(key)(m[id]) {
      CountZero(m, RefusedLater(key));
    } else {
      var id :| id in m && RefusedLater(key)(m[id]);
      CountWitness(m, RefusedLater(key), id);
    }
  }

  function DelayedAt(stage: Stage): Ticket {
    Ticket(Some(DELAYED), "m", stage, if stage.AtDelay? || stage.Unwinding? then [FreeConcurrency("k", 1)] else [])
  }

  function Alone(t: Ticket): State {
    State(map[0 := t], if t.releases == [] then map[] else map["k" := 1], map[], map["k" := 1], map[], map[])
  }

  const DELAYED := Key("k", 1, true, None)

  /** A client that goes away during its delay: the concurrency place it took is given back and nothing was admitted,
      but the limiter's count stays. */
  lemma ReservationKept() returns (env: Env, run: seq<Step>)
    ensures Possible(env, INIT, run) && AllFinished(Final(env, INIT, run))
    ensures var s := Final(env, INIT, run);
            && Get(s.reserved, "k") == 1 && s.current == map[]
            && s.tickets == map[0 := DelayedAt(Finished(Refused(ByDelay)))] && DELAYED.concLimit > 0
  {
    env := Env(false, false, 0);
    var begun := State(map[0 := DelayedAt(AtLimiter)], map[], map[], map[], map[], map[]);
    run := Extend(env, [], INIT, Begin(0, Some(DELAYED), "m"), begun);
    run := Extend(env, run, begun, LimiterPasses(0), Alone(DelayedAt(AtMonthly)));
    run := WalkToDelay(env, run);
    run := LeaveDuringDelay(env, run);
  }

  lemma WalkToDelay(env: Env, before: seq<Step>) returns (run: seq<Step>)
    requires !env.quotaOn && Possible(env, INIT, before) && Final(env, INIT, before) == Alone(DelayedAt(AtMonthly))
    ensures Possible(env, INIT, run) && Final(env, INIT, run) == Alone(DelayedAt(AtDelay))
  {
    var none: seq<Release> := [];
    assert none + [FreeConcurrency("k", 1)] == [FreeConcurrency("k", 1)];
    run := Extend(env, before, Alone(DelayedAt(AtMonthly)), MonthlyPasses(0), Alone(DelayedAt(AtConcurrency)));
    run := Extend(env, run, Alone(DelayedAt(AtConcurrency)), TakeConcurrency(0), Alone(DelayedAt(AtDelay)));
  }

  lemma LeaveDuringDelay(env: Env, before: seq<Step>) returns (run: seq<Step>)
    requires Possible(env, INIT, before) && Final(env, INIT, before) == Alone(DelayedAt(AtDelay))
    ensures Possible(env, INIT, run) && Final(env, INIT, run) == Alone(DelayedAt(Finished(Refused(ByDelay))))
  {
    var gone := Refused(ByDelay);
    assert [FreeConcurrency("k", 1)][..0] == [];
    run := Extend(env, before, Alone(DelayedAt(AtDelay)), Reject(0), Alone(DelayedAt(Unwinding(gone))));
    var unwound := DelayedAt(Unwinding(gone)).(releases := []);
    run := Extend(env, run, Alone(DelayedAt(Unwinding(gone))), RunRelease(0), Alone(unwound));
    run := Extend(env, run, Alone(unwound), Finish(0), Alone(DelayedAt(Finished(gone))));
  }

  lemma Extend(env: Env, run: seq<Step>, s: State, step: Step, t: State) returns (longer: seq<Step>)
    requires Possible(env, INIT, run) && Final(env, INIT, run) == s && Enabled(env, s, step) && Apply(env, s, step) == t
    ensures longer == run + [step] && Possible(env, INIT, longer) && Final(env, INIT, longer) == t
  {
    longer := run + [step];
    ExtendFrom(env, INIT, run, step);
  }

  lemma {:induction false} ExtendFrom(env: Env, s: State, run: seq<Step>, step: Step)
    requires Possible(env, s, run) && Enabled(env, Final(env, s, run), step)
    ensures Possible(env, s, run + [step])
    ensures Final(env, s, run + [step]) == Apply(env, Final(env, s, run), step)
    decreases |run|
  {
    var longer := run + [step];
    if run == [] {
      assert longer[1..] == [];
    } else {
      assert longer[1..] == run[1..] + [step];
      ExtendFrom(env, Apply(env, s, run[0]), run[1..], step);
    }
  }
}
