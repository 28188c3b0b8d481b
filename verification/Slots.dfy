/** Many requests, direct ones and worker calls, taking and giving back the slots
    of a fixed set of backends in any interleaving. A request makes a bounded number of
    attempts (two on the direct path, three for a worker call) and ends in exactly one release. */
module Slots {
  import opened Counting

  /** A backend's capacity (unlimited if not positive) and its three counters. */
  datatype Slot = Slot(capacity: int, active: int, total: int, errors: int)

  datatype Phase =
    | Picking(attempts: nat)
    | Holding(backend: string)
    | Served(backend: string, ok: bool)
    | TurnedAway

  datatype State = State(backends: map<string, Slot>, requests: map<nat, Phase>)

  datatype Step =
    | Begin(r: nat, attempts: nat)
    | NothingRoutable(r: nat)
    | TryAcquire(r: nat, backend: string)
    | Finish(r: nat, ok: bool)

  predicate Full(b: Slot) { b.capacity > 0 && b.active >= b.capacity }

  predicate Enabled(s: State, step: Step) {
    match step
    case Begin(r, attempts) => r !in s.requests && attempts > 0
    case NothingRoutable(r) => r in s.requests && s.requests[r].Picking?
    case TryAcquire(r, b) => r in s.requests && s.requests[r].Picking? && b in s.backends
    case Finish(r, _) => r in s.requests && s.requests[r].Holding? && s.requests[r].backend in s.backends
  }

  function Acquire(b: Slot): Slot { if Full(b) then b else b.(active := b.active + 1, total := b.total + 1) }

  function Release(b: Slot, ok: bool): Slot {
    b.(active := if b.active > 0 then b.active - 1 else b.active, errors := if ok then b.errors else b.errors + 1)
  }

  function Apply(s: State, step: Step): State
    requires Enabled(s, step)
  {
    match step
    case Begin(r, attempts) => s.(requests := s.requests[r := Picking(attempts)])
    case NothingRoutable(r) => s.(requests := s.requests[r := TurnedAway])
    case TryAcquire(r, b) =>
      var left := s.requests[r].attempts;
      var phase := if !Full(s.backends[b]) then Holding(b) else if left <= 1 then TurnedAway else Picking(left - 1);
      State(s.backends[b := Acquire(s.backends[b])], s.requests[r := phase])
    case Finish(r, ok) =>
      var b := s.requests[r].backend;
      State(s.backends[b := Release(s.backends[b], ok)], s.requests[r := Served(b, ok)])
  }

  predicate Possible(s: State, run: seq<Step>)
    decreases |run|
  {
    run == [] || (Enabled(s, run[0]) && Possible(Apply(s, run[0]), run[1..]))
  }

  function Final(s: State, run: seq<Step>): State
    requires Possible(s, run)
    decreases |run|
  {
    if run == [] then s else Final(Apply(s, run[0]), run[1..])
  }

  function HoldsSlotOf(b: string): Phase -> bool { (p: Phase) => p == Holding(b) }
  function WasGrantedBy(b: string): Phase -> bool { (p: Phase) => p == Holding(b) || (p.Served? && p.backend == b) }
  function FailedOn(b: string): Phase -> bool { (p: Phase) => p == Served(b, false) }

  ghost predicate Exact(s: State, b: string)
    requires b in s.backends
  {
    var slot := s.backends[b];
    && slot.active == Count(s.requests, HoldsSlotOf(b))
    && slot.total == Count(s.requests, WasGrantedBy(b))
    && slot.errors == Count(s.requests, FailedOn(b))
    && (slot.capacity > 0 ==> slot.active <= slot.capacity)
  }

  ghost predicate Placed(s: State) {
    forall r :: r in s.requests && s.requests[r].Holding? ==> s.requests[r].backend in s.backends
  }

  ghost predicate Inv(s: State) {
    (forall b :: b in s.backends ==> Exact(s, b)) && Placed(s)
  }

  lemma CountsAfter(s: State, r: nat, p: Phase, b: string)
    ensures var m := s.requests[r := p];
            var had := r in s.requests;
            && Count(m, HoldsSlotOf(b)) == Count(s.requests, HoldsSlotOf(b)) - One(had && s.requests[r] == Holding(b)) +
                One(p == Holding(b))
            && Count(m, WasGrantedBy(b)) ==
                Count(s.requests, WasGrantedBy(b)) - One(had && WasGrantedBy(b)(s.requests[r])) +
                    One(WasGrantedBy(b)(p))
            && Count(m, FailedOn(b)) == Count(s.requests, FailedOn(b)) - One(had && FailedOn(b)(s.requests[r])) +
                One(FailedOn(b)(p))
  {
    CountPut(s.requests, r, p, HoldsSlotOf(b));
    CountPut(s.requests, r, p, WasGrantedBy(b));
    CountPut(s.requests, r, p, FailedOn(b));
  }

  lemma StepKeepsExact(s: State, step: Step, b: string)
    requires b in s.backends && Exact(s, b) && Enabled(s, step)
    ensures b in Apply(s, step).backends && Exact(Apply(s, step), b)
  {
    var t := Apply(s, step);
    CountsAfter(s, step.r, t.requests[step.r], b);
    if step.Finish? && s.requests[step.r] == Holding(b) { CountWitness(s.requests, HoldsSlotOf(b), step.r); }
  }

  /** No step adds or removes a backend, so every holder's backend stays. */
  lemma StepKeepsBackends(s: State, step: Step)
    requires Enabled(s, step) && Placed(s)
    ensures Apply(s, step).backends.Keys == s.backends.Keys && Placed(Apply(s, step))
  {
  }

  lemma StepKeeps(s: State, step: Step)
    requires Inv(s) && Enabled(s, step)
    ensures Inv(Apply(s, step))
  {
    var t := Apply(s, step);
    StepKeepsBackends(s, step);
    forall b | b in t.backends ensures Exact(t, b) {
      assert Exact(s, b);
      StepKeepsExact(s, step, b);
    }
  }

  lemma {:induction false} RunKeeps(s: State, run: seq<Step>)
    requires Inv(s) && Possible(s, run)
    ensures Inv(Final(s, run))
    decreases |run|
  {
    if run != [] {
      StepKeeps(s, run[0]);
      RunKeeps(Apply(s, run[0]), run[1..]);
    }
  }

  /** No request yet, all counters zero. */
  predicate Idle(s: State) {
    s.requests == map[] && forall b :: b in s.backends ==>
        s.backends[b].active == s.backends[b].total == s.backends[b].errors == 0
  }

  lemma IdleInv(s: State)
    requires Idle(s)
    ensures Inv(s)
  {
    forall b | b in s.backends ensures Exact(s, b) {
      CountZero(s.requests, HoldsSlotOf(b));
      CountZero(s.requests, WasGrantedBy(b));
      CountZero(s.requests, FailedOn(b));
    }
  }

  lemma LiveAndFailed(requests: map<nat, Phase>, b: string)
    ensures Count(requests, HoldsSlotOf(b)) + Count(requests, FailedOn(b)) <= Count(requests, WasGrantedBy(b))
  {
    var live, failed := Having(requests, HoldsSlotOf(b)), Having(requests, FailedOn(b));
    assert live !! failed && live + failed <= Having(requests, WasGrantedBy(b));
    SubsetCard(live + failed, Having(requests, WasGrantedBy(b)));
  }

  /** Over every interleaving: each backend's active count is the requests holding its slots and never exceeds its
      capacity, its total is the grants it made, its errors are the failed ones, and errors + active <= total. */
  lemma SlotsExact(start: State, run: seq<Step>, b: string)
    requires Idle(start) && Possible(start, run) && b in Final(start, run).backends
    ensures Exact(Final(start, run), b)
    ensures Final(start, run).backends[b].errors +
        Final(start, run).backends[b].active <= Final(start, run).backends[b].total
  {
    IdleInv(start);
    RunKeeps(start, run);
    var s := Final(start, run);
    assert Exact(s, b);
    LiveAndFailed(s.requests, b);
  }

  /** After every run, what a pick comes to: the backend grants a slot exactly when it has no capacity limit or fewer
      holders than that; a refused pick costs one attempt, and the last one the request. A holder can finish either
      way. */
  lemma PicksExactly(start: State, run: seq<Step>, r: nat, b: string, ok: bool)
    requires Idle(start) && Possible(start, run) && r in Final(start, run).requests && b in Final(start, run).backends
    ensures var s := Final(start, run);
            s.requests[r].Picking? ==>
              Enabled(s, TryAcquire(r, b)) && var t := Apply(s, TryAcquire(r, b));
              t.requests[r] ==
                if s.backends[b].capacity <= 0 || Count(s.requests, HoldsSlotOf(b)) < s.backends[b].capacity then
                    Holding(b)
                else if s.requests[r].attempts >= 2 then Picking(s.requests[r].attempts - 1)
                else TurnedAway
    ensures Final(start, run).requests[r].Holding? ==> Enabled(Final(start, run), Finish(r, ok))
  {
    IdleInv(start);
    RunKeeps(start, run);
    assert Exact(Final(start, run), b);
  }

  /** `k` picks of the same backend. */
  function Tries(r: nat, b: string, k: nat): seq<Step> { seq(k, _ => TryAcquire(r, b)) }

  /** A request with `n` attempts survives exactly `n - 1` refusals: it is turned away by the last. */
  lemma {:induction false} RefusalsExactly(s: State, r: nat, b: string, n: nat)
    requires r in s.requests && s.requests[r] == Picking(n) && n > 0 && b in s.backends && Full(s.backends[b])
    ensures Possible(s, Tries(r, b, n)) && Final(s, Tries(r, b, n)).requests == s.requests[r := TurnedAway]
    ensures Possible(s, Tries(r, b, n - 1)) && Final(s, Tries(r, b, n - 1)).requests == s.requests[r := Picking(1)]
    decreases n
  {
    var t := Apply(s, TryAcquire(r, b));
    assert Tries(r, b, n)[1..] == Tries(r, b, n - 1);
    if n > 1 {
      assert Tries(r, b, n - 1)[1..] == Tries(r, b, n - 2);
      RefusalsExactly(t, r, b, n - 1);
    } else {
      assert Tries(r, b, 0) == [] && s.requests[r := Picking(1)] == s.requests;
    }
  }

  /** Once no request holds a slot, every backend is free again and total = successes + errors. */
  lemma AllSlotsReturn(start: State, run: seq<Step>, b: string)
    requires Idle(start) && Possible(start, run) && b in Final(start, run).backends
    requires forall r :: r in Final(start, run).requests ==> !Final(start, run).requests[r].Holding?
    ensures Final(start, run).backends[b].active == 0
    ensures Final(start, run).backends[b].total ==
            Count(Final(start, run).requests, (p: Phase) => p == Served(b, true)) + Final(start, run).backends[b].errors
  {
    SlotsExact(start, run, b);
    var s := Final(start, run);
    CountZero(s.requests, HoldsSlotOf(b));
    var good, bad := Having(s.requests, (p: Phase) => p == Served(b, true)), Having(s.requests, FailedOn(b));
    assert good !! bad && good + bad == Having(s.requests, WasGrantedBy(b));
  }
}
