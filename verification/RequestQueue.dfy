/** One scope of the wait list. Acquire is split into its atomic steps: the
    increment of the pending counter, the size check on the value that increment
    returned, the wait on the semaphore, and the deferred decrement. */
module RequestQueue {
  import opened Counting

  /** A non-positive `maxSize` disables the size check. */
  datatype Config = Config(maxSize: int, maxConc: nat)

  /** The configuration a scope is created with: the size check is always on. */
  function ScopeConfig(defaultMaxSize: int, defaultMaxConc: int): (cfg: Config)
    ensures cfg.maxSize > 0 && cfg.maxConc > 0
    ensures defaultMaxSize > 0 ==> cfg.maxSize == defaultMaxSize
    ensures defaultMaxConc > 0 ==> cfg.maxConc == defaultMaxConc
    ensures defaultMaxSize <= 0 ==> cfg.maxSize == 1000
    ensures defaultMaxConc <= 0 ==> cfg.maxConc == 64
  {
    Config(if defaultMaxSize <= 0 then 1000 else defaultMaxSize, if defaultMaxConc <= 0 then 64 else defaultMaxConc)
  }

  datatype Phase =
    | Arrived(seen: int)   // incremented, not yet checked
    | Full                 // failed the size check, not yet decremented
    | Waiting
    | Granted              // in the semaphore, not yet decremented
    | GaveUp               // timed out or cancelled, not yet decremented
    | Holding              // returned with its release function

  datatype State = State(callers: map<nat, Phase>, queued: int, sem: nat)

  const INIT := State(map[], 0, 0)

  datatype Step = Arrive(c: nat) | Check(c: nat) | Grant(c: nat) | GiveUp(c: nat) | Return(c: nat) | Release(c: nat)

  predicate In(s: State, c: nat, p: Phase) { c in s.callers && s.callers[c] == p }

  predicate Enabled(cfg: Config, s: State, step: Step) {
    match step
    case Arrive(c) => c !in s.callers
    case Check(c) => c in s.callers && s.callers[c].Arrived?
    case Grant(c) => In(s, c, Waiting) && s.sem < cfg.maxConc
    case GiveUp(c) => In(s, c, Waiting)
    case Return(c) => In(s, c, Full) || In(s, c, Granted) || In(s, c, GaveUp)
    case Release(c) => In(s, c, Holding) && s.sem > 0
  }

  function Apply(cfg: Config, s: State, step: Step): State
    requires Enabled(cfg, s, step)
  {
    match step
    case Arrive(c) => s.(callers := s.callers[c := Arrived(s.queued + 1)], queued := s.queued + 1)
    case Check(c) =>
      var full := cfg.maxSize > 0 && s.callers[c].seen > cfg.maxSize;
      s.(callers := s.callers[c := if full then Full else Waiting])
    case Grant(c) => s.(callers := s.callers[c := Granted], sem := s.sem + 1)
    case GiveUp(c) => s.(callers := s.callers[c := GaveUp])
    case Return(c) =>
      var t := s.(queued := s.queued - 1);
      if s.callers[c].Granted? then t.(callers := s.callers[c := Holding]) else t.(callers := s.callers - {c})
    case Release(c) => s.(callers := s.callers - {c}, sem := s.sem - 1)
  }

  predicate Possible(cfg: Config, s: State, run: seq<Step>)
    decreases |run|
  {
    run == [] || (Enabled(cfg, s, run[0]) && Possible(cfg, Apply(cfg, s, run[0]), run[1..]))
  }

  function Final(cfg: Config, s: State, run: seq<Step>): State
    requires Possible(cfg, s, run)
    decreases |run|
  {
    if run == [] then s else Final(cfg, Apply(cfg, s, run[0]), run[1..])
  }

  /** Between the increment and the decrement. */
  function Pending(): Phase -> bool { (p: Phase) => !p.Holding? }

  /** Owning a place in the semaphore. */
  function Owning(): Phase -> bool { (p: Phase) => p.Granted? || p.Holding? }

  /** Past the size check and not yet returned. */
  function PastCheck(): Phase -> bool { (p: Phase) => p.Waiting? || p.Granted? || p.GaveUp? }

  /** Past the size check, or certain to pass it. */
  function Passing(cfg: Config): Phase -> bool {
    (p: Phase) => p.Waiting? || p.Granted? || p.GaveUp? || (p.Arrived? && p.seen <= cfg.maxSize)
  }

  /** Turned away, or certain to be. */
  function Doomed(cfg: Config): Phase -> bool {
    (p: Phase) => p.Full? || (p.Arrived? && p.seen > cfg.maxSize)
  }

  ghost predicate Inv(cfg: Config, s: State) {
    && s.queued == Count(s.callers, Pending())
    && s.sem == Count(s.callers, Owning()) <= cfg.maxConc
    && (cfg.maxSize > 0 ==> Count(s.callers, Passing(cfg)) <= cfg.maxSize)
  }

  /** Moving caller `c` to phase `v` keeps the invariant when the two counters move with it. */
  lemma PutKeeps(cfg: Config, s: State, t: State, c: nat, v: Phase)
    requires Inv(cfg, s) && t.callers == s.callers[c := v]
    requires t.queued == s.queued - One(c in s.callers && Pending()(s.callers[c])) + One(Pending()(v))
    requires t.sem == s.sem - One(c in s.callers && Owning()(s.callers[c])) + One(Owning()(v)) && t.sem <= cfg.maxConc
    requires Passing(cfg)(v) ==>
        (c in s.callers && Passing(cfg)(s.callers[c])) || Count(s.callers, Passing(cfg)) < cfg.maxSize ||
            cfg.maxSize <= 0
    ensures Inv(cfg, t)
  {
    CountPut(s.callers, c, v, Pending());
    CountPut(s.callers, c, v, Owning());
    CountPut(s.callers, c, v, Passing(cfg));
  }

  lemma DropKeeps(cfg: Config, s: State, t: State, c: nat)
    requires Inv(cfg, s) && c in s.callers && t.callers == s.callers - {c}
    requires t.queued == s.queued - One(Pending()(s.callers[c]))
    requires t.sem == s.sem - One(Owning()(s.callers[c]))
    ensures Inv(cfg, t)
  {
    CountDrop(s.callers, c, Pending());
    CountDrop(s.callers, c, Owning());
    CountDrop(s.callers, c, Passing(cfg));
  }

  lemma StepKeeps(cfg: Config, s: State, step: Step)
    requires Inv(cfg, s) && Enabled(cfg, s, step)
    ensures Inv(cfg, Apply(cfg, s, step))
  {
    var t := Apply(cfg, s, step);
    if step.c in t.callers {
      if step.Arrive? { CountLess(s.callers, Passing(cfg), Pending()); }
      PutKeeps(cfg, s, t, step.c, t.callers[step.c]);
    } else {
      DropKeeps(cfg, s, t, step.c);
    }
  }

  lemma {:induction false} RunKeeps(cfg: Config, s: State, run: seq<Step>)
    requires Inv(cfg, s) && Possible(cfg, s, run)
    ensures Inv(cfg, Final(cfg, s, run))
    decreases |run|
  {
    if run != [] {
      StepKeeps(cfg, s, run[0]);
      RunKeeps(cfg, Apply(cfg, s, run[0]), run[1..]);
    }
  }

  lemma InvAlways(cfg: Config, run: seq<Step>)
    requires Possible(cfg, INIT, run)
    ensures Inv(cfg, Final(cfg, INIT, run))
  {
    CountZero(INIT.callers, Pending());
    CountZero(INIT.callers, Owning());
    CountZero(INIT.callers, Passing(cfg));
    RunKeeps(cfg, INIT, run);
  }

  /** Over every interleaving: at most `maxConc` callers own a place, at most `maxSize` are past
      the size check and not returned, and the counter is the callers between increment and decrement.
      An owner can always release. */
  lemma QueueBounds(cfg: Config, run: seq<Step>)
    requires Possible(cfg, INIT, run)
    ensures var s := Final(cfg, INIT, run);
            && s.sem == Count(s.callers, Owning()) <= cfg.maxConc
            && s.queued == Count(s.callers, Pending())
            && (cfg.maxSize > 0 ==> Count(s.callers, PastCheck()) <= cfg.maxSize)
            && (forall c :: In(s, c, Holding) ==> Enabled(cfg, s, Release(c)))
  {
    InvAlways(cfg, run);
    var s := Final(cfg, INIT, run);
    CountLess(s.callers, PastCheck(), Passing(cfg));
    forall c | In(s, c, Holding) ensures Enabled(cfg, s, Release(c)) { CountWitness(s.callers, Owning(), c); }
  }

  lemma PendingSplit(cfg: Config, callers: map<nat, Phase>)
    ensures Count(callers, Pending()) == Count(callers, Passing(cfg)) + Count(callers, Doomed(cfg))
  {
    var passing, doomed := Having(callers, Passing(cfg)), Having(callers, Doomed(cfg));
    assert passing !! doomed && Having(callers, Pending()) == passing + doomed;
  }

  /** Exactly when an arriving caller is turned away as full: when `maxSize` callers are pending, where a caller that
      was itself turned away still counts until its decrement. The queue really holds `maxSize` callers exactly when
      that many are pending without those turned away or certain to be. */
  lemma FullExactly(cfg: Config, run: seq<Step>, c: nat)
    requires Possible(cfg, INIT, run) && Enabled(cfg, Final(cfg, INIT, run), Arrive(c))
    ensures var s := Final(cfg, INIT, run);
            var arrived := Apply(cfg, s, Arrive(c));
            && Enabled(cfg, arrived, Check(c))
            && (In(Apply(cfg, arrived, Check(c)), c, Full) <==> 0 < cfg.maxSize <= Count(s.callers, Pending()))
            && (!In(Apply(cfg, arrived, Check(c)), c, Full) ==> In(Apply(cfg, arrived, Check(c)), c, Waiting))
    ensures var s := Final(cfg, INIT, run);
            cfg.maxSize > 0 ==> (Count(s.callers, Passing(cfg)) == cfg.maxSize <==>
            Count(s.callers, Pending()) - Count(s.callers, Doomed(cfg)) >= cfg.maxSize)
  {
    InvAlways(cfg, run);
    PendingSplit(cfg, Final(cfg, INIT, run).callers);
  }

  /** After every run a waiter can be let in exactly while fewer than `maxConc` callers own a place, and can give up at
      any time. */
  lemma WaitersExactly(cfg: Config, run: seq<Step>, c: nat)
    requires Possible(cfg, INIT, run) && In(Final(cfg, INIT, run), c, Waiting)
    ensures var s := Final(cfg, INIT, run);
            Enabled(cfg, s, GiveUp(c)) && (Enabled(cfg, s, Grant(c)) <==> Count(s.callers, Owning()) < cfg.maxConc)
  {
    InvAlways(cfg, run);
  }

  // ----- Every caller can return -----

  function Rank(p: Phase): nat {
    match p
    case Arrived(_) => 4
    case Waiting => 3
    case Holding => 1
    case _ => 2
  }

  function NextStep(s: State, c: nat): Step
    requires c in s.callers
  {
    match s.callers[c]
    case Arrived(_) => Check(c)
    case Waiting => GiveUp(c)
    case Holding => Release(c)
    case _ => Return(c)
  }

  lemma NextStepMoves(cfg: Config, s: State, c: nat)
    requires Inv(cfg, s) && c in s.callers
    ensures Enabled(cfg, s, NextStep(s, c)) && NextStep(s, c).c == c
    ensures var t := Apply(cfg, s, NextStep(s, c)); c in t.callers ==> Rank(t.callers[c]) < Rank(s.callers[c])
  {
    if s.callers[c].Holding? { CountWitness(s.callers, Owning(), c); }
  }

  predicate StepsOf(run: seq<Step>, c: nat) { forall i :: 0 <= i < |run| ==> run[i].c == c }

  lemma {:induction false} LeavesFrom(cfg: Config, s: State, c: nat) returns (more: seq<Step>)
    requires Inv(cfg, s)
    ensures Possible(cfg, s, more) && StepsOf(more, c) && c !in Final(cfg, s, more).callers
    decreases if c in s.callers then Rank(s.callers[c]) else 0
  {
    more := [];
    if c in s.callers {
      var step := NextStep(s, c);
      NextStepMoves(cfg, s, c);
      StepKeeps(cfg, s, step);
      var rest := LeavesFrom(cfg, Apply(cfg, s, step), c);
      more := [step] + rest;
      assert more[0] == step && more[1..] == rest;
    }
  }

  /** No caller is stuck: after every run each caller can return and give back its place by its own steps alone. */
  lemma EveryCallerCanLeave(cfg: Config, run: seq<Step>, c: nat) returns (more: seq<Step>)
    requires Possible(cfg, INIT, run)
    ensures var s := Final(cfg, INIT, run);
            Possible(cfg, s, more) && StepsOf(more, c) && c !in Final(cfg, s, more).callers
  {
    InvAlways(cfg, run);
    more := LeavesFrom(cfg, Final(cfg, INIT, run), c);
  }

  /** Caller 0 waits, caller 1 has been turned away and has not returned yet. */
  lemma OneWaitsOneIsFull(cfg: Config) returns (run: seq<Step>)
    requires cfg == Config(1, 1)
    ensures Possible(cfg, INIT, run) && Final(cfg, INIT, run) == State(map[0 := Waiting, 1 := Full], 2, 0)
  {
    run := Extend(cfg, [], INIT, Arrive(0), State(map[0 := Arrived(1)], 1, 0));
    run := Extend(cfg, run, State(map[0 := Arrived(1)], 1, 0), Check(0), State(map[0 := Waiting], 1, 0));
    run := Extend(cfg, run, State(map[0 := Waiting], 1, 0), Arrive(1), State(map[0 := Waiting, 1 := Arrived(2)], 2, 0));
    run := Extend(cfg, run, State(map[0 := Waiting, 1 := Arrived(2)], 2, 0), Check(1),
        State(map[0 := Waiting, 1 := Full], 2, 0));
  }

  /** A run in which a caller is turned away although nobody waits and the semaphore is empty. */
  lemma FullWithNobodyWaiting() returns (cfg: Config, run: seq<Step>)
    ensures Possible(cfg, INIT, run)
    ensures var s := Final(cfg, INIT, run);
            In(s, 2, Full) && s.sem == 0 && forall c :: c in s.callers ==> s.callers[c].Full?
  {
    cfg := Config(1, 1);
    run := OneWaitsOneIsFull(cfg);
    run := Extend(cfg, run, State(map[0 := Waiting, 1 := Full], 2, 0), Grant(0),
        State(map[0 := Granted, 1 := Full], 2, 1));
    run := Extend(cfg, run, State(map[0 := Granted, 1 := Full], 2, 1), Return(0),
        State(map[0 := Holding, 1 := Full], 1, 1));
    run := Extend(cfg, run, State(map[0 := Holding, 1 := Full], 1, 1), Release(0), State(map[1 := Full], 1, 0));
    run := Extend(cfg, run, State(map[1 := Full], 1, 0), Arrive(2), State(map[1 := Full, 2 := Arrived(2)], 2, 0));
    run := Extend(cfg, run, State(map[1 := Full, 2 := Arrived(2)], 2, 0), Check(2),
        State(map[1 := Full, 2 := Full], 2, 0));
  }

  lemma Extend(cfg: Config, run: seq<Step>, s: State, step: Step, t: State) returns (longer: seq<Step>)
    requires Possible(cfg, INIT, run) && Final(cfg, INIT, run) == s
    requires Enabled(cfg, s, step) && Apply(cfg, s, step) == t
    ensures Possible(cfg, INIT, longer) && Final(cfg, INIT, longer) == t
  {
    longer := run + [step];
    ExtendFrom(cfg, INIT, run, step);
  }

  lemma {:induction false} ExtendFrom(cfg: Config, s: State, run: seq<Step>, step: Step)
    requires Possible(cfg, s, run) && Enabled(cfg, Final(cfg, s, run), step)
    ensures Possible(cfg, s, run + [step])
    ensures Final(cfg, s, run + [step]) == Apply(cfg, Final(cfg, s, run), step)
    decreases |run|
  {
    var longer := run + [step];
    if run == [] {
      assert longer[1..] == [];
    } else {
      assert longer[1..] == run[1..] + [step];
      ExtendFrom(cfg, Apply(cfg, s, run[0]), run[1..], step);
    }
  }
}
