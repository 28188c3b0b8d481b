/** The health checker's registry of probe loops. Each loop has its own stop
    channel, numbered in creation order; the map holds the channel of the running loop of
    each backend. Whoever takes a channel out of the map must close it, once. */
module ProbeRegistry {

  /** What a sweep after the additions removes: nothing, or every loop outside `seen`. */
  datatype Then = Nothing | Sweep(seen: set<string>)

  /** The point one caller has reached. */
  datatype Thread =
    | Starting                                  // `started` is set, the store not yet read
    | Checking(todo: seq<string>, next: Then)   // about to test `started` for the first of `todo`
    | Spawning(todo: seq<string>, next: Then)   // passed the test, about to register
    | Removing(id: string)
    | Sweeping(seen: set<string>)
    | Closing(claimed: seq<nat>)                // out of the lock, channels still to close

  datatype State = State(
    started: bool,
    store: set<string>,             // ids of the configured backends
    loops: map<string, nat>,
    owner: seq<string>,             // for each channel ever made, the backend it was made for
    closed: seq<nat>,               // every close, in order
    threads: map<nat, Thread>)

  const INIT := State(false, {}, map[], [], [], map[])

  datatype Step =
    | Start(t: nat)
    | ReadStore(t: nat, order: seq<string>)
    | AddBackend(t: nat, id: string)
    | RemoveBackend(t: nat, id: string)
    | Rescan(t: nat, order: seq<string>)
    | Check(t: nat)
    | Spawn(t: nat)
    | Claim(t: nat)
    | ClaimStale(t: nat, order: seq<string>)
    | Close(t: nat)
    | StoreBackend(id: string)
    | DeleteBackend(id: string)

  predicate Distinct<T(==)>(s: seq<T>) { forall i, j :: 0 <= i < j < |s| ==> s[i] != s[j] }

  lemma DistinctConcat<T>(a: seq<T>, b: seq<T>)
    requires Distinct(a) && Distinct(b) && forall x :: x in a ==> x !in b
    ensures Distinct(a + b)
  {
    var c := a + b;
    forall i, j | 0 <= i < j < |c| ensures c[i] != c[j] {
      if i < |a| <= j { assert c[i] in a && c[j] in b; }
    }
  }

  /** `order` lists exactly the elements of `ids`, each once. */
  predicate Enumerates(order: seq<string>, ids: set<string>) {
    Distinct(order) && ids == (set id | id in order)
  }

  predicate Enabled(s: State, step: Step) {
    match step
    case Start(t) => t !in s.threads
    case ReadStore(t, order) => t in s.threads && s.threads[t].Starting? && Enumerates(order, s.store)
    case AddBackend(t, _) => t !in s.threads
    case RemoveBackend(t, _) => t !in s.threads
    case Rescan(t, order) => t !in s.threads && Enumerates(order, s.store)
    case Check(t) => t in s.threads && s.threads[t].Checking?
    case Spawn(t) => t in s.threads && s.threads[t].Spawning? && s.threads[t].todo != []
    case Claim(t) => t in s.threads && s.threads[t].Removing?
    case ClaimStale(t, order) => t in s.threads && s.threads[t].Sweeping? &&
        Enumerates(order, s.loops.Keys - s.threads[t].seen)
                               && forall id :: id in order ==> id in s.loops
    case Close(t) => t in s.threads && s.threads[t].Closing? && s.threads[t].claimed != []
    case StoreBackend(_) => true
    case DeleteBackend(_) => true
  }

  function Move(s: State, t: nat, thread: Thread): State { s.(threads := s.threads[t := thread]) }

  function Apply(s: State, step: Step): State
    requires Enabled(s, step)
  {
    match step
    case Start(t) => Move(s, t, Starting).(started := true)
    case ReadStore(t, order) => Move(s, t, Checking(order, Nothing))
    case AddBackend(t, id) => Move(s, t, Checking([id], Nothing))
    case RemoveBackend(t, id) => Move(s, t, Removing(id))
    case Rescan(t, order) => Move(s, t, Checking(order, Sweep(s.store)))
    case Check(t) =>
      var Checking(todo, next) := s.threads[t];
      if todo == [] then Move(s, t, if next.Sweep? then Sweeping(next.seen) else Closing([]))
      else if s.started then Move(s, t, Spawning(todo, next))
      else Move(s, t, Checking(todo[1..], next))
    case Spawn(t) =>
      var Spawning(todo, next) := s.threads[t];
      var u := Move(s, t, Checking(todo[1..], next));
      if todo[0] in s.loops then u
      else u.(loops := s.loops[todo[0] := |s.owner|], owner := s.owner + [todo[0]])
    case Claim(t) =>
      var id := s.threads[t].id;
      if id in s.loops then Move(s, t, Closing([s.loops[id]])).(loops := s.loops - {id})
      else Move(s, t, Closing([]))
    case ClaimStale(t, order) =>
      Move(s, t, Closing(Channels(s.loops, order))).(loops := s.loops - (s.loops.Keys - s.threads[t].seen))
    case Close(t) =>
      var claimed := s.threads[t].claimed;
      Move(s, t, Closing(claimed[1..])).(closed := s.closed + [claimed[0]])
    case StoreBackend(id) => s.(store := s.store + {id})
    case DeleteBackend(id) => s.(store := s.store - {id})
  }

  function Channels(loops: map<string, nat>, ids: seq<string>): seq<nat>
    requires forall id :: id in ids ==> id in loops
  {
    seq(|ids|, i requires 0 <= i < |ids| => loops[ids[i]])
  }

  predicate Possible(s: State, run: seq<Step>)
    decreases |run|
  {
    run == [] || (Enabled(s, run[0]) && Possible(Apply(s, run[0]), run[1..]))
  }

  function Final(s: State, run: seq<Step>): State
    requires Possible(s, run)
    decreases |run|
  {
    if run == [] then s else Final(Apply(s, run[0]), run[1..])
  }

  // ----- Where a channel is -----

  /** Still registered as the loop of its backend. */
  predicate Mapped(s: State, ch: nat) {
    ch < |s.owner| && s.owner[ch] in s.loops && s.loops[s.owner[ch]] == ch
  }

  predicate ClaimedBy(s: State, ch: nat, t: nat) {
    t in s.threads && s.threads[t].Closing? && ch in s.threads[t].claimed
  }

  predicate Closed(s: State, ch: nat) { ch in s.closed }

  ghost predicate Inv(s: State) {
    && (forall id :: id in s.loops ==> s.loops[id] < |s.owner| && s.owner[s.loops[id]] == id)
    && Distinct(s.closed) && (forall ch: nat :: Closed(s, ch) ==> ch < |s.owner| && !Mapped(s, ch))
    && (forall t :: t in s.threads && s.threads[t].Closing? ==> Distinct(s.threads[t].claimed))
    && (forall ch: nat, t :: ClaimedBy(s, ch, t) ==> ch < |s.owner| && !Mapped(s, ch) && !Closed(s, ch))
    && (forall ch: nat, t, u :: ClaimedBy(s, ch, t) && ClaimedBy(s, ch, u) ==> t == u)
    && (forall ch: nat :: ch < |s.owner| ==> Mapped(s, ch) || Closed(s, ch) || exists t :: ClaimedBy(s, ch, t))
  }

  /** A step that leaves the registry, the closes and every claim alone. */
  lemma QuietKeeps(s: State, u: State)
    requires Inv(s) && u.loops == s.loops && u.owner == s.owner && u.closed == s.closed
    requires forall x :: x in s.threads && s.threads[x].Closing? ==> x in u.threads && u.threads[x] == s.threads[x]
    requires forall x :: x in u.threads && u.threads[x].Closing? ==>
        (x in s.threads && u.threads[x] == s.threads[x]) || u.threads[x] == Closing([])
    ensures Inv(u)
  {
    assert forall ch: nat, x :: ClaimedBy(u, ch, x) <==> ClaimedBy(s, ch, x);
    assert forall ch: nat :: Mapped(u, ch) <==> Mapped(s, ch);
    assert forall ch: nat :: Closed(u, ch) <==> Closed(s, ch);
  }

  lemma SpawnKeeps(s: State, t: nat)
    requires Inv(s) && Enabled(s, Spawn(t)) && s.threads[t].todo[0] !in s.loops
    ensures Inv(Apply(s, Spawn(t)))
  {
    var u, newest := Apply(s, Spawn(t)), |s.owner|;
    assert Mapped(u, newest);
    assert forall ch: nat :: Closed(u, ch) <==> Closed(s, ch);
    assert forall ch: nat, x :: ClaimedBy(u, ch, x) <==> ClaimedBy(s, ch, x);
    assert forall ch: nat :: ch < newest ==> u.owner[ch] == s.owner[ch];
    assert forall ch: nat :: ch < newest ==> (Mapped(u, ch) <==> Mapped(s, ch));
  }

  /** Taking the channels of `ids` out of the map hands each to thread `t`. */
  lemma ClaimKeeps(s: State, u: State, t: nat, ids: seq<string>)
    requires Inv(s) && t in s.threads && !s.threads[t].Closing? && Distinct(ids) && forall id :: id in ids ==>
        id in s.loops
    requires u.owner == s.owner && u.closed == s.closed && u.threads == s.threads[t := Closing(Channels(s.loops, ids))]
    requires u.loops == s.loops - (set id | id in ids)
    ensures Inv(u)
  {
    var claimed := Channels(s.loops, ids);
    assert forall i :: 0 <= i < |ids| ==>
        claimed[i] == s.loops[ids[i]] && s.owner[claimed[i]] == ids[i] && ids[i] in ids;
    assert Distinct(claimed);
    assert forall ch: nat :: Closed(u, ch) <==> Closed(s, ch);
    assert forall ch: nat :: Mapped(u, ch) ==> Mapped(s, ch);
    assert forall ch: nat :: Mapped(s, ch) ==> (Mapped(u, ch) <==> s.owner[ch] !in ids);
    forall ch: nat ensures ClaimedBy(u, ch, t) <==> Mapped(s, ch) && s.owner[ch] in ids {
      if Mapped(s, ch) && s.owner[ch] in ids {
        var i :| 0 <= i < |ids| && ids[i] == s.owner[ch];
        assert claimed[i] == ch;
      }
    }
    forall ch: nat, x | x != t ensures ClaimedBy(u, ch, x) <==> ClaimedBy(s, ch, x) {}
  }

  lemma CloseKeeps(s: State, t: nat)
    requires Inv(s) && Enabled(s, Close(t))
    ensures Inv(Apply(s, Close(t)))
  {
    var u := Apply(s, Close(t));
    var claimed := s.threads[t].claimed;
    var now := claimed[0];
    assert ClaimedBy(s, now, t);
    assert claimed == [now] + claimed[1..];
    assert forall ch: nat :: ch in claimed[1..] <==> ch in claimed && ch != now;
    forall ch: nat, x ensures ClaimedBy(u, ch, x) <==> ClaimedBy(s, ch, x) && ch != now {
      if ClaimedBy(s, now, x) { assert x == t; }
    }
    assert forall ch: nat :: Closed(u, ch) <==> Closed(s, ch) || ch == now;
    assert forall ch: nat :: Mapped(u, ch) <==> Mapped(s, ch);
  }

  lemma StepKeeps(s: State, step: Step)
    requires Inv(s) && Enabled(s, step)
    ensures Inv(Apply(s, step))
  {
    var u := Apply(s, step);
    if step.Close? {
      CloseKeeps(s, step.t);
    } else if step.ClaimStale? {
      assert (set id | id in step.order) == s.loops.Keys - s.threads[step.t].seen;
      ClaimKeeps(s, u, step.t, step.order);
    } else if step.Claim? && s.threads[step.t].id in s.loops {
      var id := s.threads[step.t].id;
      assert Channels(s.loops, [id]) == [s.loops[id]];
      assert (set x | x in [id]) == {id};
      ClaimKeeps(s, u, step.t, [id]);
    } else if step.Spawn? && s.threads[step.t].todo[0] !in s.loops {
      SpawnKeeps(s, step.t);
    } else {
      QuietKeeps(s, u);
    }
  }

  lemma {:induction false} RunKeeps(s: State, run: seq<Step>)
    requires Inv(s) && Possible(s, run)
    ensures Inv(Final(s, run))
    decreases |run|
  {
    if run != [] {
      StepKeeps(s, run[0]);
      RunKeeps(Apply(s, run[0]), run[1..]);
    }
  }

  /** Exactly one of: registered, claimed by one closer, closed. */
  ghost predicate Accounted(s: State, ch: nat) {
    && (Mapped(s, ch) || Closed(s, ch) || exists t :: ClaimedBy(s, ch, t))
    && !(Mapped(s, ch) && Closed(s, ch))
    && (forall t :: ClaimedBy(s, ch, t) ==> !Mapped(s, ch) && !Closed(s, ch))
    && (forall t, u :: ClaimedBy(s, ch, t) && ClaimedBy(s, ch, u) ==> t == u)
  }

  /** Over every interleaving: no channel is closed twice, and every channel ever made is registered for its backend,
      claimed by exactly one closer, or closed. So no close panics and no loop is lost. */
  lemma ClosedOnce(run: seq<Step>)
    requires Possible(INIT, run)
    ensures Distinct(Final(INIT, run).closed)
    ensures forall ch: nat :: ch < |Final(INIT, run).owner| ==> Accounted(Final(INIT, run), ch)
  {
    assert Inv(INIT);
    RunKeeps(INIT, run);
  }

  predicate AllDone(s: State) { forall t :: t in s.threads ==> s.threads[t] == Closing([]) }

  /** When every caller has returned, each loop still running is the registered one of its backend. */
  lemma NoOrphanLoops(run: seq<Step>)
    requires Possible(INIT, run) && AllDone(Final(INIT, run))
    ensures forall ch: nat :: ch < |Final(INIT, run).owner| && !Closed(Final(INIT, run), ch) ==>
        Mapped(Final(INIT, run), ch)
  {
    ClosedOnce(run);
    var s := Final(INIT, run);
    forall ch: nat | ch < |s.owner| && !Closed(s, ch) ensures Mapped(s, ch) {
      assert Accounted(s, ch);
    }
  }

  /** Before the start: nothing runs, and no caller has got past the test. */
  ghost predicate Unstarted(s: State) {
    && !s.started && s.loops == map[] && s.owner == []
    && forall t :: t in s.threads ==> !s.threads[t].Spawning?
  }

  /** In every run in which the checker is not started, nothing is ever probed. */
  lemma {:induction false} NoLoopsBeforeStart(s: State, run: seq<Step>)
    requires Unstarted(s) && Possible(s, run) && forall step :: step in run ==> !step.Start?
    ensures Unstarted(Final(s, run))
    decreases |run|
  {
    if run != [] {
      assert run[0] in run && forall step :: step in run[1..] ==> step in run;
      assert Unstarted(Apply(s, run[0]));
      NoLoopsBeforeStart(Apply(s, run[0]), run[1..]);
    }
  }

  // ----- Every caller can return -----

  lemma {:induction false} InSomeOrder(ids: set<string>) returns (order: seq<string>)
    ensures Enumerates(order, ids)
    decreases |ids|
  {
    order := [];
    if ids != {} {
      var x :| x in ids;
      var others := InSomeOrder(ids - {x});
      order := others + [x];
      assert x !in others;
      DistinctConcat(others, [x]);
      assert ids == (ids - {x}) + {x};
    }
  }

  ghost predicate HasWork(s: State) {
    forall t :: t in s.threads && s.threads[t].Spawning? ==> s.threads[t].todo != []
  }

  lemma {:induction false} AlwaysHasWork(s: State, run: seq<Step>)
    requires HasWork(s) && Possible(s, run)
    ensures HasWork(Final(s, run))
    decreases |run|
  {
    if run != [] {
      assert HasWork(Apply(s, run[0]));
      AlwaysHasWork(Apply(s, run[0]), run[1..]);
    }
  }

  function Stage(th: Thread): nat {
    match th
    case Starting => 3
    case Checking(_, _) => 2
    case Spawning(_, _) => 2
    case Closing(_) => 0
    case _ => 1
  }

  function WorkLeft(th: Thread): nat {
    match th
    case Checking(todo, _) => 2 * |todo| + 1
    case Spawning(todo, _) => 2 * |todo|
    case Closing(claimed) => |claimed|
    case _ => 0
  }

  lemma NextStep(s: State, t: nat) returns (step: Step)
    requires HasWork(s) && t in s.threads && s.threads[t] != Closing([])
    ensures !step.StoreBackend? && !step.DeleteBackend? && step.t == t && Enabled(s, step)
    ensures var u := Apply(s, step);
            && HasWork(u) && t in u.threads
            && (Stage(u.threads[t]) < Stage(s.threads[t]) ||
                (Stage(u.threads[t]) == Stage(s.threads[t]) && WorkLeft(u.threads[t]) < WorkLeft(s.threads[t])))
  {
    match s.threads[t] {
      case Starting =>
        var order := InSomeOrder(s.store);
        step := ReadStore(t, order);
      case Checking(_, _) => step := Check(t);
      case Spawning(_, _) => step := Spawn(t);
      case Removing(_) => step := Claim(t);
      case Sweeping(seen) =>
        var order := InSomeOrder(s.loops.Keys - seen);
        assert forall id :: id in order ==> id in s.loops.Keys - seen;
        step := ClaimStale(t, order);
      case Closing(_) => step := Close(t);
    }
  }

  predicate StepsOf(run: seq<Step>, t: nat) {
    forall i :: 0 <= i < |run| ==> !run[i].StoreBackend? && !run[i].DeleteBackend? && run[i].t == t
  }

  lemma {:induction false} ReturnsFrom(s: State, t: nat) returns (more: seq<Step>)
    requires HasWork(s) && t in s.threads
    ensures Possible(s, more) && StepsOf(more, t)
    ensures t in Final(s, more).threads && Final(s, more).threads[t] == Closing([])
    decreases Stage(s.threads[t]), WorkLeft(s.threads[t])
  {
    more := [];
    if s.threads[t] != Closing([]) {
      var step := NextStep(s, t);
      var rest := ReturnsFrom(Apply(s, step), t);
      more := [step] + rest;
      assert more[0] == step && more[1..] == rest;
    }
  }

  /** No caller is stuck: after every run each caller can return, with every channel it claimed closed, by its own steps
      alone. */
  lemma EveryCallerCanReturn(run: seq<Step>, t: nat) returns (more: seq<Step>)
    requires Possible(INIT, run) && t in Final(INIT, run).threads
    ensures var s := Final(INIT, run);
            && Possible(s, more) && StepsOf(more, t)
            && var u := Final(s, more); t in u.threads && u.threads[t] == Closing([])
  {
    AlwaysHasWork(INIT, run);
    more := ReturnsFrom(Final(INIT, run), t);
  }

  lemma Extend(run: seq<Step>, s: State, step: Step, t: State) returns (longer: seq<Step>)
    requires Possible(INIT, run) && Final(INIT, run) == s && Enabled(s, step) && Apply(s, step) == t
    ensures longer == run + [step] && Possible(INIT, longer) && Final(INIT, longer) == t
  {
    longer := run + [step];
    ExtendFrom(INIT, run, step);
  }

  lemma {:induction false} ExtendFrom(s: State, run: seq<Step>, step: Step)
    requires Possible(s, run) && Enabled(Final(s, run), step)
    ensures Possible(s, run + [step]) && Final(s, run + [step]) == Apply(Final(s, run), step)
    decreases |run|
  {
    var longer := run + [step];
    if run == [] {
      assert longer[1..] == [];
    } else {
      assert longer[1..] == run[1..] + [step];
      ExtendFrom(Apply(s, run[0]), run[1..], step);
    }
  }

  // ----- The checker object, undisturbed -----

  class HealthChecker {
    var started: bool
    var loops: map<string, nat>
    var made: nat            // stop channels made so far
    var closed: seq<nat>

    /** Channels are numbered in the order made; the registered ones differ and are open, and none is closed twice. */
    ghost predicate Valid()
      reads this
    {
      && (forall id :: id in loops ==> loops[id] < made && loops[id] !in closed)
      && (forall id, other :: id in loops && other in loops && id != other ==> loops[id] != loops[other])
      && Distinct(closed) && forall ch :: ch in closed ==> ch < made
    }

    constructor ()
      ensures Valid() && !started && loops == map[] && made == 0 && closed == []
    {
      started, loops, made, closed := false, map[], 0, [];
    }

    method Spawn(id: string)
      requires Valid()
      modifies this`loops, this`made
      ensures Valid()
      ensures if id in old(loops) then loops == old(loops) && made == old(made)
              else loops == old(loops)[id := old(made)] && made == old(made) + 1
    {
      if id in loops { return; }
      loops := loops[id := made];
      made := made + 1;
    }

    method AddBackend(id: string)
      requires Valid()
      modifies this`loops, this`made
      ensures Valid()
      ensures if !started || id in old(loops) then loops == old(loops) && made == old(made)
              else loops == old(loops)[id := old(made)] && made == old(made) + 1
    {
      if !started { return; }
      Spawn(id);
    }

    method RemoveBackend(id: string)
      requires Valid()
      modifies this`loops, this`closed
      ensures Valid()
      ensures loops == old(loops) - {id}
      ensures closed == old(closed) + (if id in old(loops) then [old(loops)[id]] else [])
    {
      if id in loops {
        var ch := loops[id];
        loops := loops - {id};
        closed := closed + [ch];
      }
    }

    /** The first half of a rescan: every stored backend gets a loop, if the checker is started; loops that exist
        stay. */
    method AddAll(current: seq<string>) returns (seen: set<string>)
      requires Valid()
      modifies this`loops, this`made
      ensures Valid() && seen == (set id | id in current) && made >= old(made)
      ensures loops.Keys == if started then old(loops).Keys + seen else old(loops).Keys
      ensures forall id :: id in loops ==>
                if id in old(loops) then loops[id] == old(loops)[id] else old(made) <= loops[id] < made
    {
      seen := {};
      for i := 0 to |current|
        invariant Valid() && made >= old(made) && seen == set id | id in current[..i]
        invariant loops.Keys == if started then old(loops).Keys + seen else old(loops).Keys
        invariant forall id :: id in loops ==>
                    if id in old(loops) then loops[id] == old(loops)[id] else old(made) <= loops[id] < made
      {
        assert current[..i + 1] == current[..i] + [current[i]];
        seen := seen + {current[i]};
        AddBackend(current[i]);
      }
      assert current[..|current|] == current;
    }

    /** The second half: exactly the loops outside `seen` are taken out, and their channels handed over, each once. */
    method TakeStale(seen: set<string>) returns (toStop: seq<nat>)
      requires Valid()
      modifies this`loops
      ensures Valid() && loops == old(loops) - (old(loops).Keys - seen)
      ensures Distinct(toStop)
      ensures forall ch: nat :: ch in toStop <==> exists id :: id in old(loops) && id !in seen && old(loops)[id] == ch
    {
      toStop := [];
      var ids := loops.Keys;
      while ids != {}
        invariant ids <= loops.Keys <= old(loops).Keys
        invariant forall id :: id in loops ==> loops[id] == old(loops)[id]
        invariant forall id :: id in old(loops) && id !in ids ==> (id in loops <==> id in seen)
        invariant Distinct(toStop)
        invariant forall ch: nat :: ch in toStop <==>
                    exists id :: id in old(loops) && id !in ids && id !in seen && old(loops)[id] == ch
        decreases ids
      {
        var id :| id in ids;
        if id !in seen {
          assert loops[id] !in toStop;
          DistinctConcat(toStop, [loops[id]]);
          toStop := toStop + [loops[id]];
          loops := loops - {id};
        }
        ids := ids - {id};
      }
    }

    /** On a started checker the registered loops end up exactly those of the stored backends: survivors keep their
        channel, newcomers get a new one, and precisely the channels of the departed are closed, each once. */
    method Rescan(current: seq<string>)
      requires Valid()
      modifies this`loops, this`made, this`closed
      ensures Valid()
      ensures started ==> loops.Keys == (set id | id in current)
      ensures !started ==> loops.Keys == old(loops).Keys * (set id | id in current)
      ensures forall id :: id in loops ==>
                if id in old(loops) then loops[id] == old(loops)[id] else old(made) <= loops[id] < made
      ensures old(closed) <= closed && Distinct(closed[|old(closed)|..])
      ensures forall ch: nat :: ch in closed[|old(closed)|..] <==>
                exists id :: id in old(loops) && id !in current && old(loops)[id] == ch
    {
      var seen := AddAll(current);
      ghost var grown := loops;
      var toStop := TakeStale(seen);
      assert forall ch: nat :: ch in toStop ==> ch !in closed && ch < made;
      DistinctConcat(closed, toStop);
      closed := closed + toStop;
      assert closed[|old(closed)|..] == toStop;
      forall ch: nat ensures ch in toStop <==> exists id :: id in old(loops) && id !in current && old(loops)[id] == ch {
        if id :| id in old(loops) && id !in current && old(loops)[id] == ch { assert id in grown && grown[id] == ch; }
      }
    }
  }
}
