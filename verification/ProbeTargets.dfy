/** Which backend object a probe loop probes. A loop keeps the object it was spawned with, while a create stores a new
    object under its id; this tracks objects along the runs of the registry. */
module ProbeTargets {
  import opened ProbeRegistry
  import opened ProbeReconciliation
  import opened ProbeAdmin

  /** A step with the object it stores or passes on, where it does. */
  datatype Marked = Marked(step: Step, obj: nat)

  datatype Tracked = Tracked(
    base: State,
    stored: map<string, nat>,           // the object stored under each id
    held: map<nat, map<string, nat>>,   // the objects on the list of each caller
    probed: seq<nat>)                   // for each channel ever made, the object its loop probes

  const NOTHING := Tracked(INIT, map[], map[], [])

  /** The object the caller would spawn a loop with. */
  function Held(x: Tracked, t: nat, id: string): nat { if t in x.held && id in x.held[t] then x.held[t][id] else 0 }

  function Track(x: Tracked, m: Marked): Tracked
    requires Enabled(x.base, m.step)
  {
    var y := x.(base := Apply(x.base, m.step));
    match m.step
    case StoreBackend(id) => y.(stored := x.stored[id := m.obj])
    case DeleteBackend(id) => y.(stored := x.stored - {id})
    case AddBackend(t, id) => y.(held := x.held[t := map[id := m.obj]])
    case ReadStore(t, _) => y.(held := x.held[t := x.stored])
    case Rescan(t, _) => y.(held := x.held[t := x.stored])
    case Spawn(t) =>
      var id := x.base.threads[t].todo[0];
      if id in x.base.loops then y else y.(probed := x.probed + [Held(x, t, id)])
    case _ => y
  }

  predicate CanTrack(x: Tracked, run: seq<Marked>)
    decreases |run|
  {
    run == [] || (Enabled(x.base, run[0].step) && CanTrack(Track(x, run[0]), run[1..]))
  }

  function TrackAll(x: Tracked, run: seq<Marked>): Tracked
    requires CanTrack(x, run)
    decreases |run|
  {
    if run == [] then x else TrackAll(Track(x, run[0]), run[1..])
  }

  function Steps(run: seq<Marked>): seq<Step> { if run == [] then [] else [run[0].step] + Steps(run[1..]) }

  function MarkAll(steps: seq<Step>, obj: nat): seq<Marked> {
    if steps == [] then [] else [Marked(steps[0], obj)] + MarkAll(steps[1..], obj)
  }

  // ----- Tracking changes nothing -----

  lemma {:induction false} SameSteps(x: Tracked, run: seq<Marked>)
    ensures CanTrack(x, run) <==> Possible(x.base, Steps(run))
    ensures CanTrack(x, run) ==> TrackAll(x, run).base == Final(x.base, Steps(run))
    decreases |run|
  {
    if run != [] {
      assert Steps(run)[1..] == Steps(run[1..]);
      if Enabled(x.base, run[0].step) { SameSteps(Track(x, run[0]), run[1..]); }
    }
  }

  lemma {:induction false} StepsOfMarks(steps: seq<Step>, obj: nat)
    ensures Steps(MarkAll(steps, obj)) == steps
    ensures forall m :: m in MarkAll(steps, obj) ==> m.step in steps && m.obj == obj
    decreases |steps|
  {
    if steps != [] {
      StepsOfMarks(steps[1..], obj);
      assert MarkAll(steps, obj)[1..] == MarkAll(steps[1..], obj);
    }
  }

  lemma {:induction false} StepsJoin(a: seq<Marked>, b: seq<Marked>)
    ensures Steps(a + b) == Steps(a) + Steps(b)
    decreases |a|
  {
    if a == [] {
      assert a + b == b;
    } else {
      assert (a + b)[1..] == a[1..] + b;
      StepsJoin(a[1..], b);
    }
  }

  lemma {:induction false} MarksJoin(a: seq<Step>, b: seq<Step>, obj: nat)
    ensures MarkAll(a + b, obj) == MarkAll(a, obj) + MarkAll(b, obj)
    decreases |a|
  {
    if a == [] {
      assert a + b == b;
    } else {
      assert (a + b)[1..] == a[1..] + b;
      MarksJoin(a[1..], b, obj);
    }
  }

  lemma {:induction false} TrackJoin(x: Tracked, a: seq<Marked>, b: seq<Marked>)
    ensures CanTrack(x, a + b) <==> CanTrack(x, a) && CanTrack(TrackAll(x, a), b)
    ensures CanTrack(x, a + b) ==> TrackAll(x, a + b) == TrackAll(TrackAll(x, a), b)
    decreases |a|
  {
    if a == [] {
      assert a + b == b;
    } else {
      assert (a + b)[1..] == a[1..] + b;
      if Enabled(x.base, a[0].step) { TrackJoin(Track(x, a[0]), a[1..], b); }
    }
  }

  // ----- What a step does to the object a loop probes -----

  ghost predicate Sound(x: Tracked) {
    && |x.probed| == |x.base.owner| && x.stored.Keys == x.base.store
    && forall id :: id in x.base.loops ==> x.base.loops[id] < |x.base.owner|
  }

  /** The object the loop of `id` probes. */
  function Target(x: Tracked, id: string): nat {
    if id in x.base.loops && x.base.loops[id] < |x.probed| then x.probed[x.base.loops[id]] else 0
  }

  /** Over every interleaving: the loop of a backend probes the object it was registered with, until it is taken. */
  lemma TargetAfterStep(x: Tracked, m: Marked, id: string)
    requires Sound(x) && Enabled(x.base, m.step)
    ensures Sound(Track(x, m))
    ensures id in Track(x, m).base.loops ==>
              Target(Track(x, m), id) == if id in x.base.loops then Target(x, id) else Held(x, m.step.t, id)
    ensures id in Track(x, m).base.loops && id !in x.base.loops ==> Registers(x.base, m.step, id)
  {
    LoopAfterStep(x.base, m.step, id);
  }

  lemma {:induction false} StaysSound(x: Tracked, run: seq<Marked>)
    requires Sound(x) && CanTrack(x, run)
    ensures Sound(TrackAll(x, run))
    decreases |run|
  {
    if run != [] {
      TargetAfterStep(x, run[0], "");
      StaysSound(Track(x, run[0]), run[1..]);
    }
  }

  /** No call of the run sets out to take the loop of `id`. */
  predicate Spares(run: seq<Marked>, id: string) {
    forall m :: m in run ==> !m.step.Rescan? && !(m.step.RemoveBackend? && m.step.id == id)
  }

  lemma {:induction false} KeepsTarget(x: Tracked, run: seq<Marked>, id: string)
    requires Sound(x) && CanTrack(x, run) && NoRemovalUnderWay(x.base, id) && Spares(run, id) && id in x.base.loops
    ensures id in TrackAll(x, run).base.loops && Target(TrackAll(x, run), id) == Target(x, id)
    decreases |run|
  {
    if run != [] {
      assert run[0] in run;
      NoRemovalStep(x.base, run[0].step, id);
      LoopAfterStep(x.base, run[0].step, id);
      TargetAfterStep(x, run[0], id);
      KeepsTarget(Track(x, run[0]), run[1..], id);
    }
  }

  /** Whoever is about to register `id` holds `obj`, and so does its loop if there is one. */
  ghost predicate Only(x: Tracked, id: string, obj: nat) {
    && (forall t :: OnList(x.base, t, id) ==> Held(x, t, id) == obj)
    && (id in x.base.loops ==> Target(x, id) == obj)
  }

  lemma OnlyStep(x: Tracked, m: Marked, id: string)
    requires Sound(x) && Enabled(x.base, m.step) && Only(x, id, m.obj) && !m.step.Rescan? && !m.step.ReadStore?
    ensures Only(Track(x, m), id, m.obj)
  {
    TargetAfterStep(x, m, id);
    var y := Track(x, m);
    if m.step.Spawn? && x.base.threads[m.step.t].todo[0] == id { assert OnList(x.base, m.step.t, id); }
    forall t | OnList(y.base, t, id) ensures Held(y, t, id) == m.obj {
      if !(m.step.AddBackend? && m.step.t == t) { assert OnList(x.base, t, id); }
    }
  }

  lemma {:induction false} StaysOnly(x: Tracked, run: seq<Marked>, id: string, obj: nat)
    requires Sound(x) && CanTrack(x, run) && Only(x, id, obj)
    requires forall m :: m in run ==> m.obj == obj && !m.step.Rescan? && !m.step.ReadStore?
    ensures Only(TrackAll(x, run), id, obj)
    decreases |run|
  {
    if run != [] {
      assert run[0] in run;
      TargetAfterStep(x, run[0], id);
      OnlyStep(x, run[0], id);
      StaysOnly(Track(x, run[0]), run[1..], id, obj);
    }
  }

  /** No object is beyond `most`. */
  ghost predicate Bounded(x: Tracked, most: nat) {
    && (forall id :: id in x.stored ==> x.stored[id] <= most)
    && (forall t, id :: t in x.held && id in x.held[t] ==> x.held[t][id] <= most)
    && (forall ch :: 0 <= ch < |x.probed| ==> x.probed[ch] <= most)
  }

  lemma {:induction false} StaysBounded(x: Tracked, run: seq<Marked>, most: nat)
    requires CanTrack(x, run) && Bounded(x, most) && forall m :: m in run ==> m.obj <= most
    ensures Bounded(TrackAll(x, run), most)
    decreases |run|
  {
    if run != [] {
      assert run[0] in run;
      StaysBounded(Track(x, run[0]), run[1..], most);
    }
  }

  lemma {:induction false} KeepsStored(x: Tracked, run: seq<Marked>)
    requires CanTrack(x, run) && forall m :: m in run ==> !m.step.StoreBackend? && !m.step.DeleteBackend?
    ensures TrackAll(x, run).stored == x.stored
    decreases |run|
  {
    if run != [] {
      assert run[0] in run;
      KeepsStored(Track(x, run[0]), run[1..]);
    }
  }

  // ----- Operations one after another -----

  /** The `n`-th create makes object `n`, counting all operations; a patch keeps the stored object. */
  function ObjectOf(x: Tracked, op: Operation, n: nat): nat {
    match op
    case Create(_) => n
    case Patch(id, _) => if id in x.stored then x.stored[id] else 0
    case Delete(_) => 0
  }

  /** A start on `loaded`, whose objects are 0, followed by the operations, each to its end. */
  ghost predicate Performs(run: seq<Marked>, loaded: seq<string>, ops: seq<Operation>)
    decreases |ops|
  {
    if ops == [] then exists steps :: StartsUp(steps, loaded) && run == MarkAll(steps, 0)
    else
      exists before, more :: PerformsLast(before, more, loaded, ops)
                             && run == before +
                                 MarkAll(more, ObjectOf(TrackAll(NOTHING, before), ops[|ops| - 1], |ops|))
  }

  ghost predicate PerformsLast(before: seq<Marked>, more: seq<Step>, loaded: seq<string>, ops: seq<Operation>)
    requires ops != []
    decreases |ops|, 0
  {
    && CanTrack(NOTHING, before) && Performs(before, loaded, ops[..|ops| - 1])
    && OpSteps(TrackAll(NOTHING, before).base, ops[|ops| - 1], more)
  }

  /** No create over a stored `id` has come since `id` was last stored anew or its loop restarted. */
  predicate UpToDate(loaded: seq<string>, ops: seq<Operation>, id: string) {
    if ops == [] then true
    else
      var n := |ops| - 1;
      match ops[n]
      case Create(other) =>
        if other == id then id !in StoreAfterAll(loaded, ops[..n]) else UpToDate(loaded, ops[..n], id)
      case Patch(other, restart) => (other == id && restart) || UpToDate(loaded, ops[..n], id)
      case Delete(other) => other == id || UpToDate(loaded, ops[..n], id)
  }

  lemma {:induction false} PerformsCarriesOut(run: seq<Marked>, loaded: seq<string>, ops: seq<Operation>)
    requires CanTrack(NOTHING, run) && Performs(run, loaded, ops)
    ensures Possible(INIT, Steps(run)) && CarriesOut(Steps(run), loaded, ops)
    ensures TrackAll(NOTHING, run).base == Final(INIT, Steps(run))
    decreases |ops|
  {
    SameSteps(NOTHING, run);
    if ops == [] {
      var steps :| StartsUp(steps, loaded) && run == MarkAll(steps, 0);
      StepsOfMarks(steps, 0);
    } else {
      var before, more :| PerformsLast(before, more, loaded, ops)
          && run == before + MarkAll(more, ObjectOf(TrackAll(NOTHING, before), ops[|ops| - 1], |ops|));
      PerformsCarriesOut(before, loaded, ops[..|ops| - 1]);
      var o := ObjectOf(TrackAll(NOTHING, before), ops[|ops| - 1], |ops|);
      StepsOfMarks(more, o);
      StepsJoin(before, MarkAll(more, o));
      var n, all := |Steps(before)|, Steps(run);
      assert all[..n] == Steps(before) && all[n..] == more;
    }
  }

  /** What is true between two operations, after `n` of them. */
  ghost predicate Between(x: Tracked, loaded: seq<string>, ops: seq<Operation>) {
    && Sound(x) && Bounded(x, |ops|) && AllDone(x.base)
    && x.base.loops.Keys == x.base.store == StoreAfterAll(loaded, ops)
    && forall id :: id in x.base.store ==> (Target(x, id) == x.stored[id] <==> UpToDate(loaded, ops, id))
  }

  /** The part of it that is known from the registry alone. */
  ghost predicate Framed(x: Tracked, loaded: seq<string>, ops: seq<Operation>) {
    Sound(x) && AllDone(x.base) && x.base.loops.Keys == x.base.store == StoreAfterAll(loaded, ops)
  }

  /** An operation on `id` that stores `obj` first: other ids keep their loops and objects. */
  lemma OthersKeep(x: Tracked, more: seq<Step>, obj: nat, id: string, other: string)
    requires Sound(x) && AllDone(x.base) && CanTrack(x, MarkAll(more, obj)) && other != id && other in x.base.loops
    requires other in x.stored && forall step :: step in more ==> Concerns(step, id)
    ensures var y := TrackAll(x, MarkAll(more, obj));
            other in y.stored && y.stored[other] == x.stored[other] && Target(y, other) == Target(x, other)
  {
    StepsOfMarks(more, obj);
    KeepsTarget(x, MarkAll(more, obj), other);
    OthersStored(x, MarkAll(more, obj), id, other);
  }

  lemma {:induction false} OthersStored(x: Tracked, run: seq<Marked>, id: string, other: string)
    requires CanTrack(x, run) && other != id && other in x.stored && forall m :: m in run ==> Concerns(m.step, id)
    ensures other in TrackAll(x, run).stored && TrackAll(x, run).stored[other] == x.stored[other]
    decreases |run|
  {
    if run != [] {
      assert run[0] in run;
      OthersStored(Track(x, run[0]), run[1..], id, other);
    }
  }

  /** Splits off the store or delete an operation begins with. */
  lemma FirstMark(x: Tracked, first: Step, rest: seq<Step>, obj: nat) returns (y: Tracked)
    requires Sound(x) && CanTrack(x, MarkAll([first] + rest, obj))
    ensures Enabled(x.base, first) && y == Track(x, Marked(first, obj)) && Sound(y)
    ensures CanTrack(y, MarkAll(rest, obj))
    ensures TrackAll(x, MarkAll([first] + rest, obj)) == TrackAll(y, MarkAll(rest, obj))
  {
    assert ([first] + rest)[1..] == rest;
    var marks := MarkAll([first] + rest, obj);
    assert marks[0] == Marked(first, obj) && marks[1..] == MarkAll(rest, obj);
    y := Track(x, Marked(first, obj));
    TargetAfterStep(x, Marked(first, obj), "");
  }

  /** The steps of an add call, marked with `obj`. */
  predicate Adding(marks: seq<Marked>, obj: nat) {
    forall m :: m in marks ==> m.obj == obj && (m.step.AddBackend? || m.step.Check? || m.step.Spawn?)
  }

  lemma AddStepsMarked(t: nat, id: string, obj: nat)
    ensures Adding(MarkAll(AddSteps(t, id), obj), obj)
  {
    StepsOfMarks(AddSteps(t, id), obj);
  }

  /** An add call with nobody else at work on `id`: a loop that is there keeps its object, a new one gets `obj`. */
  lemma AddTargets(x: Tracked, marks: seq<Marked>, id: string, obj: nat)
    requires Sound(x) && CanTrack(x, marks) && Adding(marks, obj)
    requires if id in x.base.loops then NoRemovalUnderWay(x.base, id) else NoAddUnderWay(x.base, id)
    ensures var y := TrackAll(x, marks);
            && y.stored == x.stored
            && (id in y.base.loops ==> Target(y, id) == if id in x.base.loops then Target(x, id) else obj)
  {
    KeepsStored(x, marks);
    if id in x.base.loops { KeepsTarget(x, marks, id); } else { StaysOnly(x, marks, id, obj); }
  }

  lemma CreateTargets(x: Tracked, t: nat, id: string, obj: nat)
    requires Sound(x) && AllDone(x.base) && CanTrack(x, MarkAll([StoreBackend(id)] + AddSteps(t, id), obj))
    ensures var y := TrackAll(x, MarkAll([StoreBackend(id)] + AddSteps(t, id), obj));
            && y.stored == x.stored[id := obj]
            && (id in y.base.loops ==> Target(y, id) == if id in x.base.loops then Target(x, id) else obj)
  {
    var y := FirstMark(x, StoreBackend(id), AddSteps(t, id), obj);
    AddStepsMarked(t, id, obj);
    AddTargets(y, MarkAll(AddSteps(t, id), obj), id, obj);
  }

  /** After the removal call of a patch there is no loop, and nobody about to register one. */
  lemma RemoveTargets(x: Tracked, t: nat, id: string, found: bool, obj: nat)
    requires Sound(x) && AllDone(x.base) && CanTrack(x, MarkAll(RemoveSteps(t, id, found), obj))
    ensures var y := TrackAll(x, MarkAll(RemoveSteps(t, id, found), obj));
            Sound(y) && y.stored == x.stored && id !in y.base.loops && NoAddUnderWay(y.base, id)
  {
    var rest := RemoveSteps(t, id, found)[1..];
    assert RemoveSteps(t, id, found) == [RemoveBackend(t, id)] + rest;
    var asked := FirstMark(x, RemoveBackend(t, id), rest, obj);
    NoAddStep(x.base, RemoveBackend(t, id), id);
    assert rest == [Claim(t)] + rest[1..];
    var claimed := FirstMark(asked, Claim(t), rest[1..], obj);
    NoAddStep(asked.base, Claim(t), id);
    LoopAfterStep(asked.base, Claim(t), id);
    if found {
      assert rest[1..] == [Close(t)] + [];
      var closed := FirstMark(claimed, Close(t), [], obj);
      NoAddStep(claimed.base, Close(t), id);
      LoopAfterStep(claimed.base, Close(t), id);
    }
  }

  lemma RestartTargets(x: Tracked, t: nat, u: nat, id: string, found: bool, obj: nat)
    requires Sound(x) && AllDone(x.base)
    requires CanTrack(x, MarkAll([StoreBackend(id)] + RestartSteps(t, u, id, found), obj))
    ensures var y := TrackAll(x, MarkAll([StoreBackend(id)] + RestartSteps(t, u, id, found), obj));
            y.stored == x.stored[id := obj] && (id in y.base.loops ==> Target(y, id) == obj)
  {
    var removal, addition := MarkAll(RemoveSteps(t, id, found), obj), MarkAll(AddSteps(u, id), obj);
    var stored := FirstMark(x, StoreBackend(id), RestartSteps(t, u, id, found), obj);
    MarksJoin(RemoveSteps(t, id, found), AddSteps(u, id), obj);
    TrackJoin(stored, removal, addition);
    RemoveTargets(stored, t, id, found, obj);
    var removed := TrackAll(stored, removal);
    AddStepsMarked(u, id, obj);
    AddTargets(removed, addition, id, obj);
  }

  lemma QuietTargets(x: Tracked, id: string, obj: nat)
    requires Sound(x) && CanTrack(x, MarkAll([StoreBackend(id)], obj))
    ensures var y := TrackAll(x, MarkAll([StoreBackend(id)], obj));
            y.stored == x.stored[id := obj] && y.base.loops == x.base.loops && Target(y, id) == Target(x, id)
  {
    assert [StoreBackend(id)] == [StoreBackend(id)] + [];
    var y := FirstMark(x, StoreBackend(id), [], obj);
  }

  /** What the operation does to the backend it is about. */
  lemma OwnTarget(x: Tracked, loaded: seq<string>, ops: seq<Operation>, more: seq<Step>)
    requires ops != [] && Between(x, loaded, ops[..|ops| - 1]) && OpSteps(x.base, ops[|ops| - 1], more)
    requires CanTrack(x, MarkAll(more, ObjectOf(x, ops[|ops| - 1], |ops|)))
    requires Framed(TrackAll(x, MarkAll(more, ObjectOf(x, ops[|ops| - 1], |ops|))), loaded, ops)
    ensures var y, id := TrackAll(x, MarkAll(more, ObjectOf(x, ops[|ops| - 1], |ops|))), ops[|ops| - 1].id;
            id in y.base.store ==> (Target(y, id) == y.stored[id] <==> UpToDate(loaded, ops, id))
  {
    var op := ops[|ops| - 1];
    var o := ObjectOf(x, op, |ops|);
    match op {
      case Create(id) =>
        var t: nat :| more == [StoreBackend(id)] + AddSteps(t, id);
        CreateTargets(x, t, id, o);
      case Delete(_) =>
      case Patch(id, restart) =>
        if id !in x.base.store {
          assert MarkAll(more, o) == [];
        } else if !restart {
          QuietTargets(x, id, o);
        } else {
          var t: nat, u: nat :| more == [StoreBackend(id)] + RestartSteps(t, u, id, id in x.base.loops);
          RestartTargets(x, t, u, id, id in x.base.loops, o);
        }
    }
  }

  lemma OperationConcerns(x: Tracked, op: Operation, more: seq<Step>)
    requires OpSteps(x.base, op, more)
    ensures forall step :: step in more ==> Concerns(step, op.id)
  {
  }

  lemma OperationTargets(x: Tracked, loaded: seq<string>, ops: seq<Operation>, more: seq<Step>)
    requires ops != [] && Between(x, loaded, ops[..|ops| - 1]) && OpSteps(x.base, ops[|ops| - 1], more)
    requires CanTrack(x, MarkAll(more, ObjectOf(x, ops[|ops| - 1], |ops|)))
    requires Framed(TrackAll(x, MarkAll(more, ObjectOf(x, ops[|ops| - 1], |ops|))), loaded, ops)
    ensures Between(TrackAll(x, MarkAll(more, ObjectOf(x, ops[|ops| - 1], |ops|))), loaded, ops)
  {
    var op := ops[|ops| - 1];
    var o := ObjectOf(x, op, |ops|);
    var y := TrackAll(x, MarkAll(more, o));
    StepsOfMarks(more, o);
    StaysBounded(x, MarkAll(more, o), |ops|);
    OwnTarget(x, loaded, ops, more);
    OperationConcerns(x, op, more);
    forall id | id in y.base.store ensures Target(y, id) == y.stored[id] <==> UpToDate(loaded, ops, id) {
      if id != op.id { OthersKeep(x, more, o, op.id, id); }
    }
  }

  lemma FramedAfter(run: seq<Marked>, loaded: seq<string>, ops: seq<Operation>)
    requires CanTrack(NOTHING, run) && Performs(run, loaded, ops)
    ensures Framed(TrackAll(NOTHING, run), loaded, ops)
  {
    PerformsCarriesOut(run, loaded, ops);
    OperationsReconcile(Steps(run), loaded, ops);
    StaysSound(NOTHING, run);
  }

  lemma {:induction false} BetweenAll(run: seq<Marked>, loaded: seq<string>, ops: seq<Operation>)
    requires CanTrack(NOTHING, run) && Performs(run, loaded, ops)
    ensures Between(TrackAll(NOTHING, run), loaded, ops)
    decreases |ops|
  {
    FramedAfter(run, loaded, ops);
    if ops == [] {
      var steps :| StartsUp(steps, loaded) && run == MarkAll(steps, 0);
      StepsOfMarks(steps, 0);
      StaysBounded(NOTHING, run, 0);
    } else {
      var before, more :| PerformsLast(before, more, loaded, ops)
          && run == before + MarkAll(more, ObjectOf(TrackAll(NOTHING, before), ops[|ops| - 1], |ops|));
      BetweenAll(before, loaded, ops[..|ops| - 1]);
      TrackJoin(NOTHING, before, MarkAll(more, ObjectOf(TrackAll(NOTHING, before), ops[|ops| - 1], |ops|)));
      OperationTargets(TrackAll(NOTHING, before), loaded, ops, more);
    }
  }

  /** Every run that carries out operations one after another: the loop of a stored backend probes the object that is
      stored if and only if no create over the stored id has come since it was stored anew or its loop restarted. */
  lemma TargetsExactly(run: seq<Marked>, loaded: seq<string>, ops: seq<Operation>, id: string)
    requires CanTrack(NOTHING, run) && Performs(run, loaded, ops) && id in StoreAfterAll(loaded, ops)
    ensures var x := TrackAll(NOTHING, run);
            && id in x.base.loops && id in x.stored
            && (Target(x, id) == x.stored[id] <==> UpToDate(loaded, ops, id))
  {
    BetweenAll(run, loaded, ops);
  }

  // ----- A create over a stored backend -----

  lemma {:induction false} SomeRunPerforms(loaded: seq<string>, ops: seq<Operation>) returns (run: seq<Marked>)
    ensures CanTrack(NOTHING, run) && Performs(run, loaded, ops)
    decreases |ops|
  {
    if ops == [] {
      var steps := SomeStart(loaded);
      run := MarkAll(steps, 0);
      StepsOfMarks(steps, 0);
      SameSteps(NOTHING, run);
    } else {
      var front := ops[..|ops| - 1];
      var before := SomeRunPerforms(loaded, front);
      PerformsCarriesOut(before, loaded, front);
      OperationsSettle(Steps(before), loaded, front);
      var more := SomeOperation(Steps(before), ops[|ops| - 1]);
      var o := ObjectOf(TrackAll(NOTHING, before), ops[|ops| - 1], |ops|);
      run := before + MarkAll(more, o);
      StepsOfMarks(more, o);
      StepsJoin(before, MarkAll(more, o));
      SameSteps(NOTHING, run);
      assert PerformsLast(before, more, loaded, ops);
    }
  }

  /** Creating a loaded backend again: all calls return, and its loop goes on probing the old object. */
  lemma CreateOverLoaded(id: string) returns (run: seq<Marked>)
    ensures CanTrack(NOTHING, run) && Performs(run, [id], [Create(id)])
    ensures var x := TrackAll(NOTHING, run);
            AllDone(x.base) && id in x.base.loops && id in x.stored && Target(x, id) != x.stored[id]
  {
    run := SomeRunPerforms([id], [Create(id)]);
    BetweenAll(run, [id], [Create(id)]);
    assert [Create(id)][..0] == [];
    TargetsExactly(run, [id], [Create(id)], id);
  }
}
