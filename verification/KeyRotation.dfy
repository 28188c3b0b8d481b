/** Rotations, updates and deletions of one API key by callers that overlap. The handlers share the key object and take
    the store's lock only inside each store call, so each of their accesses is a step of its own. */
module KeyRotation {

  /** The point one caller has reached. A rotation carries the hash of its new raw key. */
  datatype Caller =
    | Found(next: string)     // holds the key object
    | Dropped(next: string)   // has deleted the key from the store
    | Cleared(next: string)   // has emptied the hash of the object
    | Updating                 // an enable, disable or patch that holds the key object
    | Done

  datatype State = State(
    stored: bool,              // is the key in the store?
    hash: string,              // the hash in the key object
    listed: set<string>,       // the hashes under which the index finds the key
    callers: map<nat, Caller>,
    chosen: set<string>,       // hashes of the raw keys chosen so far
    used: set<string>)         // those that have been stored in the object

  datatype Step =
    | BeginRotate(c: nat, next: string)
    | Drop(c: nat)
    | Clear(c: nat)
    | Store(c: nat)
    | BeginUpdate(c: nat)
    | Restore(c: nat)
    | Delete                   // an admin delete

  /** A stored key with one raw key. */
  function Init(first: string): State { State(true, first, {first}, map[], {first}, {first}) }

  /** Raw keys are never chosen twice, and no hash is empty. */
  predicate Enabled(s: State, step: Step) {
    match step
    case BeginRotate(c, next) => c !in s.callers && s.stored && next != "" && next !in s.chosen
    case Drop(c) => c in s.callers && s.callers[c].Found?
    case Clear(c) => c in s.callers && s.callers[c].Dropped?
    case Store(c) => c in s.callers && s.callers[c].Cleared?
    case BeginUpdate(c) => c !in s.callers && s.stored
    case Restore(c) => c in s.callers && s.callers[c].Updating?
    case Delete => true
  }

  function Move(s: State, c: nat, caller: Caller): State { s.(callers := s.callers[c := caller]) }

  /** Deleting takes the hash the object has at that moment out of the index, if the key is stored. */
  function Deleted(s: State): State { if s.stored then s.(stored := false, listed := s.listed - {s.hash}) else s }

  function Apply(s: State, step: Step): State
    requires Enabled(s, step)
  {
    match step
    case BeginRotate(c, next) => Move(s, c, Found(next)).(chosen := s.chosen + {next})
    case Drop(c) => Move(Deleted(s), c, Dropped(s.callers[c].next))
    case Clear(c) => Move(s, c, Cleared(s.callers[c].next)).(hash := "")
    case Store(c) =>
      var h := s.callers[c].next;
      Move(s, c, Done).(stored := true, hash := h, listed := s.listed + {h}, used := s.used + {h})
    case BeginUpdate(c) => Move(s, c, Updating)
    case Restore(c) =>
        Move(s, c, Done).(stored := true, listed := if s.hash != "" then s.listed + {s.hash} else s.listed)
    case Delete => Deleted(s)
  }

  predicate Possible(s: State, run: seq<Step>)
    decreases |run|
  {
    run == [] || (Enabled(s, run[0]) && Possible(Apply(s, run[0]), run[1..]))
  }

  function Final(s: State, run: seq<Step>): State
    requires Possible(s, run)
    decreases |run|
  {
    if run == [] then s else Final(Apply(s, run[0]), run[1..])
  }

  /** The index finds the key exactly under the hash it has, if it is stored and has one. */
  predicate Right(s: State) { s.listed == if s.stored && s.hash != "" then {s.hash} else {} }

  /** The object's hash is overwritten only when the index does not list it. */
  predicate Safe(s: State, step: Step) { step.Clear? || step.Store? ==> s.hash !in s.listed }

  predicate AllSafe(s: State, run: seq<Step>)
    requires Possible(s, run)
    decreases |run|
  {
    run == [] || (Safe(s, run[0]) && AllSafe(Apply(s, run[0]), run[1..]))
  }

  // ----- Exactly when the index ends up right -----

  predicate Rotating(s: State, c: nat) {
    c in s.callers && (s.callers[c].Found? || s.callers[c].Dropped? || s.callers[c].Cleared?)
  }

  /** The hash a rotation brings has never been in the object, and no two rotations bring the same. */
  ghost predicate Fresh(s: State) {
    && s.used <= s.chosen && s.listed <= s.used && "" !in s.chosen && (s.hash != "" ==> s.hash in s.used)
    && (forall c :: Rotating(s, c) ==> s.callers[c].next in s.chosen - s.used)
    && (forall c, d :: Rotating(s, c) && Rotating(s, d) && s.callers[c].next == s.callers[d].next ==> c == d)
  }

  lemma StepKeepsFresh(s: State, step: Step)
    requires Fresh(s) && Enabled(s, step)
    ensures Fresh(Apply(s, step))
  {
    var t := Apply(s, step);
    forall c | Rotating(t, c) ensures t.callers[c].next in t.chosen - t.used {
      if Rotating(s, c) { assert s.callers[c].next in s.chosen - s.used; }
    }
    forall c, d | Rotating(t, c) && Rotating(t, d) && t.callers[c].next == t.callers[d].next ensures c == d {
      if Rotating(s, c) && Rotating(s, d) { assert t.callers[c].next == s.callers[c].next; }
    }
  }

  /** The index lists the key under a hash it no longer has. */
  ghost predicate Stale(s: State) { exists h :: h in s.listed && h != s.hash }

  lemma StaleStays(s: State, step: Step)
    requires Fresh(s) && Stale(s) && Enabled(s, step)
    ensures Stale(Apply(s, step))
  {
    var h :| h in s.listed && h != s.hash;
    if step.Store? { assert Rotating(s, step.c); }
    assert h in Apply(s, step).listed && h != Apply(s, step).hash;
  }

  lemma {:induction false} StaleForever(s: State, run: seq<Step>)
    requires Fresh(s) && Stale(s) && Possible(s, run)
    ensures Stale(Final(s, run)) && !Right(Final(s, run))
    decreases |run|
  {
    if run != [] {
      StepKeepsFresh(s, run[0]);
      StaleStays(s, run[0]);
      StaleForever(Apply(s, run[0]), run[1..]);
    }
  }

  lemma SafeStep(s: State, step: Step)
    requires Fresh(s) && Right(s) && Enabled(s, step)
    ensures if Safe(s, step) then Right(Apply(s, step)) else Stale(Apply(s, step))
  {
    if step.Store? { assert Rotating(s, step.c); }
    if !Safe(s, step) { assert s.hash in Apply(s, step).listed && s.hash != Apply(s, step).hash; }
  }

  lemma {:induction false} RightExactlyFrom(s: State, run: seq<Step>)
    requires Fresh(s) && Right(s) && Possible(s, run)
    ensures Right(Final(s, run)) <==> AllSafe(s, run)
    decreases |run|
  {
    if run != [] {
      StepKeepsFresh(s, run[0]);
      SafeStep(s, run[0]);
      if Safe(s, run[0]) { RightExactlyFrom(Apply(s, run[0]), run[1..]); } else
          { StaleForever(Apply(s, run[0]), run[1..]); }
    }
  }

  /** In every interleaving the index is right at the end if and only if no rotation overwrote a hash that was listed;
      once one did, the index lists the key under that hash for good. */
  lemma RightExactly(first: string, run: seq<Step>)
    requires first != "" && Possible(Init(first), run)
    ensures Right(Final(Init(first), run)) <==> AllSafe(Init(first), run)
  {
    RightExactlyFrom(Init(first), run);
  }

  // ----- What callers must do -----

  predicate AllDone(s: State) { forall c :: c in s.callers ==> s.callers[c].Done? }

  /** No rotation or update of the key begins while another is under way; deletes may come at any time. */
  predicate OneAtATime(s: State, run: seq<Step>)
    requires Possible(s, run)
    decreases |run|
  {
    run == [] || ((run[0].BeginRotate? || run[0].BeginUpdate? ==> AllDone(s)) && OneAtATime(Apply(s, run[0]), run[1..]))
  }

  ghost predicate Alone(s: State) {
    && (forall c, d :: c in s.callers && d in s.callers && !s.callers[c].Done? && !s.callers[d].Done? ==> c == d)
    && (forall c :: c in s.callers && (s.callers[c].Dropped? || s.callers[c].Cleared?) ==> s.listed == {})
  }

  lemma StepKeepsAlone(s: State, step: Step)
    requires Right(s) && Alone(s) && Enabled(s, step) && (step.BeginRotate? || step.BeginUpdate? ==> AllDone(s))
    ensures Safe(s, step) && Alone(Apply(s, step))
  {
  }

  lemma {:induction false} OneAtATimeIsSafe(s: State, run: seq<Step>)
    requires Fresh(s) && Right(s) && Alone(s) && Possible(s, run) && OneAtATime(s, run)
    ensures AllSafe(s, run)
    decreases |run|
  {
    if run != [] {
      StepKeepsFresh(s, run[0]);
      StepKeepsAlone(s, run[0]);
      SafeStep(s, run[0]);
      OneAtATimeIsSafe(Apply(s, run[0]), run[1..]);
    }
  }

  /** If rotations and updates of the key are made one at a time, the index is right all along. */
  lemma SerialRotations(first: string, run: seq<Step>)
    requires first != "" && Possible(Init(first), run) && OneAtATime(Init(first), run)
    ensures Right(Final(Init(first), run))
  {
    OneAtATimeIsSafe(Init(first), run);
    RightExactly(first, run);
  }

  // ----- Every caller can return -----

  function StepsLeft(caller: Caller): nat {
    match caller
    case Found(_) => 3
    case Dropped(_) => 2
    case Cleared(_) => 1
    case Updating => 1
    case Done => 0
  }

  function NextStep(c: nat, caller: Caller): Step {
    match caller
    case Found(_) => Drop(c)
    case Dropped(_) => Clear(c)
    case Cleared(_) => Store(c)
    case Updating => Restore(c)
    case Done => Delete
  }

  /** Every step of `run` is taken by the caller `c`. */
  predicate StepsOf(run: seq<Step>, c: nat) { forall i :: 0 <= i < |run| ==> !run[i].Delete? && run[i].c == c }

  /** After every run each caller can return by its own steps alone: a rotation in three, an update in one; and either
      then leaves the key in the store, a rotation with the hash it chose, listed under it. */
  lemma {:induction false} EveryCallerCanReturn(s: State, c: nat) returns (more: seq<Step>)
    requires c in s.callers
    ensures Possible(s, more) && StepsOf(more, c) && |more| == StepsLeft(s.callers[c])
    ensures var t := Final(s, more);
            && c in t.callers && t.callers[c].Done? && (more != [] ==> t.stored)
            && (Rotating(s, c) ==> t.hash == s.callers[c].next && t.hash in t.listed)
    decreases StepsLeft(s.callers[c])
  {
    more := [];
    if !s.callers[c].Done? {
      var step := NextStep(c, s.callers[c]);
      var t := Apply(s, step);
      var rest := EveryCallerCanReturn(t, c);
      more := [step] + rest;
      assert more[0] == step && more[1..] == rest;
      if rest == [] { assert Final(s, more) == t; }
    }
  }

  // ----- When a delete lasts -----

  /** The step puts the key back into the store. */
  predicate PutsBack(step: Step) { step.Store? || step.Restore? }

  /** The key is out of the store all along. */
  predicate StaysGone(s: State, run: seq<Step>)
    requires Possible(s, run)
    decreases |run|
  {
    !s.stored && (run == [] || StaysGone(Apply(s, run[0]), run[1..]))
  }

  lemma {:induction false} GoneExactly(s: State, run: seq<Step>)
    requires !s.stored && Possible(s, run)
    ensures StaysGone(s, run) <==> forall step :: step in run ==> !PutsBack(step)
    decreases |run|
  {
    if run != [] {
      assert run == [run[0]] + run[1..];
      if !PutsBack(run[0]) { GoneExactly(Apply(s, run[0]), run[1..]); } else { assert run[0] in run; }
    }
  }

  /** While the key is out of the store, nothing begins; a caller under way puts it back before it is done. */
  lemma {:induction false} PutBackExactly(s: State, run: seq<Step>)
    requires !s.stored && Possible(s, run) && AllDone(Final(s, run))
    ensures StaysGone(s, run) <==> AllDone(s)
    decreases |run|
  {
    if run != [] && !PutsBack(run[0]) {
      var t := Apply(s, run[0]);
      assert AllDone(t) <==> AllDone(s) by {
        if c :| c in s.callers && !s.callers[c].Done? { assert c in t.callers && !t.callers[c].Done?; }
      }
      PutBackExactly(t, run[1..]);
    }
  }

  /** In every interleaving: the key stays out of the store after a delete exactly when nothing puts it back, and, once
      all callers have returned, exactly when no caller was under way at the delete. */
  lemma DeleteLastsExactly(first: string, before: seq<Step>, after: seq<Step>)
    requires Possible(Init(first), before) && Possible(Apply(Final(Init(first), before), Delete), after)
    ensures var s := Final(Init(first), before);
            && (StaysGone(Apply(s, Delete), after) <==> forall step :: step in after ==> !PutsBack(step))
            && (AllDone(Final(Apply(s, Delete), after)) ==> (StaysGone(Apply(s, Delete), after) <==> AllDone(s)))
  {
    var s := Final(Init(first), before);
    GoneExactly(Apply(s, Delete), after);
    if AllDone(Final(Apply(s, Delete), after)) { PutBackExactly(Apply(s, Delete), after); }
  }

  // ----- Three runs in which callers overlap -----

  /** A delete during an update: the update puts the key back, and the deleted raw key finds it again. The calls that
      begin are one at a time. */
  lemma DeleteUndone() returns (run: seq<Step>)
    ensures run == [BeginUpdate(0), Delete, Restore(0)] && Possible(Init("a"), run) && OneAtATime(Init("a"), run)
    ensures Final(Init("a"), run) == State(true, "a", {"a"}, map[0 := Done], {"a"}, {"a"})
  {
    run := [BeginUpdate(0), Delete, Restore(0)];
    var begun := Apply(Init("a"), BeginUpdate(0));
    assert run[1..] == [Delete, Restore(0)] && run[1..][1..] == [Restore(0)] && run[1..][1..][1..] == [];
    var gone := Apply(begun, Delete);
    assert gone == State(false, "a", {}, map[0 := Updating], {"a"}, {"a"});
    assert Apply(gone, Restore(0)) == State(true, "a", {"a"}, map[0 := Done], {"a"}, {"a"});
  }

  lemma {:induction false} ExtendFrom(s: State, run: seq<Step>, step: Step)
    requires Possible(s, run) && Enabled(Final(s, run), step)
    ensures Possible(s, run + [step]) && Final(s, run + [step]) == Apply(Final(s, run), step)
    decreases |run|
  {
    var longer := run + [step];
    if run == [] {
      assert longer[1..] == [];
    } else {
      assert longer[1..] == run[1..] + [step];
      ExtendFrom(Apply(s, run[0]), run[1..], step);
    }
  }

  lemma Extend(first: string, run: seq<Step>, s: State, step: Step, t: State) returns (longer: seq<Step>)
    requires Possible(Init(first), run) && Final(Init(first), run) == s && Enabled(s, step) && Apply(s, step) == t
    ensures Possible(Init(first), longer) && Final(Init(first), longer) == t
  {
    longer := run + [step];
    ExtendFrom(Init(first), run, step);
  }

  function Key(stored: bool, hash: string, listed: set<string>, callers: map<nat, Caller>, used: set<string>): State {
    State(stored, hash, listed, callers, {"a", "b", "c"}, used)
  }

  /** Two rotations that both delete before either stores: all callers return, and the raw key of the first rotation
      still finds the key, which has the hash of the second. */
  lemma OverlappingRotations() returns (run: seq<Step>)
    ensures Possible(Init("a"), run) && AllDone(Final(Init("a"), run))
    ensures Final(Init("a"), run).hash == "c" && Final(Init("a"), run).listed == {"b", "c"}
  {
    var one := Init("a").(callers := map[0 := Found("b")], chosen := {"a", "b"});
    run := Extend("a", [], Init("a"), BeginRotate(0, "b"), one);
    var both := Key(true, "a", {"a"}, map[0 := Found("b"), 1 := Found("c")], {"a"});
    run := Extend("a", run, one, BeginRotate(1, "c"), both);
    var half := Key(false, "a", {}, map[0 := Dropped("b"), 1 := Found("c")], {"a"});
    run := Extend("a", run, both, Drop(0), half);
    var dropped := Key(false, "a", {}, map[0 := Dropped("b"), 1 := Dropped("c")], {"a"});
    run := Extend("a", run, half, Drop(1), dropped);
    run := StoreInTurn(run, dropped);
  }

  lemma StoreInTurn(before: seq<Step>, dropped: State) returns (run: seq<Step>)
    requires dropped == Key(false, "a", {}, map[0 := Dropped("b"), 1 := Dropped("c")], {"a"})
    requires Possible(Init("a"), before) && Final(Init("a"), before) == dropped
    ensures Possible(Init("a"), run)
    ensures Final(Init("a"), run) == Key(true, "c", {"b", "c"}, map[0 := Done, 1 := Done], {"a", "b", "c"})
  {
    var cleared := Key(false, "", {}, map[0 := Cleared("b"), 1 := Dropped("c")], {"a"});
    run := Extend("a", before, dropped, Clear(0), cleared);
    var first := Key(true, "b", {"b"}, map[0 := Done, 1 := Dropped("c")], {"a", "b"});
    run := Extend("a", run, cleared, Store(0), first);
    var again := Key(true, "", {"b"}, map[0 := Done, 1 := Cleared("c")], {"a", "b"});
    run := Extend("a", run, first, Clear(1), again);
    run := Extend("a", run, again, Store(1), Key(true, "c", {"b", "c"}, map[0 := Done, 1 := Done], {"a", "b", "c"}));
  }

  /** An update that re-stores the key between the delete and the store of a rotation: the previous raw key still finds
      the key. */
  lemma UpdateDuringRotation() returns (run: seq<Step>)
    ensures Possible(Init("a"), run) && AllDone(Final(Init("a"), run))
    ensures Final(Init("a"), run).hash == "b" && Final(Init("a"), run).listed == {"a", "b"}
  {
    var one := Init("a").(callers := map[0 := Found("b")], chosen := {"a", "b"});
    run := Extend("a", [], Init("a"), BeginRotate(0, "b"), one);
    var both := one.(callers := map[0 := Found("b"), 1 := Updating]);
    run := Extend("a", run, one, BeginUpdate(1), both);
    var dropped := both.(stored := false, listed := {}, callers := map[0 := Dropped("b"), 1 := Updating]);
    run := Extend("a", run, both, Drop(0), dropped);
    run := RestoreThenStore(run, dropped);
  }

  lemma RestoreThenStore(before: seq<Step>, dropped: State) returns (run: seq<Step>)
    requires dropped == State(false, "a", {}, map[0 := Dropped("b"), 1 := Updating], {"a", "b"}, {"a"})
    requires Possible(Init("a"), before) && Final(Init("a"), before) == dropped
    ensures Possible(Init("a"), run)
    ensures Final(Init("a"), run) == State(true, "b", {"a", "b"}, map[0 := Done, 1 := Done], {"a", "b"}, {"a", "b"})
  {
    var back := dropped.(stored := true, listed := {"a"}, callers := map[0 := Dropped("b"), 1 := Done]);
    run := Extend("a", before, dropped, Restore(1), back);
    var cleared := back.(hash := "", callers := map[0 := Cleared("b"), 1 := Done]);
    run := Extend("a", run, back, Clear(0), cleared);
    run := Extend("a", run, cleared, Store(0),
        State(true, "b", {"a", "b"}, map[0 := Done, 1 := Done], {"a", "b"}, {"a", "b"}));
  }
}
