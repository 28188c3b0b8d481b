/** Whether the probe loops are those of the stored backends: exactly when they are, over every interleaving, what
    callers must do for it, and two runs in which they are not. */
module ProbeReconciliation {
  import opened ProbeRegistry

  /** The state before step `i` of a run from `s`. */
  function StateAt(s: State, run: seq<Step>, i: nat): State
    requires Possible(s, run) && i <= |run|
    decreases |run|
  {
    if i == 0 then s else StateAt(Apply(s, run[0]), run[1..], i - 1)
  }

  /** The step tries to register a loop for `id`; afterwards there is one. */
  predicate Registers(s: State, step: Step, id: string) {
    step.Spawn? && Enabled(s, step) && s.threads[step.t].todo[0] == id
  }

  /** The step takes away any loop of `id`: a removal of `id`, or a sweep that did not see it. */
  predicate Takes(s: State, step: Step, id: string) {
    && Enabled(s, step)
    && ((step.Claim? && s.threads[step.t].id == id) || (step.ClaimStale? && id !in s.threads[step.t].seen))
  }

  /** Exactly what a step does to the loop of `id`, whether the backend is stored or not. */
  lemma LoopAfterStep(s: State, step: Step, id: string)
    requires Enabled(s, step)
    ensures id in Apply(s, step).loops <==> Registers(s, step, id) || (id in s.loops && !Takes(s, step, id))
    ensures !(Registers(s, step, id) && Takes(s, step, id))
  {
  }

  /** Step `i` of the run registers `id`, takes its loop, or changes whether it is stored. */
  predicate RegistersAt(s: State, run: seq<Step>, i: nat, id: string)
    requires Possible(s, run)
  {
    i < |run| && Registers(StateAt(s, run, i), run[i], id)
  }

  predicate TakesAt(s: State, run: seq<Step>, i: nat, id: string)
    requires Possible(s, run)
  {
    i < |run| && Takes(StateAt(s, run, i), run[i], id)
  }

  /** Some step registers `id`, and no later one takes the loop. */
  ghost predicate LeftRegistered(s: State, run: seq<Step>, id: string)
    requires Possible(s, run)
  {
    exists i: nat :: RegistersAt(s, run, i, id) && forall j: nat :: i < j ==> !TakesAt(s, run, j, id)
  }

  /** Some step stores `id`, and no later one deletes it. */
  ghost predicate LeftStored(run: seq<Step>, id: string) {
    exists i: nat :: i < |run| && run[i] == StoreBackend(id) && forall j: nat :: i < j < |run| ==>
        run[j] != DeleteBackend(id)
  }

  lemma TailAt(s: State, run: seq<Step>, i: nat, id: string)
    requires Possible(s, run) && run != []
    ensures RegistersAt(s, run, i + 1, id) <==> RegistersAt(Apply(s, run[0]), run[1..], i, id)
    ensures TakesAt(s, run, i + 1, id) <==> TakesAt(Apply(s, run[0]), run[1..], i, id)
  {
  }

  lemma NeverTakenTail(s: State, run: seq<Step>, i: nat, id: string)
    requires Possible(s, run) && run != []
    ensures (forall j: nat :: i + 1 <= j ==> !TakesAt(s, run, j, id)) <==>
            forall j: nat :: i <= j ==> !TakesAt(Apply(s, run[0]), run[1..], j, id)
  {
    var t, rest := Apply(s, run[0]), run[1..];
    if forall j: nat :: i + 1 <= j ==> !TakesAt(s, run, j, id) {
      forall j: nat | i <= j ensures !TakesAt(t, rest, j, id) { TailAt(s, run, j, id); }
    }
    if forall j: nat :: i <= j ==> !TakesAt(t, rest, j, id) {
      forall j: nat | i + 1 <= j ensures !TakesAt(s, run, j, id) { TailAt(s, run, j - 1, id); }
    }
  }

  lemma LeftRegisteredTail(s: State, run: seq<Step>, id: string)
    requires Possible(s, run) && run != []
    ensures var t, rest := Apply(s, run[0]), run[1..];
            LeftRegistered(s, run, id) <==>
              || LeftRegistered(t, rest, id)
              || (Registers(s, run[0], id) && forall j: nat :: !TakesAt(t, rest, j, id))
  {
    var t, rest := Apply(s, run[0]), run[1..];
    if i: nat :| RegistersAt(s, run, i, id) && forall j: nat :: i < j ==> !TakesAt(s, run, j, id) {
      assert forall j: nat :: i + 1 <= j ==> !TakesAt(s, run, j, id);
      NeverTakenTail(s, run, i, id);
      if i > 0 {
        TailAt(s, run, i - 1, id);
        assert RegistersAt(t, rest, i - 1, id);
      }
    }
    if i: nat :| RegistersAt(t, rest, i, id) && forall j: nat :: i < j ==> !TakesAt(t, rest, j, id) {
      TailAt(s, run, i, id);
      assert forall j: nat :: i + 1 <= j ==> !TakesAt(t, rest, j, id);
      NeverTakenTail(s, run, i + 1, id);
      assert RegistersAt(s, run, i + 1, id);
    }
    if Registers(s, run[0], id) && forall j: nat :: !TakesAt(t, rest, j, id) {
      NeverTakenTail(s, run, 0, id);
      assert RegistersAt(s, run, 0, id);
    }
  }

  lemma {:induction false} LoopsFrom(s: State, run: seq<Step>, id: string)
    requires Possible(s, run)
    ensures id in Final(s, run).loops <==>
              LeftRegistered(s, run, id) || (id in s.loops && forall j: nat :: !TakesAt(s, run, j, id))
    decreases |run|
  {
    if run != [] {
      var t, rest := Apply(s, run[0]), run[1..];
      LoopsFrom(t, rest, id);
      LoopAfterStep(s, run[0], id);
      LeftRegisteredTail(s, run, id);
      NeverTakenTail(s, run, 0, id);
      assert (forall j: nat :: !TakesAt(s, run, j, id)) <==>
             !TakesAt(s, run, 0, id) && forall j: nat :: 1 <= j ==> !TakesAt(s, run, j, id);
    }
  }

  lemma LeftStoredTail(run: seq<Step>, id: string)
    requires run != []
    ensures LeftStored(run, id) <==>
        LeftStored(run[1..], id) || (run[0] == StoreBackend(id) && DeleteBackend(id) !in run[1..])
  {
    var rest := run[1..];
    assert forall j: nat :: j < |rest| ==> rest[j] == run[j + 1];
    if i: nat :| i < |run| && run[i] == StoreBackend(id) && forall j: nat :: i < j < |run| ==>
        run[j] != DeleteBackend(id) {
      if i > 0 { assert rest[i - 1] == StoreBackend(id); }
    }
    if i: nat :| i < |rest| && rest[i] == StoreBackend(id) && forall j: nat :: i < j < |rest| ==>
        rest[j] != DeleteBackend(id) {
      forall j: nat | i + 1 < j < |run| ensures run[j] != DeleteBackend(id) { assert rest[j - 1] == run[j]; }
      assert run[i + 1] == StoreBackend(id);
    }
    if run[0] == StoreBackend(id) && DeleteBackend(id) !in rest {
      forall j: nat | 0 < j < |run| ensures run[j] != DeleteBackend(id) { assert rest[j - 1] == run[j]; }
    }
  }

  lemma {:induction false} StoreFrom(s: State, run: seq<Step>, id: string)
    requires Possible(s, run)
    ensures id in Final(s, run).store <==> LeftStored(run, id) || (id in s.store && DeleteBackend(id) !in run)
    decreases |run|
  {
    if run != [] {
      StoreFrom(Apply(s, run[0]), run[1..], id);
      LeftStoredTail(run, id);
      assert run == [run[0]] + run[1..];
    }
  }

  /** For every interleaving: the loops are exactly those of the stored backends if and only if, for each backend, a
      registration that no later removal or blind sweep undid matches a store that no later delete undid. */
  lemma ReconciledExactly(run: seq<Step>)
    requires Possible(INIT, run)
    ensures Final(INIT, run).loops.Keys == Final(INIT, run).store <==>
            forall id :: LeftRegistered(INIT, run, id) <==> LeftStored(run, id)
  {
    var s := Final(INIT, run);
    forall id ensures (id in s.loops <==> LeftRegistered(INIT, run, id)) && (id in s.store <==> LeftStored(run, id)) {
      LoopsFrom(INIT, run, id);
      StoreFrom(INIT, run, id);
    }
    if s.loops.Keys == s.store {
      forall id ensures LeftRegistered(INIT, run, id) <==>
          LeftStored(run, id) { assert id in s.loops <==> id in s.loops.Keys; }
    }
  }

  // ----- Orderly callers -----

  /** A run continued: its suffix from step `i` is a run of its own from the state there. */
  lemma {:induction false} Suffix(s: State, run: seq<Step>, i: nat)
    requires Possible(s, run) && i <= |run|
    ensures Possible(StateAt(s, run, i), run[i..]) && Final(StateAt(s, run, i), run[i..]) == Final(s, run)
    decreases i
  {
    if i == 0 {
      assert run[0..] == run;
    } else {
      Suffix(Apply(s, run[0]), run[1..], i - 1);
      assert run[1..][i - 1..] == run[i..];
    }
  }

  lemma {:induction false} SuffixStates(s: State, run: seq<Step>, i: nat, j: nat)
    requires Possible(s, run) && i + j <= |run|
    ensures Possible(StateAt(s, run, i), run[i..])
    ensures StateAt(StateAt(s, run, i), run[i..], j) == StateAt(s, run, i + j)
    decreases i
  {
    Suffix(s, run, i);
    if i == 0 {
      assert run[0..] == run;
    } else {
      SuffixStates(Apply(s, run[0]), run[1..], i - 1, j);
      assert run[1..][i - 1..] == run[i..];
    }
  }

  lemma SuffixAt(s: State, run: seq<Step>, i: nat, j: nat, id: string)
    requires Possible(s, run) && i <= |run|
    requires Possible(StateAt(s, run, i), run[i..])
    ensures RegistersAt(StateAt(s, run, i), run[i..], j, id) ==> RegistersAt(s, run, i + j, id)
    ensures TakesAt(StateAt(s, run, i), run[i..], j, id) ==> TakesAt(s, run, i + j, id)
  {
    if i + j < |run| { SuffixStates(s, run, i, j); }
  }

  /** A call that has `id` on its list, on a started checker. */
  predicate OwesLoop(s: State, t: nat, id: string) {
    s.started && t in s.threads && (s.threads[t].Checking? || s.threads[t].Spawning?) && id in s.threads[t].todo
  }

  /** A call that will take the loop of `id`. */
  predicate OwesRemoval(s: State, t: nat, id: string) {
    t in s.threads &&
    match s.threads[t]
    case Checking(_, next) => next.Sweep? && id !in next.seen
    case Spawning(_, next) => next.Sweep? && id !in next.seen
    case Sweeping(seen) => id !in seen
    case Removing(other) => other == id
    case Closing(_) => false
    case Starting => false
  }

  lemma {:induction false} AddArrives(s: State, run: seq<Step>, t: nat, id: string) returns (j: nat)
    requires Possible(s, run) && OwesLoop(s, t, id) && AllDone(Final(s, run))
    ensures RegistersAt(s, run, j, id)
    decreases |run|
  {
    assert run != [];
    if Registers(s, run[0], id) { return 0; }
    j := AddArrives(Apply(s, run[0]), run[1..], t, id);
    TailAt(s, run, j, id);
    j := j + 1;
  }

  lemma {:induction false} RemovalArrives(s: State, run: seq<Step>, t: nat, id: string) returns (j: nat)
    requires Possible(s, run) && OwesRemoval(s, t, id) && AllDone(Final(s, run))
    ensures TakesAt(s, run, j, id)
    decreases |run|
  {
    assert run != [];
    if Takes(s, run[0], id) { return 0; }
    j := RemovalArrives(Apply(s, run[0]), run[1..], t, id);
    TailAt(s, run, j, id);
    j := j + 1;
  }

  /** A call that asks for a loop of `id`: an add, a rescan or a start that reads the store, on a started checker. */
  predicate AsksToAdd(s: State, step: Step, id: string) {
    match step
    case AddBackend(_, other) => s.started && other == id
    case Rescan(_, _) => s.started
    case ReadStore(_, _) => s.started
    case _ => false
  }

  predicate AsksToRemove(step: Step, id: string) {
    match step
    case RemoveBackend(_, other) => other == id
    case Rescan(_, _) => true
    case _ => false
  }

  /** The state after step `j`, from which the rest of the run goes on. */
  lemma Continue(s: State, run: seq<Step>, j: nat) returns (t: State)
    requires Possible(s, run) && j < |run|
    ensures t == StateAt(s, run, j + 1) && Enabled(StateAt(s, run, j), run[j]) && t == Apply(StateAt(s, run, j), run[j])
    ensures Possible(t, run[j + 1..]) && Final(t, run[j + 1..]) == Final(s, run)
  {
    Suffix(s, run, j);
    Suffix(s, run, j + 1);
    SuffixStates(s, run, j, 1);
    assert run[j..][0] == run[j];
    t := StateAt(s, run, j + 1);
  }

  /** Right after a call that asks for it, a loop of the stored `id` is owed. */
  lemma AskedForLoop(s: State, step: Step, id: string)
    requires Enabled(s, step) && AsksToAdd(s, step, id) && id in s.store
    ensures OwesLoop(Apply(s, step), step.t, id)
  {
    if step.ReadStore? || step.Rescan? { assert id in (set x | x in step.order); }
  }

  lemma AskedForRemoval(s: State, step: Step, id: string)
    requires Enabled(s, step) && AsksToRemove(step, id) && id !in s.store
    ensures OwesRemoval(Apply(s, step), step.t, id)
  {
  }

  /** Step `j` asks for a loop of `id` while it is stored. */
  predicate AddAskedAt(run: seq<Step>, j: nat, id: string)
    requires Possible(INIT, run)
  {
    j < |run| && AsksToAdd(StateAt(INIT, run, j), run[j], id) && id in StateAt(INIT, run, j).store
  }

  /** Step `j` asks to remove the loop of `id` while it is not stored. */
  predicate RemovalAskedAt(run: seq<Step>, j: nat, id: string)
    requires Possible(INIT, run)
  {
    j < |run| && AsksToRemove(run[j], id) && id !in StateAt(INIT, run, j).store
  }

  /** A loop was asked for while the backend was stored, and no later step takes it. */
  ghost predicate KeptLoop(run: seq<Step>, id: string)
    requires Possible(INIT, run)
  {
    exists j: nat :: AddAskedAt(run, j, id) && forall m: nat :: j < m ==> !TakesAt(INIT, run, m, id)
  }

  /** A loop was never registered, or its removal was asked for while the backend was not stored and no later step
      registers one. */
  ghost predicate KeptAway(run: seq<Step>, id: string)
    requires Possible(INIT, run)
  {
    || (forall m: nat :: !RegistersAt(INIT, run, m, id))
    || exists j: nat :: RemovalAskedAt(run, j, id) && forall m: nat :: j < m ==> !RegistersAt(INIT, run, m, id)
  }

  ghost predicate SeenThrough(run: seq<Step>)
    requires Possible(INIT, run)
  {
    forall id :: if id in Final(INIT, run).store then KeptLoop(run, id) else KeptAway(run, id)
  }

  lemma KeptLoopIsRegistered(run: seq<Step>, id: string)
    requires Possible(INIT, run) && AllDone(Final(INIT, run)) && KeptLoop(run, id)
    ensures LeftRegistered(INIT, run, id)
  {
    var j: nat :| AddAskedAt(run, j, id) && forall m: nat :: j < m ==> !TakesAt(INIT, run, m, id);
    var t := Continue(INIT, run, j);
    AskedForLoop(StateAt(INIT, run, j), run[j], id);
    var d := AddArrives(t, run[j + 1..], run[j].t, id);
    SuffixAt(INIT, run, j + 1, d, id);
  }

  lemma KeptAwayIsNotRegistered(run: seq<Step>, id: string)
    requires Possible(INIT, run) && AllDone(Final(INIT, run)) && KeptAway(run, id)
    ensures !LeftRegistered(INIT, run, id)
  {
    if j: nat :| RemovalAskedAt(run, j, id) && forall m: nat :: j < m ==> !RegistersAt(INIT, run, m, id) {
      var t := Continue(INIT, run, j);
      AskedForRemoval(StateAt(INIT, run, j), run[j], id);
      var d := RemovalArrives(t, run[j + 1..], run[j].t, id);
      SuffixAt(INIT, run, j + 1, d, id);
      assert TakesAt(INIT, run, j + 1 + d, id);
    }
  }

  /** Whenever all callers have returned, the loops are exactly those of the stored backends, if for each backend the
      call that fits was made while the store said so and nothing undid it later. */
  lemma OrderlyRunsReconcile(run: seq<Step>)
    requires Possible(INIT, run) && AllDone(Final(INIT, run)) && SeenThrough(run)
    ensures Final(INIT, run).loops.Keys == Final(INIT, run).store
  {
    var s := Final(INIT, run);
    forall id ensures id in s.loops <==> id in s.store {
      LoopsFrom(INIT, run, id);
      if id in s.store { KeptLoopIsRegistered(run, id); } else { KeptAwayIsNotRegistered(run, id); }
    }
  }

  // ----- The same by calls alone -----

  /** The call sets out to take the loop of `id`. */
  predicate StartsRemoval(s: State, step: Step, id: string) {
    (step.RemoveBackend? && step.id == id) || (step.Rescan? && id !in s.store)
  }

  /** The call sets out to register a loop of `id`. */
  predicate StartsAdd(s: State, step: Step, id: string) {
    (step.AddBackend? && step.id == id) || ((step.Rescan? || step.ReadStore?) && id in s.store)
  }

  predicate OnList(s: State, t: nat, id: string) {
    t in s.threads && (s.threads[t].Checking? || s.threads[t].Spawning?) && id in s.threads[t].todo
  }

  ghost predicate NoRemovalUnderWay(s: State, id: string) { forall t :: !OwesRemoval(s, t, id) }

  ghost predicate NoAddUnderWay(s: State, id: string) { forall t :: !OnList(s, t, id) }

  predicate StartsRemovalAt(run: seq<Step>, m: nat, id: string)
    requires Possible(INIT, run)
  {
    m < |run| && StartsRemoval(StateAt(INIT, run, m), run[m], id)
  }

  predicate StartsAddAt(run: seq<Step>, m: nat, id: string)
    requires Possible(INIT, run)
  {
    m < |run| && StartsAdd(StateAt(INIT, run, m), run[m], id)
  }

  /** A loop was asked for while the backend was stored and no removal was under way, and no removal set out later. */
  ghost predicate AddSettled(run: seq<Step>, id: string)
    requires Possible(INIT, run)
  {
    exists j: nat :: AddAskedAt(run, j, id) && NoRemovalUnderWay(StateAt(INIT, run, j), id)
                     && forall m: nat :: j < m ==> !StartsRemovalAt(run, m, id)
  }

  /** No add ever set out, or a removal was asked for while the backend was not stored and no add was under way, and no
      add set out later. */
  ghost predicate RemovalSettled(run: seq<Step>, id: string)
    requires Possible(INIT, run)
  {
    || (forall m: nat :: !StartsAddAt(run, m, id))
    || exists j: nat :: RemovalAskedAt(run, j, id) && NoAddUnderWay(StateAt(INIT, run, j), id)
                        && forall m: nat :: j < m ==> !StartsAddAt(run, m, id)
  }

  ghost predicate SettledFor(run: seq<Step>, id: string)
    requires Possible(INIT, run)
  {
    if id in Final(INIT, run).store then AddSettled(run, id) else RemovalSettled(run, id)
  }

  ghost predicate Settled(run: seq<Step>)
    requires Possible(INIT, run)
  {
    forall id :: SettledFor(run, id)
  }

  lemma NoRemovalStep(s: State, step: Step, id: string)
    requires Enabled(s, step) && NoRemovalUnderWay(s, id)
    ensures !Takes(s, step, id)
    ensures !StartsRemoval(s, step, id) ==> NoRemovalUnderWay(Apply(s, step), id)
  {
    assert !step.StoreBackend? && !step.DeleteBackend? ==> !OwesRemoval(s, step.t, id);
    if !StartsRemoval(s, step, id) {
      forall t ensures !OwesRemoval(Apply(s, step), t, id) { assert !OwesRemoval(s, t, id); }
    }
  }

  lemma NoAddStep(s: State, step: Step, id: string)
    requires Enabled(s, step) && NoAddUnderWay(s, id)
    ensures !Registers(s, step, id)
    ensures !StartsAdd(s, step, id) ==> NoAddUnderWay(Apply(s, step), id)
  {
    assert !step.StoreBackend? && !step.DeleteBackend? ==> !OnList(s, step.t, id);
    if !StartsAdd(s, step, id) {
      if step.Rescan? || step.ReadStore? { assert id !in (set x | x in step.order); }
      forall t ensures !OnList(Apply(s, step), t, id) { assert !OnList(s, t, id); }
    }
  }

  lemma {:induction false} NothingTakesFrom(run: seq<Step>, j: nat, m: nat, id: string)
    requires Possible(INIT, run) && j <= m < |run| && NoRemovalUnderWay(StateAt(INIT, run, j), id)
    requires forall i: nat :: j <= i < m ==> !StartsRemovalAt(run, i, id)
    ensures NoRemovalUnderWay(StateAt(INIT, run, m), id) && !TakesAt(INIT, run, m, id)
    decreases m
  {
    if j < m {
      NothingTakesFrom(run, j, m - 1, id);
      var t := Continue(INIT, run, m - 1);
      assert !StartsRemovalAt(run, m - 1, id);
      NoRemovalStep(StateAt(INIT, run, m - 1), run[m - 1], id);
    }
    var u := Continue(INIT, run, m);
    NoRemovalStep(StateAt(INIT, run, m), run[m], id);
  }

  lemma {:induction false} NothingRegistersFrom(run: seq<Step>, j: nat, m: nat, id: string)
    requires Possible(INIT, run) && j <= m < |run| && NoAddUnderWay(StateAt(INIT, run, j), id)
    requires forall i: nat :: j <= i < m ==> !StartsAddAt(run, i, id)
    ensures NoAddUnderWay(StateAt(INIT, run, m), id) && !RegistersAt(INIT, run, m, id)
    decreases m
  {
    if j < m {
      NothingRegistersFrom(run, j, m - 1, id);
      var t := Continue(INIT, run, m - 1);
      assert !StartsAddAt(run, m - 1, id);
      NoAddStep(StateAt(INIT, run, m - 1), run[m - 1], id);
    }
    var u := Continue(INIT, run, m);
    NoAddStep(StateAt(INIT, run, m), run[m], id);
  }

  lemma AddSettledKeeps(run: seq<Step>, id: string)
    requires Possible(INIT, run) && AddSettled(run, id)
    ensures KeptLoop(run, id)
  {
    var j: nat :| AddAskedAt(run, j, id) && NoRemovalUnderWay(StateAt(INIT, run, j), id)
                  && forall m: nat :: j < m ==> !StartsRemovalAt(run, m, id);
    assert !StartsRemovalAt(run, j, id);
    forall m: nat | j < m ensures !TakesAt(INIT, run, m, id) {
      if m < |run| { NothingTakesFrom(run, j, m, id); }
    }
  }

  lemma RemovalSettledKeeps(run: seq<Step>, id: string)
    requires Possible(INIT, run) && RemovalSettled(run, id)
    ensures KeptAway(run, id)
  {
    if forall m: nat :: !StartsAddAt(run, m, id) {
      forall m: nat ensures !RegistersAt(INIT, run, m, id) {
        if m < |run| { NothingRegistersFrom(run, 0, m, id); }
      }
    } else {
      var j: nat :| RemovalAskedAt(run, j, id) && NoAddUnderWay(StateAt(INIT, run, j), id)
                    && forall m: nat :: j < m ==> !StartsAddAt(run, m, id);
      assert !StartsAddAt(run, j, id);
      forall m: nat | j < m ensures !RegistersAt(INIT, run, m, id) {
        if m < |run| { NothingRegistersFrom(run, j, m, id); }
      }
    }
  }

  /** What callers must do: for each stored backend, ask for its loop while no removal is under way, and let no removal
      set out after; for each other backend, the mirror image. Then, once all have returned, loops and store agree. */
  lemma CallersReconcile(run: seq<Step>)
    requires Possible(INIT, run) && AllDone(Final(INIT, run)) && Settled(run)
    ensures Final(INIT, run).loops.Keys == Final(INIT, run).store
  {
    forall id ensures if id in Final(INIT, run).store then KeptLoop(run, id) else KeptAway(run, id) {
      assert SettledFor(run, id);
      if id in Final(INIT, run).store { AddSettledKeeps(run, id); } else { RemovalSettledKeeps(run, id); }
    }
    OrderlyRunsReconcile(run);
  }

  // ----- A rescan with nobody else at work -----

  predicate OwnStep(step: Step, t: nat) {
    step == Check(t) || step == Spawn(t) || step == Close(t) || (step.ClaimStale? && step.t == t)
  }

  ghost predicate Rescanning(s: State, t: nat, stored: set<string>) {
    && s.started && s.store == stored && t in s.threads
    && match s.threads[t]
       case Checking(todo, next) => next == Sweep(stored) && forall id :: id in stored ==> id in s.loops || id in todo
       case Spawning(todo, next) => next == Sweep(stored) && forall id :: id in stored ==> id in s.loops || id in todo
       case Sweeping(seen) => seen == stored <= s.loops.Keys
       case Closing(_) => s.loops.Keys == stored
       case Removing(_) => false
       case Starting => false
  }

  lemma OwnStepKeeps(s: State, step: Step, t: nat, stored: set<string>)
    requires Rescanning(s, t, stored) && OwnStep(step, t) && Enabled(s, step)
    ensures Rescanning(Apply(s, step), t, stored)
  {
    if step.ClaimStale? { assert Apply(s, step).loops.Keys == stored; }
  }

  lemma {:induction false} OwnStepsKeep(s: State, run: seq<Step>, t: nat, stored: set<string>)
    requires Rescanning(s, t, stored) && Possible(s, run) && forall step :: step in run ==> OwnStep(step, t)
    ensures Rescanning(Final(s, run), t, stored)
    decreases |run|
  {
    if run != [] {
      OwnStepKeeps(s, run[0], t, stored);
      OwnStepsKeep(Apply(s, run[0]), run[1..], t, stored);
    }
  }

  /** A rescan on a started checker that runs to its end with no step of another caller in between leaves
      exactly the loops of the stored backends, from whatever state it starts. */
  lemma UndisturbedRescan(s: State, t: nat, order: seq<string>, own: seq<Step>)
    requires s.started && Possible(s, [Rescan(t, order)] + own) && forall step :: step in own ==> OwnStep(step, t)
    requires var u := Final(s, [Rescan(t, order)] + own); t in u.threads && u.threads[t] == Closing([])
    ensures Final(s, [Rescan(t, order)] + own).loops.Keys == Final(s, [Rescan(t, order)] + own).store == s.store
  {
    var run := [Rescan(t, order)] + own;
    assert run[1..] == own;
    assert forall id :: id in s.store <==> id in (set x | x in order);
    OwnStepsKeep(Apply(s, run[0]), own, t, s.store);
  }

  // ----- Two runs that end apart -----

  /** A checker started with nothing stored. */
  const STARTED := State(true, {}, map[], [], [], map[0 := Closing([])])

  lemma StartOnNothing() returns (run: seq<Step>)
    ensures run == [Start(0), ReadStore(0, []), Check(0)]
    ensures Possible(INIT, run) && Final(INIT, run) == STARTED
  {
    var begun := State(true, {}, map[], [], [], map[0 := Starting]);
    run := Extend([], INIT, Start(0), begun);
    var listed := begun.(threads := map[0 := Checking([], Nothing)]);
    run := Extend(run, begun, ReadStore(0, []), listed);
    run := Extend(run, listed, Check(0), STARTED);
  }

  /** A rescan that read the store before a backend was added stops that backend's new loop: all
      callers return, the backend is stored, and nothing probes it. */
  lemma StaleRescanStopsNewLoop() returns (run: seq<Step>)
    ensures Possible(INIT, run)
    ensures var s := Final(INIT, run); s.started && AllDone(s) && "b" in s.store && "b" !in s.loops
  {
    var done := Closing([]);
    var sweep := Checking([], Sweep({}));
    var add := Checking(["b"], Nothing);
    run := StartOnNothing();
    run := Extend(run, STARTED, Rescan(1, []),
        State(true, {}, map[], [], [], map[0 := done, 1 := sweep]));
    run := Extend(run, State(true, {}, map[], [], [], map[0 := done, 1 := sweep]), StoreBackend("b"),
                  State(true, {"b"}, map[], [], [], map[0 := done, 1 := sweep]));
    run := Extend(run, State(true, {"b"}, map[], [], [], map[0 := done, 1 := sweep]), AddBackend(2, "b"),
                  State(true, {"b"}, map[], [], [], map[0 := done, 1 := sweep, 2 := add]));
    run := AddThenSweep(run, sweep, add);
  }

  function Stored(loops: map<string, nat>, owner: seq<string>, closed: seq<nat>, rescan: Thread, add: Thread): State {
    State(true, {"b"}, loops, owner, closed, map[0 := Closing([]), 1 := rescan, 2 := add])
  }

  lemma AddThenSweep(before: seq<Step>, sweep: Thread, add: Thread) returns (run: seq<Step>)
    requires sweep == Checking([], Sweep({})) && add == Checking(["b"], Nothing)
    requires Possible(INIT, before) && Final(INIT, before) == Stored(map[], [], [], sweep, add)
    ensures Possible(INIT, run) && Final(INIT, run) == Stored(map[], ["b"], [0], Closing([]), Closing([]))
  {
    var none: seq<string> := [];
    assert none + ["b"] == ["b"] && ["b"][1..] == none;
    var spawned := map["b" := 0];
    run := Extend(before, Stored(map[], [], [], sweep, add), Check(2),
        Stored(map[], [], [], sweep, Spawning(["b"], Nothing)));
    run := Extend(run, Stored(map[], [], [], sweep, Spawning(["b"], Nothing)), Spawn(2),
        Stored(spawned, ["b"], [], sweep, Checking([], Nothing)));
    run := Extend(run, Stored(spawned, ["b"], [], sweep, Checking([], Nothing)), Check(2),
        Stored(spawned, ["b"], [], sweep, Closing([])));
    run := SweepIt(run);
  }

  lemma SweepIt(before: seq<Step>) returns (run: seq<Step>)
    requires Possible(INIT, before) &&
        Final(INIT, before) == Stored(map["b" := 0], ["b"], [], Checking([], Sweep({})), Closing([]))
    ensures Possible(INIT, run) && Final(INIT, run) == Stored(map[], ["b"], [0], Closing([]), Closing([]))
  {
    var spawned, done := map["b" := 0], Closing([]);
    run := Extend(before, Stored(spawned, ["b"], [], Checking([], Sweep({})), done), Check(1),
        Stored(spawned, ["b"], [], Sweeping({}), done));
    ClaimB();
    run := Extend(run, Stored(spawned, ["b"], [], Sweeping({}), done), ClaimStale(1, ["b"]),
        Stored(map[], ["b"], [], Closing([0]), done));
    var none: seq<nat> := [];
    assert none + [0] == [0] && [0][1..] == none;
    run := Extend(run, Stored(map[], ["b"], [], Closing([0]), done), Close(1), Stored(map[], ["b"], [0], done, done));
  }

  lemma ClaimB()
    ensures var s := Stored(map["b" := 0], ["b"], [], Sweeping({}), Closing([]));
            Enabled(s, ClaimStale(1, ["b"])) &&
                Apply(s, ClaimStale(1, ["b"])) == Stored(map[], ["b"], [], Closing([0]), Closing([]))
  {
    var spawned := map["b" := 0];
    assert Channels(spawned, ["b"]) == [0];
    assert spawned.Keys - {} == {"b"} && spawned - {"b"} == map[];
    assert (set id | id in ["b"]) == {"b"};
  }

  /** An add that passed the start test before its backend was deleted registers a loop after the removal has looked:
      all callers return, the backend is gone, and its loop goes on. */
  lemma LateSpawnOutlivesDelete() returns (run: seq<Step>)
    ensures Possible(INIT, run)
    ensures var s := Final(INIT, run); s.started && AllDone(s) && "b" !in s.store && "b" in s.loops
  {
    var done := Closing([]);
    var kept := State(true, {"b"}, map[], [], [], map[0 := done]);
    run := StartOnNothing();
    run := Extend(run, STARTED, StoreBackend("b"), kept);
    var asked := kept.(threads := map[0 := done, 1 := Checking(["b"], Nothing)]);
    run := Extend(run, kept, AddBackend(1, "b"), asked);
    var passed := kept.(threads := map[0 := done, 1 := Spawning(["b"], Nothing)]);
    run := Extend(run, asked, Check(1), passed);
    run := DeleteThenSpawn(run, passed);
  }

  lemma DeleteThenSpawn(before: seq<Step>, passed: State) returns (run: seq<Step>)
    requires passed == State(true, {"b"}, map[], [], [], map[0 := Closing([]), 1 := Spawning(["b"], Nothing)])
    requires Possible(INIT, before) && Final(INIT, before) == passed
    ensures Possible(INIT, run)
    ensures var s := Final(INIT, run); s.started && AllDone(s) && "b" !in s.store && "b" in s.loops
  {
    var done := Closing([]);
    var gone := passed.(store := {});
    run := Extend(before, passed, DeleteBackend("b"), gone);
    var removing := gone.(threads := gone.threads[2 := Removing("b")]);
    run := Extend(run, gone, RemoveBackend(2, "b"), removing);
    var looked := gone.(threads := gone.threads[2 := done]);
    run := Extend(run, removing, Claim(2), looked);
    run := SpawnLate(run, looked);
  }

  lemma SpawnLate(before: seq<Step>, looked: State) returns (run: seq<Step>)
    requires looked ==
        State(true, {}, map[], [], [], map[0 := Closing([]), 1 := Spawning(["b"], Nothing), 2 := Closing([])])
    requires Possible(INIT, before) && Final(INIT, before) == looked
    ensures Possible(INIT, run)
    ensures var s := Final(INIT, run); s.started && AllDone(s) && "b" !in s.store && "b" in s.loops
  {
    var done := Closing([]);
    var none: seq<string> := [];
    assert none + ["b"] == ["b"] && ["b"][1..] == none;
    var spawned := State(true, {}, map["b" := 0], ["b"], [], map[0 := done, 1 := Checking([], Nothing), 2 := done]);
    run := Extend(before, looked, Spawn(1), spawned);
    run := Extend(run, spawned, Check(1), spawned.(threads := map[0 := done, 1 := done, 2 := done]));
  }
}
