/** The admin operations that create, patch and delete a backend, each carried out to its end before the next one:
    they meet the conditions under which loops and store agree. */
module ProbeAdmin {
  import opened ProbeRegistry
  import opened ProbeReconciliation

  /** A patch restarts the loop if it changes the health settings. */
  datatype Operation = Create(id: string) | Patch(id: string, restart: bool) | Delete(id: string)

  /** Patching an unknown backend changes nothing. */
  function StoreAfter(store: set<string>, op: Operation): set<string> {
    match op
    case Create(id) => store + {id}
    case Patch(_, _) => store
    case Delete(id) => store - {id}
  }

  function Ids(loaded: seq<string>): set<string> { set id | id in loaded }

  /** What is stored after the operations on what was loaded at the start. */
  function StoreAfterAll(loaded: seq<string>, ops: seq<Operation>): set<string> {
    if ops == [] then Ids(loaded)
    else StoreAfter(StoreAfterAll(loaded, ops[..|ops| - 1]), ops[|ops| - 1])
  }

  // ----- The steps of a start and of an operation -----

  function AddSteps(t: nat, id: string): seq<Step> { [AddBackend(t, id), Check(t), Spawn(t), Check(t)] }

  function RemoveSteps(t: nat, id: string, found: bool): seq<Step> {
    [RemoveBackend(t, id), Claim(t)] + if found then [Close(t)] else []
  }

  function RestartSteps(t: nat, u: nat, id: string, found: bool): seq<Step> {
    RemoveSteps(t, id, found) + AddSteps(u, id)
  }

  /** `more` is the operation carried out from `s` to its end, under whatever thread ids. */
  ghost predicate OpSteps(s: State, op: Operation, more: seq<Step>) {
    match op
    case Create(id) => exists t: nat :: more == [StoreBackend(id)] + AddSteps(t, id)
    case Delete(id) => exists t: nat :: more == [DeleteBackend(id)] + RemoveSteps(t, id, id in s.loops)
    case Patch(id, restart) =>
      if id !in s.store then more == []
      else if !restart then more == [StoreBackend(id)]
      else exists t: nat, u: nat :: more == [StoreBackend(id)] + RestartSteps(t, u, id, id in s.loops)
  }

  function LoadSteps(loaded: seq<string>): seq<Step> {
    if loaded == [] then [] else LoadSteps(loaded[..|loaded| - 1]) + [StoreBackend(loaded[|loaded| - 1])]
  }

  function SpawnSteps(t: nat, n: nat): seq<Step> {
    if n == 0 then [Check(t)] else [Check(t), Spawn(t)] + SpawnSteps(t, n - 1)
  }

  function StartSteps(t: nat, order: seq<string>): seq<Step> {
    [Start(t), ReadStore(t, order)] + SpawnSteps(t, |order|)
  }

  /** The backends of the configuration are stored, then the checker is started and runs to its end. */
  ghost predicate StartsUp(run: seq<Step>, loaded: seq<string>) {
    exists t: nat, order :: run == LoadSteps(loaded) + StartSteps(t, order)
  }

  /** `run` is a start on `loaded` followed by the operations, each to its end. */
  ghost predicate CarriesOut(run: seq<Step>, loaded: seq<string>, ops: seq<Operation>)
    decreases |ops|
  {
    if ops == [] then StartsUp(run, loaded)
    else
      exists n: nat :: n <= |run| && Possible(INIT, run[..n]) && CarriesOut(run[..n], loaded, ops[..|ops| - 1])
                       && OpSteps(Final(INIT, run[..n]), ops[|ops| - 1], run[n..])
  }

  /** A started checker with no caller at work, after a run that meets the callers' conditions. */
  ghost predicate Calm(run: seq<Step>) {
    Possible(INIT, run) && AllDone(Final(INIT, run)) && Final(INIT, run).started && Settled(run)
  }

  // ----- Continuing a run -----

  lemma {:induction false} PrefixState(s: State, run: seq<Step>, more: seq<Step>, i: nat)
    requires Possible(s, run + more) && i <= |run|
    ensures Possible(s, run) && StateAt(s, run + more, i) == StateAt(s, run, i)
    decreases |run|
  {
    if run != [] {
      assert (run + more)[1..] == run[1..] + more;
      PrefixState(Apply(s, run[0]), run[1..], more, if i == 0 then 0 else i - 1);
    }
  }

  lemma StateAtJoin(s: State, run: seq<Step>, more: seq<Step>)
    requires Possible(s, run + more)
    ensures Possible(s, run) && StateAt(s, run + more, |run|) == Final(s, run)
  {
    PrefixState(s, run, more, |run|);
    Suffix(s, run, |run|);
    assert run[|run|..] == [];
  }

  lemma Join(before: seq<Step>, more: seq<Step>)
    requires Possible(INIT, before + more)
    ensures Possible(INIT, before) && Possible(Final(INIT, before), more)
    ensures Final(INIT, before + more) == Final(Final(INIT, before), more)
  {
    StateAtJoin(INIT, before, more);
    Suffix(INIT, before + more, |before|);
    assert (before + more)[|before|..] == more;
  }

  /** Steps of an operation on `id`. */
  predicate Concerns(step: Step, id: string) {
    match step
    case StoreBackend(x) => x == id
    case DeleteBackend(x) => x == id
    case AddBackend(_, x) => x == id
    case RemoveBackend(_, x) => x == id
    case Check(_) => true
    case Spawn(_) => true
    case Claim(_) => true
    case Close(_) => true
    case _ => false
  }

  lemma {:induction false} OthersStayStored(s: State, more: seq<Step>, id: string, other: string)
    requires Possible(s, more) && other != id && forall step :: step in more ==> Concerns(step, id)
    ensures other in Final(s, more).store <==> other in s.store
    decreases |more|
  {
    if more != [] {
      assert more[0] in more;
      OthersStayStored(Apply(s, more[0]), more[1..], id, other);
    }
  }

  /** An operation on `id` sets out neither to add nor to remove another backend's loop. */
  lemma NothingSetsOut(before: seq<Step>, more: seq<Step>, id: string, other: string, m: nat)
    requires Possible(INIT, before + more) && Possible(INIT, before) && other != id
    requires forall step :: step in more ==> Concerns(step, id)
    ensures StartsRemovalAt(before + more, m, other) ==> StartsRemovalAt(before, m, other)
    ensures StartsAddAt(before + more, m, other) ==> StartsAddAt(before, m, other)
  {
    if m < |before| {
      PrefixState(INIT, before, more, m);
    } else if m < |before + more| {
      assert (before + more)[m] in more;
    }
  }

  lemma OthersStayAdded(before: seq<Step>, more: seq<Step>, id: string, other: string)
    requires Possible(INIT, before + more) && Possible(INIT, before) && other != id
    requires (forall step :: step in more ==> Concerns(step, id)) && AddSettled(before, other)
    ensures AddSettled(before + more, other)
  {
    var j: nat :| AddAskedAt(before, j, other) && NoRemovalUnderWay(StateAt(INIT, before, j), other)
                  && forall m: nat :: j < m ==> !StartsRemovalAt(before, m, other);
    PrefixState(INIT, before, more, j);
    assert AddAskedAt(before + more, j, other);
    forall m: nat | j < m ensures !StartsRemovalAt(before + more, m, other) {
      assert !StartsRemovalAt(before, m, other);
      NothingSetsOut(before, more, id, other, m);
    }
  }

  lemma OthersStayRemoved(before: seq<Step>, more: seq<Step>, id: string, other: string)
    requires Possible(INIT, before + more) && Possible(INIT, before) && other != id
    requires (forall step :: step in more ==> Concerns(step, id)) && RemovalSettled(before, other)
    ensures RemovalSettled(before + more, other)
  {
    if forall m: nat :: !StartsAddAt(before, m, other) {
      forall m: nat ensures !StartsAddAt(before + more, m, other) { NothingSetsOut(before, more, id, other, m); }
    } else {
      var j: nat :| RemovalAskedAt(before, j, other) && NoAddUnderWay(StateAt(INIT, before, j), other)
                    && forall m: nat :: j < m ==> !StartsAddAt(before, m, other);
      PrefixState(INIT, before, more, j);
      assert RemovalAskedAt(before + more, j, other);
      forall m: nat | j < m ensures !StartsAddAt(before + more, m, other) {
        assert !StartsAddAt(before, m, other);
        NothingSetsOut(before, more, id, other, m);
      }
    }
  }

  /** An operation on `id` leaves every other backend as settled as it was. */
  lemma OthersStaySettled(before: seq<Step>, more: seq<Step>, id: string, other: string)
    requires Possible(INIT, before + more) && Possible(INIT, before) && other != id
    requires forall step :: step in more ==> Concerns(step, id)
    requires SettledFor(before, other)
    ensures SettledFor(before + more, other)
  {
    Join(before, more);
    OthersStayStored(Final(INIT, before), more, id, other);
    if other in Final(INIT, before).store {
      OthersStayAdded(before, more, id, other);
    } else {
      OthersStayRemoved(before, more, id, other);
    }
  }

  lemma StaysSettled(before: seq<Step>, more: seq<Step>, id: string)
    requires Possible(INIT, before + more) && Possible(INIT, before) && Settled(before)
    requires forall step :: step in more ==> Concerns(step, id)
    requires SettledFor(before + more, id)
    ensures Settled(before + more)
  {
    forall other ensures SettledFor(before + more, other) {
      if other != id {
        assert SettledFor(before, other);
        OthersStaySettled(before, more, id, other);
      }
    }
  }

  // ----- One call, from beginning to end -----

  lemma AddCall(before: seq<Step>, t: nat, id: string) returns (run: seq<Step>)
    requires Possible(INIT, before) && AllDone(Final(INIT, before)) && Final(INIT, before).started
    requires t !in Final(INIT, before).threads
    ensures run == before + AddSteps(t, id) && Possible(INIT, run) && AllDone(Final(INIT, run))
    ensures Final(INIT, run).started && Final(INIT, run).store == Final(INIT, before).store
  {
    var s := Final(INIT, before);
    assert [id][1..] == [];
    var asked := Move(s, t, Checking([id], Nothing));
    run := Extend(before, s, AddBackend(t, id), asked);
    var passed := Move(asked, t, Spawning([id], Nothing));
    run := Extend(run, asked, Check(t), passed);
    var spawned := Apply(passed, Spawn(t));
    run := Extend(run, passed, Spawn(t), spawned);
    run := Extend(run, spawned, Check(t), Move(spawned, t, Closing([])));
  }

  lemma RemoveCall(before: seq<Step>, t: nat, id: string) returns (run: seq<Step>)
    requires Possible(INIT, before) && AllDone(Final(INIT, before)) && t !in Final(INIT, before).threads
    ensures run == before + RemoveSteps(t, id, id in Final(INIT, before).loops)
    ensures Possible(INIT, run) && AllDone(Final(INIT, run))
    ensures Final(INIT, run).started == Final(INIT, before).started &&
        Final(INIT, run).store == Final(INIT, before).store
  {
    var s := Final(INIT, before);
    var asked := Move(s, t, Removing(id));
    run := Extend(before, s, RemoveBackend(t, id), asked);
    var claimed := Apply(asked, Claim(t));
    run := Extend(run, asked, Claim(t), claimed);
    if id in s.loops {
      run := Extend(run, claimed, Close(t), Apply(claimed, Close(t)));
    }
  }

  lemma {:induction false} FreshThread(ids: set<nat>) returns (t: nat)
    ensures forall x :: x in ids ==> x < t
    decreases |ids|
  {
    if ids == {} { return 0; }
    var x :| x in ids;
    var above := FreshThread(ids - {x});
    t := if x < above then above else x + 1;
    assert forall y :: y in ids ==> y == x || y in ids - {x};
  }

  // ----- The operations -----

  /** A run that ends with an add call for the stored `id`, made when nobody was at work, is settled for it. */
  lemma AddedLast(before: seq<Step>, t: nat, id: string)
    requires Possible(INIT, before + AddSteps(t, id)) && Possible(INIT, before)
    requires AllDone(Final(INIT, before)) && Final(INIT, before).started && id in Final(INIT, before).store
    requires id in Final(INIT, before + AddSteps(t, id)).store
    ensures SettledFor(before + AddSteps(t, id), id)
  {
    var run, j := before + AddSteps(t, id), |before|;
    StateAtJoin(INIT, before, AddSteps(t, id));
    assert run[j] == AddBackend(t, id);
    assert AddAskedAt(run, j, id);
    assert NoRemovalUnderWay(StateAt(INIT, run, j), id);
    forall m: nat | j < m ensures !StartsRemovalAt(run, m, id) {
      if m < |run| { assert run[m] == AddSteps(t, id)[m - j]; }
    }
  }

  lemma RemovedLast(before: seq<Step>, t: nat, id: string, found: bool)
    requires Possible(INIT, before + RemoveSteps(t, id, found)) && Possible(INIT, before)
    requires AllDone(Final(INIT, before)) && id !in Final(INIT, before).store
    requires id !in Final(INIT, before + RemoveSteps(t, id, found)).store
    ensures SettledFor(before + RemoveSteps(t, id, found), id)
  {
    var run, j := before + RemoveSteps(t, id, found), |before|;
    StateAtJoin(INIT, before, RemoveSteps(t, id, found));
    assert run[j] == RemoveBackend(t, id);
    assert RemovalAskedAt(run, j, id);
    assert NoAddUnderWay(StateAt(INIT, run, j), id);
    forall m: nat | j < m ensures !StartsAddAt(run, m, id) {
      if m < |run| { assert run[m] == RemoveSteps(t, id, found)[m - j]; }
    }
  }

  /** Storing `id`, with no call at work, and what follows. */
  lemma StoreFirst(before: seq<Step>, id: string, more: seq<Step>) returns (stored: seq<Step>)
    requires Calm(before) && Possible(INIT, before + ([StoreBackend(id)] + more))
    ensures stored == before + [StoreBackend(id)] && before + ([StoreBackend(id)] + more) == stored + more
    ensures Possible(INIT, stored) &&
        Final(INIT, stored) == Final(INIT, before).(store := Final(INIT, before).store + {id})
    ensures Possible(Final(INIT, stored), more)
  {
    var s := Final(INIT, before);
    stored := Extend(before, s, StoreBackend(id), s.(store := s.store + {id}));
    assert before + ([StoreBackend(id)] + more) == stored + more;
    Join(stored, more);
  }

  lemma DeleteFirst(before: seq<Step>, id: string, more: seq<Step>) returns (deleted: seq<Step>)
    requires Calm(before) && Possible(INIT, before + ([DeleteBackend(id)] + more))
    ensures deleted == before + [DeleteBackend(id)] && before + ([DeleteBackend(id)] + more) == deleted + more
    ensures Possible(INIT, deleted) &&
        Final(INIT, deleted) == Final(INIT, before).(store := Final(INIT, before).store - {id})
    ensures Possible(Final(INIT, deleted), more)
  {
    var s := Final(INIT, before);
    deleted := Extend(before, s, DeleteBackend(id), s.(store := s.store - {id}));
    assert before + ([DeleteBackend(id)] + more) == deleted + more;
    Join(deleted, more);
  }

  /** Every create carried out after a calm run is calm. */
  lemma CreateSettles(before: seq<Step>, t: nat, id: string)
    requires Calm(before) && Possible(INIT, before + ([StoreBackend(id)] + AddSteps(t, id)))
    ensures var run := before + ([StoreBackend(id)] + AddSteps(t, id));
            Calm(run) && Final(INIT, run).store == Final(INIT, before).store + {id}
  {
    var more := [StoreBackend(id)] + AddSteps(t, id);
    var stored := StoreFirst(before, id, AddSteps(t, id));
    var run := AddCall(stored, t, id);
    AddedLast(stored, t, id);
    assert run == before + more;
    StaysSettled(before, more, id);
  }

  lemma DeleteSettles(before: seq<Step>, t: nat, id: string)
    requires Calm(before)
    requires Possible(INIT, before + ([DeleteBackend(id)] + RemoveSteps(t, id, id in Final(INIT, before).loops)))
    ensures var run := before + ([DeleteBackend(id)] + RemoveSteps(t, id, id in Final(INIT, before).loops));
            Calm(run) && Final(INIT, run).store == Final(INIT, before).store - {id}
  {
    var found := id in Final(INIT, before).loops;
    var more := [DeleteBackend(id)] + RemoveSteps(t, id, found);
    var deleted := DeleteFirst(before, id, RemoveSteps(t, id, found));
    var run := RemoveCall(deleted, t, id);
    RemovedLast(deleted, t, id, found);
    assert run == before + more;
    StaysSettled(before, more, id);
  }

  /** A patch that changes no health setting. */
  lemma QuietPatchSettles(before: seq<Step>, id: string)
    requires Calm(before) && id in Final(INIT, before).store
    ensures Possible(INIT, before + [StoreBackend(id)]) && Calm(before + [StoreBackend(id)])
    ensures Final(INIT, before + [StoreBackend(id)]).store == Final(INIT, before).store
  {
    var s := Final(INIT, before);
    var run := Extend(before, s, StoreBackend(id), s.(store := s.store + {id}));
    assert SettledFor(before, id);
    var j: nat :| AddAskedAt(before, j, id) && NoRemovalUnderWay(StateAt(INIT, before, j), id)
                  && forall m: nat :: j < m ==> !StartsRemovalAt(before, m, id);
    PrefixState(INIT, before, [StoreBackend(id)], j);
    assert AddAskedAt(run, j, id);
    forall m: nat | j < m ensures !StartsRemovalAt(run, m, id) {
      if m < |before| { PrefixState(INIT, before, [StoreBackend(id)], m); assert !StartsRemovalAt(before, m, id); }
    }
    StaysSettled(before, [StoreBackend(id)], id);
  }

  /** A removal call and then an add call for a backend that stays stored, after a calm run and a store. */
  lemma RestartSettles(before: seq<Step>, removed: seq<Step>, t: nat, found: bool, u: nat, id: string)
    requires Calm(before) && removed == before + [StoreBackend(id)] + RemoveSteps(t, id, found)
    requires Possible(INIT, removed) && AllDone(Final(INIT, removed)) && Final(INIT, removed).started
    requires Possible(INIT, removed + AddSteps(u, id)) && id in Final(INIT, removed).store
    requires id in Final(INIT, removed + AddSteps(u, id)).store
    ensures Settled(removed + AddSteps(u, id))
  {
    AddedLast(removed, u, id);
    var more := [StoreBackend(id)] + RemoveSteps(t, id, found) + AddSteps(u, id);
    assert removed + AddSteps(u, id) == before + more;
    StaysSettled(before, more, id);
  }

  /** The steps of a patch as the two calls they are. */
  lemma PatchCalls(before: seq<Step>, t: nat, u: nat, id: string) returns (removed: seq<Step>)
    requires Calm(before) && id in Final(INIT, before).store
    requires Possible(INIT, before + ([StoreBackend(id)] + RestartSteps(t, u, id, id in Final(INIT, before).loops)))
    ensures removed == before + [StoreBackend(id)] + RemoveSteps(t, id, id in Final(INIT, before).loops)
    ensures before + ([StoreBackend(id)] + RestartSteps(t, u, id, id in Final(INIT, before).loops)) ==
            removed + AddSteps(u, id)
    ensures Possible(INIT, removed) && AllDone(Final(INIT, removed)) && Final(INIT, removed).started
    ensures Final(INIT, removed).store == Final(INIT, before).store && t !in Final(INIT, before).threads
    ensures u !in Final(INIT, removed).threads
  {
    var found := id in Final(INIT, before).loops;
    var stored := StoreFirst(before, id, RestartSteps(t, u, id, found));
    assert RestartSteps(t, u, id, found)[0] == RemoveBackend(t, id);
    removed := RemoveCall(stored, t, id);
    assert stored + RestartSteps(t, u, id, found) == removed + AddSteps(u, id);
    Join(removed, AddSteps(u, id));
  }

  /** A patch takes the loop of a backend that stays stored and asks for a new one. */
  lemma PatchSettles(before: seq<Step>, t: nat, u: nat, id: string)
    requires Calm(before) && id in Final(INIT, before).store
    requires Possible(INIT, before + ([StoreBackend(id)] + RestartSteps(t, u, id, id in Final(INIT, before).loops)))
    ensures var run := before + ([StoreBackend(id)] + RestartSteps(t, u, id, id in Final(INIT, before).loops));
            && Calm(run) && Final(INIT, run).store == Final(INIT, before).store
            && exists m: nat :: TakesAt(INIT, run, m, id) && id in StateAt(INIT, run, m).store
  {
    var found := id in Final(INIT, before).loops;
    var removed := PatchCalls(before, t, u, id);
    var run := AddCall(removed, u, id);
    RestartSettles(before, removed, t, found, u, id);
    var stored, rest := before + [StoreBackend(id)], RemoveSteps(t, id, found)[1..] + AddSteps(u, id);
    ExtendFrom(INIT, before, StoreBackend(id));
    assert run == stored + [RemoveBackend(t, id)] + rest;
    PatchTakes(stored, rest, t, id);
  }

  /** The removal of a patch takes the loop while the backend is stored. */
  lemma PatchTakes(stored: seq<Step>, rest: seq<Step>, t: nat, id: string)
    requires Possible(INIT, stored) && id in Final(INIT, stored).store && t !in Final(INIT, stored).threads
    requires Possible(INIT, stored + [RemoveBackend(t, id)] + rest) && rest != [] && rest[0] == Claim(t)
    ensures var run := stored + [RemoveBackend(t, id)] + rest;
            exists m: nat :: TakesAt(INIT, run, m, id) && id in StateAt(INIT, run, m).store
  {
    var asked := stored + [RemoveBackend(t, id)];
    var run := asked + rest;
    ExtendFrom(INIT, stored, RemoveBackend(t, id));
    StateAtJoin(INIT, asked, rest);
    assert run[|asked|] == Claim(t);
    assert TakesAt(INIT, run, |asked|, id);
  }

  lemma OperationSettles(before: seq<Step>, op: Operation, more: seq<Step>)
    requires Calm(before) && Possible(INIT, before + more) && OpSteps(Final(INIT, before), op, more)
    ensures Calm(before + more) && Final(INIT, before + more).store == StoreAfter(Final(INIT, before).store, op)
  {
    var s := Final(INIT, before);
    match op {
      case Create(id) =>
        var t: nat :| more == [StoreBackend(id)] + AddSteps(t, id);
        CreateSettles(before, t, id);
      case Delete(id) =>
        var t: nat :| more == [DeleteBackend(id)] + RemoveSteps(t, id, id in s.loops);
        DeleteSettles(before, t, id);
      case Patch(id, restart) =>
        if id !in s.store {
          assert before + more == before;
        } else if !restart {
          QuietPatchSettles(before, id);
        } else {
          var t: nat, u: nat :| more == [StoreBackend(id)] + RestartSteps(t, u, id, id in s.loops);
          PatchSettles(before, t, u, id);
        }
    }
  }

  // ----- The start -----

  /** Nothing has happened but that the backends were stored. */
  function Loaded(loaded: seq<string>): State { INIT.(store := Ids(loaded)) }

  lemma LoadOne(front: seq<string>, last: string)
    ensures Apply(Loaded(front), StoreBackend(last)) == Loaded(front + [last])
  {
    assert Ids(front + [last]) == Ids(front) + {last};
  }

  lemma {:induction false} LoadRuns(loaded: seq<string>)
    ensures Possible(INIT, LoadSteps(loaded)) && Final(INIT, LoadSteps(loaded)) == Loaded(loaded)
    decreases |loaded|
  {
    if loaded != [] {
      var front, last := loaded[..|loaded| - 1], loaded[|loaded| - 1];
      LoadRuns(front);
      LoadOne(front, last);
      assert front + [last] == loaded;
      ExtendFrom(INIT, LoadSteps(front), StoreBackend(last));
    }
  }

  lemma {:induction false} OnlyStores(loaded: seq<string>)
    ensures forall step :: step in LoadSteps(loaded) ==> step.StoreBackend?
    decreases |loaded|
  {
    if loaded != [] { OnlyStores(loaded[..|loaded| - 1]); }
  }

  lemma {:induction false} SpawnsToEnd(s: State, t: nat, order: seq<string>)
    requires s.started && t in s.threads && s.threads[t] == Checking(order, Nothing)
    requires forall x :: x in s.threads && x != t ==> s.threads[x] == Closing([])
    ensures Possible(s, SpawnSteps(t, |order|))
    ensures var u := Final(s, SpawnSteps(t, |order|)); AllDone(u) && u.started && u.store == s.store
    ensures forall step :: step in SpawnSteps(t, |order|) ==> step == Check(t) || step == Spawn(t)
    decreases |order|
  {
    var steps := SpawnSteps(t, |order|);
    if order == [] {
      assert steps[1..] == [];
    } else {
      var passed := Apply(s, Check(t));
      var spawned := Apply(passed, Spawn(t));
      SpawnsToEnd(spawned, t, order[1..]);
      assert steps[1..] == [Spawn(t)] + SpawnSteps(t, |order| - 1) && steps[1..][1..] == SpawnSteps(t, |order| - 1);
    }
  }

  /** The state in which a start has read the store. */
  function Listed(loaded: seq<string>, t: nat, order: seq<string>): State {
    INIT.(started := true, store := Ids(loaded), threads := map[t := Checking(order, Nothing)])
  }

  lemma StartRuns(run: seq<Step>, loaded: seq<string>, t: nat, order: seq<string>) returns (read: seq<Step>)
    requires Possible(INIT, run) && run == LoadSteps(loaded) + StartSteps(t, order)
    ensures read == LoadSteps(loaded) + [Start(t)] && Possible(INIT, read)
    ensures Final(INIT, read) == INIT.(started := true, store := Ids(loaded), threads := map[t := Starting])
    ensures run == read + [ReadStore(t, order)] + SpawnSteps(t, |order|)
    ensures Enumerates(order, Ids(loaded))
    ensures AllDone(Final(INIT, run)) && Final(INIT, run).started && Final(INIT, run).store == Ids(loaded)
    ensures forall step :: step in SpawnSteps(t, |order|) ==> step == Check(t) || step == Spawn(t)
  {
    var loads, s := LoadSteps(loaded), Loaded(loaded);
    LoadRuns(loaded);
    var begun := s.(started := true, threads := map[t := Starting]);
    read := Extend(loads, s, Start(t), begun);
    assert run == read + ([ReadStore(t, order)] + SpawnSteps(t, |order|));
    Join(read, [ReadStore(t, order)] + SpawnSteps(t, |order|));
    var listed := Extend(read, begun, ReadStore(t, order), Listed(loaded, t, order));
    assert run == listed + SpawnSteps(t, |order|);
    Join(listed, SpawnSteps(t, |order|));
    SpawnsToEnd(Listed(loaded, t, order), t, order);
  }

  /** A step that sets out neither to add nor to remove. */
  predicate Plain(step: Step) { step.StoreBackend? || step.Start? || step.Check? || step.Spawn? }

  /** In a run of plain steps around one reading of the store, every backend is settled. */
  lemma ReadSettles(read: seq<Step>, t: nat, order: seq<string>, spawns: seq<Step>)
    requires Possible(INIT, read + [ReadStore(t, order)] + spawns) && Possible(INIT, read) && Final(INIT, read).started
    requires (forall step :: step in read ==> Plain(step)) && forall step :: step in spawns ==> Plain(step)
    requires Final(INIT, read + [ReadStore(t, order)] + spawns).store == Final(INIT, read).store
    requires Final(INIT, read).threads == map[t := Starting]
    ensures Settled(read + [ReadStore(t, order)] + spawns)
  {
    var run, j := read + [ReadStore(t, order)] + spawns, |read|;
    assert run == read + ([ReadStore(t, order)] + spawns);
    StateAtJoin(INIT, read, [ReadStore(t, order)] + spawns);
    assert run[j] == ReadStore(t, order);
    forall m: nat | m < |run| && m != j ensures Plain(run[m]) {
      if m < j { assert run[m] in read; } else { assert run[m] in spawns; }
    }
    forall id ensures SettledFor(run, id) {
      if id in Final(INIT, run).store {
        assert AddAskedAt(run, j, id) && NoRemovalUnderWay(StateAt(INIT, run, j), id);
        assert forall m: nat :: j < m ==> !StartsRemovalAt(run, m, id);
      } else {
        forall m: nat ensures !StartsAddAt(run, m, id) {}
      }
    }
  }

  lemma StartIsCalm(run: seq<Step>, loaded: seq<string>)
    requires Possible(INIT, run) && StartsUp(run, loaded)
    ensures Calm(run) && Final(INIT, run).store == Ids(loaded)
  {
    var t: nat, order :| run == LoadSteps(loaded) + StartSteps(t, order);
    var read := StartRuns(run, loaded, t, order);
    OnlyStores(loaded);
    ReadSettles(read, t, order, SpawnSteps(t, |order|));
  }

  // ----- The theorem -----

  lemma {:induction false} OperationsSettle(run: seq<Step>, loaded: seq<string>, ops: seq<Operation>)
    requires Possible(INIT, run) && CarriesOut(run, loaded, ops)
    ensures Calm(run) && Final(INIT, run).store == StoreAfterAll(loaded, ops)
    decreases |ops|
  {
    if ops == [] {
      StartIsCalm(run, loaded);
    } else {
      var n: nat :| n <= |run| && Possible(INIT, run[..n]) && CarriesOut(run[..n], loaded, ops[..|ops| - 1])
                    && OpSteps(Final(INIT, run[..n]), ops[|ops| - 1], run[n..]);
      OperationsSettle(run[..n], loaded, ops[..|ops| - 1]);
      assert run == run[..n] + run[n..];
      OperationSettles(run[..n], ops[|ops| - 1], run[n..]);
    }
  }

  /** Every run that starts on a loaded store and then carries out creates, patches and deletes one after another, in
      any order and number: the callers' conditions hold, and the loops are those of the backends left in the store.
      */
  lemma OperationsReconcile(run: seq<Step>, loaded: seq<string>, ops: seq<Operation>)
    requires Possible(INIT, run) && CarriesOut(run, loaded, ops)
    ensures Calm(run) && Final(INIT, run).loops.Keys == Final(INIT, run).store == StoreAfterAll(loaded, ops)
  {
    OperationsSettle(run, loaded, ops);
    CallersReconcile(run);
  }

  // ----- There is such a run for all operations -----

  lemma ReadPossible(loaded: seq<string>, order: seq<string>) returns (run: seq<Step>)
    requires Enumerates(order, Ids(loaded))
    ensures run == LoadSteps(loaded) + [Start(0)] + [ReadStore(0, order)]
    ensures Possible(INIT, run) && Final(INIT, run) == Listed(loaded, 0, order)
  {
    LoadRuns(loaded);
    var begun := Loaded(loaded).(started := true, threads := map[0 := Starting]);
    run := Extend(LoadSteps(loaded), Loaded(loaded), Start(0), begun);
    run := Extend(run, begun, ReadStore(0, order), Listed(loaded, 0, order));
  }

  lemma StartPossible(loaded: seq<string>, order: seq<string>)
    requires Enumerates(order, Ids(loaded))
    ensures Possible(INIT, LoadSteps(loaded) + StartSteps(0, order))
  {
    var run := ReadPossible(loaded, order);
    SpawnsToEnd(Listed(loaded, 0, order), 0, order);
    Concatenate(INIT, run, SpawnSteps(0, |order|));
    assert run + SpawnSteps(0, |order|) == LoadSteps(loaded) + StartSteps(0, order);
  }

  lemma SomeStart(loaded: seq<string>) returns (run: seq<Step>)
    ensures Possible(INIT, run) && StartsUp(run, loaded)
  {
    var order := InSomeOrder(Ids(loaded));
    StartPossible(loaded, order);
    run := LoadSteps(loaded) + StartSteps(0, order);
  }

  lemma {:induction false} Concatenate(s: State, run: seq<Step>, more: seq<Step>)
    requires Possible(s, run) && Possible(Final(s, run), more)
    ensures Possible(s, run + more)
    decreases |run|
  {
    if run == [] {
      assert run + more == more;
    } else {
      assert (run + more)[1..] == run[1..] + more;
      Concatenate(Apply(s, run[0]), run[1..], more);
    }
  }

  lemma SomeOperation(before: seq<Step>, op: Operation) returns (more: seq<Step>)
    requires Calm(before)
    ensures Possible(INIT, before + more) && OpSteps(Final(INIT, before), op, more)
  {
    var s := Final(INIT, before);
    var t := FreshThread(s.threads.Keys);
    match op {
      case Create(id) =>
        var stored := Extend(before, s, StoreBackend(id), s.(store := s.store + {id}));
        var run := AddCall(stored, t, id);
        more := [StoreBackend(id)] + AddSteps(t, id);
        assert run == before + more;
      case Delete(id) =>
        var deleted := Extend(before, s, DeleteBackend(id), s.(store := s.store - {id}));
        var run := RemoveCall(deleted, t, id);
        more := [DeleteBackend(id)] + RemoveSteps(t, id, id in s.loops);
        assert run == before + more;
      case Patch(id, restart) =>
        if id in s.store { more := SomePatch(before, id, restart, t); } else
            { more := []; assert before + more == before; }
    }
  }

  lemma SomePatch(before: seq<Step>, id: string, restart: bool, t: nat) returns (more: seq<Step>)
    requires Calm(before) && id in Final(INIT, before).store && t !in Final(INIT, before).threads
    ensures Possible(INIT, before + more) && OpSteps(Final(INIT, before), Patch(id, restart), more)
  {
    var s := Final(INIT, before);
    var stored := Extend(before, s, StoreBackend(id), s.(store := s.store + {id}));
    if !restart { return [StoreBackend(id)]; }
    var removed := RemoveCall(stored, t, id);
    var u := FreshThread(Final(INIT, removed).threads.Keys);
    var run := AddCall(removed, u, id);
    more := [StoreBackend(id)] + RestartSteps(t, u, id, id in s.loops);
    assert run == before + more;
  }

  /** Whatever was loaded and whatever the operations, some run carries them out. */
  lemma {:induction false} SomeRunCarriesOut(loaded: seq<string>, ops: seq<Operation>) returns (run: seq<Step>)
    ensures Possible(INIT, run) && CarriesOut(run, loaded, ops)
    decreases |ops|
  {
    if ops == [] {
      run := SomeStart(loaded);
    } else {
      var before := SomeRunCarriesOut(loaded, ops[..|ops| - 1]);
      OperationsSettle(before, loaded, ops[..|ops| - 1]);
      var more := SomeOperation(before, ops[|ops| - 1]);
      run := before + more;
      assert run[..|before|] == before && run[|before|..] == more;
    }
  }
}
