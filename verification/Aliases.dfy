/** Resolving a model name through a table of aliases, cyclic or not. */
module Aliases {

  datatype Alias = Alias(internal: string, enabled: bool, keepExternal: bool)

  type Table = map<string, Alias>

  const MAX_HOPS: nat := 8

  predicate IsAlias(t: Table, name: string) { name in t && t[name].enabled }

  /** The name after `k` hops; a name that is not an enabled alias stays. */
  function At(t: Table, name: string, k: nat): string {
    if k == 0 then name
    else
      var prev := At(t, name, k - 1);
      if IsAlias(t, prev) then t[prev].internal else prev
  }

  predicate Seen(t: Table, name: string, k: nat) {
    exists j :: 0 <= j < k && At(t, name, j) == At(t, name, k)
  }

  predicate Stops(t: Table, name: string, k: nat) {
    k >= MAX_HOPS || !IsAlias(t, At(t, name, k)) || Seen(t, name, k)
  }

  /** The first hop, from `k` on, at which the walk stops. */
  function StopFrom(t: Table, name: string, k: nat): (h: nat)
    requires k <= MAX_HOPS
    ensures k <= h <= MAX_HOPS <= 8 && Stops(t, name, h)
    ensures forall j :: k <= j < h ==> !Stops(t, name, j)
    decreases MAX_HOPS - k
  {
    if Stops(t, name, k) then k else StopFrom(t, name, k + 1)
  }

  function Resolve(t: Table, name: string): string { At(t, name, StopFrom(t, name, 0)) }

  /** The walk stops within eight hops: at the first name that is not an enabled alias, the first
      repeated name, or the eighth hop. The upstream name is the caller's own if the first alias says so. */
  method ResolveAlias(aliases: Table, name: string) returns (internal: string, forwardName: string)
    ensures internal == Resolve(aliases, name)
    ensures name !in aliases || !aliases[name].enabled ==> internal == name
    ensures name in aliases && aliases[name].enabled &&
            (aliases[name].internal !in aliases || !aliases[aliases[name].internal].enabled) ==>
              internal == aliases[name].internal
    ensures forwardName == if IsAlias(aliases, name) && aliases[name].keepExternal then name else internal
  {
    var seen: set<string> := {};
    var current := name;
    var keepExternal := false;
    var i := 0;
    while i < MAX_HOPS
      invariant i <= MAX_HOPS && current == At(aliases, name, i)
      invariant forall s :: s in seen <==> exists j :: 0 <= j < i && At(aliases, name, j) == s
      invariant forall j :: 0 <= j < i ==> !Stops(aliases, name, j)
      invariant keepExternal <==> i > 0 && IsAlias(aliases, name) && aliases[name].keepExternal
    {
      if current !in aliases || !aliases[current].enabled { break; }
      if current in seen { break; }
      assert !Seen(aliases, name, i);
      seen := seen + {current};
      if i == 0 && aliases[current].keepExternal { keepExternal := true; }
      current := aliases[current].internal;
      i := i + 1;
    }
    assert Stops(aliases, name, i);
    assert i > 0 || !IsAlias(aliases, name) by { assert !Seen(aliases, name, 0); }
    return current, if keepExternal then name else current;
  }

  // ----- Resolving twice -----

  lemma {:induction false} AtAdds(t: Table, name: string, a: nat, b: nat)
    ensures At(t, At(t, name, a), b) == At(t, name, a + b)
    decreases b
  {
    if b > 0 { AtAdds(t, name, a, b - 1); }
  }

  lemma {:induction false} StaysPut(t: Table, name: string, k: nat)
    requires !IsAlias(t, name)
    ensures At(t, name, k) == name
  {
    if k > 0 { StaysPut(t, name, k - 1); }
  }

  /** `c` is the length of the cycle through `r`. */
  predicate Cycle(t: Table, r: string, c: nat) {
    c > 0 && At(t, r, c) == r && forall k :: 0 < k < c ==> At(t, r, k) != r
  }

  lemma {:induction false} ShortestCycle(t: Table, r: string, c: nat) returns (d: nat)
    requires c > 0 && At(t, r, c) == r
    ensures d <= c && Cycle(t, r, d)
    decreases c
  {
    if k :| 0 < k < c && At(t, r, k) == r {
      d := ShortestCycle(t, r, k);
    } else {
      d := c;
    }
  }

  lemma CycleStopsAtHome(t: Table, r: string, c: nat)
    requires IsAlias(t, r) && Cycle(t, r, c) && c <= MAX_HOPS
    ensures StopFrom(t, r, 0) == c
  {
    var h := StopFrom(t, r, 0);
    assert Seen(t, r, c) by { assert At(t, r, 0) == At(t, r, c); }
    if h < c {
      if !IsAlias(t, At(t, r, h)) {
        StaysPut(t, At(t, r, h), c - h);
        AtAdds(t, r, h, c - h);
      } else {
        var j :| 0 <= j < h && At(t, r, j) == At(t, r, h);
        AtAdds(t, r, j, c - h);
        AtAdds(t, r, h, c - h);
      }
      assert false;
    }
  }

  predicate OnShortCycle(t: Table, r: string) { exists c :: 0 < c <= MAX_HOPS && At(t, r, c) == r }

  /** Resolving a result again gives the same name exactly when the result is not an enabled
      alias, or lies on a cycle of at most eight aliases. */
  lemma IdempotentExactly(t: Table, name: string)
    ensures var r := Resolve(t, name);
            Resolve(t, r) == r <==> !IsAlias(t, r) || OnShortCycle(t, r)
  {
    var r := Resolve(t, name);
    if IsAlias(t, r) {
      var h := StopFrom(t, r, 0);
      assert !Stops(t, r, 0);
      if c :| 0 < c <= MAX_HOPS && At(t, r, c) == r {
        var d := ShortestCycle(t, r, c);
        CycleStopsAtHome(t, r, d);
      }
      if Resolve(t, r) == r { assert 0 < h <= MAX_HOPS && At(t, r, h) == r; }
    }
  }

  /** The walk from `name` meets nine different enabled aliases. */
  predicate NineAliases(t: Table, name: string) {
    forall k :: 0 <= k <= MAX_HOPS ==> IsAlias(t, At(t, name, k)) && !Seen(t, name, k)
  }

  /** In particular whenever the walk meets at most eight different aliases. */
  lemma ShortPathsAreIdempotent(t: Table, name: string)
    requires !NineAliases(t, name)
    ensures Resolve(t, Resolve(t, name)) == Resolve(t, name)
  {
    var h := StopFrom(t, name, 0);
    var r := At(t, name, h);
    IdempotentExactly(t, name);
    if IsAlias(t, r) {
      assert Seen(t, name, h) by {
        if !Seen(t, name, h) {
          forall k | 0 <= k <= MAX_HOPS ensures IsAlias(t, At(t, name, k)) && !Seen(t, name, k) {
            if k < h { assert !Stops(t, name, k); }
          }
        }
      }
      var j :| 0 <= j < h && At(t, name, j) == r;
      AtAdds(t, name, j, h - j);
      assert At(t, r, h - j) == r;
    }
  }

  lemma NineMeansEightHops(t: Table, name: string)
    requires NineAliases(t, name)
    ensures StopFrom(t, name, 0) == MAX_HOPS
  {
    forall k: nat | k < MAX_HOPS ensures !Stops(t, name, k) {}
  }

  /** The name at the eighth hop comes back within eight more. */
  predicate ComesBack(t: Table, name: string) {
    exists m :: MAX_HOPS < m <= 2 * MAX_HOPS && At(t, name, m) == At(t, name, MAX_HOPS)
  }

  lemma ComesBackOnCycle(t: Table, name: string)
    ensures var r := At(t, name, MAX_HOPS);
            ComesBack(t, name) <==> OnShortCycle(t, r)
  {
    var r := At(t, name, MAX_HOPS);
    if m :| MAX_HOPS < m <= 2 * MAX_HOPS && At(t, name, m) == r {
      AtAdds(t, name, MAX_HOPS, m - MAX_HOPS);
      assert At(t, r, m - MAX_HOPS) == r;
    }
    if c :| 0 < c <= MAX_HOPS && At(t, r, c) == r {
      AtAdds(t, name, MAX_HOPS, c);
      assert At(t, name, MAX_HOPS + c) == r;
    }
  }

  /** The same condition on the input: a second resolution goes further exactly when the walk meets nine different
      aliases and the ninth does not come back within eight more hops. */
  lemma NotIdempotentExactly(t: Table, name: string)
    ensures Resolve(t, Resolve(t, name)) != Resolve(t, name) <==> NineAliases(t, name) && !ComesBack(t, name)
  {
    if !NineAliases(t, name) {
      ShortPathsAreIdempotent(t, name);
    } else {
      NineMeansEightHops(t, name);
      IdempotentExactly(t, name);
      ComesBackOnCycle(t, name);
      assert IsAlias(t, At(t, name, MAX_HOPS)) && Resolve(t, name) == At(t, name, MAX_HOPS);
    }
  }

  /** Names of a straight chain. */
  function Name(k: nat): string { seq(k, _ => 'a') }

  predicate Chain(t: Table, n: nat) {
    && (forall k: nat :: k < n ==> Name(k) in t && t[Name(k)] == Alias(Name(k + 1), true, false))
    && Name(n) !in t
  }

  lemma ChainLink(t: Table, n: nat, k: nat)
    requires Chain(t, n) && k < n
    ensures IsAlias(t, Name(k))
  {
    assert Name(k) in t && t[Name(k)] == Alias(Name(k + 1), true, false);
  }

  lemma {:induction false} ChainWalk(t: Table, n: nat, from: nat, k: nat)
    requires Chain(t, n) && from + k <= n
    ensures At(t, Name(from), k) == Name(from + k)
    decreases k
  {
    if k > 0 { ChainWalk(t, n, from, k - 1); }
  }

  /** A straight chain of nine or more aliases stops short at the eighth hop, and a second resolution goes further. */
  lemma LongChainsAreNotIdempotent(t: Table, n: nat)
    requires Chain(t, n) && n > 8
    ensures Resolve(t, Name(0)) == Name(8)
    ensures Resolve(t, Name(8)) != Name(8)
  {
    forall k: nat | k < MAX_HOPS ensures !Stops(t, Name(0), k) {
      ChainWalk(t, n, 0, k);
      ChainLink(t, n, k);
      forall j | 0 <= j < k ensures At(t, Name(0), j) != At(t, Name(0), k) {
        ChainWalk(t, n, 0, j);
        assert |Name(j)| != |Name(k)|;
      }
    }
    assert StopFrom(t, Name(0), 0) == MAX_HOPS;
    ChainWalk(t, n, 0, MAX_HOPS);
    var r, h := Name(MAX_HOPS), StopFrom(t, Name(MAX_HOPS), 0);
    ChainLink(t, n, MAX_HOPS);
    assert !Stops(t, r, 0);
    if MAX_HOPS + h <= n {
      ChainWalk(t, n, MAX_HOPS, h);
      assert |Name(MAX_HOPS + h)| != |r|;
    } else {
      ChainWalk(t, n, MAX_HOPS, n - MAX_HOPS);
      StaysPut(t, Name(n), MAX_HOPS + h - n);
      AtAdds(t, r, n - MAX_HOPS, MAX_HOPS + h - n);
      assert |Name(n)| != |r|;
    }
  }
}
