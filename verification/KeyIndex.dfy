/** API keys stored by id, with an index from the hash of the raw key. The two
    maps share the key objects, and the admin operations change those objects in place. */
module KeyIndex {
  import opened Options

  /** What the index depends on, per key. */
  datatype Entry = Entry(hash: string, enabled: bool)

  class APIKey {
    var id: string
    var prefix: string
    var hash: string
    var enabled: bool

    constructor (id: string, enabled: bool)
      ensures this.id == id && this.enabled == enabled && this.prefix == "" && this.hash == ""
    {
      this.id, this.enabled, this.prefix, this.hash := id, enabled, "", "";
    }

    /** Takes over a raw key, if there is one, and settles the id. */
    method TakeRaw(raw: string, digest: string)
      modifies this
      ensures id == "" ==> prefix == ""
      ensures hash == (if raw != "" then digest else old(hash)) && enabled == old(enabled)
      ensures id == if old(id) != "" then old(id) else if old(prefix) != "" then old(prefix) else IdFor("", raw)
      ensures old(id) == old(prefix) == "" ==> id == if |raw| >= 8 then raw[..8] else ""
      ensures prefix == if old(prefix) == "" && |raw| >= 8 then raw[..8] else old(prefix)
    {
      if raw != "" {
        hash := digest;
        if prefix == "" && |raw| >= 8 { prefix := raw[..8]; }
      }
      if id == "" { id := prefix; }
    }
  }

  /** The id a new key ends up with: the given one, or the first eight bytes of the raw key. */
  function IdFor(id: string, raw: string): string {
    if id != "" then id else if |raw| >= 8 then raw[..8] else ""
  }

  /** The keyed hash, idealised: no two raw keys share one and none is empty. */
  ghost predicate GoodHash(f: string -> string) {
    && (forall a, b :: f(a) == f(b) ==> a == b)
    && forall a :: f(a) != ""
  }

  class Store {
    const hashKey: string -> string
    var apiKeys: map<string, APIKey>
    var keyByHash: map<string, APIKey>

    constructor (hashKey: string -> string)
      requires GoodHash(hashKey)
      ensures Valid() && View() == map[] && this.hashKey == hashKey
    {
      this.hashKey := hashKey;
      apiKeys, keyByHash := map[], map[];
    }

    /** Every key sits under its own id, and the index is exactly the non-empty hashes. */
    ghost predicate Valid()
      reads this, apiKeys.Values, keyByHash.Values
    {
      && (forall raw :: hashKey(raw) != "")
      && (forall id :: id in apiKeys ==> apiKeys[id].id == id && (id == "" ==> apiKeys[id].prefix == ""))
      && (forall id :: id in apiKeys && apiKeys[id].hash != "" ==>
            apiKeys[id].hash in keyByHash && keyByHash[apiKeys[id].hash] == apiKeys[id])
      && (forall h :: h in keyByHash ==>
            && h != "" && keyByHash[h].hash == h
            && keyByHash[h].id in apiKeys && apiKeys[keyByHash[h].id] == keyByHash[h])
    }

    ghost function View(): map<string, Entry>
      reads this, apiKeys.Values
    {
      map id | id in apiKeys :: Entry(apiKeys[id].hash, apiKeys[id].enabled)
    }

    /** A linear search of the stored keys by hash. */
    ghost predicate HasHash(h: string)
      reads this, apiKeys.Values
    {
      exists id :: id in apiKeys && apiKeys[id].hash == h
    }

    /** The index finds a key exactly when the linear search does, and then the one key with that hash. */
    method APIKeyByRaw(raw: string) returns (found: Option<APIKey>)
      requires Valid()
      ensures found == if hashKey(raw) in keyByHash then Some(keyByHash[hashKey(raw)]) else None
      ensures found.Some? <==> HasHash(hashKey(raw))
      ensures found.Some? ==> forall id :: id in apiKeys && apiKeys[id].hash == hashKey(raw) ==>
          apiKeys[id] == found.value
      ensures found.Some? ==>
          found.value.id in apiKeys && apiKeys[found.value.id] == found.value && found.value.hash == hashKey(raw)
    {
      var hash := hashKey(raw);
      found := if hash in keyByHash then Some(keyByHash[hash]) else None;
      if found.Some? { assert apiKeys[found.value.id].hash == hash; }
    }

    /** `k` is one of the stored keys. */
    ghost predicate Stored(k: APIKey)
      reads this, k
    {
      k.id in apiKeys && apiKeys[k.id] == k
    }

    /** The id under which `k` is stored next. */
    function TargetId(k: APIKey, raw: string): string
      reads k
    {
      if k.id != "" then k.id else if k.prefix != "" then k.prefix else IdFor("", raw)
    }

    /** Storing `k` under `raw` leaves it under the id it is stored under, if it is. */
    ghost predicate Stays(k: APIKey, raw: string)
      reads this, k
    {
      Stored(k) ==> TargetId(k, raw) == k.id
    }

    /** `k`, perhaps changed, was entered into both maps. */
    twostate predicate Entered(k: APIKey)
      reads this, k
    {
      && (k.id == "" ==> k.prefix == "") && apiKeys == old(apiKeys)[k.id := k]
      && keyByHash == if k.hash != "" then old(keyByHash)[k.hash := k] else old(keyByHash)
    }

    twostate lemma ViewAfterPut(k: APIKey)
      requires old(Valid()) && Entered(k) && (old(Stored(k)) ==> k.id == old(k.id))
      requires forall id :: id in old(apiKeys) && old(apiKeys)[id] != k ==> unchanged(old(apiKeys)[id])
      ensures View() == old(View())[k.id := Entry(k.hash, k.enabled)]
    {
      var expected := old(View())[k.id := Entry(k.hash, k.enabled)];
      forall id | id in apiKeys ensures id in expected && View()[id] == expected[id] {
        if id != k.id {
          var o := apiKeys[id];
          assert old(apiKeys)[id] == o && o != k && unchanged(o);
        }
      }
      assert View().Keys == apiKeys.Keys == expected.Keys;
      assert View() == expected;
    }

    /** If the index is still right, the key kept its place and nothing was in its way. */
    twostate lemma ValidMeansFits(k: APIKey)
      requires old(Valid()) && Entered(k) && Valid()
      requires forall id :: id in old(apiKeys) && old(apiKeys)[id] != k ==> unchanged(old(apiKeys)[id])
      ensures old(Stored(k)) ==> k.id == old(k.id)
      ensures Fits(old(View()), k.id, k.hash)
    {
      if old(Stored(k)) { assert old(k.id) in apiKeys && apiKeys[old(k.id)] == k; }
      forall other | other in old(apiKeys) ensures Free(old(View())[other], other, k.id, k.hash) {
        var o := old(apiKeys)[other];
        var h := old(o.hash);
        assert h != "" ==> h in old(keyByHash) && old(keyByHash)[h] == o;
        assert h in old(keyByHash) ==> h in keyByHash;
        if other != k.id { assert apiKeys[other] == o; }
      }
    }

    twostate lemma FitsMeansValid(k: APIKey)
      requires old(Valid()) && Entered(k) && (old(Stored(k)) ==> k.id == old(k.id)) && Fits(old(View()), k.id, k.hash)
      requires forall id :: id in old(apiKeys) && old(apiKeys)[id] != k ==> unchanged(old(apiKeys)[id])
      ensures Valid()
    {
      assert forall id :: id in old(apiKeys) ==> Free(old(View())[id], id, k.id, k.hash);
      forall h | h in keyByHash
        ensures h != "" && keyByHash[h].hash == h && keyByHash[h].id in apiKeys &&
            apiKeys[keyByHash[h].id] == keyByHash[h]
      {
        if h != k.hash || k.hash == "" {
          var o := old(keyByHash)[h];
          assert keyByHash[h] == o && old(apiKeys)[old(o.id)] == o;
        }
      }
    }

    /** Enters a settled key into both maps. */
    method Put(k: APIKey)
      modifies this
      ensures apiKeys == old(apiKeys)[k.id := k]
      ensures keyByHash == if k.hash != "" then old(keyByHash)[k.hash := k] else old(keyByHash)
    {
      apiKeys := apiKeys[k.id := k];
      if k.hash != "" { keyByHash := keyByHash[k.hash := k]; }
    }

    /** Stores a key, new or already stored, with or without a raw key. The index stays right exactly when the key keeps
        the id it is stored under and no other entry is in its way. */
    method UpsertAPIKey(k: APIKey, raw: string)
      requires Valid()
      modifies this, k
      ensures apiKeys == old(apiKeys)[k.id := k]
      ensures keyByHash == if k.hash != "" then old(keyByHash)[k.hash := k] else old(keyByHash)
      ensures k.id == old(TargetId(k, raw)) && k.enabled == old(k.enabled)
      ensures k.hash == if raw != "" then hashKey(raw) else old(k.hash)
      ensures old(Stays(k, raw)) ==> View() == old(View())[k.id := Entry(k.hash, k.enabled)]
      ensures Valid() <==> old(Stays(k, raw)) && Fits(old(View()), k.id, k.hash)
    {
      k.TakeRaw(raw, hashKey(raw));
      Put(k);
      if old(Stays(k, raw)) {
        ViewAfterPut(k);
        if Fits(old(View()), k.id, k.hash) { FitsMeansValid(k); }
      }
      if Valid() { ValidMeansFits(k); }
    }

    /** A stored key is never in its own way. */
    lemma StoredFits(k: APIKey)
      requires Valid() && Stored(k)
      ensures Fits(View(), k.id, k.hash)
    {
      forall other | other in apiKeys ensures Free(View()[other], other, k.id, k.hash) {
        if apiKeys[other].hash == k.hash != "" { assert keyByHash[k.hash] == k == apiKeys[other]; }
      }
    }

    method DeleteAPIKey(id: string)
      requires Valid()
      modifies this
      ensures Valid()
      ensures apiKeys == old(apiKeys) - {id}
      ensures View() == old(View()) - {id}
      ensures id in old(apiKeys) ==> !HasHash(old(apiKeys[id].hash)) || old(apiKeys[id].hash) == ""
    {
      if id in apiKeys { keyByHash := keyByHash - {apiKeys[id].hash}; }
      apiKeys := apiKeys - {id};
    }

    /** Creates a key; the index stays right exactly when no other key has the hash, and a key already stored under the
        id has the same hash or none. */
    method CreateAPIKey(id: string, enabled: bool, raw: string) returns (k: APIKey)
      requires Valid() && raw != ""
      modifies this
      ensures View() == old(View())[IdFor(id, raw) := Entry(hashKey(raw), enabled)]
      ensures fresh(k) && k.id == IdFor(id, raw) && k.hash == hashKey(raw)
      ensures k.id == if id != "" then id else if |raw| >= 8 then raw[..8] else ""
      ensures apiKeys == old(apiKeys)[k.id := k] && keyByHash == old(keyByHash)[k.hash := k]
      ensures Valid() <==> Fits(old(View()), IdFor(id, raw), hashKey(raw))
    {
      k := new APIKey(id, enabled);
      assert Valid() && View() == old(View()) && !Stored(k);
      UpsertAPIKey(k, raw);
    }

    /** Changes the key object alone. */
    method Flip(k: APIKey, enabled: bool)
      requires Valid() && Stored(k)
      modifies k
      ensures Valid() && Stored(k) && k.id == old(k.id) && k.hash == old(k.hash) && k.enabled == enabled
      ensures View() == old(View())[k.id := old(View())[k.id].(enabled := enabled)]
    {
      k.enabled := enabled;
      assert forall id :: id in apiKeys && id != k.id ==> apiKeys[id] != k;
    }

    /** Flips a key in place; an unknown id changes nothing. */
    method SetAPIKeyEnabled(id: string, enabled: bool) returns (known: bool)
      requires Valid()
      modifies this, apiKeys.Values
      ensures Valid()
      ensures known <==> id in old(apiKeys)
      ensures View() == if known then old(View())[id := old(View())[id].(enabled := enabled)] else old(View())
    {
      if id !in apiKeys { return false; }
      var k := apiKeys[id];
      Flip(k, enabled);
      StoredFits(k);
      UpsertAPIKey(k, "");
      return true;
    }

    /** Takes a key out of the store and forgets its raw key. */
    method Retire(k: APIKey)
      requires Valid() && Stored(k)
      modifies this, k
      ensures Valid() && apiKeys == old(apiKeys) - {k.id} && View() == old(View()) - {k.id}
      ensures k.id == old(k.id) && k.enabled == old(k.enabled) && k.prefix == "" && k.hash == ""
    {
      DeleteAPIKey(k.id);
      assert (forall other :: other in apiKeys ==> apiKeys[other] != k) && forall h :: h in keyByHash ==>
          keyByHash[h] != k;
      k.prefix, k.hash := "", "";
    }

    /** Replaces a key's raw key; the key keeps its state, and its id unless that is empty. The index stays right
        exactly when no other key has the new hash, and one stored under the new id, if that changes, has it or none. */
    method RotateAPIKey(id: string, raw: string) returns (known: bool)
      requires Valid() && raw != ""
      modifies this, apiKeys.Values
      ensures known <==> id in old(apiKeys)
      ensures View() == if known then
          (old(View()) - {id})[IdFor(id, raw) := Entry(hashKey(raw), old(View())[id].enabled)] else old(View())
      ensures if known then Valid() <==> Fits(old(View()) - {id}, IdFor(id, raw), hashKey(raw)) else Valid()
    {
      if id !in apiKeys { return false; }
      var k := apiKeys[id];
      Retire(k);
      UpsertAPIKey(k, raw);
      return true;
    }

    /** What the index lists is the hash of some stored key. */
    lemma ListedUnder(h: string)
      requires Valid() && forall id :: id in View() ==> View()[id].hash != h
      ensures h !in keyByHash
    {
      assert forall k :: k in keyByHash ==> keyByHash[k].id in View() && View()[keyByHash[k].id].hash == k;
    }

    lemma FoundUnder(id: string)
      requires Valid() && id in View() && View()[id].hash != ""
      ensures View()[id].hash in keyByHash && keyByHash[View()[id].hash].id == id
    {
    }

    /** No two keys share a hash. */
    lemma HashesAreUnique()
      requires Valid()
      ensures UniqueHashes(View())
    {
    }
  }

  /** Key `other` is not in the way of a new key stored under `target` with hash `h`. */
  predicate Free(e: Entry, other: string, target: string, h: string) {
    if other == target then e.hash == "" || e.hash == h else h == "" || e.hash != h
  }

  ghost predicate Fits(v: map<string, Entry>, target: string, h: string) {
    forall other :: other in v ==> Free(v[other], other, target, h)
  }

  ghost predicate UniqueHashes(v: map<string, Entry>) {
    forall i, j :: i in v && j in v && v[i].hash == v[j].hash != "" ==> i == j
  }

  /** After a rotation to a different raw key, no key answers to the old one. */
  lemma OldKeyIsGone(v: map<string, Entry>, id: string, f: string -> string, previous: string, raw: string, e: bool)
    requires UniqueHashes(v) && GoodHash(f) && id in v && v[id].hash == f(previous) && raw != previous
    ensures var v' := (v - {id})[IdFor(id, raw) := Entry(f(raw), e)]; forall i :: i in v' ==> v'[i].hash != f(previous)
  {
    assert f(raw) != f(previous) && f(previous) != "";
  }

  /** Creating a key over a taken id, in any store: the new key takes the place of the old, but the index still finds
      the old one by its raw key, although no stored key has that hash any more. */
  method CreateOverTakenId(s: Store, id: string, first: string, second: string) returns (k: APIKey)
    requires s.Valid() && GoodHash(s.hashKey) && id != "" && second != "" && first != second
    requires id in s.apiKeys && s.apiKeys[id].hash == s.hashKey(first)
    modifies s
    ensures s.apiKeys == old(s.apiKeys)[id := k] && k.hash == s.hashKey(second)
    ensures s.hashKey(first) in s.keyByHash && s.keyByHash[s.hashKey(first)] == old(s.apiKeys[id])
    ensures !s.HasHash(s.hashKey(first)) && !s.Valid()
  {
    var f := s.hashKey;
    assert f(first) != f(second) && s.keyByHash[f(first)] == s.apiKeys[id];
    ghost var before, others := s.View(), s.apiKeys;
    s.HashesAreUnique();
    k := s.CreateAPIKey(id, true, second);
    assert !Free(before[id], id, id, f(second));
    forall other | other in s.apiKeys ensures s.apiKeys[other].hash != f(first) {
      if other != id { assert before[other].hash == others[other].hash == s.View()[other].hash; }
    }
  }

  /** Rotating a key away from `previous` and looking that up afterwards finds nothing; the new raw key finds the same
      id. */
  method RotateThenLookUp(s: Store, id: string, previous: string, raw: string)
      returns (gone: Option<APIKey>, now: Option<APIKey>)
    requires s.Valid() && GoodHash(s.hashKey) && id in s.apiKeys && s.apiKeys[id].hash == s.hashKey(previous)
    requires raw != "" && raw != previous && Fits(s.View() - {id}, IdFor(id, raw), s.hashKey(raw))
    modifies s, s.apiKeys.Values
    ensures s.Valid() && s.hashKey(previous) !in s.keyByHash && s.hashKey(raw) in s.keyByHash
    ensures s.View() ==
            (old(s.View()) - {id})[IdFor(id, raw) := Entry(s.hashKey(raw), old(s.View())[id].enabled)]
    ensures gone.None?
    ensures now.Some? && now.value.id == IdFor(id, raw) && now.value == s.keyByHash[s.hashKey(raw)]
  {
    s.HashesAreUnique();
    ghost var before := s.View();
    OldKeyIsGone(before, id, s.hashKey, previous, raw, before[id].enabled);
    var known := s.RotateAPIKey(id, raw);
    ghost var after := s.View();
    s.ListedUnder(s.hashKey(previous));
    assert after[IdFor(id, raw)].hash == s.hashKey(raw);
    s.FoundUnder(IdFor(id, raw));
    gone := s.APIKeyByRaw(previous);
    now := s.APIKeyByRaw(raw);
  }
}
