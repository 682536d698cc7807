/**
 * The memo in front of the compiler (`RESPONSE_CACHE`, `findOrMakeData`): a
 * least-recently-used cache of at most 2000 compiled records, keyed by the
 * canonical key of the state (`stateToString`, waterlogged included). A miss
 * compiles the state and stores the result; a compile that throws stores
 * nothing.
 */
module ResponseCache {
  import opened Wrappers
  import opened JsStrings
  import opened BlockStates
  import opened OrderedSets
  import opened RenderData

  /** The `max` option of the cache. */
  const MaxEntries := 2000

  /** `keys` without `key`, order kept. */
  function Without(keys: seq<string>, key: string): seq<string>
  {
    if |keys| == 0 then []
    else if keys[0] == key then Without(keys[1..], key)
    else [keys[0]] + Without(keys[1..], key)
  }

  /** Removing `key` removes exactly `key`. */
  lemma {:induction false} WithoutMembership(keys: seq<string>, key: string, k: string)
    ensures k in Without(keys, key) <==> k in keys && k != key
  {
    if |keys| > 0 {
      WithoutMembership(keys[1..], key, k);
      assert keys == [keys[0]] + keys[1..];
    }
  }

  /** Removing a key of a list without repeats leaves a list without repeats, one shorter. */
  lemma {:induction false} WithoutDistinct(keys: seq<string>, key: string)
    requires Distinct(keys)
    ensures Distinct(Without(keys, key))
    ensures key in keys ==> |Without(keys, key)| == |keys| - 1
    ensures key !in keys ==> Without(keys, key) == keys
  {
    if |keys| > 0 {
      var rest := keys[1..];
      assert Distinct(rest) by {
        forall i, j | 0 <= i < j < |rest| ensures rest[i] != rest[j] {
          assert rest[i] == keys[i + 1] && rest[j] == keys[j + 1];
        }
      }
      WithoutDistinct(rest, key);
      assert keys[0] !in rest by {
        forall i | 0 <= i < |rest| ensures rest[i] != keys[0] {
          assert rest[i] == keys[i + 1];
        }
      }
      if keys[0] != key {
        var r := [keys[0]] + Without(rest, key);
        forall i, j | 0 <= i < j < |r| ensures r[i] != r[j] {
          if i == 0 {
            WithoutMembership(rest, key, r[j]);
            assert r[j] == Without(rest, key)[j - 1];
          }
        }
      }
      assert keys == [keys[0]] + rest;
    }
  }

  /**
   * `d` is what compiling some state whose canonical key is `key` gives. A record
   * the memo returns always has this shape, even where two states share a key.
   */
  ghost predicate CompiledUnder(t: Tables, key: string, d: StateData)
  {
    exists s :: StateToString(s) == key && Compile(t, s) == Ok(d)
  }

  ghost predicate SoundEntries(t: Tables, entries: map<string, StateData>)
  {
    forall k :: k in entries ==> CompiledUnder(t, k, entries[k])
  }

  /** Storing a compile under its key, possibly after evicting other keys, keeps every record sound. */
  lemma StoreKeepsSound(t: Tables, before: map<string, StateData>, after: map<string, StateData>,
                        key: string, data: StateData)
    requires SoundEntries(t, before) && CompiledUnder(t, key, data)
    requires forall k :: k in after ==> (k == key && after[k] == data) || (k in before && after[k] == before[k])
    ensures SoundEntries(t, after)
  {
    forall k | k in after ensures CompiledUnder(t, k, after[k]) {
      if k != key || after[k] != data {
        assert k in before && after[k] == before[k];
      }
    }
  }

  ghost predicate CoherentEntries(t: Tables, entries: map<string, StateData>)
  {
    forall k :: k in entries ==> Compile(t, StringToState(k)) == Ok(entries[k])
  }

  /** Storing the compile of a printable state under its key keeps every record coherent. */
  lemma StoreKeepsCoherent(t: Tables, before: map<string, StateData>, after: map<string, StateData>,
                           s: BlockState, data: StateData)
    requires CoherentEntries(t, before) && Printable(s) && Compile(t, s) == Ok(data)
    requires forall k :: k in after ==>
      (k == StateToString(s) && after[k] == data) || (k in before && after[k] == before[k])
    ensures CoherentEntries(t, after)
  {
    CompileCanonical(t, s);
  }

  class Cache {
    /** The tables the memoised compiler reads. */
    const tables: Tables
    /** Stored records by canonical key. */
    var entries: map<string, StateData>
    /** The stored keys, least recently used first. */
    var recency: seq<string>

    /** The recency list holds each stored key once, and there are never more than `MaxEntries`. */
    ghost predicate Valid()
      reads this
    {
      && Distinct(recency)
      && (forall k :: k in entries <==> k in recency)
      && |recency| <= MaxEntries
    }

    /** Each stored record is a compile of some state with its key: the memo never makes a record up. */
    ghost predicate Sound()
      reads this
    {
      SoundEntries(tables, entries)
    }

    /** Every stored record is what compiling the state its key parses to gives. */
    ghost predicate Coherent()
      reads this
    {
      CoherentEntries(tables, entries)
    }

    constructor(tables: Tables)
      ensures this.tables == tables && entries == map[] && recency == []
      ensures Valid() && Sound() && Coherent()
    {
      this.tables := tables;
      entries := map[];
      recency := [];
    }

    /** A hit: `key` becomes the most recently used. */
    method Touch(key: string)
      requires Valid() && key in entries
      modifies this
      ensures Valid()
      ensures entries == old(entries) && recency == Without(old(recency), key) + [key]
    {
      WithoutDistinct(recency, key);
      var rest := Without(recency, key);
      forall k ensures k in rest + [key] <==> k in entries {
        WithoutMembership(recency, key, k);
      }
      assert Distinct(rest + [key]) by {
        WithoutMembership(recency, key, key);
        var r := rest + [key];
        forall i, j | 0 <= i < j < |r| ensures r[i] != r[j] {
          if j == |rest| {
            assert r[i] == rest[i];
          } else {
            assert r[i] == rest[i] && r[j] == rest[j];
          }
        }
      }
      recency := rest + [key];
    }

    /** A store after a miss, evicting the least recently used key when the cache is full. */
    method Store(key: string, data: StateData)
      requires Valid() && key !in entries
      modifies this
      ensures Valid()
      ensures |old(recency)| < MaxEntries ==>
        entries == old(entries)[key := data] && recency == old(recency) + [key]
      ensures |old(recency)| == MaxEntries ==>
        entries == (old(entries) - {old(recency)[0]})[key := data] && recency == old(recency)[1..] + [key]
    {
      if |recency| == MaxEntries {
        var evicted := recency[0];
        assert evicted !in recency[1..];
        entries := entries - {evicted};
        recency := recency[1..];
      }
      entries := entries[key := data];
      recency := recency + [key];
    }

    /**
     * `findOrMakeData`: a hit returns the stored record and makes its key the most
     * recently used; a miss compiles, and on success stores the record, evicting
     * the least recently used key when the cache is full.
     */
    method FindOrMakeData(s: BlockState) returns (r: Result<StateData, Fault>)
      requires Valid() && Sound()
      modifies this
      ensures Valid() && Sound()
      ensures var key := StateToString(s);
        if key in old(entries) then
          && r == Ok(old(entries)[key])
          && entries == old(entries)
          && recency == Without(old(recency), key) + [key]
        else
          && r == Compile(tables, s)
          && (r.Err? ==> entries == old(entries) && recency == old(recency))
          && (r.Ok? && |old(recency)| < MaxEntries ==>
                entries == old(entries)[key := r.value] && recency == old(recency) + [key])
          && (r.Ok? && |old(recency)| == MaxEntries ==>
                entries == (old(entries) - {old(recency)[0]})[key := r.value]
                && recency == old(recency)[1..] + [key])
      ensures r.Ok? ==> CompiledUnder(tables, StateToString(s), r.value)
      ensures old(Coherent()) && Printable(s) ==> r == Compile(tables, s) && Coherent()
    {
      var key := StateToString(s);
      if key in entries {
        r := Ok(entries[key]);
        assert CompiledUnder(tables, key, entries[key]);
        Touch(key);
        if old(Coherent()) && Printable(s) {
          CompileCanonical(tables, s);
        }
        return;
      }
      r := MakeAndStore(s, key);
      if r.Ok? {
        assert StateToString(s) == key && Compile(tables, s) == Ok(r.value);
      }
    }

    /** A miss: `memoMethod` compiles the state, and a record is stored under its key. */
    method MakeAndStore(s: BlockState, key: string) returns (r: Result<StateData, Fault>)
      requires Valid() && Sound() && key == StateToString(s) && key !in entries
      modifies this
      ensures Valid() && Sound()
      ensures r == Compile(tables, s)
      ensures r.Err? ==> entries == old(entries) && recency == old(recency)
      ensures r.Ok? && |old(recency)| < MaxEntries ==>
        entries == old(entries)[key := r.value] && recency == old(recency) + [key]
      ensures r.Ok? && |old(recency)| == MaxEntries ==>
        entries == (old(entries) - {old(recency)[0]})[key := r.value] && recency == old(recency)[1..] + [key]
      ensures old(Coherent()) && Printable(s) ==> Coherent()
    {
      r := MakeStateData(tables, s);
      if r.Ok? {
        assert CompiledUnder(tables, key, r.value) by {
          assert StateToString(s) == key && Compile(tables, s) == Ok(r.value);
        }
        Store(key, r.value);
        StoreKeepsSound(tables, old(entries), entries, key, r.value);
        if old(Coherent()) && Printable(s) {
          StoreKeepsCoherent(tables, old(entries), entries, s, r.value);
        }
      }
    }
  }
}
