/** The compiled-entry cache behind Spark's ViewEngine.getEntry, as a pure state
    transition, with the properties of single lookups and of lookup sequences. */
module SparkCache {

  /** A SparkViewDescriptor: the templates a view is compiled from. */
  datatype Descriptor = Descriptor(templates: seq<string>)

  /** An ISparkViewEntry: the `id`-th entry the Spark engine compiled, for `descriptor`. */
  datatype Entry = Entry(id: nat, descriptor: Descriptor)

  /** The shared dictionary (hash code to entry) together with the log of the Spark
      engine's CreateEntry calls; entry `i` is the one compiled by the `i`-th call. */
  datatype CacheState = CacheState(slots: map<int, Entry>, compiled: seq<Descriptor>)

  /** IsCurrent: an entry is current unless its templates changed since it was compiled;
      `stale` holds the ids of the entries whose templates changed. */
  predicate IsCurrent(e: Entry, stale: set<nat>)
  {
    e.id !in stale
  }

  /** The slot `key` holds an entry that IsCurrent accepts. */
  predicate HitAt(s: CacheState, stale: set<nat>, key: int)
  {
    key in s.slots && IsCurrent(s.slots[key], stale)
  }

  /** getEntry(descriptor) with `key` = descriptor.GetHashCode(): the cached entry on a
      current hit; otherwise one CreateEntry whose result overwrites the slot. */
  function Resolve(s: CacheState, stale: set<nat>, key: int, d: Descriptor): (r: (CacheState, Entry))
    ensures key in r.0.slots && r.0.slots[key] == r.1
    ensures IsCurrent(r.1, stale) || r.1.id == |s.compiled|
    ensures r.0.compiled == s.compiled || r.0.compiled == s.compiled + [d]
    ensures r.0.compiled != s.compiled <==> !HitAt(s, stale, key)
    ensures r.0.slots.Keys == s.slots.Keys + {key}
    ensures forall k :: k in s.slots && k != key ==> r.0.slots[k] == s.slots[k]
  {
    if HitAt(s, stale, key) then (s, s.slots[key])
    else
      var e := Entry(|s.compiled|, d);
      (CacheState(s.slots[key := e], s.compiled + [d]), e)
  }

  /** Every slot holds an entry the engine compiled, stored under its descriptor's hash,
      and only compiled entries can have gone stale. */
  ghost predicate Consistent(s: CacheState, stale: set<nat>, hash: Descriptor -> int)
  {
    && (forall k :: k in s.slots ==>
          && s.slots[k].id < |s.compiled|
          && s.compiled[s.slots[k].id] == s.slots[k].descriptor
          && hash(s.slots[k].descriptor) == k)
    && (forall i :: i in stale ==> i < |s.compiled|)
  }

  /** A current hit returns the cached entry and changes nothing: no compilation. */
  lemma ResolveHit(s: CacheState, stale: set<nat>, key: int, d: Descriptor)
    requires HitAt(s, stale, key)
    ensures Resolve(s, stale, key, d) == (s, s.slots[key])
  {
  }

  /** A miss or a stale entry costs exactly one compilation, of the requested
      descriptor; its fresh entry (an id no slot holds) is stored at `key` and returned,
      and every other slot keeps what it held. */
  lemma ResolveMiss(s: CacheState, stale: set<nat>, hash: Descriptor -> int, key: int, d: Descriptor)
    requires Consistent(s, stale, hash)
    requires !HitAt(s, stale, key)
    ensures var (s', e) := Resolve(s, stale, key, d);
            && s'.compiled == s.compiled + [d]
            && e.descriptor == d
            && (forall k :: k in s.slots ==> s.slots[k].id != e.id)
            && key in s'.slots && s'.slots[key] == e
            && s'.slots.Keys == s.slots.Keys + {key}
            && (forall k :: k in s.slots && k != key ==> s'.slots[k] == s.slots[k])
            && IsCurrent(e, stale)
  {
  }

  /** Resolving keeps the cache consistent when `key` is the descriptor's hash. */
  lemma ResolveConsistent(s: CacheState, stale: set<nat>, hash: Descriptor -> int, d: Descriptor)
    requires Consistent(s, stale, hash)
    ensures var (s', e) := Resolve(s, stale, hash(d), d);
            && Consistent(s', stale, hash)
            && hash(e.descriptor) == hash(d)
            && s.compiled <= s'.compiled
  {
    var (s', e) := Resolve(s, stale, hash(d), d);
    if !HitAt(s, stale, hash(d)) {
      forall k | k in s'.slots
        ensures s'.slots[k].id < |s'.compiled|
        ensures s'.compiled[s'.slots[k].id] == s'.slots[k].descriptor
      {
        if k != hash(d) {
          assert s'.compiled[s.slots[k].id] == s.compiled[s.slots[k].id];
        }
      }
    }
  }

  /** A current slot stays current, with the same entry, whatever is resolved. */
  lemma ResolveKeepsHits(s: CacheState, stale: set<nat>, key: int, d: Descriptor, k: int)
    requires HitAt(s, stale, k)
    ensures var (s', _) := Resolve(s, stale, key, d);
            HitAt(s', stale, k) && s'.slots[k] == s.slots[k]
  {
  }

  /** Two lookups of the same descriptor with no template change in between: the second
      is a hit that returns the entry the first one returned and compiles nothing. */
  lemma ResolveTwice(s: CacheState, stale: set<nat>, hash: Descriptor -> int, d: Descriptor)
    requires Consistent(s, stale, hash)
    ensures var (s1, e1) := Resolve(s, stale, hash(d), d);
            var (s2, e2) := Resolve(s1, stale, hash(d), d);
            s2 == s1 && e2 == e1
  {
    var (s1, e1) := Resolve(s, stale, hash(d), d);
    if !HitAt(s, stale, hash(d)) {
      ResolveMiss(s, stale, hash, hash(d), d);
    }
    assert HitAt(s1, stale, hash(d));
  }

  /** When the templates of the cached entry change, the next lookup compiles exactly
      once and returns the new entry, and the one after that returns the same new entry
      without compiling again. */
  lemma RecompileOnceAfterChange(s: CacheState, stale: set<nat>, hash: Descriptor -> int, d: Descriptor)
    requires Consistent(s, stale, hash)
    requires HitAt(s, stale, hash(d))
    ensures var stale' := stale + {s.slots[hash(d)].id};
            var (s1, e1) := Resolve(s, stale', hash(d), d);
            var (s2, e2) := Resolve(s1, stale', hash(d), d);
            && s1.compiled == s.compiled + [d]
            && e1 != s.slots[hash(d)]
            && e2 == e1 && s2 == s1
  {
    var stale' := stale + {s.slots[hash(d)].id};
    assert Consistent(s, stale', hash);
    ResolveMiss(s, stale', hash, hash(d), d);
    ResolveTwice(s, stale', hash, d);
  }

  /** The slot is keyed by the hash alone: after `d1` is compiled into its slot, a lookup
      of a different descriptor `d2` with the same hash is a hit that returns the entry
      compiled for `d1`, and `d2` is never compiled. */
  lemma EqualHashesShareSlot(s: CacheState, stale: set<nat>, hash: Descriptor -> int, d1: Descriptor, d2: Descriptor)
    requires Consistent(s, stale, hash)
    requires !HitAt(s, stale, hash(d1))
    requires d1 != d2 && hash(d1) == hash(d2)
    ensures var (s1, e1) := Resolve(s, stale, hash(d1), d1);
            var (s2, e2) := Resolve(s1, stale, hash(d2), d2);
            e2 == e1 && e2.descriptor == d1 && e2.descriptor != d2 && s2 == s1
  {
    ResolveMiss(s, stale, hash, hash(d1), d1);
  }

  /** A single-threaded run of lookups, in order: the final state and the entries returned. */
  function ResolveAll(s: CacheState, stale: set<nat>, hash: Descriptor -> int, ds: seq<Descriptor>): (CacheState, seq<Entry>)
    decreases |ds|
  {
    if ds == [] then (s, [])
    else
      var (s1, e) := Resolve(s, stale, hash(ds[0]), ds[0]);
      var (s2, es) := ResolveAll(s1, stale, hash, ds[1..]);
      (s2, [e] + es)
  }

  /** With no template change during a run of lookups, nothing is compiled twice for one
      slot: the descriptors compiled during the run have pairwise different hashes, none
      of which was a current hit before the run, so there are at most as many
      compilations as lookups. Each returned entry was compiled for a descriptor with the
      requested hash. */
  lemma {:induction false} CompileAtMostOncePerSlot(s: CacheState, stale: set<nat>, hash: Descriptor -> int, ds: seq<Descriptor>)
    requires Consistent(s, stale, hash)
    ensures var (s', es) := ResolveAll(s, stale, hash, ds);
            && Consistent(s', stale, hash)
            && s.compiled <= s'.compiled
            && |s'.compiled| - |s.compiled| <= |ds|
            && (forall i, j :: |s.compiled| <= i < j < |s'.compiled| ==> hash(s'.compiled[i]) != hash(s'.compiled[j]))
            && (forall i :: |s.compiled| <= i < |s'.compiled| ==> !HitAt(s, stale, hash(s'.compiled[i])))
            && |es| == |ds|
            && (forall i :: 0 <= i < |ds| ==> hash(es[i].descriptor) == hash(ds[i]))
    decreases |ds|
  {
    if ds != [] {
      var d := ds[0];
      var (s1, e) := Resolve(s, stale, hash(d), d);
      ResolveConsistent(s, stale, hash, d);
      CompileAtMostOncePerSlot(s1, stale, hash, ds[1..]);
      var (s', es') := ResolveAll(s1, stale, hash, ds[1..]);
      assert ResolveAll(s, stale, hash, ds) == (s', [e] + es');
      var n := |s.compiled|;
      // Every slot current before the lookup is still current after it.
      forall k | HitAt(s, stale, k) ensures HitAt(s1, stale, k) {
        ResolveKeepsHits(s, stale, hash(d), d, k);
      }
      if !HitAt(s, stale, hash(d)) {
        ResolveMiss(s, stale, hash, hash(d), d);
        assert s1.compiled == s.compiled + [d];
        assert s'.compiled[n] == d;
        // The run after this lookup finds hash(d) current, so never compiles for it.
        assert HitAt(s1, stale, hash(d));
        forall i, j | n <= i < j < |s'.compiled|
          ensures hash(s'.compiled[i]) != hash(s'.compiled[j])
        {
          if i == n {
            assert !HitAt(s1, stale, hash(s'.compiled[j]));
          }
        }
      }
    }
  }
}
