/** Eviction takes the oldest unpinned entries, and no more than the excess over the cap. */
module ApiCacheEviction {
  import opened Wrappers
  import opened AgeOrder
  import opened ApiCacheModel
  import opened ApiCacheInvariant

  function EvictableSet(st: State): set<string>
    requires Wf(st)
  {
    set k | k in st.cache && st.entries[st.cache[k]].subscribers == 0 && st.entries[st.cache[k]].inflight.None?
  }

  lemma {:induction false} WithoutSize(ks: seq<string>, gone: seq<string>)
    requires NoDup(ks) && NoDup(gone) && forall k :: k in gone ==> k in ks
    ensures |Without(ks, gone)| == |ks| - |gone|
  {
    NoDupSize(ks);
    NoDupSize(gone);
    NoDupSize(Without(ks, gone));
    assert Elems(Without(ks, gone)) == Elems(ks) - Elems(gone);
    assert Elems(gone) <= Elems(ks);
  }

  lemma EvictionSize(st: State)
    requires Wf(st)
    ensures |EvictionOrder(st)| == |EvictableSet(st)|
    ensures |EvictIfNeeded(st).keys| == |st.keys| - Max(0, Min(|EvictableSet(st)|, |st.keys| - MAX_ENTRIES))
  {
    NoDupSize(EvictionOrder(st));
    assert Elems(EvictionOrder(st)) == EvictableSet(st);
    WithoutSize(st.keys, Victims(st));
  }

  lemma PrefixIsOldest(ages: map<string, nat>, order: seq<string>, n: nat, gone: string, kept: string)
    requires (forall k :: k in order ==> k in ages) && OldestFirst(ages, order)
    requires n <= |order| && gone in order[..n] && kept in order && kept !in order[..n]
    ensures ages[gone] <= ages[kept]
  {
    var i :| 0 <= i < n && order[..n][i] == gone;
    var j :| 0 <= j < |order| && order[j] == kept;
    assert forall m :: 0 <= m < n ==> order[..n][m] == order[m];
  }

  /** A key that eviction drops is no newer than an evictable one that it keeps. */
  lemma EvictionTakesOldest(st: State, gone: string, kept: string)
    requires Wf(st)
    requires gone in st.cache && gone !in EvictIfNeeded(st).cache
    requires kept in EvictIfNeeded(st).cache && kept in EvictableSet(st)
    ensures st.entries[st.cache[gone]].at <= st.entries[st.cache[kept]].at
  {
    var order, victims := EvictionOrder(st), Victims(st);
    assert kept in order && kept !in victims && gone in victims;
    PrefixIsOldest(Ages(st), order, |victims|, gone, kept);
  }

  /**
   * Eviction drops exactly the smaller of the excess over the cap and the number of
   * evictable entries; all it drops is evictable and no newer than what it could have
   * dropped instead; the rest of the map is as it was.
   */
  lemma EvictionIsExact(st: State)
    requires Wf(st)
    ensures var r := EvictIfNeeded(st);
      && |r.keys| == |st.keys| - Max(0, Min(|EvictableSet(st)|, |st.keys| - MAX_ENTRIES))
      && r.cache.Keys <= st.cache.Keys
      && st.cache.Keys - r.cache.Keys <= EvictableSet(st)
      && (forall gone, kept :: gone in st.cache.Keys - r.cache.Keys && kept in EvictableSet(st) * r.cache.Keys ==>
            st.entries[st.cache[gone]].at <= st.entries[st.cache[kept]].at)
      && (forall k :: k in r.cache ==> r.cache[k] == st.cache[k])
      && r == st.(keys := r.keys, cache := r.cache)
  {
    var r := EvictIfNeeded(st);
    EvictionSize(st);
    forall gone, kept | gone in st.cache.Keys - r.cache.Keys && kept in EvictableSet(st) * r.cache.Keys
      ensures st.entries[st.cache[gone]].at <= st.entries[st.cache[kept]].at
    {
      EvictionTakesOldest(st, gone, kept);
    }
  }

  /** Pinned entries: in use by a subscriber or a fetch. */
  function Pinned(st: State): set<string>
    requires Wf(st)
  {
    set k | k in st.cache && (st.entries[st.cache[k]].subscribers != 0 || st.entries[st.cache[k]].inflight.Some?)
  }

  lemma SizeSplit(st: State)
    requires Wf(st)
    ensures |st.keys| == |Pinned(st)| + |EvictableSet(st)|
  {
    NoDupSize(st.keys);
    assert Elems(st.keys) == st.cache.Keys;
    assert st.cache.Keys == Pinned(st) + EvictableSet(st);
  }

  lemma EvictionKeepsMap(st: State)
    requires Wf(st)
    ensures var r := EvictIfNeeded(st); forall k :: k in r.cache ==> k in st.cache && r.cache[k] == st.cache[k]
  {
  }

  lemma VictimsAreNotPinned(st: State, k: string)
    requires Wf(st) && k in Pinned(st)
    ensures k in EvictIfNeeded(st).cache
  {
    assert k !in Victims(st);
  }

  lemma EvictionKeepsPinned(st: State)
    requires Wf(st)
    ensures Pinned(EvictIfNeeded(st)) == Pinned(st)
  {
    EvictionKeepsMap(st);
    forall k | k in Pinned(st) ensures k in EvictIfNeeded(st).cache { VictimsAreNotPinned(st, k); }
  }

  lemma GrownKeepsPinned(st: State, key: string)
    requires Wf(st) && key !in st.cache
    ensures Pinned(Grown(st, key)) == Pinned(st)
  {
    assert Grown(st, key).cache.Keys == st.cache.Keys + {key};
  }

  lemma PinnedStay(st: State, key: string)
    requires Wf(st) && key !in st.cache
    ensures Pinned(Grown(st, key)) == Pinned(st)
    ensures Pinned(EntryFor(st, key).0) == Pinned(st)
  {
    GrownKeepsPinned(st, key);
    EvictionKeepsPinned(Grown(st, key));
  }

  /** Right after an insertion the map holds at most 150 keys, or only pinned ones. */
  lemma InsertionBound(st: State, key: string)
    requires Wf(st) && key !in st.cache
    ensures var r := EntryFor(st, key).0;
      && Pinned(r) == Pinned(st)
      && |r.keys| <= Max(MAX_ENTRIES, |Pinned(r)|)
      && |r.keys| >= Min(MAX_ENTRIES, |st.keys| + 1)
  {
    EvictionBound(Grown(st, key));
    PinnedStay(st, key);
  }

  lemma EvictionBound(st: State)
    requires Wf(st)
    ensures |EvictIfNeeded(st).keys| <= Max(MAX_ENTRIES, |Pinned(st)|)
    ensures |EvictIfNeeded(st).keys| >= Min(MAX_ENTRIES, |st.keys|)
  {
    EvictionSize(st);
    SizeSplit(st);
  }

  // ----- When the entry returned by entryFor is still the cached one -----

  function StaleCount(st: State, ks: seq<string>): nat
    requires Wf(st) && forall k :: k in ks ==> k in st.cache
  {
    if ks == [] then 0
    else (if ks[0] in EvictableSet(st) && st.entries[st.cache[ks[0]]].at == 0 then 1 else 0)
         + StaleCount(st, ks[1..])
  }

  /**
   * The key is cached, there is room for it, or there are enough unpinned entries that
   * were never written (or were invalidated) to be evicted before it.
   */
  predicate Kept(st: State, key: string)
    requires Wf(st)
  {
    key in st.cache || |st.keys| < MAX_ENTRIES || StaleCount(st, st.keys) >= |st.keys| + 1 - MAX_ENTRIES
  }

  function ZeroCount(ages: map<string, nat>, ks: seq<string>): nat
    requires forall k :: k in ks ==> k in ages
  {
    if ks == [] then 0 else (if ages[ks[0]] == 0 then 1 else 0) + ZeroCount(ages, ks[1..])
  }

  /** Inserting an older key does not move the keys younger than it. */
  lemma {:induction false} InsertKeepsPrefix(ages: map<string, nat>, x: string, ks: seq<string>, n: nat)
    requires x in ages && (forall k :: k in ks ==> k in ages) && n <= |ks|
    requires forall i :: 0 <= i < n ==> ages[ks[i]] < ages[x]
    ensures Insert(ages, x, ks)[..n] == ks[..n]
  {
    if n > 0 {
      InsertKeepsPrefix(ages, x, ks[1..], n - 1);
      assert ks[..n] == [ks[0]] + ks[1..][..n - 1];
    }
  }

  /** `k` stands at place `z`, behind nothing that is older than age 0. */
  ghost predicate ZeroAt(ages: map<string, nat>, r: seq<string>, z: nat, k: string)
    requires forall x :: x in r ==> x in ages
  {
    z < |r| && r[z] == k && forall i :: 0 <= i <= z ==> ages[r[i]] == 0
  }

  lemma InsertBeforeZero(ages: map<string, nat>, x: string, r: seq<string>, z: nat, k: string)
    requires x in ages && (forall y :: y in r ==> y in ages) && ZeroAt(ages, r, z, k)
    ensures ZeroAt(ages, Insert(ages, x, r), if ages[x] == 0 then z + 1 else z, k)
  {
    var all := Insert(ages, x, r);
    if ages[x] == 0 {
      assert all == [x] + r;
    } else {
      InsertKeepsPrefix(ages, x, r, z + 1);
      assert forall i :: 0 <= i <= z ==> all[i] == all[..z + 1][i];
    }
  }

  /** The last of the keys aged 0 is sorted behind the others aged 0 and before the rest. */
  lemma {:induction false} LastZeroPosition(ages: map<string, nat>, ks: seq<string>, k: string)
    requires k in ages && ages[k] == 0 && forall x :: x in ks ==> x in ages
    ensures ZeroAt(ages, Sort(ages, ks + [k]), ZeroCount(ages, ks), k)
  {
    if ks == [] {
      assert ks + [k] == [k];
    } else {
      var all := ks + [k];
      assert all[1..] == ks[1..] + [k] && all[0] == ks[0];
      LastZeroPosition(ages, ks[1..], k);
      InsertBeforeZero(ages, ks[0], Sort(ages, all[1..]), ZeroCount(ages, ks[1..]), k);
    }
  }

  /** Only the entries that the given keys name matter. */
  lemma {:induction false} EvictableAgree(st: State, g: State, ks: seq<string>)
    requires Wf(st) && Wf(g)
    requires forall k :: k in ks ==> k in st.cache && k in g.cache && g.entries[g.cache[k]] == st.entries[st.cache[k]]
    ensures EvictableKeys(g, ks) == EvictableKeys(st, ks)
    ensures ZeroCount(Ages(g), EvictableKeys(st, ks)) == StaleCount(st, ks)
  {
    if ks != [] {
      EvictableAgree(st, g, ks[1..]);
    }
  }

  lemma ConsThenSnoc(x: string, a: seq<string>, y: string)
    ensures [x] + (a + [y]) == ([x] + a) + [y]
  {
  }

  lemma TailOfAppended(ks: seq<string>, key: string)
    requires ks != []
    ensures (ks + [key])[1..] == ks[1..] + [key] && (ks + [key])[0] == ks[0]
  {
  }

  lemma {:induction false} EvictableAppend(st: State, ks: seq<string>, key: string)
    requires Wf(st) && key in st.cache && forall k :: k in ks ==> k in st.cache
    requires Evictable(st.entries[st.cache[key]])
    ensures EvictableKeys(st, ks + [key]) == EvictableKeys(st, ks) + [key]
  {
    if ks == [] {
      assert ks + [key] == [key];
    } else {
      TailOfAppended(ks, key);
      EvictableAppend(st, ks[1..], key);
      ConsThenSnoc(ks[0], EvictableKeys(st, ks[1..]), key);
    }
  }

  lemma InPrefixIff(order: seq<string>, n: nat, z: nat)
    requires NoDup(order) && n <= |order| && z < |order|
    ensures order[z] in order[..n] <==> z < n
  {
    if z < n { assert order[..n][z] == order[z]; }
  }

  /** entryFor returns the entry the map holds for the key exactly when Kept. */
  lemma EntryForIsCachedIffKept(st: State, key: string)
    requires Wf(st)
    ensures var (r, id) := EntryFor(st, key);
      && (key in r.cache <==> Kept(st, key))
      && (key in r.cache ==> r.cache[key] == id)
  {
    if key !in st.cache {
      var g := Grown(st, key);
      NewKeyPlace(st, key);
      InPrefixIff(EvictionOrder(g), |Victims(g)|, StaleCount(st, st.keys));
    }
  }

  /** In the order of eviction a new key stands behind the stale ones. */
  lemma NewKeyPlace(st: State, key: string)
    requires Wf(st) && key !in st.cache
    ensures var order, z := EvictionOrder(Grown(st, key)), StaleCount(st, st.keys); z < |order| && order[z] == key
  {
    var g := Grown(st, key);
    EvictableAgree(st, g, st.keys);
    EvictableAppend(g, st.keys, key);
    LastZeroPosition(Ages(g), EvictableKeys(st, st.keys), key);
  }

  /** A write-through can be read back exactly when Kept. */
  lemma WriteIsVisibleIffKept(st: State, key: string, data: Data, now: nat)
    requires Wf(st)
    ensures var r := WriteEntry(st, key, data, now);
      (key in r.cache && r.entries[r.cache[key]].data == data && r.entries[r.cache[key]].at == now) <==> Kept(st, key)
  {
    EntryForIsCachedIffKept(st, key);
  }

  /** A second fetch of a key joins the first one exactly when Kept. */
  lemma FetchIsSharedIffKept(st: State, key: string, f: Fetcher, g: Fetcher)
    requires Inv(st)
    ensures var r := Revalidate(st, key, Some(f));
      |Revalidate(r, key, Some(g)).runs| == |r.runs| <==> Kept(st, key)
  {
    EntryForIsCachedIffKept(st, key);
    var r := Revalidate(st, key, Some(f));
    RevalidateRuns(st, key, f);
    if key in r.cache {
      RunningKeyStartsNone(r, key, g);
    } else {
      NewKeyStartsRun(r, key, g);
    }
  }

  lemma RevalidateRuns(st: State, key: string, f: Fetcher)
    requires Wf(st)
    ensures var s, r := EntryFor(st, key).0, Revalidate(st, key, Some(f));
            r.cache == s.cache && r.entries[EntryFor(st, key).1].inflight.Some?
  {
  }

  lemma RunningKeyStartsNone(st: State, key: string, g: Fetcher)
    requires Wf(st) && key in st.cache && st.entries[st.cache[key]].inflight.Some?
    ensures Revalidate(st, key, Some(g)) == st
  {
  }

  lemma NewKeyStartsRun(st: State, key: string, g: Fetcher)
    requires Wf(st) && key !in st.cache
    ensures |Revalidate(st, key, Some(g)).runs| == |st.runs| + 1
  {
    assert EntryFor(st, key).0.entries == st.entries + [FRESH_ENTRY];
  }

  // ----- A full cache, where entryFor's result is lost -----

  function Name(n: nat): string { seq(n, i => 'k') }

  lemma {:induction false} WithoutNothing(ks: seq<string>)
    ensures Without(ks, []) == ks
  {
    if ks != [] { WithoutNothing(ks[1..]); }
  }

  lemma SurvivorsOfNone<T>(cache: map<string, T>)
    ensures Survivors(cache, []) == cache
  {
  }

  lemma DeleteNothing(st: State)
    requires Wf(st)
    ensures Delete(st, []) == st
  {
    WithoutNothing(st.keys);
    SurvivorsOfNone(st.cache);
  }

  lemma NoEvictionUpToCap(st: State)
    requires Wf(st) && |st.keys| <= MAX_ENTRIES
    ensures EvictIfNeeded(st) == st
  {
    assert |Victims(st)| == 0;
    assert Victims(st) == [];
    DeleteNothing(st);
  }

  /** Subscribing to a new key while there is room adds one pinned key. */
  lemma SubscribeWithRoom(st: State, key: string, listener: Listener)
    requires Wf(st) && key !in st.cache && |st.keys| < MAX_ENTRIES
    ensures var r := Subscribe(st, key, listener);
      && r.keys == st.keys + [key]
      && r.cache == st.cache[key := |st.entries|]
      && |r.entries| == |st.entries| + 1
      && r.entries[..|st.entries|] == st.entries
      && r.entries[|st.entries|].subscribers == 1
  {
    NoEvictionUpToCap(Grown(st, key));
  }

  /** `n` subscribed keys, all shorter than `n`. */
  ghost predicate Full(st: State, n: nat) {
    && Wf(st)
    && |st.keys| == n
    && forall k :: k in st.cache ==> |k| < n && st.entries[st.cache[k]].subscribers > 0
  }

  lemma FullStep(st: State, n: nat, key: string, listener: Listener)
    requires Full(st, n) && n < MAX_ENTRIES && |key| == n
    ensures Full(Subscribe(st, key, listener), n + 1)
  {
    var r := Subscribe(st, key, listener);
    SubscribeWithRoom(st, key, listener);
    forall k | k in r.cache ensures |k| < n + 1 && r.entries[r.cache[k]].subscribers > 0 {
      if k != key {
        assert r.entries[..|st.entries|][st.cache[k]] == st.entries[st.cache[k]];
      }
    }
  }

  lemma {:induction false} NoStaleWhenPinned(st: State, ks: seq<string>)
    requires Wf(st) && forall k :: k in ks ==> k in st.cache && st.entries[st.cache[k]].subscribers > 0
    ensures StaleCount(st, ks) == 0
  {
    if ks != [] { NoStaleWhenPinned(st, ks[1..]); }
  }

  lemma FullLosesNewKeys(st: State, key: string)
    requires Full(st, MAX_ENTRIES) && |key| >= MAX_ENTRIES
    ensures !Kept(st, key)
  {
    NoStaleWhenPinned(st, st.keys);
  }
}
