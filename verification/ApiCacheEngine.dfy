/**
 * The cache itself: mutable entries reached from a map, from running fetches and from
 * pending callbacks. Every method is one atomic step, proved to do what the step system
 * of ApiCacheModel says.
 */
module ApiCacheEngine {
  import opened Wrappers
  import AgeOrder
  import opened M = ApiCacheModel
  import ApiCacheEviction

  class AbortController {
    ghost const id: nat
    var aborted: bool

    constructor (ghost id: nat)
      ensures this.id == id && !aborted
    {
      this.id, aborted := id, false;
    }
  }

  class CacheEntry {
    ghost const id: nat
    var data: Data
    var error: Option<string>
    var status: Option<int>
    var at: nat
    var v: nat
    var inflight: Run?
    var controller: AbortController?
    var subscribers: int
    var listeners: set<Listener>
    var fetcher: Option<Fetcher>

    constructor (ghost id: nat)
      ensures this.id == id && Shows(FRESH_ENTRY) && inflight == null && controller == null
    {
      this.id := id;
      data, error, status, at, v := Undefined, None, None, 0, 0;
      inflight, controller, subscribers, listeners, fetcher := null, null, 0, {}, None;
    }

    /** Everything but the two references is as in `e`. */
    predicate Shows(e: EntryState)
      reads this
    {
      && data == e.data && error == e.error && status == e.status && at == e.at && v == e.v
      && subscribers == e.subscribers && listeners == e.listeners && fetcher == e.fetcher
    }

    method Notify()
      modifies this`v
      ensures v == old(v) + 1
    {
      v := v + 1;
    }
  }

  /** The promise of one fetch, with the variables its async body closed over. */
  class Run {
    ghost const id: nat
    const entry: CacheEntry
    const fetcher: Fetcher
    const controller: AbortController
    var settled: bool

    constructor (ghost id: nat, entry: CacheEntry, fetcher: Fetcher, controller: AbortController)
      ensures this.id == id && this.entry == entry && this.fetcher == fetcher
      ensures this.controller == controller && !settled
    {
      this.id, this.entry, this.fetcher, this.controller, settled := id, entry, fetcher, controller, false;
    }
  }

  class Engine {
    var keys: seq<string>
    var cache: map<string, CacheEntry>

    /** The abstract state, and the objects behind its numbers. */
    ghost var st: State
    ghost var entries: seq<CacheEntry>
    ghost var runs: seq<Run>
    ghost var controllers: seq<AbortController>

    /** Object `entry` is entry number `i` in abstract state `e`. */
    ghost predicate IsEntry(entry: CacheEntry, i: nat, e: EntryState)
      reads this`runs, this`controllers, entry
    {
      && entry.id == i
      && entry.Shows(e)
      && (match e.inflight
          case None => entry.inflight == null
          case Some(r) => r < |runs| && entry.inflight == runs[r])
      && (match e.controller
          case None => entry.controller == null
          case Some(r) => r < |controllers| && entry.controller == controllers[r])
    }

    /** Every entry is as `st` says, except that `skip` need not be. */
    ghost predicate ValidEntriesBut(skip: int)
      reads this`st, this`entries, this`runs, this`controllers, entries
    {
      && |entries| == |st.entries|
      && (0 <= skip < |entries| ==> entries[skip].id == skip)
      && forall i {:trigger IsEntry(entries[i], i, st.entries[i])} :: 0 <= i < |entries| && i != skip ==>
           IsEntry(entries[i], i, st.entries[i])
    }

    /** Objects `run` and `controller` are run number `i` in abstract state `r`. */
    ghost predicate IsRun(run: Run, controller: AbortController, i: nat, r: RunState)
      reads this`entries, run, controller
    {
      && run.id == controller.id == i
      && run.controller == controller
      && r.entry < |entries| && run.entry == entries[r.entry] && run.fetcher == r.fetcher
      && run.settled == r.settled && controller.aborted == r.aborted
    }

    ghost predicate ValidRuns()
      reads this`st, this`entries, this`runs, this`controllers, runs, controllers
    {
      && |runs| == |controllers| == |st.runs|
      && forall r {:trigger IsRun(runs[r], controllers[r], r, st.runs[r])} :: 0 <= r < |runs| ==>
           IsRun(runs[r], controllers[r], r, st.runs[r])
    }

    ghost predicate ValidCache()
      reads this`st, this`entries, this`keys, this`cache
    {
      && keys == st.keys
      && cache.Keys == st.cache.Keys
      && forall k :: k in cache ==> st.cache[k] < |entries| && cache[k] == entries[st.cache[k]]
    }

    ghost predicate Valid()
      reads this, entries, runs, controllers
    {
      Wf(st) && ValidCache() && ValidEntriesBut(-1) && ValidRuns()
    }

    constructor ()
      ensures Valid() && st == INITIAL
    {
      keys, cache, st, entries, runs, controllers := [], map[], INITIAL, [], [], [];
    }

    /** Entries known before keep their numbers; the others are new. */
    twostate predicate Grew()
      reads this
    {
      && |old(entries)| <= |entries| && entries[..|old(entries)|] == old(entries)
      && forall i :: |old(entries)| <= i < |entries| ==> fresh(entries[i])
    }

    twostate predicate Same(o: CacheEntry)
      reads o
    {
      unchanged(o)
    }

    /** Entries other than `id` that neither the step nor `st` changed are still as `st` says. */
    twostate lemma OthersStay(id: int)
      requires old(ValidEntriesBut(id)) && entries == old(entries) && |st.entries| == |entries|
      requires old(runs) <= runs && old(controllers) <= controllers
      requires forall i :: 0 <= i < |entries| && i != id ==> st.entries[i] == old(st.entries[i])
      requires forall o: CacheEntry :: old(allocated(o)) && (0 <= id < |entries| ==> o != entries[id]) ==> Same(o)
      ensures ValidEntriesBut(id)
    {
      forall i | 0 <= i < |entries| && i != id ensures IsEntry(entries[i], i, st.entries[i]) {
        assert old(IsEntry(entries[i], i, st.entries[i]));
        assert Same(entries[i]);
      }
    }

    /** One entry more, and nothing else about the entries changed. */
    twostate lemma OneEntryMore()
      requires old(ValidEntriesBut(-1)) && |entries| == |old(entries)| + 1 && entries[..|old(entries)|] == old(entries)
      requires |st.entries| == |entries| && st.entries[..|old(entries)|] == old(st.entries)
      requires runs == old(runs) && controllers == old(controllers)
      requires forall o: CacheEntry :: old(allocated(o)) ==> Same(o)
      requires IsEntry(entries[|old(entries)|], |old(entries)|, st.entries[|old(entries)|])
      ensures ValidEntriesBut(-1)
    {
      ghost var n := |old(entries)|;
      forall i | 0 <= i < |entries| ensures IsEntry(entries[i], i, st.entries[i]) {
        if i < n {
          assert entries[i] == old(entries[i]) && st.entries[i] == old(st.entries[i]);
          assert old(IsEntry(entries[i], i, st.entries[i]));
          assert Same(entries[i]);
        }
      }
    }

    twostate lemma RunsStay()
      requires old(ValidRuns()) && old(entries) <= entries && st.runs == old(st.runs)
      requires runs == old(runs) && controllers == old(controllers)
      requires forall r :: 0 <= r < |runs| ==> unchanged(runs[r])
      requires forall r :: 0 <= r < |controllers| ==> unchanged(controllers[r])
      ensures ValidRuns()
    {
      forall r | 0 <= r < |runs| ensures IsRun(runs[r], controllers[r], r, st.runs[r]) {
        assert old(IsRun(runs[r], controllers[r], r, st.runs[r]));
      }
    }

    lemma AllEntries(id: EntryId)
      requires ValidEntriesBut(id) && id < |entries| && IsEntry(entries[id], id, st.entries[id])
      ensures ValidEntriesBut(-1)
    {
      forall i | 0 <= i < |entries| ensures IsEntry(entries[i], i, st.entries[i]) {}
    }

    lemma AllButOne(id: EntryId)
      requires ValidEntriesBut(-1) && id < |entries|
      ensures ValidEntriesBut(id) && IsEntry(entries[id], id, st.entries[id])
    {
      assert IsEntry(entries[id], id, st.entries[id]);
    }

    /** Brings the abstract state in line with new contents of one entry. */
    ghost method Sync(id: EntryId, e: EntryState)
      requires Wf(st) && id < |st.entries| && (e.controller.Some? ==> e.controller.value < |st.runs|)
      requires ValidCache() && ValidEntriesBut(id) && ValidRuns()
      requires IsEntry(entries[id], id, e)
      modifies this`st
      ensures Valid() && st == Put(old(st), id, e)
    {
      st := Put(st, id, e);
      OthersStay(id);
      AllEntries(id);
      RunsStay();
    }

    /** What the map holds under a key is as `st` says. */
    lemma Cached(k: string)
      requires Valid() && k in cache
      ensures k in st.cache && st.cache[k] < |st.entries| == |entries| && cache[k] == entries[st.cache[k]]
      ensures IsEntry(cache[k], st.cache[k], st.entries[st.cache[k]])
    {
      assert IsEntry(entries[st.cache[k]], st.cache[k], st.entries[st.cache[k]]);
    }

    method EvictableInOrder() returns (ks: seq<string>)
      requires Valid()
      ensures ks == EvictableKeys(st, st.keys)
    {
      ks := [];
      for i := |keys| downto 0
        invariant ks == EvictableTail(st, i)
      {
        var e := cache[keys[i]];
        Cached(keys[i]);
        if e.subscribers == 0 && e.inflight == null { ks := [keys[i]] + ks; }
      }
      AllEvictable(st);
    }

    /** The deletion loop: stops at the cap, or when the candidates are used up. */
    method DeleteInOrder(order: seq<string>, ghost gone: seq<string>)
      requires NoDup(keys) && NoDup(order) && forall k :: k in order ==> k in keys
      requires gone == order[..Max(0, Min(|order|, |keys| - MAX_ENTRIES))]
      modifies this`keys, this`cache
      ensures keys == Without(old(keys), gone) && cache == Survivors(old(cache), gone)
    {
      var i := 0;
      ApiCacheEviction.WithoutNothing(keys);
      ApiCacheEviction.SurvivorsOfNone(cache);
      while i < |order| && |keys| > MAX_ENTRIES
        invariant i <= |order|
        invariant |keys| == |old(keys)| - i && (i > 0 ==> |keys| >= MAX_ENTRIES)
        invariant keys == Without(old(keys), order[..i])
        invariant cache == Survivors(old(cache), order[..i])
      {
        DeleteOneMore(old(keys), order, i);
        SurvivorsOfOneMore(old(cache), order, i);
        keys, cache := Without(keys, [order[i]]), cache - {order[i]};
        i := i + 1;
      }
    }

    /** Brings the abstract state in line with a deletion. */
    ghost method Forget(gone: seq<string>)
      requires Wf(st) && ValidEntriesBut(-1) && ValidRuns()
      requires keys == Without(st.keys, gone)
      requires forall k :: k in cache <==> k in st.cache && k !in gone
      requires forall k :: k in cache ==> st.cache[k] < |entries| && cache[k] == entries[st.cache[k]]
      modifies this`st
      ensures Valid() && st == Delete(old(st), gone)
    {
      st := Delete(st, gone);
    }

    method EvictionCandidates() returns (order: seq<string>)
      requires Valid()
      ensures order == EvictionOrder(st)
    {
      var evictable := EvictableInOrder();
      var ages := map k | k in cache :: cache[k].at;
      forall k | k in cache ensures ages[k] == Ages(st)[k] { Cached(k); }
      assert ages == Ages(st);
      order := AgeOrder.Sort(ages, evictable);
    }

    method EvictOldest()
      requires Valid()
      modifies this`keys, this`cache, this`st
      ensures Valid() && st == M.EvictIfNeeded(old(st))
    {
      ghost var gone := Victims(st);
      var order := EvictionCandidates();
      DeleteInOrder(order, gone);
      Forget(gone);
    }

    method EvictIfNeeded()
      requires Valid()
      modifies this`keys, this`cache, this`st
      ensures Valid() && st == M.EvictIfNeeded(old(st))
    {
      if |keys| <= MAX_ENTRIES {
        ApiCacheEviction.NoEvictionUpToCap(st);
      } else {
        EvictOldest();
      }
    }

    method EntryFor(key: string) returns (entry: CacheEntry)
      requires Valid()
      modifies this`keys, this`cache, this`st, this`entries
      ensures Valid() && Grew()
      ensures st == M.EntryFor(old(st), key).0
      ensures entry == entries[M.EntryFor(old(st), key).1]
    {
      if key in cache {
        Cached(key);
        EntryForCached(st, key);
        entry := cache[key];
      } else {
        EntryForNew(st, key);
        entry := CreateEntry(key);
      }
    }

    method CreateEntry(key: string) returns (entry: CacheEntry)
      requires Valid() && key !in cache
      modifies this`keys, this`cache, this`st, this`entries
      ensures Valid() && st == M.EvictIfNeeded(Grown(old(st), key))
      ensures fresh(entry) && entries == old(entries) + [entry]
    {
      entry := new CacheEntry(|st.entries|);
      Insert(key, entry);
      EvictIfNeeded();
    }

    /** `cache.set(key, entry)` for a new key and a fresh entry. */
    method Insert(key: string, entry: CacheEntry)
      requires Valid() && key !in cache && IsEntry(entry, |entries|, FRESH_ENTRY)
      modifies this`keys, this`cache, this`st, this`entries
      ensures Valid() && st == Grown(old(st), key)
      ensures entries == old(entries) + [entry]
    {
      keys, cache := keys + [key], cache[key := entry];
      st, entries := Grown(st, key), entries + [entry];
      OneEntryMore();
      RunsStay();
    }

    /** The assignments of writeEntry. */
    method Store(ghost id: EntryId, entry: CacheEntry, data: Data, now: nat)
      requires Valid() && id < |entries| && entry == entries[id]
      modifies this`st, entry
      ensures Valid()
      ensures var e := old(st).entries[id].(data := data, at := now, error := None, status := None);
        st == Put(old(st), id, M.Notify(e))
    {
      ghost var e := st.entries[id];
      AllButOne(id);
      entry.data := data;
      entry.at := now;
      entry.error := None;
      entry.status := None;
      entry.Notify();
      OthersStay(id);
      RunsStay();
      Sync(id, M.Notify(e.(data := data, at := now, error := None, status := None)));
    }

    method WriteEntry(key: string, data: Data, now: nat)
      requires Valid()
      modifies this, entries
      ensures Valid() && Grew()
      ensures st == M.WriteEntry(old(st), key, data, now)
    {
      var entry := EntryFor(key);
      Store(M.EntryFor(old(st), key).1, entry, data, now);
    }

    /** The part of revalidate after the in-flight check. */
    method StartRun(ghost id: EntryId, entry: CacheEntry, fetcher: Fetcher)
      requires Valid() && id < |entries| && entry == entries[id]
      modifies this`st, this`runs, this`controllers, entry
      ensures Valid() && st == M.StartRun(old(st), id, fetcher)
    {
      assert IsEntry(entry, id, st.entries[id]);
      if entry.inflight != null { return; }
      var controller := new AbortController(|runs|);
      var run := new Run(|runs|, entry, fetcher, controller);
      Register(id, entry, run, controller);
    }

    method Register(ghost id: EntryId, entry: CacheEntry, run: Run, controller: AbortController)
      requires Valid() && id < |entries| && entry == entries[id] && st.entries[id].inflight == None
      requires run.id == controller.id == |runs| && run.entry == entry && run.controller == controller
      requires !run.settled && !controller.aborted
      modifies this`st, this`runs, this`controllers, entry
      ensures Valid() && st == M.StartRun(old(st), id, run.fetcher)
    {
      ghost var e := st.entries[id];
      AllButOne(id);
      entry.controller := controller;
      entry.inflight := run;
      entry.Notify();
      runs, controllers := runs + [run], controllers + [controller];
      st := M.StartRun(st, id, run.fetcher);
      OthersStay(id);
      AllEntries(id);
      assert IsRun(run, controller, |st.runs| - 1, st.runs[|st.runs| - 1]);
    }

    method Revalidate(key: string, fn: Option<Fetcher>)
      requires Valid()
      modifies this, entries
      ensures Valid() && Grew()
      ensures st == M.Revalidate(old(st), key, fn)
    {
      var entry := EntryFor(key);
      ghost var id := M.EntryFor(old(st), key).1;
      assert IsEntry(entry, id, st.entries[id]);
      var fetcher := if fn.Some? then fn else entry.fetcher;
      if fetcher.None? { return; }
      StartRun(id, entry, fetcher.value);
    }

    /** The code of a run after its `await`, up to and including its `finally`. */
    method Settle(run: Run, outcome: Outcome, now: nat)
      requires Valid() && run.id < |runs| && run == runs[run.id] && !st.runs[run.id].settled
      modifies this`st, run, run.entry
      ensures Valid() && st == M.Settle(old(st), run.id, outcome, now)
    {
      ghost var r := st.runs[run.id];
      ghost var id := r.entry;
      ghost var e := st.entries[id];
      assert IsRun(run, controllers[run.id], run.id, r);
      AllButOne(id);
      assert e.inflight.Some? ==>
          IsRun(runs[e.inflight.value], controllers[e.inflight.value], e.inflight.value, st.runs[e.inflight.value]);
      SettleEntry(run, e, outcome, now);
      OthersStay(id);
      RunsStay();
      Sync(id, SettledEntry(e, run.id, r.aborted, outcome, now));
      MarkSettled(run);
    }

    method MarkSettled(run: Run)
      requires Valid() && run.id < |runs| && run == runs[run.id]
      modifies this`st, run`settled
      ensures Valid() && st == old(st).(runs := old(st).runs[run.id := old(st).runs[run.id].(settled := true)])
    {
      assert IsRun(run, controllers[run.id], run.id, st.runs[run.id]);
      run.settled := true;
      st := st.(runs := st.runs[run.id := st.runs[run.id].(settled := true)]);
      OthersStay(-1);
      forall r | 0 <= r < |runs| && r != run.id ensures IsRun(runs[r], controllers[r], r, st.runs[r]) {
        assert old(IsRun(runs[r], controllers[r], r, st.runs[r]));
      }
      assert IsRun(run, controllers[run.id], run.id, st.runs[run.id]);
    }

    method SettleEntry(run: Run, ghost e: EntryState, outcome: Outcome, now: nat)
      requires IsEntry(run.entry, run.entry.id, e)
      requires run.entry.inflight == run <==> e.inflight == Some(run.id)
      modifies run.entry
      ensures IsEntry(run.entry, run.entry.id, SettledEntry(e, run.id, run.controller.aborted, outcome, now))
    {
      var entry := run.entry;
      if !run.controller.aborted {
        Receive(entry, outcome, now);
      }
      assert entry.Shows(if run.controller.aborted then e else Received(e, outcome, now));
      if entry.inflight == run {
        entry.inflight := null;
        entry.controller := null;
        entry.Notify();
      }
    }

    method Receive(entry: CacheEntry, outcome: Outcome, now: nat)
      modifies entry`data, entry`error, entry`status, entry`at
      ensures forall e :: old(entry.Shows(e)) ==> entry.Shows(Received(e, outcome, now))
    {
      match outcome
      case Resolved(Ok(data)) =>
        entry.data := data;
        entry.error := None;
        entry.status := None;
        entry.at := now;
      case Resolved(Failed(error, status)) =>
        entry.error := Some(error);
        entry.status := status;
      case Rejected =>
        entry.error := Some("Request failed");
    }

    method SubscribeKey(key: string, listener: Listener) returns (entry: CacheEntry)
      requires Valid()
      modifies this, entries
      ensures Valid() && Grew()
      ensures st == M.Subscribe(old(st), key, listener)
      ensures entry == entries[M.EntryFor(old(st), key).1]
    {
      entry := EntryFor(key);
      AddSubscriber(M.EntryFor(old(st), key).1, entry, listener);
    }

    method AddSubscriber(ghost id: EntryId, entry: CacheEntry, listener: Listener)
      requires Valid() && id < |entries| && entry == entries[id]
      modifies this`st, entry
      ensures Valid() && st == M.AddSubscriber(old(st), id, listener)
    {
      AllButOne(id);
      entry.listeners := entry.listeners + {listener};
      entry.subscribers := entry.subscribers + 1;
      st := M.AddSubscriber(st, id, listener);
      OthersStay(id);
      RunsStay();
      AllEntries(id);
    }

    /** The closure returned by subscribeKey, with the variables it closed over. */
    method Unsubscribe(ghost sub: nat, entry: CacheEntry, listener: Listener)
      requires Valid() && sub < |st.subs| && st.subs[sub] == Subscription(entry.id, listener, true)
      requires entry.id < |entries| && entry == entries[entry.id]
      modifies this`st, entry
      ensures Valid() && st == M.Unsubscribe(old(st), sub)
    {
      ghost var id := entry.id;
      AllButOne(id);
      entry.listeners := entry.listeners - {listener};
      entry.subscribers := entry.subscribers - 1;
      st := M.Unsubscribe(st, sub);
      OthersStay(id);
      RunsStay();
      AllEntries(id);
    }

    /** The callback of the zero-delay timer set by an unsubscribe. */
    method FireTimer(ghost timer: nat, entry: CacheEntry)
      requires Valid() && timer < |st.timers| && st.timers[timer] == Timer(entry.id, false)
      requires entry.id < |entries| && entry == entries[entry.id]
      modifies this`st, entry, controllers
      ensures Valid() && st == M.FireTimer(old(st), timer)
    {
      ghost var id := entry.id;
      AllButOne(id);
      if entry.subscribers == 0 && entry.controller != null {
        Abort(timer, id, entry);
      } else {
        st := M.FireTimer(st, timer);
        OthersStay(-1);
        RunsStay();
      }
    }

    /** Aborts the registered run and takes the registration back. */
    method Abort(ghost timer: nat, ghost id: EntryId, entry: CacheEntry)
      requires Valid() && timer < |st.timers| && st.timers[timer] == Timer(id, false)
      requires id < |entries| && entry == entries[id] && entry.subscribers == 0 && entry.controller != null
      modifies this`st, entry, controllers
      ensures Valid() && st == M.FireTimer(old(st), timer)
    {
      ghost var e := st.entries[id];
      AllButOne(id);
      ghost var n := e.controller.value;
      assert IsRun(runs[n], controllers[n], n, st.runs[n]);
      entry.controller.aborted := true;
      entry.controller := null;
      entry.inflight := null;
      st := M.FireTimer(st, timer);
      forall r | 0 <= r < |runs| ensures IsRun(runs[r], controllers[r], r, st.runs[r]) {
        assert old(IsRun(runs[r], controllers[r], r, st.runs[r]));
      }
      OthersStay(id);
      AllEntries(id);
    }

    method SetFetcher(key: string, fn: Fetcher)
      requires Valid()
      modifies this, entries
      ensures Valid() && Grew()
      ensures st == M.SetFetcher(old(st), key, fn)
    {
      var entry := EntryFor(key);
      ghost var id := M.EntryFor(old(st), key).1;
      SetEntryFetcher(id, entry, fn);
    }

    method SetEntryFetcher(ghost id: EntryId, entry: CacheEntry, fn: Fetcher)
      requires Valid() && id < |entries| && entry == entries[id]
      modifies this`st, entry
      ensures Valid() && st == Put(old(st), id, old(st).entries[id].(fetcher := Some(fn)))
    {
      ghost var e := st.entries[id];
      AllButOne(id);
      entry.fetcher := Some(fn);
      OthersStay(id);
      RunsStay();
      Sync(id, e.(fetcher := Some(fn)));
    }

    /** `entry.at = 0`. */
    method MarkStale(ghost id: EntryId, entry: CacheEntry)
      requires Valid() && id < |entries| && entry == entries[id]
      modifies this`st, entry`at
      ensures Valid() && st == Put(old(st), id, old(st).entries[id].(at := 0))
    {
      ghost var e := st.entries[id];
      AllButOne(id);
      entry.at := 0;
      OthersStay(id);
      RunsStay();
      Sync(id, e.(at := 0));
    }

    method NotifyEntry(ghost id: EntryId, entry: CacheEntry)
      requires Valid() && id < |entries| && entry == entries[id]
      modifies this`st, entry`v
      ensures Valid() && st == Put(old(st), id, M.Notify(old(st).entries[id]))
    {
      ghost var e := st.entries[id];
      AllButOne(id);
      entry.Notify();
      OthersStay(id);
      RunsStay();
      Sync(id, M.Notify(e));
    }

    method RefetchIfHeard(key: string, entry: CacheEntry)
      requires Valid() && key in cache && entry == cache[key]
      modifies this, entries
      ensures Valid() && entries == old(entries)
      ensures var e := old(st).entries[old(st).cache[key]];
        st == if e.listeners != {} && e.fetcher.Some? then M.Revalidate(old(st), key, None) else old(st)
    {
      assert IsEntry(entry, st.cache[key], st.entries[st.cache[key]]);
      if entry.listeners != {} && entry.fetcher.Some? {
        Revalidate(key, None);
      }
    }

    method InvalidateKey(key: string)
      requires Valid() && key in cache
      modifies this, entries
      ensures Valid() && entries == old(entries)
      ensures st == M.InvalidateKey(old(st), key)
    {
      var entry := cache[key];
      ghost var id := st.cache[key];
      MarkStale(id, entry);
      RefetchIfHeard(key, entry);
      NotifyEntry(id, entry);
    }

    method InvalidateApi(prefix: string)
      requires Valid()
      modifies this, entries
      ensures Valid() && entries == old(entries)
      ensures st == Invalidate(old(st), prefix)
    {
      var ks := keys;
      for i := 0 to |ks|
        invariant Valid() && entries == old(entries) && keys == ks
        invariant InvalidateKeys(st, ks[i..], prefix) == Invalidate(old(st), prefix)
      {
        assert ks[i..][0] == ks[i] && ks[i..][1..] == ks[i + 1..];
        if HasPrefix(ks[i], prefix) {
          InvalidateKey(ks[i]);
        }
      }
    }

    method IsFresh(key: string, ttlMs: int, now: nat) returns (isFresh: bool)
      requires Valid()
      ensures isFresh == M.IsFresh(st, key, ttlMs, now)
    {
      if key !in cache { return false; }
      var entry := cache[key];
      assert IsEntry(entry, st.cache[key], st.entries[st.cache[key]]);
      isFresh := entry.at > 0 && now - entry.at < ttlMs;
    }
  }

  lemma EntryForCached(st: State, key: string)
    requires Wf(st) && key in st.cache
    ensures M.EntryFor(st, key) == (st, st.cache[key])
  {
  }

  lemma EntryForNew(st: State, key: string)
    requires Wf(st) && key !in st.cache
    ensures M.EntryFor(st, key) == (M.EvictIfNeeded(Grown(st, key)), |st.entries|)
  {
  }

  /** The evictable keys from place `i` on. */
  function EvictableTail(st: State, i: nat): seq<string>
    requires Wf(st) && i <= |st.keys|
    decreases |st.keys| - i
  {
    if i == |st.keys| then []
    else if Evictable(st.entries[st.cache[st.keys[i]]]) then [st.keys[i]] + EvictableTail(st, i + 1)
    else EvictableTail(st, i + 1)
  }

  lemma {:induction false} TailIsEvictable(st: State, i: nat)
    requires Wf(st) && i <= |st.keys|
    ensures EvictableTail(st, i) == EvictableKeys(st, st.keys[i..])
    decreases |st.keys| - i
  {
    if i < |st.keys| {
      TailIsEvictable(st, i + 1);
      assert st.keys[i..][0] == st.keys[i] && st.keys[i..][1..] == st.keys[i + 1..];
    }
  }

  lemma AllEvictable(st: State)
    requires Wf(st)
    ensures EvictableTail(st, 0) == EvictableKeys(st, st.keys)
  {
    TailIsEvictable(st, 0);
    assert st.keys[0..] == st.keys;
  }

  lemma SurvivorsOfOneMore<T>(cache: map<string, T>, order: seq<string>, i: nat)
    requires i < |order|
    ensures Survivors(cache, order[..i + 1]) == Survivors(cache, order[..i]) - {order[i]}
  {
    assert order[..i + 1] == order[..i] + [order[i]];
  }

  lemma {:induction false} WithoutTwice(ks: seq<string>, a: seq<string>, k: string)
    ensures Without(Without(ks, a), [k]) == Without(ks, a + [k])
  {
    if ks != [] { WithoutTwice(ks[1..], a, k); }
  }

  lemma {:induction false} WithoutOne(ks: seq<string>, k: string)
    requires NoDup(ks) && k in ks
    ensures |Without(ks, [k])| == |ks| - 1
  {
    if ks[0] != k {
      WithoutOne(ks[1..], k);
    } else {
      WithoutAbsent(ks[1..], k);
    }
  }

  lemma {:induction false} WithoutAbsent(ks: seq<string>, k: string)
    requires k !in ks
    ensures Without(ks, [k]) == ks
  {
    if ks != [] { WithoutAbsent(ks[1..], k); }
  }

  lemma DeleteOneMore(ks: seq<string>, order: seq<string>, i: nat)
    requires NoDup(ks) && NoDup(order) && i < |order| && forall k :: k in order ==> k in ks
    ensures Without(Without(ks, order[..i]), [order[i]]) == Without(ks, order[..i + 1])
    ensures |Without(Without(ks, order[..i]), [order[i]])| == |Without(ks, order[..i])| - 1
  {
    assert order[..i] + [order[i]] == order[..i + 1];
    WithoutTwice(ks, order[..i], order[i]);
    assert order[i] !in order[..i];
    WithoutOne(Without(ks, order[..i]), order[i]);
  }
}
