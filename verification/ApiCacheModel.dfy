/** The stable sort by age used by eviction. */
module AgeOrder {
  import opened Wrappers

  ghost predicate OldestFirst(ages: map<string, nat>, ks: seq<string>)
    requires forall k :: k in ks ==> k in ages
  {
    forall i, j :: 0 <= i < j < |ks| ==> ages[ks[i]] <= ages[ks[j]]
  }

  /** Stable insertion: `k` comes before the keys of `ks` that are as old as it is. */
  function Insert(ages: map<string, nat>, k: string, ks: seq<string>): (r: seq<string>)
    requires k in ages && forall x :: x in ks ==> x in ages
    ensures |r| == |ks| + 1
    ensures forall x :: x in r <==> x == k || x in ks
  {
    if ks == [] || ages[k] <= ages[ks[0]] then [k] + ks
    else [ks[0]] + Insert(ages, k, ks[1..])
  }

  lemma {:induction false} InsertKeepsOrder(ages: map<string, nat>, k: string, ks: seq<string>)
    requires k in ages && forall x :: x in ks ==> x in ages
    requires OldestFirst(ages, ks)
    ensures OldestFirst(ages, Insert(ages, k, ks))
  {
    if ks != [] && ages[k] > ages[ks[0]] {
      var rest := Insert(ages, k, ks[1..]);
      InsertKeepsOrder(ages, k, ks[1..]);
      forall j | 0 <= j < |rest| ensures ages[ks[0]] <= ages[rest[j]] {
        assert rest[j] in rest;
      }
    }
  }

  lemma {:induction false} InsertNoDup(ages: map<string, nat>, k: string, ks: seq<string>)
    requires k in ages && forall x :: x in ks ==> x in ages
    requires NoDup(ks) && k !in ks
    ensures NoDup(Insert(ages, k, ks))
  {
    if ks == [] || ages[k] <= ages[ks[0]] {
      NoDupCons(k, ks);
    } else {
      InsertNoDup(ages, k, ks[1..]);
      NoDupCons(ks[0], Insert(ages, k, ks[1..]));
    }
  }

  /** The stable sort of Array.prototype.sort with the comparator `a.at - b.at`. */
  function Sort(ages: map<string, nat>, ks: seq<string>): (r: seq<string>)
    requires forall x :: x in ks ==> x in ages
    ensures forall x :: x in r <==> x in ks
    ensures |r| == |ks|
    ensures OldestFirst(ages, r)
    ensures NoDup(ks) ==> NoDup(r)
  {
    if ks == [] then []
    else
      var rest := Sort(ages, ks[1..]);
      InsertKeepsOrder(ages, ks[0], rest);
      assert NoDup(ks) ==> NoDup(Insert(ages, ks[0], rest)) by {
        if NoDup(ks) { InsertNoDup(ages, ks[0], rest); }
      }
      Insert(ages, ks[0], rest)
  }
}

/**
 * The stale-while-revalidate cache behind the admin app as a step system. Every
 * callback, timer and settled promise is one atomic step. Entries are numbered in
 * creation order and outlive their place in the map: a run, an unsubscribe or a timer
 * keeps using the entry it closed over after the entry was evicted.
 */
module ApiCacheModel {
  import opened Wrappers
  import opened AgeOrder

  type EntryId = nat
  type RunId = nat
  type Listener = nat
  type Fetcher = nat

  datatype Data = Undefined | Json(text: string)

  datatype ApiResult = Ok(data: Data) | Failed(error: string, status: Option<int>)

  /** How the promise returned by a fetcher ends. */
  datatype Outcome = Resolved(result: ApiResult) | Rejected

  datatype EntryState = EntryState(
    data: Data, error: Option<string>, status: Option<int>, at: nat, v: nat,
    inflight: Option<RunId>, controller: Option<RunId>,
    subscribers: int, listeners: set<Listener>, fetcher: Option<Fetcher>)

  /** One call of a fetcher, with the entry that the call closed over, and its AbortController's flag. */
  datatype RunState = RunState(entry: EntryId, fetcher: Fetcher, settled: bool, aborted: bool)

  /** One subscription: live until its unsubscribe is called. */
  datatype Subscription = Subscription(entry: EntryId, listener: Listener, live: bool)

  /** One zero-delay timer set by an unsubscribe. */
  datatype Timer = Timer(entry: EntryId, fired: bool)

  /** `keys` is the iteration order of the map `cache`. */
  datatype State = State(
    keys: seq<string>, cache: map<string, EntryId>, entries: seq<EntryState>,
    runs: seq<RunState>, subs: seq<Subscription>, timers: seq<Timer>)

  const MAX_ENTRIES: nat := 150

  const FRESH_ENTRY := EntryState(Undefined, None, None, 0, 0, None, None, 0, {}, None)

  const INITIAL := State([], map[], [], [], [], [])

  /** References are in range and the map agrees with its iteration order. */
  ghost predicate Wf(st: State) {
    && NoDup(st.keys)
    && (forall k :: k in st.keys <==> k in st.cache)
    && (forall k :: k in st.cache ==> st.cache[k] < |st.entries|)
    && (forall r :: 0 <= r < |st.runs| ==> st.runs[r].entry < |st.entries|)
    && (forall s :: 0 <= s < |st.subs| ==> st.subs[s].entry < |st.entries|)
    && (forall t :: 0 <= t < |st.timers| ==> st.timers[t].entry < |st.entries|)
    && (forall e :: 0 <= e < |st.entries| && st.entries[e].controller.Some? ==>
          st.entries[e].controller.value < |st.runs|)
  }

  // ----- Eviction -----

  predicate Evictable(e: EntryState) {
    e.subscribers == 0 && e.inflight.None?
  }

  /** The keys of `ks` whose entry may be evicted, in the same order. */
  function EvictableKeys(st: State, ks: seq<string>): (r: seq<string>)
    requires Wf(st) && forall k :: k in ks ==> k in st.cache
    ensures forall k :: k in r <==> k in ks && Evictable(st.entries[st.cache[k]])
    ensures |r| <= |ks|
    ensures NoDup(ks) ==> NoDup(r)
  {
    if ks == [] then []
    else
      var rest := EvictableKeys(st, ks[1..]);
      if Evictable(st.entries[st.cache[ks[0]]]) then [ks[0]] + rest else rest
  }

  function Ages(st: State): map<string, nat>
    requires Wf(st)
  {
    map k | k in st.cache :: st.entries[st.cache[k]].at
  }

  /** The order in which eviction would delete keys. */
  function EvictionOrder(st: State): (r: seq<string>)
    requires Wf(st)
    ensures forall x :: x in r <==> x in st.cache && Evictable(st.entries[st.cache[x]])
    ensures OldestFirst(Ages(st), r) && NoDup(r)
  {
    Sort(Ages(st), EvictableKeys(st, st.keys))
  }

  function Victims(st: State): (r: seq<string>)
    requires Wf(st)
    ensures forall x :: x in r ==> x in st.cache && Evictable(st.entries[st.cache[x]])
    ensures NoDup(r)
    ensures |r| == Max(0, Min(|EvictionOrder(st)|, |st.keys| - MAX_ENTRIES))
  {
    EvictionOrder(st)[..Max(0, Min(|EvictionOrder(st)|, |st.keys| - MAX_ENTRIES))]
  }

  function Without(ks: seq<string>, gone: seq<string>): (r: seq<string>)
    ensures forall x :: x in r <==> x in ks && x !in gone
    ensures |r| <= |ks|
    ensures NoDup(ks) ==> NoDup(r)
  {
    if ks == [] then []
    else if ks[0] in gone then Without(ks[1..], gone)
    else [ks[0]] + Without(ks[1..], gone)
  }

  /** What a map keeps when the keys of `gone` are deleted. */
  function Survivors<T>(cache: map<string, T>, gone: seq<string>): map<string, T> {
    map k | k in cache && k !in gone :: cache[k]
  }

  function Delete(st: State, gone: seq<string>): (r: State)
    requires Wf(st)
    ensures Wf(r)
  {
    st.(keys := Without(st.keys, gone), cache := Survivors(st.cache, gone))
  }

  function EvictIfNeeded(st: State): (r: State)
    requires Wf(st)
    ensures Wf(r)
  {
    Delete(st, Victims(st))
  }

  // ----- The exported operations, one atomic step each -----

  function Grown(st: State, key: string): (r: State)
    requires Wf(st) && key !in st.cache
    ensures Wf(r)
  {
    st.(keys := st.keys + [key],
        cache := st.cache[key := |st.entries|],
        entries := st.entries + [FRESH_ENTRY])
  }

  /** The state after entryFor(key), and the entry it returns. */
  function EntryFor(st: State, key: string): (r: (State, EntryId))
    requires Wf(st)
    ensures Wf(r.0) && r.1 < |r.0.entries|
  {
    if key in st.cache then (st, st.cache[key])
    else (EvictIfNeeded(Grown(st, key)), |st.entries|)
  }

  function Notify(e: EntryState): EntryState { e.(v := e.v + 1) }

  function Put(st: State, id: EntryId, e: EntryState): (r: State)
    requires Wf(st) && id < |st.entries|
    requires e.controller.Some? ==> e.controller.value < |st.runs|
    ensures Wf(r)
  {
    st.(entries := st.entries[id := e])
  }

  function WriteEntry(st: State, key: string, data: Data, now: nat): (r: State)
    requires Wf(st)
    ensures Wf(r)
  {
    var (s, id) := EntryFor(st, key);
    Put(s, id, Notify(s.entries[id].(data := data, at := now, error := None, status := None)))
  }

  /** Calls the fetcher and registers its run in the entry, unless there is one in flight. */
  function StartRun(st: State, id: EntryId, fetcher: Fetcher): (r: State)
    requires Wf(st) && id < |st.entries|
    ensures Wf(r)
  {
    if st.entries[id].inflight.Some? then st
    else
      var run := |st.runs|;
      Put(st.(runs := st.runs + [RunState(id, fetcher, false, false)]), id,
          Notify(st.entries[id].(inflight := Some(run), controller := Some(run))))
  }

  function Revalidate(st: State, key: string, fn: Option<Fetcher>): (r: State)
    requires Wf(st)
    ensures Wf(r)
  {
    var (s, id) := EntryFor(st, key);
    var fetcher := if fn.Some? then fn else s.entries[id].fetcher;
    if fetcher.None? then s else StartRun(s, id, fetcher.value)
  }

  /** What the code between `await` and `finally` writes to the entry. */
  function Received(e: EntryState, outcome: Outcome, now: nat): EntryState {
    match outcome
    case Resolved(Ok(data)) => e.(data := data, error := None, status := None, at := now)
    case Resolved(Failed(error, status)) => e.(error := Some(error), status := status)
    case Rejected => e.(error := Some("Request failed"))
  }

  /** What the whole continuation of run `run` makes of its entry. */
  function SettledEntry(e: EntryState, run: RunId, aborted: bool, outcome: Outcome, now: nat): EntryState {
    var e' := if aborted then e else Received(e, outcome, now);
    if e'.inflight == Some(run) then Notify(e'.(inflight := None, controller := None)) else e'
  }

  /** The continuation of a run after its fetcher's promise ends. */
  function Settle(st: State, run: RunId, outcome: Outcome, now: nat): (r: State)
    requires Wf(st) && run < |st.runs| && !st.runs[run].settled
    ensures Wf(r)
  {
    var id := st.runs[run].entry;
    Put(st, id, SettledEntry(st.entries[id], run, st.runs[run].aborted, outcome, now))
      .(runs := st.runs[run := st.runs[run].(settled := true)])
  }

  function AddSubscriber(st: State, id: EntryId, listener: Listener): (r: State)
    requires Wf(st) && id < |st.entries|
    ensures Wf(r)
  {
    var e := st.entries[id];
    Put(st, id, e.(listeners := e.listeners + {listener}, subscribers := e.subscribers + 1))
      .(subs := st.subs + [Subscription(id, listener, true)])
  }

  function Subscribe(st: State, key: string, listener: Listener): (r: State)
    requires Wf(st)
    ensures Wf(r)
  {
    var (s, id) := EntryFor(st, key);
    AddSubscriber(s, id, listener)
  }

  /** The function returned by subscribeKey; each is called once. */
  function Unsubscribe(st: State, sub: nat): (r: State)
    requires Wf(st) && sub < |st.subs| && st.subs[sub].live
    ensures Wf(r)
  {
    var id := st.subs[sub].entry;
    var e := st.entries[id];
    Put(st, id, e.(listeners := e.listeners - {st.subs[sub].listener}, subscribers := e.subscribers - 1))
      .(subs := st.subs[sub := st.subs[sub].(live := false)], timers := st.timers + [Timer(id, false)])
  }

  /** The deferred abort. */
  function FireTimer(st: State, timer: nat): (r: State)
    requires Wf(st) && timer < |st.timers| && !st.timers[timer].fired
    ensures Wf(r)
  {
    var id := st.timers[timer].entry;
    var e := st.entries[id];
    var s := st.(timers := st.timers[timer := st.timers[timer].(fired := true)]);
    if e.subscribers == 0 && e.controller.Some? then
      var run := e.controller.value;
      Put(s, id, e.(inflight := None, controller := None))
        .(runs := st.runs[run := st.runs[run].(aborted := true)])
    else s
  }

  predicate HasPrefix(key: string, prefix: string) {
    prefix <= key
  }

  /** One turn of invalidateApi's loop. */
  function InvalidateKey(st: State, key: string): (r: State)
    requires Wf(st) && key in st.cache
    ensures Wf(r) && r.cache == st.cache && r.keys == st.keys
  {
    var id := st.cache[key];
    var s := Put(st, id, st.entries[id].(at := 0));
    var s' := if s.entries[id].listeners != {} && s.entries[id].fetcher.Some? then Revalidate(s, key, None) else s;
    Put(s', id, Notify(s'.entries[id]))
  }

  function InvalidateKeys(st: State, ks: seq<string>, prefix: string): (r: State)
    requires Wf(st) && forall k :: k in ks ==> k in st.cache
    ensures Wf(r) && r.cache == st.cache && r.keys == st.keys
    decreases |ks|
  {
    if ks == [] then st
    else InvalidateKeys(if HasPrefix(ks[0], prefix) then InvalidateKey(st, ks[0]) else st, ks[1..], prefix)
  }

  function Invalidate(st: State, prefix: string): (r: State)
    requires Wf(st)
    ensures Wf(r)
  {
    InvalidateKeys(st, st.keys, prefix)
  }

  /** The hook's effect `entryFor(key).fetcher = fn`. */
  function SetFetcher(st: State, key: string, fn: Fetcher): (r: State)
    requires Wf(st)
    ensures Wf(r)
  {
    var (s, id) := EntryFor(st, key);
    Put(s, id, s.entries[id].(fetcher := Some(fn)))
  }

  predicate IsFresh(st: State, key: string, ttlMs: int, now: nat)
    requires Wf(st)
  {
    key in st.cache && st.entries[st.cache[key]].at > 0 && now - st.entries[st.cache[key]].at < ttlMs
  }

  // ----- The step system -----

  datatype Label =
    | DoEntryFor(key: string)
    | DoWrite(key: string, data: Data, now: nat)
    | DoRevalidate(key: string, fn: Option<Fetcher>)
    | DoSettle(run: RunId, outcome: Outcome, now: nat)
    | DoSubscribe(key: string, listener: Listener)
    | DoUnsubscribe(sub: nat)
    | DoFireTimer(timer: nat)
    | DoInvalidate(prefix: string)
    | DoSetFetcher(key: string, fetcher: Fetcher)

  predicate Enabled(st: State, l: Label) {
    match l
    case DoSettle(run, _, _) => run < |st.runs| && !st.runs[run].settled
    case DoUnsubscribe(sub) => sub < |st.subs| && st.subs[sub].live
    case DoFireTimer(timer) => timer < |st.timers| && !st.timers[timer].fired
    case _ => true
  }

  function Step(st: State, l: Label): (r: State)
    requires Wf(st) && Enabled(st, l)
    ensures Wf(r)
  {
    match l
    case DoEntryFor(key) => EntryFor(st, key).0
    case DoWrite(key, data, now) => WriteEntry(st, key, data, now)
    case DoRevalidate(key, fn) => Revalidate(st, key, fn)
    case DoSettle(run, outcome, now) => Settle(st, run, outcome, now)
    case DoSubscribe(key, listener) => Subscribe(st, key, listener)
    case DoUnsubscribe(sub) => Unsubscribe(st, sub)
    case DoFireTimer(timer) => FireTimer(st, timer)
    case DoInvalidate(prefix) => Invalidate(st, prefix)
    case DoSetFetcher(key, fetcher) => SetFetcher(st, key, fetcher)
  }
}
