/** A component that leaves and comes back at once never loses its fetch. */
module ApiCacheRemount {
  import opened Wrappers
  import opened Runs
  import opened ApiCacheModel
  import opened ApiCacheInvariant
  import opened ApiCacheEviction
  import opened ApiCacheTraces

  lemma AddSubscriberCounts(s: State, id: EntryId, listener: Listener, e: EntryId)
    requires Wf(s) && id < |s.entries| && e < |s.entries|
    ensures var x, y := s.entries[e], AddSubscriber(s, id, listener).entries[e];
      && y.subscribers == x.subscribers + (if id == e then 1 else 0)
      && y.inflight == x.inflight && y.controller == x.controller
  {
  }

  /** After a new subscription to `key`, entry `e` has one subscriber more exactly when it is the cached one. */
  lemma SubscribeCounts(s: State, key: string, listener: Listener, e: EntryId)
    requires Wf(s) && e < |s.entries|
    ensures var r := Subscribe(s, key, listener);
      && e < |r.entries| && r.runs == s.runs && r.timers == s.timers
      && r.entries[e].subscribers
         == s.entries[e].subscribers + (if key in s.cache && s.cache[key] == e then 1 else 0)
      && r.entries[e].inflight == s.entries[e].inflight && r.entries[e].controller == s.entries[e].controller
  {
    EntryForEffect(s, key, e);
    AddSubscriberCounts(EntryFor(s, key).0, EntryFor(s, key).1, listener, e);
  }

  /** The timer leaves the fetch alone exactly when somebody listens or nothing is in flight. */
  lemma TimerKeepsFetchIff(st: State, timer: nat)
    requires Wf(st) && timer < |st.timers| && !st.timers[timer].fired
    requires var x := st.entries[st.timers[timer].entry];
      x.inflight == x.controller && (x.inflight.Some? ==> !st.runs[x.inflight.value].aborted)
    ensures var e := st.timers[timer].entry; var r := FireTimer(st, timer);
      (r.runs == st.runs && r.entries[e].inflight == st.entries[e].inflight)
      <==> st.entries[e].subscribers != 0 || st.entries[e].inflight.None?
  {
  }

  /** The state after leaving, subscribing to `key`, and the deferred abort of the leave. */
  function Remounted(st: State, key: string, sub: nat, listener: Listener): State
    requires Wf(st) && sub < |st.subs| && st.subs[sub].live
  {
    var s := Unsubscribe(st, sub);
    SubscribeCounts(s, key, listener, st.subs[sub].entry);
    FireTimer(Subscribe(s, key, listener), |st.timers|)
  }

  /** No run is aborted, and the subscription's entry has the same fetch in flight. */
  ghost predicate FetchGoesOn(st: State, key: string, sub: nat, listener: Listener)
    requires Wf(st) && sub < |st.subs| && st.subs[sub].live
  {
    var r, e := Remounted(st, key, sub, listener), st.subs[sub].entry;
    r.runs == st.runs && EntryAt(r, e).inflight == EntryAt(st, e).inflight
  }

  /**
   * In any single state: leaving and subscribing to `key` before the deferred abort runs keeps the fetch, if
   * and only if the entry is the cached one of `key`, somebody else listens, or there was no fetch.
   */
  lemma RemountKeepsFetchIff(st: State, key: string, sub: nat, listener: Listener)
    requires Inv(st) && sub < |st.subs| && st.subs[sub].live
    ensures var e := st.subs[sub].entry;
      FetchGoesOn(st, key, sub, listener)
      <==> (key in st.cache && st.cache[key] == e) || st.entries[e].subscribers > 1 || st.entries[e].inflight.None?
  {
    var e, s := st.subs[sub].entry, Unsubscribe(st, sub);
    UnsubscribeInv(st, sub);
    SubscribeCounts(s, key, listener, e);
    TimerKeepsFetchIff(Subscribe(s, key, listener), |st.timers|);
  }

  // ----- Where an entry stays -----

  predicate IsCachedAs(st: State, key: string, e: EntryId) { key in st.cache && st.cache[key] == e }

  /** No key leads to the entry any more, and nobody listens to it or nothing is in flight in it. */
  ghost predicate IsLoose(st: State, e: EntryId) {
    && (forall k :: k in st.cache ==> st.cache[k] != e)
    && (LiveSubs(st.subs, e) == {} || EntryAt(st, e).inflight.None?)
  }

  ghost predicate Placed(st: State, key: string, e: EntryId) { IsCachedAs(st, key, e) || IsLoose(st, e) }

  /** What eviction drops has no subscription, and its entry has no other key. */
  lemma DroppedIsLoose(st: State, key: string)
    requires Inv(st) && key in st.cache && key !in EvictIfNeeded(st).cache
    ensures LiveSubs(st.subs, st.cache[key]) == {}
    ensures forall k :: k in st.cache && st.cache[k] == st.cache[key] ==> k == key
  {
    var e := st.cache[key];
    assert key in Victims(st) && st.entries[e].subscribers == 0;
    assert st.entries[e].subscribers == |LiveSubs(st.subs, e)|;
  }

  lemma EvictionPlaces(st: State, key: string, e: EntryId)
    requires Inv(st) && e < |st.entries| && Placed(st, key, e)
    ensures Placed(EvictIfNeeded(st), key, e)
  {
    EvictionKeepsRest(st);
    EvictionKeepsMap(st);
    if IsCachedAs(st, key, e) && key !in EvictIfNeeded(st).cache { DroppedIsLoose(st, key); }
  }

  lemma GrownPlaces(st: State, k: string, key: string, e: EntryId)
    requires Wf(st) && k !in st.cache && e < |st.entries| && Placed(st, key, e)
    ensures Placed(Grown(st, k), key, e)
  {
  }

  /** Whichever key is asked for, the entry stays placed, and is handed out only under its own key. */
  lemma EntryForPlaces(st: State, k: string, key: string, e: EntryId)
    requires Inv(st) && e < |st.entries| && Placed(st, key, e)
    ensures var (s, id) := EntryFor(st, k); Placed(s, key, e) && (id == e ==> IsCachedAs(s, key, e))
  {
    if k !in st.cache {
      GrownInv(st, k);
      GrownPlaces(st, k, key, e);
      EvictionPlaces(Grown(st, k), key, e);
    }
  }

  /** The entry stays placed while the map does, if it stays quiet or was cached. */
  lemma SameMapPlaces(s: State, next: State, key: string, e: EntryId)
    requires Placed(s, key, e) && next.cache == s.cache
    requires IsCachedAs(s, key, e)
      || (LiveSubs(next.subs, e) <= LiveSubs(s.subs, e)
          && (EntryAt(next, e).inflight == EntryAt(s, e).inflight || EntryAt(next, e).inflight.None?))
    ensures Placed(next, key, e)
  {
  }

  lemma AddSubscriberPlaces(s: State, id: EntryId, listener: Listener, key: string, e: EntryId)
    requires Wf(s) && id < |s.entries| && e < |s.entries| && Placed(s, key, e) && (id == e ==> IsCachedAs(s, key, e))
    ensures Placed(AddSubscriber(s, id, listener), key, e)
  {
    var r := AddSubscriber(s, id, listener);
    if id != e {
      AddSubscriberCounts(s, id, listener, e);
      assert LiveSubs(r.subs, e) == LiveSubs(s.subs, e);
    }
  }

  lemma StartRunPlaces(s: State, id: EntryId, fetcher: Fetcher, key: string, e: EntryId)
    requires Wf(s) && id < |s.entries| && e < |s.entries| && Placed(s, key, e) && (id == e ==> IsCachedAs(s, key, e))
    ensures Placed(StartRun(s, id, fetcher), key, e)
  {
  }

  lemma SubscribePlacesOther(st: State, k: string, listener: Listener, key: string, e: EntryId)
    requires Inv(st) && e < |st.entries| && Placed(st, key, e)
    ensures Placed(Subscribe(st, k, listener), key, e)
  {
    EntryForPlaces(st, k, key, e);
    EntryForEffect(st, k, e);
    AddSubscriberPlaces(EntryFor(st, k).0, EntryFor(st, k).1, listener, key, e);
  }

  lemma RevalidatePlaces(st: State, k: string, fn: Option<Fetcher>, key: string, e: EntryId)
    requires Inv(st) && e < |st.entries| && Placed(st, key, e)
    ensures Placed(Revalidate(st, k, fn), key, e)
  {
    EntryForPlaces(st, k, key, e);
    EntryForEffect(st, k, e);
    var (s, id) := EntryFor(st, k);
    var fetcher := if fn.Some? then fn else s.entries[id].fetcher;
    if fetcher.Some? { StartRunPlaces(s, id, fetcher.value, key, e); }
  }

  lemma PutPlaces(s: State, id: EntryId, x: EntryState, key: string, e: EntryId)
    requires Wf(s) && id < |s.entries| && Placed(s, key, e)
    requires x.controller == s.entries[id].controller && x.inflight == s.entries[id].inflight
    requires x.controller.Some? ==> x.controller.value < |s.runs|
    ensures Placed(Put(s, id, x), key, e)
  {
    SameMapPlaces(s, Put(s, id, x), key, e);
  }

  lemma WritePlaces(st: State, k: string, data: Data, now: nat, key: string, e: EntryId)
    requires Inv(st) && e < |st.entries| && Placed(st, key, e)
    ensures Placed(WriteEntry(st, k, data, now), key, e)
  {
    EntryForPlaces(st, k, key, e);
    var (s, id) := EntryFor(st, k);
    PutPlaces(s, id, Notify(s.entries[id].(data := data, at := now, error := None, status := None)), key, e);
  }

  lemma SetFetcherPlaces(st: State, k: string, fetcher: Fetcher, key: string, e: EntryId)
    requires Inv(st) && e < |st.entries| && Placed(st, key, e)
    ensures Placed(SetFetcher(st, k, fetcher), key, e)
  {
    EntryForPlaces(st, k, key, e);
    var (s, id) := EntryFor(st, k);
    PutPlaces(s, id, s.entries[id].(fetcher := Some(fetcher)), key, e);
  }

  lemma SettlePlaces(st: State, run: RunId, outcome: Outcome, now: nat, key: string, e: EntryId)
    requires Wf(st) && run < |st.runs| && !st.runs[run].settled && Placed(st, key, e)
    ensures Placed(Settle(st, run, outcome, now), key, e)
  {
    SameMapPlaces(st, Settle(st, run, outcome, now), key, e);
  }

  lemma UnsubscribePlaces(st: State, sub: nat, key: string, e: EntryId)
    requires Wf(st) && sub < |st.subs| && st.subs[sub].live && Placed(st, key, e)
    ensures Placed(Unsubscribe(st, sub), key, e)
  {
    SameMapPlaces(st, Unsubscribe(st, sub), key, e);
  }

  lemma FireTimerPlaces(st: State, timer: nat, key: string, e: EntryId)
    requires Wf(st) && timer < |st.timers| && !st.timers[timer].fired && Placed(st, key, e)
    ensures Placed(FireTimer(st, timer), key, e)
  {
    SameMapPlaces(st, FireTimer(st, timer), key, e);
  }

  lemma InvalidateKeySubs(st: State, key: string)
    requires Wf(st) && key in st.cache
    ensures InvalidateKey(st, key).subs == st.subs
  {
  }

  lemma {:induction false} InvalidateSubs(st: State, ks: seq<string>, prefix: string)
    requires Wf(st) && forall k :: k in ks ==> k in st.cache
    ensures InvalidateKeys(st, ks, prefix).subs == st.subs
    decreases |ks|
  {
    if ks != [] {
      if HasPrefix(ks[0], prefix) { InvalidateKeySubs(st, ks[0]); }
      InvalidateSubs(if HasPrefix(ks[0], prefix) then InvalidateKey(st, ks[0]) else st, ks[1..], prefix);
    }
  }

  lemma InvalidatePlaces(st: State, prefix: string, key: string, e: EntryId)
    requires Inv(st) && Placed(st, key, e)
    ensures Placed(Invalidate(st, prefix), key, e)
  {
    InvalidateSubs(st, st.keys, prefix);
    InvalidateEffect(st, st.keys, prefix, e);
    if IsLoose(st, e) { assert !Covered(st, st.keys, prefix, e); }
    SameMapPlaces(st, Invalidate(st, prefix), key, e);
  }

  lemma StepKeepsPlaced(st: State, l: Label, key: string, e: EntryId)
    requires Inv(st) && Enabled(st, l) && e < |st.entries| && Placed(st, key, e)
    ensures Placed(Step(st, l), key, e)
  {
    match l
    case DoEntryFor(k) => EntryForPlaces(st, k, key, e);
    case DoWrite(k, data, now) => WritePlaces(st, k, data, now, key, e);
    case DoRevalidate(k, fn) => RevalidatePlaces(st, k, fn, key, e);
    case DoSettle(run, outcome, now) => SettlePlaces(st, run, outcome, now, key, e);
    case DoSubscribe(k, listener) => SubscribePlacesOther(st, k, listener, key, e);
    case DoUnsubscribe(sub) => UnsubscribePlaces(st, sub, key, e);
    case DoFireTimer(timer) => FireTimerPlaces(st, timer, key, e);
    case DoInvalidate(prefix) => InvalidatePlaces(st, prefix, key, e);
    case DoSetFetcher(k, fetcher) => SetFetcherPlaces(st, k, fetcher, key, e);
  }

  /** Right after entryFor, the entry is cached, or it was lost at its creation and nothing is in flight. */
  lemma EntryForPlacesItsOwn(st: State, key: string)
    requires Inv(st)
    ensures var (s, e) := EntryFor(st, key);
      IsCachedAs(s, key, e)
      || ((forall k :: k in s.cache ==> s.cache[k] != e) && e < |s.entries| && s.entries[e].inflight.None?)
  {
    if key !in st.cache {
      var g := Grown(st, key);
      EvictionKeepsRest(g);
      EvictionKeepsMap(g);
    }
  }

  /** A new subscription finds its entry placed. */
  lemma SubscribePlaces(st: State, key: string, listener: Listener)
    requires Inv(st)
    ensures var r, e := Subscribe(st, key, listener), EntryFor(st, key).1;
      && e < |r.entries| && Placed(r, key, e)
      && |r.subs| == |st.subs| + 1 && r.subs[|st.subs|] == Subscription(e, listener, true)
  {
    var (s, e) := EntryFor(st, key);
    EntryForEffect(st, key, e);
    EntryForPlacesItsOwn(st, key);
    NewSubscription(s, key, e, listener);
  }

  lemma NewSubscription(s: State, key: string, e: EntryId, listener: Listener)
    requires Wf(s) && e < |s.entries|
    requires IsCachedAs(s, key, e)
      || ((forall k :: k in s.cache ==> s.cache[k] != e) && s.entries[e].inflight.None?)
    ensures var r := AddSubscriber(s, e, listener);
      && e < |r.entries| && Placed(r, key, e)
      && |r.subs| == |s.subs| + 1 && r.subs[|s.subs|] == Subscription(e, listener, true)
  {
    AddSubscriberCounts(s, e, listener, e);
  }

  // ----- Over whole runs -----

  lemma SubsStay(st: State, l: Label, sub: nat)
    requires Wf(st) && Enabled(st, l) && sub < |st.subs|
    ensures sub < |Step(st, l).subs| && Step(st, l).subs[sub].entry == st.subs[sub].entry
  {
    match l
    case DoInvalidate(prefix) => InvalidateSubs(st, st.keys, prefix);
    case DoEntryFor(key) => EntryForEffect(st, key, 0);
    case DoWrite(key, _, _) => EntryForEffect(st, key, 0);
    case DoRevalidate(key, _) => EntryForEffect(st, key, 0);
    case DoSubscribe(key, _) => EntryForEffect(st, key, 0);
    case DoSetFetcher(key, _) => EntryForEffect(st, key, 0);
    case _ =>
  }

  lemma InvalidateEntries(st: State, prefix: string)
    requires Inv(st)
    ensures |Invalidate(st, prefix).entries| == |st.entries|
  {
    InvalidateEffect(st, st.keys, prefix, 0);
  }

  lemma AskingKeepsEntries(st: State, key: string, data: Data, now: nat, listener: Listener, fetcher: Fetcher)
    requires Wf(st)
    ensures |st.entries| <= |EntryFor(st, key).0.entries|
    ensures |st.entries| <= |WriteEntry(st, key, data, now).entries|
    ensures |st.entries| <= |Subscribe(st, key, listener).entries|
    ensures |st.entries| <= |SetFetcher(st, key, fetcher).entries|
  {
    EntryForEffect(st, key, 0);
  }

  lemma RevalidateKeepsEntries(st: State, key: string, fn: Option<Fetcher>)
    requires Wf(st)
    ensures |st.entries| <= |Revalidate(st, key, fn).entries|
  {
    EntryForEffect(st, key, 0);
  }

  lemma EntriesStay(st: State, l: Label)
    requires Inv(st) && Enabled(st, l)
    ensures |st.entries| <= |Step(st, l).entries|
  {
    match l
    case DoInvalidate(prefix) => InvalidateEntries(st, prefix);
    case DoEntryFor(key) => AskingKeepsEntries(st, key, Undefined, 0, 0, 0);
    case DoWrite(key, data, now) => AskingKeepsEntries(st, key, data, now, 0, 0);
    case DoRevalidate(key, fn) => RevalidateKeepsEntries(st, key, fn);
    case DoSubscribe(key, listener) => AskingKeepsEntries(st, key, Undefined, 0, listener, 0);
    case DoSetFetcher(key, fetcher) => AskingKeepsEntries(st, key, Undefined, 0, 0, fetcher);
    case _ =>
  }

  /** From a subscription on, its entry is there, is the subscription's, and stays placed. */
  ghost predicate Settled(st: State, key: string, e: EntryId, sub: nat) {
    e < |st.entries| && sub < |st.subs| && st.subs[sub].entry == e && Placed(st, key, e)
  }

  lemma SubscribeSettles(st: State, key: string, listener: Listener, next: State)
    requires Inv(st) && IsStep(st, DoSubscribe(key, listener), next)
    ensures Settled(next, key, EntryFor(st, key).1, |st.subs|)
  {
    SubscribePlaces(st, key, listener);
  }

  lemma StepKeepsSettled(st: State, l: Label, next: State, key: string, e: EntryId, sub: nat)
    requires Inv(st) && IsStep(st, l, next) && Settled(st, key, e, sub)
    ensures Settled(next, key, e, sub)
  {
    StepKeepsPlaced(st, l, key, e);
    SubsStay(st, l, sub);
    EntriesStay(st, l);
  }

  lemma StaysSettled(
    states: seq<State>, labels: seq<Label>, i: nat, n: nat, key: string, e: EntryId, sub: nat)
    requires IsTrace(states, labels) && i <= n <= |labels| && Inv(states[i]) && Settled(states[i], key, e, sub)
    ensures Inv(states[n]) && Settled(states[n], key, e, sub)
  {
    forall st, l, next | Inv(st) && Settled(st, key, e, sub) && IsStep(st, l, next)
      ensures Inv(next) && Settled(next, key, e, sub)
    {
      StepKeepsInv(st, l);
      StepKeepsSettled(st, l, next, key, e, sub);
    }
    KeptFrom((st, l, next) => IsStep(st, l, next), st => Inv(st) && Settled(st, key, e, sub), INITIAL,
             states, labels, i, n);
  }

  lemma ListenedIsCached(st: State, key: string, sub: nat)
    requires Wf(st) && sub < |st.subs| && st.subs[sub].live && Placed(st, key, st.subs[sub].entry)
    ensures var e := st.subs[sub].entry; IsCachedAs(st, key, e) || st.entries[e].inflight.None?
  {
    assert sub in LiveSubs(st.subs, st.subs[sub].entry);
  }

  /** An entry that is listened to while its fetch runs is the cached one of its key. */
  lemma PlacedRemount(st: State, key: string, sub: nat, listener: Listener)
    requires Inv(st) && sub < |st.subs| && st.subs[sub].live && Placed(st, key, st.subs[sub].entry)
    ensures FetchGoesOn(st, key, sub, listener)
  {
    ListenedIsCached(st, key, sub);
    RemountKeepsFetchIff(st, key, sub, listener);
  }

  /**
   * On every run, whenever a subscription to `key` ends and the component subscribes to `key` again before the
   * deferred abort runs, the fetch in flight goes on.
   */
  lemma RemountKeepsFetch(
    states: seq<State>, labels: seq<Label>, i: nat, n: nat, key: string, first: Listener, again: Listener)
    requires IsTrace(states, labels) && i < n <= |labels| && labels[i] == DoSubscribe(key, first)
    requires var sub := |states[i].subs|; sub < |states[n].subs| ==> states[n].subs[sub].live
    ensures Inv(states[n]) && |states[i].subs| < |states[n].subs|
    ensures FetchGoesOn(states[n], key, |states[i].subs|, again)
  {
    var e, sub := SubscriptionStays(states, labels, i, n, key, first);
    PlacedRemount(states[n], key, sub, again);
  }

  lemma SubscriptionStays(
    states: seq<State>, labels: seq<Label>, i: nat, n: nat, key: string, listener: Listener)
    returns (e: EntryId, sub: nat)
    requires IsTrace(states, labels) && i < n <= |labels| && labels[i] == DoSubscribe(key, listener)
    ensures Inv(states[n]) && Settled(states[n], key, e, sub) && sub == |states[i].subs|
  {
    FirstSettled(states, labels, i, key, listener);
    e, sub := EntryFor(states[i], key).1, |states[i].subs|;
    StaysSettled(states, labels, i + 1, n, key, e, sub);
  }

  lemma FirstSettled(states: seq<State>, labels: seq<Label>, i: nat, key: string, listener: Listener)
    requires IsTrace(states, labels) && i < |labels| && labels[i] == DoSubscribe(key, listener)
    ensures Wf(states[i]) && Inv(states[i + 1])
    ensures Settled(states[i + 1], key, EntryFor(states[i], key).1, |states[i].subs|)
  {
    StepAt(states, labels, i);
    InvariantHolds(states, labels, i);
    InvariantHolds(states, labels, i + 1);
    SubscribeSettles(states[i], key, listener, states[i + 1]);
  }
}
