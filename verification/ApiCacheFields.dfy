/** A value that steps set now and then has, at each moment, what it was set to last. */
module Latest {
  import opened Wrappers

  ghost predicate IsSetAlong<T>(vals: seq<T>, sets: seq<Option<T>>) {
    |vals| == |sets| + 1 && forall i :: 0 <= i < |sets| ==> Becomes(vals[i], vals[i + 1], sets[i])
  }

  predicate Becomes<T(==)>(x: T, y: T, set_: Option<T>) { y == if set_.Some? then set_.value else x }

  ghost predicate NotSet<T>(sets: seq<Option<T>>, i: nat, n: nat)
    requires n <= |sets|
  {
    forall j :: i <= j < n ==> sets[j].None?
  }

  lemma {:induction false} Stays<T>(vals: seq<T>, sets: seq<Option<T>>, i: nat, n: nat)
    requires IsSetAlong(vals, sets) && i <= n <= |sets| && NotSet(sets, i, n)
    ensures vals[n] == vals[i]
    decreases n
  {
    if i < n {
      Stays(vals, sets, i, n - 1);
      assert Becomes(vals[n - 1], vals[n - 1 + 1], sets[n - 1]);
    }
  }

  lemma LatestWins<T>(vals: seq<T>, sets: seq<Option<T>>, i: nat, n: nat)
    requires IsSetAlong(vals, sets) && i < n <= |sets| && sets[i].Some? && NotSet(sets, i + 1, n)
    ensures vals[n] == sets[i].value
  {
    assert Becomes(vals[i], vals[i + 1], sets[i]);
    Stays(vals, sets, i + 1, n);
  }
}

/** Over every run: error, status, fetcher, listeners and flight of an entry are as its steps left them last. */
module ApiCacheFields {
  import opened Wrappers
  import opened Latest
  import opened Runs
  import opened ApiCacheModel
  import opened ApiCacheInvariant
  import opened ApiCacheTraces

  // ----- What a step sets in entry `e`, told by its label -----

  /** The entry cached under the key, or else the next one to be made. */
  function EntryOf(st: State, key: string): EntryId { if key in st.cache then st.cache[key] else |st.entries| }

  /** A write or a success clears the error, a failure says its own, and a rejection a fixed one. */
  ghost function ErrorSet(st: State, l: Label, e: EntryId): Option<Option<string>>
    requires Wf(st) && Enabled(st, l)
  {
    match l
    case DoWrite(key, _, _) => if EntryOf(st, key) == e then Some(None) else None
    case DoSettle(run, outcome, _) =>
      if st.runs[run].entry != e || st.runs[run].aborted then None
      else (
        match outcome
        case Resolved(Ok(_)) => Some(None)
        case Resolved(Failed(error, _)) => Some(Some(error))
        case Rejected => Some(Some("Request failed")))
    case _ => None
  }

  /** Likewise for the status, which a rejection leaves alone. */
  ghost function StatusSet(st: State, l: Label, e: EntryId): Option<Option<int>>
    requires Wf(st) && Enabled(st, l)
  {
    match l
    case DoWrite(key, _, _) => if EntryOf(st, key) == e then Some(None) else None
    case DoSettle(run, outcome, _) =>
      if st.runs[run].entry != e || st.runs[run].aborted then None
      else (
        match outcome
        case Resolved(Ok(_)) => Some(None)
        case Resolved(Failed(_, status)) => Some(status)
        case Rejected => None)
    case _ => None
  }

  ghost function FetcherSet(st: State, l: Label, e: EntryId): Option<Option<Fetcher>>
    requires Wf(st) && Enabled(st, l)
  {
    match l
    case DoSetFetcher(key, fetcher) => if EntryOf(st, key) == e then Some(Some(fetcher)) else None
    case _ => None
  }

  /** Whether the listener is registered: subscribing says yes, and ending a subscription no. */
  ghost function HeardSet(st: State, l: Label, e: EntryId, listener: Listener): Option<bool>
    requires Wf(st) && Enabled(st, l)
  {
    match l
    case DoSubscribe(key, other) => if EntryOf(st, key) == e && other == listener then Some(true) else None
    case DoUnsubscribe(sub) =>
      if st.subs[sub].entry == e && st.subs[sub].listener == listener then Some(false) else None
    case _ => None
  }

  /** Whether a fetch is in flight. */
  ghost function FetchingSet(st: State, l: Label, e: EntryId): Option<bool>
    requires Wf(st) && Enabled(st, l)
  {
    match l
    case DoRevalidate(key, fn) =>
      if EntryOf(st, key) == e && (fn.Some? || EntryAt(st, e).fetcher.Some?) then Some(true) else None
    case DoInvalidate(prefix) =>
      var x := EntryAt(st, e);
      if Covered(st, st.keys, prefix, e) && x.listeners != {} && x.fetcher.Some? then Some(true) else None
    case DoSettle(run, _, _) => if st.runs[run].entry == e && !st.runs[run].aborted then Some(false) else None
    case DoFireTimer(timer) =>
      if st.timers[timer].entry == e && LiveSubs(st.subs, e) == {} then Some(false) else None
    case _ => None
  }

  /** `y` is `x` with these fields set, in which `heard` is about the one listener. */
  ghost predicate Set(
    x: EntryState, y: EntryState, listener: Listener, error: Option<Option<string>>, status: Option<Option<int>>,
    fetcher: Option<Option<Fetcher>>, heard: Option<bool>, fetching: Option<bool>)
  {
    && Becomes(x.error, y.error, error)
    && Becomes(x.status, y.status, status)
    && Becomes(x.fetcher, y.fetcher, fetcher)
    && Becomes(listener in x.listeners, listener in y.listeners, heard)
    && Becomes(x.inflight.Some?, y.inflight.Some?, fetching)
  }

  ghost predicate Sets(st: State, l: Label, e: EntryId, listener: Listener, y: EntryState)
    requires Wf(st) && Enabled(st, l)
  {
    Set(EntryAt(st, e), y, listener, ErrorSet(st, l, e), StatusSet(st, l, e), FetcherSet(st, l, e),
        HeardSet(st, l, e, listener), FetchingSet(st, l, e))
  }

  // ----- Single steps -----

  /** All these fields are as before, except that a fetch may have begun. */
  predicate SameBut(x: EntryState, y: EntryState, fetching: bool) {
    && y.error == x.error && y.status == x.status && y.fetcher == x.fetcher && y.listeners == x.listeners
    && (y.inflight.Some? <==> x.inflight.Some? || fetching)
  }

  lemma EntryForIs(st: State, key: string, e: EntryId)
    requires Wf(st)
    ensures EntryFor(st, key).1 == EntryOf(st, key) && EntryAt(EntryFor(st, key).0, e) == EntryAt(st, e)
  {
    EntryForEffect(st, key, e);
  }

  lemma StartRunSets(s: State, id: EntryId, fetcher: Fetcher, e: EntryId)
    requires Wf(s) && id < |s.entries|
    ensures SameBut(EntryAt(s, e), EntryAt(StartRun(s, id, fetcher), e), id == e)
  {
  }

  lemma RevalidateSets(st: State, key: string, fn: Option<Fetcher>, e: EntryId)
    requires Wf(st)
    ensures var starts := EntryOf(st, key) == e && (fn.Some? || EntryAt(st, e).fetcher.Some?);
            SameBut(EntryAt(st, e), EntryAt(Revalidate(st, key, fn), e), starts)
  {
    EntryForIs(st, key, e);
    var (s, id) := EntryFor(st, key);
    var fetcher := if fn.Some? then fn else s.entries[id].fetcher;
    if fetcher.Some? { StartRunSets(s, id, fetcher.value, e); }
  }

  predicate Watched(x: EntryState) { x.listeners != {} && x.fetcher.Some? }

  /** Putting back an entry with these fields unchanged. */
  lemma PutSets(s: State, id: EntryId, x: EntryState, e: EntryId)
    requires Wf(s) && id < |s.entries| && SameBut(s.entries[id], x, false)
    requires x.controller == s.entries[id].controller
    ensures SameBut(EntryAt(s, e), EntryAt(Put(s, id, x), e), false)
  {
  }

  lemma InvalidateKeySets(st: State, key: string, e: EntryId)
    requires Inv(st) && key in st.cache
    ensures var x := EntryAt(st, e);
            SameBut(x, EntryAt(InvalidateKey(st, key), e), st.cache[key] == e && Watched(x))
  {
    var id := st.cache[key];
    var s := Put(st, id, st.entries[id].(at := 0));
    PutSets(st, id, st.entries[id].(at := 0), e);
    RevalidateSets(s, key, None, e);
    var s' := if s.entries[id].listeners != {} && s.entries[id].fetcher.Some? then Revalidate(s, key, None) else s;
    PutSets(s', id, Notify(s'.entries[id]), e);
  }

  lemma {:induction false} InvalidateKeysSets(st: State, ks: seq<string>, prefix: string, e: EntryId)
    requires Inv(st) && forall k :: k in ks ==> k in st.cache
    ensures var x := EntryAt(st, e);
            SameBut(x, EntryAt(InvalidateKeys(st, ks, prefix), e), Covered(st, ks, prefix, e) && Watched(x))
    decreases |ks|
  {
    if ks != [] {
      var s := if HasPrefix(ks[0], prefix) then InvalidateKey(st, ks[0]) else st;
      if HasPrefix(ks[0], prefix) {
        InvalidateKeySets(st, ks[0], e);
        InvalidateKeyInv(st, ks[0]);
      }
      InvalidateKeysSets(s, ks[1..], prefix, e);
      assert Covered(st, ks, prefix, e) <==>
             (HasPrefix(ks[0], prefix) && st.cache[ks[0]] == e) || Covered(s, ks[1..], prefix, e);
    }
  }

  /** `s` is what entryFor made of the state: entry `e` as before. */
  lemma WriteSetsOn(s: State, id: EntryId, data: Data, now: nat, e: EntryId, listener: Listener)
    requires Wf(s) && id < |s.entries|
    ensures var written := s.entries[id].(data := data, at := now, error := None, status := None);
            var (error, status) := if id == e then (Some(None), Some(None)) else (None, None);
            Set(EntryAt(s, e), EntryAt(Put(s, id, Notify(written)), e), listener, error, status, None, None, None)
  {
  }

  lemma WriteLabel(st: State, key: string, data: Data, now: nat, e: EntryId, listener: Listener, y: EntryState)
    requires Wf(st)
    requires var id := EntryOf(st, key);
             var (error, status) := if id == e then (Some(None), Some(None)) else (None, None);
             Set(EntryAt(st, e), y, listener, error, status, None, None, None)
    ensures Sets(st, DoWrite(key, data, now), e, listener, y)
  {
  }

  lemma WriteSets(st: State, key: string, data: Data, now: nat, e: EntryId, listener: Listener)
    requires Inv(st)
    ensures Sets(st, DoWrite(key, data, now), e, listener, EntryAt(WriteEntry(st, key, data, now), e))
  {
    EntryForIs(st, key, e);
    WriteSetsOn(EntryFor(st, key).0, EntryFor(st, key).1, data, now, e, listener);
    WriteLabel(st, key, data, now, e, listener, EntryAt(WriteEntry(st, key, data, now), e));
  }

  lemma SettleSets(st: State, run: RunId, outcome: Outcome, now: nat, e: EntryId, listener: Listener)
    requires Inv(st) && run < |st.runs| && !st.runs[run].settled
    ensures Sets(st, DoSettle(run, outcome, now), e, listener, EntryAt(Settle(st, run, outcome, now), e))
  {
  }

  lemma AddSubscriberSets(s: State, id: EntryId, other: Listener, e: EntryId, listener: Listener)
    requires Wf(s) && id < |s.entries|
    ensures var heard := if id == e && other == listener then Some(true) else None;
            Set(EntryAt(s, e), EntryAt(AddSubscriber(s, id, other), e), listener, None, None, None, heard, None)
  {
  }

  lemma SubscribeLabel(st: State, key: string, other: Listener, e: EntryId, listener: Listener, y: EntryState)
    requires Wf(st)
    requires var id := EntryOf(st, key);
             Set(EntryAt(st, e), y, listener, None, None, None,
                 if id == e && other == listener then Some(true) else None, None)
    ensures Sets(st, DoSubscribe(key, other), e, listener, y)
  {
  }

  lemma SubscribeSets(st: State, key: string, other: Listener, e: EntryId, listener: Listener)
    requires Inv(st)
    ensures Sets(st, DoSubscribe(key, other), e, listener, EntryAt(Subscribe(st, key, other), e))
  {
    EntryForIs(st, key, e);
    AddSubscriberSets(EntryFor(st, key).0, EntryFor(st, key).1, other, e, listener);
    SubscribeLabel(st, key, other, e, listener, EntryAt(Subscribe(st, key, other), e));
  }

  lemma UnsubscribeSets(st: State, sub: nat, e: EntryId, listener: Listener)
    requires Inv(st) && sub < |st.subs| && st.subs[sub].live
    ensures Sets(st, DoUnsubscribe(sub), e, listener, EntryAt(Unsubscribe(st, sub), e))
  {
  }

  lemma FireTimerSets(st: State, timer: nat, e: EntryId, listener: Listener)
    requires Inv(st) && timer < |st.timers| && !st.timers[timer].fired
    ensures Sets(st, DoFireTimer(timer), e, listener, EntryAt(FireTimer(st, timer), e))
  {
    assert st.entries[st.timers[timer].entry].subscribers == |LiveSubs(st.subs, st.timers[timer].entry)|;
  }

  lemma PutFetcherSets(s: State, id: EntryId, fetcher: Fetcher, e: EntryId, listener: Listener)
    requires Wf(s) && id < |s.entries|
    ensures var y := EntryAt(Put(s, id, s.entries[id].(fetcher := Some(fetcher))), e);
            var set_ := if id == e then Some(Some(fetcher)) else None;
            Set(EntryAt(s, e), y, listener, None, None, set_, None, None)
  {
  }

  lemma SetFetcherLabel(st: State, key: string, fetcher: Fetcher, e: EntryId, listener: Listener, y: EntryState)
    requires Wf(st)
    requires var id := EntryOf(st, key);
             Set(EntryAt(st, e), y, listener, None, None, if id == e then Some(Some(fetcher)) else None,
                 None, None)
    ensures Sets(st, DoSetFetcher(key, fetcher), e, listener, y)
  {
  }

  lemma SetFetcherSets(st: State, key: string, fetcher: Fetcher, e: EntryId, listener: Listener)
    requires Inv(st)
    ensures Sets(st, DoSetFetcher(key, fetcher), e, listener, EntryAt(SetFetcher(st, key, fetcher), e))
  {
    EntryForIs(st, key, e);
    PutFetcherSets(EntryFor(st, key).0, EntryFor(st, key).1, fetcher, e, listener);
    SetFetcherLabel(st, key, fetcher, e, listener, EntryAt(SetFetcher(st, key, fetcher), e));
  }

  /** A step that sets none of these fields, but that a fetch may begin. */
  lemma SameButSets(st: State, l: Label, e: EntryId, listener: Listener, y: EntryState)
    requires Wf(st) && Enabled(st, l) && (l.DoRevalidate? || l.DoInvalidate? || l.DoEntryFor?)
    requires SameBut(EntryAt(st, e), y, FetchingSet(st, l, e).Some?)
    ensures Sets(st, l, e, listener, y)
  {
  }

  /** What one step sets, whatever it is. */
  lemma StepSets(st: State, l: Label, e: EntryId, listener: Listener)
    requires Inv(st) && Enabled(st, l)
    ensures Sets(st, l, e, listener, EntryAt(Step(st, l), e))
  {
    match l
    case DoWrite(key, data, now) => WriteSets(st, key, data, now, e, listener);
    case DoSettle(run, outcome, now) => SettleSets(st, run, outcome, now, e, listener);
    case DoSubscribe(key, other) => SubscribeSets(st, key, other, e, listener);
    case DoUnsubscribe(sub) => UnsubscribeSets(st, sub, e, listener);
    case DoFireTimer(timer) => FireTimerSets(st, timer, e, listener);
    case DoSetFetcher(key, fetcher) => SetFetcherSets(st, key, fetcher, e, listener);
    case DoEntryFor(key) =>
      EntryForIs(st, key, e);
      SameButSets(st, l, e, listener, EntryAt(st, e));
    case DoRevalidate(key, fn) =>
      RevalidateSets(st, key, fn, e);
      SameButSets(st, l, e, listener, EntryAt(Revalidate(st, key, fn), e));
    case DoInvalidate(prefix) =>
      InvalidateKeysSets(st, st.keys, prefix, e);
      SameButSets(st, l, e, listener, EntryAt(Invalidate(st, prefix), e));
  }

  // ----- Whole runs -----

  ghost function ErrorsSet(states: seq<State>, labels: seq<Label>, e: EntryId): seq<Option<Option<string>>>
    requires IsTrace(states, labels)
  {
    seq(|labels|, i requires 0 <= i < |labels| => ErrorSet(states[i], labels[i], e))
  }

  ghost function StatusesSet(states: seq<State>, labels: seq<Label>, e: EntryId): seq<Option<Option<int>>>
    requires IsTrace(states, labels)
  {
    seq(|labels|, i requires 0 <= i < |labels| => StatusSet(states[i], labels[i], e))
  }

  ghost function FetchersSet(states: seq<State>, labels: seq<Label>, e: EntryId): seq<Option<Option<Fetcher>>>
    requires IsTrace(states, labels)
  {
    seq(|labels|, i requires 0 <= i < |labels| => FetcherSet(states[i], labels[i], e))
  }

  ghost function HearingSet(
    states: seq<State>, labels: seq<Label>, e: EntryId, listener: Listener): seq<Option<bool>>
    requires IsTrace(states, labels)
  {
    seq(|labels|, i requires 0 <= i < |labels| => HeardSet(states[i], labels[i], e, listener))
  }

  ghost function FlightsSet(states: seq<State>, labels: seq<Label>, e: EntryId): seq<Option<bool>>
    requires IsTrace(states, labels)
  {
    seq(|labels|, i requires 0 <= i < |labels| => FetchingSet(states[i], labels[i], e))
  }

  /** The values of a field of the entry along the run. */
  ghost function Along<T>(states: seq<State>, e: EntryId, field: EntryState -> T): (r: seq<T>)
    ensures |r| == |states| && forall i :: 0 <= i < |r| ==> r[i] == field(EntryAt(states[i], e))
  {
    seq(|states|, i requires 0 <= i < |states| => field(EntryAt(states[i], e)))
  }

  lemma SetsAt(states: seq<State>, labels: seq<Label>, e: EntryId, listener: Listener, i: nat)
    requires IsTrace(states, labels) && i < |labels|
    ensures Sets(states[i], labels[i], e, listener, EntryAt(states[i + 1], e))
  {
    InvariantHolds(states, labels, i);
    StepAt(states, labels, i);
    StepSets(states[i], labels[i], e, listener);
  }

  /** Place `i` is the last before `n` at which something is set. */
  ghost predicate IsLast<T>(sets: seq<Option<T>>, i: nat, n: nat)
    requires n <= |sets|
  {
    i < n && sets[i].Some? && NotSet(sets, i + 1, n)
  }

  /** At moment `n` the value is the first one, if it was never set, and otherwise the one set last. */
  ghost predicate IsLatest<T(!new)>(value: T, first: T, sets: seq<Option<T>>, n: nat)
    requires n <= |sets|
  {
    && (NotSet(sets, 0, n) ==> value == first)
    && forall i :: 0 <= i < n && IsLast(sets, i, n) ==> value == sets[i].value
  }

  lemma SetAlongIsLatest<T(!new)>(vals: seq<T>, sets: seq<Option<T>>, n: nat)
    requires IsSetAlong(vals, sets) && n <= |sets|
    ensures IsLatest(vals[n], vals[0], sets, n)
  {
    if NotSet(sets, 0, n) { Stays(vals, sets, 0, n); }
    forall i: nat | i < n && IsLast(sets, i, n) ensures vals[n] == sets[i].value { LatestWins(vals, sets, i, n); }
  }

  /** The error is that of the last failure, unless a write or a success came after it. */
  lemma ErrorIsLatest(states: seq<State>, labels: seq<Label>, e: EntryId, n: nat)
    requires IsTrace(states, labels) && n < |states|
    ensures IsLatest(EntryAt(states[n], e).error, None, ErrorsSet(states, labels, e), n)
  {
    var vals, sets := Along(states, e, (x: EntryState) => x.error), ErrorsSet(states, labels, e);
    forall i | 0 <= i < |sets| ensures Becomes(vals[i], vals[i + 1], sets[i]) { SetsAt(states, labels, e, 0, i); }
    SetAlongIsLatest(vals, sets, n);
  }

  /** So is the status, which a rejection leaves as it was. */
  lemma StatusIsLatest(states: seq<State>, labels: seq<Label>, e: EntryId, n: nat)
    requires IsTrace(states, labels) && n < |states|
    ensures IsLatest(EntryAt(states[n], e).status, None, StatusesSet(states, labels, e), n)
  {
    var vals, sets := Along(states, e, (x: EntryState) => x.status), StatusesSet(states, labels, e);
    forall i | 0 <= i < |sets| ensures Becomes(vals[i], vals[i + 1], sets[i]) { SetsAt(states, labels, e, 0, i); }
    SetAlongIsLatest(vals, sets, n);
  }

  /** The fetcher is the latest mounted hook's. */
  lemma FetcherIsLatest(states: seq<State>, labels: seq<Label>, e: EntryId, n: nat)
    requires IsTrace(states, labels) && n < |states|
    ensures IsLatest(EntryAt(states[n], e).fetcher, None, FetchersSet(states, labels, e), n)
  {
    var vals, sets := Along(states, e, (x: EntryState) => x.fetcher), FetchersSet(states, labels, e);
    forall i | 0 <= i < |sets| ensures Becomes(vals[i], vals[i + 1], sets[i]) { SetsAt(states, labels, e, 0, i); }
    SetAlongIsLatest(vals, sets, n);
  }

  /** A listener is notified of an entry, if the last it did there was to subscribe. */
  lemma ListenerIsLatest(states: seq<State>, labels: seq<Label>, e: EntryId, listener: Listener, n: nat)
    requires IsTrace(states, labels) && n < |states|
    ensures IsLatest(listener in EntryAt(states[n], e).listeners, false, HearingSet(states, labels, e, listener), n)
  {
    var vals := Along(states, e, (x: EntryState) => listener in x.listeners);
    var sets := HearingSet(states, labels, e, listener);
    forall i | 0 <= i < |sets| ensures Becomes(vals[i], vals[i + 1], sets[i]) {
      SetsAt(states, labels, e, listener, i);
    }
    SetAlongIsLatest(vals, sets, n);
  }

  /**
   * A fetch is in flight, if since the last settling or abort the entry was revalidated with a fetcher, or
   * invalidated while it was listened to and had one.
   */
  lemma FlightIsLatest(states: seq<State>, labels: seq<Label>, e: EntryId, n: nat)
    requires IsTrace(states, labels) && n < |states|
    ensures IsLatest(EntryAt(states[n], e).inflight.Some?, false, FlightsSet(states, labels, e), n)
  {
    var vals, sets := Along(states, e, (x: EntryState) => x.inflight.Some?), FlightsSet(states, labels, e);
    forall i | 0 <= i < |sets| ensures Becomes(vals[i], vals[i + 1], sets[i]) { SetsAt(states, labels, e, 0, i); }
    SetAlongIsLatest(vals, sets, n);
  }

  // ----- Which fetcher a run calls -----

  /** A new run of an entry calls the fetcher given with the call, or else the entry's own. */
  ghost predicate IsNewRun(st: State, l: Label, run: RunState)
    requires Wf(st)
  {
    && !run.settled && !run.aborted
    && match l
       case DoRevalidate(key, fn) =>
         run.entry == EntryOf(st, key)
         && Some(run.fetcher) == if fn.Some? then fn else EntryAt(st, run.entry).fetcher
       case DoInvalidate(prefix) =>
         Covered(st, st.keys, prefix, run.entry) && Some(run.fetcher) == EntryAt(st, run.entry).fetcher
       case _ => false
  }

  lemma RevalidateRuns(st: State, key: string, fn: Option<Fetcher>)
    requires Wf(st)
    ensures var e, runs := EntryOf(st, key), Revalidate(st, key, fn).runs;
            var fetcher := if fn.Some? then fn else EntryAt(st, e).fetcher;
            || runs == st.runs
            || (fetcher.Some? && runs == st.runs + [RunState(e, fetcher.value, false, false)])
  {
    EntryForIs(st, key, EntryOf(st, key));
    EntryForEffect(st, key, 0);
  }

  lemma InvalidateKeyRuns(st: State, key: string)
    requires Wf(st) && key in st.cache
    ensures var e, runs := st.cache[key], InvalidateKey(st, key).runs;
            var fetcher := EntryAt(st, e).fetcher;
            || runs == st.runs
            || (fetcher.Some? && runs == st.runs + [RunState(e, fetcher.value, false, false)])
  {
    RevalidateRuns(Put(st, st.cache[key], st.entries[st.cache[key]].(at := 0)), key, None);
  }

  ghost predicate IsRefetch(st: State, ks: seq<string>, prefix: string, run: RunState)
    requires Wf(st) && forall k :: k in ks ==> k in st.cache
  {
    && !run.settled && !run.aborted
    && Covered(st, ks, prefix, run.entry) && Some(run.fetcher) == EntryAt(st, run.entry).fetcher
  }

  lemma {:induction false} InvalidateKeysRuns(st: State, ks: seq<string>, prefix: string, r: RunId)
    requires Inv(st) && forall k :: k in ks ==> k in st.cache
    requires |st.runs| <= r < |InvalidateKeys(st, ks, prefix).runs|
    ensures IsRefetch(st, ks, prefix, InvalidateKeys(st, ks, prefix).runs[r])
    decreases |ks|
  {
    var s := if HasPrefix(ks[0], prefix) then InvalidateKey(st, ks[0]) else st;
    if HasPrefix(ks[0], prefix) {
      InvalidateKeyRuns(st, ks[0]);
      InvalidateKeyInv(st, ks[0]);
    }
    if r < |s.runs| {
      InvalidateRuns(s, ks[1..], prefix, r);
    } else {
      InvalidateKeysRuns(s, ks[1..], prefix, r);
      var run := InvalidateKeys(st, ks, prefix).runs[r];
      if HasPrefix(ks[0], prefix) { InvalidateKeySets(st, ks[0], run.entry); }
    }
  }

  lemma OthersStartNone(st: State, l: Label)
    requires Wf(st) && Enabled(st, l) && !l.DoRevalidate? && !l.DoInvalidate?
    ensures |Step(st, l).runs| == |st.runs|
  {
    match l
    case DoEntryFor(key) => EntryForEffect(st, key, 0);
    case DoWrite(key, _, _) => EntryForEffect(st, key, 0);
    case DoSubscribe(key, _) => EntryForEffect(st, key, 0);
    case DoSetFetcher(key, _) => EntryForEffect(st, key, 0);
    case _ =>
  }

  lemma RevalidateStarts(st: State, key: string, fn: Option<Fetcher>, r: RunId)
    requires Wf(st) && |st.runs| <= r < |Revalidate(st, key, fn).runs|
    ensures IsNewRun(st, DoRevalidate(key, fn), Revalidate(st, key, fn).runs[r])
  {
    RevalidateRuns(st, key, fn);
  }

  lemma InvalidateStarts(st: State, prefix: string, r: RunId)
    requires Inv(st) && |st.runs| <= r < |Invalidate(st, prefix).runs|
    ensures IsNewRun(st, DoInvalidate(prefix), Invalidate(st, prefix).runs[r])
  {
    InvalidateKeysRuns(st, st.keys, prefix, r);
  }

  /** No step starts a run, but a revalidation and an invalidation. */
  lemma NewRunsCall(st: State, l: Label, r: RunId)
    requires Inv(st) && Enabled(st, l) && |st.runs| <= r < |Step(st, l).runs|
    ensures IsNewRun(st, l, Step(st, l).runs[r])
  {
    match l
    case DoRevalidate(key, fn) => RevalidateStarts(st, key, fn, r);
    case DoInvalidate(prefix) => InvalidateStarts(st, prefix, r);
    case _ => OthersStartNone(st, l);
  }
}
