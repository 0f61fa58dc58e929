/** What holds over every interleaving of the cache's steps. */
module ApiCacheTraces {
  import opened Wrappers
  import opened Runs
  import opened ApiCacheModel
  import opened ApiCacheInvariant
  import opened ApiCacheEviction

  ghost predicate IsStep(st: State, l: Label, next: State) {
    Wf(st) && Enabled(st, l) && next == Step(st, l)
  }

  /** Each state results from its predecessor and the label between them, from the empty cache on. */
  ghost predicate IsTrace(states: seq<State>, labels: seq<Label>) {
    IsRunOf((st, l, next) => IsStep(st, l, next), INITIAL, states, labels)
  }

  lemma StepAt(states: seq<State>, labels: seq<Label>, i: nat)
    requires IsTrace(states, labels) && i < |labels|
    ensures IsStep(states[i], labels[i], states[i + 1])
  {
  }

  lemma InvariantHolds(states: seq<State>, labels: seq<Label>, n: nat)
    requires IsTrace(states, labels) && n < |states|
    ensures Inv(states[n])
  {
    forall st, l, next | Inv(st) && IsStep(st, l, next) ensures Inv(next) { StepKeepsInv(st, l); }
    InvariantOfRun((st, l, next) => IsStep(st, l, next), st => Inv(st), INITIAL, states, labels, n);
  }

  /** At every moment an entry has at most one live run, and it is the one in flight. */
  lemma AtMostOneLiveRun(states: seq<State>, labels: seq<Label>, n: nat, e: EntryId)
    requires IsTrace(states, labels) && n < |states| && e < |states[n].entries|
    ensures var st := states[n]; var entry := st.entries[e];
      && entry.inflight == entry.controller
      && (forall r :: 0 <= r < |st.runs| ==>
            (st.runs[r].entry == e && Live(st.runs[r]) <==> entry.inflight == Some(r)))
  {
    InvariantHolds(states, labels, n);
  }

  // ----- Single steps -----

  /** The late settle of an aborted run changes no entry. */
  lemma LateSettleChangesNothing(st: State, run: RunId, outcome: Outcome, now: nat)
    requires Inv(st) && run < |st.runs| && !st.runs[run].settled && st.runs[run].aborted
    ensures Settle(st, run, outcome, now) == st.(runs := st.runs[run := st.runs[run].(settled := true)])
  {
    assert st.entries[st.runs[run].entry := st.entries[st.runs[run].entry]] == st.entries;
  }

  /** A fetch that fails keeps the last good data and its age. */
  lemma FailureKeepsData(st: State, run: RunId, outcome: Outcome, now: nat)
    requires Inv(st) && run < |st.runs| && Live(st.runs[run])
    requires outcome.Rejected? || outcome.result.Failed?
    ensures var id := st.runs[run].entry; var old', new' := st.entries[id], Settle(st, run, outcome, now).entries[id];
      && new'.data == old'.data && new'.at == old'.at
      && new'.error.Some? && new'.inflight.None? && new'.v == old'.v + 1
      && (outcome.Rejected? ==> new'.status == old'.status)
  {
  }

  // ----- Data and age follow the last touch -----

  datatype Touch = Wrote(data: Data, now: nat) | Invalidated

  ghost predicate Covered(st: State, ks: seq<string>, prefix: string, e: EntryId)
    requires Wf(st) && forall k :: k in ks ==> k in st.cache
  {
    exists k :: k in ks && prefix <= k && st.cache[k] == e
  }

  /** What a step stores in the entry: new data, a stale mark, or nothing. */
  ghost function TouchOf(st: State, l: Label, e: EntryId): Option<Touch>
    requires Wf(st) && Enabled(st, l)
  {
    match l
    case DoWrite(key, data, now) => if EntryFor(st, key).1 == e then Some(Wrote(data, now)) else None
    case DoSettle(run, Resolved(Ok(data)), now) =>
      if st.runs[run].entry == e && !st.runs[run].aborted then Some(Wrote(data, now)) else None
    case DoInvalidate(prefix) => if Covered(st, st.keys, prefix, e) then Some(Invalidated) else None
    case _ => None
  }

  function EntryAt(st: State, e: EntryId): EntryState {
    if e < |st.entries| then st.entries[e] else FRESH_ENTRY
  }

  /** `y` is what a step made of entry state `x`. */
  ghost predicate Follows(x: EntryState, y: EntryState, touch: Option<Touch>) {
    && y.data == (if touch.Some? && touch.value.Wrote? then touch.value.data else x.data)
    && y.at == (if touch.None? then x.at else if touch.value.Wrote? then touch.value.now else 0)
  }

  /** The version counter covers every change but a deregistration. */
  ghost predicate Versioned(x: EntryState, y: EntryState, touch: Option<Touch>) {
    && y.v >= x.v
    && ((y.data, y.error, y.status, y.at) != (x.data, x.error, x.status, x.at) || touch.Some? ==> y.v > x.v)
    && (y.inflight != x.inflight ==> y.v > x.v || y.inflight.None?)
  }

  lemma EvictionKeepsRest(st: State)
    requires Wf(st)
    ensures var r := EvictIfNeeded(st);
      r.entries == st.entries && r.runs == st.runs && r.subs == st.subs && r.timers == st.timers
  {
  }

  lemma GrownEffect(st: State, key: string, e: EntryId)
    requires Wf(st) && key !in st.cache
    ensures EntryAt(Grown(st, key), e) == EntryAt(st, e)
  {
  }

  lemma EntryForEffect(st: State, key: string, e: EntryId)
    requires Wf(st)
    ensures var (s, id) := EntryFor(st, key);
      && EntryAt(s, e) == EntryAt(st, e)
      && s.runs == st.runs && s.subs == st.subs && s.timers == st.timers
      && |s.entries| >= |st.entries|
  {
    if key !in st.cache {
      GrownEffect(st, key, e);
      EvictionKeepsRest(Grown(st, key));
    }
  }

  /** Marked stale under a new version, with its contents kept. */
  predicate IsStale(x: EntryState, y: EntryState) {
    y.data == x.data && y.at == 0 && y.v > x.v && y.error == x.error && y.status == x.status
  }

  lemma InvalidateKeyEffect(st: State, key: string, e: EntryId)
    requires Inv(st) && key in st.cache
    ensures var r := InvalidateKey(st, key); var x, y := EntryAt(st, e), EntryAt(r, e);
      && |r.entries| == |st.entries|
      && (st.cache[key] != e ==> y == x)
      && (st.cache[key] == e ==> IsStale(x, y))
      && (x.inflight.Some? ==> y.inflight == x.inflight)
  {
  }

  lemma {:induction false} InvalidateEffect(st: State, ks: seq<string>, prefix: string, e: EntryId)
    requires Inv(st) && forall k :: k in ks ==> k in st.cache
    ensures var r := InvalidateKeys(st, ks, prefix); var x, y := EntryAt(st, e), EntryAt(r, e);
      && |r.entries| == |st.entries|
      && (!Covered(st, ks, prefix, e) ==> y == x)
      && (Covered(st, ks, prefix, e) ==> IsStale(x, y))
      && (x.inflight.Some? ==> y.inflight == x.inflight)
    decreases |ks|
  {
    if ks != [] {
      var s := if HasPrefix(ks[0], prefix) then InvalidateKey(st, ks[0]) else st;
      if HasPrefix(ks[0], prefix) {
        InvalidateKeyEffect(st, ks[0], e);
        InvalidateKeyInv(st, ks[0]);
      }
      InvalidateEffect(s, ks[1..], prefix, e);
      assert Covered(st, ks, prefix, e) <==>
             (HasPrefix(ks[0], prefix) && st.cache[ks[0]] == e) || Covered(s, ks[1..], prefix, e);
    }
  }

  /** No version bump, yet another in-flight state. */
  predicate Silent(x: EntryState, y: EntryState) {
    y.v == x.v && y.inflight != x.inflight
  }

  /** Stores nothing, and bumps the version of all that changed. */
  ghost predicate Quiet(x: EntryState, y: EntryState) {
    Follows(x, y, None) && Versioned(x, y, None) && !Silent(x, y)
  }

  ghost predicate DeferredAbort(st: State, l: Label, e: EntryId)
    requires Wf(st) && Enabled(st, l)
  {
    && l.DoFireTimer? && st.timers[l.timer].entry == e
    && LiveSubs(st.subs, e) == {} && EntryAt(st, e).inflight.Some?
  }

  /** What one step does to entry `e`. */
  ghost predicate Effect(st: State, l: Label, e: EntryId)
    requires Wf(st) && Enabled(st, l)
  {
    var x, y, touch := EntryAt(st, e), EntryAt(Step(st, l), e), TouchOf(st, l, e);
    && Follows(x, y, touch)
    && Versioned(x, y, touch)
    && (Silent(x, y) <==> DeferredAbort(st, l, e))
  }

  /** `s` is what entryFor made of the state: entry `e` as before. */
  lemma WriteEffectOn(x: EntryState, s: State, id: EntryId, data: Data, now: nat, e: EntryId)
    requires Wf(s) && id < |s.entries| && EntryAt(s, e) == x
    ensures var written := s.entries[id].(data := data, at := now, error := None, status := None);
      var y := EntryAt(Put(s, id, Notify(written)), e);
      var touch := if id == e then Some(Wrote(data, now)) else None;
      Follows(x, y, touch) && Versioned(x, y, touch) && !Silent(x, y)
  {
  }

  lemma WriteEffect(st: State, key: string, data: Data, now: nat, e: EntryId)
    requires Inv(st)
    ensures Effect(st, DoWrite(key, data, now), e)
  {
    EntryForEffect(st, key, e);
    WriteEffectOn(EntryAt(st, e), EntryFor(st, key).0, EntryFor(st, key).1, data, now, e);
  }

  lemma StartRunEffect(st: State, id: EntryId, fetcher: Fetcher, e: EntryId)
    requires Wf(st) && id < |st.entries|
    ensures var x, y := EntryAt(st, e), EntryAt(StartRun(st, id, fetcher), e);
      Quiet(x, y)
  {
  }

  lemma RevalidateQuiet(st: State, key: string, fn: Option<Fetcher>, e: EntryId)
    requires Wf(st)
    ensures Quiet(EntryAt(st, e), EntryAt(Revalidate(st, key, fn), e))
  {
    EntryForEffect(st, key, e);
    var (s, id) := EntryFor(st, key);
    var fetcher := if fn.Some? then fn else s.entries[id].fetcher;
    if fetcher.Some? { StartRunEffect(s, id, fetcher.value, e); }
  }

  lemma RevalidateEffect(st: State, key: string, fn: Option<Fetcher>, e: EntryId)
    requires Inv(st)
    ensures Effect(st, DoRevalidate(key, fn), e)
  {
    RevalidateQuiet(st, key, fn, e);
  }

  lemma SettleEffect(st: State, run: RunId, outcome: Outcome, now: nat, e: EntryId)
    requires Inv(st) && run < |st.runs| && !st.runs[run].settled
    ensures Effect(st, DoSettle(run, outcome, now), e)
  {
  }

  lemma AddSubscriberEffect(s: State, id: EntryId, listener: Listener, e: EntryId)
    requires Wf(s) && id < |s.entries|
    ensures var x, y := EntryAt(s, e), EntryAt(AddSubscriber(s, id, listener), e);
      Quiet(x, y)
  {
  }

  /** A step that stores nothing has its effect as soon as it is quiet. */
  lemma QuietEffect(st: State, l: Label, e: EntryId, next: State)
    requires IsStep(st, l, next) && !l.DoFireTimer? && TouchOf(st, l, e) == None
    requires Quiet(EntryAt(st, e), EntryAt(next, e))
    ensures Effect(st, l, e)
  {
  }

  lemma SubscribeIsStep(st: State, key: string, listener: Listener)
    requires Wf(st)
    ensures IsStep(st, DoSubscribe(key, listener), Subscribe(st, key, listener))
  {
  }

  lemma SubscribeQuiet(st: State, key: string, listener: Listener, e: EntryId)
    requires Wf(st)
    ensures Quiet(EntryAt(st, e), EntryAt(Subscribe(st, key, listener), e))
  {
    EntryForEffect(st, key, e);
    AddSubscriberEffect(EntryFor(st, key).0, EntryFor(st, key).1, listener, e);
  }

  lemma SubscribeEffect(st: State, key: string, listener: Listener, e: EntryId)
    requires Inv(st)
    ensures Effect(st, DoSubscribe(key, listener), e)
  {
    SubscribeIsStep(st, key, listener);
    SubscribeQuiet(st, key, listener, e);
    QuietEffect(st, DoSubscribe(key, listener), e, Subscribe(st, key, listener));
  }

  lemma FireTimerEffect(st: State, timer: nat, e: EntryId)
    requires Inv(st) && timer < |st.timers| && !st.timers[timer].fired
    ensures Effect(st, DoFireTimer(timer), e)
  {
    assert st.entries[st.timers[timer].entry].subscribers == |LiveSubs(st.subs, st.timers[timer].entry)|;
  }

  lemma PutFetcherEffect(s: State, id: EntryId, fetcher: Fetcher, e: EntryId)
    requires Wf(s) && id < |s.entries|
    ensures var x, y := EntryAt(s, e), EntryAt(Put(s, id, s.entries[id].(fetcher := Some(fetcher))), e);
      Quiet(x, y)
  {
  }

  lemma SetFetcherQuiet(st: State, key: string, fetcher: Fetcher, e: EntryId)
    requires Wf(st)
    ensures Quiet(EntryAt(st, e), EntryAt(SetFetcher(st, key, fetcher), e))
  {
    EntryForEffect(st, key, e);
    PutFetcherEffect(EntryFor(st, key).0, EntryFor(st, key).1, fetcher, e);
  }

  lemma SetFetcherEffect(st: State, key: string, fetcher: Fetcher, e: EntryId)
    requires Inv(st)
    ensures Effect(st, DoSetFetcher(key, fetcher), e)
  {
    SetFetcherQuiet(st, key, fetcher, e);
  }

  /**
   * Every step stores exactly its touch, and bumps the version of what it changed. The
   * one change of an in-flight state without a bump is the deferred abort, which happens
   * only while the entry has no subscriber.
   */
  lemma StepEffect(st: State, l: Label, e: EntryId)
    requires Inv(st) && Enabled(st, l)
    ensures Effect(st, l, e)
  {
    match l
    case DoInvalidate(prefix) => InvalidateEffect(st, st.keys, prefix, e);
    case DoEntryFor(key) => EntryForEffect(st, key, e);
    case DoWrite(key, data, now) => WriteEffect(st, key, data, now, e);
    case DoRevalidate(key, fn) => RevalidateEffect(st, key, fn, e);
    case DoSettle(run, outcome, now) => SettleEffect(st, run, outcome, now, e);
    case DoSubscribe(key, listener) => SubscribeEffect(st, key, listener, e);
    case DoUnsubscribe(sub) =>
    case DoFireTimer(timer) => FireTimerEffect(st, timer, e);
    case DoSetFetcher(key, fetcher) => SetFetcherEffect(st, key, fetcher, e);
  }

  /** No step but a timer touches a run's flag. */
  lemma FlagsKept(st: State, l: Label, r: RunId)
    requires Wf(st) && Enabled(st, l) && r < |st.runs| && !l.DoFireTimer?
    ensures r < |Step(st, l).runs| && Step(st, l).runs[r].entry == st.runs[r].entry
    ensures Step(st, l).runs[r].aborted == st.runs[r].aborted
  {
    match l
    case DoInvalidate(prefix) => InvalidateRuns(st, st.keys, prefix, r);
    case DoEntryFor(key) => EntryForEffect(st, key, 0);
    case DoWrite(key, _, _) => EntryForEffect(st, key, 0);
    case DoRevalidate(key, _) => EntryForEffect(st, key, 0);
    case DoSubscribe(key, _) => EntryForEffect(st, key, 0);
    case DoSetFetcher(key, _) => EntryForEffect(st, key, 0);
    case _ =>
  }

  /** A step aborts a run only by a timer of its entry, at a moment without subscribers. */
  lemma AbortOnlyUnwatched(st: State, l: Label, r: RunId)
    requires Inv(st) && Enabled(st, l) && r < |st.runs| && !st.runs[r].aborted
    ensures r < |Step(st, l).runs| && Step(st, l).runs[r].entry == st.runs[r].entry
    ensures Step(st, l).runs[r].aborted <==>
      (l.DoFireTimer? && st.timers[l.timer].entry == st.runs[r].entry
       && LiveSubs(st.subs, st.runs[r].entry) == {} && Live(st.runs[r]))
  {
    if l.DoFireTimer? {
      assert st.entries[st.timers[l.timer].entry].subscribers == |LiveSubs(st.subs, st.timers[l.timer].entry)|;
    } else {
      FlagsKept(st, l, r);
    }
  }

  lemma {:induction false} InvalidateRuns(st: State, ks: seq<string>, prefix: string, r: RunId)
    requires Wf(st) && (forall k :: k in ks ==> k in st.cache) && r < |st.runs|
    ensures var s := InvalidateKeys(st, ks, prefix); r < |s.runs| && s.runs[r] == st.runs[r]
    decreases |ks|
  {
    if ks != [] {
      var s := if HasPrefix(ks[0], prefix) then InvalidateKey(st, ks[0]) else st;
      assert r < |s.runs| && s.runs[r] == st.runs[r];
      InvalidateRuns(s, ks[1..], prefix, r);
    }
  }

  // ----- The history of one entry -----

  /** The states of one entry, and what was stored between each two of them. */
  ghost predicate IsHistory(xs: seq<EntryState>, ts: seq<Option<Touch>>) {
    && |xs| == |ts| + 1
    && xs[0] == FRESH_ENTRY
    && forall i :: 0 <= i < |ts| ==> Follows(xs[i], xs[i + 1], ts[i]) && Versioned(xs[i], xs[i + 1], ts[i])
  }

  predicate Writes(t: Option<Touch>) { t.Some? && t.value.Wrote? }

  /** Nothing was written at the places from `i` up to `n`. */
  ghost predicate NoWrites(ts: seq<Option<Touch>>, i: nat, n: nat)
    requires n <= |ts|
  {
    forall j :: i <= j < n ==> !Writes(ts[j])
  }

  lemma {:induction false} DataStays(xs: seq<EntryState>, ts: seq<Option<Touch>>, i: nat, n: nat)
    requires IsHistory(xs, ts) && i <= n < |xs|
    requires NoWrites(ts, i, n)
    ensures xs[n].data == xs[i].data
    decreases n
  {
    if i < n { DataStays(xs, ts, i, n - 1); }
  }

  lemma NoDataIn(xs: seq<EntryState>, ts: seq<Option<Touch>>, n: nat)
    requires IsHistory(xs, ts) && n < |xs| && NoWrites(ts, 0, n)
    ensures xs[n].data == Undefined
  {
    DataStays(xs, ts, 0, n);
  }

  lemma {:induction false} AgeStays(xs: seq<EntryState>, ts: seq<Option<Touch>>, i: nat, n: nat)
    requires IsHistory(xs, ts) && i <= n < |xs|
    requires forall j :: i <= j < n ==> ts[j].None?
    ensures xs[n].at == xs[i].at
    decreases n
  {
    if i < n { AgeStays(xs, ts, i, n - 1); }
  }

  /** An unchanged version means unchanged data, error, status and age. */
  lemma {:induction false} VersionCovers(xs: seq<EntryState>, ts: seq<Option<Touch>>, i: nat, n: nat)
    requires IsHistory(xs, ts) && i <= n < |xs|
    ensures xs[i].v <= xs[n].v
    ensures xs[i].v == xs[n].v ==>
      (xs[i].data, xs[i].error, xs[i].status, xs[i].at) == (xs[n].data, xs[n].error, xs[n].status, xs[n].at)
    decreases n
  {
    if i < n { VersionCovers(xs, ts, i, n - 1); }
  }

  /** The write that makes an entry fresh: after it, no write and no invalidation. */
  ghost predicate FreshWrite(ts: seq<Option<Touch>>, i: nat, ttlMs: int, now: nat)
    requires i < |ts|
  {
    && Writes(ts[i]) && ts[i].value.now > 0 && now - ts[i].value.now < ttlMs
    && forall j :: i < j < |ts| ==> ts[j].None?
  }

  /** The last touch of an entry, or -1. */
  lemma {:induction false} LastTouch(ts: seq<Option<Touch>>) returns (i: int)
    ensures -1 <= i < |ts|
    ensures i >= 0 ==> ts[i].Some?
    ensures forall j :: i < j < |ts| ==> ts[j].None?
  {
    if ts == [] || ts[|ts| - 1].Some? {
      i := |ts| - 1;
    } else {
      i := LastTouch(ts[..|ts| - 1]);
    }
  }

  lemma AgeIsLastTouch(xs: seq<EntryState>, ts: seq<Option<Touch>>, ttlMs: int, now: nat)
    requires IsHistory(xs, ts)
    ensures (xs[|ts|].at > 0 && now - xs[|ts|].at < ttlMs) <==>
            (exists i :: 0 <= i < |ts| && FreshWrite(ts, i, ttlMs, now))
  {
    var i := LastTouch(ts);
    if i < 0 {
      AgeStays(xs, ts, 0, |ts|);
    } else {
      AgeStays(xs, ts, i + 1, |ts|);
      assert Follows(xs[i], xs[i + 1], ts[i]);
      if xs[|ts|].at > 0 && now - xs[|ts|].at < ttlMs { assert FreshWrite(ts, i, ttlMs, now); }
    }
  }

  // ----- Whole runs -----

  ghost function History(states: seq<State>, e: EntryId): (r: seq<EntryState>)
    ensures |r| == |states| && forall i :: 0 <= i < |r| ==> r[i] == EntryAt(states[i], e)
  {
    seq(|states|, i requires 0 <= i < |states| => EntryAt(states[i], e))
  }

  ghost function Touches(states: seq<State>, labels: seq<Label>, e: EntryId): seq<Option<Touch>>
    requires IsTrace(states, labels)
  {
    seq(|labels|, i requires 0 <= i < |labels| => TouchOf(states[i], labels[i], e))
  }

  /** The entry states along a run form a history with the touches of the run's steps. */
  lemma HistoryOfRun(states: seq<State>, labels: seq<Label>, e: EntryId)
    requires IsTrace(states, labels)
    ensures IsHistory(History(states, e), Touches(states, labels, e))
  {
    forall i | 0 <= i < |labels|
      ensures Follows(EntryAt(states[i], e), EntryAt(states[i + 1], e), Touches(states, labels, e)[i])
      ensures Versioned(EntryAt(states[i], e), EntryAt(states[i + 1], e), Touches(states, labels, e)[i])
    {
      InvariantHolds(states, labels, i);
      StepAt(states, labels, i);
      StepEffect(states[i], labels[i], e);
    }
  }

  /** At all times an entry's data is that of the most recent write or unaborted success. */
  lemma DataIsMostRecent(states: seq<State>, labels: seq<Label>, e: EntryId, i: nat, n: nat)
    requires IsTrace(states, labels) && i < n < |states|
    requires var ts := Touches(states, labels, e); Writes(ts[i]) && NoWrites(ts, i + 1, n)
    ensures EntryAt(states[n], e).data == Touches(states, labels, e)[i].value.data
  {
    var xs, ts := History(states, e), Touches(states, labels, e);
    HistoryOfRun(states, labels, e);
    assert Follows(xs[i], xs[i + 1], ts[i]);
    DataStays(xs, ts, i + 1, n);
  }

  /** ... and undefined before the first one. */
  lemma NoDataBeforeFirstWrite(states: seq<State>, labels: seq<Label>, e: EntryId, n: nat)
    requires IsTrace(states, labels) && n < |states|
    requires NoWrites(Touches(states, labels, e), 0, n)
    ensures EntryAt(states[n], e).data == Undefined
  {
    HistoryOfRun(states, labels, e);
    NoDataIn(History(states, e), Touches(states, labels, e), n);
  }

  /** isFresh says exactly that the key's entry was last touched by a write within the TTL. */
  lemma FreshIffRecentlyWritten(states: seq<State>, labels: seq<Label>, key: string, ttlMs: int, now: nat)
    requires IsTrace(states, labels) && Wf(states[|labels|]) && key in states[|labels|].cache
    ensures var ts := Touches(states, labels, states[|labels|].cache[key]);
      IsFresh(states[|labels|], key, ttlMs, now) <==>
      exists i :: 0 <= i < |ts| && FreshWrite(ts, i, ttlMs, now)
  {
    var e := states[|labels|].cache[key];
    HistoryOfRun(states, labels, e);
    AgeIsLastTouch(History(states, e), Touches(states, labels, e), ttlMs, now);
  }

  /** The snapshot primitive: equal versions of an entry mean equal contents. */
  lemma SameVersionSameContents(states: seq<State>, labels: seq<Label>, e: EntryId, i: nat, n: nat)
    requires IsTrace(states, labels) && i <= n < |states|
    ensures var x, y := EntryAt(states[i], e), EntryAt(states[n], e);
      && x.v <= y.v
      && (x.v == y.v ==> (x.data, x.error, x.status, x.at) == (y.data, y.error, y.status, y.at))
  {
    HistoryOfRun(states, labels, e);
    VersionCovers(History(states, e), Touches(states, labels, e), i, n);
  }

  // ----- The full cache of ApiCacheEviction.LostWrite is reachable -----

  lemma TraceExtends(states: seq<State>, labels: seq<Label>, l: Label, st: State)
    requires IsTrace(states, labels) && IsStep(states[|labels|], l, st)
    ensures IsTrace(states + [st], labels + [l])
  {
    RunExtends((st, l, next) => IsStep(st, l, next), INITIAL, states, labels, l, st);
  }

  lemma NextFull(last: State, key: string, listener: Listener) returns (l: Label, st: State)
    requires |key| < MAX_ENTRIES && Full(last, |key|)
    ensures IsStep(last, l, st) && Full(st, |key| + 1)
  {
    l, st := DoSubscribe(key, listener), Subscribe(last, key, listener);
    SubscribeIsStep(last, key, listener);
    FullStep(last, |key|, key, listener);
  }

  lemma OneMore(states: seq<State>, labels: seq<Label>, key: string, listener: Listener)
    returns (states': seq<State>, labels': seq<Label>)
    requires IsTrace(states, labels) && |key| < MAX_ENTRIES && Full(states[|labels|], |key|)
    ensures IsTrace(states', labels') && Full(states'[|labels'|], |key| + 1)
  {
    var l, st := NextFull(states[|labels|], key, listener);
    TraceExtends(states, labels, l, st);
    states', labels' := states + [st], labels + [l];
    assert states'[|labels'|] == st;
  }

  /** A run of 150 subscriptions fills the cache with pinned entries. */
  lemma {:induction false} FullIsReachable(n: nat, listener: Listener) returns (states: seq<State>, labels: seq<Label>)
    requires n <= MAX_ENTRIES
    ensures IsTrace(states, labels) && Full(states[|labels|], n)
  {
    if n == 0 {
      states, labels := [INITIAL], [];
    } else {
      states, labels := FullIsReachable(n - 1, listener);
      states, labels := OneMore(states, labels, Name(n - 1), listener);
    }
  }

  /** A reachable cache, and a write to it that nobody can read back. */
  lemma LostWrite(data: Data, now: nat, listener: Listener)
    returns (states: seq<State>, labels: seq<Label>, key: string)
    ensures IsTrace(states, labels) && Wf(states[|labels|])
    ensures key !in WriteEntry(states[|labels|], key, data, now).cache
  {
    states, labels := FullIsReachable(MAX_ENTRIES, listener);
    key := Name(MAX_ENTRIES);
    FullLosesNewKeys(states[|labels|], key);
    EntryForIsCachedIffKept(states[|labels|], key);
  }
}
