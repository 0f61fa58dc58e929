/** What every step of the cache keeps: runs, registrations and subscriber counts agree. */
module ApiCacheInvariant {
  import opened Wrappers
  import opened ApiCacheModel

  predicate Live(r: RunState) { !r.settled && !r.aborted }

  function LiveSubs(subs: seq<Subscription>, id: EntryId): set<nat> {
    set k | 0 <= k < |subs| && subs[k].live && subs[k].entry == id
  }

  /** Some live subscription of the entry registered this listener. */
  ghost predicate Heard(subs: seq<Subscription>, id: EntryId, l: Listener) {
    exists k :: k in LiveSubs(subs, id) && subs[k].listener == l
  }

  /** `inflight` and `controller` are set together, and name a live run of the entry. */
  ghost predicate Registered(st: State) {
    forall e :: 0 <= e < |st.entries| ==>
      && st.entries[e].inflight == st.entries[e].controller
      && (st.entries[e].inflight.Some? ==>
            var r := st.entries[e].inflight.value;
            r < |st.runs| && st.runs[r].entry == e && Live(st.runs[r]))
  }

  /** Every live run is the one its entry calls in flight. */
  ghost predicate LiveRunsRegistered(st: State)
    requires Wf(st)
  {
    forall r :: 0 <= r < |st.runs| && Live(st.runs[r]) ==> st.entries[st.runs[r].entry].inflight == Some(r)
  }

  /** `subscribers` counts the live subscriptions; a registered listener belongs to one. */
  ghost predicate Counted(st: State) {
    forall e :: 0 <= e < |st.entries| ==>
      && st.entries[e].subscribers == |LiveSubs(st.subs, e)|
      && forall l :: l in st.entries[e].listeners ==> Heard(st.subs, e, l)
  }

  ghost predicate OneKeyEach(st: State) {
    forall j, k :: j in st.cache && k in st.cache && st.cache[j] == st.cache[k] ==> j == k
  }

  ghost predicate Inv(st: State) {
    Wf(st) && Registered(st) && LiveRunsRegistered(st) && Counted(st) && OneKeyEach(st)
  }

  lemma NoSubsBeyond(st: State)
    requires Wf(st)
    ensures LiveSubs(st.subs, |st.entries|) == {}
  {
  }

  lemma DeleteInv(st: State, gone: seq<string>)
    requires Inv(st)
    ensures Inv(Delete(st, gone))
  {
  }

  lemma GrownInv(st: State, key: string)
    requires Inv(st) && key !in st.cache
    ensures Inv(Grown(st, key))
  {
    NoSubsBeyond(st);
  }

  lemma EntryForInv(st: State, key: string)
    requires Inv(st)
    ensures Inv(EntryFor(st, key).0)
  {
    if key !in st.cache {
      GrownInv(st, key);
      DeleteInv(Grown(st, key), Victims(Grown(st, key)));
    }
  }

  /** Rewriting fields that are not about runs or subscribers keeps the invariant. */
  lemma PutInv(st: State, id: EntryId, e: EntryState)
    requires Inv(st) && id < |st.entries|
    requires e.inflight == st.entries[id].inflight && e.controller == st.entries[id].controller
    requires e.subscribers == st.entries[id].subscribers && e.listeners == st.entries[id].listeners
    ensures Inv(Put(st, id, e))
  {
  }

  lemma StartRunInv(st: State, id: EntryId, fetcher: Fetcher)
    requires Inv(st) && id < |st.entries|
    ensures Inv(StartRun(st, id, fetcher))
  {
  }

  lemma RevalidateInv(st: State, key: string, fn: Option<Fetcher>)
    requires Inv(st)
    ensures Inv(Revalidate(st, key, fn))
  {
    EntryForInv(st, key);
    var (s, id) := EntryFor(st, key);
    if fn.Some? {
      StartRunInv(s, id, fn.value);
    } else if s.entries[id].fetcher.Some? {
      StartRunInv(s, id, s.entries[id].fetcher.value);
    }
  }

  lemma SettleInv(st: State, run: RunId, outcome: Outcome, now: nat)
    requires Inv(st) && run < |st.runs| && !st.runs[run].settled
    ensures Inv(Settle(st, run, outcome, now))
  {
  }

  lemma AddSub(subs: seq<Subscription>, sub: Subscription, id: EntryId)
    requires sub.live
    ensures LiveSubs(subs + [sub], id) == LiveSubs(subs, id) + if id == sub.entry then {|subs|} else {}
    ensures forall l :: Heard(subs, id, l) ==> Heard(subs + [sub], id, l)
    ensures Heard(subs + [sub], sub.entry, sub.listener)
  {
    var subs' := subs + [sub];
    assert LiveSubs(subs', id) == LiveSubs(subs, id) + if id == sub.entry then {|subs|} else {};
    forall l | Heard(subs, id, l) ensures Heard(subs', id, l) {
      var k :| k in LiveSubs(subs, id) && subs[k].listener == l;
      assert k in LiveSubs(subs', id) && subs'[k].listener == l;
    }
    assert |subs| in LiveSubs(subs', sub.entry) && subs'[|subs|].listener == sub.listener;
  }

  lemma EndSub(subs: seq<Subscription>, k: nat, id: EntryId)
    requires k < |subs| && subs[k].live
    ensures LiveSubs(subs[k := subs[k].(live := false)], id) ==
            LiveSubs(subs, id) - if id == subs[k].entry then {k} else {}
    ensures forall l :: Heard(subs, id, l) && (id == subs[k].entry ==> l != subs[k].listener) ==>
              Heard(subs[k := subs[k].(live := false)], id, l)
  {
    var subs' := subs[k := subs[k].(live := false)];
    assert LiveSubs(subs', id) == LiveSubs(subs, id) - if id == subs[k].entry then {k} else {};
    forall l | Heard(subs, id, l) && (id == subs[k].entry ==> l != subs[k].listener)
      ensures Heard(subs', id, l)
    {
      var j :| j in LiveSubs(subs, id) && subs[j].listener == l;
      assert j in LiveSubs(subs', id) && subs'[j].listener == l;
    }
  }

  lemma AddSubscriberInv(st: State, id: EntryId, listener: Listener)
    requires Inv(st) && id < |st.entries|
    ensures Inv(AddSubscriber(st, id, listener))
  {
    var st' := AddSubscriber(st, id, listener);
    forall e | 0 <= e < |st.entries|
      ensures st'.entries[e].subscribers == |LiveSubs(st'.subs, e)|
      ensures forall l :: l in st'.entries[e].listeners ==> Heard(st'.subs, e, l)
    {
      AddSub(st.subs, Subscription(id, listener, true), e);
    }
  }

  lemma UnsubscribeInv(st: State, sub: nat)
    requires Inv(st) && sub < |st.subs| && st.subs[sub].live
    ensures Inv(Unsubscribe(st, sub))
  {
    forall e | 0 <= e < |st.entries| {
      EndSub(st.subs, sub, e);
    }
    assert sub in LiveSubs(st.subs, st.subs[sub].entry);
  }

  lemma FireTimerInv(st: State, timer: nat)
    requires Inv(st) && timer < |st.timers| && !st.timers[timer].fired
    ensures Inv(FireTimer(st, timer))
  {
  }

  lemma InvalidateKeyInv(st: State, key: string)
    requires Inv(st) && key in st.cache
    ensures Inv(InvalidateKey(st, key))
  {
    var id := st.cache[key];
    PutInv(st, id, st.entries[id].(at := 0));
    var s := Put(st, id, st.entries[id].(at := 0));
    RevalidateInv(s, key, None);
    var s' := if s.entries[id].listeners != {} && s.entries[id].fetcher.Some? then Revalidate(s, key, None) else s;
    PutInv(s', id, Notify(s'.entries[id]));
  }

  lemma {:induction false} InvalidateKeysInv(st: State, ks: seq<string>, prefix: string)
    requires Inv(st) && forall k :: k in ks ==> k in st.cache
    ensures Inv(InvalidateKeys(st, ks, prefix))
    decreases |ks|
  {
    if ks != [] {
      if HasPrefix(ks[0], prefix) {
        InvalidateKeyInv(st, ks[0]);
        InvalidateKeysInv(InvalidateKey(st, ks[0]), ks[1..], prefix);
      } else {
        InvalidateKeysInv(st, ks[1..], prefix);
      }
    }
  }

  /** Every step keeps the invariant. */
  lemma StepKeepsInv(st: State, l: Label)
    requires Inv(st) && Enabled(st, l)
    ensures Inv(Step(st, l))
  {
    match l
    case DoEntryFor(key) => EntryForInv(st, key);
    case DoWrite(key, data, now) =>
      EntryForInv(st, key);
      var (s, id) := EntryFor(st, key);
      PutInv(s, id, Notify(s.entries[id].(data := data, at := now, error := None, status := None)));
    case DoRevalidate(key, fn) => RevalidateInv(st, key, fn);
    case DoSettle(run, outcome, now) => SettleInv(st, run, outcome, now);
    case DoSubscribe(key, listener) =>
      EntryForInv(st, key);
      AddSubscriberInv(EntryFor(st, key).0, EntryFor(st, key).1, listener);
    case DoUnsubscribe(sub) => UnsubscribeInv(st, sub);
    case DoFireTimer(timer) => FireTimerInv(st, timer);
    case DoInvalidate(prefix) => InvalidateKeysInv(st, st.keys, prefix);
    case DoSetFetcher(key, fetcher) =>
      EntryForInv(st, key);
      var (s, id) := EntryFor(st, key);
      PutInv(s, id, s.entries[id].(fetcher := Some(fetcher)));
  }
}
