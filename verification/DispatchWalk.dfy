/** The dispatcher's walk over an audience: window by window, until enough phones may be called. */
module DispatchWalk {
  import opened Wrappers
  import opened OrderedDedup
  import opened Audience

  /** The values whose keys pass, in the order of the keys. */
  function Passing<V>(ok: string -> bool, m: Ordered<V>): seq<V>
    requires m.Valid()
  {
    PassingOf(ok, m.keys, m.vals)
  }

  function PassingOf<V>(ok: string -> bool, keys: seq<string>, vals: map<string, V>): seq<V>
    requires forall k :: k in keys ==> k in vals
  {
    if keys == [] then []
    else
      var n := |keys| - 1;
      PassingOf(ok, keys[..n], vals) + (if ok(keys[n]) then [vals[keys[n]]] else [])
  }

  function Take<V>(n: nat, s: seq<V>): seq<V> { s[..Min(n, |s|)] }

  datatype Walk = Walk(seen: set<string>, candidates: seq<Member>)

  /** One member met: nothing once there are enough, and each phone counts where it is first seen. */
  function Meet(ok: string -> bool, batch: nat, w: Walk, e: Entry<Member>): Walk {
    if |w.candidates| >= batch || e.key in w.seen then w
    else Walk(w.seen + {e.key}, if ok(e.key) then w.candidates + [e.val] else w.candidates)
  }

  function MeetAll(ok: string -> bool, batch: nat, es: seq<Entry<Member>>): Walk {
    if es == [] then Walk({}, []) else Meet(ok, batch, MeetAll(ok, batch, es[..|es| - 1]), es[|es| - 1])
  }

  lemma {:induction false} KeepFirstValid<V>(es: seq<Entry<V>>)
    ensures KeepFirst(es).Valid()
  {
    if es != [] {
      KeepFirstValid(es[..|es| - 1]);
      SetKeepsValid(KeepFirst(es[..|es| - 1]), es[|es| - 1].key, es[|es| - 1].val);
    }
  }

  lemma {:induction false} SameValsSamePassing<V>(
    ok: string -> bool, keys: seq<string>, u: map<string, V>, v: map<string, V>)
    requires forall k :: k in keys ==> k in u && k in v && u[k] == v[k]
    ensures PassingOf(ok, keys, u) == PassingOf(ok, keys, v)
  {
    if keys != [] { SameValsSamePassing(ok, keys[..|keys| - 1], u, v); }
  }

  lemma NewKeyPasses<V>(ok: string -> bool, m: Ordered<V>, k: string, v: V)
    requires m.Valid() && k !in m.vals
    ensures m.Set(k, v).Valid()
    ensures Passing(ok, m.Set(k, v)) == Passing(ok, m) + (if ok(k) then [v] else [])
  {
    SetKeepsValid(m, k, v);
    var r := m.Set(k, v);
    assert r.keys[..|r.keys| - 1] == m.keys;
    SameValsSamePassing(ok, m.keys, m.vals, r.vals);
  }

  /** The walk's candidates are the first so many of the passing phones, each with its first member. */
  lemma {:induction false} WalkTakesFirst(ok: string -> bool, batch: nat, es: seq<Entry<Member>>)
    ensures KeepFirst(es).Valid()
    ensures var w := MeetAll(ok, batch, es);
            && w.candidates == Take(batch, Passing(ok, KeepFirst(es)))
            && (|w.candidates| < batch ==>
                  w.seen == KeepFirst(es).vals.Keys && w.candidates == Passing(ok, KeepFirst(es)))
  {
    KeepFirstValid(es);
    if es != [] {
      var front, last := es[..|es| - 1], es[|es| - 1];
      WalkTakesFirst(ok, batch, front);
      var m := KeepFirst(front);
      if last.key !in m.vals { NewKeyPasses(ok, m, last.key, last.val); }
    }
  }

  lemma MeetSnoc(ok: string -> bool, batch: nat, es: seq<Entry<Member>>, e: Entry<Member>)
    ensures MeetAll(ok, batch, es + [e]) == Meet(ok, batch, MeetAll(ok, batch, es), e)
  {
    assert (es + [e])[..|es|] == es;
  }

  /** Once there are enough, what is still to come changes nothing. */
  lemma {:induction false} EnoughStays(ok: string -> bool, batch: nat, a: seq<Entry<Member>>, b: seq<Entry<Member>>)
    requires |MeetAll(ok, batch, a).candidates| >= batch
    ensures MeetAll(ok, batch, a + b) == MeetAll(ok, batch, a)
  {
    if b == [] {
      assert a + b == a;
    } else {
      EnoughStays(ok, batch, a, b[..|b| - 1]);
      assert a + b == (a + b[..|b| - 1]) + [b[|b| - 1]];
      MeetSnoc(ok, batch, a + b[..|b| - 1], b[|b| - 1]);
    }
  }

  // ----- The loops -----

  /** The inner loop, which leaves off as soon as there are enough. */
  method WalkWindow(
    ok: string -> bool, batch: nat, ghost before: seq<Entry<Member>>, window: seq<Entry<Member>>, w: Walk)
    returns (r: Walk)
    requires w == MeetAll(ok, batch, before)
    ensures r == MeetAll(ok, batch, before + window)
  {
    r := w;
    assert before + window[..0] == before;
    var i := 0;
    while i < |window|
      invariant i <= |window| && r == MeetAll(ok, batch, before + window[..i])
    {
      if |r.candidates| >= batch { break; }
      NextMet(ok, batch, before, window, i);
      var phone := window[i].key;
      if phone !in r.seen {
        r := Walk(r.seen + {phone}, if ok(phone) then r.candidates + [window[i].val] else r.candidates);
      }
      i := i + 1;
    }
    if i < |window| {
      RestUnmet(ok, batch, before, window, i);
    } else {
      assert window[..i] == window;
    }
  }

  lemma NextMet(ok: string -> bool, batch: nat, before: seq<Entry<Member>>, window: seq<Entry<Member>>, i: nat)
    requires i < |window|
    ensures MeetAll(ok, batch, before + window[..i + 1])
            == Meet(ok, batch, MeetAll(ok, batch, before + window[..i]), window[i])
  {
    assert before + window[..i + 1] == before + window[..i] + [window[i]];
    MeetSnoc(ok, batch, before + window[..i], window[i]);
  }

  lemma RestUnmet(ok: string -> bool, batch: nat, before: seq<Entry<Member>>, window: seq<Entry<Member>>, i: nat)
    requires i <= |window| && |MeetAll(ok, batch, before + window[..i]).candidates| >= batch
    ensures MeetAll(ok, batch, before + window) == MeetAll(ok, batch, before + window[..i])
  {
    EnoughStays(ok, batch, before + window[..i], window[i..]);
    assert before + window[..i] + window[i..] == before + window;
  }

  function AsEntries(ms: seq<Member>): (r: seq<Entry<Member>>)
    ensures |r| == |ms| && forall i :: 0 <= i < |r| ==> r[i] == Entry(ms[i].phone, ms[i])
  {
    seq(|ms|, i requires 0 <= i < |ms| => Entry(ms[i].phone, ms[i]))
  }

  function Count(order: Order): nat {
    match order
    case ContactIds(ids) => |ids|
    case Members(ms) => |ms|
  }

  /** `hydrateWindow`: members carry their phones, contact ids are resolved. */
  function HydrateWindow(db: Db, tenant: string, order: Order, from: nat, to: nat): seq<Entry<Member>>
    requires from <= to <= Count(order)
  {
    match order
    case ContactIds(ids) => Hydrate(db, tenant, ids[from..to])
    case Members(ms) => AsEntries(ms[from..to])
  }

  function HydrateOrder(db: Db, tenant: string, order: Order): seq<Entry<Member>> {
    HydrateWindow(db, tenant, order, 0, Count(order))
  }

  lemma WindowsJoin(db: Db, tenant: string, order: Order, i: nat, j: nat)
    requires i <= j <= Count(order)
    ensures HydrateWindow(db, tenant, order, 0, j)
            == HydrateWindow(db, tenant, order, 0, i) + HydrateWindow(db, tenant, order, i, j)
  {
    match order
    case ContactIds(ids) =>
      assert ids[0..j] == ids[0..i] + ids[i..j];
      EntriesAppend(db, tenant, ids[0..i], ids[i..j]);
    case Members(ms) => assert ms[0..j] == ms[0..i] + ms[i..j];
  }

  /** What the walk has after the first `offset` members. */
  ghost function MetUpTo(db: Db, tenant: string, order: Order, batch: nat, ok: string -> bool, offset: nat): Walk
    requires offset <= Count(order)
  {
    MeetAll(ok, batch, HydrateWindow(db, tenant, order, 0, offset))
  }

  lemma RestUnwalked(db: Db, tenant: string, order: Order, batch: nat, ok: string -> bool, offset: nat)
    requires offset <= Count(order)
    requires offset == Count(order) || |MetUpTo(db, tenant, order, batch, ok, offset).candidates| >= batch
    ensures MetUpTo(db, tenant, order, batch, ok, offset) == MeetAll(ok, batch, HydrateOrder(db, tenant, order))
  {
    if offset < Count(order) {
      WindowsJoin(db, tenant, order, offset, Count(order));
      EnoughStays(ok, batch, HydrateWindow(db, tenant, order, 0, offset),
                  HydrateWindow(db, tenant, order, offset, Count(order)));
    }
  }

  /** One round: the members from `offset` up to `next`. */
  method WalkNext(
    db: Db, tenant: string, order: Order, batch: nat, ok: string -> bool, offset: nat, next: nat, w: Walk)
    returns (r: Walk)
    requires offset <= next <= Count(order) && w == MetUpTo(db, tenant, order, batch, ok, offset)
    ensures r == MetUpTo(db, tenant, order, batch, ok, next)
  {
    WindowsJoin(db, tenant, order, offset, next);
    r := WalkWindow(
      ok, batch, HydrateWindow(db, tenant, order, 0, offset), HydrateWindow(db, tenant, order, offset, next), w);
  }

  /** The loop over windows of `size` members, each hydrated when it is reached. */
  method SelectCandidates(db: Db, tenant: string, order: Order, size: nat, batch: nat, ok: string -> bool)
    returns (candidates: seq<Member>)
    requires size > 0
    ensures KeepFirst(HydrateOrder(db, tenant, order)).Valid()
    ensures candidates == Take(batch, Passing(ok, KeepFirst(HydrateOrder(db, tenant, order))))
  {
    var w := Walk({}, []);
    var offset := 0;
    NothingHydrated(db, tenant, order);
    while offset < Count(order) && |w.candidates| < batch
      invariant offset <= Count(order) && w == MetUpTo(db, tenant, order, batch, ok, offset)
    {
      var next := Min(offset + size, Count(order));
      w := WalkNext(db, tenant, order, batch, ok, offset, next, w);
      offset := next;
    }
    RestUnwalked(db, tenant, order, batch, ok, offset);
    WalkTakesFirst(ok, batch, HydrateOrder(db, tenant, order));
    candidates := w.candidates;
  }

  lemma NothingHydrated(db: Db, tenant: string, order: Order)
    ensures HydrateWindow(db, tenant, order, 0, 0) == []
  {
    match order
    case ContactIds(ids) => assert ids[0..0] == [];
    case Members(ms) => assert ms[0..0] == [];
  }

  // ----- Against the eager route -----

  /** The members whose phones pass, in order. */
  function PassingMembers(ok: string -> bool, ms: seq<Member>): seq<Member> {
    if ms == [] then []
    else
      var n := |ms| - 1;
      PassingMembers(ok, ms[..n]) + (if ok(ms[n].phone) then [ms[n]] else [])
  }

  ghost predicate UnderOwnPhones(es: seq<Entry<Member>>) {
    forall i :: 0 <= i < |es| ==> es[i].key == es[i].val.phone
  }

  /** Where phones come once, the walk passes over the members themselves. */
  lemma {:induction false} PassingOnce(ok: string -> bool, es: seq<Entry<Member>>)
    requires KeysOnce(es) && UnderOwnPhones(es)
    ensures KeepFirst(es).Valid() && Passing(ok, KeepFirst(es)) == PassingMembers(ok, ValuesOf(es))
  {
    KeepFirstValid(es);
    if es != [] {
      var front, last := es[..|es| - 1], es[|es| - 1];
      LastIsNew(es);
      PassingOnce(ok, front);
      SameKeys(front);
      KeyThere(front, last.key);
      NewKeyPasses(ok, KeepFirst(front), last.key, last.val);
      FrontAndLast(es);
    }
  }

  lemma MembersOnce(rs: seq<Recipient>)
    requires DistinctPhones(rs)
    ensures var es := AsEntries(MapSeq(AsMember, rs));
            KeysOnce(es) && UnderOwnPhones(es) && ValuesOf(es) == MapSeq(AsMember, rs)
  {
  }

  lemma ContactsOnce(db: Db, tenant: string, ids: seq<string>)
    requires NoDup(ids) && UniqueKeys(db)
    ensures var es := Hydrate(db, tenant, ids);
            && KeysOnce(es) && UnderOwnPhones(es)
            && ValuesOf(es) == MapSeq(AsMember, ValuesOf(ContactEntries(db, tenant, ids)))
  {
    ContactKeysOnce(db, tenant, ids);
    var es := ContactEntries(db, tenant, ids);
    forall i: nat | i < |es| ensures es[i].key == es[i].val.phone { ContactEntriesKeyed(db, tenant, ids, i); }
  }

  /** On a stored database the order hydrates to the eager recipients' identities, one for one. */
  lemma OrderHydratesToRecipients(env: Env, db: Db, tenant: string, audience: string, now: int)
    requires UniqueKeys(db)
    ensures var es := HydrateOrder(After(env, db, tenant, audience, now), tenant,
                                   MemberOrder(env, db, tenant, audience, now));
            && KeysOnce(es) && UnderOwnPhones(es)
            && ValuesOf(es) == MapSeq(AsMember, Recipients(env, db, tenant, audience, now))
  {
    var after, order := After(env, db, tenant, audience, now), MemberOrder(env, db, tenant, audience, now);
    match SourceOf(db, tenant, audience)
    case FromSegments(segs) =>
      EvaluationKeepsKeys(env, db, tenant, audience, now);
      OrderedIdsAreTheMembers(env, after, segs);
      ContactsOnce(after, tenant, order.ids);
      RecipientsAreEntries(env, db, tenant, audience, now);
      assert order.ids[0..|order.ids|] == order.ids;
    case _ =>
      MembersAreRecipients(env, db, tenant, audience, now);
      PhonesOnceInOrder(env, db, tenant, audience, now);
      MembersOnce(Recipients(env, db, tenant, audience, now));
      assert order.members[0..|order.members|] == order.members;
  }

  /**
   * On a stored database, for every audience and whoever may be called: the dispatcher's candidates are the
   * first so many of the eager recipients whose phones pass, contacts included, whatever the window.
   */
  lemma CandidatesAreFirstRecipients(
    env: Env, db: Db, tenant: string, audience: string, now: int, batch: nat, ok: string -> bool)
    requires UniqueKeys(db)
    ensures var es := HydrateOrder(After(env, db, tenant, audience, now), tenant,
                                   MemberOrder(env, db, tenant, audience, now));
            var eager := MapSeq(AsMember, Recipients(env, db, tenant, audience, now));
            var passing := PassingMembers(ok, eager);
            && KeepFirst(es).Valid()
            && Take(batch, Passing(ok, KeepFirst(es))) == if |passing| <= batch then passing else passing[..batch]
  {
    OrderHydratesToRecipients(env, db, tenant, audience, now);
    PassingOnce(ok, HydrateOrder(After(env, db, tenant, audience, now), tenant,
                                 MemberOrder(env, db, tenant, audience, now)));
  }
}
