/** The database rows behind an audience, and the two ways of resolving its members. */
module Audience {
  import opened Wrappers
  import opened OrderedDedup
  import Decimal
  import HashOrder

  datatype Json =
    | Null
    | Bool(value: bool)
    | Number(number: real)
    | Text(text: string)
    | Array(items: seq<Json>)
    | Object(fields: map<string, Json>)

  /** A JavaScript value that `||` replaces by its right operand. */
  predicate Falsy(j: Json) {
    j == Null || j == Bool(false) || j == Number(0.0) || j == Text("")
  }

  datatype Listing = Listing(id: string, tenant: string, optedIn: bool)
  datatype OptIn = OptIn(tenant: string, whatsApp: bool, optedIn: bool, phone: string, contactId: Option<string>)
  datatype Segment = Segment(
    id: string, audience: string, tenant: string, dynamic: bool, seed: string, lastEvaluatedAt: Option<int>)
  datatype Membership = Membership(segment: string, contact: string)
  datatype Contact = Contact(tenant: string, phone: Option<string>, metadata: Json)
  datatype Row = Row(audience: string, contactId: Option<string>, phone: string, metadata: Json)

  /** `rows` are the stored lists in creation order; a missing seed is the empty one. */
  datatype Db = Db(
    audiences: seq<Listing>, optIns: seq<OptIn>, segments: seq<Segment>, memberships: seq<Membership>,
    contacts: map<string, Contact>, rows: seq<Row>)

  datatype Recipient = Recipient(contactId: Option<string>, phone: string, metadata: Json)
  datatype Member = Member(contactId: Option<string>, phone: string)
  datatype Order = ContactIds(ids: seq<string>) | Members(members: seq<Member>)

  /** What an evaluation of a segment finds, and whether the segment's definition is of the second version. */
  datatype Evaluator = Evaluator(members: (Db, string) -> seq<string>, isV2: (Db, string) -> bool)

  /** What the resolver was built with: the evaluator if any, the hash, the stale minutes if a positive number. */
  datatype Env = Env(evaluate: Option<Evaluator>, hash: string -> string, staleMinutes: Option<real>)

  function Where<T>(p: T -> bool, s: seq<T>): seq<T> {
    if s == [] then [] else Where(p, s[..|s| - 1]) + (if p(s[|s| - 1]) then [s[|s| - 1]] else [])
  }

  predicate IsOptedIn(db: Db, tenant: string, audience: string) {
    var found := Where((a: Listing) => a.id == audience && a.tenant == tenant, db.audiences);
    found != [] && found[0].optedIn
  }

  function OptIns(db: Db, tenant: string): seq<OptIn> {
    Where((c: OptIn) => c.tenant == tenant && c.whatsApp && c.optedIn, db.optIns)
  }

  function DynamicSegments(db: Db, tenant: string, audience: string): seq<Segment> {
    Where((s: Segment) => s.audience == audience && s.tenant == tenant && s.dynamic, db.segments)
  }

  function ListRows(db: Db, audience: string): seq<Row> {
    Where((r: Row) => r.audience == audience, db.rows)
  }

  predicate E164(phone: string) {
    8 <= |phone| <= 16 && phone[0] == '+' && Decimal.AllDigits(phone[1..])
  }

  predicate FlaggedOff(metadata: Json) {
    metadata.Object? && "contactable" in metadata.fields && metadata.fields["contactable"] == Bool(false)
  }

  predicate IsContactable(phone: string, metadata: Json) { !FlaggedOff(metadata) && E164(phone) }

  function OrEmpty(metadata: Json): Json { if Falsy(metadata) then Object(map[]) else metadata }

  /** The contact under `id` if the query for contacts with a phone returns it and the phone is not empty. */
  function Reachable(db: Db, tenant: string, id: string): Option<Recipient> {
    if id in db.contacts && db.contacts[id].tenant == tenant && db.contacts[id].phone.Some?
       && db.contacts[id].phone.value != ""
    then Some(Recipient(Some(id), db.contacts[id].phone.value, OrEmpty(db.contacts[id].metadata)))
    else None
  }

  // ----- Membership of a segment audience -----

  function SegmentIds(segs: seq<Segment>): set<string> { set s | s in segs :: s.id }

  function ContactsOf(db: Db, segs: seq<Segment>): seq<string> {
    var ms := Where((m: Membership) => m.segment in SegmentIds(segs), db.memberships);
    seq(|ms|, i requires 0 <= i < |ms| => ms[i].contact)
  }

  /** Exactly one dynamic segment, and it has a seed. */
  predicate IsSeeded(segs: seq<Segment>) { |segs| == 1 && segs[0].seed != "" }

  function StaleMinutes(env: Env): real {
    if env.staleMinutes.Some? && env.staleMinutes.value > 0.0 then env.staleMinutes.value else 15.0
  }

  predicate IsStale(env: Env, seg: Segment, now: int) {
    seg.lastEvaluatedAt.None? || seg.lastEvaluatedAt.value as real < now as real - StaleMinutes(env) * 60000.0
  }

  function Stamp(seg: Segment, id: string, now: int): Segment {
    if seg.id == id then seg.(lastEvaluatedAt := Some(now)) else seg
  }

  function StampAll(segs: seq<Segment>, id: string, now: int): seq<Segment> {
    seq(|segs|, i requires 0 <= i < |segs| => Stamp(segs[i], id, now))
  }

  /** Rewrites the segment's memberships, and stamps the segment if its definition is of the second version. */
  function Evaluate(ev: Evaluator, db: Db, id: string, now: int): Db {
    var members := ev.members(db, id);
    db.(memberships := Where((m: Membership) => m.segment != id, db.memberships)
                       + seq(|members|, i requires 0 <= i < |members| => Membership(id, members[i])),
        segments := if ev.isV2(db, id) then StampAll(db.segments, id, now) else db.segments)
  }

  /** The database after the inline re-evaluation of a stale seeded segment. */
  function Refreshed(env: Env, db: Db, segs: seq<Segment>, now: int): Db {
    if IsSeeded(segs) && env.evaluate.Some? && IsStale(env, segs[0], now)
    then Evaluate(env.evaluate.value, db, segs[0].id, now)
    else db
  }

  function OrderedIds(env: Env, db: Db, segs: seq<Segment>): seq<string> {
    var ids := Distinct(ContactsOf(db, segs));
    if IsSeeded(segs) then HashOrder.OrderByHash(HashOrder.Draw(env.hash, segs[0].seed), ids) else ids
  }

  // ----- The two routes -----

  function OptInEntry(c: OptIn): Entry<Recipient> {
    Entry(c.phone, Recipient(c.contactId, c.phone, Object(map[])))
  }

  function RowEntries(rows: seq<Row>): seq<Entry<Recipient>> {
    if rows == [] then []
    else
      var r := rows[|rows| - 1];
      RowEntries(rows[..|rows| - 1])
      + (if IsContactable(r.phone, r.metadata)
         then [Entry(r.phone, Recipient(r.contactId, r.phone, OrEmpty(r.metadata)))]
         else [])
  }

  function OptInEntries(cs: seq<OptIn>): (r: seq<Entry<Recipient>>)
    ensures |r| == |cs| && forall i :: 0 <= i < |r| ==> r[i] == OptInEntry(cs[i])
  {
    seq(|cs|, i requires 0 <= i < |cs| => OptInEntry(cs[i]))
  }

  function ContactEntries(db: Db, tenant: string, ids: seq<string>): seq<Entry<Recipient>> {
    if ids == [] then []
    else
      var c := Reachable(db, tenant, ids[|ids| - 1]);
      ContactEntries(db, tenant, ids[..|ids| - 1]) + (if c.Some? then [Entry(c.value.phone, c.value)] else [])
  }

  /** Where the members of an audience come from. */
  datatype Source = FromOptIns | FromSegments(segs: seq<Segment>) | FromRows

  function SourceOf(db: Db, tenant: string, audience: string): Source {
    if IsOptedIn(db, tenant, audience) then FromOptIns
    else
      var segs := DynamicSegments(db, tenant, audience);
      if segs != [] then FromSegments(segs) else FromRows
  }

  /** The database that either route leaves: at most a stale seeded segment is evaluated again. */
  function After(env: Env, db: Db, tenant: string, audience: string, now: int): Db {
    match SourceOf(db, tenant, audience)
    case FromSegments(segs) => Refreshed(env, db, segs, now)
    case _ => db
  }

  function Entries(env: Env, db: Db, tenant: string, audience: string, src: Source): seq<Entry<Recipient>> {
    match src
    case FromOptIns => OptInEntries(OptIns(db, tenant))
    case FromSegments(segs) => ContactEntries(db, tenant, OrderedIds(env, db, segs))
    case FromRows => RowEntries(ListRows(db, audience))
  }

  /** What the eager route returns. */
  function Recipients(env: Env, db: Db, tenant: string, audience: string, now: int): seq<Recipient> {
    var src, after := SourceOf(db, tenant, audience), After(env, db, tenant, audience, now);
    var es := Entries(env, after, tenant, audience, src);
    SetAllValid(Empty<Recipient>(), es);
    Values(SetAll(Empty(), es))
  }

  function AsMember(r: Recipient): Member { Member(r.contactId, r.phone) }

  /** What the windowed route returns. */
  function MemberOrder(env: Env, db: Db, tenant: string, audience: string, now: int): Order {
    var src, after := SourceOf(db, tenant, audience), After(env, db, tenant, audience, now);
    match src
    case FromSegments(segs) => ContactIds(OrderedIds(env, after, segs))
    case _ =>
      var es := MapEntries(AsMember, Entries(env, after, tenant, audience, src));
      SetAllValid(Empty<Member>(), es);
      Members(Values(SetAll(Empty(), es)))
  }

  /** One window of member identity, as the dispatcher hydrates it. */
  function Hydrate(db: Db, tenant: string, ids: seq<string>): seq<Entry<Member>> {
    MapEntries(AsMember, ContactEntries(db, tenant, ids))
  }

  function HydrateAll(db: Db, tenant: string, windows: seq<seq<string>>): seq<Entry<Member>> {
    if windows == [] then []
    else HydrateAll(db, tenant, windows[..|windows| - 1]) + Hydrate(db, tenant, windows[|windows| - 1])
  }

  function Concat(windows: seq<seq<string>>): seq<string> {
    if windows == [] then [] else Concat(windows[..|windows| - 1]) + windows[|windows| - 1]
  }

  // ----- The routes agree -----

  /** Static and opted-in audiences: the members are the recipients' identities, one for one. */
  lemma MembersAreRecipients(env: Env, db: Db, tenant: string, audience: string, now: int)
    requires !SourceOf(db, tenant, audience).FromSegments?
    ensures MemberOrder(env, db, tenant, audience, now)
            == Members(MapSeq(AsMember, Recipients(env, db, tenant, audience, now)))
  {
    var es := Entries(env, After(env, db, tenant, audience, now), tenant, audience, SourceOf(db, tenant, audience));
    ValuesOfMapped(AsMember, es);
  }

  lemma {:induction false} EntriesAppend(db: Db, tenant: string, a: seq<string>, b: seq<string>)
    ensures ContactEntries(db, tenant, a + b) == ContactEntries(db, tenant, a) + ContactEntries(db, tenant, b)
  {
    if b == [] {
      assert a + b == a;
    } else {
      EntriesAppend(db, tenant, a, b[..|b| - 1]);
      assert (a + b)[..|a + b| - 1] == a + b[..|b| - 1];
    }
  }

  lemma {:induction false} WindowsHydrateAll(db: Db, tenant: string, windows: seq<seq<string>>)
    ensures HydrateAll(db, tenant, windows) == MapEntries(AsMember, ContactEntries(db, tenant, Concat(windows)))
  {
    if windows != [] {
      var front, last := windows[..|windows| - 1], windows[|windows| - 1];
      WindowsHydrateAll(db, tenant, front);
      EntriesAppend(db, tenant, Concat(front), last);
    }
  }

  /** Segment audiences: windows of any sizes, put into one map, give the recipients' identities. */
  lemma WindowsAreRecipients(env: Env, db: Db, tenant: string, audience: string, now: int, windows: seq<seq<string>>)
    requires MemberOrder(env, db, tenant, audience, now) == ContactIds(Concat(windows))
    ensures var all := HydrateAll(After(env, db, tenant, audience, now), tenant, windows);
            SetAll(Empty<Member>(), all).Valid()
            && Values(SetAll(Empty<Member>(), all)) == MapSeq(AsMember, Recipients(env, db, tenant, audience, now))
  {
    var after := After(env, db, tenant, audience, now);
    WindowsHydrateAll(after, tenant, windows);
    ValuesOfMapped(AsMember, ContactEntries(after, tenant, Concat(windows)));
  }

  /** Each entry goes in under its own phone. */
  lemma {:induction false} KeyedByPhone(es: seq<Entry<Recipient>>, i: nat)
    requires forall j :: 0 <= j < |es| ==> es[j].key == es[j].val.phone
    requires i < |SetAll(Empty<Recipient>(), es).keys|
    ensures var m := SetAll(Empty<Recipient>(), es); m.keys[i] in m.vals && m.vals[m.keys[i]].phone == m.keys[i]
  {
    SetAllValid(Empty<Recipient>(), es);
    var n := |es| - 1;
    var before := SetAll(Empty<Recipient>(), es[..n]);
    SetAllValid(Empty<Recipient>(), es[..n]);
    if i < |before.keys| { KeyedByPhone(es[..n], i); }
  }

  lemma {:induction false} ContactEntriesKeyed(db: Db, tenant: string, ids: seq<string>, j: nat)
    requires j < |ContactEntries(db, tenant, ids)|
    ensures var e := ContactEntries(db, tenant, ids)[j]; e.key == e.val.phone
  {
    var front := ContactEntries(db, tenant, ids[..|ids| - 1]);
    if j < |front| { ContactEntriesKeyed(db, tenant, ids[..|ids| - 1], j); }
  }

  lemma {:induction false} RowEntriesKeyed(rows: seq<Row>, j: nat)
    requires j < |RowEntries(rows)|
    ensures var e := RowEntries(rows)[j]; e.key == e.val.phone && E164(e.key)
  {
    var front := RowEntries(rows[..|rows| - 1]);
    if j < |front| { RowEntriesKeyed(rows[..|rows| - 1], j); }
  }

  lemma EntriesKeyed(env: Env, db: Db, tenant: string, audience: string, src: Source, j: nat)
    requires j < |Entries(env, db, tenant, audience, src)|
    ensures var e := Entries(env, db, tenant, audience, src)[j]; e.key == e.val.phone
  {
    match src
    case FromOptIns =>
    case FromSegments(segs) => ContactEntriesKeyed(db, tenant, OrderedIds(env, db, segs), j);
    case FromRows => RowEntriesKeyed(ListRows(db, audience), j);
  }

  ghost predicate DistinctPhones(rs: seq<Recipient>) {
    forall i, j :: 0 <= i < j < |rs| ==> rs[i].phone != rs[j].phone
  }

  /**
   * No phone twice; and `i` and `j` being the first and the last entry for the phone of the
   * recipient at `p`, that recipient is entry `j`, and it stands in the order of the first entries.
   */
  lemma PhonesOnceInOrder(env: Env, db: Db, tenant: string, audience: string, now: int)
    ensures DistinctPhones(Recipients(env, db, tenant, audience, now))
    ensures var rs := Recipients(env, db, tenant, audience, now);
            var src, after := SourceOf(db, tenant, audience), After(env, db, tenant, audience, now);
            var es := Entries(env, after, tenant, audience, src);
            && (forall p: nat, j: nat :: p < |rs| && IsLast(es, rs[p].phone, j) ==> rs[p] == es[j].val)
            && (forall p: nat, q: nat, i: nat, j: nat ::
                  (p < q < |rs| && IsFirst(es, rs[p].phone, i) && IsFirst(es, rs[q].phone, j)) ==> i < j)
            && (forall j: nat :: j < |es| ==> exists p: nat :: p < |rs| && rs[p].phone == es[j].key)
  {
    var rs := Recipients(env, db, tenant, audience, now);
    var es := Entries(env, After(env, db, tenant, audience, now), tenant, audience, SourceOf(db, tenant, audience));
    var m := SetAll(Empty<Recipient>(), es);
    SetAllValid(Empty<Recipient>(), es);
    assert rs == Values(m);
    forall j | 0 <= j < |es| ensures es[j].key == es[j].val.phone {
      EntriesKeyed(env, After(env, db, tenant, audience, now), tenant, audience, SourceOf(db, tenant, audience), j);
    }
    forall p: nat | p < |rs| ensures rs[p].phone == m.keys[p] { KeyedByPhone(es, p); }
    forall p: nat, j: nat | p < |rs| && IsLast(es, rs[p].phone, j) ensures rs[p] == es[j].val {
      LastEntryWins(es, rs[p].phone, j);
    }
    forall p: nat, q: nat, i: nat, j: nat |
      p < q < |rs| && IsFirst(es, rs[p].phone, i) && IsFirst(es, rs[q].phone, j) ensures i < j {
      FirstEntryPlaces(es, p, q, i, j);
    }
    forall j: nat | j < |es| ensures exists p: nat :: p < |rs| && rs[p].phone == es[j].key {
      assert KeyAt(es, j, es[j].key);
      KeyThere(es, es[j].key);
      var p :| 0 <= p < |m.keys| && m.keys[p] == es[j].key;
      assert rs[p].phone == es[j].key;
    }
  }

  // ----- Ids of a segment audience -----

  /** Each member contact of the segments once, and no other. */
  lemma OrderedIdsAreTheMembers(env: Env, db: Db, segs: seq<Segment>)
    ensures NoDup(OrderedIds(env, db, segs))
    ensures Elems(OrderedIds(env, db, segs)) == Elems(ContactsOf(db, segs))
  {
    var ids := Distinct(ContactsOf(db, segs));
    DistinctIds(ContactsOf(db, segs));
    if IsSeeded(segs) {
      var d := HashOrder.Draw(env.hash, segs[0].seed);
      HashOrder.OrderIsSorted(d, ids);
      HashOrder.InOrderNoDup(d, HashOrder.OrderByHash(d, ids));
    }
  }

  /** With a seed, stored order is irrelevant: the members and the seed fix the order. */
  lemma SeededOrderIsFixed(env: Env, db: Db, other: Db, segs: seq<Segment>, stamped: seq<Segment>)
    requires IsSeeded(segs) && IsSeeded(stamped) && segs[0].seed == stamped[0].seed
    requires Elems(ContactsOf(db, segs)) == Elems(ContactsOf(other, stamped))
    ensures OrderedIds(env, db, segs) == OrderedIds(env, other, stamped)
  {
    DistinctIds(ContactsOf(db, segs));
    DistinctIds(ContactsOf(other, stamped));
    HashOrder.OrderIsCanonical(
      HashOrder.Draw(env.hash, segs[0].seed), Distinct(ContactsOf(db, segs)), Distinct(ContactsOf(other, stamped)));
  }

  // ----- The dispatcher's walk -----

  /** `slice(offset, offset + size)` for offset 0, size, twice size and so on. */
  function Windows(ids: seq<string>, size: nat): seq<seq<string>>
    requires size > 0
  {
    if |ids| <= size then (if ids == [] then [] else [ids])
    else [ids[..size]] + Windows(ids[size..], size)
  }

  lemma {:induction false} ConcatFirst(window: seq<string>, windows: seq<seq<string>>)
    ensures Concat([window] + windows) == window + Concat(windows)
  {
    var all := [window] + windows;
    if windows == [] {
      assert all[..0] == [] && Concat(all) == Concat([]) + window;
    } else {
      ConcatFirst(window, windows[..|windows| - 1]);
      assert all[..|all| - 1] == [window] + windows[..|windows| - 1];
    }
  }

  lemma {:induction false} WindowsCover(ids: seq<string>, size: nat)
    requires size > 0
    ensures Concat(Windows(ids, size)) == ids
  {
    if |ids| <= size {
      if ids != [] { assert [ids] == [ids] + []; ConcatFirst(ids, []); }
    } else {
      WindowsCover(ids[size..], size);
      ConcatFirst(ids[..size], Windows(ids[size..], size));
    }
  }

  predicate SamePhone(db: Db, tenant: string, a: string, b: string) {
    var x, y := Reachable(db, tenant, a), Reachable(db, tenant, b);
    x.Some? && y.Some? && x.value.phone == y.value.phone
  }

  ghost predicate PhonesDiffer(db: Db, tenant: string, ids: seq<string>) {
    forall a, b :: a in ids && b in ids && a != b ==> !SamePhone(db, tenant, a, b)
  }

  lemma {:induction false} EntryIsOf(db: Db, tenant: string, ids: seq<string>, i: nat)
    requires i < |ContactEntries(db, tenant, ids)|
    ensures var e := ContactEntries(db, tenant, ids)[i];
            e.val.contactId.Some? && e.val.contactId.value in ids
            && Reachable(db, tenant, e.val.contactId.value) == Some(e.val) && e.key == e.val.phone
  {
    var front := ContactEntries(db, tenant, ids[..|ids| - 1]);
    if i < |front| { EntryIsOf(db, tenant, ids[..|ids| - 1], i); }
  }

  lemma {:induction false} EntriesDiffer(db: Db, tenant: string, ids: seq<string>, i: nat, j: nat)
    requires NoDup(ids) && i < j < |ContactEntries(db, tenant, ids)|
    ensures var es := ContactEntries(db, tenant, ids); es[i].val.contactId != es[j].val.contactId
  {
    var n := |ids| - 1;
    var front := ContactEntries(db, tenant, ids[..n]);
    if j < |front| {
      EntriesDiffer(db, tenant, ids[..n], i, j);
    } else {
      EntryIsOf(db, tenant, ids[..n], i);
    }
  }

  lemma {:induction false} IdHasEntry(db: Db, tenant: string, ids: seq<string>, id: string) returns (i: nat)
    requires id in ids && Reachable(db, tenant, id).Some?
    ensures i < |ContactEntries(db, tenant, ids)|
    ensures ContactEntries(db, tenant, ids)[i].val == Reachable(db, tenant, id).value
  {
    var n := |ids| - 1;
    if ids[n] == id {
      i := |ContactEntries(db, tenant, ids)| - 1;
    } else {
      assert id in ids[..n];
      i := IdHasEntry(db, tenant, ids[..n], id);
    }
  }

  lemma EndsAgreeIffPhonesDiffer(db: Db, tenant: string, ids: seq<string>)
    requires NoDup(ids)
    ensures EndsAgree(ContactEntries(db, tenant, ids)) <==> PhonesDiffer(db, tenant, ids)
  {
    var es := ContactEntries(db, tenant, ids);
    if PhonesDiffer(db, tenant, ids) {
      forall k, i: nat, j: nat | IsFirst(es, k, i) && IsLast(es, k, j) ensures es[i].val == es[j].val {
        EntryIsOf(db, tenant, ids, i);
        EntryIsOf(db, tenant, ids, j);
        assert !SamePhone(db, tenant, es[i].val.contactId.value, es[j].val.contactId.value)
               || es[i].val.contactId.value == es[j].val.contactId.value;
      }
    }
    if EndsAgree(es) {
      forall a, b | a in ids && b in ids && a != b ensures !SamePhone(db, tenant, a, b) {
        if SamePhone(db, tenant, a, b) { SharedPhoneDisagrees(db, tenant, ids, a, b); }
      }
    }
  }

  lemma SharedPhoneDisagrees(db: Db, tenant: string, ids: seq<string>, a: string, b: string)
    requires NoDup(ids) && a in ids && b in ids && a != b && SamePhone(db, tenant, a, b)
    ensures !EndsAgree(ContactEntries(db, tenant, ids))
  {
    var es := ContactEntries(db, tenant, ids);
    var i := IdHasEntry(db, tenant, ids, a);
    var j := IdHasEntry(db, tenant, ids, b);
    EntryIsOf(db, tenant, ids, i);
    EntryIsOf(db, tenant, ids, j);
    var k := es[i].key;
    assert KeyAt(es, i, k) && KeyAt(es, j, k) && i != j;
    var first := HasFirst(es, k, i);
    var last := HasLast(es, k, i);
    assert first <= i <= last && first <= j <= last by {
      assert i < first ==> !KeyAt(es, i, k);
      assert j < first ==> !KeyAt(es, j, k);
      assert last < i ==> !KeyAt(es, i, k);
      assert last < j ==> !KeyAt(es, j, k);
    }
    EntriesDiffer(db, tenant, ids, first, last);
  }

  lemma {:induction false} MappedKeepFirst(es: seq<Entry<Recipient>>)
    ensures var m, n := KeepFirst(es), KeepFirst(MapEntries(AsMember, es));
            && n.keys == m.keys && n.vals.Keys == m.vals.Keys
            && forall k :: k in m.vals ==> n.vals[k] == AsMember(m.vals[k])
  {
    if es != [] {
      MappedKeepFirst(es[..|es| - 1]);
      assert MapEntries(AsMember, es)[..|es| - 1] == MapEntries(AsMember, es[..|es| - 1]);
    }
  }

  /**
   * The walk skips a phone it has seen, the eager route lets the last contact replace the
   * first: both meet the same phones in the same order, and the same contacts
   * if and only if no two reachable members share a phone.
   */
  lemma WalkAgreesIffPhonesDiffer(env: Env, db: Db, tenant: string, audience: string, now: int, size: nat)
    requires SourceOf(db, tenant, audience).FromSegments? && size > 0
    ensures var after := After(env, db, tenant, audience, now);
            var ids := MemberOrder(env, db, tenant, audience, now).ids;
            var walk := KeepFirst(HydrateAll(after, tenant, Windows(ids, size)));
            var all := SetAll(Empty<Recipient>(), ContactEntries(after, tenant, ids));
            && walk.keys == all.keys && walk.vals.Keys == all.vals.Keys
            && ((forall k :: k in all.vals ==> walk.vals[k] == AsMember(all.vals[k]))
                <==> PhonesDiffer(after, tenant, ids))
  {
    var after := After(env, db, tenant, audience, now);
    var ids := MemberOrder(env, db, tenant, audience, now).ids;
    var segs := SourceOf(db, tenant, audience).segs;
    OrderedIdsAreTheMembers(env, after, segs);
    WindowsCover(ids, size);
    WindowsHydrateAll(after, tenant, Windows(ids, size));
    WalkOnEntries(after, tenant, ids);
  }

  lemma WalkOnEntries(db: Db, tenant: string, ids: seq<string>)
    requires NoDup(ids)
    ensures var es := ContactEntries(db, tenant, ids);
            var walk, all := KeepFirst(MapEntries(AsMember, es)), SetAll(Empty<Recipient>(), es);
            && walk.keys == all.keys && walk.vals.Keys == all.vals.Keys
            && ((forall k :: k in all.vals ==> walk.vals[k] == AsMember(all.vals[k]))
                <==> PhonesDiffer(db, tenant, ids))
  {
    var es := ContactEntries(db, tenant, ids);
    MappedKeepFirst(es);
    SameKeys(es);
    EndsAgreeIffPhonesDiffer(db, tenant, ids);
    FirstIsLastIff(es);
    var first, all := KeepFirst(es), SetAll(Empty<Recipient>(), es);
    if forall k :: k in all.vals ==> AsMember(first.vals[k]) == AsMember(all.vals[k]) {
      forall k | k in all.vals ensures first.vals[k] == all.vals[k] {
        SameIdSameValue(db, tenant, ids, k);
      }
      assert first.vals == all.vals;
    }
  }

  lemma SameIdSameValue(db: Db, tenant: string, ids: seq<string>, k: string)
    requires var es := ContactEntries(db, tenant, ids);
             k in SetAll(Empty<Recipient>(), es).vals && k in KeepFirst(es).vals
             && AsMember(KeepFirst(es).vals[k]) == AsMember(SetAll(Empty<Recipient>(), es).vals[k])
    ensures var es := ContactEntries(db, tenant, ids);
            KeepFirst(es).vals[k] == SetAll(Empty<Recipient>(), es).vals[k]
  {
    var es := ContactEntries(db, tenant, ids);
    KeyThere(es, k);
    var m: nat :| KeyAt(es, m, k);
    var i := HasFirst(es, k, m);
    var j := HasLast(es, k, m);
    FirstEntryKept(es, k, i);
    LastEntryWins(es, k, j);
    EntryIsOf(db, tenant, ids, i);
    EntryIsOf(db, tenant, ids, j);
  }

  // ----- What the unique keys of the store give -----

  /** A phone has one contact in a tenant, one row in a list, and one WhatsApp consent in a tenant. */
  ghost predicate UniqueKeys(db: Db) {
    && (forall a, b :: a in db.contacts && b in db.contacts && a != b && db.contacts[a].phone.Some? ==>
          db.contacts[a].tenant != db.contacts[b].tenant || db.contacts[a].phone != db.contacts[b].phone)
    && (forall i, j :: 0 <= i < j < |db.rows| ==>
          db.rows[i].audience != db.rows[j].audience || db.rows[i].phone != db.rows[j].phone)
    && (forall i, j :: 0 <= i < j < |db.optIns| && db.optIns[i].whatsApp && db.optIns[j].whatsApp ==>
          db.optIns[i].tenant != db.optIns[j].tenant || db.optIns[i].phone != db.optIns[j].phone)
  }

  lemma EvaluationKeepsKeys(env: Env, db: Db, tenant: string, audience: string, now: int)
    requires UniqueKeys(db)
    ensures UniqueKeys(After(env, db, tenant, audience, now))
  {
  }

  /** So no two contacts of a tenant share a phone. */
  lemma StoredPhonesDiffer(db: Db, tenant: string, ids: seq<string>)
    requires UniqueKeys(db)
    ensures PhonesDiffer(db, tenant, ids)
  {
  }

  lemma ContactKeysOnce(db: Db, tenant: string, ids: seq<string>)
    requires NoDup(ids) && UniqueKeys(db)
    ensures KeysOnce(ContactEntries(db, tenant, ids))
  {
    var es := ContactEntries(db, tenant, ids);
    StoredPhonesDiffer(db, tenant, ids);
    forall i: nat, j: nat | i < j < |es| ensures es[i].key != es[j].key {
      EntriesDiffer(db, tenant, ids, i, j);
      EntryIsOf(db, tenant, ids, i);
      EntryIsOf(db, tenant, ids, j);
      assert !SamePhone(db, tenant, es[i].val.contactId.value, es[j].val.contactId.value);
    }
  }

  lemma {:induction false} WhereKeeps<T>(p: T -> bool, s: seq<T>, x: T)
    ensures x in Where(p, s) <==> x in s && p(x)
  {
    if s != [] {
      WhereKeeps(p, s[..|s| - 1], x);
      assert s == s[..|s| - 1] + [s[|s| - 1]];
    }
  }

  ghost predicate RowPhonesOnce(rows: seq<Row>) {
    forall i, j :: 0 <= i < j < |rows| ==> rows[i].phone != rows[j].phone
  }

  lemma {:induction false} ListPhonesOnce(rows: seq<Row>, audience: string)
    requires forall i, j :: 0 <= i < j < |rows| ==>
               rows[i].audience != rows[j].audience || rows[i].phone != rows[j].phone
    ensures RowPhonesOnce(Where((r: Row) => r.audience == audience, rows))
  {
    if rows != [] {
      var p := (r: Row) => r.audience == audience;
      var n := |rows| - 1;
      ListPhonesOnce(rows[..n], audience);
      var front := Where(p, rows[..n]);
      forall i | 0 <= i < |front| && p(rows[n]) ensures front[i].phone != rows[n].phone {
        WhereKeeps(p, rows[..n], front[i]);
        var k :| 0 <= k < n && rows[..n][k] == front[i];
      }
    }
  }

  lemma {:induction false} RowEntryIsOf(rows: seq<Row>, i: nat) returns (k: nat)
    requires i < |RowEntries(rows)|
    ensures k < |rows| && rows[k].phone == RowEntries(rows)[i].key
  {
    var n := |rows| - 1;
    if i < |RowEntries(rows[..n])| {
      k := RowEntryIsOf(rows[..n], i);
    } else {
      k := n;
    }
  }

  lemma {:induction false} RowKeysOnce(rows: seq<Row>)
    requires RowPhonesOnce(rows)
    ensures KeysOnce(RowEntries(rows))
  {
    if rows != [] {
      var n := |rows| - 1;
      var front := RowEntries(rows[..n]);
      RowKeysOnce(rows[..n]);
      forall i: nat | i < |front| ensures front[i].key != rows[n].phone {
        var k := RowEntryIsOf(rows[..n], i);
      }
    }
  }

  lemma {:induction false} OptInPhonesOnce(cs: seq<OptIn>, tenant: string)
    requires forall i, j :: 0 <= i < j < |cs| && cs[i].whatsApp && cs[j].whatsApp ==>
               cs[i].tenant != cs[j].tenant || cs[i].phone != cs[j].phone
    ensures KeysOnce(OptInEntries(Where((c: OptIn) => c.tenant == tenant && c.whatsApp && c.optedIn, cs)))
  {
    if cs != [] {
      var p := (c: OptIn) => c.tenant == tenant && c.whatsApp && c.optedIn;
      var n := |cs| - 1;
      OptInPhonesOnce(cs[..n], tenant);
      var front := Where(p, cs[..n]);
      forall i | 0 <= i < |front| && p(cs[n]) ensures front[i].phone != cs[n].phone {
        WhereKeeps(p, cs[..n], front[i]);
        var k :| 0 <= k < n && cs[..n][k] == front[i];
      }
      OptInsGrow(front, Where(p, cs), cs[n]);
    }
  }

  lemma OptInsGrow(front: seq<OptIn>, all: seq<OptIn>, last: OptIn)
    requires KeysOnce(OptInEntries(front)) && (all == front || all == front + [last])
    requires all == front + [last] ==> forall i :: 0 <= i < |front| ==> front[i].phone != last.phone
    ensures KeysOnce(OptInEntries(all))
  {
  }

  /** On a stored database no phone comes twice, whatever the source. */
  lemma StoredKeysOnce(env: Env, db: Db, tenant: string, audience: string, now: int)
    requires UniqueKeys(db)
    ensures var src, after := SourceOf(db, tenant, audience), After(env, db, tenant, audience, now);
            KeysOnce(Entries(env, after, tenant, audience, src))
  {
    var after := After(env, db, tenant, audience, now);
    EvaluationKeepsKeys(env, db, tenant, audience, now);
    match SourceOf(db, tenant, audience)
    case FromOptIns => OptInPhonesOnce(db.optIns, tenant);
    case FromRows =>
      ListPhonesOnce(db.rows, audience);
      RowKeysOnce(ListRows(db, audience));
    case FromSegments(segs) =>
      OrderedIdsAreTheMembers(env, after, segs);
      ContactKeysOnce(after, tenant, OrderedIds(env, after, segs));
  }

  /** So deduplication drops nobody and replaces nobody: every entry is a recipient, in its place. */
  lemma RecipientsAreEntries(env: Env, db: Db, tenant: string, audience: string, now: int)
    requires UniqueKeys(db)
    ensures var src, after := SourceOf(db, tenant, audience), After(env, db, tenant, audience, now);
            Recipients(env, db, tenant, audience, now) == ValuesOf(Entries(env, after, tenant, audience, src))
  {
    StoredKeysOnce(env, db, tenant, audience, now);
    var src, after := SourceOf(db, tenant, audience), After(env, db, tenant, audience, now);
    OnceIsIdentity(Entries(env, after, tenant, audience, src));
  }

  // ----- A later run -----

  lemma {:induction false} StampedWhere(segs: seq<Segment>, tenant: string, audience: string, id: string, now: int)
    ensures Where((s: Segment) => s.audience == audience && s.tenant == tenant && s.dynamic, StampAll(segs, id, now))
            == StampAll(Where((s: Segment) => s.audience == audience && s.tenant == tenant && s.dynamic, segs), id, now)
  {
    if segs != [] {
      StampedWhere(segs[..|segs| - 1], tenant, audience, id, now);
      assert StampAll(segs, id, now)[..|segs| - 1] == StampAll(segs[..|segs| - 1], id, now);
    }
  }

  /**
   * Once a stale seeded segment of the second version was evaluated, a run within the stale minutes
   * evaluates nothing and finds the same members in the same order, by either route.
   */
  lemma LaterRunAgrees(env: Env, db: Db, tenant: string, audience: string, now: int, later: int)
    requires env.evaluate.Some? && SourceOf(db, tenant, audience).FromSegments?
    requires var segs := SourceOf(db, tenant, audience).segs;
             IsSeeded(segs) && IsStale(env, segs[0], now) && env.evaluate.value.isV2(db, segs[0].id)
    requires later as real <= now as real + StaleMinutes(env) * 60000.0
    ensures var after := After(env, db, tenant, audience, now);
            && After(env, after, tenant, audience, later) == after
            && MemberOrder(env, after, tenant, audience, later) == MemberOrder(env, db, tenant, audience, now)
            && Recipients(env, after, tenant, audience, later) == Recipients(env, db, tenant, audience, now)
  {
    var segs := SourceOf(db, tenant, audience).segs;
    var after := After(env, db, tenant, audience, now);
    var stamped := StampAll(segs, segs[0].id, now);
    StampedSource(env, db, tenant, audience, now);
    assert !IsStale(env, stamped[0], later);
    assert After(env, after, tenant, audience, later) == after;
    SameOrderOnceStamped(env, after, segs, now);
  }

  lemma StampedSource(env: Env, db: Db, tenant: string, audience: string, now: int)
    requires env.evaluate.Some? && SourceOf(db, tenant, audience).FromSegments?
    requires var segs := SourceOf(db, tenant, audience).segs;
             IsSeeded(segs) && IsStale(env, segs[0], now) && env.evaluate.value.isV2(db, segs[0].id)
    ensures var segs := SourceOf(db, tenant, audience).segs;
            SourceOf(After(env, db, tenant, audience, now), tenant, audience)
            == FromSegments(StampAll(segs, segs[0].id, now))
  {
    var segs := SourceOf(db, tenant, audience).segs;
    assert After(env, db, tenant, audience, now) == Evaluate(env.evaluate.value, db, segs[0].id, now);
    StampedWhere(db.segments, tenant, audience, segs[0].id, now);
  }

  lemma SameOrderOnceStamped(env: Env, db: Db, segs: seq<Segment>, now: int)
    requires IsSeeded(segs)
    ensures OrderedIds(env, db, StampAll(segs, segs[0].id, now)) == OrderedIds(env, db, segs)
  {
    var stamped := StampAll(segs, segs[0].id, now);
    assert stamped[0].id == segs[0].id && stamped[0].seed == segs[0].seed;
    assert SegmentIds(stamped) == SegmentIds(segs) == {segs[0].id};
    assert ContactsOf(db, stamped) == ContactsOf(db, segs);
  }
}
