/** Entries picked from a sequence, and what deduplicating them by phone leaves. */
module Picks {
  import opened OrderedDedup
  import opened Audience

  /** The places of what `p` picks. */
  function Picked<T>(p: T -> bool, xs: seq<T>): seq<nat> {
    if xs == [] then [] else var n := |xs| - 1; Picked(p, xs[..n]) + if p(xs[n]) then [n] else []
  }

  lemma {:induction false} InPicked<T>(p: T -> bool, xs: seq<T>, i: nat)
    ensures i in Picked(p, xs) <==> i < |xs| && p(xs[i])
  {
    if xs != [] {
      var n := |xs| - 1;
      InPicked(p, xs[..n], i);
      assert i < n ==> xs[..n][i] == xs[i];
    }
  }

  lemma {:induction false} PickedAscends<T>(p: T -> bool, xs: seq<T>, a: nat, b: nat)
    requires a < b < |Picked(p, xs)|
    ensures Picked(p, xs)[a] < Picked(p, xs)[b]
  {
    var n := |xs| - 1;
    var front := Picked(p, xs[..n]);
    if b < |front| {
      PickedAscends(p, xs[..n], a, b);
    } else {
      InPicked(p, xs[..n], front[a]);
    }
  }

  /** How an element becomes an entry: which are picked, their phones and their recipients. */
  datatype How<!T> = How(pick: T -> bool, phone: T -> string, recipient: T -> Recipient)

  ghost predicate IsEntryOf<T(!new)>(h: How<T>, x: T, e: Entry<Recipient>) {
    e.key == h.phone(x) && e.val == h.recipient(x)
  }

  /** The entries are those of the picked elements, in order. */
  ghost predicate Lists<T(!new)>(es: seq<Entry<Recipient>>, h: How<T>, xs: seq<T>) {
    var ps := Picked(h.pick, xs);
    |es| == |ps| && forall a :: 0 <= a < |es| ==> ps[a] < |xs| && IsEntryOf(h, xs[ps[a]], es[a])
  }

  predicate PicksAt<T>(h: How<T>, xs: seq<T>, phone: string, i: nat) {
    i < |xs| && h.pick(xs[i]) && h.phone(xs[i]) == phone
  }

  ghost predicate FirstPick<T(!new)>(h: How<T>, xs: seq<T>, phone: string, i: nat) {
    PicksAt(h, xs, phone, i) && forall j: nat :: j < i ==> !PicksAt(h, xs, phone, j)
  }

  ghost predicate LastPick<T(!new)>(h: How<T>, xs: seq<T>, phone: string, i: nat) {
    PicksAt(h, xs, phone, i) && forall j: nat :: i < j ==> !PicksAt(h, xs, phone, j)
  }

  ghost predicate IsRecipient(rs: seq<Recipient>, phone: string) {
    exists q :: 0 <= q < |rs| && rs[q].phone == phone
  }

  /**
   * The recipients have exactly the phones of what is picked, each once, in the order of the first pick of each,
   * and with what the last pick of each says.
   */
  ghost predicate Deduplicates<T(!new)>(rs: seq<Recipient>, h: How<T>, xs: seq<T>) {
    && DistinctPhones(rs)
    && (forall phone :: IsRecipient(rs, phone) <==> exists i: nat :: PicksAt(h, xs, phone, i))
    && (forall q, i: nat :: 0 <= q < |rs| && LastPick(h, xs, rs[q].phone, i) ==> rs[q] == h.recipient(xs[i]))
    && (forall p, q, i: nat, j: nat ::
          0 <= p < q < |rs| && FirstPick(h, xs, rs[p].phone, i) && FirstPick(h, xs, rs[q].phone, j) ==> i < j)
  }

  lemma PickIsEntry<T(!new)>(es: seq<Entry<Recipient>>, h: How<T>, xs: seq<T>, phone: string, i: nat) returns (a: nat)
    requires Lists(es, h, xs) && PicksAt(h, xs, phone, i)
    ensures KeyAt(es, a, phone) && es[a].val == h.recipient(xs[i])
    ensures a < |Picked(h.pick, xs)| && Picked(h.pick, xs)[a] == i
  {
    InPicked(h.pick, xs, i);
    a :| 0 <= a < |Picked(h.pick, xs)| && Picked(h.pick, xs)[a] == i;
    assert IsEntryOf(h, xs[i], es[a]);
  }

  lemma EntryIsPick<T(!new)>(es: seq<Entry<Recipient>>, h: How<T>, xs: seq<T>, phone: string, a: nat)
    requires Lists(es, h, xs) && KeyAt(es, a, phone)
    ensures PicksAt(h, xs, phone, Picked(h.pick, xs)[a])
  {
    var i := Picked(h.pick, xs)[a];
    assert i in Picked(h.pick, xs);
    InPicked(h.pick, xs, i);
    assert IsEntryOf(h, xs[i], es[a]);
  }

  lemma LastPickIsLast<T(!new)>(es: seq<Entry<Recipient>>, h: How<T>, xs: seq<T>, phone: string, i: nat)
    returns (a: nat)
    requires Lists(es, h, xs) && LastPick(h, xs, phone, i)
    ensures IsLast(es, phone, a) && es[a].val == h.recipient(xs[i])
  {
    a := PickIsEntry(es, h, xs, phone, i);
    forall b: nat | a < b ensures !KeyAt(es, b, phone) {
      if KeyAt(es, b, phone) {
        EntryIsPick(es, h, xs, phone, b);
        PickedAscends(h.pick, xs, a, b);
      }
    }
  }

  lemma FirstPickIsFirst<T(!new)>(es: seq<Entry<Recipient>>, h: How<T>, xs: seq<T>, phone: string, i: nat)
    returns (a: nat)
    requires Lists(es, h, xs) && FirstPick(h, xs, phone, i)
    ensures IsFirst(es, phone, a) && a < |Picked(h.pick, xs)| && Picked(h.pick, xs)[a] == i
  {
    a := PickIsEntry(es, h, xs, phone, i);
    forall b: nat | b < a ensures !KeyAt(es, b, phone) {
      if KeyAt(es, b, phone) {
        EntryIsPick(es, h, xs, phone, b);
        PickedAscends(h.pick, xs, b, a);
      }
    }
  }

  // ----- The recipients of an audience, from its entries -----

  ghost function EntriesOf(env: Env, db: Db, tenant: string, audience: string, now: int): seq<Entry<Recipient>> {
    Entries(env, After(env, db, tenant, audience, now), tenant, audience, SourceOf(db, tenant, audience))
  }

  lemma PhonesOfEntries(env: Env, db: Db, tenant: string, audience: string, now: int, phone: string)
    ensures IsRecipient(Recipients(env, db, tenant, audience, now), phone)
            <==> HasKey(EntriesOf(env, db, tenant, audience, now), phone)
  {
    var rs, es := Recipients(env, db, tenant, audience, now), EntriesOf(env, db, tenant, audience, now);
    PhonesOnceInOrder(env, db, tenant, audience, now);
    if a: nat :| KeyAt(es, a, phone) {
      var p: nat :| p < |rs| && rs[p].phone == es[a].key;
    }
    if IsRecipient(rs, phone) {
      var q :| 0 <= q < |rs| && rs[q].phone == phone;
      RecipientHasKey(env, db, tenant, audience, now, q);
    }
  }

  lemma RecipientHasKey(env: Env, db: Db, tenant: string, audience: string, now: int, q: nat)
    requires q < |Recipients(env, db, tenant, audience, now)|
    ensures HasKey(EntriesOf(env, db, tenant, audience, now), Recipients(env, db, tenant, audience, now)[q].phone)
  {
    var es := EntriesOf(env, db, tenant, audience, now);
    var m := SetAll(Empty<Recipient>(), es);
    SetAllValid(Empty<Recipient>(), es);
    forall j | 0 <= j < |es| ensures es[j].key == es[j].val.phone {
      EntriesKeyed(env, After(env, db, tenant, audience, now), tenant, audience, SourceOf(db, tenant, audience), j);
    }
    KeyedByPhone(es, q);
    KeyThere(es, m.keys[q]);
  }

  /** What entries list is what their deduplication keeps. */
  lemma ListedAreDeduplicated<T(!new)>(
    env: Env, db: Db, tenant: string, audience: string, now: int, h: How<T>, xs: seq<T>)
    requires Lists(EntriesOf(env, db, tenant, audience, now), h, xs)
    ensures Deduplicates(Recipients(env, db, tenant, audience, now), h, xs)
  {
    var rs, es := Recipients(env, db, tenant, audience, now), EntriesOf(env, db, tenant, audience, now);
    PhonesOnceInOrder(env, db, tenant, audience, now);
    forall phone ensures IsRecipient(rs, phone) <==> exists i: nat :: PicksAt(h, xs, phone, i) {
      PhonesOfEntries(env, db, tenant, audience, now, phone);
      if a: nat :| KeyAt(es, a, phone) { EntryIsPick(es, h, xs, phone, a); }
      if i: nat :| PicksAt(h, xs, phone, i) { var a := PickIsEntry(es, h, xs, phone, i); }
    }
    forall q, i: nat | 0 <= q < |rs| && LastPick(h, xs, rs[q].phone, i) ensures rs[q] == h.recipient(xs[i]) {
      var a := LastPickIsLast(es, h, xs, rs[q].phone, i);
    }
    forall p, q, i: nat, j: nat |
      0 <= p < q < |rs| && FirstPick(h, xs, rs[p].phone, i) && FirstPick(h, xs, rs[q].phone, j) ensures i < j
    {
      var a := FirstPickIsFirst(es, h, xs, rs[p].phone, i);
      var b := FirstPickIsFirst(es, h, xs, rs[q].phone, j);
      PickedAscends(h.pick, xs, a, b);
    }
  }
}

/** Who is in an audience, told on the stored rows alone. */
module AudienceMembership {
  import opened Wrappers
  import opened OrderedDedup
  import opened Audience
  import opened Picks
  import HashOrder

  // ----- Which kind of audience it is -----

  predicate IsListing(db: Db, tenant: string, audience: string, i: nat) {
    i < |db.audiences| && db.audiences[i].id == audience && db.audiences[i].tenant == tenant
  }

  /** The first listing of the audience with this tenant is of the opted-in kind. */
  ghost predicate IsOptInAudience(db: Db, tenant: string, audience: string) {
    exists i: nat ::
      && IsListing(db, tenant, audience, i) && db.audiences[i].optedIn
      && forall j: nat :: j < i ==> !IsListing(db, tenant, audience, j)
  }

  predicate IsSegmentOf(s: Segment, tenant: string, audience: string) {
    s.audience == audience && s.tenant == tenant && s.dynamic
  }

  ghost predicate AreSegments(segs: seq<Segment>, db: Db, tenant: string, audience: string) {
    forall s :: s in segs <==> s in db.segments && IsSegmentOf(s, tenant, audience)
  }

  ghost predicate HasSegments(db: Db, tenant: string, audience: string) {
    exists s :: s in db.segments && IsSegmentOf(s, tenant, audience)
  }

  ghost predicate NoneBefore<T(!new)>(p: T -> bool, xs: seq<T>, n: nat) {
    forall j :: 0 <= j < n && j < |xs| ==> !p(xs[j])
  }

  lemma {:induction false} NothingWhere<T(!new)>(p: T -> bool, xs: seq<T>)
    ensures Where(p, xs) == [] <==> NoneBefore(p, xs, |xs|)
  {
    if xs != [] {
      var n := |xs| - 1;
      NothingWhere(p, xs[..n]);
      assert forall j :: 0 <= j < n ==> xs[..n][j] == xs[j];
    }
  }

  lemma {:induction false} FirstWhere<T(!new)>(p: T -> bool, xs: seq<T>) returns (i: nat)
    requires Where(p, xs) != []
    ensures i < |xs| && p(xs[i]) && NoneBefore(p, xs, i) && Where(p, xs)[0] == xs[i]
  {
    var n := |xs| - 1;
    NothingWhere(p, xs[..n]);
    if Where(p, xs[..n]) == [] {
      i := n;
    } else {
      i := FirstWhere(p, xs[..n]);
    }
    assert forall j :: 0 <= j < n ==> xs[..n][j] == xs[j];
  }

  lemma OptedInIs(db: Db, tenant: string, audience: string)
    ensures IsOptedIn(db, tenant, audience) <==> IsOptInAudience(db, tenant, audience)
  {
    var p := (a: Listing) => a.id == audience && a.tenant == tenant;
    NothingWhere(p, db.audiences);
    assert forall i: nat :: i < |db.audiences| ==> (p(db.audiences[i]) <==> IsListing(db, tenant, audience, i));
    if Where(p, db.audiences) != [] {
      var i := FirstWhere(p, db.audiences);
      assert IsListing(db, tenant, audience, i);
    }
  }

  lemma SegmentsAre(db: Db, tenant: string, audience: string)
    ensures AreSegments(DynamicSegments(db, tenant, audience), db, tenant, audience)
    ensures DynamicSegments(db, tenant, audience) != [] <==> HasSegments(db, tenant, audience)
  {
    var segs := DynamicSegments(db, tenant, audience);
    forall s ensures s in segs <==> s in db.segments && IsSegmentOf(s, tenant, audience) {
      WhereKeeps((s: Segment) => s.audience == audience && s.tenant == tenant && s.dynamic, db.segments, s);
    }
    if segs != [] { assert segs[0] in segs; }
  }

  /** The source of the members, by what is stored. */
  lemma SourceIs(db: Db, tenant: string, audience: string)
    ensures var src := SourceOf(db, tenant, audience);
            && (src.FromOptIns? <==> IsOptInAudience(db, tenant, audience))
            && (src.FromSegments? <==> !IsOptInAudience(db, tenant, audience) && HasSegments(db, tenant, audience))
            && (src.FromSegments? ==> AreSegments(src.segs, db, tenant, audience))
  {
    OptedInIs(db, tenant, audience);
    SegmentsAre(db, tenant, audience);
  }

  // ----- Whom the stored rows make a recipient -----

  /** A plus sign and 7 to 15 digits. */
  predicate IsPhone(phone: string) {
    8 <= |phone| <= 16 && phone[0] == '+' && forall i :: 1 <= i < |phone| ==> '0' <= phone[i] <= '9'
  }

  /** An object whose `contactable` is false. */
  predicate SwitchedOff(metadata: Json) {
    match metadata
    case Object(fields) => "contactable" in fields && fields["contactable"] == Bool(false)
    case _ => false
  }

  /** What is null, false, zero or the empty text becomes an object without fields. */
  function OrNothing(metadata: Json): Json {
    match metadata
    case Null => Object(map[])
    case Bool(b) => if b then metadata else Object(map[])
    case Number(x) => if x == 0.0 then Object(map[]) else metadata
    case Text(s) => if s == "" then Object(map[]) else metadata
    case Array(_) => metadata
    case Object(_) => metadata
  }

  /** A row of the list, with a phone and not switched off. */
  function Rows(audience: string): How<Row> {
    How((r: Row) => r.audience == audience && IsPhone(r.phone) && !SwitchedOff(r.metadata),
        (r: Row) => r.phone, (r: Row) => Recipient(r.contactId, r.phone, OrNothing(r.metadata)))
  }

  /** A consent of the tenant to WhatsApp. */
  function Consents(tenant: string): How<OptIn> {
    How((c: OptIn) => c.tenant == tenant && c.whatsApp && c.optedIn,
        (c: OptIn) => c.phone, (c: OptIn) => Recipient(c.contactId, c.phone, Object(map[])))
  }

  predicate HasPhone(db: Db, tenant: string, id: string) {
    id in db.contacts && db.contacts[id].tenant == tenant && db.contacts[id].phone !in {None, Some("")}
  }

  function PhoneOf(db: Db, id: string): string {
    if id in db.contacts && db.contacts[id].phone.Some? then db.contacts[id].phone.value else ""
  }

  function MetadataOf(db: Db, id: string): Json {
    if id in db.contacts then OrNothing(db.contacts[id].metadata) else Null
  }

  /** A member whose contact is the tenant's and has a phone. */
  function Contacts(db: Db, tenant: string): How<string> {
    How((id: string) => HasPhone(db, tenant, id), (id: string) => PhoneOf(db, id),
        (id: string) => Recipient(Some(id), PhoneOf(db, id), MetadataOf(db, id)))
  }

  lemma ListsSnoc<T(!new)>(es: seq<Entry<Recipient>>, h: How<T>, xs: seq<T>, x: T)
    requires Lists(es, h, xs)
    ensures Lists(es + if h.pick(x) then [Entry(h.phone(x), h.recipient(x))] else [], h, xs + [x])
  {
    assert (xs + [x])[..|xs|] == xs;
    var ps := Picked(h.pick, xs);
    forall a | 0 <= a < |es| ensures ps[a] < |xs| && IsEntryOf(h, (xs + [x])[ps[a]], es[a]) {
      assert IsEntryOf(h, xs[ps[a]], es[a]);
    }
  }

  lemma ContactableIs(r: Row)
    ensures IsContactable(r.phone, r.metadata) <==> IsPhone(r.phone) && !SwitchedOff(r.metadata)
    ensures OrEmpty(r.metadata) == OrNothing(r.metadata)
  {
  }

  lemma {:induction false} RowsList(rows: seq<Row>, audience: string)
    ensures Lists(RowEntries(Where((r: Row) => r.audience == audience, rows)), Rows(audience), rows)
  {
    if rows != [] {
      var p := (r: Row) => r.audience == audience;
      var front, r := rows[..|rows| - 1], rows[|rows| - 1];
      RowsList(front, audience);
      ContactableIs(r);
      ListsSnoc(RowEntries(Where(p, front)), Rows(audience), front, r);
      RowEntriesSnoc(Where(p, front), r);
      assert Where(p, front) + [] == Where(p, front) && front + [r] == rows;
      assert RowEntries(Where(p, front)) + [] == RowEntries(Where(p, front));
    }
  }

  lemma RowEntriesSnoc(rows: seq<Row>, r: Row)
    ensures RowEntries(rows + [r]) == RowEntries(rows)
            + if IsContactable(r.phone, r.metadata)
              then [Entry(r.phone, Recipient(r.contactId, r.phone, OrEmpty(r.metadata)))]
              else []
  {
    assert (rows + [r])[..|rows|] == rows;
  }

  lemma {:induction false} ConsentsList(cs: seq<OptIn>, tenant: string)
    ensures var p := (c: OptIn) => c.tenant == tenant && c.whatsApp && c.optedIn;
            Lists(OptInEntries(Where(p, cs)), Consents(tenant), cs)
  {
    if cs != [] {
      var p := (c: OptIn) => c.tenant == tenant && c.whatsApp && c.optedIn;
      var front, c := cs[..|cs| - 1], cs[|cs| - 1];
      ConsentsList(front, tenant);
      ListsSnoc(OptInEntries(Where(p, front)), Consents(tenant), front, c);
      assert OptInEntries(Where(p, front) + [c])
          == OptInEntries(Where(p, front)) + [Entry(c.phone, Recipient(c.contactId, c.phone, Object(map[])))];
      assert Where(p, front) + [] == Where(p, front) && front + [c] == cs;
      assert OptInEntries(Where(p, front)) + [] == OptInEntries(Where(p, front));
    }
  }

  lemma ReachableIs(db: Db, tenant: string, id: string)
    ensures Reachable(db, tenant, id)
            == if HasPhone(db, tenant, id) then Some(Recipient(Some(id), PhoneOf(db, id), MetadataOf(db, id))) else None
  {
  }

  lemma {:induction false} ContactsList(db: Db, tenant: string, ids: seq<string>)
    ensures Lists(ContactEntries(db, tenant, ids), Contacts(db, tenant), ids)
  {
    if ids != [] {
      var front, id := ids[..|ids| - 1], ids[|ids| - 1];
      ContactsList(db, tenant, front);
      ReachableIs(db, tenant, id);
      ListsSnoc(ContactEntries(db, tenant, front), Contacts(db, tenant), front, id);
      assert front + [id] == ids;
    }
  }

  // ----- The recipients -----

  /** A stored list: the rows of the audience with a phone that are not switched off. */
  lemma ListRecipients(env: Env, db: Db, tenant: string, audience: string, now: int)
    requires !IsOptInAudience(db, tenant, audience) && !HasSegments(db, tenant, audience)
    ensures Deduplicates(Recipients(env, db, tenant, audience, now), Rows(audience), db.rows)
  {
    SourceIs(db, tenant, audience);
    RowsList(db.rows, audience);
    ListedAreDeduplicated(env, db, tenant, audience, now, Rows(audience), db.rows);
  }

  /** An opted-in audience: the tenant's consents to WhatsApp. */
  lemma OptInRecipients(env: Env, db: Db, tenant: string, audience: string, now: int)
    requires IsOptInAudience(db, tenant, audience)
    ensures Deduplicates(Recipients(env, db, tenant, audience, now), Consents(tenant), db.optIns)
  {
    SourceIs(db, tenant, audience);
    ConsentsList(db.optIns, tenant);
    ListedAreDeduplicated(env, db, tenant, audience, now, Consents(tenant), db.optIns);
  }

  /** A segment audience: the ordered members whose contact is the tenant's and has a phone. */
  lemma SegmentRecipients(env: Env, db: Db, tenant: string, audience: string, now: int)
    requires !IsOptInAudience(db, tenant, audience) && HasSegments(db, tenant, audience)
    ensures MemberOrder(env, db, tenant, audience, now).ContactIds?
    ensures var after, ids := After(env, db, tenant, audience, now), MemberOrder(env, db, tenant, audience, now).ids;
            Deduplicates(Recipients(env, db, tenant, audience, now), Contacts(after, tenant), ids)
  {
    SourceIs(db, tenant, audience);
    var after, ids := After(env, db, tenant, audience, now), MemberOrder(env, db, tenant, audience, now).ids;
    ContactsList(after, tenant, ids);
    ListedAreDeduplicated(env, db, tenant, audience, now, Contacts(after, tenant), ids);
  }

  /** On a stored list a phone is a recipient's, if and only if some row of the list has it and is not switched off. */
  lemma ListedPhones(env: Env, db: Db, tenant: string, audience: string, now: int, phone: string)
    requires !IsOptInAudience(db, tenant, audience) && !HasSegments(db, tenant, audience)
    ensures IsRecipient(Recipients(env, db, tenant, audience, now), phone) <==>
      exists r ::
        r in db.rows && r.audience == audience && r.phone == phone && IsPhone(phone) && !SwitchedOff(r.metadata)
  {
    ListRecipients(env, db, tenant, audience, now);
    var h := Rows(audience);
    if i: nat :| PicksAt(h, db.rows, phone, i) { assert db.rows[i] in db.rows; }
    if r :| r in db.rows && h.pick(r) && r.phone == phone {
      var i :| 0 <= i < |db.rows| && db.rows[i] == r;
      assert PicksAt(h, db.rows, phone, i);
    }
  }

  /** In an opted-in audience, if and only if some consent of the tenant to WhatsApp has it. */
  lemma OptedInPhones(env: Env, db: Db, tenant: string, audience: string, now: int, phone: string)
    requires IsOptInAudience(db, tenant, audience)
    ensures IsRecipient(Recipients(env, db, tenant, audience, now), phone) <==>
      exists c :: c in db.optIns && c.tenant == tenant && c.whatsApp && c.optedIn && c.phone == phone
  {
    OptInRecipients(env, db, tenant, audience, now);
    var h := Consents(tenant);
    if i: nat :| PicksAt(h, db.optIns, phone, i) { assert db.optIns[i] in db.optIns; }
    if c :| c in db.optIns && h.pick(c) && c.phone == phone {
      var i :| 0 <= i < |db.optIns| && db.optIns[i] == c;
      assert PicksAt(h, db.optIns, phone, i);
    }
  }

  /** By these memberships, the contact is a member of some segment of the audience. */
  ghost predicate IsMember(db: Db, ms: seq<Membership>, tenant: string, audience: string, id: string) {
    exists m, s ::
      m in ms && s in db.segments && IsSegmentOf(s, tenant, audience) && m.segment == s.id && m.contact == id
  }

  /** The ordered ids are the members after the evaluation, each once. */
  lemma OrderedAreMembers(env: Env, db: Db, tenant: string, audience: string, now: int, id: string)
    requires !IsOptInAudience(db, tenant, audience) && HasSegments(db, tenant, audience)
    ensures MemberOrder(env, db, tenant, audience, now).ContactIds?
    ensures var ids := MemberOrder(env, db, tenant, audience, now).ids;
            var ms := After(env, db, tenant, audience, now).memberships;
            NoDup(ids) && (id in ids <==> IsMember(db, ms, tenant, audience, id))
  {
    SourceIs(db, tenant, audience);
    var after, segs := After(env, db, tenant, audience, now), SourceOf(db, tenant, audience).segs;
    OrderedIdsAreTheMembers(env, after, segs);
    assert id in OrderedIds(env, after, segs) <==> id in Elems(ContactsOf(after, segs));
    InContactsOf(after, segs, id);
    if m :| m in after.memberships && m.segment in SegmentIds(segs) && m.contact == id {
      var s :| s in segs && s.id == m.segment;
      assert s in db.segments && IsSegmentOf(s, tenant, audience);
    }
  }

  lemma InContactsOf(db: Db, segs: seq<Segment>, id: string)
    ensures id in ContactsOf(db, segs)
            <==> exists m :: m in db.memberships && m.segment in SegmentIds(segs) && m.contact == id
  {
    var p := (m: Membership) => m.segment in SegmentIds(segs);
    var ms := Where(p, db.memberships);
    if id in ContactsOf(db, segs) {
      var i :| 0 <= i < |ms| && ms[i].contact == id;
      WhereKeeps(p, db.memberships, ms[i]);
    }
    if m :| m in db.memberships && m.segment in SegmentIds(segs) && m.contact == id {
      WhereKeeps(p, db.memberships, m);
      var i :| 0 <= i < |ms| && ms[i] == m;
      assert ContactsOf(db, segs)[i] == id;
    }
  }

  lemma PickedContacts(db: Db, tenant: string, ids: seq<string>, phone: string)
    ensures (exists i: nat :: PicksAt(Contacts(db, tenant), ids, phone, i))
            <==> exists id :: id in ids && IsReached(db, tenant, id, phone)
  {
    var h := Contacts(db, tenant);
    if i: nat :| PicksAt(h, ids, phone, i) { assert ids[i] in ids && IsReached(db, tenant, ids[i], phone); }
    if id :| id in ids && IsReached(db, tenant, id, phone) {
      var i :| 0 <= i < |ids| && ids[i] == id;
      assert PicksAt(h, ids, phone, i);
    }
  }

  /** The contact is the tenant's and has this phone. */
  predicate IsReached(db: Db, tenant: string, id: string, phone: string) {
    id in db.contacts && db.contacts[id].tenant == tenant && db.contacts[id].phone == Some(phone) && phone != ""
  }

  lemma EvaluationKeepsContacts(env: Env, db: Db, tenant: string, audience: string, now: int)
    ensures After(env, db, tenant, audience, now).contacts == db.contacts
  {
  }

  lemma ReachedIds(env: Env, db: Db, tenant: string, audience: string, now: int, phone: string)
    requires !IsOptInAudience(db, tenant, audience) && HasSegments(db, tenant, audience)
    ensures MemberOrder(env, db, tenant, audience, now).ContactIds?
    ensures var after := After(env, db, tenant, audience, now);
            IsRecipient(Recipients(env, db, tenant, audience, now), phone) <==>
            exists id :: id in MemberOrder(env, db, tenant, audience, now).ids && IsReached(after, tenant, id, phone)
  {
    SegmentRecipients(env, db, tenant, audience, now);
    var after, ids := After(env, db, tenant, audience, now), MemberOrder(env, db, tenant, audience, now).ids;
    PickedContacts(after, tenant, ids, phone);
  }

  /** In a segment audience, if and only if some member's contact is the tenant's and has it. */
  lemma SegmentPhones(env: Env, db: Db, tenant: string, audience: string, now: int, phone: string)
    requires !IsOptInAudience(db, tenant, audience) && HasSegments(db, tenant, audience)
    ensures var ms := After(env, db, tenant, audience, now).memberships;
            IsRecipient(Recipients(env, db, tenant, audience, now), phone) <==>
            exists id :: IsMember(db, ms, tenant, audience, id) && IsReached(db, tenant, id, phone)
  {
    ReachedIds(env, db, tenant, audience, now, phone);
    EvaluationKeepsContacts(env, db, tenant, audience, now);
    forall id ensures id in MemberOrder(env, db, tenant, audience, now).ids
                      <==> IsMember(db, After(env, db, tenant, audience, now).memberships, tenant, audience, id)
    {
      OrderedAreMembers(env, db, tenant, audience, now, id);
    }
  }

  /** The windowed route's members have the recipients' contacts and phones. */
  lemma MembersAreWho(env: Env, db: Db, tenant: string, audience: string, now: int)
    requires IsOptInAudience(db, tenant, audience) || !HasSegments(db, tenant, audience)
    ensures MemberOrder(env, db, tenant, audience, now).Members?
    ensures var rs := Recipients(env, db, tenant, audience, now);
            var ms := MemberOrder(env, db, tenant, audience, now).members;
            |ms| == |rs| && forall i :: 0 <= i < |rs| ==> ms[i] == Member(rs[i].contactId, rs[i].phone)
  {
    SourceIs(db, tenant, audience);
    MembersAreRecipients(env, db, tenant, audience, now);
  }

  // ----- The order of the members -----

  lemma {:induction false} WhereIsPicked<T>(p: T -> bool, xs: seq<T>)
    ensures |Where(p, xs)| == |Picked(p, xs)|
    ensures forall a :: 0 <= a < |Picked(p, xs)| ==> Picked(p, xs)[a] < |xs| && Where(p, xs)[a] == xs[Picked(p, xs)[a]]
  {
    if xs != [] { WhereIsPicked(p, xs[..|xs| - 1]); }
  }

  /** The membership makes the contact a member of one of these segments. */
  predicate JoinsAt(ms: seq<Membership>, segs: seq<Segment>, id: string, i: nat) {
    i < |ms| && ms[i].contact == id && exists s :: s in segs && s.id == ms[i].segment
  }

  ghost predicate FirstJoins(ms: seq<Membership>, segs: seq<Segment>, id: string, i: nat) {
    JoinsAt(ms, segs, id, i) && forall j: nat :: j < i ==> !JoinsAt(ms, segs, id, j)
  }

  /** The ids of the segments' members as they come: the first membership of an id places it. */
  lemma FirstJoinIsFirst(db: Db, segs: seq<Segment>, id: string, i: nat) returns (a: nat)
    requires FirstJoins(db.memberships, segs, id, i)
    ensures IsFirst(IdEntries(ContactsOf(db, segs)), id, a)
    ensures var p := (m: Membership) => m.segment in SegmentIds(segs);
            a < |Picked(p, db.memberships)| && Picked(p, db.memberships)[a] == i
  {
    var p := (m: Membership) => m.segment in SegmentIds(segs);
    var ps := Picked(p, db.memberships);
    WhereIsPicked(p, db.memberships);
    InPicked(p, db.memberships, i);
    a :| 0 <= a < |ps| && ps[a] == i;
    var es := IdEntries(ContactsOf(db, segs));
    assert KeyAt(es, a, id);
    forall b: nat | b < a ensures !KeyAt(es, b, id) {
      PickedAscends(p, db.memberships, b, a);
      InPicked(p, db.memberships, ps[b]);
      assert !JoinsAt(db.memberships, segs, id, ps[b]);
    }
  }

  /** Without a seed the members come in the order in which they joined. */
  lemma UnseededInOrder(env: Env, db: Db, segs: seq<Segment>, a: nat, b: nat, i: nat, j: nat)
    requires !(|segs| == 1 && segs[0].seed != "") && a < b < |OrderedIds(env, db, segs)|
    requires FirstJoins(db.memberships, segs, OrderedIds(env, db, segs)[a], i)
    requires FirstJoins(db.memberships, segs, OrderedIds(env, db, segs)[b], j)
    ensures i < j
  {
    var ids := OrderedIds(env, db, segs);
    var x := FirstJoinIsFirst(db, segs, ids[a], i);
    var y := FirstJoinIsFirst(db, segs, ids[b], j);
    FirstEntryPlaces(IdEntries(ContactsOf(db, segs)), a, b, x, y);
    PickedAscends((m: Membership) => m.segment in SegmentIds(segs), db.memberships, x, y);
  }

  /** With a seed they come by the hashes of seed and id, and by id among equal hashes. */
  lemma SeededInOrder(env: Env, db: Db, segs: seq<Segment>, a: nat, b: nat)
    requires |segs| == 1 && segs[0].seed != "" && a < b < |OrderedIds(env, db, segs)|
    ensures var x, y := OrderedIds(env, db, segs)[a], OrderedIds(env, db, segs)[b];
            var g, h := env.hash(segs[0].seed + " " + x), env.hash(segs[0].seed + " " + y);
            HashOrder.ComesFirst(g, h) || (g == h && HashOrder.ComesFirst(x, y))
  {
    var ids, d := Distinct(ContactsOf(db, segs)), HashOrder.Draw(env.hash, segs[0].seed);
    DistinctIds(ContactsOf(db, segs));
    HashOrder.OrderIsSorted(d, ids);
    var x, y := OrderedIds(env, db, segs)[a], OrderedIds(env, db, segs)[b];
    assert d.Before(x, y);
    HashOrder.LessIsFirstDifference(d.Key(x), d.Key(y));
    HashOrder.LessIsFirstDifference(x, y);
  }

  // ----- The evaluation before the members are read -----

  /** Never evaluated, or not within the configured minutes, or 15 if none are. */
  predicate IsOverdue(s: Segment, minutes: Option<real>, now: int) {
    var m := if minutes.Some? && minutes.value > 0.0 then minutes.value else 15.0;
    match s.lastEvaluatedAt
    case None => true
    case Some(at) => (now - at) as real > m * 60000.0
  }

  /** Place `i` holds the audience's one segment; it has a seed and is overdue. */
  ghost predicate IsDue(env: Env, db: Db, tenant: string, audience: string, now: int, i: nat) {
    && i < |db.segments| && IsSegmentOf(db.segments[i], tenant, audience)
    && (forall j :: 0 <= j < |db.segments| && IsSegmentOf(db.segments[j], tenant, audience) ==> j == i)
    && !IsOptInAudience(db, tenant, audience)
    && db.segments[i].seed != "" && env.evaluate.Some? && IsOverdue(db.segments[i], env.staleMinutes, now)
  }

  lemma {:induction false} OneWhere<T(!new)>(p: T -> bool, xs: seq<T>)
    ensures |Where(p, xs)| == 1 <==> exists i :: IsOnly(p, xs, i)
    ensures forall i :: IsOnly(p, xs, i) ==> Where(p, xs) == [xs[i]]
  {
    WhereIsPicked(p, xs);
    var ps := Picked(p, xs);
    if |ps| == 1 {
      forall j | 0 <= j < |xs| && p(xs[j]) ensures j == ps[0] { InPicked(p, xs, j); }
      InPicked(p, xs, ps[0]);
      assert IsOnly(p, xs, ps[0]);
    }
    forall i | IsOnly(p, xs, i) ensures Where(p, xs) == [xs[i]] {
      InPicked(p, xs, i);
      forall a | 0 <= a < |ps| ensures ps[a] == i { InPicked(p, xs, ps[a]); }
      if |ps| > 1 { PickedAscends(p, xs, 0, 1); }
    }
  }

  ghost predicate IsOnly<T(!new)>(p: T -> bool, xs: seq<T>, i: int) {
    0 <= i < |xs| && p(xs[i]) && forall j :: 0 <= j < |xs| && p(xs[j]) ==> j == i
  }

  /** What an evaluation of the segment at place `i` leaves: its members anew, and its stamp. */
  ghost predicate IsEvaluated(ev: Evaluator, db: Db, after: Db, i: nat, now: int)
    requires i < |db.segments|
  {
    var id := db.segments[i].id;
    && (forall m :: m in after.memberships <==>
          (m.segment != id && m in db.memberships) || (m.segment == id && m.contact in ev.members(db, id)))
    && |after.segments| == |db.segments|
    && (forall j :: 0 <= j < |db.segments| ==>
          after.segments[j] == if ev.isV2(db, id) && db.segments[j].id == id
                               then db.segments[j].(lastEvaluatedAt := Some(now)) else db.segments[j])
    && after == db.(memberships := after.memberships, segments := after.segments)
  }

  lemma EvaluateIs(ev: Evaluator, db: Db, i: nat, now: int)
    requires i < |db.segments|
    ensures IsEvaluated(ev, db, Evaluate(ev, db, db.segments[i].id, now), i, now)
  {
    var id := db.segments[i].id;
    var after, members := Evaluate(ev, db, id, now), ev.members(db, id);
    var kept := Where((m: Membership) => m.segment != id, db.memberships);
    var found := seq(|members|, k requires 0 <= k < |members| => Membership(id, members[k]));
    forall m ensures m in after.memberships <==>
                     (m.segment != id && m in db.memberships) || (m.segment == id && m.contact in members)
    {
      WhereKeeps((m: Membership) => m.segment != id, db.memberships, m);
      assert m in after.memberships <==> m in kept || m in found;
      if m.segment == id && m.contact in members {
        var k :| 0 <= k < |members| && members[k] == m.contact;
        assert found[k] == m;
      }
    }
  }

  /** Reading the members evaluates the audience's one seeded segment, if it is overdue, and nothing else. */
  lemma EvaluatesIfDue(env: Env, db: Db, tenant: string, audience: string, now: int)
    ensures var after := After(env, db, tenant, audience, now);
            && (forall i: nat :: IsDue(env, db, tenant, audience, now, i) ==>
                  IsEvaluated(env.evaluate.value, db, after, i, now))
            && ((forall i: nat :: !IsDue(env, db, tenant, audience, now, i)) ==> after == db)
  {
    var p := (s: Segment) => s.audience == audience && s.tenant == tenant && s.dynamic;
    var after := After(env, db, tenant, audience, now);
    SourceIs(db, tenant, audience);
    OneWhere(p, db.segments);
    forall i: nat | IsDue(env, db, tenant, audience, now, i)
      ensures IsEvaluated(env.evaluate.value, db, after, i, now)
    {
      assert IsOnly(p, db.segments, i);
      EvaluateIs(env.evaluate.value, db, i, now);
    }
    if after != db {
      var i :| IsOnly(p, db.segments, i);
      assert IsDue(env, db, tenant, audience, now, i);
    }
  }
}
