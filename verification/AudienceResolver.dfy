/** The resolver itself: queries the database and fills its map in loops. */
module AudienceResolver {
  import opened Wrappers
  import opened OrderedDedup
  import opened Audience
  import HashOrder

  class Resolver {
    var db: Db
    const env: Env

    constructor (db: Db, env: Env)
      ensures this.db == db && this.env == env
    {
      this.db := db;
      this.env := env;
    }

    method OrderedSegmentContactIds(segs: seq<Segment>, now: int) returns (contactIds: seq<string>)
      modifies this
      ensures db == Refreshed(env, old(db), segs, now)
      ensures contactIds == OrderedIds(env, db, segs)
    {
      var v2 := |segs| == 1 && segs[0].seed != "";
      if v2 && env.evaluate.Some? {
        var configured := env.staleMinutes;
        var staleMinutes := if configured.Some? && configured.value > 0.0 then configured.value else 15.0;
        var staleBefore := now as real - staleMinutes * 60000.0;
        if segs[0].lastEvaluatedAt.None? || segs[0].lastEvaluatedAt.value as real < staleBefore {
          db := Evaluate(env.evaluate.value, db, segs[0].id, now);
        }
      }
      contactIds := Distinct(ContactsOf(db, segs));
      if v2 {
        contactIds := HashOrder.OrderByHash(HashOrder.Draw(env.hash, segs[0].seed), contactIds);
      }
    }

    method ResolvePhoneRecipients(tenant: string, audience: string, now: int) returns (r: seq<Recipient>)
      modifies this
      ensures db == After(env, old(db), tenant, audience, now)
      ensures r == Recipients(env, old(db), tenant, audience, now)
    {
      ghost var src, after := SourceOf(db, tenant, audience), After(env, db, tenant, audience, now);
      ghost var es := Entries(env, after, tenant, audience, src);
      SetAllValid(Empty<Recipient>(), es);
      var dedup: Ordered<Recipient> := Empty();
      if IsOptedIn(db, tenant, audience) {
        dedup := RecipientsOfOptIns(OptIns(db, tenant));
        return Values(dedup);
      }
      var segs := DynamicSegments(db, tenant, audience);
      if |segs| > 0 {
        var contactIds := OrderedSegmentContactIds(segs, now);
        if |contactIds| > 0 {
          dedup := RecipientsOfContacts(FindContacts(db, tenant, contactIds), contactIds);
          QueryFindsReachable(db, tenant, contactIds, contactIds);
        }
      } else {
        dedup := RecipientsOfRows(ListRows(db, audience));
      }
      r := Values(dedup);
    }

    method ResolveOrderedMembers(tenant: string, audience: string, now: int) returns (r: Order)
      modifies this
      ensures db == After(env, old(db), tenant, audience, now)
      ensures r == MemberOrder(env, old(db), tenant, audience, now)
    {
      ghost var es := MapEntries(AsMember,
        Entries(env, After(env, db, tenant, audience, now), tenant, audience, SourceOf(db, tenant, audience)));
      SetAllValid(Empty<Member>(), es);
      if IsOptedIn(db, tenant, audience) {
        var members := MembersOfOptIns(OptIns(db, tenant));
        return Members(Values(members));
      }
      var segs := DynamicSegments(db, tenant, audience);
      if |segs| > 0 {
        var contactIds := OrderedSegmentContactIds(segs, now);
        return ContactIds(contactIds);
      }
      var members := MembersOfRows(ListRows(db, audience));
      return Members(Values(members));
    }
  }

  /** The query for the contacts of the tenant with one of the ids and a phone, by id. */
  function FindContacts(db: Db, tenant: string, ids: seq<string>): map<string, Contact> {
    map id | id in ids && id in db.contacts && db.contacts[id].tenant == tenant && db.contacts[id].phone.Some? ::
      db.contacts[id]
  }

  /** What the loop over the ids finds in the answer of the query. */
  function Found(byId: map<string, Contact>, ids: seq<string>): seq<Entry<Recipient>> {
    if ids == [] then []
    else
      var id := ids[|ids| - 1];
      Found(byId, ids[..|ids| - 1])
      + (if id in byId && byId[id].phone.Some? && byId[id].phone.value != ""
         then [Entry(byId[id].phone.value, Recipient(Some(id), byId[id].phone.value, OrEmpty(byId[id].metadata)))]
         else [])
  }

  lemma {:induction false} QueryFindsReachable(db: Db, tenant: string, all: seq<string>, ids: seq<string>)
    requires forall id :: id in ids ==> id in all
    ensures Found(FindContacts(db, tenant, all), ids) == ContactEntries(db, tenant, ids)
  {
    if ids != [] { QueryFindsReachable(db, tenant, all, ids[..|ids| - 1]); }
  }

  method RecipientsOfContacts(byId: map<string, Contact>, contactIds: seq<string>) returns (dedup: Ordered<Recipient>)
    ensures dedup == SetAll(Empty(), Found(byId, contactIds))
  {
    dedup := Empty();
    for i := 0 to |contactIds|
      invariant dedup == SetAll(Empty(), Found(byId, contactIds[..i]))
    {
      var id := contactIds[i];
      FoundNext(byId, contactIds, i);
      if id !in byId || byId[id].phone.None? || byId[id].phone.value == "" { continue; }
      var c := byId[id];
      dedup := dedup.Set(c.phone.value, Recipient(Some(id), c.phone.value, OrEmpty(c.metadata)));
    }
    assert contactIds[..|contactIds|] == contactIds;
  }

  lemma FoundNext(byId: map<string, Contact>, ids: seq<string>, i: nat)
    requires i < |ids|
    ensures var before, id := SetAll(Empty<Recipient>(), Found(byId, ids[..i])), ids[i];
            SetAll(Empty<Recipient>(), Found(byId, ids[..i + 1]))
            == if id in byId && byId[id].phone.Some? && byId[id].phone.value != ""
               then before.Set(byId[id].phone.value,
                               Recipient(Some(id), byId[id].phone.value, OrEmpty(byId[id].metadata)))
               else before
  {
    var id, next := ids[i], ids[..i + 1];
    assert next[..|next| - 1] == ids[..i] && next[|next| - 1] == id;
    assert Found(byId, ids[..i]) + [] == Found(byId, ids[..i]);
    if id in byId && byId[id].phone.Some? {
      SetAllSnoc(Empty(), Found(byId, ids[..i]),
                 Entry(byId[id].phone.value, Recipient(Some(id), byId[id].phone.value, OrEmpty(byId[id].metadata))));
    }
  }

  method RecipientsOfRows(contacts: seq<Row>) returns (dedup: Ordered<Recipient>)
    ensures dedup == SetAll(Empty(), RowEntries(contacts))
  {
    dedup := Empty();
    for i := 0 to |contacts|
      invariant dedup == SetAll(Empty(), RowEntries(contacts[..i]))
    {
      var c := contacts[i];
      RowNext(contacts, i);
      if !IsContactable(c.phone, c.metadata) { continue; }
      dedup := dedup.Set(c.phone, Recipient(c.contactId, c.phone, OrEmpty(c.metadata)));
    }
    assert contacts[..|contacts|] == contacts;
  }

  lemma RowNext(rows: seq<Row>, i: nat)
    requires i < |rows|
    ensures var before, c := SetAll(Empty<Recipient>(), RowEntries(rows[..i])), rows[i];
            SetAll(Empty<Recipient>(), RowEntries(rows[..i + 1]))
            == if IsContactable(c.phone, c.metadata)
               then before.Set(c.phone, Recipient(c.contactId, c.phone, OrEmpty(c.metadata)))
               else before
  {
    var c, next := rows[i], rows[..i + 1];
    assert next[..|next| - 1] == rows[..i] && next[|next| - 1] == c;
    assert RowEntries(rows[..i]) + [] == RowEntries(rows[..i]);
    SetAllSnoc(Empty(), RowEntries(rows[..i]), Entry(c.phone, Recipient(c.contactId, c.phone, OrEmpty(c.metadata))));
  }

  method RecipientsOfOptIns(optIns: seq<OptIn>) returns (dedup: Ordered<Recipient>)
    ensures dedup == SetAll(Empty(), OptInEntries(optIns))
  {
    dedup := Empty();
    ghost var es := OptInEntries(optIns);
    for i := 0 to |optIns|
      invariant dedup == SetAll(Empty(), es[..i])
    {
      assert es[..i + 1][..i] == es[..i];
      var c := optIns[i];
      dedup := dedup.Set(c.phone, Recipient(c.contactId, c.phone, Object(map[])));
    }
    assert es[..|optIns|] == es;
  }

  method MembersOfOptIns(optIns: seq<OptIn>) returns (dedup: Ordered<Member>)
    ensures dedup == SetAll(Empty(), MapEntries(AsMember, OptInEntries(optIns)))
  {
    dedup := Empty();
    ghost var es := MapEntries(AsMember, OptInEntries(optIns));
    for i := 0 to |optIns|
      invariant dedup == SetAll(Empty(), es[..i])
    {
      assert es[..i + 1][..i] == es[..i];
      dedup := dedup.Set(optIns[i].phone, Member(optIns[i].contactId, optIns[i].phone));
    }
    assert es[..|optIns|] == es;
  }

  method MembersOfRows(contacts: seq<Row>) returns (dedup: Ordered<Member>)
    ensures dedup == SetAll(Empty(), MapEntries(AsMember, RowEntries(contacts)))
  {
    dedup := Empty();
    for i := 0 to |contacts|
      invariant dedup == SetAll(Empty(), MapEntries(AsMember, RowEntries(contacts[..i])))
    {
      var c := contacts[i];
      MemberNext(contacts, i);
      if !IsContactable(c.phone, c.metadata) { continue; }
      dedup := dedup.Set(c.phone, Member(c.contactId, c.phone));
    }
    assert contacts[..|contacts|] == contacts;
  }

  lemma MemberNext(rows: seq<Row>, i: nat)
    requires i < |rows|
    ensures var before, c := SetAll(Empty<Member>(), MapEntries(AsMember, RowEntries(rows[..i]))), rows[i];
            SetAll(Empty<Member>(), MapEntries(AsMember, RowEntries(rows[..i + 1])))
            == if IsContactable(c.phone, c.metadata) then before.Set(c.phone, Member(c.contactId, c.phone)) else before
  {
    var c, next := rows[i], rows[..i + 1];
    assert next[..|next| - 1] == rows[..i] && next[|next| - 1] == c;
    assert RowEntries(rows[..i]) + [] == RowEntries(rows[..i]);
    var es, e := RowEntries(rows[..i]), Entry(c.phone, Recipient(c.contactId, c.phone, OrEmpty(c.metadata)));
    assert MapEntries(AsMember, es + [e]) == MapEntries(AsMember, es) + [Entry(c.phone, Member(c.contactId, c.phone))];
    SetAllSnoc(Empty(), MapEntries(AsMember, es), Entry(c.phone, Member(c.contactId, c.phone)));
  }
}
