/** Which commands go through, and what they make of a page. */
module ActionPageLaws {
  import opened Wrappers
  import opened ActionPages

  /** Every status leads to every other one, but that an archived page cannot be published. */
  predicate Leads(from: Status, to: Status) { from != to && !(from == Archived && to == Published) }

  function Target(c: Command): Status {
    match c
    case Create(_, _) => Draft
    case Publish(_, _, _, _) => Published
    case Unpublish(_, _) => Draft
    case Archive(_, _, _) => Archived
    case Restore(_, _) => Draft
  }

  predicate IsThere(db: Db, c: Command) { c.id in db.pages && db.pages[c.id].tenant == c.tenant }

  /** The answer to a command: the page must be the tenant's, pass the gate to be published, and may change so. */
  function Answer(db: Db, c: Command): Result {
    if c.Create? then (if c.id in db.pages then InvalidTransition else Done)
    else if !IsThere(db, c) then NotFound
    else if c.Publish? && !c.publishable then NotPublishable
    else if !Leads(db.pages[c.id].status, Target(c)) then InvalidTransition
    else Done
  }

  /** Publishing and archiving set their own stamp, and restoring clears the archive's. */
  predicate BecomesBy(c: Command, before: Option<Page>, after: Page) {
    && after.tenant == c.tenant && after.status == Target(c)
    && after.publishedAt
       == (if c.Publish? then Some(c.now)
           else if before.None? then None
           else before.value.publishedAt)
    && after.archivedAt
       == (if c.Archive? then Some(c.now)
           else if c.Restore? || before.None? then None
           else before.value.archivedAt)
  }

  function PageAt(db: Db, id: PageId): Option<Page> { if id in db.pages then Some(db.pages[id]) else None }

  lemma TransitionsAre(from: Status, to: Status)
    ensures CanTransition(from, to) <==> Leads(from, to)
  {
  }

  /** A command does exactly what its answer says, and one that does not go through does nothing. */
  lemma CommandIs(db: Db, c: Command)
    ensures Apply(db, c).1 == Answer(db, c)
    ensures Answer(db, c) != Done ==> Apply(db, c).0 == db
    ensures Answer(db, c) == Done ==>
      c.id in Apply(db, c).0.pages && BecomesBy(c, PageAt(db, c.id), Apply(db, c).0.pages[c.id])
  {
    if c.id in db.pages { TransitionsAre(db.pages[c.id].status, Target(c)); }
  }

  /** The command published the page, at this time and with the gate open. */
  predicate PublishedBy(c: Command, tenant: string, id: PageId, now: int) {
    c == Publish(tenant, id, true, now)
  }

  /** A published page was published by a command of its tenant that passed the gate, at the time of its stamp. */
  lemma {:induction false} PublishedPassedGate(dbs: seq<Db>, cs: seq<Command>, id: PageId) returns (i: nat)
    requires IsHistory(dbs, cs) && StatusOf(dbs[|cs|], id) == Some(Published)
    ensures i < |cs| && dbs[|cs|].pages[id].publishedAt.Some?
    ensures PublishedBy(cs[i], dbs[|cs|].pages[id].tenant, id, dbs[|cs|].pages[id].publishedAt.value)
  {
    var n := |cs| - 1;
    var before, c := dbs[n], cs[n];
    assert dbs[n + 1] == Apply(before, c).0;
    CommandIs(before, c);
    if c.Publish? && c.id == id && Answer(before, c) == Done {
      i := n;
    } else {
      OnlyItsOwnPage(before, c, id);
      assert IsHistory(dbs[..n + 1], cs[..n]);
      i := PublishedPassedGate(dbs[..n + 1], cs[..n], id);
    }
  }
}
