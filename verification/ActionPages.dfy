/** The lifecycle of action pages: row-locked commands that append to the outbox in the same transaction. */
module ActionPages {
  import opened Wrappers

  type PageId = string

  datatype Status = Draft | Published | Archived

  datatype Page = Page(tenant: string, status: Status, publishedAt: Option<int>, archivedAt: Option<int>)

  datatype EventKind = PageCreated | PagePublished | PageArchived

  datatype Event = Event(kind: EventKind, tenant: string, page: PageId)

  datatype Db = Db(pages: map<PageId, Page>, outbox: seq<Event>)

  const EMPTY := Db(map[], [])

  datatype Result = Done | NotFound | NotPublishable | InvalidTransition

  /** ACTION_PAGE_TRANSITIONS. */
  function Targets(s: Status): set<Status> {
    match s
    case Draft => {Published, Archived}
    case Published => {Draft, Archived}
    case Archived => {Draft}
  }

  predicate CanTransition(from: Status, to: Status) { to in Targets(from) }

  /** `publishable` is the outcome of the publish gate, which is read before the row is locked. */
  datatype Command =
    | Create(tenant: string, id: PageId)
    | Publish(tenant: string, id: PageId, publishable: bool, now: int)
    | Unpublish(tenant: string, id: PageId)
    | Archive(tenant: string, id: PageId, now: int)
    | Restore(tenant: string, id: PageId)

  predicate Visible(db: Db, tenant: string, id: PageId) {
    id in db.pages && db.pages[id].tenant == tenant
  }

  /** The shared transaction: legality, the new fields, and at most one event. */
  function Transition(db: Db, tenant: string, id: PageId, to: Page -> Page, event: Option<EventKind>): (Db, Result) {
    if !Visible(db, tenant, id) then (db, NotFound)
    else if !CanTransition(db.pages[id].status, to(db.pages[id]).status) then (db, InvalidTransition)
    else
      (Db(db.pages[id := to(db.pages[id])],
          if event.Some? then db.outbox + [Event(event.value, tenant, id)] else db.outbox), Done)
  }

  /** One command. A created page has a fresh id. */
  function Apply(db: Db, c: Command): (Db, Result) {
    match c
    case Create(tenant, id) =>
      if id in db.pages then (db, InvalidTransition)
      else (Db(db.pages[id := Page(tenant, Draft, None, None)], db.outbox + [Event(PageCreated, tenant, id)]), Done)
    case Publish(tenant, id, publishable, now) =>
      if !Visible(db, tenant, id) then (db, NotFound)
      else if !publishable then (db, NotPublishable)
      else
        var published := (p: Page) => p.(status := Published, publishedAt := Some(now));
        Transition(db, tenant, id, published, Some(PagePublished))
    case Unpublish(tenant, id) =>
      Transition(db, tenant, id, (p: Page) => p.(status := Draft), None)
    case Archive(tenant, id, now) =>
      Transition(db, tenant, id, (p: Page) => p.(status := Archived, archivedAt := Some(now)), Some(PageArchived))
    case Restore(tenant, id) =>
      Transition(db, tenant, id, (p: Page) => p.(status := Draft, archivedAt := None), None)
  }

  // ----- Histories -----

  ghost predicate IsHistory(dbs: seq<Db>, cs: seq<Command>) {
    && |dbs| == |cs| + 1 && dbs[0] == EMPTY
    && forall i :: 0 <= i < |cs| ==> dbs[i + 1] == Apply(dbs[i], cs[i]).0
  }

  function StatusOf(db: Db, id: PageId): Option<Status> {
    if id in db.pages then Some(db.pages[id].status) else None
  }

  /** How often the page entered the status along the history. */
  function Entries(dbs: seq<Db>, id: PageId, s: Status): nat {
    if |dbs| < 2 then 0
    else
      var n := |dbs| - 1;
      Entries(dbs[..n], id, s) + if StatusOf(dbs[n], id) == Some(s) && StatusOf(dbs[n - 1], id) != Some(s) then 1 else 0
  }

  function CountEvents(outbox: seq<Event>, kind: EventKind, id: PageId): nat {
    if outbox == [] then 0
    else
      var n := |outbox| - 1;
      CountEvents(outbox[..n], kind, id) + if outbox[n].kind == kind && outbox[n].page == id then 1 else 0
  }

  lemma CountSnoc(outbox: seq<Event>, e: Event, kind: EventKind, id: PageId)
    ensures CountEvents(outbox + [e], kind, id) ==
            CountEvents(outbox, kind, id) + if e.kind == kind && e.page == id then 1 else 0
  {
    assert (outbox + [e])[..|outbox|] == outbox;
  }

  function EventOf(db: Db, c: Command): Option<EventKind> {
    if Apply(db, c).1 != Done then None
    else
      match c
      case Create(_, _) => Some(PageCreated)
      case Publish(_, _, _, _) => Some(PagePublished)
      case Archive(_, _, _) => Some(PageArchived)
      case _ => None
  }

  lemma OutboxGrows(db: Db, c: Command)
    ensures Apply(db, c).0.outbox ==
            if EventOf(db, c).None? then db.outbox else db.outbox + [Event(EventOf(db, c).value, c.tenant, c.id)]
  {
  }

  ghost predicate Enters(db: Db, db': Db, id: PageId, s: Status) {
    StatusOf(db', id) == Some(s) && StatusOf(db, id) != Some(s)
  }

  lemma EntersByEvent(db: Db, c: Command, id: PageId)
    ensures var db' := Apply(db, c).0; var e := EventOf(db, c);
      && (Enters(db, db', id, Published) <==> e == Some(PagePublished) && c.id == id)
      && (Enters(db, db', id, Archived) <==> e == Some(PageArchived) && c.id == id)
      && (id in db'.pages && id !in db.pages <==> e == Some(PageCreated) && c.id == id)
      && (id in db.pages ==> id in db'.pages)
  {
  }

  /** Each command adds an event of a kind exactly when the page enters that kind's status. */
  lemma OneEventPerEntry(db: Db, c: Command, id: PageId)
    ensures var db' := Apply(db, c).0;
      && CountEvents(db'.outbox, PagePublished, id) ==
         CountEvents(db.outbox, PagePublished, id) + (if Enters(db, db', id, Published) then 1 else 0)
      && CountEvents(db'.outbox, PageArchived, id) ==
         CountEvents(db.outbox, PageArchived, id) + (if Enters(db, db', id, Archived) then 1 else 0)
      && CountEvents(db'.outbox, PageCreated, id) ==
         CountEvents(db.outbox, PageCreated, id) + (if id in db'.pages && id !in db.pages then 1 else 0)
      && (id in db.pages ==> id in db'.pages)
  {
    EntersByEvent(db, c, id);
    OutboxGrows(db, c);
    if EventOf(db, c).Some? {
      var e := Event(EventOf(db, c).value, c.tenant, c.id);
      CountSnoc(db.outbox, e, PagePublished, id);
      CountSnoc(db.outbox, e, PageArchived, id);
      CountSnoc(db.outbox, e, PageCreated, id);
    }
  }

  /** The outbox holds one event per entry into PUBLISHED, one per entry into ARCHIVED, one per page. */
  lemma {:induction false} EventsMatchEntries(dbs: seq<Db>, cs: seq<Command>, id: PageId)
    requires IsHistory(dbs, cs)
    ensures var db := dbs[|cs|];
      && CountEvents(db.outbox, PagePublished, id) == Entries(dbs, id, Published)
      && CountEvents(db.outbox, PageArchived, id) == Entries(dbs, id, Archived)
      && CountEvents(db.outbox, PageCreated, id) == if id in db.pages then 1 else 0
    decreases |cs|
  {
    if cs != [] {
      var n := |cs|;
      var dbs0 := dbs[..n];
      EventsMatchEntries(dbs0, cs[..n - 1], id);
      OneEventPerEntry(dbs[n - 1], cs[n - 1], id);
      assert dbs0[n - 1] == dbs[n - 1];
    }
  }

  // ----- The time stamps -----

  /** A command that went through for this page. */
  predicate Went(db: Db, c: Command, id: PageId) {
    c.id == id && Apply(db, c).1 == Done
  }

  /** What the last successful publish, and the last successful archive or restore, left behind. */
  function LastPublish(dbs: seq<Db>, cs: seq<Command>, id: PageId): Option<int>
    requires |dbs| > |cs|
  {
    if cs == [] then None
    else
      var n := |cs| - 1;
      if cs[n].Publish? && Went(dbs[n], cs[n], id) then Some(cs[n].now)
      else LastPublish(dbs, cs[..n], id)
  }

  function LastArchive(dbs: seq<Db>, cs: seq<Command>, id: PageId): Option<int>
    requires |dbs| > |cs|
  {
    if cs == [] then None
    else
      var n := |cs| - 1;
      if cs[n].Archive? && Went(dbs[n], cs[n], id) then Some(cs[n].now)
      else if cs[n].Restore? && Went(dbs[n], cs[n], id) then None
      else LastArchive(dbs, cs[..n], id)
  }

  /** A page's stamps tell its history, and its status implies the matching stamp. */
  ghost predicate StampsOk(dbs: seq<Db>, cs: seq<Command>, id: PageId)
    requires |dbs| > |cs|
  {
    var db := dbs[|cs|];
    if id !in db.pages then LastPublish(dbs, cs, id) == None && LastArchive(dbs, cs, id) == None
    else
      var p := db.pages[id];
      && p.publishedAt == LastPublish(dbs, cs, id)
      && p.archivedAt == LastArchive(dbs, cs, id)
      && (p.status == Published ==> p.publishedAt.Some?)
      && (p.status == Archived ==> p.archivedAt.Some?)
  }

  lemma {:induction false} StampsTellHistory(dbs: seq<Db>, cs: seq<Command>, id: PageId)
    requires |dbs| > |cs| && IsHistory(dbs[..|cs| + 1], cs)
    ensures StampsOk(dbs, cs, id)
    decreases |cs|
  {
    if cs != [] {
      var n := |cs| - 1;
      assert dbs[..|cs| + 1][..n + 1] == dbs[..n + 1];
      StampsTellHistory(dbs, cs[..n], id);
      assert dbs[n + 1] == Apply(dbs[n], cs[n]).0;
    }
  }

  /**
   * A draft page still carries `archivedAt` exactly when the last of its archives and
   * restores was an archive: it came back by unpublish.
   */
  lemma DraftKeepsArchivedAt(dbs: seq<Db>, cs: seq<Command>, id: PageId)
    requires |dbs| > |cs| && IsHistory(dbs[..|cs| + 1], cs)
    requires StatusOf(dbs[|cs|], id) == Some(Draft)
    ensures dbs[|cs|].pages[id].archivedAt.Some? <==> LastArchive(dbs, cs, id).Some?
  {
    StampsTellHistory(dbs, cs, id);
  }

  /** Created, archived and unpublished: a draft that carries `archivedAt`. */
  lemma ArchivedDraft(tenant: string, id: PageId, now: int) returns (dbs: seq<Db>, cs: seq<Command>)
    ensures |dbs| == |cs| + 1 && IsHistory(dbs, cs) && StatusOf(dbs[|cs|], id) == Some(Draft)
    ensures dbs[|cs|].pages[id].archivedAt == Some(now) && LastArchive(dbs, cs, id) == Some(now)
  {
    cs := [Create(tenant, id), Archive(tenant, id, now), Unpublish(tenant, id)];
    var created := Apply(EMPTY, cs[0]).0;
    var archived := Apply(created, cs[1]).0;
    var draft := Apply(archived, cs[2]).0;
    dbs := [EMPTY, created, archived, draft];
    assert dbs[..|cs| + 1] == dbs;
    DraftKeepsArchivedAt(dbs, cs, id);
    StampsTellHistory(dbs, cs, id);
  }

  /** Unpublishing an archived page restores it without clearing the stamp. */
  lemma UnpublishRestores(db: Db, tenant: string, id: PageId)
    requires Visible(db, tenant, id) && db.pages[id].status == Archived
    ensures var (a, ra) := Apply(db, Unpublish(tenant, id)); var (b, rb) := Apply(db, Restore(tenant, id));
      && ra == rb == Done && a.outbox == b.outbox == db.outbox
      && a.pages[id].(archivedAt := None) == b.pages[id]
      && (a == b <==> db.pages[id].archivedAt == None)
  {
    var a, b := Apply(db, Unpublish(tenant, id)).0, Apply(db, Restore(tenant, id)).0;
    if db.pages[id].archivedAt == None { assert a.pages[id] == b.pages[id]; }
  }

  /** Rejected commands change nothing, and other pages are never touched. */
  lemma OnlyItsOwnPage(db: Db, c: Command, id: PageId)
    ensures var (db', r) := Apply(db, c);
      && (r != Done ==> db' == db)
      && (id != c.id ==> StatusOf(db', id) == StatusOf(db, id) && (id in db.pages ==> db'.pages[id] == db.pages[id]))
      && (id in db.pages ==> id in db'.pages && db'.pages[id].tenant == db.pages[id].tenant)
      && (r == Done && !c.Create? ==>
            Visible(db, c.tenant, c.id) && CanTransition(db.pages[c.id].status, db'.pages[c.id].status))
  {
  }

  // ----- The service -----

  class ActionsService {
    var db: Db

    constructor ()
      ensures db == EMPTY
    {
      db := EMPTY;
    }

    method CreatePage(tenant: string, id: PageId)
      requires id !in db.pages
      modifies this
      ensures db == Apply(old(db), Create(tenant, id)).0
    {
      var pages := db.pages[id := Page(tenant, Draft, None, None)];
      db := Db(pages, db.outbox + [Event(PageCreated, tenant, id)]);
    }

    /** SELECT ... FOR UPDATE, the legality check, the update and the event, in one transaction. */
    method RunTransition(tenant: string, id: PageId, to: Status, extra: Page -> Page, event: Option<EventKind>)
      returns (result: Result)
      requires forall p :: extra(p).status == p.status
      modifies this
      ensures (db, result) == Transition(old(db), tenant, id, (p: Page) => extra(p).(status := to), event)
    {
      if id !in db.pages || db.pages[id].tenant != tenant { return NotFound; }
      var current := db.pages[id];
      if !CanTransition(current.status, to) { return InvalidTransition; }
      var page := extra(current).(status := to);
      db := db.(pages := db.pages[id := page]);
      if event.Some? {
        db := db.(outbox := db.outbox + [Event(event.value, tenant, id)]);
      }
      return Done;
    }

    method PublishPage(tenant: string, id: PageId, publishable: bool, now: int) returns (result: Result)
      modifies this
      ensures (db, result) == Apply(old(db), Publish(tenant, id, publishable, now))
    {
      if id !in db.pages || db.pages[id].tenant != tenant { return NotFound; }
      if !publishable { return NotPublishable; }
      result := RunTransition(tenant, id, Published, (p: Page) => p.(publishedAt := Some(now)), Some(PagePublished));
    }

    method UnpublishPage(tenant: string, id: PageId) returns (result: Result)
      modifies this
      ensures (db, result) == Apply(old(db), Unpublish(tenant, id))
    {
      result := RunTransition(tenant, id, Draft, (p: Page) => p, None);
    }

    method ArchivePage(tenant: string, id: PageId, now: int) returns (result: Result)
      modifies this
      ensures (db, result) == Apply(old(db), Archive(tenant, id, now))
    {
      result := RunTransition(tenant, id, Archived, (p: Page) => p.(archivedAt := Some(now)), Some(PageArchived));
    }

    method RestorePage(tenant: string, id: PageId) returns (result: Result)
      modifies this
      ensures (db, result) == Apply(old(db), Restore(tenant, id))
    {
      result := RunTransition(tenant, id, Draft, (p: Page) => p.(archivedAt := None), None);
    }
  }
}
