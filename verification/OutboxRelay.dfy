/**
 * The transactional outbox and its relays. Any number of drain transactions run at once
 * (several workers, or overlapping ticks of one); each claims rows, enqueues their jobs
 * one by one, marks the rows and commits. A transaction may be rolled back at any point,
 * by a crash or by its timeout; after a timeout the process still runs, so its remaining
 * jobs may reach the queue although its row locks are gone.
 */
module OutboxRelay {
  import opened Wrappers
  import opened Runs

  type EventId = nat
  type TxId = nat

  datatype Row = Row(seqNo: int, published: bool)

  datatype Status = Open | Committed | RolledBack

  /** One call of drainOutbox: its claimed rows, and how many of them are enqueued. */
  datatype Tx = Tx(batch: seq<EventId>, sent: nat, marked: bool, status: Status)

  datatype JobState = Waiting | FailedJob

  datatype Job = Job(id: EventId, state: JobState)

  /**
   * `rows` is the committed table. `accepted` lists the ids of the jobs that the queue
   * took in, in order; `consumed` those that a consumer completed, and `trimmed` the
   * failed ones that the queue dropped.
   */
  datatype State = State(
    rows: map<EventId, Row>, txs: map<TxId, Tx>, queue: seq<Job>,
    accepted: seq<EventId>, consumed: seq<EventId>, trimmed: seq<EventId>)

  const INITIAL := State(map[], map[], [], [], [], [])

  // ----- Claiming: the oldest unpublished rows that nobody else holds -----

  ghost predicate Locked(st: State, id: EventId) {
    exists t :: t in st.txs && st.txs[t].status == Open && id in st.txs[t].batch
  }

  ghost predicate Free(st: State, id: EventId) {
    id in st.rows && !st.rows[id].published && !Locked(st, id)
  }

  ghost predicate OldestFree(st: State, batch: seq<EventId>, limit: nat) {
    && |batch| <= limit
    && (forall i :: 0 <= i < |batch| ==> Free(st, batch[i]))
    && (forall i, j :: 0 <= i < j < |batch| ==> st.rows[batch[i]].seqNo < st.rows[batch[j]].seqNo)
    && (forall id :: Free(st, id) && id !in batch ==>
          |batch| == limit && forall i :: 0 <= i < |batch| ==> st.rows[batch[i]].seqNo < st.rows[id].seqNo)
  }

  predicate HasJob(queue: seq<Job>, id: EventId) {
    exists i :: 0 <= i < |queue| && queue[i].id == id
  }

  // ----- Steps -----

  datatype Label =
    | Append(id: EventId, seqNo: int)
    | Claim(tx: TxId, batch: seq<EventId>, limit: nat)
    | Enqueue(tx: TxId)
    | Mark(tx: TxId)
    | Commit(tx: TxId)
    | RollBack(tx: TxId)
    | Complete(job: nat)
    | Fail(job: nat)
    | Trim(job: nat)

  ghost predicate Enabled(st: State, l: Label) {
    match l
    case Append(id, seqNo) => id !in st.rows && forall k :: k in st.rows ==> st.rows[k].seqNo != seqNo
    case Claim(t, batch, limit) => t !in st.txs && batch != [] && OldestFree(st, batch, limit)
    case Enqueue(t) => t in st.txs && st.txs[t].status != Committed && st.txs[t].sent < |st.txs[t].batch|
    case Mark(t) => t in st.txs && st.txs[t].status == Open && st.txs[t].sent == |st.txs[t].batch|
    case Commit(t) => t in st.txs && st.txs[t].status == Open && st.txs[t].marked
    case RollBack(t) => t in st.txs && st.txs[t].status == Open
    case Complete(j) => j < |st.queue| && st.queue[j].state == Waiting
    case Fail(j) => j < |st.queue| && st.queue[j].state == Waiting
    case Trim(j) => j < |st.queue| && st.queue[j].state == FailedJob
  }

  function Publish(rows: map<EventId, Row>, batch: seq<EventId>): map<EventId, Row> {
    map id | id in rows :: if id in batch then rows[id].(published := true) else rows[id]
  }

  function Remove(queue: seq<Job>, j: nat): seq<Job>
    requires j < |queue|
  {
    queue[..j] + queue[j + 1..]
  }

  ghost function Step(st: State, l: Label): State
    requires Enabled(st, l)
  {
    match l
    case Append(id, seqNo) => st.(rows := st.rows[id := Row(seqNo, false)])
    case Claim(t, batch, _) => st.(txs := st.txs[t := Tx(batch, 0, false, Open)])
    case Enqueue(t) =>
      var tx := st.txs[t];
      var id := tx.batch[tx.sent];
      var s := st.(txs := st.txs[t := tx.(sent := tx.sent + 1)]);
      if HasJob(st.queue, id) then s
      else s.(queue := st.queue + [Job(id, Waiting)], accepted := st.accepted + [id])
    case Mark(t) => st.(txs := st.txs[t := st.txs[t].(marked := true)])
    case Commit(t) =>
      st.(rows := Publish(st.rows, st.txs[t].batch), txs := st.txs[t := st.txs[t].(status := Committed)])
    case RollBack(t) => st.(txs := st.txs[t := st.txs[t].(status := RolledBack)])
    case Complete(j) => st.(queue := Remove(st.queue, j), consumed := st.consumed + [st.queue[j].id])
    case Fail(j) => st.(queue := st.queue[j := st.queue[j].(state := FailedJob)])
    case Trim(j) => st.(queue := Remove(st.queue, j), trimmed := st.trimmed + [st.queue[j].id])
  }

  // ----- What every step keeps -----

  ghost predicate TxOk(st: State, tx: Tx) {
    && tx.sent <= |tx.batch| && NoDup(tx.batch)
    && (tx.marked || tx.status == Committed ==> tx.sent == |tx.batch|)
    && (forall id :: id in tx.batch ==> id in st.rows)
    && (tx.status == Open ==> forall id :: id in tx.batch ==> !st.rows[id].published)
    && (tx.status == Committed ==> forall id :: id in tx.batch ==> st.rows[id].published)
    && (forall i :: 0 <= i < tx.sent ==> tx.batch[i] in st.accepted)
  }

  ghost predicate TxsOk(st: State) {
    forall t {:trigger st.txs[t]} :: t in st.txs ==> TxOk(st, st.txs[t])
  }

  predicate Holds(tx: Tx) { tx.status != RolledBack }

  /** No row is held by two transactions that are open or committed. */
  ghost predicate Disjoint(st: State) {
    forall t, u, id {:trigger id in st.txs[t].batch, id in st.txs[u].batch} ::
      (t in st.txs && u in st.txs && Holds(st.txs[t]) && Holds(st.txs[u])
       && id in st.txs[t].batch && id in st.txs[u].batch) ==> t == u
  }

  ghost predicate HasCommit(st: State, id: EventId) {
    exists t :: t in st.txs && st.txs[t].status == Committed && id in st.txs[t].batch
  }

  /** A published row belongs to a committed transaction. */
  ghost predicate PublishedByCommit(st: State) {
    forall id {:trigger st.rows[id]} :: id in st.rows && st.rows[id].published ==> HasCommit(st, id)
  }

  /** Every accepted job names a row. */
  ghost predicate AcceptedOk(st: State) {
    forall id :: id in st.accepted ==> id in st.rows
  }

  /** The queue never holds two jobs of one event. */
  ghost predicate OneJobEach(queue: seq<Job>) {
    forall i, j :: 0 <= i < j < |queue| ==> queue[i].id != queue[j].id
  }

  function Ids(queue: seq<Job>): (r: seq<EventId>)
    ensures |r| == |queue| && forall i :: 0 <= i < |r| ==> r[i] == queue[i].id
  {
    seq(|queue|, i requires 0 <= i < |queue| => queue[i].id)
  }

  /** Every accepted job is waiting, failed, consumed or trimmed, and nothing else is. */
  ghost predicate Conserved(st: State) {
    multiset(st.accepted) == multiset(Ids(st.queue)) + multiset(st.consumed) + multiset(st.trimmed)
  }

  function Senders(st: State, id: EventId): set<TxId> {
    set t | t in st.txs && id in st.txs[t].batch[..Min(st.txs[t].sent, |st.txs[t].batch|)]
  }

  /** A job is accepted at most once per transaction that sent it. */
  ghost predicate AcceptsOk(st: State) {
    forall id :: multiset(st.accepted)[id] <= |Senders(st, id)|
  }

  ghost predicate Inv(st: State) {
    && TxsOk(st) && Disjoint(st) && PublishedByCommit(st)
    && AcceptedOk(st) && OneJobEach(st.queue) && Conserved(st) && AcceptsOk(st)
  }

  lemma QueuedWasAccepted(st: State, i: nat)
    requires Conserved(st) && i < |st.queue|
    ensures st.queue[i].id in st.accepted
  {
    assert Ids(st.queue)[i] in multiset(Ids(st.queue));
    assert st.queue[i].id in multiset(st.accepted);
  }

  lemma EnqueueEffect(st: State, t: TxId)
    requires Conserved(st) && Enabled(st, Enqueue(t))
    ensures var id := st.txs[t].batch[st.txs[t].sent]; var st' := Step(st, Enqueue(t));
      && st'.rows == st.rows
      && st'.txs == st.txs[t := st.txs[t].(sent := st.txs[t].sent + 1)]
      && (forall k :: k in st.accepted ==> k in st'.accepted)
      && id in st'.accepted
  {
    var id := st.txs[t].batch[st.txs[t].sent];
    if HasJob(st.queue, id) {
      var i: nat :| i < |st.queue| && st.queue[i].id == id;
      QueuedWasAccepted(st, i);
    }
  }

  /** What a step does to a transaction that was there before. */
  lemma TxKept(st: State, l: Label, t: TxId)
    requires TxsOk(st) && Disjoint(st) && Conserved(st) && Enabled(st, l) && t in st.txs
    ensures t in Step(st, l).txs && TxOk(Step(st, l), Step(st, l).txs[t])
  {
    assert TxOk(st, st.txs[t]);
    match l
    case Commit(u) =>
      assert TxOk(st, st.txs[u]);
      if t != u && st.txs[t].status == Open {
        assert forall id :: id in st.txs[t].batch ==> id !in st.txs[u].batch;
      }
    case Enqueue(u) => EnqueueEffect(st, u);
    case _ =>
  }

  lemma TxsKept(st: State, l: Label)
    requires TxsOk(st) && Disjoint(st) && Conserved(st) && Enabled(st, l)
    ensures TxsOk(Step(st, l))
  {
    var st' := Step(st, l);
    forall t | t in st'.txs ensures TxOk(st', st'.txs[t]) {
      if t in st.txs {
        TxKept(st, l, t);
      } else {
        assert l.Claim? && l.tx == t;
        assert forall i :: 0 <= i < |l.batch| ==> Free(st, l.batch[i]);
      }
    }
  }

  /** A claim takes no row of an open or committed transaction. */
  lemma ClaimIsFresh(st: State, t: TxId, batch: seq<EventId>, limit: nat, u: TxId, id: EventId)
    requires TxsOk(st) && Enabled(st, Claim(t, batch, limit))
    requires u in st.txs && Holds(st.txs[u]) && id in st.txs[u].batch
    ensures id !in batch
  {
    assert TxOk(st, st.txs[u]);
    assert st.txs[u].status == Open ==> Locked(st, id);
    assert !Free(st, id);
    assert forall i :: 0 <= i < |batch| ==> Free(st, batch[i]);
  }

  lemma DisjointKept(st: State, l: Label)
    requires TxsOk(st) && Disjoint(st) && Enabled(st, l)
    ensures Disjoint(Step(st, l))
  {
    if l.Claim? {
      var st' := Step(st, l);
      forall t, u, id | t in st'.txs && u in st'.txs && Holds(st'.txs[t]) && Holds(st'.txs[u])
                        && id in st'.txs[t].batch && id in st'.txs[u].batch
        ensures t == u
      {
        if t in st.txs && u !in st.txs { ClaimIsFresh(st, l.tx, l.batch, l.limit, t, id); }
        if u in st.txs && t !in st.txs { ClaimIsFresh(st, l.tx, l.batch, l.limit, u, id); }
      }
    }
  }

  lemma PublishedKept(st: State, l: Label)
    requires PublishedByCommit(st) && Enabled(st, l)
    ensures PublishedByCommit(Step(st, l))
  {
    var st' := Step(st, l);
    forall id | id in st'.rows && st'.rows[id].published ensures HasCommit(st', id) {
      if id in st.rows && st.rows[id].published {
        assert HasCommit(st, id);
        var t :| t in st.txs && st.txs[t].status == Committed && id in st.txs[t].batch;
        assert t in st'.txs && st'.txs[t].status == Committed && id in st'.txs[t].batch;
      } else {
        assert l.Commit? && id in st.txs[l.tx].batch;
        assert l.tx in st'.txs && st'.txs[l.tx].status == Committed;
      }
    }
  }

  lemma AcceptedKept(st: State, l: Label)
    requires AcceptedOk(st) && TxsOk(st) && Enabled(st, l)
    ensures AcceptedOk(Step(st, l))
  {
    if l.Enqueue? { assert TxOk(st, st.txs[l.tx]); }
  }

  lemma OneJobKept(st: State, l: Label)
    requires OneJobEach(st.queue) && Enabled(st, l)
    ensures OneJobEach(Step(st, l).queue)
  {
  }

  lemma RemovedIds(queue: seq<Job>, j: nat)
    requires j < |queue|
    ensures multiset(Ids(queue)) == multiset(Ids(Remove(queue, j))) + multiset{queue[j].id}
  {
    var ids := Ids(queue);
    assert Ids(Remove(queue, j)) == ids[..j] + ids[j + 1..];
    assert ids == ids[..j] + [ids[j]] + ids[j + 1..];
  }

  lemma ConservedKept(st: State, l: Label)
    requires Conserved(st) && Enabled(st, l)
    ensures Conserved(Step(st, l))
  {
    match l
    case Enqueue(t) =>
      var id := st.txs[t].batch[st.txs[t].sent];
      if !HasJob(st.queue, id) { assert Ids(st.queue + [Job(id, Waiting)]) == Ids(st.queue) + [id]; }
    case Complete(j) => RemovedIds(st.queue, j);
    case Trim(j) => RemovedIds(st.queue, j);
    case Fail(j) => assert Ids(Step(st, l).queue) == Ids(st.queue);
    case _ =>
  }

  lemma SendersAfterEnqueue(st: State, t: TxId, id: EventId)
    requires TxsOk(st) && Enabled(st, Enqueue(t))
    ensures Senders(Step(st, Enqueue(t)), id) ==
            Senders(st, id) + if id == st.txs[t].batch[st.txs[t].sent] then {t} else {}
    ensures id == st.txs[t].batch[st.txs[t].sent] ==> t !in Senders(st, id)
  {
    var tx := st.txs[t];
    assert TxOk(st, tx);
    assert tx.batch[..tx.sent + 1] == tx.batch[..tx.sent] + [tx.batch[tx.sent]];
    var st' := Step(st, Enqueue(t));
    assert st'.txs == st.txs[t := tx.(sent := tx.sent + 1)];
  }

  lemma SendersElse(st: State, l: Label, id: EventId)
    requires Enabled(st, l) && !l.Enqueue?
    ensures Senders(Step(st, l), id) == Senders(st, id)
  {
  }

  lemma AcceptsKept(st: State, l: Label)
    requires TxsOk(st) && AcceptsOk(st) && Enabled(st, l)
    ensures AcceptsOk(Step(st, l))
  {
    var st' := Step(st, l);
    forall id ensures multiset(st'.accepted)[id] <= |Senders(st', id)| {
      AcceptKept(st, l, id);
    }
  }

  lemma AcceptKept(st: State, l: Label, id: EventId)
    requires TxsOk(st) && multiset(st.accepted)[id] <= |Senders(st, id)| && Enabled(st, l)
    ensures multiset(Step(st, l).accepted)[id] <= |Senders(Step(st, l), id)|
  {
    if l.Enqueue? {
      SendersAfterEnqueue(st, l.tx, id);
    } else {
      SendersElse(st, l, id);
    }
  }

  /** Every step of every participant keeps the invariant. */
  lemma StepKeepsInv(st: State, l: Label)
    requires Inv(st) && Enabled(st, l)
    ensures Inv(Step(st, l))
  {
    TxsKept(st, l);
    DisjointKept(st, l);
    PublishedKept(st, l);
    AcceptedKept(st, l);
    OneJobKept(st, l);
    ConservedKept(st, l);
    AcceptsKept(st, l);
  }

  // ----- Whole runs -----

  ghost predicate IsStep(st: State, l: Label, next: State) { Enabled(st, l) && next == Step(st, l) }

  ghost predicate IsRun(states: seq<State>, labels: seq<Label>) {
    states != [] && IsRunOf((st, l, next) => IsStep(st, l, next), states[0], states, labels)
  }

  ghost predicate IsTrace(states: seq<State>, labels: seq<Label>) {
    IsRun(states, labels) && states[0] == INITIAL
  }

  lemma StepAt(states: seq<State>, labels: seq<Label>, i: nat)
    requires IsRun(states, labels) && i < |labels|
    ensures |states| == |labels| + 1 && IsStep(states[i], labels[i], states[i + 1])
  {
  }

  lemma RunGrows(states: seq<State>, labels: seq<Label>, l: Label, next: State)
    requires IsRun(states, labels) && |states| == |labels| + 1 && IsStep(states[|labels|], l, next)
    ensures IsRun(states + [next], labels + [l])
  {
    RunExtends((st, l, next) => IsStep(st, l, next), states[0], states, labels, l, next);
  }

  lemma InitialInv()
    ensures Inv(INITIAL)
  {
    assert forall id :: Senders(INITIAL, id) == {};
  }

  lemma InvariantHolds(states: seq<State>, labels: seq<Label>, n: nat)
    requires IsTrace(states, labels) && n < |states|
    ensures Inv(states[n])
  {
    InitialInv();
    forall st, l, next | Inv(st) && IsStep(st, l, next) ensures Inv(next) { StepKeepsInv(st, l); }
    InvariantOfRun((st, l, next) => IsStep(st, l, next), st => Inv(st), INITIAL, states, labels, n);
  }

  /** Open transactions never hold a row in common. */
  lemma LiveClaimsAreDisjoint(states: seq<State>, labels: seq<Label>, n: nat, t: TxId, u: TxId, id: EventId)
    requires IsTrace(states, labels) && n < |states|
    requires var txs := states[n].txs; t in txs && u in txs && t != u && Holds(txs[t]) && Holds(txs[u])
    ensures !(id in states[n].txs[t].batch && id in states[n].txs[u].batch)
  {
    InvariantHolds(states, labels, n);
  }

  /** Where the job of a row may be once the row is marked published. */
  ghost predicate Handled(st: State, id: EventId) {
    id in st.accepted && (HasJob(st.queue, id) || id in st.consumed || id in st.trimmed)
  }

  lemma PublishedIsHandled(st: State, id: EventId)
    requires Inv(st) && id in st.rows && st.rows[id].published
    ensures Handled(st, id)
  {
    assert HasCommit(st, id);
    var t :| t in st.txs && st.txs[t].status == Committed && id in st.txs[t].batch;
    assert TxOk(st, st.txs[t]);
    assert id in multiset(st.accepted);
    if id in multiset(Ids(st.queue)) {
      var i: nat :| i < |Ids(st.queue)| && Ids(st.queue)[i] == id;
      assert st.queue[i].id == id;
    }
  }

  /** No event is lost: a row is unpublished, or its job is queued, consumed or was trimmed as failed. */
  lemma NoEventLost(states: seq<State>, labels: seq<Label>, n: nat, id: EventId)
    requires IsTrace(states, labels) && n < |states| && id in states[n].rows
    ensures !states[n].rows[id].published || Handled(states[n], id)
  {
    InvariantHolds(states, labels, n);
    if states[n].rows[id].published { PublishedIsHandled(states[n], id); }
  }

  lemma QueueHoldsOneJobEach(states: seq<State>, labels: seq<Label>, n: nat)
    requires IsTrace(states, labels) && n < |states|
    ensures OneJobEach(states[n].queue)
    ensures forall i :: 0 <= i < |states[n].queue| ==> states[n].queue[i].id in states[n].rows
  {
    InvariantHolds(states, labels, n);
    forall i | 0 <= i < |states[n].queue| ensures states[n].queue[i].id in states[n].rows {
      QueuedWasAccepted(states[n], i);
    }
  }

  function RolledBackSenders(st: State, id: EventId): set<TxId> {
    set t | t in Senders(st, id) && st.txs[t].status == RolledBack
  }

  /** Of the transactions that sent an event, at most one was not rolled back. */
  lemma OneHolder(st: State, id: EventId)
    requires Disjoint(st)
    ensures |Senders(st, id)| <= 1 + |RolledBackSenders(st, id)|
  {
    var holding := Senders(st, id) - RolledBackSenders(st, id);
    assert Senders(st, id) == holding + RolledBackSenders(st, id);
    if holding != {} {
      var t :| t in holding;
      forall u | u in holding ensures u == t {
        assert id in st.txs[t].batch && id in st.txs[u].batch;
      }
      assert holding == {t};
    }
  }

  /** Each event is delivered at most once more than transactions that sent it were rolled back. */
  lemma DeliveriesAreBounded(states: seq<State>, labels: seq<Label>, n: nat, id: EventId)
    requires IsTrace(states, labels) && n < |states|
    ensures multiset(states[n].consumed)[id] <= multiset(states[n].accepted)[id]
    ensures multiset(states[n].accepted)[id] <= 1 + |RolledBackSenders(states[n], id)|
  {
    InvariantHolds(states, labels, n);
    OneHolder(states[n], id);
    assert multiset(states[n].accepted)[id] <= |Senders(states[n], id)|;
  }

  /** So an event that no rolled-back transaction sent is delivered at most once. */
  lemma OnceWithoutRollBack(states: seq<State>, labels: seq<Label>, n: nat, id: EventId)
    requires IsTrace(states, labels) && n < |states| && RolledBackSenders(states[n], id) == {}
    ensures multiset(states[n].consumed)[id] <= 1
  {
    DeliveriesAreBounded(states, labels, n, id);
  }

  /**
   * Whenever a relay claims rows on a run, all older unpublished rows are among them or held by a relay at
   * work; they come in the order of their sequence numbers, and no more than asked for.
   */
  lemma ClaimsOldestFirst(states: seq<State>, labels: seq<Label>, n: nat, i: nat, id: EventId)
    requires IsTrace(states, labels) && n < |labels| && labels[n].Claim? && i < |labels[n].batch|
    requires id in states[n].rows && !states[n].rows[id].published
    ensures |labels[n].batch| <= labels[n].limit && labels[n].batch[i] in states[n].rows
    ensures states[n].rows[id].seqNo < states[n].rows[labels[n].batch[i]].seqNo ==>
      || (exists j :: 0 <= j < i && labels[n].batch[j] == id)
      || (exists t :: t in states[n].txs && states[n].txs[t].status == Open && id in states[n].txs[t].batch)
  {
    StepAt(states, labels, n);
    var st, batch := states[n], labels[n].batch;
    assert Free(st, batch[i]);
    if st.rows[id].seqNo < st.rows[batch[i]].seqNo && !Locked(st, id) {
      assert Free(st, id);
      var j :| 0 <= j < |batch| && batch[j] == id;
      assert j != i;
    }
  }

  // ----- When a job is taken in a second time -----

  /** The event that the transaction's next job is about. */
  ghost function NextId(st: State, t: TxId): EventId
    requires Enabled(st, Enqueue(t))
  {
    st.txs[t].batch[st.txs[t].sent]
  }

  /** A job of the event was taken in before, and the queue remembers none. */
  ghost predicate Gone(st: State, id: EventId) {
    (id in st.consumed || id in st.trimmed) && !HasJob(st.queue, id)
  }

  /** What was accepted is queued, consumed or trimmed, and nothing else is. */
  lemma AcceptedIsSomewhere(st: State, id: EventId)
    requires Conserved(st)
    ensures id in st.accepted <==> HasJob(st.queue, id) || id in st.consumed || id in st.trimmed
  {
    assert id in multiset(st.accepted) <==> id in st.accepted;
    if HasJob(st.queue, id) {
      var i: nat :| i < |st.queue| && st.queue[i].id == id;
      QueuedWasAccepted(st, i);
    }
    if id in multiset(Ids(st.queue)) {
      var i: nat :| i < |Ids(st.queue)| && Ids(st.queue)[i] == id;
      assert st.queue[i].id == id;
    }
  }

  /** A job sent again is taken in again if and only if its earlier one is gone; else it is dropped. */
  lemma ReacceptsIffGone(st: State, t: TxId)
    requires Inv(st) && Enabled(st, Enqueue(t)) && NextId(st, t) in st.accepted
    ensures var id := NextId(st, t); var st' := Step(st, Enqueue(t));
      && (st'.accepted == st.accepted + [id] <==> Gone(st, id))
      && (!Gone(st, id) ==> st'.accepted == st.accepted && st'.queue == st.queue)
  {
    AcceptedIsSomewhere(st, NextId(st, t));
  }

  /** A step that takes in the event's job although an earlier one was taken in before. */
  ghost predicate FindsGone(st: State, l: Label, id: EventId) {
    l.Enqueue? && Enabled(st, l) && NextId(st, l.tx) == id && Gone(st, id)
  }

  lemma OthersAcceptNothing(st: State, l: Label)
    requires Enabled(st, l) && !l.Enqueue?
    ensures Step(st, l).accepted == st.accepted
  {
  }

  lemma EnqueueAccepts(st: State, t: TxId)
    requires Enabled(st, Enqueue(t))
    ensures Step(st, Enqueue(t)).accepted
            == if HasJob(st.queue, NextId(st, t)) then st.accepted else st.accepted + [NextId(st, t)]
  {
  }

  lemma CountAfter(st: State, l: Label, id: EventId)
    requires Inv(st) && Enabled(st, l)
    ensures var before, after := multiset(st.accepted)[id], multiset(Step(st, l).accepted)[id];
      && before <= after <= before + 1
      && (before > 0 ==> (after > before <==> FindsGone(st, l, id)))
      && (before == 0 ==> !FindsGone(st, l, id))
  {
    AcceptedIsSomewhere(st, id);
    assert id in st.accepted <==> multiset(st.accepted)[id] > 0;
    if l.Enqueue? {
      EnqueueAccepts(st, l.tx);
    } else {
      OthersAcceptNothing(st, l);
    }
  }

  ghost predicate AtMostOnce(st: State, id: EventId) { multiset(st.accepted)[id] <= 1 }

  lemma OnceAfter(st: State, l: Label, id: EventId)
    requires Inv(st) && Enabled(st, l)
    ensures AtMostOnce(Step(st, l), id) <==> AtMostOnce(st, id) && !FindsGone(st, l, id)
  {
    CountAfter(st, l, id);
  }

  /**
   * Re-enqueueing is deduplicated: over every run an event's job is taken in at most once,
   * if and only if no enqueue found it consumed or trimmed and no longer queued.
   */
  lemma AcceptedOnceIff(states: seq<State>, labels: seq<Label>, n: nat, id: EventId)
    requires IsTrace(states, labels) && n < |states|
    ensures AtMostOnce(states[n], id) <==> forall i :: 0 <= i < n ==> !FindsGone(states[i], labels[i], id)
  {
    InitialInv();
    forall st, l, next | Inv(st) && IsStep(st, l, next)
      ensures Inv(next) && (AtMostOnce(next, id) <==> AtMostOnce(st, id) && !FindsGone(st, l, id))
    {
      StepKeepsInv(st, l);
      OnceAfter(st, l, id);
    }
    GoodIffNoneBad((st, l, next) => IsStep(st, l, next), st => Inv(st), st => AtMostOnce(st, id),
                   (st, l) => FindsGone(st, l, id), INITIAL, states, labels, n);
  }

  // ----- Delivery is at least once only -----

  function Claimed(sent: nat, marked: bool, status: Status): Tx { Tx([0], sent, marked, status) }

  function Unpublished(txs: map<TxId, Tx>, queue: seq<Job>, accepted: seq<EventId>, consumed: seq<EventId>): State {
    State(map[0 := Row(7, false)], txs, queue, accepted, consumed, [])
  }

  lemma Extended(states: seq<State>, labels: seq<Label>, l: Label, next: State)
    requires IsTrace(states, labels) && |states| == |labels| + 1 && IsStep(states[|labels|], l, next)
    ensures IsTrace(states + [next], labels + [l])
  {
    RunGrows(states, labels, l, next);
  }

  /** A transaction with a fresh id claims the free row 0 and sends it; a consumer takes the job at once. */
  lemma DeliverOnce(states: seq<State>, labels: seq<Label>, t: TxId, before: State)
    returns (states': seq<State>, labels': seq<Label>)
    requires IsTrace(states, labels) && |states| == |labels| + 1
    requires before == states[|labels|] && before.queue == [] && t !in before.txs
    requires before.rows == map[0 := Row(7, false)] && !Locked(before, 0)
    ensures IsTrace(states', labels') && |states'| == |labels'| + 1
    ensures states'[|labels'|] == before.(txs := before.txs[t := Claimed(1, false, Open)],
      accepted := before.accepted + [0], consumed := before.consumed + [0])
  {
    var claimed := before.(txs := before.txs[t := Claimed(0, false, Open)]);
    assert Free(before, 0);
    Extended(states, labels, Claim(t, [0], 100), claimed);
    states', labels' := states + [claimed], labels + [Claim(t, [0], 100)];
    var sent := before.(txs := before.txs[t := Claimed(1, false, Open)],
                        queue := [Job(0, Waiting)], accepted := before.accepted + [0]);
    Extended(states', labels', Enqueue(t), sent);
    states', labels' := states' + [sent], labels' + [Enqueue(t)];
    var taken := sent.(queue := [], consumed := before.consumed + [0]);
    Extended(states', labels', Complete(0), taken);
    states', labels' := states' + [taken], labels' + [Complete(0)];
  }

  /** A relay that dies after its job was consumed, and one that sends the event again: delivered twice. */
  lemma DeliveredTwice() returns (states: seq<State>, labels: seq<Label>)
    ensures IsTrace(states, labels) && |states| == |labels| + 1 && multiset(states[|labels|].consumed)[0] == 2
  {
    var appended := Unpublished(map[], [], [], []);
    Extended([INITIAL], [], Append(0, 7), appended);
    states, labels := DeliverOnce([INITIAL, appended], [Append(0, 7)], 0, appended);
    var dead := Unpublished(map[0 := Claimed(1, false, RolledBack)], [], [0], [0]);
    Extended(states, labels, RollBack(0), dead);
    states, labels := DeliverOnce(states + [dead], labels + [RollBack(0)], 1, dead);
  }
}
