/** Page commands and relays together: every event of a committed command is pending or handed to the queue. */
module EventDelivery {
  import opened Runs
  import P = ActionPages
  import R = OutboxRelay

  /** Row `i` of the relay's table is event `i` of the pages' outbox. */
  datatype World = World(db: P.Db, relay: R.State)

  datatype Label = Run(command: P.Command) | Relay(step: R.Label)

  const INITIAL := World(P.EMPTY, R.INITIAL)

  /** Relay steps other than Append, which is what a command's transaction does. */
  ghost predicate Enabled(w: World, l: Label) {
    match l
    case Run(_) => true
    case Relay(s) => !s.Append? && R.Enabled(w.relay, s)
  }

  /** The pages after a command, and with them the row of its event, if it has one. */
  function Commit(w: World, db: P.Db): World {
    var n := |w.db.outbox|;
    World(db, if |db.outbox| == n then w.relay else w.relay.(rows := w.relay.rows[n := R.Row(n, false)]))
  }

  ghost function Step(w: World, l: Label): World
    requires Enabled(w, l)
  {
    match l
    case Run(c) => Commit(w, P.Apply(w.db, c).0)
    case Relay(s) => World(w.db, R.Step(w.relay, s))
  }

  ghost predicate Coupled(w: World) {
    && R.Inv(w.relay)
    && (forall id: nat :: id in w.relay.rows <==> id < |w.db.outbox|)
    && (forall id :: id in w.relay.rows ==> w.relay.rows[id].seqNo == id)
  }

  lemma RelayKeepsRows(st: R.State, s: R.Label)
    requires R.Enabled(st, s) && !s.Append?
    ensures R.Step(st, s).rows.Keys == st.rows.Keys
    ensures forall id :: id in st.rows ==> R.Step(st, s).rows[id].seqNo == st.rows[id].seqNo
  {
  }

  /** The transaction of a command that appends an event is the relay system's Append. */
  lemma AppendIs(st: R.State, n: nat)
    requires R.Inv(st) && n !in st.rows && forall k :: k in st.rows ==> st.rows[k].seqNo != n
    ensures R.Inv(st.(rows := st.rows[n := R.Row(n, false)]))
  {
    R.StepKeepsInv(st, R.Append(n, n));
  }

  lemma CommitKeepsCoupling(w: World, db: P.Db)
    requires Coupled(w) && (|db.outbox| == |w.db.outbox| || |db.outbox| == |w.db.outbox| + 1)
    ensures Coupled(Commit(w, db))
  {
    if |db.outbox| > |w.db.outbox| { AppendIs(w.relay, |w.db.outbox|); }
  }

  lemma CommandKeepsCoupling(w: World, c: P.Command)
    requires Coupled(w)
    ensures Coupled(Step(w, Run(c)))
  {
    P.OutboxGrows(w.db, c);
    CommitKeepsCoupling(w, P.Apply(w.db, c).0);
  }

  lemma RelayKeepsCoupling(w: World, s: R.Label)
    requires Coupled(w) && Enabled(w, Relay(s))
    ensures Coupled(Step(w, Relay(s)))
  {
    R.StepKeepsInv(w.relay, s);
    RelayKeepsRows(w.relay, s);
  }

  lemma StepKeepsCoupling(w: World, l: Label)
    requires Coupled(w) && Enabled(w, l)
    ensures Coupled(Step(w, l))
  {
    match l
    case Run(c) => CommandKeepsCoupling(w, c);
    case Relay(s) => RelayKeepsCoupling(w, s);
  }

  ghost predicate IsStep(w: World, l: Label, next: World) { Enabled(w, l) && next == Step(w, l) }

  ghost predicate IsTrace(ws: seq<World>, ls: seq<Label>) {
    IsRunOf((w, l, next) => IsStep(w, l, next), INITIAL, ws, ls)
  }

  lemma CouplingHolds(ws: seq<World>, ls: seq<Label>, n: nat)
    requires IsTrace(ws, ls) && n < |ws|
    ensures Coupled(ws[n])
  {
    R.InitialInv();
    forall w, l, next | Coupled(w) && IsStep(w, l, next) ensures Coupled(next) { StepKeepsCoupling(w, l); }
    InvariantOfRun((w, l, next) => IsStep(w, l, next), w => Coupled(w), INITIAL, ws, ls, n);
  }

  /**
   * Whatever commands, relays, rollbacks and consumers do in between: the event of every
   * committed command waits unpublished in the table, or its job was accepted by the queue.
   */
  lemma EveryEventIsPendingOrHandled(ws: seq<World>, ls: seq<Label>, n: nat, i: nat)
    requires IsTrace(ws, ls) && n < |ws| && i < |ws[n].db.outbox|
    ensures i in ws[n].relay.rows && (ws[n].relay.rows[i].published ==> R.Handled(ws[n].relay, i))
  {
    CouplingHolds(ws, ls, n);
    if ws[n].relay.rows[i].published { R.PublishedIsHandled(ws[n].relay, i); }
  }
}
