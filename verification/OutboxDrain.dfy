/** One uninterrupted call of drainOutbox, proved to be a run of the relay's step system. */
module OutboxDrain {
  import opened OutboxRelay

  /** Any set of free rows has an oldest one. */
  lemma {:induction false} OldestOf(st: State, ids: set<EventId>) returns (oldest: EventId)
    requires ids != {} && forall id :: id in ids ==> id in st.rows
    ensures oldest in ids && forall id :: id in ids ==> st.rows[oldest].seqNo <= st.rows[id].seqNo
    decreases |ids|
  {
    var id :| id in ids;
    oldest := id;
    var rest := ids - {id};
    if rest != {} {
      var o := OldestOf(st, rest);
      if st.rows[o].seqNo < st.rows[id].seqNo { oldest := o; }
      assert forall k :: k in ids ==> k == id || k in rest;
    }
  }

  ghost predicate DistinctSeqNos(st: State) {
    forall j, k :: j in st.rows && k in st.rows && j != k ==> st.rows[j].seqNo != st.rows[k].seqNo
  }

  ghost function FreeBut(st: State, b: seq<EventId>): set<EventId> {
    set id | id in st.rows && Free(st, id) && id !in b
  }

  lemma ClaimOneMore(st: State, b: seq<EventId>, limit: nat, o: EventId)
    requires DistinctSeqNos(st) && limit > 0 && OldestFree(st, b, limit - 1)
    requires o in FreeBut(st, b) && forall id :: id in FreeBut(st, b) ==> st.rows[o].seqNo <= st.rows[id].seqNo
    ensures OldestFree(st, b + [o], limit)
  {
    forall id | Free(st, id) && id !in b + [o] ensures st.rows[o].seqNo < st.rows[id].seqNo {
      assert id in FreeBut(st, b) && id != o;
    }
  }

  /** The claiming query has an answer in every state. */
  lemma {:induction false} ClaimExists(st: State, limit: nat) returns (batch: seq<EventId>)
    requires DistinctSeqNos(st)
    ensures OldestFree(st, batch, limit)
  {
    if limit == 0 {
      batch := [];
    } else {
      batch := ClaimExists(st, limit - 1);
      if FreeBut(st, batch) != {} {
        var o := OldestOf(st, FreeBut(st, batch));
        ClaimOneMore(st, batch, limit, o);
        batch := batch + [o];
      } else {
        assert forall id :: Free(st, id) && id !in batch ==> id in FreeBut(st, batch);
      }
    }
  }

  /** How a call ends: the bulk enqueue fails part way, marking the rows fails, or the commit does. */
  datatype Outcome = Commits | CommitFails | MarkFails | AddFails(reached: nat)

  function Reached(outcome: Outcome, rows: seq<EventId>): (r: nat)
    ensures r <= |rows| && (!outcome.AddFails? ==> r == |rows|)
  {
    if outcome.AddFails? && outcome.reached < |rows| then outcome.reached else |rows|
  }

  /** The database and the queue as one relay process uses them. */
  class Relay {
    var st: State

    constructor (st: State)
      ensures this.st == st
    {
      this.st := st;
    }

    /** queue.addBulk, of which `reached` jobs get to the queue: each is dropped if the event has one. */
    method AddBulk(t: TxId, reached: nat, ghost states: seq<State>, ghost labels: seq<Label>)
      returns (ghost states': seq<State>, ghost labels': seq<Label>)
      requires IsRun(states, labels) && |states| == |labels| + 1 && states[|labels|] == st
      requires t in st.txs && st.txs[t] == Tx(st.txs[t].batch, 0, false, Open) && reached <= |st.txs[t].batch|
      modifies this
      ensures IsRun(states', labels') && |states'| == |labels'| + 1
      ensures states'[|labels'|] == st && states'[0] == states[0]
      ensures st.rows == old(st).rows
      ensures t in st.txs && st.txs[t] == Tx(old(st).txs[t].batch, reached, false, Open)
      ensures forall k :: 0 <= k < reached ==> HasJob(st.queue, old(st).txs[t].batch[k])
    {
      states', labels' := states, labels;
      var batch := st.txs[t].batch;
      var i := 0;
      while i < reached
        invariant i <= reached
        invariant IsRun(states', labels') && |states'| == |labels'| + 1
        invariant states'[|labels'|] == st && states'[0] == states[0]
        invariant st.rows == old(st).rows
        invariant t in st.txs && st.txs[t] == Tx(batch, i, false, Open)
        invariant forall k :: 0 <= k < i ==> HasJob(st.queue, batch[k])
      {
        ghost var before := st;
        var id := batch[i];
        if !HasJob(st.queue, id) {
          st := st.(queue := st.queue + [Job(id, Waiting)], accepted := st.accepted + [id]);
          assert st.queue[|st.queue| - 1].id == id;
        }
        st := st.(txs := st.txs[t := Tx(batch, i + 1, false, Open)]);
        JobsStay(before.queue, st.queue, batch[..i]);
        RunGrows(states', labels', Enqueue(t), st);
        states', labels' := states' + [st], labels' + [Enqueue(t)];
        i := i + 1;
      }
    }

    /**
     * `rows` is the answer of the claiming query. The returned count is set once the rows are
     * marked, before it is known whether the database commits; a failure before that returns 0.
     */
    method DrainOutbox(t: TxId, rows: seq<EventId>, batchSize: nat, outcome: Outcome)
      returns (published: nat, ghost states: seq<State>, ghost labels: seq<Label>)
      requires t !in st.txs && OldestFree(st, rows, batchSize)
      modifies this
      ensures IsRun(states, labels) && |states| == |labels| + 1
      ensures states[0] == old(st) && states[|labels|] == st
      ensures published == if outcome.AddFails? || outcome.MarkFails? then 0 else |rows|
      ensures rows == [] ==> st == old(st)
      ensures rows != [] ==> t in st.txs && st.txs[t].batch == rows
      ensures st.rows == if outcome.Commits? then Publish(old(st).rows, rows) else old(st).rows
      ensures forall k :: 0 <= k < Reached(outcome, rows) ==> HasJob(st.queue, rows[k])
    {
      states, labels := [st], [];
      published := 0;
      if rows == [] {
        assert st.rows == Publish(st.rows, []);
        return 0, states, labels;
      }
      st := st.(txs := st.txs[t := Tx(rows, 0, false, Open)]);
      RunGrows(states, labels, Claim(t, rows, batchSize), st);
      states, labels := states + [st], labels + [Claim(t, rows, batchSize)];
      states, labels := AddBulk(t, Reached(outcome, rows), states, labels);
      if outcome.Commits? || outcome.CommitFails? {
        st := st.(txs := st.txs[t := st.txs[t].(marked := true)]);
        RunGrows(states, labels, Mark(t), st);
        states, labels := states + [st], labels + [Mark(t)];
        published := |rows|;
      }
      if outcome.Commits? {
        st := st.(rows := Publish(st.rows, rows), txs := st.txs[t := st.txs[t].(status := Committed)]);
        RunGrows(states, labels, Commit(t), st);
        states, labels := states + [st], labels + [Commit(t)];
      } else {
        st := st.(txs := st.txs[t := st.txs[t].(status := RolledBack)]);
        RunGrows(states, labels, RollBack(t), st);
        states, labels := states + [st], labels + [RollBack(t)];
      }
    }
  }

  lemma JobsStay(q: seq<Job>, q': seq<Job>, ids: seq<EventId>)
    requires q <= q' && forall k :: 0 <= k < |ids| ==> HasJob(q, ids[k])
    ensures forall k :: 0 <= k < |ids| ==> HasJob(q', ids[k])
  {
    forall k | 0 <= k < |ids| ensures HasJob(q', ids[k]) {
      var i :| 0 <= i < |q| && q[i].id == ids[k];
      assert q'[i] == q[i];
    }
  }
}
