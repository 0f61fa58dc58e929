/**
 * The event stream of one call session: an append-only ledger, a server that polls behind
 * a cursor, and a client that reconnects with the id it saw last.
 */
module SseResume {
  import opened Wrappers
  import opened Runs
  import opened Decimal

  datatype Row = Row(session: string, tenant: string, seqNo: nat, name: string, payload: string)

  /** The session and tenant that the stream's token names, and the fixed `?after` of its URL. */
  datatype Stream = Stream(session: string, tenant: string, after: Option<string>)

  /** `table` is the whole ledger by sequence number. */
  datatype State = State(table: map<nat, Row>, open: bool, cursor: nat, wire: seq<Row>, received: seq<Row>)

  const INITIAL := State(map[], false, 0, [], [])

  const TAKE: nat := 100

  predicate Selected(s: Stream, r: Row) { r.session == s.session && r.tenant == s.tenant }

  function CursorOf(raw: Option<string>): nat {
    if raw.None? || Parse(raw.value).None? then 0 else Parse(raw.value).value
  }

  /** The larger of the ids that the header and the query carry. */
  function ChooseCursor(header: Option<string>, after: Option<string>): nat {
    Max(CursorOf(header), CursorOf(after))
  }

  /** What the browser sends as Last-Event-ID: the id of the last event it received. */
  function LastEventId(received: seq<Row>): Option<string> {
    if received == [] then None else Some(Show(received[|received| - 1].seqNo))
  }

  /** The answer of the polling query: the first rows behind the cursor, in order. */
  ghost predicate IsAnswer(table: map<nat, Row>, s: Stream, cursor: nat, rows: seq<Row>) {
    && |rows| <= TAKE
    && (forall i :: 0 <= i < |rows| ==>
          rows[i].seqNo in table && table[rows[i].seqNo] == rows[i] && Selected(s, rows[i]) && rows[i].seqNo > cursor)
    && (forall i, j :: 0 <= i < j < |rows| ==> rows[i].seqNo < rows[j].seqNo)
    && (forall k :: k in table && Selected(s, table[k]) && k > cursor && table[k] !in rows ==>
          |rows| == TAKE && forall i :: 0 <= i < |rows| ==> rows[i].seqNo < k)
  }

  function LastOr(rows: seq<Row>, n: nat): nat {
    if rows == [] then n else rows[|rows| - 1].seqNo
  }

  datatype Label =
    | Append(row: Row)
    | Connect
    | Poll(rows: seq<Row>)
    | Deliver
    | Disconnect

  ghost predicate Enabled(st: State, s: Stream, l: Label) {
    match l
    case Append(row) => row.seqNo > 0 && row.seqNo !in st.table
    case Connect => !st.open
    case Poll(rows) => st.open && IsAnswer(st.table, s, st.cursor, rows)
    case Deliver => st.open && st.wire != []
    case Disconnect => st.open
  }

  function Step(st: State, s: Stream, l: Label): State
    requires l.Deliver? ==> st.wire != []
  {
    match l
    case Append(row) => st.(table := st.table[row.seqNo := row])
    case Connect => st.(open := true, cursor := ChooseCursor(LastEventId(st.received), s.after), wire := [])
    case Poll(rows) => st.(cursor := LastOr(rows, st.cursor), wire := st.wire + rows)
    case Deliver => st.(wire := st.wire[1..], received := st.received + [st.wire[0]])
    case Disconnect => st.(open := false, wire := [])
  }

  /** A row of the session becomes visible behind all rows of the session that are. */
  ghost predicate InOrder(st: State, s: Stream, l: Label) {
    l.Append? && Selected(s, l.row) ==> forall k :: k in st.table && Selected(s, st.table[k]) ==> k < l.row.seqNo
  }

  ghost predicate IsStep(st: State, s: Stream, l: Label, next: State) {
    Enabled(st, s, l) && next == Step(st, s, l)
  }

  ghost predicate IsTrace(states: seq<State>, s: Stream, labels: seq<Label>) {
    IsRunOf((st, l, next) => IsStep(st, s, l, next), INITIAL, states, labels)
  }

  lemma StepAt(states: seq<State>, s: Stream, labels: seq<Label>, i: nat)
    requires IsTrace(states, s, labels) && i < |labels|
    ensures |states| == |labels| + 1 && IsStep(states[i], s, labels[i], states[i + 1])
  {
  }

  ghost predicate VisibleInOrder(states: seq<State>, s: Stream, labels: seq<Label>)
    requires |states| > |labels|
  {
    forall i :: 0 <= i < |labels| ==> InOrder(states[i], s, labels[i])
  }

  // ----- What every run keeps -----

  /** The ids up to which the session's stream was asked for at the start. */
  function Start(s: Stream): nat { CursorOf(s.after) }

  function Flow(st: State): seq<Row> { st.received + st.wire }

  function Reach(st: State, s: Stream): nat { LastOr(Flow(st), Start(s)) }

  ghost predicate Has(rows: seq<Row>, k: nat) {
    exists i :: 0 <= i < |rows| && rows[i].seqNo == k
  }

  predicate InLedger(table: map<nat, Row>, s: Stream, r: Row) {
    r.seqNo in table && table[r.seqNo] == r && r.session == s.session && r.tenant == s.tenant
  }

  /** `rows` are rows of the session behind `lo`, each once and in the order of their ids. */
  ghost predicate Genuine(table: map<nat, Row>, s: Stream, lo: nat, rows: seq<Row>) {
    && (forall i :: 0 <= i < |rows| ==> InLedger(table, s, rows[i]) && lo < rows[i].seqNo)
    && (forall i, j :: 0 <= i < j < |rows| ==> rows[i].seqNo < rows[j].seqNo)
  }

  /** No row of the session behind `lo`, up to the last of `rows`, is left out. */
  ghost predicate Complete(table: map<nat, Row>, s: Stream, lo: nat, rows: seq<Row>) {
    forall k :: k in table && Selected(s, table[k]) && lo < k <= LastOr(rows, lo) ==> Has(rows, k)
  }

  ghost predicate WellKeyed(table: map<nat, Row>) {
    forall k :: k in table ==> table[k].seqNo == k
  }

  ghost predicate Inv(st: State, s: Stream) {
    && WellKeyed(st.table)
    && Genuine(st.table, s, Start(s), Flow(st))
    && (st.open ==> st.cursor == Reach(st, s))
    && (!st.open ==> st.wire == [])
  }

  lemma PrefixIsGenuine(table: map<nat, Row>, s: Stream, lo: nat, a: seq<Row>, b: seq<Row>)
    requires Genuine(table, s, lo, a + b)
    ensures Genuine(table, s, lo, a) && LastOr(a, lo) <= LastOr(a + b, lo)
  {
    forall i | 0 <= i < |a| ensures a[i] == (a + b)[i] {}
  }

  lemma PrefixIsComplete(table: map<nat, Row>, s: Stream, lo: nat, a: seq<Row>, b: seq<Row>)
    requires Genuine(table, s, lo, a + b) && Complete(table, s, lo, a + b)
    ensures Complete(table, s, lo, a)
  {
    PrefixIsGenuine(table, s, lo, a, b);
    forall k | k in table && Selected(s, table[k]) && lo < k <= LastOr(a, lo) ensures Has(a, k) {
      var i :| 0 <= i < |a + b| && (a + b)[i].seqNo == k;
      assert i < |a| by {
        if a != [] { assert (a + b)[|a| - 1] == a[|a| - 1]; }
      }
      assert a[i].seqNo == k;
    }
  }

  lemma LaterRowsAreGenuine(table: map<nat, Row>, s: Stream, lo: nat, rows: seq<Row>, more: seq<Row>)
    requires WellKeyed(table) && Genuine(table, s, lo, rows) && IsAnswer(table, s, LastOr(rows, lo), more)
    ensures Genuine(table, s, lo, rows + more)
    ensures LastOr(rows + more, lo) == LastOr(more, LastOr(rows, lo))
  {
  }

  lemma AnswerSkipsNothing(table: map<nat, Row>, s: Stream, lo: nat, rows: seq<Row>, more: seq<Row>)
    requires WellKeyed(table) && Complete(table, s, lo, rows) && IsAnswer(table, s, LastOr(rows, lo), more)
    ensures Complete(table, s, lo, rows + more)
  {
    forall k | k in table && Selected(s, table[k]) && lo < k <= LastOr(rows + more, lo) ensures Has(rows + more, k) {
      if k <= LastOr(rows, lo) {
        var i :| 0 <= i < |rows| && rows[i].seqNo == k;
        assert (rows + more)[i].seqNo == k;
      } else {
        assert LastOr(rows + more, lo) == LastOr(more, LastOr(rows, lo));
        assert table[k] in more;
        var i :| 0 <= i < |more| && more[i] == table[k];
        assert (rows + more)[|rows| + i].seqNo == k;
      }
    }
  }

  /** A reconnect resumes exactly where the client stopped, however stale `?after` is. */
  lemma ResumesAtLastSeen(table: map<nat, Row>, s: Stream, received: seq<Row>)
    requires Genuine(table, s, Start(s), received)
    ensures ChooseCursor(LastEventId(received), s.after) == LastOr(received, Start(s))
  {
    if received != [] {
      ParseShow(received[|received| - 1].seqNo);
    }
  }

  lemma DeliveryKeepsFlow(st: State, s: Stream)
    requires st.wire != []
    ensures Flow(Step(st, s, Deliver)) == Flow(st)
  {
    assert st.wire == [st.wire[0]] + st.wire[1..];
    assert st.received + ([st.wire[0]] + st.wire[1..]) == (st.received + [st.wire[0]]) + st.wire[1..];
  }

  lemma PollExtendsFlow(st: State, s: Stream, rows: seq<Row>)
    ensures Flow(Step(st, s, Poll(rows))) == Flow(st) + rows
  {
    assert st.received + (st.wire + rows) == (st.received + st.wire) + rows;
  }

  /** What a step does to the rows received or under way. */
  lemma FlowAfter(st: State, s: Stream, l: Label)
    requires Inv(st, s) && Enabled(st, s, l)
    ensures Flow(Step(st, s, l)) ==
              match l {
                case Poll(rows) => Flow(st) + rows
                case Disconnect => st.received
                case _ => Flow(st)
              }
  {
    match l
    case Poll(rows) => PollExtendsFlow(st, s, rows);
    case Deliver => DeliveryKeepsFlow(st, s);
    case _ => assert st.received + [] == st.received;
  }

  lemma GrownLedger(table: map<nat, Row>, s: Stream, lo: nat, rows: seq<Row>, row: Row)
    requires Genuine(table, s, lo, rows) && row.seqNo !in table
    ensures Genuine(table[row.seqNo := row], s, lo, rows)
  {
    forall i | 0 <= i < |rows| ensures InLedger(table[row.seqNo := row], s, rows[i]) {
      assert InLedger(table, s, rows[i]);
    }
  }

  lemma AppendKeepsInv(st: State, s: Stream, row: Row)
    requires Inv(st, s) && Enabled(st, s, Append(row))
    ensures Inv(Step(st, s, Append(row)), s)
  {
    FlowAfter(st, s, Append(row));
    GrownLedger(st.table, s, Start(s), Flow(st), row);
  }

  lemma ConnectKeepsInv(st: State, s: Stream)
    requires Inv(st, s) && !st.open
    ensures Inv(Step(st, s, Connect), s)
  {
    assert Flow(st) == st.received;
    ResumesAtLastSeen(st.table, s, st.received);
    FlowAfter(st, s, Connect);
  }

  lemma PollKeepsInv(st: State, s: Stream, rows: seq<Row>)
    requires Inv(st, s) && Enabled(st, s, Poll(rows))
    ensures Inv(Step(st, s, Poll(rows)), s)
  {
    LaterRowsAreGenuine(st.table, s, Start(s), Flow(st), rows);
    FlowAfter(st, s, Poll(rows));
  }

  lemma StepKeepsInv(st: State, s: Stream, l: Label)
    requires Inv(st, s) && Enabled(st, s, l)
    ensures Inv(Step(st, s, l), s)
  {
    match l
    case Append(row) => AppendKeepsInv(st, s, row);
    case Connect => ConnectKeepsInv(st, s);
    case Poll(rows) => PollKeepsInv(st, s, rows);
    case Deliver => FlowAfter(st, s, l);
    case Disconnect => FlowAfter(st, s, l); PrefixIsGenuine(st.table, s, Start(s), st.received, st.wire);
  }

  // ----- When nothing is skipped -----

  ghost predicate NothingSkipped(st: State, s: Stream) { Complete(st.table, s, Start(s), Flow(st)) }

  /** A row of the session becomes visible ahead of everything already sent on. */
  ghost predicate Ahead(st: State, s: Stream, l: Label) {
    l.Append? && Selected(s, l.row) && l.row.seqNo > Start(s) ==> l.row.seqNo > Reach(st, s)
  }

  lemma InOrderIsAhead(st: State, s: Stream, l: Label)
    requires Inv(st, s) && InOrder(st, s, l)
    ensures Ahead(st, s, l)
  {
    if Flow(st) != [] {
      assert InLedger(st.table, s, Flow(st)[|Flow(st)| - 1]);
    }
  }

  lemma AppendSkipsIffBehind(st: State, s: Stream, row: Row)
    requires Inv(st, s) && NothingSkipped(st, s) && Enabled(st, s, Append(row))
    ensures NothingSkipped(Step(st, s, Append(row)), s) <==> Ahead(st, s, Append(row))
  {
    var after := Step(st, s, Append(row));
    FlowAfter(st, s, Append(row));
    if !Ahead(st, s, Append(row)) {
      forall i | 0 <= i < |Flow(st)| ensures Flow(st)[i].seqNo != row.seqNo {
        assert InLedger(st.table, s, Flow(st)[i]);
      }
      assert !Has(Flow(after), row.seqNo);
    } else {
      forall k | k in after.table && Selected(s, after.table[k]) && Start(s) < k <= Reach(st, s)
        ensures Has(Flow(after), k)
      {
        assert k != row.seqNo && k in st.table && st.table[k] == after.table[k];
      }
    }
  }

  /** A step lets a row be skipped exactly when it makes one visible behind what was sent. */
  lemma SkipsIffBehind(st: State, s: Stream, l: Label)
    requires Inv(st, s) && NothingSkipped(st, s) && Enabled(st, s, l)
    ensures NothingSkipped(Step(st, s, l), s) <==> Ahead(st, s, l)
  {
    FlowAfter(st, s, l);
    match l
    case Append(row) => AppendSkipsIffBehind(st, s, row);
    case Poll(rows) => AnswerSkipsNothing(st.table, s, Start(s), Flow(st), rows);
    case Disconnect => PrefixIsComplete(st.table, s, Start(s), st.received, st.wire);
    case _ =>
  }

  /** The client has gone past `k` without receiving it. */
  ghost predicate Passed(st: State, s: Stream, k: nat) {
    k <= LastOr(st.received, Start(s)) && !Has(st.received, k)
  }

  lemma DeliveryIsBehind(st: State, s: Stream)
    requires Inv(st, s) && st.wire != []
    ensures st.wire[0].seqNo > LastOr(st.received, Start(s))
  {
    assert Flow(st)[|st.received|] == st.wire[0];
    assert InLedger(st.table, s, Flow(st)[|st.received|]);
    if st.received != [] {
      assert Flow(st)[|st.received| - 1] == st.received[|st.received| - 1];
    }
  }

  lemma StillPassed(st: State, s: Stream, l: Label, k: nat)
    requires Inv(st, s) && Enabled(st, s, l) && Passed(st, s, k)
    ensures Passed(Step(st, s, l), s, k)
  {
    if l.Deliver? {
      DeliveryIsBehind(st, s);
      var got := st.received + [st.wire[0]];
      forall n | 0 <= n < |got| ensures got[n].seqNo != k {
        if n < |st.received| { assert st.received[n].seqNo != k; }
      }
    }
  }

  /** A row that the client has passed without receiving is never received. */
  lemma {:induction false} PassedIsLost(states: seq<State>, s: Stream, labels: seq<Label>, i: nat, j: nat, k: nat)
    requires IsTrace(states, s, labels) && i <= j <= |labels|
    requires Passed(states[i], s, k)
    ensures Passed(states[j], s, k)
  {
    if i < j {
      PassedIsLost(states, s, labels, i, j - 1, k);
      InvHolds(states, s, labels, j - 1);
      StepAt(states, s, labels, j - 1);
      StillPassed(states[j - 1], s, labels[j - 1], k);
    }
  }

  // ----- Whole runs -----

  lemma InvHolds(states: seq<State>, s: Stream, labels: seq<Label>, i: nat)
    requires IsTrace(states, s, labels) && i <= |labels|
    ensures Inv(states[i], s)
  {
    forall st, l, next | Inv(st, s) && IsStep(st, s, l, next) ensures Inv(next, s) { StepKeepsInv(st, s, l); }
    InvariantOfRun((st, l, next) => IsStep(st, s, l, next), st => Inv(st, s), INITIAL, states, labels, i);
  }

  lemma {:induction false} NothingSkippedHolds(states: seq<State>, s: Stream, labels: seq<Label>, i: nat)
    requires IsTrace(states, s, labels) && i <= |labels|
    requires forall m :: 0 <= m < i ==> Ahead(states[m], s, labels[m])
    ensures NothingSkipped(states[i], s)
  {
    if i > 0 {
      NothingSkippedHolds(states, s, labels, i - 1);
      InvHolds(states, s, labels, i - 1);
      StepAt(states, s, labels, i - 1);
      SkipsIffBehind(states[i - 1], s, labels[i - 1]);
    }
  }

  /** On every run: only rows of the session, never twice, in the order of their ids. */
  lemma ReceivedInOrder(states: seq<State>, s: Stream, labels: seq<Label>, i: nat)
    requires IsTrace(states, s, labels) && i <= |labels|
    ensures Genuine(states[i].table, s, Start(s), states[i].received)
  {
    InvHolds(states, s, labels, i);
    PrefixIsGenuine(states[i].table, s, Start(s), states[i].received, states[i].wire);
  }

  lemma ReceivedIsComplete(st: State, s: Stream, k: nat)
    requires Inv(st, s) && NothingSkipped(st, s)
    ensures Has(st.received, k) <==>
              && k in st.table && Selected(s, st.table[k]) && Start(s) < k <= LastOr(st.received, Start(s))
  {
    PrefixIsGenuine(st.table, s, Start(s), st.received, st.wire);
    PrefixIsComplete(st.table, s, Start(s), st.received, st.wire);
    if Has(st.received, k) {
      var n :| 0 <= n < |st.received| && st.received[n].seqNo == k;
      assert InLedger(st.table, s, st.received[n]);
    }
  }

  /**
   * When rows become visible in the order of their ids, what the client has received is
   * the session's ledger from the start up to the last id seen, through every disconnect.
   */
  lemma ReceivedIsLedgerPrefix(states: seq<State>, s: Stream, labels: seq<Label>, i: nat, k: nat)
    requires IsTrace(states, s, labels) && VisibleInOrder(states, s, labels) && i <= |labels|
    ensures Has(states[i].received, k) <==>
              && k in states[i].table
              && states[i].table[k].session == s.session && states[i].table[k].tenant == s.tenant
              && Start(s) < k <= LastOr(states[i].received, Start(s))
  {
    forall m | 0 <= m < i ensures Ahead(states[m], s, labels[m]) {
      InvHolds(states, s, labels, m);
      InOrderIsAhead(states[m], s, labels[m]);
    }
    NothingSkippedHolds(states, s, labels, i);
    InvHolds(states, s, labels, i);
    ReceivedIsComplete(states[i], s, k);
  }

  /** A poll that comes back short has sent on everything that was visible. */
  lemma ShortPollCatchesUp(st: State, s: Stream, rows: seq<Row>, k: nat)
    requires Inv(st, s) && NothingSkipped(st, s) && Enabled(st, s, Poll(rows)) && |rows| < TAKE
    requires k in st.table && Selected(s, st.table[k]) && k > Start(s)
    ensures Has(Flow(Step(st, s, Poll(rows))), k)
  {
    FlowAfter(st, s, Poll(rows));
    ShortAnswerHasAll(st.table, s, Start(s), Flow(st), rows, k);
  }

  lemma ShortAnswerHasAll(table: map<nat, Row>, s: Stream, lo: nat, rows: seq<Row>, more: seq<Row>, k: nat)
    requires WellKeyed(table) && Complete(table, s, lo, rows) && IsAnswer(table, s, LastOr(rows, lo), more)
    requires |more| < TAKE && k in table && Selected(s, table[k]) && k > lo
    ensures Has(rows + more, k)
  {
    if k <= LastOr(rows, lo) {
      var n :| 0 <= n < |rows| && rows[n].seqNo == k;
      assert (rows + more)[n].seqNo == k;
    } else {
      var n :| 0 <= n < |more| && more[n] == table[k];
      assert (rows + more)[|rows| + n].seqNo == k;
    }
  }

  /** Rows 2 and then 1 become visible around a poll: row 1 is never received. */
  lemma LateRowIsSkipped(s: Stream, name: string) returns (states: seq<State>, labels: seq<Label>)
    requires Start(s) == 0
    ensures IsTrace(states, s, labels) && !VisibleInOrder(states, s, labels)
    ensures forall more: seq<State>, next: seq<Label>, j: nat ::
              IsTrace(states + more, s, labels + next) && |labels| <= j <= |labels + next| ==>
                1 in (states + more)[j].table ==> !Has((states + more)[j].received, 1)
  {
    var one, two := Row(s.session, s.tenant, 1, name, ""), Row(s.session, s.tenant, 2, name, "");
    labels := [Append(two), Connect, Poll([two]), Deliver, Append(one)];
    var s1 := Step(INITIAL, s, labels[0]);
    var s2 := Step(s1, s, labels[1]);
    var s3 := Step(s2, s, labels[2]);
    var s4 := Step(s3, s, labels[3]);
    var s5 := Step(s4, s, labels[4]);
    states := [INITIAL, s1, s2, s3, s4, s5];
    assert IsAnswer(s2.table, s, s2.cursor, [two]);
    assert !InOrder(states[4], s, labels[4]) by { assert 2 in s4.table; }
    forall more: seq<State>, next: seq<Label>, j: nat |
      IsTrace(states + more, s, labels + next) && |labels| <= j <= |labels + next|
      ensures !Has((states + more)[j].received, 1)
    {
      assert (states + more)[5] == s5 && Passed(s5, s, 1);
      PassedIsLost(states + more, s, labels + next, 5, j, 1);
    }
  }
}

/** One open connection: the cursor it starts at, and its answers to the polls. */
module SseConnection {
  import opened Wrappers
  import opened Decimal
  import opened SseResume

  datatype Frame = Comment(text: string) | Event(row: Row)

  /** The rows in what was written; a comment carries none. */
  function RowsIn(written: seq<Frame>): seq<Row> {
    if written == [] then []
    else
      var last := written[|written| - 1];
      RowsIn(written[..|written| - 1]) + (if last.Event? then [last.row] else [])
  }

  lemma OneMoreFrame(written: seq<Frame>, f: Frame)
    ensures RowsIn(written + [f]) == RowsIn(written) + (if f.Event? then [f.row] else [])
  {
    assert (written + [f])[..|written|] == written;
  }

  function EventsOf(rows: seq<Row>): (r: seq<Frame>)
    ensures |r| == |rows| && forall i :: 0 <= i < |r| ==> r[i] == Event(rows[i])
  {
    seq(|rows|, i requires 0 <= i < |rows| => Event(rows[i]))
  }

  lemma NextEvent(rows: seq<Row>, i: nat)
    requires i < |rows|
    ensures EventsOf(rows[..i + 1]) == EventsOf(rows[..i]) + [Event(rows[i])]
    ensures rows[..i + 1] == rows[..i] + [rows[i]] && rows[..i + 1][..i] == rows[..i]
  {
  }

  /** A turn of the loop carries the rows of the answer, behind those already written, and no others. */
  lemma {:induction false} FramesCarryRows(written: seq<Frame>, rows: seq<Row>)
    ensures RowsIn(written + EventsOf(rows)) == RowsIn(written) + rows
    ensures RowsIn(written + [Comment("heartbeat")]) == RowsIn(written)
  {
    OneMoreFrame(written, Comment("heartbeat"));
    if rows == [] {
      assert written + EventsOf(rows) == written;
    } else {
      var front, last := rows[..|rows| - 1], rows[|rows| - 1];
      FramesCarryRows(written, front);
      assert EventsOf(rows) == EventsOf(front) + [Event(last)];
      assert written + EventsOf(rows) == (written + EventsOf(front)) + [Event(last)];
      OneMoreFrame(written + EventsOf(front), Event(last));
    }
  }

  function Furthest(rows: seq<Row>, cursor: nat): nat {
    if rows == [] then cursor else Max(Furthest(rows[..|rows| - 1], cursor), rows[|rows| - 1].seqNo)
  }

  /** On an answer of the query the cursor ends at the last row, as in the step system. */
  lemma {:induction false} AnswerMovesToLast(table: map<nat, Row>, s: Stream, cursor: nat, rows: seq<Row>, n: nat)
    requires IsAnswer(table, s, cursor, rows) && n <= |rows|
    ensures Furthest(rows[..n], cursor) == LastOr(rows[..n], cursor)
  {
    if n > 0 {
      AnswerMovesToLast(table, s, cursor, rows, n - 1);
      assert rows[..n][..n - 1] == rows[..n - 1];
    }
  }

  method LargestCursor(raws: seq<Option<string>>) returns (cursor: nat)
    ensures forall i :: 0 <= i < |raws| ==> CursorOf(raws[i]) <= cursor
    ensures cursor == 0 || exists i :: 0 <= i < |raws| && CursorOf(raws[i]) == cursor
  {
    cursor := 0;
    for i := 0 to |raws|
      invariant forall j :: 0 <= j < i ==> CursorOf(raws[j]) <= cursor
      invariant cursor == 0 || exists j :: 0 <= j < i && CursorOf(raws[j]) == cursor
    {
      if raws[i].Some? && Parse(raws[i].value).Some? {
        var n := Parse(raws[i].value).value;
        if n > cursor { cursor := n; }
      }
    }
  }

  class Connection {
    var cursor: nat
    var written: seq<Frame>

    constructor (header: Option<string>, after: Option<string>)
      ensures cursor == ChooseCursor(header, after) && written == [Comment("connected")]
    {
      var largest := LargestCursor([header, after]);
      assert [header, after][0] == header && [header, after][1] == after;
      cursor := largest;
      written := [Comment("connected")];
    }

    /** The rest of one turn of the loop, once the query has answered. */
    method Poll(rows: seq<Row>)
      modifies this
      ensures cursor == Furthest(rows, old(cursor))
      ensures written == old(written) + if rows == [] then [Comment("heartbeat")] else EventsOf(rows)
    {
      for i := 0 to |rows|
        invariant cursor == Furthest(rows[..i], old(cursor))
        invariant written == old(written) + EventsOf(rows[..i])
      {
        var row := rows[i];
        cursor := if row.seqNo > cursor then row.seqNo else cursor;
        NextEvent(rows, i);
        written := written + [Event(row)];
      }
      assert rows[..|rows|] == rows;
      if rows == [] {
        written := written + [Comment("heartbeat")];
      }
    }
  }
}
