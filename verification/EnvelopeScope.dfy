/** What the envelope promises beside the columns: one tenant's rows, and no more than its limit. */
module EnvelopeScope {
  import opened Wrappers
  import opened Predicates
  import opened QueryAnswers
  import opened QueryProbes

  // ----- The rows that a condition keeps -----

  const TENANT := Ref("tenant_id")
  const BOUND := Param("$1")

  /** `tenant_id = $1`, as the envelope writes it. */
  const TENANT_EQUALITY := Binary("=", TENANT, BOUND)

  predicate IsTenantEquality(e: Expr) { e == TENANT_EQUALITY || e == Binary("=", BOUND, TENANT) }

  predicate IsNo(e: Expr) { e == Literal(Bool(false)) || e == Literal(Null) }

  /** The tenant equality, or what holds nowhere, as a conjunct at the root or on both sides of an OR there. */
  predicate IsScoped(e: Expr) {
    || IsTenantEquality(e)
    || IsNo(e)
    || (e.Binary? && e.op == "AND" && (IsScoped(e.left) || IsScoped(e.right)))
    || (e.Binary? && e.op == "OR" && IsScoped(e.left) && IsScoped(e.right))
  }

  /** No false or null as a conjunct at the root, nor on both sides of an OR there. */
  predicate CanHold(e: Expr) {
    if e.Binary? && e.op == "AND" then CanHold(e.left) && CanHold(e.right)
    else if e.Binary? && e.op == "OR" then CanHold(e.left) || CanHold(e.right)
    else !IsNo(e)
  }

  /** AND, OR, true, false and null as SQL conditions read them; other operators are open. */
  ghost predicate ReadsLogic(m: Meaning) {
    && (forall x, y :: m.holds(m.sem.apply("binary", "AND", [x, y])) <==> m.holds(x) && m.holds(y))
    && (forall x, y :: m.holds(m.sem.apply("binary", "OR", [x, y])) <==> m.holds(x) || m.holds(y))
    && m.holds(Bool(true)) && !m.holds(Bool(false)) && !m.holds(Null)
  }

  function BoundTenant(m: Meaning): Value { m.sem.param("$1") }

  predicate IsOwn(m: Meaning, row: Row) { row("tenant_id") == BoundTenant(m) }

  /** The tenant equality, either way round, compares this row's tenant with the bound one. */
  ghost predicate ReadsTenant(m: Meaning, row: Row) {
    && BoundTenant(m) != Null
    && (m.holds(m.sem.apply("binary", "=", [row("tenant_id"), BoundTenant(m)])) <==> IsOwn(m, row))
    && (m.holds(m.sem.apply("binary", "=", [BoundTenant(m), row("tenant_id")])) <==> IsOwn(m, row))
  }

  lemma BinaryIs(sem: Sem, e: Expr, row: Row)
    requires e.Binary?
    ensures Eval(sem, e, row) == sem.apply("binary", e.op, [Eval(sem, e.left, row), Eval(sem, e.right, row)])
  {
    EvalNode(sem, e, row);
    assert EvalChildren(sem, e, row) == [Eval(sem, e.left, row), Eval(sem, e.right, row)];
  }

  /** A scoped condition holds on own rows only. */
  lemma {:induction false} ScopedHoldsOnOwn(m: Meaning, e: Expr, row: Row)
    requires IsScoped(e) && ReadsLogic(m) && ReadsTenant(m, row) && m.holds(Eval(m.sem, e, row))
    ensures IsOwn(m, row)
  {
    if e.Binary? {
      BinaryIs(m.sem, e, row);
      if IsTenantEquality(e) {
      } else if m.holds(Eval(m.sem, e.left, row)) && IsScoped(e.left) {
        ScopedHoldsOnOwn(m, e.left, row);
      } else {
        ScopedHoldsOnOwn(m, e.right, row);
      }
    }
  }

  lemma {:induction false} HoldsOnlyIfItCan(m: Meaning, e: Expr, row: Row)
    requires ReadsLogic(m) && m.holds(Eval(m.sem, e, row))
    ensures CanHold(e)
  {
    if e.Binary? && (e.op == "AND" || e.op == "OR") {
      BinaryIs(m.sem, e, row);
      if m.holds(Eval(m.sem, e.left, row)) { HoldsOnlyIfItCan(m, e.left, row); }
      if m.holds(Eval(m.sem, e.right, row)) { HoldsOnlyIfItCan(m, e.right, row); }
    }
  }

  // ----- The meaning in which conditions hold as often as they can -----

  lemma ProbingReadsLogic(w: World)
    ensures ReadsLogic(Probing(Holds).In(w))
  {
    var m := Probing(Holds).In(w);
    forall x, y
      ensures m.holds(m.sem.apply("binary", "AND", [x, y])) <==> m.holds(x) && m.holds(y)
      ensures m.holds(m.sem.apply("binary", "OR", [x, y])) <==> m.holds(x) || m.holds(y)
    {
      assert m.sem.apply("binary", "AND", [x, y]) == Tag(Holds(x) && Holds(y), MaxMark([x, y]));
      assert m.sem.apply("binary", "OR", [x, y]) == Tag(Holds(x) || Holds(y), MaxMark([x, y]));
    }
  }

  lemma ProbingReadsTenant(w: World, id: nat, tenant: Value)
    requires tenant == OURS || tenant == THEIRS
    ensures ReadsTenant(Probing(Holds).In(w), Contact(id, tenant))
  {
  }

  lemma TagHolds(b: bool, mark: nat)
    ensures Holds(Tag(b, mark)) == b && Tag(b, mark) != OURS && Tag(b, mark) != THEIRS
  {
    var t := Tag(b, mark);
    assert t.parts[0] == Bool(b);
  }

  /** What an operator or the world gives is a truth value; only a connective or an equality may fail. */
  lemma NodeGivesTag(first: nat, others: nat, e: Expr, row: Row) returns (b: bool, mark: nat)
    requires !IsLeaf(e)
    ensures Eval(In(Holds, first, others).sem, e, row) == Tag(b, mark)
    ensures !e.Binary? ==> b
  {
    var sem := In(Holds, first, others).sem;
    EvalNode(sem, e, row);
    var vs := EvalChildren(sem, e, row);
    if ReadsBeyond(e) {
      b, mark := true, MarkAt(row, first, others);
    } else {
      b, mark := Truth(Head(e).0, Head(e).1, vs), MaxMark(vs);
    }
  }

  lemma PlainHolds(first: nat, others: nat, e: Expr, id: nat, tenant: Value)
    requires tenant == OURS || tenant == THEIRS
    requires !e.Binary? && !IsNo(e)
    ensures Holds(Eval(In(Holds, first, others).sem, e, Contact(id, tenant)))
  {
    if e.Select? {
      TagHolds(true, MarkAt(Contact(id, tenant), first, others));
    } else if !IsLeaf(e) {
      var b, mark := NodeGivesTag(first, others, e, Contact(id, tenant));
      TagHolds(b, mark);
    }
  }

  lemma BinaryHolds(first: nat, others: nat, e: Expr, row: Row)
    requires e.Binary?
    ensures var sem := In(Holds, first, others).sem;
            Holds(Eval(sem, e, row)) == Truth("binary", e.op, [Eval(sem, e.left, row), Eval(sem, e.right, row)])
  {
    var sem := In(Holds, first, others).sem;
    BinaryIs(sem, e, row);
    var vs := [Eval(sem, e.left, row), Eval(sem, e.right, row)];
    TagHolds(Truth("binary", e.op, vs), MaxMark(vs));
  }

  /** Only the parameter and the tenant column have the values of tenants. */
  predicate NamesTenant(e: Expr, v: Value, tenant: Value) {
    (v == OURS ==> e == BOUND || (e == TENANT && tenant == OURS)) && (v == THEIRS ==> e == TENANT && tenant == THEIRS)
  }

  lemma LeafRecognised(first: nat, others: nat, e: Expr, id: nat, tenant: Value)
    requires (tenant == OURS || tenant == THEIRS) && IsLeaf(e) && !e.Select?
    ensures NamesTenant(e, Eval(In(Holds, first, others).sem, e, Contact(id, tenant)), tenant)
  {
  }

  lemma Recognised(first: nat, others: nat, e: Expr, id: nat, tenant: Value)
    requires tenant == OURS || tenant == THEIRS
    ensures NamesTenant(e, Eval(In(Holds, first, others).sem, e, Contact(id, tenant)), tenant)
  {
    if e.Select? {
      TagHolds(true, MarkAt(Contact(id, tenant), first, others));
    } else if IsLeaf(e) {
      LeafRecognised(first, others, e, id, tenant);
    } else {
      var b, mark := NodeGivesTag(first, others, e, Contact(id, tenant));
      TagHolds(b, mark);
    }
  }

  /** An equality fails on no own row, and on other tenants' rows only if it is the tenant equality. */
  lemma EqualityHolds(first: nat, others: nat, e: Expr, id: nat, tenant: Value)
    requires e.Binary? && e.op == "=" && (tenant == OURS || (tenant == THEIRS && !IsTenantEquality(e)))
    ensures Holds(Eval(In(Holds, first, others).sem, e, Contact(id, tenant)))
  {
    BinaryHolds(first, others, e, Contact(id, tenant));
    Recognised(first, others, e.left, id, tenant);
    Recognised(first, others, e.right, id, tenant);
  }

  /** Every condition that can hold does on own rows. */
  lemma {:induction false} CanHoldHolds(first: nat, others: nat, e: Expr, id: nat)
    requires CanHold(e)
    ensures Holds(Eval(In(Holds, first, others).sem, e, Contact(id, OURS)))
  {
    if !e.Binary? {
      PlainHolds(first, others, e, id, OURS);
    } else if e.op == "=" {
      EqualityHolds(first, others, e, id, OURS);
    } else {
      BinaryHolds(first, others, e, Contact(id, OURS));
      if e.op == "AND" || e.op == "OR" {
        if CanHold(e.left) { CanHoldHolds(first, others, e.left, id); }
        if CanHold(e.right) { CanHoldHolds(first, others, e.right, id); }
      }
    }
  }

  /** Every condition that is not scoped holds on other tenants' rows. */
  lemma {:induction false} UnscopedHolds(first: nat, others: nat, e: Expr, id: nat)
    requires !IsScoped(e)
    ensures Holds(Eval(In(Holds, first, others).sem, e, Contact(id, THEIRS)))
  {
    if !e.Binary? {
      PlainHolds(first, others, e, id, THEIRS);
    } else if e.op == "=" {
      EqualityHolds(first, others, e, id, THEIRS);
    } else {
      BinaryHolds(first, others, e, Contact(id, THEIRS));
      if e.op == "AND" || e.op == "OR" {
        if !IsScoped(e.left) { UnscopedHolds(first, others, e.left, id); }
        if !IsScoped(e.right) { UnscopedHolds(first, others, e.right, id); }
      }
    }
  }

  // ----- One tenant's rows -----

  /** Every row that the condition keeps has the bound tenant. */
  ghost predicate KeepsTenant(e: Expr) {
    forall m, row :: ReadsLogic(m) && ReadsTenant(m, row) && m.holds(Eval(m.sem, e, row)) ==> IsOwn(m, row)
  }

  /**
   * Whatever the other operators mean, a condition keeps rows of the bound tenant only, if and only if
   * it is scoped.
   */
  lemma KeepsTenantIffScoped(e: Expr)
    ensures KeepsTenant(e) <==> IsScoped(e)
  {
    if IsScoped(e) {
      forall m, row | ReadsLogic(m) && ReadsTenant(m, row) && m.holds(Eval(m.sem, e, row)) ensures IsOwn(m, row) {
        ScopedHoldsOnOwn(m, e, row);
      }
    } else {
      ProbingReadsLogic(Marking(0, 0));
      ProbingReadsTenant(Marking(0, 0), 0, THEIRS);
      UnscopedHolds(0, 0, e, 0);
    }
  }

  function OwnRows(m: Meaning, rows: seq<Row>): seq<Row> {
    if rows == [] then [] else (if IsOwn(m, rows[0]) then [rows[0]] else []) + OwnRows(m, rows[1..])
  }

  ghost predicate ReadsTenants(m: Meaning, rows: seq<Row>) {
    UniqueIds(rows) && forall i :: 0 <= i < |rows| ==> ReadsTenant(m, rows[i])
  }

  ghost predicate OwnAgree(m: Meaning, xs: seq<Row>, ys: seq<Row>) {
    && ReadsLogic(m) && ReadsTenants(m, xs) && ReadsTenants(m, ys)
    && TablesAgree(OwnRows(m, xs), OwnRows(m, ys))
  }

  /** The bound tenant's rows of the view fix the answer: other tenants' rows and the rest make no difference. */
  ghost predicate TenantIsolated(q: Query) {
    forall m: Meaning, v: World, w: World, xs, ys ::
      OwnAgree(m, xs, ys) ==> Answer(m.In(v), q, xs) == Answer(m.In(w), q, ys)
  }

  /** The condition drops all rows but own ones. */
  ghost predicate KeepsOwnOnly(m: Meaning, q: Query, rows: seq<Row>) {
    forall i :: 0 <= i < |rows| && Condition(m, q, rows[i]) ==> IsOwn(m, rows[i])
  }

  function KeptOf(m: Meaning, q: Query, rows: seq<Row>): seq<Reading> { Kept(m, q, ReadAll(m.sem, q, rows)) }

  lemma KeptStep(m: Meaning, q: Query, row: Row, rows: seq<Row>)
    ensures var r := Read(m.sem, q, row);
            KeptOf(m, q, [row] + rows) == (if Passes(m, q, r) then [r] else []) + KeptOf(m, q, rows)
  {
    var r, rs := Read(m.sem, q, row), ReadAll(m.sem, q, rows);
    assert ReadAll(m.sem, q, [row] + rows) == [r] + rs;
    assert ([r] + rs)[1..] == rs;
  }

  lemma OwnRowsStep(m: Meaning, row: Row, rows: seq<Row>)
    ensures OwnRows(m, [row] + rows) == (if IsOwn(m, row) then [row] else []) + OwnRows(m, rows)
  {
    assert ([row] + rows)[1..] == rows;
  }

  lemma KeptAreOwnStep(m: Meaning, q: Query, row: Row, rows: seq<Row>)
    requires KeptOf(m, q, rows) == KeptOf(m, q, OwnRows(m, rows)) && (Condition(m, q, row) ==> IsOwn(m, row))
    ensures KeptOf(m, q, [row] + rows) == KeptOf(m, q, OwnRows(m, [row] + rows))
  {
    OwnRowsStep(m, row, rows);
    KeptStep(m, q, row, rows);
    if IsOwn(m, row) {
      KeptStep(m, q, row, OwnRows(m, rows));
    } else {
      assert !Passes(m, q, Read(m.sem, q, row));
      assert OwnRows(m, [row] + rows) == OwnRows(m, rows);
    }
  }

  lemma {:induction false} KeptAreOwn(m: Meaning, q: Query, rows: seq<Row>)
    requires KeepsOwnOnly(m, q, rows)
    ensures KeptOf(m, q, rows) == KeptOf(m, q, OwnRows(m, rows))
  {
    if rows != [] {
      KeptAreOwn(m, q, rows[1..]);
      KeptAreOwnStep(m, q, rows[0], rows[1..]);
      assert [rows[0]] + rows[1..] == rows;
    }
  }

  lemma {:induction false} NoneKept(m: Meaning, q: Query, rows: seq<Row>)
    requires ReadsLogic(m) && !CanHold(q.where_)
    ensures KeptOf(m, q, rows) == []
  {
    if rows != [] {
      NoneKept(m, q, rows[1..]);
      assert rows == [rows[0]] + rows[1..];
      KeptStep(m, q, rows[0], rows[1..]);
      if m.holds(Eval(m.sem, q.where_, rows[0])) { HoldsOnlyIfItCan(m, q.where_, rows[0]); }
    }
  }

  /** The answer hangs on the rows that are kept, and on LIMIT and OFFSET. */
  lemma AnswerFromKept(m: Meaning, q: Query, xs: seq<Row>, ys: seq<Row>)
    requires KeptOf(m, q, xs) == KeptOf(m, q, ys)
    ensures Answer(m, q, xs) == Answer(m, q, ys)
  {
  }

  lemma NoneKeptNoneAnswered(m: Meaning, q: Query, rows: seq<Row>)
    requires ReadsLogic(m) && !CanHold(q.where_) && !Refused(q)
    ensures Answer(m, q, rows) == Some([])
  {
    NoneKept(m, q, rows);
  }

  lemma ScopedIgnoresOthers(m: Meaning, q: Query, rows: seq<Row>)
    requires ReadsLogic(m) && ReadsTenants(m, rows) && IsScoped(q.where_)
    ensures Answer(m, q, rows) == Answer(m, q, OwnRows(m, rows))
  {
    forall i | 0 <= i < |rows| && Condition(m, q, rows[i]) ensures IsOwn(m, rows[i]) {
      ScopedHoldsOnOwn(m, q.where_, rows[i]);
    }
    KeptAreOwn(m, q, rows);
    AnswerFromKept(m, q, rows, OwnRows(m, rows));
  }

  lemma {:induction false} OwnRowsAmong(m: Meaning, rows: seq<Row>, r: Row)
    requires r in OwnRows(m, rows)
    ensures r in rows
  {
    if rows != [] && (IsOwn(m, rows[0]) ==> r != rows[0]) { OwnRowsAmong(m, rows[1..], r); }
  }

  lemma {:induction false} OwnRowsUnique(m: Meaning, rows: seq<Row>)
    requires UniqueIds(rows)
    ensures UniqueIds(OwnRows(m, rows))
  {
    if rows != [] {
      OwnRowsUnique(m, rows[1..]);
      forall i | 0 <= i < |OwnRows(m, rows[1..])|
        ensures OwnRows(m, rows[1..])[i]("contact_id") != rows[0]("contact_id")
      {
        OwnRowsAmong(m, rows[1..], OwnRows(m, rows[1..])[i]);
      }
    }
  }

  /** Reading the logic and the tenant does not ask the world. */
  lemma ReadingsIgnoreWorld(m: Meaning, w: World, rows: seq<Row>)
    requires ReadsLogic(m) && ReadsTenants(m, rows)
    ensures ReadsLogic(m.In(w)) && ReadsTenants(m.In(w), rows)
  {
    forall i | 0 <= i < |rows| ensures ReadsTenant(m.In(w), rows[i]) { assert ReadsTenant(m, rows[i]); }
  }

  lemma {:induction false} OwnRowsIgnoreWorld(m: Meaning, w: World, rows: seq<Row>)
    ensures OwnRows(m.In(w), rows) == OwnRows(m, rows)
  {
    if rows != [] { OwnRowsIgnoreWorld(m, w, rows[1..]); }
  }

  lemma ScopedIsIsolated(q: Query)
    requires AllRowSafe(q.where_) && IsScoped(q.where_) && RestSafe(q)
    ensures TenantIsolated(q)
  {
    SafeDependsOnViewOnly(q);
    forall m: Meaning, v: World, w: World, xs, ys | OwnAgree(m, xs, ys)
      ensures Answer(m.In(v), q, xs) == Answer(m.In(w), q, ys)
    {
      ReadingsIgnoreWorld(m, v, xs);
      ReadingsIgnoreWorld(m, w, ys);
      ScopedIgnoresOthers(m.In(v), q, xs);
      ScopedIgnoresOthers(m.In(w), q, ys);
      OwnRowsIgnoreWorld(m, v, xs);
      OwnRowsIgnoreWorld(m, w, ys);
      OwnRowsUnique(m, xs);
    }
  }

  lemma NeverHoldingIsIsolated(q: Query)
    requires !CanHold(q.where_) && !Refused(q)
    ensures TenantIsolated(q)
  {
    forall m: Meaning, v: World, w: World, xs, ys | OwnAgree(m, xs, ys)
      ensures Answer(m.In(v), q, xs) == Answer(m.In(w), q, ys)
    {
      ReadingsIgnoreWorld(m, v, xs);
      ReadingsIgnoreWorld(m, w, ys);
      NoneKeptNoneAnswered(m.In(v), q, xs);
      NoneKeptNoneAnswered(m.In(w), q, ys);
    }
  }

  // ----- What breaks the isolation -----

  lemma OwnContacts(n: nat)
    ensures OwnAgree(Probing(Holds), Contacts(n, OURS), Contacts(n, OURS))
  {
    var m := Probing(Holds);
    ContactsDiffer(n, OURS);
    ProbingReadsLogic(Marking(0, 0));
    assert m.In(Marking(0, 0)) == m;
    forall i | 0 <= i < n ensures ReadsTenant(m, Contacts(n, OURS)[i]) { ProbingReadsTenant(Marking(0, 0), i, OURS); }
  }

  /** With a condition that can hold, what stands beside it and asks beyond tells. */
  lemma UnsafeRestTells(q: Query)
    requires !Refused(q) && CanHold(q.where_) && !RestSafe(q)
    ensures !TenantIsolated(q)
  {
    forall first, others, id ensures Condition(In(Holds, first, others), q, Contact(id, OURS)) {
      CanHoldHolds(first, others, q.where_, id);
    }
    var v, w, n := RestTells(Holds, q, OURS);
    OwnContacts(n);
  }

  lemma NoContacts(m: Meaning, q: Query)
    requires !Refused(q)
    ensures Answer(m, q, []) == Some([])
  {
  }

  lemma ForeignContact()
    ensures OwnAgree(Probing(Holds), [Contact(0, THEIRS)], [])
  {
    var m, row := Probing(Holds), Contact(0, THEIRS);
    assert m.In(Marking(0, 0)) == m;
    ProbingReadsLogic(Marking(0, 0));
    ProbingReadsTenant(Marking(0, 0), 0, THEIRS);
    OwnRowsStep(m, row, []);
    assert [row] + [] == [row];
  }

  /** An unscoped condition answers another tenant's contact. */
  lemma UnscopedTells(q: Query)
    requires !Refused(q) && !IsScoped(q.where_) && RestSafe(q)
    ensures !TenantIsolated(q)
  {
    UnscopedHolds(0, 0, q.where_, 0);
    ContactIsUnmarked(0, THEIRS);
    LetThrough(Holds, 0, 0, q, Contact(0, THEIRS));
    NoContacts(In(Holds, 0, 0), q);
    ForeignContact();
  }

  /**
   * A condition that asks nothing beyond: the answer is the bound tenant's own, if and only if the database
   * refuses the query, or the condition can never hold, or it is scoped and nothing that decides beside it
   * asks beyond its row.
   */
  lemma TenantIsolatedIff(q: Query)
    requires AllRowSafe(q.where_)
    ensures TenantIsolated(q) <==> Refused(q) || !CanHold(q.where_) || (IsScoped(q.where_) && RestSafe(q))
  {
    if Refused(q) {
    } else if !CanHold(q.where_) {
      NeverHoldingIsIsolated(q);
    } else if !RestSafe(q) {
      UnsafeRestTells(q);
    } else if IsScoped(q.where_) {
      ScopedIsIsolated(q);
    } else {
      UnscopedTells(q);
    }
  }

  // ----- The limit -----

  /** A whole number as LIMIT takes that many rows. */
  ghost predicate ReadsNumbers(takes: Value -> Option<nat>) {
    forall k: nat :: takes(Number(k as real)) == Some(k)
  }

  /** Whatever its condition and HAVING keep, no table has an answer of more than `n` rows. */
  ghost predicate Capped(takes: Value -> Option<nat>, q: Query, n: nat) {
    forall m: Meaning, rows :: UniqueIds(rows) ==>
      var answer := Answer(m.(takes := takes), q, rows);
      answer.Some? ==> |answer.value| <= n
  }

  /** The LIMIT is a constant that takes at most `n` rows. */
  predicate LimitAtMost(takes: Value -> Option<nat>, q: Query, n: nat) {
    q.limit.Some? && q.limit.value.Literal? && takes(q.limit.value.value).Some? && takes(q.limit.value.value).value <= n
  }

  /** Every expression but a constant gives `v`, and nothing is dropped, sorted or skipped. */
  function Constantly(v: Value, takes: Value -> Option<nat>): Meaning {
    Meaning(Sem((kind, op, vs) => v, k => v, i => v, (e: Expr, vs: seq<Value>, row: Row) => v),
            x => true, x => true, (x, y) => false, takes, x => 0)
  }

  lemma TakesConstantly(v: Value, takes: Value -> Option<nat>, q: Query)
    requires !Refused(q) && q.limit.Some? && !q.limit.value.Literal?
    ensures Taken(Constantly(v, takes), q) == takes(v)
  {
    var e := q.limit.value;
    assert NoColumnAt(e, []);
    if !IsLeaf(e) { EvalNode(Constantly(v, takes).sem, e, NoRow()); }
  }

  lemma {:induction false} AllAreKept(m: Meaning, q: Query, rs: seq<Reading>)
    requires forall r :: Passes(m, q, r)
    ensures Kept(m, q, rs) == rs
  {
    if rs != [] { AllAreKept(m, q, rs[1..]); }
  }

  lemma AnswersAll(v: Value, takes: Value -> Option<nat>, q: Query, n: nat)
    requires !Refused(q) && (Taken(Constantly(v, takes), q).Some? ==> n <= Taken(Constantly(v, takes), q).value)
    ensures var answer := Answer(Constantly(v, takes), q, Contacts(n, OURS)); answer.Some? && |answer.value| == n
  {
    var m := Constantly(v, takes);
    var rs := ReadAll(m.sem, q, Contacts(n, OURS));
    AllAreKept(m, q, rs);
    assert Cut(Ids(Sort(m, rs)), 0, Taken(m, q)) == Ids(Sort(m, rs));
  }

  lemma UncappedAnswer(takes: Value -> Option<nat>, q: Query, n: nat)
    requires ReadsNumbers(takes) && !Refused(q) && !LimitAtMost(takes, q, n)
    ensures !Capped(takes, q, n)
  {
    var v := Number((n + 1) as real);
    assert takes(v) == Some(n + 1);
    if q.limit.Some? && !q.limit.value.Literal? { TakesConstantly(v, takes, q); }
    AnswersAll(v, takes, q, n + 1);
    ContactsDiffer(n + 1, OURS);
    assert Constantly(v, takes).(takes := takes) == Constantly(v, takes);
  }

  /**
   * However LIMIT reads what is no whole number, a query never answers more than `n` rows, if and only if
   * the database refuses it, or its LIMIT is a constant that takes at most `n`.
   */
  lemma CappedIffLimited(takes: Value -> Option<nat>, q: Query, n: nat)
    requires ReadsNumbers(takes)
    ensures Capped(takes, q, n) <==> Refused(q) || LimitAtMost(takes, q, n)
  {
    if !Refused(q) && !LimitAtMost(takes, q, n) { UncappedAnswer(takes, q, n); }
  }
}
