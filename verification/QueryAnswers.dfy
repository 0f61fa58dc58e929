/** The answer of a whole query over the contacts view, and what it depends on. */
module QueryAnswers {
  import opened Wrappers
  import opened JsString
  import opened Predicates

  /** What a select carries beside its table and its projection, all of it behind the start of the condition. */
  datatype Query = Query(
    where_: Expr, groupBy: seq<Expr>, having: Option<Expr>, orderBy: seq<Expr>,
    limit: Option<Expr>, offset: Option<Expr>)

  /** The rest of the database: what subqueries and functions that are not listed find there. */
  type World = (Expr, seq<Value>, Row) -> Value

  /**
   * On top of the operators: when a condition holds, when HAVING keeps a row, which of two sort values comes
   * first, how many rows a LIMIT takes, or that it takes all, and how many an OFFSET skips.
   */
  datatype Meaning = Meaning(
    sem: Sem, holds: Value -> bool, keeps: Value -> bool, before: (Value, Value) -> bool,
    takes: Value -> Option<nat>, skips: Value -> nat)
  {
    function In(w: World): Meaning { this.(sem := sem.(beyond := w)) }
  }

  const ID := Ref("contact_id")

  /** In GROUP BY and ORDER BY the number 1 stands for the one projected column. */
  function Positional(e: Expr): Expr { if e == Literal(Number(1.0)) then ID else e }

  function Positionals(es: seq<Expr>): (r: seq<Expr>)
    ensures |r| == |es| && forall i :: 0 <= i < |r| ==> r[i] == Positional(es[i])
  {
    seq(|es|, i requires 0 <= i < |es| => Positional(es[i]))
  }

  // ----- Queries that the database refuses -----

  /** `count(*)` and its like: only such a call names no column with its star. */
  predicate HasStar(e: Expr) { e.Call? && !IsFunction(e.function_) && e.args == [Ref("*")] }

  /** Only aggregates and window functions have clauses, and no listed function is one. */
  predicate HasNoStrayClauses(e: Expr) { e.Call? && IsFunction(e.function_) ==> e.clauses == [] }

  /** Every column that it names is one of the view's, and its calls are well formed. */
  predicate Resolves(e: Expr) {
    if e.Ref? then e.name in COLUMNS
    else
      && HasNoStrayClauses(e)
      && (forall i :: 0 <= i < |Unvisited(e)| ==> Resolves(Unvisited(e)[i]))
      && (!HasStar(e) ==> forall i :: 0 <= i < |Visited(e)| ==> Resolves(Visited(e)[i]))
  }

  ghost predicate NoColumnAt(e: Expr, path: seq<nat>) { At(e, path).Some? ==> !At(e, path).value.Ref? }

  ghost predicate NoColumns(e: Expr) {
    forall path :: NoColumnAt(e, path)
  }

  /** In a grouped query: grouped by as a whole, or its columns stand in groups or inside an aggregate. */
  predicate IsGrouped(e: Expr, groups: seq<Expr>) {
    || e in groups
    || (e.Call? && !IsFunction(e.function_))
    || (!e.Ref? && forall i :: 0 <= i < |Children(e)| ==> IsGrouped(Children(e)[i], groups))
  }

  predicate Grouped(q: Query) { q.groupBy != [] || q.having.Some? }

  predicate AllResolve(es: seq<Expr>) {
    forall i :: 0 <= i < |es| ==> Resolves(es[i])
  }

  /** The columns exist, LIMIT and OFFSET name none, and a grouped query reads grouped columns only. */
  ghost predicate IsAnswerable(q: Query) {
    && Resolves(q.where_) && AllResolve(q.groupBy) && AllResolve(q.orderBy)
    && (q.having.Some? ==> Resolves(q.having.value))
    && (q.limit.Some? ==> Resolves(q.limit.value) && NoColumns(q.limit.value))
    && (q.offset.Some? ==> Resolves(q.offset.value) && NoColumns(q.offset.value))
    && (Grouped(q) ==>
          var groups := Positionals(q.groupBy);
          && IsGrouped(ID, groups)
          && (q.having.Some? ==> IsGrouped(q.having.value, groups))
          && forall i :: 0 <= i < |q.orderBy| ==> IsGrouped(Positional(q.orderBy[i]), groups))
  }

  ghost predicate Refused(q: Query) { !IsAnswerable(q) }

  // ----- From the rows to the answer -----

  /** No contact is twice in the view. */
  ghost predicate UniqueIds(rows: seq<Row>) {
    forall i, j :: 0 <= i < j < |rows| ==> rows[i]("contact_id") != rows[j]("contact_id")
  }

  /** The sort keys up to the contact id: as that is unique, those behind it never decide. */
  function Deciding(es: seq<Expr>): seq<Expr> {
    if es == [] then [] else if Positional(es[0]) == ID then [ID] else [es[0]] + Deciding(es[1..])
  }

  datatype Reading = Reading(id: Value, condition: Value, having: Value, order: seq<Value>)

  function Read(sem: Sem, q: Query, row: Row): Reading {
    Reading(
      row("contact_id"),
      Eval(sem, q.where_, row),
      if q.having.Some? then Eval(sem, q.having.value, row) else Null,
      EvalEach(sem, Deciding(q.orderBy), row))
  }

  function ReadAll(sem: Sem, q: Query, rows: seq<Row>): (r: seq<Reading>)
    ensures |r| == |rows| && forall i :: 0 <= i < |r| ==> r[i] == Read(sem, q, rows[i])
  {
    seq(|rows|, i requires 0 <= i < |rows| => Read(sem, q, rows[i]))
  }

  /** A grouped query is grouped by the id, so each row is a group of its own, and HAVING a second condition. */
  predicate Passes(m: Meaning, q: Query, r: Reading) {
    m.holds(r.condition) && (q.having.Some? ==> m.keeps(r.having))
  }

  function Kept(m: Meaning, q: Query, rs: seq<Reading>): seq<Reading> {
    if rs == [] then [] else (if Passes(m, q, rs[0]) then [rs[0]] else []) + Kept(m, q, rs[1..])
  }

  /** The first sort value in which they differ decides. */
  predicate Precedes(m: Meaning, a: seq<Value>, b: seq<Value>) {
    a != [] && b != [] && if a[0] == b[0] then Precedes(m, a[1..], b[1..]) else m.before(a[0], b[0])
  }

  function Insert(m: Meaning, r: Reading, rs: seq<Reading>): (s: seq<Reading>)
    ensures |s| == |rs| + 1
  {
    if rs == [] || !Precedes(m, rs[0].order, r.order) then [r] + rs else [rs[0]] + Insert(m, r, rs[1..])
  }

  /** A stable sort. */
  function Sort(m: Meaning, rs: seq<Reading>): (s: seq<Reading>)
    ensures |s| == |rs|
  {
    if rs == [] then [] else Insert(m, rs[0], Sort(m, rs[1..]))
  }

  function Ids(rs: seq<Reading>): (r: seq<Value>)
    ensures |r| == |rs| && forall i :: 0 <= i < |r| ==> r[i] == rs[i].id
  {
    seq(|rs|, i requires 0 <= i < |rs| => rs[i].id)
  }

  function Cut(ids: seq<Value>, skipped: nat, taken: Option<nat>): (r: seq<Value>)
    ensures skipped == 0 && (taken.Some? ==> |ids| <= taken.value) ==> r == ids
    ensures taken.Some? ==> |r| <= taken.value
  {
    var rest := ids[Min(skipped, |ids|)..];
    if taken.Some? then rest[..Min(taken.value, |rest|)] else rest
  }

  function Assemble(m: Meaning, q: Query, rs: seq<Reading>, skipped: nat, taken: Option<nat>): seq<Value> {
    Cut(Ids(Sort(m, Kept(m, q, rs))), skipped, taken)
  }

  /** LIMIT and OFFSET see no row. */
  function NoRow(): Row { (c: string) => Null }

  function Skipped(m: Meaning, q: Query): nat {
    if q.offset.Some? then m.skips(Eval(m.sem, q.offset.value, NoRow())) else 0
  }

  function Taken(m: Meaning, q: Query): Option<nat> {
    if q.limit.Some? then m.takes(Eval(m.sem, q.limit.value, NoRow())) else None
  }

  /** The contact ids in order, or nothing when the database refuses the query. */
  ghost function Answer(m: Meaning, q: Query, rows: seq<Row>): Option<seq<Value>> {
    if Refused(q) then None else Some(Assemble(m, q, ReadAll(m.sem, q, rows), Skipped(m, q), Taken(m, q)))
  }

  // ----- What an answer depends on -----

  ghost predicate TablesAgree(xs: seq<Row>, ys: seq<Row>) {
    |xs| == |ys| && forall i :: 0 <= i < |xs| ==> Agree(xs[i], ys[i])
  }

  /** Whatever the operators mean, the view's rows fix the answer: the rest of the database makes no difference. */
  ghost predicate DependsOnViewOnly(q: Query) {
    forall m: Meaning, v: World, w: World, xs, ys ::
      TablesAgree(xs, ys) && UniqueIds(xs) ==> Answer(m.In(v), q, xs) == Answer(m.In(w), q, ys)
  }

  ghost predicate AllSafe(es: seq<Expr>) {
    forall i :: 0 <= i < |es| ==> AllRowSafe(es[i])
  }

  ghost predicate BoundsSafe(q: Query) {
    && (q.having.Some? ==> AllRowSafe(q.having.value))
    && (q.limit.Some? ==> AllRowSafe(q.limit.value))
    && (q.offset.Some? ==> AllRowSafe(q.offset.value))
  }

  /** All that decides beside the condition reads nothing beyond its row. */
  ghost predicate RestSafe(q: Query) { AllSafe(Deciding(q.orderBy)) && BoundsSafe(q) }

  lemma IdIsColumn()
    ensures IsColumn("contact_id")
  {
    assert COLUMNS[0] == "contact_id";
    assert ToLower("contact_id") == "contact_id";
  }

  lemma EachAgrees(s: Sem, t: Sem, es: seq<Expr>, x: Row, y: Row)
    requires AllSafe(es) && Agree(x, y) && SameOperators(s, t)
    ensures EvalEach(s, es, x) == EvalEach(t, es, y)
  {
    forall i | 0 <= i < |es| ensures EvalEach(s, es, x)[i] == EvalEach(t, es, y)[i] {
      RowSafeAgrees(s, t, es[i], x, y);
    }
  }

  lemma ReadAgrees(s: Sem, t: Sem, q: Query, x: Row, y: Row)
    requires AllRowSafe(q.where_) && RestSafe(q) && Agree(x, y) && SameOperators(s, t)
    ensures Read(s, q, x) == Read(t, q, y)
  {
    IdIsColumn();
    RowSafeAgrees(s, t, q.where_, x, y);
    if q.having.Some? { RowSafeAgrees(s, t, q.having.value, x, y); }
    EachAgrees(s, t, Deciding(q.orderBy), x, y);
  }

  lemma ReadAllAgrees(s: Sem, t: Sem, q: Query, xs: seq<Row>, ys: seq<Row>)
    requires AllRowSafe(q.where_) && RestSafe(q) && TablesAgree(xs, ys) && SameOperators(s, t)
    ensures ReadAll(s, q, xs) == ReadAll(t, q, ys)
  {
    forall i | 0 <= i < |xs| ensures ReadAll(s, q, xs)[i] == ReadAll(t, q, ys)[i] {
      ReadAgrees(s, t, q, xs[i], ys[i]);
    }
  }

  lemma BoundsAgree(m: Meaning, v: World, w: World, q: Query)
    requires RestSafe(q)
    ensures Skipped(m.In(v), q) == Skipped(m.In(w), q) && Taken(m.In(v), q) == Taken(m.In(w), q)
  {
    if q.limit.Some? { RowSafeAgrees(m.In(v).sem, m.In(w).sem, q.limit.value, NoRow(), NoRow()); }
    if q.offset.Some? { RowSafeAgrees(m.In(v).sem, m.In(w).sem, q.offset.value, NoRow(), NoRow()); }
  }

  /** Whether a row passes and how two rows are ordered does not ask the world. */
  lemma {:induction false} KeptIgnoresWorld(m: Meaning, v: World, w: World, q: Query, rs: seq<Reading>)
    ensures Kept(m.In(v), q, rs) == Kept(m.In(w), q, rs)
  {
    if rs != [] { KeptIgnoresWorld(m, v, w, q, rs[1..]); }
  }

  lemma {:induction false} PrecedesIgnoresWorld(m: Meaning, v: World, w: World, a: seq<Value>, b: seq<Value>)
    ensures Precedes(m.In(v), a, b) == Precedes(m.In(w), a, b)
  {
    if a != [] && b != [] { PrecedesIgnoresWorld(m, v, w, a[1..], b[1..]); }
  }

  lemma {:induction false} InsertIgnoresWorld(m: Meaning, v: World, w: World, r: Reading, rs: seq<Reading>)
    ensures Insert(m.In(v), r, rs) == Insert(m.In(w), r, rs)
  {
    if rs != [] {
      PrecedesIgnoresWorld(m, v, w, rs[0].order, r.order);
      InsertIgnoresWorld(m, v, w, r, rs[1..]);
    }
  }

  lemma {:induction false} SortIgnoresWorld(m: Meaning, v: World, w: World, rs: seq<Reading>)
    ensures Sort(m.In(v), rs) == Sort(m.In(w), rs)
  {
    if rs != [] {
      SortIgnoresWorld(m, v, w, rs[1..]);
      InsertIgnoresWorld(m, v, w, rs[0], Sort(m.In(v), rs[1..]));
    }
  }

  lemma AssembleIgnoresWorld(m: Meaning, v: World, w: World, q: Query, rs: seq<Reading>, n: nat, k: Option<nat>)
    ensures Assemble(m.In(v), q, rs, n, k) == Assemble(m.In(w), q, rs, n, k)
  {
    KeptIgnoresWorld(m, v, w, q, rs);
    SortIgnoresWorld(m, v, w, Kept(m.In(v), q, rs));
  }

  /** A query that is refused or safe all through depends on the view only. */
  lemma SafeDependsOnViewOnly(q: Query)
    requires Refused(q) || (AllRowSafe(q.where_) && RestSafe(q))
    ensures DependsOnViewOnly(q)
  {
    if !Refused(q) {
      forall m: Meaning, v: World, w: World, xs, ys | TablesAgree(xs, ys) && UniqueIds(xs)
        ensures Answer(m.In(v), q, xs) == Answer(m.In(w), q, ys)
      {
        ReadAllAgrees(m.In(v).sem, m.In(w).sem, q, xs, ys);
        BoundsAgree(m, v, w, q);
        AssembleIgnoresWorld(m, v, w, q, ReadAll(m.In(w).sem, q, ys), Skipped(m.In(w), q), Taken(m.In(w), q));
      }
    }
  }
}
