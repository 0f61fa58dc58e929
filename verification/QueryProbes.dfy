/** Rows, worlds and a meaning that find out whether an answer asks the rest of the database. */
module QueryProbes {
  import opened Wrappers
  import opened JsString
  import opened Predicates
  import opened QueryAnswers

  // ----- Values that carry a truth value and a mark -----

  function Tag(holds: bool, mark: nat): Value { Many([Bool(holds)] + seq(mark, i => Null)) }

  function Mark(v: Value): nat { if v.Many? && v.parts != [] then |v.parts| - 1 else 0 }

  predicate Holds(v: Value) {
    if v.Many? then v.parts == [] || v.parts[0] != Bool(false) else v != Bool(false) && v != Null
  }

  // The bound tenant and another one: no literal and no operator gives either.
  const OURS := Many([Null])
  const THEIRS := Many([Text("")])

  function MaxMark(vs: seq<Value>): nat {
    if vs == [] then 0 else if Mark(vs[0]) >= MaxMark(vs[1..]) then Mark(vs[0]) else MaxMark(vs[1..])
  }

  /** Everything holds but a conjunction or disjunction that does not, and comparing the two tenants. */
  predicate Truth(kind: string, op: string, vs: seq<Value>) {
    if kind == "binary" && |vs| == 2 then
      if op == "AND" then Holds(vs[0]) && Holds(vs[1])
      else if op == "OR" then Holds(vs[0]) || Holds(vs[1])
      else op == "=" ==> vs != [THEIRS, OURS] && vs != [OURS, THEIRS]
    else true
  }

  /** Marks on what comes from beyond: `first` at the contact 0, and `others` elsewhere. */
  function Marking(first: nat, others: nat): World {
    (e: Expr, vs: seq<Value>, row: Row) => Tag(true, if row("contact_id") == Number(0.0) then first else others)
  }

  function ProbingSem(w: World): Sem {
    Sem((kind, op, vs) => Tag(Truth(kind, op, vs), MaxMark(vs)), k => Bool(true),
        i => if i == "$1" then OURS else Bool(true), w)
  }

  /** A value of mark 1 drops the row in HAVING, takes none as LIMIT, and skips one as OFFSET; marks sort. */
  function Probing(holds: Value -> bool): Meaning {
    Meaning(ProbingSem(Marking(0, 0)), holds, v => Mark(v) != 1, (x, y) => Mark(x) < Mark(y),
            v => if Mark(v) == 1 then Some(0) else None, v => if Mark(v) == 1 then 1 else 0)
  }

  /** The row of a contact of some tenant, true in all other columns. */
  function Contact(id: nat, tenant: Value): Row {
    (c: string) => if c == "contact_id" then Number(id as real) else if c == "tenant_id" then tenant else Bool(true)
  }

  // ----- Marks come from beyond only -----

  ghost predicate Unmarked(row: Row) {
    forall c: string :: Mark(row(c)) == 0
  }

  lemma {:induction false} MaxMarkIs(vs: seq<Value>, k: nat)
    requires forall i :: 0 <= i < |vs| ==> Mark(vs[i]) == 0 || Mark(vs[i]) == k
    ensures MaxMark(vs) == if exists i :: 0 <= i < |vs| && Mark(vs[i]) == k then k else 0
  {
    if vs != [] {
      MaxMarkIs(vs[1..], k);
      assert forall i :: 1 <= i < |vs| ==> vs[i] == vs[1..][i - 1];
    }
  }

  function MarkAt(row: Row, first: nat, others: nat): nat {
    if row("contact_id") == Number(0.0) then first else others
  }

  /** What `e` is marked with at a place where everything from beyond is marked with `k`. */
  ghost predicate MarkedRight(e: Expr, v: Value, k: nat) {
    Mark(v) == if AllRowSafe(e) then 0 else k
  }

  lemma {:induction false} MarkIs(e: Expr, row: Row, first: nat, others: nat)
    requires Resolves(e) && Unmarked(row)
    ensures MarkedRight(e, Eval(ProbingSem(Marking(first, others)), e, row), MarkAt(row, first, others))
  {
    var sem := ProbingSem(Marking(first, others));
    if AllRowSafe(e) { RootIsRowSafe(e); }
    if IsLeaf(e) {
      if !e.Select? { LeafIsSafe(e); }
    } else {
      EvalNode(sem, e, row);
      if !ReadsBeyond(e) {
        forall i: nat | i < |Children(e)|
          ensures MarkedRight(Children(e)[i], EvalChildren(sem, e, row)[i], MarkAt(row, first, others))
        {
          ChildResolves(e, i);
          MarkIs(Children(e)[i], row, first, others);
        }
        MarkOfParts(e, EvalChildren(sem, e, row), MarkAt(row, first, others));
      }
    }
  }

  lemma ChildResolves(e: Expr, i: nat)
    requires Resolves(e) && !IsLeaf(e) && !ReadsBeyond(e) && i < |Children(e)|
    ensures Resolves(Children(e)[i])
  {
    if i < |Visited(e)| {
      assert Children(e)[i] == Visited(e)[i];
    } else {
      assert Children(e)[i] == Unvisited(e)[i - |Visited(e)|];
    }
  }

  lemma MarkOfParts(e: Expr, vs: seq<Value>, k: nat)
    requires !IsLeaf(e) && !ReadsBeyond(e) && |vs| == |Children(e)|
    requires forall i :: 0 <= i < |vs| ==> MarkedRight(Children(e)[i], vs[i], k)
    ensures MaxMark(vs) == if AllRowSafe(e) then 0 else k
  {
    MaxMarkIs(vs, k);
    if AllRowSafe(e) {
      forall i: nat | i < |vs| ensures Mark(vs[i]) == 0 { ChildIsRowSafe(e, i); }
    } else {
      var i := UnsafeChild(e);
      assert Mark(vs[i]) == k;
    }
  }

  lemma LeafIsSafe(e: Expr)
    requires IsLeaf(e) && !e.Select? && Resolves(e)
    ensures AllRowSafe(e)
  {
    if e.Ref? { ColumnsAreColumns(e.name); }
    if !AllRowSafe(e) { var i := UnsafeChild(e); }
  }

  lemma ColumnsAreColumns(name: string)
    requires name in COLUMNS
    ensures IsColumn(name)
  {
    forall i | 0 <= i < |COLUMNS| ensures ToLower(COLUMNS[i]) == COLUMNS[i] {}
  }

  // ----- One contact -----

  function In(holds: Value -> bool, first: nat, others: nat): Meaning { Probing(holds).In(Marking(first, others)) }

  lemma InReads(holds: Value -> bool, first: nat, others: nat, e: Expr, row: Row)
    requires Resolves(e) && Unmarked(row)
    ensures MarkedRight(e, Eval(In(holds, first, others).sem, e, row), MarkAt(row, first, others))
  {
    assert In(holds, first, others).sem == ProbingSem(Marking(first, others));
    MarkIs(e, row, first, others);
  }

  function Condition(m: Meaning, q: Query, row: Row): bool { m.holds(Eval(m.sem, q.where_, row)) }

  lemma OneRow(m: Meaning, q: Query, row: Row)
    requires !Refused(q)
    ensures var r := Read(m.sem, q, row);
            Answer(m, q, [row]) == Some(Cut(if Passes(m, q, r) then [r.id] else [], Skipped(m, q), Taken(m, q)))
  {
    var r := Read(m.sem, q, row);
    assert ReadAll(m.sem, q, [row]) == [r];
    assert Kept(m, q, [r]) == if Passes(m, q, r) then [r] else [];
    assert Sort(m, [r]) == [r] && Ids([r]) == [r.id] && Ids([]) == [];
  }

  /** HAVING, LIMIT and OFFSET let the row through where nothing has the mark 1. */
  lemma RestLetsThrough(holds: Value -> bool, first: nat, others: nat, q: Query, row: Row)
    requires !Refused(q) && Unmarked(row)
    requires BoundsSafe(q) || (first != 1 && others != 1)
    ensures var m := In(holds, first, others);
            && (Passes(m, q, Read(m.sem, q, row)) <==> Condition(m, q, row))
            && Skipped(m, q) == 0 && Taken(m, q) == None
  {
    if q.having.Some? { InReads(holds, first, others, q.having.value, row); }
    if q.limit.Some? { InReads(holds, first, others, q.limit.value, NoRow()); }
    if q.offset.Some? { InReads(holds, first, others, q.offset.value, NoRow()); }
  }

  /** One of them does not where all from beyond has the mark 1. */
  lemma RestStops(holds: Value -> bool, q: Query, row: Row)
    requires !Refused(q) && Unmarked(row)
    requires !BoundsSafe(q)
    ensures Answer(In(holds, 1, 1), q, [row]) == Some([])
  {
    if q.having.Some? { InReads(holds, 1, 1, q.having.value, row); }
    if q.limit.Some? { InReads(holds, 1, 1, q.limit.value, NoRow()); }
    if q.offset.Some? { InReads(holds, 1, 1, q.offset.value, NoRow()); }
    OneRow(In(holds, 1, 1), q, row);
  }

  // ----- Two contacts -----

  /** Equal, or both numbers: the probing operators do not tell them apart. */
  predicate Alike(v: Value, w: Value) { v == w || (v.Number? && w.Number?) }

  ghost predicate AllAlike(vs: seq<Value>, ws: seq<Value>) {
    |vs| == |ws| && forall i :: 0 <= i < |vs| ==> Alike(vs[i], ws[i])
  }

  lemma {:induction false} AlikeMarks(vs: seq<Value>, ws: seq<Value>)
    requires AllAlike(vs, ws)
    ensures MaxMark(vs) == MaxMark(ws)
  {
    if vs != [] { AlikeMarks(vs[1..], ws[1..]); }
  }

  lemma AlikeTruth(kind: string, op: string, vs: seq<Value>, ws: seq<Value>)
    requires AllAlike(vs, ws)
    ensures Truth(kind, op, vs) == Truth(kind, op, ws)
  {
    if |vs| == 2 { assert vs == [vs[0], vs[1]] && ws == [ws[0], ws[1]]; }
  }

  lemma LeafReadsAlike(w: World, e: Expr, i: nat, j: nat, tenant: Value)
    requires IsLeaf(e) && !e.Select?
    ensures var v, u := Eval(ProbingSem(w), e, Contact(i, tenant)), Eval(ProbingSem(w), e, Contact(j, tenant));
            Alike(v, u) && (e != ID ==> v == u)
  {
  }

  lemma NodeReadsAlike(w: World, e: Expr, x: Row, y: Row)
    requires !IsLeaf(e) && !ReadsBeyond(e)
    requires AllAlike(EvalChildren(ProbingSem(w), e, x), EvalChildren(ProbingSem(w), e, y))
    ensures Eval(ProbingSem(w), e, x) == Eval(ProbingSem(w), e, y)
  {
    var vs, us := EvalChildren(ProbingSem(w), e, x), EvalChildren(ProbingSem(w), e, y);
    EvalNode(ProbingSem(w), e, x);
    EvalNode(ProbingSem(w), e, y);
    AlikeMarks(vs, us);
    AlikeTruth(Head(e).0, Head(e).1, vs, us);
  }

  /** What is safe reads two contacts alike, and equally unless it is the contact id itself. */
  lemma {:induction false} ReadsAlike(w: World, e: Expr, i: nat, j: nat, tenant: Value)
    requires AllRowSafe(e)
    ensures var v, u := Eval(ProbingSem(w), e, Contact(i, tenant)), Eval(ProbingSem(w), e, Contact(j, tenant));
            Alike(v, u) && (e != ID ==> v == u)
  {
    RootIsRowSafe(e);
    if IsLeaf(e) {
      LeafReadsAlike(w, e, i, j, tenant);
    } else {
      var x, y := Contact(i, tenant), Contact(j, tenant);
      forall k: nat | k < |Children(e)|
        ensures Alike(EvalChildren(ProbingSem(w), e, x)[k], EvalChildren(ProbingSem(w), e, y)[k])
      {
        ChildIsRowSafe(e, k);
        ReadsAlike(w, Children(e)[k], i, j, tenant);
      }
      NodeReadsAlike(w, e, x, y);
    }
  }

  lemma {:induction false} DecidingParts(es: seq<Expr>, i: nat)
    requires AllResolve(es) && i < |Deciding(es)|
    ensures Resolves(Deciding(es)[i]) && (i < |Deciding(es)| - 1 ==> Deciding(es)[i] != ID)
  {
    if Positional(es[0]) != ID && i > 0 { DecidingParts(es[1..], i - 1); }
  }

  /** The first sort key that asks beyond. */
  lemma FirstUnsafe(es: seq<Expr>) returns (j: nat)
    requires !AllSafe(es)
    ensures j < |es| && !AllRowSafe(es[j]) && AllSafe(es[..j])
  {
    j := 0;
    while AllRowSafe(es[j])
      invariant j < |es| && AllSafe(es[..j]) && !AllSafe(es)
      decreases |es| - j
    {
      assert AllSafe(es[..j + 1]);
      assert es[..|es|] == es;
      j := j + 1;
    }
  }

  lemma {:induction false} DecidedAt(m: Meaning, a: seq<Value>, b: seq<Value>, j: nat)
    requires |a| == |b| && j < |a| && a[..j] == b[..j] && a[j] != b[j]
    ensures Precedes(m, a, b) == m.before(a[j], b[j])
  {
    if j > 0 {
      assert a[0] == a[..j][0] && b[0] == b[..j][0];
      assert a[1..][..j - 1] == a[..j][1..] && b[1..][..j - 1] == b[..j][1..];
      DecidedAt(m, a[1..], b[1..], j - 1);
    }
  }

  lemma TwoRows(m: Meaning, q: Query, x: Row, y: Row)
    requires !Refused(q) && Skipped(m, q) == 0 && Taken(m, q) == None
    requires Passes(m, q, Read(m.sem, q, x)) && Passes(m, q, Read(m.sem, q, y))
    ensures var r, s := Read(m.sem, q, x), Read(m.sem, q, y);
            Answer(m, q, [x, y]) == Some(if Precedes(m, s.order, r.order) then [s.id, r.id] else [r.id, s.id])
  {
    var r, s := Read(m.sem, q, x), Read(m.sem, q, y);
    assert ReadAll(m.sem, q, [x, y]) == [r, s];
    assert [r, s][1..] == [s];
    assert Kept(m, q, [s]) == [s] && Kept(m, q, [r, s]) == [r, s];
    assert Sort(m, [s]) == [s];
    assert Insert(m, r, []) == [r] && [s][1..] == [];
    assert Sort(m, [r, s]) == Insert(m, r, [s]) == if Precedes(m, s.order, r.order) then [s, r] else [r, s];
    assert Ids([s, r]) == [s.id, r.id] && Ids([r, s]) == [r.id, s.id];
  }

  lemma ContactIsUnmarked(id: nat, tenant: Value)
    requires Mark(tenant) == 0
    ensures Unmarked(Contact(id, tenant))
  {
  }

  /** Up to the first key that asks beyond, two contacts have the same sort values. */
  lemma KeysReadAlike(w: World, q: Query, j: nat, tenant: Value)
    requires !Refused(q)
    requires j < |Deciding(q.orderBy)| && AllSafe(Deciding(q.orderBy)[..j])
    ensures var es := Deciding(q.orderBy);
            EvalEach(ProbingSem(w), es, Contact(0, tenant))[..j] == EvalEach(ProbingSem(w), es, Contact(1, tenant))[..j]
  {
    var es := Deciding(q.orderBy);
    forall i | 0 <= i < j
      ensures EvalEach(ProbingSem(w), es, Contact(0, tenant))[i] == EvalEach(ProbingSem(w), es, Contact(1, tenant))[i]
    {
      DecidingParts(q.orderBy, i);
      assert es[..j][i] == es[i];
      ReadsAlike(w, es[i], 0, 1, tenant);
    }
  }

  /** The marks put the contact first that has the smaller one. */
  lemma MarksDecide(holds: Value -> bool, first: nat, others: nat, q: Query, tenant: Value)
    requires !Refused(q) && !AllSafe(Deciding(q.orderBy)) && Mark(tenant) == 0 && first != others
    ensures var m := In(holds, first, others);
            Precedes(m, Read(m.sem, q, Contact(1, tenant)).order, Read(m.sem, q, Contact(0, tenant)).order)
            <==> others < first
  {
    var m, es := In(holds, first, others), Deciding(q.orderBy);
    var j := FirstUnsafe(es);
    KeysReadAlike(Marking(first, others), q, j, tenant);
    DecidingParts(q.orderBy, j);
    ContactIsUnmarked(0, tenant);
    ContactIsUnmarked(1, tenant);
    InReads(holds, first, others, es[j], Contact(0, tenant));
    InReads(holds, first, others, es[j], Contact(1, tenant));
    DecidedAt(m, EvalEach(m.sem, es, Contact(1, tenant)), EvalEach(m.sem, es, Contact(0, tenant)), j);
  }

  /** A condition that keeps contacts of this tenant whatever lies beyond. */
  ghost predicate Keeping(holds: Value -> bool, q: Query, tenant: Value) {
    forall first, others, id :: Condition(In(holds, first, others), q, Contact(id, tenant))
  }

  lemma OrderTells(holds: Value -> bool, q: Query, tenant: Value, first: nat, others: nat)
    requires !Refused(q) && Keeping(holds, q, tenant) && Mark(tenant) == 0 && first != others
    requires !AllSafe(Deciding(q.orderBy)) && BoundsSafe(q)
    ensures Answer(In(holds, first, others), q, [Contact(0, tenant), Contact(1, tenant)])
            == Some(if others < first then [Number(1.0), Number(0.0)] else [Number(0.0), Number(1.0)])
  {
    ContactIsUnmarked(0, tenant);
    ContactIsUnmarked(1, tenant);
    RestLetsThrough(holds, first, others, q, Contact(0, tenant));
    RestLetsThrough(holds, first, others, q, Contact(1, tenant));
    TwoRows(In(holds, first, others), q, Contact(0, tenant), Contact(1, tenant));
    MarksDecide(holds, first, others, q, tenant);
  }

  lemma LetThrough(holds: Value -> bool, first: nat, others: nat, q: Query, row: Row)
    requires !Refused(q) && Unmarked(row) && Condition(In(holds, first, others), q, row)
    requires BoundsSafe(q) || (first != 1 && others != 1)
    ensures Answer(In(holds, first, others), q, [row]) == Some([row("contact_id")])
  {
    OneRow(In(holds, first, others), q, row);
    RestLetsThrough(holds, first, others, q, row);
  }

  lemma Dropped(m: Meaning, q: Query, row: Row)
    requires !Refused(q) && !Condition(m, q, row)
    ensures Answer(m, q, [row]) == Some([])
  {
    OneRow(m, q, row);
  }

  // ----- The exact condition -----

  /** On the same contacts of this tenant, two worlds give two answers. */
  ghost predicate WorldsDiffer(holds: Value -> bool, q: Query, tenant: Value, v: World, w: World, n: nat) {
    Answer(Probing(holds).In(v), q, Contacts(n, tenant)) != Answer(Probing(holds).In(w), q, Contacts(n, tenant))
  }

  function Contacts(n: nat, tenant: Value): (r: seq<Row>)
    ensures |r| == n && forall i :: 0 <= i < n ==> r[i] == Contact(i, tenant)
  {
    seq(n, i requires 0 <= i < n => Contact(i, tenant))
  }

  lemma ContactsDiffer(n: nat, tenant: Value)
    ensures UniqueIds(Contacts(n, tenant))
  {
  }

  lemma RestTells(holds: Value -> bool, q: Query, tenant: Value) returns (v: World, w: World, n: nat)
    requires !Refused(q) && Keeping(holds, q, tenant) && Mark(tenant) == 0 && !RestSafe(q)
    ensures WorldsDiffer(holds, q, tenant, v, w, n)
  {
    if BoundsSafe(q) {
      v, w, n := Marking(1, 2), Marking(2, 1), 2;
      assert Contacts(2, tenant) == [Contact(0, tenant), Contact(1, tenant)];
      OrderTells(holds, q, tenant, 1, 2);
      OrderTells(holds, q, tenant, 2, 1);
    } else {
      v, w, n := Marking(1, 1), Marking(2, 2), 1;
      assert Contacts(1, tenant) == [Contact(0, tenant)];
      ContactIsUnmarked(0, tenant);
      RestStops(holds, q, Contact(0, tenant));
      LetThrough(holds, 2, 2, q, Contact(0, tenant));
    }
  }

  /** Holds unless marked with 1. */
  predicate HoldsUnless1(v: Value) { Mark(v) != 1 }

  lemma ConditionTells(q: Query) returns (v: World, w: World, n: nat)
    requires !Refused(q) && !AllRowSafe(q.where_)
    ensures WorldsDiffer(HoldsUnless1, q, OURS, v, w, n)
  {
    v, w, n := Marking(1, 1), Marking(2, 2), 1;
    var row := Contact(0, OURS);
    assert Contacts(1, OURS) == [row];
    ContactIsUnmarked(0, OURS);
    InReads(HoldsUnless1, 1, 1, q.where_, row);
    InReads(HoldsUnless1, 2, 2, q.where_, row);
    Dropped(In(HoldsUnless1, 1, 1), q, row);
    LetThrough(HoldsUnless1, 2, 2, q, row);
  }

  lemma SafeIsKept(q: Query)
    requires !Refused(q) && AllRowSafe(q.where_)
    ensures Keeping(HoldsUnless1, q, OURS)
  {
    forall first, others, id ensures Condition(In(HoldsUnless1, first, others), q, Contact(id, OURS)) {
      ContactIsUnmarked(id, OURS);
      InReads(HoldsUnless1, first, others, q.where_, Contact(id, OURS));
    }
  }

  lemma DifferentWorldsTell(holds: Value -> bool, q: Query, tenant: Value, v: World, w: World, n: nat)
    requires WorldsDiffer(holds, q, tenant, v, w, n)
    ensures !DependsOnViewOnly(q)
  {
    ContactsDiffer(n, tenant);
    var xs := Contacts(n, tenant);
    assert TablesAgree(xs, xs);
  }

  /**
   * Whatever operators, conditions, orders and bounds mean, an answer depends on the view only, if and only
   * if the database refuses the query, or its condition and all that decides beside it ask nothing beyond.
   */
  lemma DependsOnViewOnlyIff(q: Query)
    ensures DependsOnViewOnly(q) <==> Refused(q) || (AllRowSafe(q.where_) && RestSafe(q))
  {
    if Refused(q) || (AllRowSafe(q.where_) && RestSafe(q)) {
      SafeDependsOnViewOnly(q);
    } else if AllRowSafe(q.where_) {
      SafeIsKept(q);
      var v, w, n := RestTells(HoldsUnless1, q, OURS);
      DifferentWorldsTell(HoldsUnless1, q, OURS, v, w, n);
    } else {
      var v, w, n := ConditionTells(q);
      DifferentWorldsTell(HoldsUnless1, q, OURS, v, w, n);
    }
  }
}
