/** SQL expressions as the parser hands them over, the walker's verdict on them, and their meaning. */
module Predicates {
  import opened Wrappers
  import opened JsString

  datatype Value = Null | Bool(b: bool) | Number(x: real) | Text(s: string) | Many(parts: seq<Value>)

  type Scalar = v: Value | !v.Many? witness Null

  /**
   * `clauses` of a call are its FILTER, ORDER BY, WITHIN GROUP and OVER expressions. Select is a query used
   * as an expression, and Other any further kind of node with its parts; the walker looks into neither.
   */
  datatype Expr =
    | Ref(name: string)
    | Literal(value: Scalar)
    | Param(index: string)
    | Keyword(keyword: string)
    | Binary(op: string, left: Expr, right: Expr)
    | Unary(op: string, operand: Expr)
    | Ternary(op: string, subject: Expr, lo: Expr, hi: Expr)
    | List(items: seq<Expr>)
    | Array(items: seq<Expr>)
    | Cast(to: string, operand: Expr)
    | Call(function_: string, args: seq<Expr>, clauses: seq<Expr>)
    | Select(kind: string, text: string)
    | Other(kind: string, parts: seq<Expr>)

  const COLUMNS: seq<string> := [
    "contact_id", "tenant_id", "has_email", "has_phone", "email_domain", "created_at", "turf_id", "state",
    "postcode", "locality"]

  const FUNCTIONS: seq<string> := [
    "now", "current_date", "current_timestamp", "lower", "upper", "length", "date_trunc", "coalesce"]

  const KEYWORDS: seq<string> := ["current_date", "current_timestamp", "current_time", "localtimestamp", "localtime"]

  datatype Reason =
    | Wildcard
    | Column(name: string)
    | BadKeyword(name: string)
    | BadFunction(name: string)
    | Subquery
    | Unsupported(kind: string)

  function Concat<T>(parts: seq<seq<T>>): seq<T> {
    if parts == [] then [] else parts[0] + Concat(parts[1..])
  }

  predicate IsColumn(name: string) { ToLower(name) in COLUMNS }

  predicate IsFunction(name: string) { ToLower(name) in FUNCTIONS }

  predicate IsKeyword(name: string) { ToLower(name) in KEYWORDS }

  /** What the node itself is reported for. */
  function Own(e: Expr): seq<Reason> {
    match e
    case Ref(name) =>
      if ToLower(name) == "*" then [Wildcard] else if IsColumn(name) then [] else [Column(ToLower(name))]
    case Keyword(k) => if IsKeyword(k) then [] else [BadKeyword(ToLower(k))]
    case Call(f, _, _) => if IsFunction(f) then [] else [BadFunction(ToLower(f))]
    case Select(kind, _) => if kind == "select" then [Subquery] else [Unsupported(kind)]
    case Other(kind, _) => [Unsupported(kind)]
    case _ => []
  }

  /** The expressions that the walker goes on to. */
  function Visited(e: Expr): (r: seq<Expr>)
    ensures forall i :: 0 <= i < |r| ==> (e decreases to r[i])
  {
    match e
    case Binary(_, l, r) => [l, r]
    case Unary(_, x) => [x]
    case Ternary(_, x, lo, hi) => [x, lo, hi]
    case List(items) => items
    case Array(items) => items
    case Cast(_, x) => [x]
    case Call(_, args, _) => args
    case _ => []
  }

  /** The clauses of calls and the parts of other nodes, which the walker leaves alone. */
  function Unvisited(e: Expr): (r: seq<Expr>)
    ensures forall i :: 0 <= i < |r| ==> (e decreases to r[i])
  {
    match e
    case Call(_, _, clauses) => clauses
    case Other(_, parts) => parts
    case _ => []
  }

  /** All reasons, in the order in which the walker reports them. */
  function Walk(e: Expr): seq<Reason> {
    var vs := Visited(e);
    Own(e) + Concat(seq(|vs|, i requires 0 <= i < |vs| => Walk(vs[i])))
  }

  function WalkedParts(e: Expr): (r: seq<seq<Reason>>)
    ensures |r| == |Visited(e)| && forall i :: 0 <= i < |r| ==> r[i] == Walk(Visited(e)[i])
  {
    var vs := Visited(e);
    seq(|vs|, i requires 0 <= i < |vs| => Walk(vs[i]))
  }

  lemma WalkIsSum(e: Expr)
    ensures Walk(e) == Own(e) + Concat(WalkedParts(e))
  {
    var vs := Visited(e);
    assert seq(|vs|, i requires 0 <= i < |vs| => Walk(vs[i])) == WalkedParts(e);
  }

  // ----- Nodes by their paths -----

  function Children(e: Expr): (r: seq<Expr>)
    ensures forall i :: 0 <= i < |r| ==> (e decreases to r[i])
  {
    Visited(e) + Unvisited(e)
  }

  /** The node that the path of child numbers leads to. */
  function At(e: Expr, path: seq<nat>): Option<Expr> {
    if path == [] then Some(e)
    else if path[0] < |Children(e)| then At(Children(e)[path[0]], path[1..])
    else None
  }

  /** The path never enters a clause of a call. */
  predicate StaysVisited(e: Expr, path: seq<nat>) {
    path == [] || (path[0] < |Visited(e)| && StaysVisited(Visited(e)[path[0]], path[1..]))
  }

  predicate IsAllowed(e: Expr) {
    match e
    case Ref(name) => IsColumn(name)
    case Keyword(k) => IsKeyword(k)
    case Call(f, _, _) => IsFunction(f)
    case Select(_, _) => false
    case Other(_, _) => false
    case _ => true
  }

  ghost predicate AllowedAt(e: Expr, path: seq<nat>) {
    At(e, path).Some? ==> IsAllowed(At(e, path).value)
  }

  ghost predicate AllVisitedAllowed(e: Expr) {
    forall path :: StaysVisited(e, path) ==> AllowedAt(e, path)
  }

  lemma OwnIffNotAllowed(e: Expr)
    ensures Own(e) == [] <==> IsAllowed(e)
  {
    if e.Ref? && ToLower(e.name) == "*" { StarIsNoColumn(e.name); }
  }

  lemma StarIsNoColumn(name: string)
    requires ToLower(name) == "*"
    ensures !IsColumn(name)
  {
    forall i | 0 <= i < |COLUMNS| ensures |COLUMNS[i]| > 1 {}
  }

  lemma {:induction false} ConcatEmptyIff<T>(parts: seq<seq<T>>)
    ensures Concat(parts) == [] <==> forall i :: 0 <= i < |parts| ==> parts[i] == []
  {
    if parts != [] {
      ConcatEmptyIff(parts[1..]);
      assert forall i :: 1 <= i < |parts| ==> parts[i] == parts[1..][i - 1];
    }
  }

  lemma SumEmptyIff<T>(own: seq<T>, parts: seq<seq<T>>)
    ensures own + Concat(parts) == [] <==> own == [] && forall i :: 0 <= i < |parts| ==> parts[i] == []
  {
    ConcatEmptyIff(parts);
    assert |own + Concat(parts)| == |own| + |Concat(parts)|;
  }

  /** The node and all that the walker reaches from it are allowed. */
  predicate TreeAllowed(e: Expr) {
    IsAllowed(e) && forall i :: 0 <= i < |Visited(e)| ==> TreeAllowed(Visited(e)[i])
  }

  lemma {:induction false} WalkEmptyIff(e: Expr)
    ensures Walk(e) == [] <==> TreeAllowed(e)
  {
    OwnIffNotAllowed(e);
    forall i: nat | i < |Visited(e)| ensures WalkedParts(e)[i] == [] <==> TreeAllowed(Visited(e)[i]) {
      WalkEmptyIff(Visited(e)[i]);
    }
    WalkIsSum(e);
    SumEmptyIff(Own(e), WalkedParts(e));
  }

  lemma BinaryTree(e: Expr)
    requires e.Binary?
    ensures TreeAllowed(e) <==> TreeAllowed(e.left) && TreeAllowed(e.right)
  {
    assert Visited(e)[0] == e.left && Visited(e)[1] == e.right;
  }

  lemma BinaryWalk(op: string, left: Expr, right: Expr)
    ensures Walk(Binary(op, left, right)) == [] <==> Walk(left) == [] && Walk(right) == []
  {
    WalkEmptyIff(Binary(op, left, right));
    WalkEmptyIff(left);
    WalkEmptyIff(right);
    BinaryTree(Binary(op, left, right));
  }

  lemma LeafWalk(e: Expr)
    requires IsAllowed(e) && Visited(e) == []
    ensures Walk(e) == []
  {
    WalkEmptyIff(e);
  }

  lemma VisitedStep(e: Expr, i: nat, rest: seq<nat>)
    requires i < |Visited(e)|
    ensures AllowedAt(e, [i] + rest) <==> AllowedAt(Visited(e)[i], rest)
    ensures StaysVisited(e, [i] + rest) <==> StaysVisited(Visited(e)[i], rest)
  {
    var path := [i] + rest;
    assert path[0] == i && path[1..] == rest;
    assert Children(e)[i] == Visited(e)[i];
  }

  lemma {:induction false} TreeMeansAllowed(e: Expr, path: seq<nat>)
    requires TreeAllowed(e) && StaysVisited(e, path)
    ensures AllowedAt(e, path)
  {
    if path != [] {
      assert path == [path[0]] + path[1..];
      VisitedStep(e, path[0], path[1..]);
      TreeMeansAllowed(Visited(e)[path[0]], path[1..]);
    }
  }

  lemma {:induction false} BadNodeHasPath(e: Expr) returns (path: seq<nat>)
    requires !TreeAllowed(e)
    ensures StaysVisited(e, path) && !AllowedAt(e, path)
  {
    if !IsAllowed(e) {
      path := [];
    } else {
      var i: nat :| i < |Visited(e)| && !TreeAllowed(Visited(e)[i]);
      var rest := BadNodeHasPath(Visited(e)[i]);
      VisitedStep(e, i, rest);
      path := [i] + rest;
    }
  }

  /** No reasons, if and only if every node that the walker can reach is allowed. */
  lemma NoReasonsIffAllAllowed(e: Expr)
    ensures Walk(e) == [] <==> AllVisitedAllowed(e)
  {
    WalkEmptyIff(e);
    if TreeAllowed(e) {
      forall path | StaysVisited(e, path) ensures AllowedAt(e, path) { TreeMeansAllowed(e, path); }
    } else {
      var path := BadNodeHasPath(e);
    }
  }

  // ----- Meaning -----

  /** The value of each column; one that the row does not have reads as null. */
  type Row = string -> Value

  /**
   * Operators, listed functions and keywords by kind and name; `beyond` is what a subquery or a function
   * that is not listed gives, which may read anything.
   */
  datatype Sem = Sem(
    apply: (string, string, seq<Value>) -> Value, keyword: string -> Value, param: string -> Value,
    beyond: (Expr, seq<Value>, Row) -> Value)

  function Head(e: Expr): (string, string) {
    match e
    case Binary(op, _, _) => ("binary", op)
    case Unary(op, _) => ("unary", op)
    case Ternary(op, _, _, _) => ("ternary", op)
    case List(_) => ("list", "")
    case Array(_) => ("array", "")
    case Cast(to, _) => ("cast", to)
    case Call(f, _, _) => ("call", f)
    case Other(kind, _) => ("other", kind)
    case _ => ("", "")
  }

  function Eval(sem: Sem, e: Expr, row: Row): Value {
    match e
    case Ref(name) => row(name)
    case Literal(v) => v
    case Keyword(k) => sem.keyword(k)
    case Param(i) => sem.param(i)
    case Select(_, _) => sem.beyond(e, [], row)
    case _ =>
      var cs := Children(e);
      var values := seq(|cs|, i requires 0 <= i < |cs| => Eval(sem, cs[i], row));
      if ReadsBeyond(e) then sem.beyond(e, values, row) else sem.apply(Head(e).0, Head(e).1, values)
  }

  function EvalEach(sem: Sem, es: seq<Expr>, row: Row): (r: seq<Value>)
    ensures |r| == |es| && forall i :: 0 <= i < |r| ==> r[i] == Eval(sem, es[i], row)
  {
    seq(|es|, i requires 0 <= i < |es| => Eval(sem, es[i], row))
  }

  function EvalChildren(sem: Sem, e: Expr, row: Row): (r: seq<Value>)
    ensures |r| == |Children(e)| && forall i :: 0 <= i < |r| ==> r[i] == Eval(sem, Children(e)[i], row)
  {
    var cs := Children(e);
    seq(|cs|, i requires 0 <= i < |cs| => Eval(sem, cs[i], row))
  }

  predicate IsLeaf(e: Expr) { e.Ref? || e.Literal? || e.Keyword? || e.Param? || e.Select? }

  lemma EvalNode(sem: Sem, e: Expr, row: Row)
    requires !IsLeaf(e)
    ensures Eval(sem, e, row)
            == if ReadsBeyond(e) then sem.beyond(e, EvalChildren(sem, e, row), row)
               else sem.apply(Head(e).0, Head(e).1, EvalChildren(sem, e, row))
  {
    var cs := Children(e);
    assert seq(|cs|, i requires 0 <= i < |cs| => Eval(sem, cs[i], row)) == EvalChildren(sem, e, row);
  }

  ghost predicate Agree(a: Row, b: Row) {
    forall c: string :: IsColumn(c) ==> a(c) == b(c)
  }

  /** Under every meaning of the operators, only allowed columns make a difference. */
  ghost predicate NonInterfering(e: Expr) {
    forall sem, a, b :: Agree(a, b) ==> Eval(sem, e, a) == Eval(sem, e, b)
  }

  /** A subquery, or a call of a function that is not listed. */
  predicate ReadsBeyond(e: Expr) { e.Select? || (e.Call? && !IsFunction(e.function_)) }

  /** Reads nothing but allowed columns by itself. */
  predicate IsRowSafe(e: Expr) { !ReadsBeyond(e) && (e.Ref? ==> IsColumn(e.name)) }

  ghost predicate RowSafeAt(e: Expr, path: seq<nat>) {
    At(e, path).Some? ==> IsRowSafe(At(e, path).value)
  }

  ghost predicate AllRowSafe(e: Expr) {
    forall path :: RowSafeAt(e, path)
  }

  lemma ChildIsRowSafe(e: Expr, i: nat)
    requires AllRowSafe(e) && i < |Children(e)|
    ensures AllRowSafe(Children(e)[i])
  {
    forall path ensures RowSafeAt(Children(e)[i], path) {
      assert ([i] + path)[1..] == path;
      assert RowSafeAt(e, [i] + path);
    }
  }

  lemma RootIsRowSafe(e: Expr)
    requires AllRowSafe(e)
    ensures IsRowSafe(e)
  {
    assert RowSafeAt(e, []);
  }

  /** What is not safe all through is unsafe at the root or in a child. */
  lemma UnsafeChild(e: Expr) returns (i: nat)
    requires !AllRowSafe(e) && IsRowSafe(e)
    ensures i < |Children(e)| && !AllRowSafe(Children(e)[i])
  {
    var path :| !RowSafeAt(e, path);
    i := path[0];
    assert !RowSafeAt(Children(e)[i], path[1..]);
  }

  /** The same operators, whatever lies beyond. */
  ghost predicate SameOperators(s: Sem, t: Sem) { s.apply == t.apply && s.keyword == t.keyword && s.param == t.param }

  lemma {:induction false} RowSafeAgrees(s: Sem, t: Sem, e: Expr, a: Row, b: Row)
    requires AllRowSafe(e) && Agree(a, b) && SameOperators(s, t)
    ensures Eval(s, e, a) == Eval(t, e, b)
  {
    RootIsRowSafe(e);
    if !IsLeaf(e) {
      forall i: nat | i < |Children(e)| ensures EvalChildren(s, e, a)[i] == EvalChildren(t, e, b)[i] {
        ChildIsRowSafe(e, i);
        RowSafeAgrees(s, t, Children(e)[i], a, b);
      }
      assert EvalChildren(s, e, a) == EvalChildren(t, e, b);
      EvalNode(s, e, a);
      EvalNode(t, e, b);
    }
  }

  /** The meaning that keeps operands apart, and reads `column` beyond. */
  function Free(column: string): Sem {
    Sem((kind, op, parts) => Many(parts), k => Null, i => Null, (e: Expr, values: seq<Value>, row: Row) => row(column))
  }

  /** `column` tells rows apart through this expression. */
  ghost predicate Tells(e: Expr, column: string) {
    forall a: Row, b: Row :: a(column) != b(column) ==> Eval(Free(column), e, a) != Eval(Free(column), e, b)
  }

  lemma ChildTells(e: Expr, i: nat, column: string)
    requires !IsLeaf(e) && !ReadsBeyond(e) && i < |Children(e)| && Tells(Children(e)[i], column)
    ensures Tells(e, column)
  {
    forall a: Row, b: Row | a(column) != b(column) ensures Eval(Free(column), e, a) != Eval(Free(column), e, b) {
      EvalNode(Free(column), e, a);
      EvalNode(Free(column), e, b);
      assert EvalChildren(Free(column), e, a)[i] != EvalChildren(Free(column), e, b)[i];
    }
  }

  lemma RootTells(e: Expr) returns (column: string)
    requires !IsRowSafe(e)
    ensures !IsColumn(column) && Tells(e, column)
  {
    column := if e.Ref? then e.name else "*";
    assert ToLower("*") == "*";
    StarIsNoColumn("*");
    if e.Call? {
      forall a: Row, b: Row | a(column) != b(column)
        ensures Eval(Free(column), e, a) != Eval(Free(column), e, b)
      {
        EvalNode(Free(column), e, a);
        EvalNode(Free(column), e, b);
      }
    }
  }

  /** An unsafe expression tells rows apart that differ in some column that is not allowed. */
  lemma {:induction false} UnsafeColumn(e: Expr) returns (column: string)
    requires !AllRowSafe(e)
    ensures !IsColumn(column) && Tells(e, column)
  {
    if IsRowSafe(e) {
      var i := UnsafeChild(e);
      column := UnsafeColumn(Children(e)[i]);
      ChildTells(e, i, column);
    } else {
      column := RootTells(e);
    }
  }

  /** An expression depends on allowed columns only, if and only if all its nodes, clauses included, are row safe. */
  lemma NonInterferingIffRowSafe(e: Expr)
    ensures NonInterfering(e) <==> AllRowSafe(e)
  {
    if AllRowSafe(e) {
      forall sem, a, b | Agree(a, b) ensures Eval(sem, e, a) == Eval(sem, e, b) {
        RowSafeAgrees(sem, sem, e, a, b);
      }
    } else {
      var column := UnsafeColumn(e);
      var a: Row, b: Row := (c: string) => Null, (c: string) => if c == column then Bool(true) else Null;
      assert Agree(a, b) && a(column) != b(column);
    }
  }

  /** Every way into what the walker leaves alone leads to row-safe nodes only. */
  ghost predicate ClausesRowSafe(e: Expr) {
    forall path :: !StaysVisited(e, path) ==> RowSafeAt(e, path)
  }

  /** An accepted expression depends on allowed columns only, if and only if the clauses of its calls do. */
  lemma AcceptedIsNonInterferingIff(e: Expr)
    requires Walk(e) == []
    ensures NonInterfering(e) <==> ClausesRowSafe(e)
  {
    NoReasonsIffAllAllowed(e);
    NonInterferingIffRowSafe(e);
    if ClausesRowSafe(e) {
      forall path ensures RowSafeAt(e, path) {
        if StaysVisited(e, path) { assert AllowedAt(e, path); }
      }
    }
  }

  ghost predicate HasNoClauses(e: Expr) {
    forall path :: At(e, path).Some? ==> Unvisited(At(e, path).value) == []
  }

  lemma {:induction false} AllPathsVisited(e: Expr, path: seq<nat>)
    requires HasNoClauses(e) && At(e, path).Some?
    ensures StaysVisited(e, path)
  {
    assert At(e, []).Some?;
    if path != [] {
      var c := Children(e)[path[0]];
      forall p | At(c, p).Some? ensures Unvisited(At(c, p).value) == [] {
        assert ([path[0]] + p)[1..] == p;
        assert At(e, [path[0]] + p) == At(c, p);
      }
      AllPathsVisited(c, path[1..]);
    }
  }

  /** Without such clauses, acceptance is enough. */
  lemma AcceptedPlainIsNonInterfering(e: Expr)
    requires Walk(e) == [] && HasNoClauses(e)
    ensures NonInterfering(e)
  {
    AcceptedIsNonInterferingIff(e);
    forall path | !StaysVisited(e, path) ensures RowSafeAt(e, path) {
      if At(e, path).Some? { AllPathsVisited(e, path); }
    }
  }

  /** An accepted call stays accepted with any clause added, and depends on what the clause reads. */
  lemma ClauseIsNotWalked(f: string, args: seq<Expr>, clause: Expr)
    requires Walk(Call(f, args, [])) == [] && !AllRowSafe(clause)
    ensures var e := Call(f, args, [clause]); Walk(e) == [] && !NonInterfering(e)
  {
    var plain, e := Call(f, args, []), Call(f, args, [clause]);
    assert Visited(e) == Visited(plain) && IsAllowed(e) == IsAllowed(plain);
    WalkEmptyIff(plain);
    WalkEmptyIff(e);
    ClauseNode(f, args, clause);
    if AllRowSafe(e) {
      ChildIsRowSafe(e, |args|);
    }
    NonInterferingIffRowSafe(e);
  }

  lemma ClauseNode(f: string, args: seq<Expr>, clause: Expr)
    ensures var e := Call(f, args, [clause]); |args| < |Children(e)| && Children(e)[|args|] == clause
  {
  }
}
