/** The walk and the meaning of conditions, constructor by constructor. */
module PredicateNodes {
  import opened JsString
  import opened Predicates

  /** `x` stands directly in `e`, clauses of calls and parts of other nodes left aside. */
  predicate StandsIn(x: Expr, e: Expr) {
    match e
    case Ref(_) => false
    case Literal(_) => false
    case Param(_) => false
    case Keyword(_) => false
    case Binary(_, left, right) => x == left || x == right
    case Unary(_, operand) => x == operand
    case Ternary(_, subject, lo, hi) => x == subject || x == lo || x == hi
    case List(items) => x in items
    case Array(items) => x in items
    case Cast(_, operand) => x == operand
    case Call(_, args, clauses) => x in args
    case Select(_, _) => false
    case Other(_, parts) => false
  }

  /** `x` is `e` or stands somewhere in it. */
  ghost predicate Within(x: Expr, e: Expr) {
    x == e || exists y :: StandsIn(y, e) && Within(x, y)
  }

  /** What the walker is to say of a node by itself. */
  predicate IsReported(e: Expr, r: Reason) {
    match e
    case Ref(name) =>
      (name == "*" && r == Wildcard) || (name != "*" && ToLower(name) !in COLUMNS && r == Column(ToLower(name)))
    case Literal(_) => false
    case Param(_) => false
    case Keyword(k) => ToLower(k) !in KEYWORDS && r == BadKeyword(ToLower(k))
    case Binary(_, _, _) => false
    case Unary(_, _) => false
    case Ternary(_, _, _, _) => false
    case List(_) => false
    case Array(_) => false
    case Cast(_, _) => false
    case Call(f, _, _) => ToLower(f) !in FUNCTIONS && r == BadFunction(ToLower(f))
    case Select(kind, _) => r == if kind == "select" then Subquery else Unsupported(kind)
    case Other(kind, _) => r == Unsupported(kind)
  }

  lemma StandsInIffVisited(x: Expr, e: Expr)
    ensures StandsIn(x, e) <==> x in Visited(e)
  {
  }

  lemma OneStar(name: string)
    ensures ToLower(name) == "*" <==> name == "*"
  {
    if ToLower(name) == "*" { assert |name| == 1 && Lower(name[0]) == '*'; }
  }

  lemma OwnIffReported(e: Expr, r: Reason)
    ensures r in Own(e) <==> IsReported(e, r)
  {
    if e.Ref? { OneStar(e.name); }
  }

  lemma {:induction false} InConcat<T>(r: T, parts: seq<seq<T>>)
    ensures r in Concat(parts) <==> exists i :: 0 <= i < |parts| && r in parts[i]
  {
    if parts != [] {
      InConcat(r, parts[1..]);
      assert forall i :: 1 <= i < |parts| ==> parts[i] == parts[1..][i - 1];
    }
  }

  /** A node is within if it is the root, or within one of what stands in it. */
  lemma {:induction false} ReportedFromWithin(e: Expr, x: Expr, r: Reason)
    requires Within(x, e) && IsReported(x, r)
    ensures r in Walk(e)
  {
    WalkIsSum(e);
    if x == e {
      OwnIffReported(e, r);
    } else {
      var y :| StandsIn(y, e) && Within(x, y);
      StandsInIffVisited(y, e);
      var i :| 0 <= i < |Visited(e)| && Visited(e)[i] == y;
      ReportedFromWithin(y, x, r);
      assert r in WalkedParts(e)[i];
      InConcat(r, WalkedParts(e));
    }
  }

  lemma {:induction false} ReportedIsWithin(e: Expr, r: Reason) returns (x: Expr)
    requires r in Walk(e)
    ensures Within(x, e) && IsReported(x, r)
  {
    WalkIsSum(e);
    if r in Own(e) {
      OwnIffReported(e, r);
      x := e;
    } else {
      InConcat(r, WalkedParts(e));
      var i :| 0 <= i < |WalkedParts(e)| && r in WalkedParts(e)[i];
      x := ReportedIsWithin(Visited(e)[i], r);
      StandsInIffVisited(Visited(e)[i], e);
    }
  }

  /** A reason is given, if and only if some node in the condition is to be reported for it. */
  lemma ReportedIff(e: Expr, r: Reason)
    ensures r in Walk(e) <==> exists x :: Within(x, e) && IsReported(x, r)
  {
    if r in Walk(e) { var x := ReportedIsWithin(e, r); }
    if x :| Within(x, e) && IsReported(x, r) { ReportedFromWithin(e, x, r); }
  }

  /** No reason is given, if and only if no node in the condition is to be reported. */
  lemma NothingReportedIff(e: Expr)
    ensures Walk(e) == [] <==> forall x, r :: Within(x, e) ==> !IsReported(x, r)
  {
    forall x, r | Within(x, e) && IsReported(x, r) ensures Walk(e) != [] { ReportedIff(e, r); }
    if Walk(e) != [] { ReportedIff(e, Walk(e)[0]); }
  }

  // ----- In which order, and with which operands -----

  function WalkAll(es: seq<Expr>): seq<Reason> {
    if es == [] then [] else Walk(es[0]) + WalkAll(es[1..])
  }

  function Walks(es: seq<Expr>): (r: seq<seq<Reason>>)
    ensures |r| == |es| && forall i :: 0 <= i < |r| ==> r[i] == Walk(es[i])
  {
    seq(|es|, i requires 0 <= i < |es| => Walk(es[i]))
  }

  lemma {:induction false} WalkAllIsSum(es: seq<Expr>)
    ensures WalkAll(es) == Concat(Walks(es))
  {
    if es != [] {
      WalkAllIsSum(es[1..]);
      assert Walks(es)[1..] == Walks(es[1..]);
    }
  }

  lemma WalkOfVisited(e: Expr)
    ensures Walk(e) == Own(e) + WalkAll(Visited(e))
  {
    WalkIsSum(e);
    WalkAllIsSum(Visited(e));
    assert WalkedParts(e) == Walks(Visited(e));
  }

  lemma {:induction false} WalkAllOf(es: seq<Expr>)
    ensures |es| == 1 ==> WalkAll(es) == Walk(es[0])
    ensures |es| == 2 ==> WalkAll(es) == Walk(es[0]) + Walk(es[1])
    ensures |es| == 3 ==> WalkAll(es) == Walk(es[0]) + Walk(es[1]) + Walk(es[2])
  {
    if |es| > 1 { WalkAllOf(es[1..]); }
  }

  /** The operands from left to right, and a call itself before its arguments. */
  predicate IsWalked(e: Expr, walk: seq<Reason>) {
    match e
    case Binary(_, left, right) => walk == Walk(left) + Walk(right)
    case Unary(_, operand) => walk == Walk(operand)
    case Ternary(_, subject, lo, hi) => walk == Walk(subject) + Walk(lo) + Walk(hi)
    case List(items) => walk == WalkAll(items)
    case Array(items) => walk == WalkAll(items)
    case Cast(_, operand) => walk == Walk(operand)
    case Call(f, args, _) =>
      walk == (if ToLower(f) in FUNCTIONS then [] else [BadFunction(ToLower(f))]) + WalkAll(args)
    case _ => |walk| <= 1
  }

  lemma WalkByNode(e: Expr)
    ensures IsWalked(e, Walk(e))
  {
    WalkOfVisited(e);
    WalkAllOf(Visited(e));
  }

  lemma EvalOfChildren(sem: Sem, e: Expr, row: Row)
    requires !IsLeaf(e)
    ensures Eval(sem, e, row)
            == if ReadsBeyond(e) then sem.beyond(e, EvalEach(sem, Children(e), row), row)
               else sem.apply(Head(e).0, Head(e).1, EvalEach(sem, Children(e), row))
  {
    EvalNode(sem, e, row);
    assert EvalChildren(sem, e, row) == EvalEach(sem, Children(e), row);
  }

  /** An operator gets the values of all that stands in it, in order, and under its own kind and name. */
  ghost predicate IsMeant(sem: Sem, e: Expr, row: Row, v: Value) {
    match e
    case Ref(name) => v == row(name)
    case Literal(value) => v == value
    case Param(i) => v == sem.param(i)
    case Keyword(k) => v == sem.keyword(k)
    case Binary(op, left, right) => v == sem.apply("binary", op, EvalEach(sem, [left, right], row))
    case Unary(op, operand) => v == sem.apply("unary", op, EvalEach(sem, [operand], row))
    case Ternary(op, subject, lo, hi) => v == sem.apply("ternary", op, EvalEach(sem, [subject, lo, hi], row))
    case List(items) => v == sem.apply("list", "", EvalEach(sem, items, row))
    case Array(items) => v == sem.apply("array", "", EvalEach(sem, items, row))
    case Cast(to, operand) => v == sem.apply("cast", to, EvalEach(sem, [operand], row))
    case Call(f, args, clauses) =>
      var vs := EvalEach(sem, args + clauses, row);
      v == if ToLower(f) in FUNCTIONS then sem.apply("call", f, vs) else sem.beyond(e, vs, row)
    case Select(_, _) => v == sem.beyond(e, [], row)
    case Other(kind, parts) => v == sem.apply("other", kind, EvalEach(sem, parts, row))
  }

  lemma MeaningByNode(sem: Sem, e: Expr, row: Row)
    ensures IsMeant(sem, e, row, Eval(sem, e, row))
  {
    if !IsLeaf(e) {
      EvalOfChildren(sem, e, row);
      ChildrenByNode(e);
    }
  }

  predicate AreChildren(e: Expr, cs: seq<Expr>) {
    match e
    case Binary(_, left, right) => cs == [left, right]
    case Unary(_, operand) => cs == [operand]
    case Ternary(_, subject, lo, hi) => cs == [subject, lo, hi]
    case List(items) => cs == items
    case Array(items) => cs == items
    case Cast(_, operand) => cs == [operand]
    case Call(_, args, clauses) => cs == args + clauses
    case Other(_, parts) => cs == parts
    case _ => cs == []
  }

  lemma ChildrenByNode(e: Expr)
    ensures AreChildren(e, Children(e))
  {
  }
}
