/** Validation of one predicate: the fixed envelope, the parse, the walk. */
module PredicateValidator {
  import opened Wrappers
  import opened JsString
  import opened Predicates
  import opened PredicateNodes
  import opened QueryAnswers
  import opened EnvelopeScope
  import QueryProbes

  datatype From = Table(schema: string, name: string) | OtherSource

  datatype Statement =
    | SelectFrom(
        from: seq<From>, columns: seq<Expr>, where_: Option<Expr>, groupBy: seq<Expr>, having: Option<Expr>,
        orderBy: seq<Expr>, limit: Option<Expr>, offset: Option<Expr>)
    | OtherStatement

  datatype Parsed = ParseError(message: string) | Statements(list: seq<Statement>)

  datatype Problem =
    | EmptyPredicate
    | CannotParse(message: string)
    | NotOneExpression
    | NotTheView
    | OtherRelation
    | Projection
    | NoWhere
    | InTree(reason: Reason)

  datatype Validation = Validation(ok: bool, reasons: seq<Problem>, sql: string)

  /** The array of reasons that the checks push into. */
  class Reasons {
    var items: seq<Problem>

    constructor ()
      ensures items == []
    {
      items := [];
    }
  }

  function Envelope(condition: string, limit: string): string {
    "select contact_id from audience.contacts_safe where tenant_id = $1 and (" + condition + ") limit " + limit
  }

  function Relation(t: From): string
    requires t.Table?
  {
    (if t.schema != "" then t.schema + "." else "") + t.name
  }

  /** The table is the contacts view by its full name, or named contacts_safe in any schema. */
  predicate IsView(t: From) {
    t.Table? && (Relation(t) == "audience.contacts_safe" || t.name == "contacts_safe")
  }

  predicate OnlyContactId(columns: seq<Expr>) { |columns| == 1 && columns[0] == Ref("contact_id") }

  function EnvelopeProblems(stmt: Statement): seq<Problem>
    requires stmt.SelectFrom?
  {
    (if |stmt.from| != 1 || !stmt.from[0].Table? then [NotTheView]
     else if !IsView(stmt.from[0]) then [OtherRelation]
     else [])
    + (if OnlyContactId(stmt.columns) then [] else [Projection])
  }

  function Tagged(rs: seq<Reason>): (r: seq<Problem>)
    ensures |r| == |rs| && forall i :: 0 <= i < |r| ==> r[i] == InTree(rs[i])
  {
    seq(|rs|, i requires 0 <= i < |rs| => InTree(rs[i]))
  }

  function Problems(stmt: Statement): seq<Problem>
    requires stmt.SelectFrom?
  {
    EnvelopeProblems(stmt) + (if stmt.where_.Some? then Tagged(Walk(stmt.where_.value)) else [NoWhere])
  }

  method ValidateEnvelope(stmt: Statement, reasons: Reasons)
    requires stmt.SelectFrom?
    modifies reasons
    ensures reasons.items == old(reasons.items) + EnvelopeProblems(stmt)
  {
    if |stmt.from| != 1 || !stmt.from[0].Table? {
      reasons.items := reasons.items + [NotTheView];
    } else if Relation(stmt.from[0]) != "audience.contacts_safe" && stmt.from[0].name != "contacts_safe" {
      reasons.items := reasons.items + [OtherRelation];
    }
    if !(|stmt.columns| == 1 && stmt.columns[0] == Ref("contact_id")) {
      reasons.items := reasons.items + [Projection];
    }
  }

  /** Pushes what the node is reported for, and then what its children are. */
  method WalkExpr(node: Expr, reasons: Reasons)
    modifies reasons
    ensures reasons.items == old(reasons.items) + Tagged(Walk(node))
    decreases node
  {
    ghost var before := reasons.items;
    ghost var own, parts := Own(node), WalkedParts(node);
    reasons.items := reasons.items + Tagged(Own(node));
    var vs := Visited(node);
    for i := 0 to |vs|
      invariant reasons.items == before + Tagged(own + Concat(parts[..i]))
    {
      WalkExpr(vs[i], reasons);
      ConcatSnoc(parts, i);
      TaggedSum(before, own, Concat(parts[..i]), parts[i]);
    }
    assert parts[..|vs|] == parts;
    WalkIsSum(node);
  }

  lemma TaggedSum(before: seq<Problem>, a: seq<Reason>, b: seq<Reason>, c: seq<Reason>)
    ensures before + Tagged(a + (b + c)) == before + Tagged(a + b) + Tagged(c)
  {
  }

  lemma {:induction false} ConcatSnoc<T>(parts: seq<seq<T>>, i: nat)
    requires i < |parts|
    ensures Concat(parts[..i + 1]) == Concat(parts[..i]) + parts[i]
  {
    if i > 0 {
      ConcatSnoc(parts[1..], i - 1);
      assert parts[..i + 1][1..] == parts[1..][..i] && parts[..i][1..] == parts[1..][..i - 1];
    } else {
      assert parts[..1] == [parts[0]] && parts[..1][1..] == [];
    }
  }

  /** A Set of the reasons: each once, where it first stands. */
  function Dedupe(ps: seq<Problem>): seq<Problem> {
    if ps == [] then []
    else
      var front, last := Dedupe(ps[..|ps| - 1]), ps[|ps| - 1];
      if last in front then front else front + [last]
  }

  lemma {:induction false} DedupeKeeps(ps: seq<Problem>)
    ensures NoDup(Dedupe(ps)) && forall p :: p in Dedupe(ps) <==> p in ps
  {
    if ps != [] {
      DedupeKeeps(ps[..|ps| - 1]);
      assert ps == ps[..|ps| - 1] + [ps[|ps| - 1]];
    }
  }

  method Validate(parse: string -> Parsed, condition: string, limit: string) returns (r: Validation)
    ensures r == Verdict(parse, condition, limit)
  {
    var trimmed := Trim(condition);
    if trimmed == "" { return Validation(false, [EmptyPredicate], ""); }
    var sql := Envelope(trimmed, limit);
    var statements := parse(sql);
    if statements.ParseError? { return Validation(false, [CannotParse(statements.message)], ""); }
    if |statements.list| != 1 { return Validation(false, [NotOneExpression], ""); }
    var stmt := statements.list[0];
    if !stmt.SelectFrom? { return Validation(false, [NotOneExpression], ""); }
    var reasons := AllReasons(stmt);
    r := if |reasons| > 0 then Validation(false, Dedupe(reasons), "") else Validation(true, [], sql);
  }

  method AllReasons(stmt: Statement) returns (items: seq<Problem>)
    requires stmt.SelectFrom?
    ensures items == Problems(stmt)
  {
    var reasons := new Reasons();
    ValidateEnvelope(stmt, reasons);
    if stmt.where_.Some? {
      WalkExpr(stmt.where_.value, reasons);
    } else {
      reasons.items := reasons.items + [NoWhere];
    }
    items := reasons.items;
  }

  function Verdict(parse: string -> Parsed, condition: string, limit: string): Validation {
    if Trim(condition) == "" then Validation(false, [EmptyPredicate], "")
    else
      var sql := Envelope(Trim(condition), limit);
      match parse(sql)
      case ParseError(m) => Validation(false, [CannotParse(m)], "")
      case Statements(list) =>
        if |list| != 1 || !list[0].SelectFrom? then Validation(false, [NotOneExpression], "")
        else
          var ps := Problems(list[0]);
          if |ps| > 0 then Validation(false, Dedupe(ps), "") else Validation(true, [], sql)
  }

  predicate ParsesToOne(parse: string -> Parsed, sql: string) { parse(sql).Statements? && |parse(sql).list| == 1 }

  /** One SELECT of contact_id from the view, with a condition in which every walked node is allowed. */
  ghost predicate IsClean(stmt: Statement) {
    && stmt.SelectFrom? && |stmt.from| == 1 && IsView(stmt.from[0]) && OnlyContactId(stmt.columns)
    && stmt.where_.Some? && AllVisitedAllowed(stmt.where_.value)
  }

  /**
   * A predicate passes if and only if its envelope parses to one clean SELECT; then the query
   * is the envelope around the trimmed predicate, and otherwise there is no query and every reason is given once.
   */
  lemma PassesIffClean(parse: string -> Parsed, condition: string, limit: string)
    ensures var r, sql := Verdict(parse, condition, limit), Envelope(Trim(condition), limit);
            && (r.ok <==> Trim(condition) != "" && ParsesToOne(parse, sql) && IsClean(parse(sql).list[0]))
            && (r.ok ==> r.sql == sql && r.reasons == [])
            && (!r.ok ==> r.sql == "" && r.reasons != [] && NoDup(r.reasons))
  {
    var sql := Envelope(Trim(condition), limit);
    if parse(sql).Statements? && |parse(sql).list| == 1 && parse(sql).list[0].SelectFrom? {
      var stmt := parse(sql).list[0];
      DedupeKeeps(Problems(stmt));
      CleanIffNoProblems(stmt);
      if Problems(stmt) != [] { assert Problems(stmt)[0] in Dedupe(Problems(stmt)); }
    }
  }

  lemma CleanIffNoProblems(stmt: Statement)
    requires stmt.SelectFrom?
    ensures Problems(stmt) == [] <==> IsClean(stmt)
  {
    if stmt.where_.Some? { NoReasonsIffAllAllowed(stmt.where_.value); }
    var tail := if stmt.where_.Some? then Tagged(Walk(stmt.where_.value)) else [NoWhere];
    assert |Problems(stmt)| == |EnvelopeProblems(stmt)| + |tail|;
  }

  /**
   * Of one SELECT, the verdict names exactly the nodes of its condition that are to be reported, and it
   * passes if and only if there are none, the table is the view and the projection is the contact id.
   */
  lemma VerdictNamesReported(parse: string -> Parsed, condition: string, limit: string, r: Reason)
    requires Trim(condition) != "" && ParsesToOne(parse, Envelope(Trim(condition), limit))
    requires var stmt := parse(Envelope(Trim(condition), limit)).list[0];
             stmt.SelectFrom? && stmt.where_.Some?
    ensures var verdict, stmt := Verdict(parse, condition, limit), parse(Envelope(Trim(condition), limit)).list[0];
            var e := stmt.where_.value;
            && (InTree(r) in verdict.reasons <==> exists x :: Within(x, e) && IsReported(x, r))
            && (verdict.ok <==> EnvelopeProblems(stmt) == [] && forall x, s :: Within(x, e) ==> !IsReported(x, s))
  {
    var stmt := parse(Envelope(Trim(condition), limit)).list[0];
    DedupeKeeps(Problems(stmt));
    TreeReasons(stmt, r);
    ReportedIff(stmt.where_.value, r);
    NothingReportedIff(stmt.where_.value);
  }

  lemma TreeReasons(stmt: Statement, r: Reason)
    requires stmt.SelectFrom? && stmt.where_.Some?
    ensures InTree(r) in Problems(stmt) <==> r in Walk(stmt.where_.value)
    ensures Problems(stmt) == [] <==> EnvelopeProblems(stmt) == [] && Walk(stmt.where_.value) == []
  {
    var rs := Walk(stmt.where_.value);
    assert |Problems(stmt)| == |EnvelopeProblems(stmt)| + |rs|;
    if r in rs {
      var i :| 0 <= i < |rs| && rs[i] == r;
      assert Tagged(rs)[i] == InTree(r);
    }
  }

  /** A table named contacts_safe in whatever schema, or one whose whole name is the view's. */
  predicate IsNamedView(t: From) {
    match t
    case Table(schema, name) =>
      || name == "contacts_safe"
      || (schema == "" && name == "audience.contacts_safe")
      || (schema != "" && schema + "." + name == "audience.contacts_safe")
    case OtherSource => false
  }

  lemma NamedViewIs(t: From)
    ensures IsView(t) <==> IsNamedView(t)
  {
    if t.Table? && t.schema == "" { assert "" + t.name == t.name; }
  }

  lemma InDedupe(ps: seq<Problem>, p: Problem)
    ensures p in Dedupe(ps) <==> p in ps
  {
    DedupeKeeps(ps);
  }

  /** Which of the envelope's own problems the verdict on one SELECT names. */
  lemma VerdictNamesEnvelope(parse: string -> Parsed, condition: string, limit: string)
    requires Trim(condition) != "" && ParsesToOne(parse, Envelope(Trim(condition), limit))
    requires parse(Envelope(Trim(condition), limit)).list[0].SelectFrom?
    ensures var reasons := Verdict(parse, condition, limit).reasons;
            var stmt := parse(Envelope(Trim(condition), limit)).list[0];
            && (NotTheView in reasons <==> |stmt.from| != 1 || stmt.from[0] == OtherSource)
            && (OtherRelation in reasons <==>
                  |stmt.from| == 1 && stmt.from[0] != OtherSource && !IsNamedView(stmt.from[0]))
            && (Projection in reasons <==> stmt.columns != [Ref("contact_id")])
            && (NoWhere in reasons <==> stmt.where_ == None)
  {
    var stmt := parse(Envelope(Trim(condition), limit)).list[0];
    if |stmt.from| == 1 { NamedViewIs(stmt.from[0]); }
    InDedupe(Problems(stmt), NotTheView);
    InDedupe(Problems(stmt), OtherRelation);
    InDedupe(Problems(stmt), Projection);
    InDedupe(Problems(stmt), NoWhere);
    EnvelopeProblemsAre(stmt);
  }

  lemma EnvelopeProblemsAre(stmt: Statement)
    requires stmt.SelectFrom?
    ensures NotTheView in Problems(stmt) <==> |stmt.from| != 1 || !stmt.from[0].Table?
    ensures OtherRelation in Problems(stmt) <==> |stmt.from| == 1 && stmt.from[0].Table? && !IsView(stmt.from[0])
    ensures Projection in Problems(stmt) <==> stmt.columns != [Ref("contact_id")]
    ensures NoWhere in Problems(stmt) <==> stmt.where_ == None
  {
    assert OnlyContactId(stmt.columns) <==> stmt.columns == [Ref("contact_id")];
  }

  const START := "select contact_id from audience.contacts_safe where tenant_id = $1 and ("

  /** What does not even come to a SELECT has that as its one reason; what passes is run in the envelope. */
  lemma VerdictBefore(parse: string -> Parsed, condition: string, limit: string)
    ensures var verdict, text := Verdict(parse, condition, limit), START + Trim(condition) + ") limit " + limit;
            && (Trim(condition) == "" ==> verdict.reasons == [EmptyPredicate])
            && (Trim(condition) != "" && parse(text).ParseError? ==>
                  verdict.reasons == [CannotParse(parse(text).message)])
            && (Trim(condition) != "" && parse(text).Statements? && !IsOneSelect(parse(text).list) ==>
                  verdict.reasons == [NotOneExpression])
            && (verdict.ok ==> verdict.sql == text)
  {
    assert Envelope(Trim(condition), limit) == START + Trim(condition) + ") limit " + limit;
  }

  predicate IsOneSelect(list: seq<Statement>) { |list| == 1 && list[0].SelectFrom? }

  /** A reason stands in front of another, if it first came in front of it. */
  lemma {:induction false} DedupeInOrder(ps: seq<Problem>, i: nat, j: nat)
    requires i < j < |ps| && ps[i] !in ps[..i] && ps[j] !in ps[..j]
    ensures exists a, b :: 0 <= a < b < |Dedupe(ps)| && Dedupe(ps)[a] == ps[i] && Dedupe(ps)[b] == ps[j]
  {
    var front, last := ps[..|ps| - 1], ps[|ps| - 1];
    assert front[..i] == ps[..i];
    if j < |front| {
      assert front[..j] == ps[..j];
      DedupeInOrder(front, i, j);
      var a, b :| 0 <= a < b < |Dedupe(front)| && Dedupe(front)[a] == ps[i] && Dedupe(front)[b] == ps[j];
      assert Dedupe(ps)[a] == ps[i] && Dedupe(ps)[b] == ps[j];
    } else {
      assert front == ps[..j];
      InDedupe(front, ps[i]);
      InDedupe(front, last);
      assert front[i] in front;
      var a :| 0 <= a < |Dedupe(front)| && Dedupe(front)[a] == ps[i];
      assert Dedupe(ps)[a] == ps[i] && Dedupe(ps)[|Dedupe(front)|] == ps[j];
    }
  }

  // ----- What acceptance leaves open -----

  function QueryOf(stmt: Statement): Query
    requires stmt.SelectFrom? && stmt.where_.Some?
  {
    Query(stmt.where_.value, stmt.groupBy, stmt.having, stmt.orderBy, stmt.limit, stmt.offset)
  }

  /** The query that passed, as its text parses. */
  function AcceptedQuery(parse: string -> Parsed, condition: string, limit: string): Query
    requires Verdict(parse, condition, limit).ok
  {
    PassesIffClean(parse, condition, limit);
    QueryOf(parse(Envelope(Trim(condition), limit)).list[0])
  }

  lemma AcceptedWalk(parse: string -> Parsed, condition: string, limit: string)
    requires Verdict(parse, condition, limit).ok
    ensures Walk(AcceptedQuery(parse, condition, limit).where_) == []
  {
    PassesIffClean(parse, condition, limit);
    NoReasonsIffAllAllowed(AcceptedQuery(parse, condition, limit).where_);
  }

  /** What stands behind the condition is never looked at. */
  lemma RestIsNotChecked(parse: string -> Parsed, other: string -> Parsed, condition: string, limit: string)
    requires var sql := Envelope(Trim(condition), limit);
             && ParsesToOne(parse, sql) && ParsesToOne(other, sql)
             && var a, b := parse(sql).list[0], other(sql).list[0];
             && a.SelectFrom? && b.SelectFrom?
             && a.from == b.from && a.columns == b.columns && a.where_ == b.where_
    ensures Verdict(parse, condition, limit) == Verdict(other, condition, limit)
  {
  }

  /** Every node, clauses included, is an allowed column, function or keyword. */
  ghost predicate NodesAllowed(e: Expr) {
    forall path :: AllowedAt(e, path)
  }

  lemma {:induction false} AllAreAllowed(e: Expr, path: seq<nat>)
    requires TreeAllowed(e) && Resolves(e)
    ensures AllowedAt(e, path)
  {
    if path != [] && path[0] < |Children(e)| {
      assert Unvisited(e) == [];
      assert Children(e)[path[0]] == Visited(e)[path[0]];
      AllAreAllowed(Visited(e)[path[0]], path[1..]);
      assert AllowedAt(e, path) == AllowedAt(Visited(e)[path[0]], path[1..]);
    }
  }

  lemma AllowedIsSafe(e: Expr)
    requires TreeAllowed(e) && Resolves(e)
    ensures NodesAllowed(e) && AllRowSafe(e)
  {
    forall path ensures AllowedAt(e, path) { AllAreAllowed(e, path); }
    forall path ensures RowSafeAt(e, path) { assert AllowedAt(e, path); }
  }

  /**
   * The condition of an accepted query that the database answers consists of listed columns, functions and
   * keywords all through, and so reads nothing beyond its row.
   */
  lemma AcceptedNodesAreAllowed(parse: string -> Parsed, condition: string, limit: string)
    requires Verdict(parse, condition, limit).ok && !Refused(AcceptedQuery(parse, condition, limit))
    ensures var e := AcceptedQuery(parse, condition, limit).where_; NodesAllowed(e) && AllRowSafe(e)
  {
    var e := AcceptedQuery(parse, condition, limit).where_;
    AcceptedWalk(parse, condition, limit);
    WalkEmptyIff(e);
    AllowedIsSafe(e);
  }

  /**
   * The answer of an accepted query depends on the view only, if and only if the database refuses the query,
   * or what decides beside the condition asks nothing beyond its row.
   */
  lemma AcceptedAnswerIff(parse: string -> Parsed, condition: string, limit: string)
    requires Verdict(parse, condition, limit).ok
    ensures var q := AcceptedQuery(parse, condition, limit);
            DependsOnViewOnly(q) <==> Refused(q) || RestSafe(q)
  {
    var q := AcceptedQuery(parse, condition, limit);
    if !Refused(q) { AcceptedNodesAreAllowed(parse, condition, limit); }
    QueryProbes.DependsOnViewOnlyIff(q);
  }

  /** It is the bound tenant's own, if and only if the condition is scoped as well, or can never hold. */
  lemma AcceptedTenantIff(parse: string -> Parsed, condition: string, limit: string)
    requires Verdict(parse, condition, limit).ok
    ensures var q := AcceptedQuery(parse, condition, limit);
            TenantIsolated(q) <==> Refused(q) || !CanHold(q.where_) || (IsScoped(q.where_) && RestSafe(q))
  {
    var q := AcceptedQuery(parse, condition, limit);
    if !Refused(q) {
      AcceptedNodesAreAllowed(parse, condition, limit);
      TenantIsolatedIff(q);
    }
  }

  /** The text passes, and its envelope parses to this query. */
  ghost predicate PassesAs(parse: string -> Parsed, condition: string, limit: string, q: Query) {
    Verdict(parse, condition, limit).ok && AcceptedQuery(parse, condition, limit) == q
  }

  lemma CleanPasses(parse: string -> Parsed, text: string, limit: string, stmt: Statement)
    requires IsTrimmed(text) && text != "" && parse(Envelope(text, limit)) == Statements([stmt])
    requires stmt.SelectFrom? && Problems(stmt) == []
    ensures PassesAs(parse, text, limit, QueryOf(stmt))
  {
    TrimmedStays(text);
    CleanIffNoProblems(stmt);
    PassesIffClean(parse, text, limit);
  }
}
