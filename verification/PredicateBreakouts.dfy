/** What becomes of predicates that stay inside their parentheses, and of some that do not. */
module PredicateBreakouts {
  import opened Wrappers
  import opened JsString
  import opened Predicates
  import opened QueryAnswers
  import opened QueryProbes
  import opened EnvelopeScope
  import opened PredicateValidator

  const TRUE := Literal(Bool(true))

  function Scoped(e: Expr): Expr { Binary("AND", TENANT_EQUALITY, e) }

  /** The envelope with a condition, an order and a limit of its own. */
  function Enveloped(condition: Expr, orderBy: seq<Expr>, limit: Option<Expr>): Statement {
    SelectFrom([Table("audience", "contacts_safe")], [ID], Some(condition), [], None, orderBy, limit, None)
  }

  /** The query of that statement. */
  function Asked(condition: Expr, orderBy: seq<Expr>, limit: Option<Expr>): Query {
    Query(condition, [], None, orderBy, limit, None)
  }

  /** The LIMIT of `n` rows. */
  function OfRows(n: nat): Option<Expr> { Some(Literal(Number(n as real))) }

  predicate IsConstant(limit: Option<Expr>) { limit.Some? ==> limit.value.Literal? }

  // ----- Staying inside -----

  lemma LiteralIsSafe(v: Scalar)
    ensures AllRowSafe(Literal(v))
  {
    forall path ensures RowSafeAt(Literal(v), path) {}
  }

  lemma PlainRestIsSafe(e: Expr, n: nat)
    ensures var q := Asked(e, [], OfRows(n)); RestSafe(q)
  {
    LiteralIsSafe(Number(n as real));
  }

  lemma PlainIsCapped(e: Expr, n: nat, takes: Value -> Option<nat>)
    requires ReadsNumbers(takes)
    ensures Capped(takes, Asked(Scoped(e), [], OfRows(n)), n)
  {
    assert takes(Number(n as real)) == Some(n);
    CappedIffLimited(takes, Asked(Scoped(e), [], OfRows(n)), n);
  }

  lemma ScopedIsScoped(e: Expr)
    ensures IsScoped(Scoped(e))
  {
  }

  /** An accepted predicate that stays inside its parentheses keeps all that the envelope promises. */
  lemma InsideKeepsPromises(
    parse: string -> Parsed, condition: string, limit: string, e: Expr, n: nat, takes: Value -> Option<nat>)
    requires PassesAs(parse, condition, limit, Asked(Scoped(e), [], OfRows(n))) && ReadsNumbers(takes)
    ensures var q := AcceptedQuery(parse, condition, limit);
            DependsOnViewOnly(q) && TenantIsolated(q) && Capped(takes, q, n)
  {
    PlainRestIsSafe(e, n);
    PlainIsCapped(e, n, takes);
    ScopedIsScoped(e);
    AcceptedAnswerIff(parse, condition, limit);
    AcceptedTenantIff(parse, condition, limit);
  }

  // ----- The condition TRUE with something behind it -----

  lemma TrueIsAllowed()
    ensures Walk(TRUE) == [] && Walk(Scoped(TRUE)) == [] && TreeAllowed(Scoped(TRUE))
  {
    ColumnsAreColumns("tenant_id");
    LeafWalk(TRUE);
    LeafWalk(TENANT);
    LeafWalk(BOUND);
    BinaryWalk("=", TENANT, BOUND);
    BinaryWalk("AND", TENANT_EQUALITY, TRUE);
    WalkEmptyIff(Scoped(TRUE));
  }

  lemma BinaryResolves(op: string, left: Expr, right: Expr)
    requires Resolves(left) && Resolves(right)
    ensures Resolves(Binary(op, left, right))
  {
    assert Visited(Binary(op, left, right)) == [left, right];
  }

  lemma TrueResolves()
    ensures Resolves(Scoped(TRUE))
  {
    assert COLUMNS[1] == "tenant_id";
    BinaryResolves("=", TENANT, BOUND);
    BinaryResolves("AND", TENANT_EQUALITY, TRUE);
  }

  lemma TrueIsSafe()
    ensures AllRowSafe(Scoped(TRUE))
  {
    TrueIsAllowed();
    TrueResolves();
    AllowedIsSafe(Scoped(TRUE));
  }

  lemma TrueIsAnswered(order: seq<Expr>, limit: Option<Expr>)
    requires AllResolve(order) && IsConstant(limit)
    ensures !Refused(Asked(Scoped(TRUE), order, limit))
  {
    TrueResolves();
    if limit.Some? {
      forall path ensures NoColumnAt(limit.value, path) {}
    }
  }

  lemma EnvelopedIsClean(condition: Expr, order: seq<Expr>, limit: Option<Expr>)
    requires Walk(condition) == []
    ensures var stmt := Enveloped(condition, order, limit);
            Problems(stmt) == [] && QueryOf(stmt) == Asked(condition, order, limit)
  {
    var t := Table("audience", "contacts_safe");
    assert IsView(t);
    assert EnvelopeProblems(Enveloped(condition, order, limit)) == [];
  }

  /** The text passes, whatever stands behind its condition. */
  lemma EnvelopedPasses(
    parse: string -> Parsed, text: string, limit: string, condition: Expr, order: seq<Expr>, taken: Option<Expr>)
    requires IsTrimmed(text) && text != "" && Walk(condition) == []
    requires parse(Envelope(text, limit)) == Statements([Enveloped(condition, order, taken)])
    ensures PassesAs(parse, text, limit, Asked(condition, order, taken))
  {
    EnvelopedIsClean(condition, order, taken);
    CleanPasses(parse, text, limit, Enveloped(condition, order, taken));
  }

  /** Asks beyond its row, and can be asked. */
  ghost predicate AsksBeyond(e: Expr) { Resolves(e) && !AllRowSafe(e) }

  lemma BeyondIsNoPosition(e: Expr)
    requires AsksBeyond(e)
    ensures Deciding([e]) == [e]
  {
    LiteralIsSafe(Number(1.0));
    if e == ID { LeafIsSafe(e); }
  }

  lemma BeyondIsUnsafe(e: Expr, limit: Option<Expr>)
    requires AsksBeyond(e)
    ensures !RestSafe(Asked(Scoped(TRUE), [e], limit))
  {
    BeyondIsNoPosition(e);
    assert Deciding([e])[0] == e;
  }

  lemma TrueCanHold()
    ensures CanHold(Scoped(TRUE))
  {
  }

  /** The answer of such a query hangs on what the world says, and not on the tenant's rows only. */
  lemma UnsafeTells(q: Query)
    requires !Refused(q) && q.where_ == Scoped(TRUE) && !RestSafe(q)
    ensures !DependsOnViewOnly(q) && !TenantIsolated(q)
  {
    TrueIsSafe();
    TrueCanHold();
    DependsOnViewOnlyIff(q);
    TenantIsolatedIff(q);
  }

  /** A predicate may bring any order that asks beyond: it is accepted, and its answer asks beyond too. */
  lemma OrderIsNotChecked(parse: string -> Parsed, text: string, limit: string, e: Expr, taken: Option<Expr>)
    requires IsTrimmed(text) && text != "" && IsConstant(taken) && AsksBeyond(e)
    requires parse(Envelope(text, limit)) == Statements([Enveloped(Scoped(TRUE), [e], taken)])
    ensures var q := Asked(Scoped(TRUE), [e], taken);
            PassesAs(parse, text, limit, q) && !Refused(q) && !DependsOnViewOnly(q) && !TenantIsolated(q)
  {
    TrueIsAllowed();
    EnvelopedPasses(parse, text, limit, Scoped(TRUE), [e], taken);
    TrueIsAnswered([e], taken);
    BeyondIsUnsafe(e, taken);
    UnsafeTells(Asked(Scoped(TRUE), [e], taken));
  }

  /** The predicate `true) order by (text`, whose parenthesis the envelope closes. */
  function OrderedBy(text: string): string { "true) order by (" + text }

  lemma OrderedByIsTrimmed(text: string)
    requires text != "" && !IsSpace(text[|text| - 1])
    ensures IsTrimmed(OrderedBy(text)) && OrderedBy(text) != ""
  {
    var front := "true) order by (";
    assert (front + text)[0] == front[0];
    assert (front + text)[|front + text| - 1] == text[|text| - 1];
  }

  lemma BeyondAsks(e: Expr)
    requires ReadsBeyond(e) && Resolves(e)
    ensures AsksBeyond(e)
  {
    assert !RowSafeAt(e, []);
  }

  /** How many tables of the catalog bear the name of the contact's state. */
  const CATALOG := Select("select", "select count(*) from pg_class where relname = state")

  const BY_CATALOG := OrderedBy("(" + CATALOG.text + ")")

  /** A predicate may order by a subquery on the catalog: it is answered, and the answer hangs on the catalog. */
  lemma OrderByIsNotChecked(parse: string -> Parsed, limit: string, n: nat)
    requires parse(Envelope(BY_CATALOG, limit)) == Statements([Enveloped(Scoped(TRUE), [CATALOG], OfRows(n))])
    ensures var q := Asked(Scoped(TRUE), [CATALOG], OfRows(n));
            PassesAs(parse, BY_CATALOG, limit, q) && !Refused(q) && !DependsOnViewOnly(q)
  {
    BeyondAsks(CATALOG);
    OrderedByIsTrimmed("(" + CATALOG.text + ")");
    OrderIsNotChecked(parse, BY_CATALOG, limit, CATALOG, OfRows(n));
  }

  /** How many contacts of the view, whoever's they are, live in the contact's postcode. */
  const NEIGHBOURS := Select(
    "select", "select count(*) from audience.contacts_safe other where other.postcode = contacts_safe.postcode")

  const BY_NEIGHBOURS := OrderedBy("(" + NEIGHBOURS.text + ")")

  lemma TrueKeepsTenant()
    ensures KeepsTenant(Scoped(TRUE))
  {
    ScopedIsScoped(TRUE);
    KeepsTenantIffScoped(Scoped(TRUE));
  }

  /** A predicate may order by what other tenants' rows tell: the rows are the tenant's own, their order is not. */
  lemma OrderByReadsOtherTenants(parse: string -> Parsed, limit: string, n: nat)
    requires parse(Envelope(BY_NEIGHBOURS, limit)) == Statements([Enveloped(Scoped(TRUE), [NEIGHBOURS], OfRows(n))])
    ensures var q := Asked(Scoped(TRUE), [NEIGHBOURS], OfRows(n));
            PassesAs(parse, BY_NEIGHBOURS, limit, q) && KeepsTenant(q.where_) && !TenantIsolated(q)
  {
    BeyondAsks(NEIGHBOURS);
    OrderedByIsTrimmed("(" + NEIGHBOURS.text + ")");
    OrderIsNotChecked(parse, BY_NEIGHBOURS, limit, NEIGHBOURS, OfRows(n));
    TrueKeepsTenant();
  }

  const RANDOM := Call("random", [], [])

  const BY_RANDOM := OrderedBy("random()")

  lemma RandomIsNotListed()
    ensures !IsFunction("random")
  {
    assert ToLower("random") == "random";
    forall i | 0 <= i < |FUNCTIONS| ensures |FUNCTIONS[i]| == 6 ==> FUNCTIONS[i][0] == 'l' {}
  }

  lemma RandomAsks()
    ensures AsksBeyond(RANDOM) && !NodesAllowed(RANDOM)
  {
    RandomIsNotListed();
    BeyondAsks(RANDOM);
    assert !AllowedAt(RANDOM, []);
  }

  /** A predicate may order by a function that is not listed. */
  lemma OrderByCallsAreNotChecked(parse: string -> Parsed, limit: string, n: nat)
    requires parse(Envelope(BY_RANDOM, limit)) == Statements([Enveloped(Scoped(TRUE), [RANDOM], OfRows(n))])
    ensures var q := Asked(Scoped(TRUE), [RANDOM], OfRows(n));
            PassesAs(parse, BY_RANDOM, limit, q) && !Refused(q) && !NodesAllowed(q.orderBy[0])
  {
    RandomAsks();
    OrderedByIsTrimmed("random()");
    OrderIsNotChecked(parse, BY_RANDOM, limit, RANDOM, OfRows(n));
  }

  const OR_TRUE := "true) or (true"

  const EITHER := Binary("OR", Scoped(TRUE), TRUE)

  lemma EitherIsAllowed()
    ensures Walk(EITHER) == []
  {
    TrueIsAllowed();
    BinaryWalk("OR", Scoped(TRUE), TRUE);
  }

  lemma EitherIsUnscoped()
    ensures !IsScoped(EITHER)
  {
    assert !IsScoped(EITHER.right);
  }

  /** A predicate may put the tenant equality on one side of an OR: it keeps other tenants' rows. */
  lemma OrIsNotChecked(parse: string -> Parsed, limit: string, n: nat)
    requires parse(Envelope(OR_TRUE, limit)) == Statements([Enveloped(EITHER, [], OfRows(n))])
    ensures var q := Asked(EITHER, [], OfRows(n));
            PassesAs(parse, OR_TRUE, limit, q) && !KeepsTenant(q.where_)
  {
    EitherIsAllowed();
    EnvelopedPasses(parse, OR_TRUE, limit, EITHER, [], OfRows(n));
    EitherIsUnscoped();
    KeepsTenantIffScoped(EITHER);
  }

  const COMMENT := "true) --"

  /** A predicate may comment the LIMIT out: then there is no cap at all. */
  lemma CommentDropsLimit(parse: string -> Parsed, limit: string, n: nat, takes: Value -> Option<nat>)
    requires parse(Envelope(COMMENT, limit)) == Statements([Enveloped(Scoped(TRUE), [], None)])
    requires ReadsNumbers(takes)
    ensures var q := Asked(Scoped(TRUE), [], None);
            PassesAs(parse, COMMENT, limit, q) && !Capped(takes, q, n)
  {
    TrueIsAllowed();
    EnvelopedPasses(parse, COMMENT, limit, Scoped(TRUE), [], None);
    TrueIsAnswered([], None);
    CappedIffLimited(takes, Asked(Scoped(TRUE), [], None), n);
  }
}
