/** Resolving a printed expression gives the expression's value. */
module TemplateMeaning {
  import opened Wrappers
  import opened JsString
  import opened TemplateResolve
  import opened TemplateSyntax
  import opened TemplateShape

  // ----- Which branch of the evaluator a text takes -----

  lemma NotFound(s: string)
    requires NoEquality(s)
    ensures FindEquality(s).None?
  {
    assert forall i: nat :: EqualityAt(s, i) ==> MarksAt(s, i);
  }

  lemma Wrapped(t: string)
    requires Closed(t)
    ensures IsWrapped("(" + t + ")")
  {
    var s := "(" + t + ")";
    assert s == ['('] + t + [')'];
    forall i: nat | i < |s| - 1 ensures !ClosesAt(s, i) {
      WrapLevels(Round, '(', t, ')', i + 1);
      assert NonNegAt(t, i);
    }
  }

  lemma ParenMeaning(env: Env, src: string, t: string)
    requires Closed(t) && Trim(src) == "(" + t + ")"
    ensures Resolve(env, src) == Resolve(env, t)
  {
    Wrapped(t);
    var s := "(" + t + ")";
    assert s[1..|s| - 1] == t;
  }

  /** A text that starts with a parenthesis closed before its end is not wrapped. */
  lemma NotWrapped(a: string, w: string, b: string)
    requires Closed(a) && a != "" && b != "" && (a[0] == '(' ==> a[|a| - 1] == ')')
    ensures !IsWrapped((a + w) + b)
  {
    var s := (a + w) + b;
    if s[0] == '(' {
      assert s[..|a|] == a;
      assert ClosesAt(s, |a| - 1);
    }
  }

  lemma OpFound(op: Op, b: string)
    requires b != "" && b[0] != '='
    ensures var s := OpText(op) + b;
      IsMark(s[0]) && s[1] == '=' && OpAt(s, 0) == op
  {
  }

  /** The operator that joins two printed operands is the one that is found. */
  lemma OperatorFound(a: string, op: Op, b: string)
    requires Inert(a) && Trim(a) != "" && !IsMark(a[|a| - 1]) && b != "" && b[0] != '='
    ensures var s := a + (OpText(op) + b);
      FindEquality(s) == Some(|a|) && OpAt(s, |a|) == op
  {
    var s := a + (OpText(op) + b);
    OpFound(op, b);
    assert s[..|a|] == a;
    assert forall i :: 0 <= i < |OpText(op) + b| ==> s[|a| + i] == (OpText(op) + b)[i];
    LevelSum(a);
    assert EqualityAt(s, |a|);
    forall i: nat | i < |a| ensures !EqualityAt(s, i) {
      assert s[..i] == a[..i];
      assert !MarksAt(a, i);
      assert i + 1 == |a| ==> s[i] == a[|a| - 1];
    }
    assert FirstEquality(s, |a|);
  }

  lemma CutParts(op: Op, l: string, r: string)
    ensures var s := l + (OpText(op) + r);
      |l| + OpLength(op) <= |s| && s[..|l|] == l && s[|l| + OpLength(op)..] == r
  {
    OpTextShape(op);
  }

  /** What the evaluator does with a text that it cuts at an operator. */
  lemma Cut(env: Env, src: string, s: string, op: Op, l: string, r: string)
    requires Trim(src) == s && s != "" && !IsWrapped(s)
    requires |l| < |s| && FindEquality(s) == Some(|l|) && OpAt(s, |l|) == op
    requires |l| + OpLength(op) <= |s| && s[..|l|] == l && s[|l| + OpLength(op)..] == r
    ensures Resolve(env, src) == Compare(env, op, Resolve(env, l), Resolve(env, r))
  {
  }

  lemma SpacedOperands(a: string, w1: string, w2: string, b: string)
    requires AllSpace(w1) && AllSpace(w2) && Solid(a) && Solid(b)
    ensures Trim(a + w1) == a && Trim(w2 + b) == b && (w2 + b)[0] != '='
  {
    TrimSpaced("", a, w1);
    TrimSpaced(w2, b, "");
    assert "" + a + w1 == a + w1 && w2 + b + "" == w2 + b;
  }

  /** Everything Cut asks for, from the shapes of the two operands. */
  lemma OperandsFound(op: Op, a: string, w1: string, w2: string, b: string)
    requires AllSpace(w1) && AllSpace(w2) && Solid(a) && Inert(a) && Solid(b) && Closed(b)
    requires a[0] == '(' ==> a[|a| - 1] == ')'
    ensures var s := (a + w1) + (OpText(op) + (w2 + b));
      && !IsWrapped(s)
      && FindEquality(s) == Some(|a + w1|) && |a + w1| < |s| && OpAt(s, |a + w1|) == op
  {
    EqualityShape(op, a, w1, w2, b);
    SpacedOperands(a, w1, w2, b);
    var l, r := a + w1, w2 + b;
    OperatorFound(l, op, r);
    NotWrapped(a, w1, OpText(op) + r);
  }

  lemma NotMeaning(env: Env, src: string, t: string)
    requires Inert("!" + t) && Trim(src) == "!" + t
    ensures Resolve(env, src) == Bool(!Truthy(Resolve(env, t)))
  {
    NotFound("!" + t);
    assert ("!" + t)[1..] == t;
  }

  /** A text without operators and parentheses around it is a literal or a path. */
  lemma AtomMeaning(env: Env, src: string, s: string)
    requires Inert(s) && s != "" && s[0] != '(' && s[0] != '!' && Trim(src) == s
    ensures Resolve(env, src) ==
            if Literal(env, s).Some? then Literal(env, s).value else ResolvePath(env, s)
  {
    NotFound(s);
  }

  lemma GuardOpens(e: Expr)
    requires Legal(e)
    ensures var a := Guard(e, Print(e)); a != "" && (a[0] == '(' ==> a[|a| - 1] == ')')
  {
    PrintShape(e);
    if e.Number? { NumberChars(e.text); }
  }

  // ----- Paths -----

  lemma {:induction false} PartsLen(s: string, t: string)
    requires (forall i :: 0 <= i < |s| ==> IsIdentPart(s[i])) && (t == "" || !IsIdentPart(t[0]))
    ensures IdentPartsLen(s + t) == |s|
  {
    if s == "" {
      assert s + t == t;
    } else {
      assert (s + t)[1..] == s[1..] + t;
      PartsLen(s[1..], t);
    }
  }

  lemma {:induction false} DigitRunLen(s: string, t: string)
    requires (forall i :: 0 <= i < |s| ==> IsDigit(s[i])) && (t == "" || !IsDigit(t[0]))
    ensures DigitsLen(s + t) == |s|
  {
    if s == "" {
      assert s + t == t;
    } else {
      assert (s + t)[1..] == s[1..] + t;
      DigitRunLen(s[1..], t);
    }
  }

  lemma HeadLen(s: string, t: string)
    requires IsIdent(s) && SegmentsShaped(t)
    ensures IdentLen(s + t) == |s|
  {
    assert (s + t)[1..] == s[1..] + t;
    PartsLen(s[1..], t);
  }

  lemma DotNameLen(s: string, t: string)
    requires (IsIdent(s) || IsDigits(s)) && SegmentsShaped(t)
    ensures NameLen(s + t) == |s|
  {
    if IsIdent(s) {
      HeadLen(s, t);
    } else {
      DigitRunLen(s, t);
      assert IdentLen(s + t) == 0;
    }
  }

  /** A bracket is closed behind a balanced text. */
  lemma CloseFound(inner: string, rest: string)
    requires Closed(inner)
    ensures FindClose((['['] + inner + [']']) + rest) == Some(|inner| + 1)
  {
    var wrapped := ['['] + inner + [']'];
    var t := wrapped + rest;
    var end := |inner| + 1;
    forall k: nat | k < end ensures !SquareClosesAt(t, k) {
      if 0 < k {
        assert t[..k + 1] == wrapped[..k + 1];
        WrapLevels(Square, '[', inner, ']', k + 1);
        assert NonNegAt(inner, k);
      }
    }
    assert t[..end + 1] == wrapped;
    ClosedWrap('[', inner, ']');
    assert FirstClose(t, end);
  }

  lemma DotFound(name: string, rest: string)
    requires (IsIdent(name) || IsDigits(name)) && SegmentsShaped(rest)
    ensures var t := "." + (name + rest);
      NextSegment(t) == Some((Name(name), 1 + |name|)) && t[1 + |name|..] == rest
  {
    var t := "." + (name + rest);
    assert t[1..] == name + rest;
    DotNameLen(name, rest);
    IdentChars(name);
    assert t[1..1 + |name|] == name;
  }

  lemma IndexFound(inner: string, rest: string)
    requires Closed(inner)
    ensures var t := "[" + (inner + ("]" + rest));
      NextSegment(t) == Some((Key(inner), 2 + |inner|)) && t[2 + |inner|..] == rest
  {
    var t := "[" + (inner + ("]" + rest));
    assert t == (['['] + inner + [']']) + rest;
    CloseFound(inner, rest);
    assert t[1..|inner| + 1] == inner;
  }

  /** The steps that printed segments parse to. */
  function StepsOf(segments: Segments): Steps {
    match segments
    case End => Done
    case Dot(name, rest) => Step(Name(name), StepsOf(rest))
    case Index(w1, key, w2, rest) => Step(Key(w1 + Print(key) + w2), StepsOf(rest))
  }

  lemma DotParsed(name: string, rest: string, steps: Steps, n: nat)
    requires (IsIdent(name) || IsDigits(name)) && SegmentsShaped(rest) && |"." + (name + rest)| <= n
    requires ParseSteps(rest, n) == Some(steps)
    ensures ParseSteps("." + (name + rest), n) == Some(Step(Name(name), steps))
  {
    DotFound(name, rest);
  }

  lemma IndexParsed(inner: string, rest: string, steps: Steps, n: nat)
    requires Closed(inner) && |"[" + (inner + ("]" + rest))| <= n
    requires ParseSteps(rest, n) == Some(steps)
    ensures ParseSteps("[" + (inner + ("]" + rest)), n) == Some(Step(Key(inner), steps))
  {
    IndexFound(inner, rest);
  }

  lemma {:induction false} ParsePrinted(segments: Segments, n: nat)
    requires LegalSegments(segments) && |PrintSegments(segments)| <= n
    ensures ParseSteps(PrintSegments(segments), n) == Some(StepsOf(segments))
    decreases segments
  {
    match segments
    case End =>
    case Dot(name, rest) =>
      SegmentsShape(rest);
      ParsePrinted(rest, n);
      DotParsed(name, PrintSegments(rest), StepsOf(rest), n);
    case Index(w1, key, w2, rest) =>
      InnerTrimmed(w1, key, w2);
      ParsePrinted(rest, n);
      IndexParsed(w1 + Print(key) + w2, PrintSegments(rest), StepsOf(rest), n);
  }

  lemma {:induction false} StepsMeaning(env: Env, cur: Value, segments: Segments, n: nat)
    requires LegalSegments(segments) && Shorter(StepsOf(segments), n)
    ensures Follow(env, cur, StepsOf(segments), n) == EvalSegments(env, cur, segments)
    decreases segments, 0
  {
    match segments
    case End =>
    case Dot(name, rest) => StepsMeaning(env, GetProp(env, cur, Str(name)), rest, n);
    case Index(w1, key, w2, rest) =>
      InnerTrimmed(w1, key, w2);
      Meaning(env, key, w1 + Print(key) + w2);
      StepsMeaning(env, GetProp(env, cur, Eval(env, key)), rest, n);
  }

  // ----- The theorem -----

  predicate IsLeaf(e: Expr) { e.Keyword? || e.Number? || e.Text? }

  lemma LeafMeaning(env: Env, e: Expr, src: string)
    requires Legal(e) && IsLeaf(e) && Trim(src) == Print(e)
    ensures Resolve(env, src) == Eval(env, e)
  {
    PrintShape(e);
    if e.Number? { NumberChars(e.text); }
    AtomMeaning(env, src, Print(e));
    LeafIsLiteral(env, e);
  }

  lemma LeafIsLiteral(env: Env, e: Expr)
    requires Legal(e) && IsLeaf(e)
    ensures Literal(env, Print(e)) == Some(Eval(env, e))
  {
    match e
    case Keyword(w) =>
    case Number(text) =>
      NumberChars(text);
      assert text[0] != 't' && text[0] != 'f' && text[0] != 'n' && text[0] != 'u';
    case Text(quote, content) => TextIsLiteral(env, quote, content);
  }

  lemma {:induction false} PathMeaning(env: Env, src: string, head: string, segments: Segments)
    requires Legal(Path(head, segments)) && Trim(src) == head + PrintSegments(segments)
    ensures Resolve(env, src) == Eval(env, Path(head, segments))
    decreases segments, 1
  {
    var s := head + PrintSegments(segments);
    PrintShape(Path(head, segments));
    AtomMeaning(env, src, s);
    PathIsNoLiteral(env, head, segments);
    SegmentsShape(segments);
    HeadLen(head, PrintSegments(segments));
    assert s[..|head|] == head && s[|head|..] == PrintSegments(segments);
    ParsePrinted(segments, |s|);
    StepsMeaning(env, GetProp(env, env.root, Str(head)), segments, |s|);
  }

  /** A text that trims to a printed expression has the expression's value. */
  lemma {:induction false} Meaning(env: Env, e: Expr, src: string)
    requires Legal(e) && Trim(src) == Print(e)
    ensures Resolve(env, src) == Eval(env, e)
    decreases e, 1
  {
    match e
    case Keyword(_) => LeafMeaning(env, e, src);
    case Number(_) => LeafMeaning(env, e, src);
    case Text(_, _) => LeafMeaning(env, e, src);
    case Path(head, segments) => PathMeaning(env, src, head, segments);
    case Not(w, operand) =>
      var t := w + Guard(operand, Print(operand));
      OperandTrimmed(w, operand);
      GuardMeaning(env, operand, t);
      NotMeaning(env, src, t);
    case Paren(w1, inner, w2) =>
      var t := w1 + Print(inner) + w2;
      InnerTrimmed(w1, inner, w2);
      Meaning(env, inner, t);
      ParenMeaning(env, src, t);
    case Equality(op, left, w1, w2, right) =>
      OperandsTrimmed(left, w1, w2, right);
      GuardMeaning(env, left, Guard(left, Print(left)) + w1);
      Meaning(env, right, w2 + Print(right));
      EqualityMeaning(env, src, op, left, w1, w2, right, Eval(env, left), Eval(env, right));
  }

  lemma GuardedShape(e: Expr)
    requires Legal(e)
    ensures var a := Guard(e, Print(e)); Solid(a) && Inert(a) && (a[0] == '(' ==> a[|a| - 1] == ')')
  {
    PrintShape(e);
    GuardShape(e, Print(e));
    GuardOpens(e);
  }

  lemma EqualityFound(op: Op, left: Expr, w1: string, w2: string, right: Expr)
    requires Legal(Equality(op, left, w1, w2, right))
    ensures var l, s := Guard(left, Print(left)) + w1, Print(Equality(op, left, w1, w2, right));
      !IsWrapped(s) && FindEquality(s) == Some(|l|) && |l| < |s| && OpAt(s, |l|) == op
  {
    GuardedShape(left);
    PrintShape(right);
    OperandsFound(op, Guard(left, Print(left)), w1, w2, Print(right));
  }

  lemma OperandsTrimmed(left: Expr, w1: string, w2: string, right: Expr)
    requires Legal(left) && Legal(right) && AllSpace(w1) && AllSpace(w2)
    ensures Trim(Guard(left, Print(left)) + w1) == Guard(left, Print(left))
    ensures Trim(w2 + Print(right)) == Print(right)
  {
    PrintShape(left);
    GuardShape(left, Print(left));
    PrintShape(right);
    SpacedOperands(Guard(left, Print(left)), w1, w2, Print(right));
  }

  lemma EqualityMeaning(
    env: Env, src: string, op: Op, left: Expr, w1: string, w2: string, right: Expr, lv: Value, rv: Value)
    requires Legal(Equality(op, left, w1, w2, right)) && Trim(src) == Print(Equality(op, left, w1, w2, right))
    requires Resolve(env, Guard(left, Print(left)) + w1) == lv
    requires Resolve(env, w2 + Print(right)) == rv
    ensures Resolve(env, src) == Compare(env, op, lv, rv)
  {
    EqualityFound(op, left, w1, w2, right);
    var l, r := Guard(left, Print(left)) + w1, w2 + Print(right);
    CutParts(op, l, r);
    Cut(env, src, l + (OpText(op) + r), op, l, r);
  }

  lemma OperandTrimmed(w: string, operand: Expr)
    requires AllSpace(w) && Legal(operand)
    ensures var t := w + Guard(operand, Print(operand));
      Trim(t) == Guard(operand, Print(operand)) && Inert("!" + t)
  {
    var t := Guard(operand, Print(operand));
    PrintShape(operand);
    GuardShape(operand, Print(operand));
    TrimSpaced(w, t, "");
    assert w + t + "" == w + t;
    NotShape(w, t);
  }

  lemma InnerTrimmed(w1: string, inner: Expr, w2: string)
    requires AllSpace(w1) && AllSpace(w2) && Legal(inner)
    ensures var t := w1 + Print(inner) + w2; Trim(t) == Print(inner) && Closed(t)
  {
    PrintShape(inner);
    SpacedIsClosed(w1, Print(inner), w2);
    TrimSpaced(w1, Print(inner), w2);
  }

  lemma PrintTrimmed(e: Expr)
    requires Legal(e)
    ensures Trim(Print(e)) == Print(e) && Closed(Print(e))
  {
    PrintShape(e);
    TrimSpaced("", Print(e), "");
    assert "" + Print(e) + "" == Print(e);
  }

  /** The parentheses of a guard do not change the meaning. */
  lemma {:induction false} GuardMeaning(env: Env, e: Expr, src: string)
    requires Legal(e) && Trim(src) == Guard(e, Print(e))
    ensures Resolve(env, src) == Eval(env, e)
    decreases e, 2
  {
    if e.Equality? {
      PrintTrimmed(e);
      Meaning(env, e, Print(e));
      ParenMeaning(env, src, Print(e));
    } else {
      Meaning(env, e, src);
    }
  }

  /** Resolving what is printed, with any space around it, gives the expression's value. */
  lemma PrintedMeaning(env: Env, e: Expr, pre: string, post: string)
    requires Legal(e) && AllSpace(pre) && AllSpace(post)
    ensures Resolve(env, pre + Print(e) + post) == Eval(env, e)
  {
    PrintShape(e);
    TrimSpaced(pre, Print(e), post);
    Meaning(env, e, pre + Print(e) + post);
  }

  lemma ChainText(a: string, x: string, b: string, y: string, c: string)
    ensures (a + "") + (x + ("" + ((b + "") + (y + ("" + c))))) == a + x + b + y + c
  {
    assert a + "" == a && b + "" == b && "" + c == c;
    assert "" + ((b + "") + (y + ("" + c))) == b + (y + c);
  }

  /** An unparenthesised chain of equalities groups to the right, unlike in JavaScript. */
  lemma ChainGroupsToTheRight(env: Env, a: Expr, f: Op, b: Expr, g: Op, c: Expr)
    requires Legal(a) && Legal(b) && Legal(c) && !a.Equality? && !b.Equality?
    ensures Resolve(env, Print(a) + OpText(f) + Print(b) + OpText(g) + Print(c)) ==
            Compare(env, f, Eval(env, a), Compare(env, g, Eval(env, b), Eval(env, c)))
  {
    var e := Equality(f, a, "", "", Equality(g, b, "", "", c));
    ChainText(Print(a), OpText(f), Print(b), OpText(g), Print(c));
    PrintTrimmed(e);
    Meaning(env, e, Print(e));
  }

  lemma TextIsLiteral(env: Env, quote: char, content: string)
    requires quote == '"' || quote == '\''
    ensures Literal(env, [quote] + content + [quote]) == Some(Str(content))
  {
    var s := [quote] + content + [quote];
    assert s[0] == quote && s[|s| - 1] == quote && s[1..|s| - 1] == content;
    assert !IsNumber(s);
  }

  lemma PathIsNoLiteral(env: Env, head: string, segments: Segments)
    requires Legal(Path(head, segments))
    ensures Literal(env, head + PrintSegments(segments)) == None
  {
    var s := head + PrintSegments(segments);
    SegmentsShape(segments);
    assert IsIdentStart(s[0]) && !IsNumber(s) && !IsQuoted(s);
    if segments == End {
      assert s == head;
    } else {
      assert s[|head|] == '.' || s[|head|] == '[';
      assert !IsReserved(s);
    }
  }

  /**
   * For a quoted text alone: it reads as its content exactly when the scanner sees no
   * operator in it, since the scanner does not know about quotes.
   */
  lemma TextReadsBackIffNoOperator(env: Env, quote: char, content: string)
    requires quote == '"' || quote == '\''
    ensures var s := [quote] + content + [quote];
      Resolve(env, s) == Str(content) <==> FindEquality(s).None?
  {
    var s := [quote] + content + [quote];
    TrimSpaced("", s, "");
    assert "" + s + "" == s;
    TextIsLiteral(env, quote, content);
    if FindEquality(s).Some? { CutIsBool(env, s, s); }
  }

  lemma CutIsBool(env: Env, src: string, s: string)
    requires Trim(src) == s && s != "" && !IsWrapped(s) && FindEquality(s).Some?
    ensures Resolve(env, src).Bool?
  {
  }

  /** If there is an operator, a first one is found. */
  lemma {:induction false} SomeEquality(s: string, i: nat)
    requires EqualityAt(s, i)
    ensures FindEquality(s).Some?
    decreases i
  {
    if j: nat :| j < i && EqualityAt(s, j) {
      SomeEquality(s, j);
    } else {
      assert FirstEquality(s, i);
    }
  }

  lemma {:induction false} TrimKeepsFirst(s: string)
    requires s != "" && !IsSpace(s[0])
    ensures TrimEnd(s) != "" && Trim(s) != ""
  {
    if |s| > 1 { TrimKeepsFirst(s[..|s| - 1]); }
  }

  /** A quoted text with an operator outside brackets is not the string it spells. */
  lemma QuotedOperatorIsSplit(env: Env, quote: char, a: string, op: Op, b: string)
    requires quote == '"' || quote == '\''
    requires Level(Both, a) == 0 && (a == "" || !IsMark(a[|a| - 1]))
    ensures Resolve(env, [quote] + (a + OpText(op) + b) + [quote]) != Str(a + OpText(op) + b)
  {
    var content := a + OpText(op) + b;
    var s, i := [quote] + content + [quote], |a| + 1;
    assert s[..i] == [quote] + a;
    LevelConcat(Both, [quote], a);
    assert [quote][..0] == "" && Level(Both, [quote]) == 0;
    TrimKeepsFirst([quote] + a);
    assert s[i] == OpText(op)[0] && s[i + 1] == OpText(op)[1];
    assert s[i - 1] == if a == "" then quote else a[|a| - 1];
    assert EqualityAt(s, i);
    SomeEquality(s, i);
    TextReadsBackIffNoOperator(env, quote, content);
  }
}
