/** Expression trees, how they are written, and what they mean. */
module TemplateSyntax {
  import opened JsString
  import opened TemplateResolve

  datatype Word = TrueWord | FalseWord | NullWord | UndefinedWord

  /** `w`, `w1` and `w2` are the spaces written at that place. */
  datatype Expr =
    | Keyword(word: Word)
    | Number(text: string)
    | Text(quote: char, content: string)
    | Path(head: string, segments: Segments)
    | Not(w: string, operand: Expr)
    | Paren(w1: string, inner: Expr, w2: string)
    | Equality(op: Op, left: Expr, w1: string, w2: string, right: Expr)

  datatype Segments = End | Dot(name: string, rest: Segments) | Index(w1: string, key: Expr, w2: string, rest: Segments)

  // ----- Meaning -----

  function WordValue(w: Word): Value {
    match w
    case TrueWord => Bool(true)
    case FalseWord => Bool(false)
    case NullWord => Null
    case UndefinedWord => Undefined
  }

  function Eval(env: Env, e: Expr): Value
    decreases e
  {
    match e
    case Keyword(w) => WordValue(w)
    case Number(text) => env.number(text)
    case Text(_, content) => Str(content)
    case Path(head, segments) => EvalSegments(env, GetProp(env, env.root, Str(head)), segments)
    case Not(_, operand) => Bool(!Truthy(Eval(env, operand)))
    case Paren(_, inner, _) => Eval(env, inner)
    case Equality(op, left, _, _, right) => Compare(env, op, Eval(env, left), Eval(env, right))
  }

  function EvalSegments(env: Env, cur: Value, segments: Segments): Value
    decreases segments
  {
    match segments
    case End => cur
    case Dot(name, rest) => EvalSegments(env, GetProp(env, cur, Str(name)), rest)
    case Index(_, key, _, rest) => EvalSegments(env, GetProp(env, cur, Eval(env, key)), rest)
  }

  // ----- Writing -----

  function WordText(w: Word): string {
    match w
    case TrueWord => "true"
    case FalseWord => "false"
    case NullWord => "null"
    case UndefinedWord => "undefined"
  }

  function OpText(op: Op): string {
    match op
    case StrictEq => "==="
    case StrictNe => "!=="
    case LooseEq => "=="
    case LooseNe => "!="
  }

  /** An equality that is the operand of `!` or the left side of an equality gets parentheses. */
  function Guard(e: Expr, text: string): string {
    if e.Equality? then "(" + text + ")" else text
  }

  function Print(e: Expr): string {
    match e
    case Keyword(w) => WordText(w)
    case Number(text) => text
    case Text(quote, content) => [quote] + content + [quote]
    case Path(head, segments) => head + PrintSegments(segments)
    case Not(w, operand) => "!" + (w + Guard(operand, Print(operand)))
    case Paren(w1, inner, w2) => "(" + (w1 + Print(inner) + w2) + ")"
    case Equality(op, left, w1, w2, right) =>
      (Guard(left, Print(left)) + w1) + (OpText(op) + (w2 + Print(right)))
  }

  function PrintSegments(segments: Segments): string {
    match segments
    case End => ""
    case Dot(name, rest) => "." + (name + PrintSegments(rest))
    case Index(w1, key, w2, rest) => "[" + ((w1 + Print(key) + w2) + ("]" + PrintSegments(rest)))
  }

  // ----- Well-formed tokens -----

  predicate IsIdent(s: string) { s != "" && IsIdentStart(s[0]) && forall i :: 0 <= i < |s| ==> IsIdentPart(s[i]) }

  predicate IsDigits(s: string) { s != "" && forall i :: 0 <= i < |s| ==> IsDigit(s[i]) }

  predicate IsReserved(s: string) { s == "true" || s == "false" || s == "null" || s == "undefined" }

  ghost predicate NonNegAt(s: string, k: nat) {
    k <= |s| ==> Level(Round, s[..k]) >= 0 && Level(Square, s[..k]) >= 0
  }

  /** Both kinds of brackets are balanced. */
  ghost predicate Closed(s: string) {
    && (forall k: nat {:trigger NonNegAt(s, k)} :: NonNegAt(s, k))
    && Level(Round, s) == 0 && Level(Square, s) == 0
  }

  /** `==` or `!=` outside brackets at position `i`. */
  ghost predicate MarksAt(s: string, i: nat) {
    i + 1 < |s| && IsMark(s[i]) && s[i + 1] == '=' && Level(Both, s[..i]) == 0
  }

  ghost predicate NoEquality(s: string) { forall i: nat {:trigger MarksAt(s, i)} :: !MarksAt(s, i) }

  /** A string literal's content may hold anything that reads as no bracket and no operator. */
  ghost predicate Inert(s: string) { Closed(s) && NoEquality(s) }

  ghost predicate Legal(e: Expr) {
    match e
    case Keyword(_) => true
    case Number(text) => IsNumber(text)
    case Text(quote, content) => (quote == '"' || quote == '\'') && Inert(content)
    case Path(head, segments) => IsIdent(head) && (segments == End ==> !IsReserved(head)) && LegalSegments(segments)
    case Not(w, operand) => AllSpace(w) && Legal(operand)
    case Paren(w1, inner, w2) => AllSpace(w1) && AllSpace(w2) && Legal(inner)
    case Equality(_, left, w1, w2, right) => AllSpace(w1) && AllSpace(w2) && Legal(left) && Legal(right)
  }

  ghost predicate LegalSegments(segments: Segments) {
    match segments
    case End => true
    case Dot(name, rest) => (IsIdent(name) || IsDigits(name)) && LegalSegments(rest)
    case Index(w1, key, w2, rest) => AllSpace(w1) && AllSpace(w2) && Legal(key) && LegalSegments(rest)
  }

  // ----- Nesting levels of composed strings -----

  lemma {:induction false} LevelConcat(k: Kind, a: string, b: string)
    ensures Level(k, a + b) == Level(k, a) + Level(k, b)
  {
    if b == "" {
      assert a + b == a;
    } else {
      assert (a + b)[..|a + b| - 1] == a + b[..|b| - 1];
      LevelConcat(k, a, b[..|b| - 1]);
    }
  }

  lemma {:induction false} LevelSum(s: string)
    ensures Level(Both, s) == Level(Round, s) + Level(Square, s)
  {
    if s != "" { LevelSum(s[..|s| - 1]); }
  }

  /** The levels in front of position `i` of `a + b`. */
  lemma LevelInside(k: Kind, a: string, b: string, i: nat)
    requires i <= |a + b|
    ensures Level(k, (a + b)[..i]) == if i <= |a| then Level(k, a[..i]) else Level(k, a) + Level(k, b[..i - |a|])
  {
    if i <= |a| {
      assert (a + b)[..i] == a[..i];
    } else {
      assert (a + b)[..i] == a + b[..i - |a|];
      LevelConcat(k, a, b[..i - |a|]);
    }
  }

  lemma ClosedConcat(a: string, b: string)
    requires Closed(a) && Closed(b)
    ensures Closed(a + b)
  {
    forall k: nat ensures NonNegAt(a + b, k) {
      if k <= |a + b| {
        LevelInside(Round, a, b, k);
        LevelInside(Square, a, b, k);
        assert NonNegAt(a, k) && (k >= |a| ==> NonNegAt(b, k - |a|));
      }
    }
    LevelConcat(Round, a, b);
    LevelConcat(Square, a, b);
  }

  predicate IsBracket(c: char) { c == '(' || c == ')' || c == '[' || c == ']' }

  predicate Plain(s: string) { forall i :: 0 <= i < |s| ==> !IsBracket(s[i]) }

  lemma {:induction false} PlainIsFlat(k: Kind, s: string)
    requires Plain(s)
    ensures Level(k, s) == 0
  {
    if s != "" { PlainIsFlat(k, s[..|s| - 1]); }
  }

  lemma PlainIsClosed(s: string)
    requires Plain(s)
    ensures Closed(s)
  {
    forall k: nat ensures NonNegAt(s, k) {
      if k <= |s| {
        PlainIsFlat(Round, s[..k]);
        PlainIsFlat(Square, s[..k]);
      }
    }
    PlainIsFlat(Round, s);
    PlainIsFlat(Square, s);
  }

  /** The levels in front of position `i + 1` of a string that starts with a bracket. */
  lemma LevelBehindFirst(k: Kind, c: char, s: string, i: nat)
    requires i <= |s|
    ensures Level(k, ([c] + s)[..i + 1]) == Delta(k, c) + Level(k, s[..i])
  {
    LevelInside(k, [c], s, i + 1);
    assert [c][..0] == "";
    assert Level(k, [c]) == Delta(k, c);
  }

  lemma WrapLevels(k: Kind, open: char, t: string, close: char, i: nat)
    requires 0 < i <= |t| + 1
    ensures Level(k, ([open] + t + [close])[..i]) == Delta(k, open) + Level(k, t[..i - 1])
  {
    assert ([open] + t + [close])[..i] == ([open] + t)[..i];
    LevelBehindFirst(k, open, t, i - 1);
  }

  lemma ClosedWrap(open: char, t: string, close: char)
    requires Closed(t) && ((open == '(' && close == ')') || (open == '[' && close == ']'))
    ensures Inert([open] + t + [close])
  {
    var s := [open] + t + [close];
    forall k: Kind | k != Both ensures Level(k, s) == 0 {
      LevelConcat(k, [open] + t, [close]);
      assert s[..|t| + 1] == [open] + t && t[..|t|] == t;
      WrapLevels(k, open, t, close, |t| + 1);
      assert [close][..0] == "";
      assert Level(k, [close]) == Delta(k, close);
    }
    forall i: nat ensures NonNegAt(s, i) {
      if 0 < i <= |t| + 1 {
        WrapLevels(Round, open, t, close, i);
        WrapLevels(Square, open, t, close, i);
        assert NonNegAt(t, i - 1);
      } else if i <= |s| {
        assert s[..i] == "" || s[..i] == s;
      }
    }
    forall i: nat ensures !MarksAt(s, i) {
      if 0 < i <= |t| {
        WrapLevels(Both, open, t, close, i);
        LevelSum(t[..i - 1]);
        assert NonNegAt(t, i - 1);
      }
    }
  }

  lemma NoEqualityConcat(a: string, b: string)
    requires Inert(a) && NoEquality(b)
    requires a == "" || b == "" || !IsMark(a[|a| - 1]) || b[0] != '='
    ensures NoEquality(a + b)
  {
    LevelSum(a);
    forall i: nat ensures !MarksAt(a + b, i) {
      if i + 1 < |a + b| {
        LevelInside(Both, a, b, i);
        if i + 1 < |a| {
          assert !MarksAt(a, i);
        } else if i >= |a| {
          assert !MarksAt(b, i - |a|);
          assert a[..|a|] == a;
        }
      }
    }
  }
}
