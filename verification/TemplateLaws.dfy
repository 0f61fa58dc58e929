/** What the operators give, told on texts and values alone. */
module TemplateLaws {
  import opened Wrappers
  import opened JsString
  import opened TemplateResolve
  import opened TemplateSyntax
  import opened TemplateShape
  import opened TemplateMeaning

  /** An operand of `!` or the left side of an equality, as it is written. */
  function Operand(e: Expr): string { if e.Equality? then "(" + Print(e) + ")" else Print(e) }

  lemma ValueOf(env: Env, e: Expr)
    requires Legal(e)
    ensures Resolve(env, Print(e)) == Eval(env, e)
  {
    PrintTrimmed(e);
    Meaning(env, e, Print(e));
  }

  /** An equality as it is written, with the operator's text and the spaces around it. */
  function Joined(a: Expr, w1: string, operator: string, w2: string, b: Expr): string {
    Operand(a) + w1 + operator + w2 + Print(b)
  }

  lemma EqualityText(op: Op, a: Expr, w1: string, w2: string, b: Expr)
    ensures Print(Equality(op, a, w1, w2, b)) == Joined(a, w1, OpText(op), w2, b)
  {
    var l, o, r := Operand(a), OpText(op), Print(b);
    assert (l + w1) + (o + (w2 + r)) == l + w1 + o + w2 + r;
  }

  lemma EqualityValue(env: Env, op: Op, a: Expr, w1: string, w2: string, b: Expr)
    requires Legal(a) && Legal(b) && AllSpace(w1) && AllSpace(w2)
    ensures Resolve(env, Joined(a, w1, OpText(op), w2, b))
            == Compare(env, op, Resolve(env, Print(a)), Resolve(env, Print(b)))
  {
    EqualityText(op, a, w1, w2, b);
    ValueOf(env, a);
    ValueOf(env, b);
    ValueOf(env, Equality(op, a, w1, w2, b));
  }

  /** `===` is true of the same value twice, unless it is NaN. */
  lemma StrictEqualityIsSameness(env: Env, a: Expr, w1: string, w2: string, b: Expr)
    requires Legal(a) && Legal(b) && AllSpace(w1) && AllSpace(w2)
    ensures var x, y := Resolve(env, Print(a)), Resolve(env, Print(b));
            Resolve(env, Joined(a, w1, "===", w2, b)) == Bool(x == y && x != NaN)
  {
    EqualityValue(env, StrictEq, a, w1, w2, b);
  }

  lemma StrictInequalityIsDifference(env: Env, a: Expr, w1: string, w2: string, b: Expr)
    requires Legal(a) && Legal(b) && AllSpace(w1) && AllSpace(w2)
    ensures var x, y := Resolve(env, Print(a)), Resolve(env, Print(b));
            Resolve(env, Joined(a, w1, "!==", w2, b)) == Bool(x != y || x == NaN)
  {
    EqualityValue(env, StrictNe, a, w1, w2, b);
  }

  /** `==` asks the environment about the two values, in their order. */
  lemma LooseEqualityAsks(env: Env, a: Expr, w1: string, w2: string, b: Expr)
    requires Legal(a) && Legal(b) && AllSpace(w1) && AllSpace(w2)
    ensures var x, y := Resolve(env, Print(a)), Resolve(env, Print(b));
            Resolve(env, Joined(a, w1, "==", w2, b)) == Bool(env.looseEq(x, y))
  {
    EqualityValue(env, LooseEq, a, w1, w2, b);
  }

  lemma LooseNeValue(env: Env, operator: string, a: Expr, w1: string, w2: string, b: Expr)
    requires Legal(a) && Legal(b) && AllSpace(w1) && AllSpace(w2) && operator == OpText(LooseNe)
    ensures var x, y := Resolve(env, Print(a)), Resolve(env, Print(b));
            Resolve(env, Joined(a, w1, operator, w2, b)) == Compare(env, LooseNe, x, y)
  {
    EqualityValue(env, LooseNe, a, w1, w2, b);
  }

  lemma LooseInequalityAsks(env: Env, a: Expr, w1: string, w2: string, b: Expr)
    requires Legal(a) && Legal(b) && AllSpace(w1) && AllSpace(w2)
    ensures var x, y := Resolve(env, Print(a)), Resolve(env, Print(b));
            Resolve(env, Joined(a, w1, "!=", w2, b)) == Bool(!env.looseEq(x, y))
  {
    var x, y := Resolve(env, Print(a)), Resolve(env, Print(b));
    assert Compare(env, LooseNe, x, y) == Bool(!env.looseEq(x, y));
    LooseNeValue(env, "!=", a, w1, w2, b);
  }

  predicate IsFalsy(v: Value) {
    v == Undefined || v == Null || v == Bool(false) || v == Num(0.0) || v == NaN || v == Str("")
  }

  lemma FalsyIsNotTruthy(v: Value)
    ensures Truthy(v) <==> !IsFalsy(v)
  {
  }

  function Negated(w: string, e: Expr): string { "!" + (w + Operand(e)) }

  lemma NegationText(w: string, e: Expr)
    ensures Print(Not(w, e)) == Negated(w, e)
  {
  }

  lemma NegationValue(env: Env, w: string, e: Expr)
    requires Legal(e) && AllSpace(w)
    ensures Resolve(env, Print(Not(w, e))) == Bool(!Truthy(Resolve(env, Print(e))))
  {
    ValueOf(env, e);
    ValueOf(env, Not(w, e));
  }

  /** `!` gives true for six values and false for all others. */
  lemma NegationTellsFalsy(env: Env, w: string, e: Expr)
    requires Legal(e) && AllSpace(w)
    ensures Resolve(env, Negated(w, e)) == Bool(IsFalsy(Resolve(env, Print(e))))
  {
    NegationText(w, e);
    NegationValue(env, w, e);
    FalsyIsNotTruthy(Resolve(env, Print(e)));
  }

  // ----- Properties -----

  /** Undefined and null have no properties; what others have is up to the environment. */
  predicate IsProperty(env: Env, v: Value, key: Value, property: Value) {
    property == if v == Undefined || v == Null then Undefined else env.get(v, key)
  }

  function Append(a: Segments, b: Segments): Segments {
    match a
    case End => b
    case Dot(name, rest) => Dot(name, Append(rest, b))
    case Index(w1, key, w2, rest) => Index(w1, key, w2, Append(rest, b))
  }

  lemma BehindDot(name: string, r: string, t: string)
    ensures "." + (name + (r + t)) == "." + (name + r) + t
  {
    assert name + (r + t) == name + r + t;
  }

  lemma BehindBracket(k: string, r: string, t: string)
    ensures "[" + (k + ("]" + (r + t))) == "[" + (k + ("]" + r)) + t
  {
    assert "]" + (r + t) == "]" + r + t;
    assert k + (("]" + r) + t) == k + ("]" + r) + t;
  }

  lemma {:induction false} AppendText(a: Segments, b: Segments)
    ensures PrintSegments(Append(a, b)) == PrintSegments(a) + PrintSegments(b)
  {
    match a
    case End =>
    case Dot(name, rest) =>
      AppendText(rest, b);
      BehindDot(name, PrintSegments(rest), PrintSegments(b));
    case Index(w1, key, w2, rest) =>
      AppendText(rest, b);
      BehindBracket(w1 + Print(key) + w2, PrintSegments(rest), PrintSegments(b));
  }

  lemma {:induction false} AppendValue(env: Env, cur: Value, a: Segments, b: Segments)
    ensures EvalSegments(env, cur, Append(a, b)) == EvalSegments(env, EvalSegments(env, cur, a), b)
    decreases a
  {
    match a
    case End =>
    case Dot(name, rest) => AppendValue(env, GetProp(env, cur, Str(name)), rest, b);
    case Index(_, key, _, rest) => AppendValue(env, GetProp(env, cur, Eval(env, key)), rest, b);
  }

  lemma {:induction false} AppendLegal(a: Segments, b: Segments)
    requires LegalSegments(a) && LegalSegments(b)
    ensures LegalSegments(Append(a, b))
  {
    match a
    case End =>
    case Dot(_, rest) => AppendLegal(rest, b);
    case Index(_, _, _, rest) => AppendLegal(rest, b);
  }

  /** A longer path has the value of its last segment on the value of what stands in front. */
  lemma LongerPath(env: Env, head: string, front: Segments, last: Segments)
    requires Legal(Path(head, front)) && LegalSegments(last) && last != End
    ensures var p := Print(Path(head, front));
            Resolve(env, p + PrintSegments(last)) == EvalSegments(env, Resolve(env, p), last)
  {
    var whole := Path(head, Append(front, last));
    AppendLegal(front, last);
    AppendText(front, last);
    assert head + (PrintSegments(front) + PrintSegments(last)) == head + PrintSegments(front) + PrintSegments(last);
    assert Append(front, last) != End;
    ValueOf(env, Path(head, front));
    ValueOf(env, whole);
    AppendValue(env, GetProp(env, env.root, Str(head)), front, last);
  }

  /** A name alone is a property of the root object. */
  lemma NameIsProperty(env: Env, name: string)
    requires IsIdent(name) && !IsReserved(name)
    ensures IsProperty(env, env.root, Str(name), Resolve(env, name))
  {
    ValueOf(env, Path(name, End));
    assert name + "" == name;
  }

  function Dotted(name: string): string { "." + name }

  function Bracketed(w1: string, key: Expr, w2: string): string { "[" + (w1 + Print(key) + w2) + "]" }

  lemma LastTexts(name: string, w1: string, key: Expr, w2: string)
    ensures PrintSegments(Dot(name, End)) == Dotted(name)
    ensures PrintSegments(Index(w1, key, w2, End)) == Bracketed(w1, key, w2)
  {
    var k := w1 + Print(key) + w2;
    assert name + "" == name;
    assert "[" + (k + ("]" + "")) == "[" + k + "]";
  }

  /** Behind a path, a dot and a name ask its value for that property. */
  lemma DotIsProperty(env: Env, head: string, front: Segments, name: string)
    requires Legal(Path(head, front)) && (IsIdent(name) || IsDigits(name))
    ensures var p := Print(Path(head, front));
            IsProperty(env, Resolve(env, p), Str(name), Resolve(env, p + Dotted(name)))
  {
    LongerPath(env, head, front, Dot(name, End));
    LastTexts(name, "", Keyword(NullWord), "");
  }

  /** Behind a path, brackets ask its value for the property that the expression in them gives. */
  lemma BracketIsProperty(env: Env, head: string, front: Segments, w1: string, key: Expr, w2: string)
    requires Legal(Path(head, front)) && Legal(key) && AllSpace(w1) && AllSpace(w2)
    ensures var p := Print(Path(head, front));
            IsProperty(env, Resolve(env, p), Resolve(env, Print(key)), Resolve(env, p + Bracketed(w1, key, w2)))
  {
    LongerPath(env, head, front, Index(w1, key, w2, End));
    ValueOf(env, key);
    LastTexts("", w1, key, w2);
  }

  // ----- Numbers and names, by their characters -----

  predicate IsRun(s: string) { s != "" && forall i :: 0 <= i < |s| ==> '0' <= s[i] <= '9' }

  /** An optional minus, digits, and optionally a dot and more digits. */
  function Numeral(minus: bool, whole: string, fraction: Option<string>): string {
    (if minus then "-" else "") + (whole + if fraction.Some? then "." + fraction.value else "")
  }

  lemma RunIsDigits(s: string)
    requires IsRun(s)
    ensures DigitsLen(s) == |s|
  {
    DigitRunLen(s, "");
    assert s + "" == s;
  }

  lemma WholeIsNumber(whole: string)
    requires IsRun(whole)
    ensures IsNumber(whole) && whole[0] != '-'
  {
    RunIsDigits(whole);
  }

  lemma FractionIsNumber(whole: string, fraction: string)
    requires IsRun(whole) && IsRun(fraction)
    ensures var t := whole + ("." + fraction); IsNumber(t) && t[0] != '-'
  {
    var t := whole + ("." + fraction);
    DigitRunLen(whole, "." + fraction);
    RunIsDigits(fraction);
    assert t[|whole| + 1..] == fraction && t[|whole|] == '.' && t[0] == whole[0];
  }

  lemma UnsignedIsNumber(whole: string, fraction: Option<string>)
    requires IsRun(whole) && (fraction.Some? ==> IsRun(fraction.value))
    ensures var t := Numeral(false, whole, fraction); IsNumber(t) && t != "" && t[0] != '-'
  {
    if fraction.Some? {
      FractionIsNumber(whole, fraction.value);
      assert Numeral(false, whole, fraction) == whole + ("." + fraction.value);
    } else {
      WholeIsNumber(whole);
      assert Numeral(false, whole, fraction) == whole;
    }
  }

  lemma MinusIsNumber(t: string)
    requires IsNumber(t) && t != "" && t[0] != '-'
    ensures IsNumber("-" + t)
  {
    assert ("-" + t)[1..] == t;
  }

  lemma NumeralIsNumber(minus: bool, whole: string, fraction: Option<string>)
    requires IsRun(whole) && (fraction.Some? ==> IsRun(fraction.value))
    ensures IsNumber(Numeral(minus, whole, fraction))
  {
    var t := Numeral(false, whole, fraction);
    UnsignedIsNumber(whole, fraction);
    if minus {
      MinusIsNumber(t);
      MinusText(whole, fraction);
    }
  }

  lemma MinusText(whole: string, fraction: Option<string>)
    ensures Numeral(true, whole, fraction) == "-" + Numeral(false, whole, fraction)
  {
  }

  /** A numeral is what Number() makes of it. */
  lemma NumeralReads(env: Env, minus: bool, whole: string, fraction: Option<string>)
    requires IsRun(whole) && (fraction.Some? ==> IsRun(fraction.value))
    ensures Resolve(env, Numeral(minus, whole, fraction)) == env.number(Numeral(minus, whole, fraction))
  {
    NumeralIsNumber(minus, whole, fraction);
    ValueOf(env, Number(Numeral(minus, whole, fraction)));
  }

  predicate IsLetter(c: char) { 'A' <= c <= 'Z' || 'a' <= c <= 'z' || c == '_' || c == '$' }

  /** Letters, digits, underscores and dollar signs, with no digit in front. */
  predicate IsWord(s: string) {
    s != "" && IsLetter(s[0]) && forall i :: 0 <= i < |s| ==> IsLetter(s[i]) || '0' <= s[i] <= '9'
  }

  /** A word that is no keyword is a property of the root object. */
  lemma WordReads(env: Env, name: string)
    requires IsWord(name) && name !in {"true", "false", "null", "undefined"}
    ensures IsProperty(env, env.root, Str(name), Resolve(env, name))
  {
    NameIsProperty(env, name);
  }

  lemma WordTextReads(env: Env, w: Word)
    ensures Resolve(env, WordText(w)) == WordValue(w)
  {
    ValueOf(env, Keyword(w));
  }

  /** The four keywords, and what they are. */
  function KeywordOf(v: Value): string {
    match v
    case Bool(b) => if b then "true" else "false"
    case Null => "null"
    case _ => "undefined"
  }

  lemma WordOf(v: Value) returns (w: Word)
    requires v.Bool? || v.Null? || v.Undefined?
    ensures WordText(w) == KeywordOf(v) && WordValue(w) == v
  {
    w := match v { case Bool(b) => if b then TrueWord else FalseWord case Null => NullWord case _ => UndefinedWord };
  }

  lemma KeywordReads(env: Env, v: Value)
    requires v.Bool? || v.Null? || v.Undefined?
    ensures Resolve(env, KeywordOf(v)) == v
  {
    var w := WordOf(v);
    WordTextReads(env, w);
  }

  /** Quotes around a text are there if it begins and ends with the same one. */
  predicate InQuotes(s: string) { |s| >= 2 && (s[0] == '"' || s[0] == '\'') && s[|s| - 1] == s[0] }

  /** What starts like no word, numeral or operator, and is not in quotes, is undefined. */
  lemma StrangeIsUndefined(env: Env, s: string)
    requires Inert(s) && s != "" && IsTrimmed(s) && !InQuotes(s)
    requires !IsLetter(s[0]) && !('0' <= s[0] <= '9') && s[0] !in "-(!"
    ensures Resolve(env, s) == Undefined
  {
    TrimmedStays(s);
    AtomMeaning(env, s, s);
    assert DigitsLen(s) == 0;
    assert IdentLen(s) == 0;
  }

  // ----- Paths that break off -----

  /** It starts with neither a dot, nor a bracket, nor what may stand in a word. */
  predicate Breaks(s: string) { s != "" && s[0] != '.' && s[0] != '[' && !IsLetter(s[0]) && !('0' <= s[0] <= '9') }

  lemma NameStops(s: string, t: string)
    requires (IsIdent(s) || IsDigits(s)) && (t == "" || !IsIdentPart(t[0]))
    ensures NameLen(s + t) == |s| && (IsIdent(s) ==> IdentLen(s + t) == |s|)
  {
    if IsIdent(s) {
      assert (s + t)[1..] == s[1..] + t;
      PartsLen(s[1..], t);
    } else {
      DigitRunLen(s, t);
      assert IdentLen(s + t) == 0;
    }
  }

  lemma StartsOff(segments: Segments, junk: string)
    requires Breaks(junk)
    ensures var t := PrintSegments(segments) + junk; t != "" && !IsIdentPart(t[0])
  {
  }

  lemma DotBroken(name: string, t: string, n: nat)
    requires (IsIdent(name) || IsDigits(name)) && t != "" && !IsIdentPart(t[0]) && |"." + (name + t)| <= n
    requires ParseSteps(t, n) == None
    ensures ParseSteps("." + (name + t), n) == None
  {
    var s := "." + (name + t);
    assert s[1..] == name + t;
    NameStops(name, t);
    assert s[1 + |name|..] == t;
  }

  lemma IndexBroken(inner: string, t: string, n: nat)
    requires Closed(inner) && |"[" + (inner + ("]" + t))| <= n && ParseSteps(t, n) == None
    ensures ParseSteps("[" + (inner + ("]" + t)), n) == None
  {
    IndexFound(inner, t);
  }

  lemma {:induction false} ParseBroken(segments: Segments, junk: string, n: nat)
    requires LegalSegments(segments) && Breaks(junk) && |PrintSegments(segments) + junk| <= n
    ensures ParseSteps(PrintSegments(segments) + junk, n) == None
  {
    match segments
    case End => assert PrintSegments(End) + junk == junk;
    case Dot(name, rest) =>
      ParseBroken(rest, junk, n);
      StartsOff(rest, junk);
      DotBroken(name, PrintSegments(rest) + junk, n);
      BehindDot(name, PrintSegments(rest), junk);
    case Index(w1, key, w2, rest) =>
      ParseBroken(rest, junk, n);
      InnerTrimmed(w1, key, w2);
      IndexBroken(w1 + Print(key) + w2, PrintSegments(rest) + junk, n);
      BehindBracket(w1 + Print(key) + w2, PrintSegments(rest), junk);
  }

  lemma BrokenIsNoLiteral(env: Env, head: string, t: string)
    requires IsIdent(head) && t != "" && !IsIdentPart(t[0])
    ensures Literal(env, head + t) == None && (head + t)[0] == head[0]
  {
    var s := head + t;
    assert s[|head|] == t[0];
    assert IsIdentStart(s[0]) && !IsNumber(s) && !IsQuoted(s);
    assert !IsReserved(s);
  }

  /** A path that goes on with anything but a dot, a bracket or the end is undefined, whatever stands in front. */
  lemma BrokenPathIsUndefined(env: Env, head: string, segments: Segments, junk: string)
    requires IsIdent(head) && LegalSegments(segments) && Breaks(junk)
    requires var s := head + (PrintSegments(segments) + junk); Inert(s) && IsTrimmed(s)
    ensures Resolve(env, head + (PrintSegments(segments) + junk)) == Undefined
  {
    var t := PrintSegments(segments) + junk;
    var s := head + t;
    StartsOff(segments, junk);
    BrokenIsNoLiteral(env, head, t);
    TrimmedStays(s);
    AtomMeaning(env, s, s);
    NameStops(head, t);
    ParseBroken(segments, junk, |s|);
    assert s[|head|..] == t;
  }
}
