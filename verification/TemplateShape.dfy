/** What a printed expression looks like from outside: balanced, and where it can be cut. */
module TemplateShape {
  import opened JsString
  import opened TemplateResolve
  import opened TemplateSyntax

  /** Neither space nor `=` at the front, neither space nor a mark at the end. */
  predicate Solid(s: string) {
    s != "" && !IsSpace(s[0]) && s[0] != '=' && !IsSpace(s[|s| - 1]) && !IsMark(s[|s| - 1])
  }

  /** No bracket and no mark at all. */
  predicate Harmless(s: string) {
    forall i :: 0 <= i < |s| ==> !IsBracket(s[i]) && !IsMark(s[i])
  }

  lemma HarmlessIsInert(s: string)
    requires Harmless(s)
    ensures Inert(s)
  {
    PlainIsClosed(s);
  }

  lemma InertConcat(a: string, b: string)
    requires Inert(a) && Inert(b)
    requires a == "" || b == "" || !IsMark(a[|a| - 1]) || b[0] != '='
    ensures Inert(a + b)
  {
    ClosedConcat(a, b);
    NoEqualityConcat(a, b);
  }

  lemma {:induction false} DigitsLenSpec(s: string)
    ensures forall i :: 0 <= i < DigitsLen(s) ==> IsDigit(s[i])
    ensures DigitsLen(s) < |s| ==> !IsDigit(s[DigitsLen(s)])
  {
    if s != "" && IsDigit(s[0]) {
      DigitsLenSpec(s[1..]);
      assert forall i :: 0 < i < DigitsLen(s) ==> s[i] == s[1..][i - 1];
    }
  }

  predicate IsFigure(c: char) { IsDigit(c) || c == '.' }

  predicate AllDigits(s: string) { forall i :: 0 <= i < |s| ==> IsDigit(s[i]) }

  lemma LeadingDigits(t: string)
    ensures AllDigits(t[..DigitsLen(t)])
  {
    DigitsLenSpec(t);
  }

  lemma FigureParts(t: string, n: nat)
    requires 0 < n && n + 1 < |t| && t[n] == '.' && AllDigits(t[..n]) && AllDigits(t[n + 1..])
    ensures IsDigit(t[0]) && IsDigit(t[|t| - 1]) && forall i :: 0 <= i < |t| ==> IsFigure(t[i])
  {
    forall i | 0 <= i < |t| ensures IsFigure(t[i]) && (i != n ==> IsDigit(t[i])) {
      if i < n {
        assert t[..n][i] == t[i];
      } else if i > n {
        assert t[n + 1..][i - n - 1] == t[i];
      }
    }
  }

  lemma WholeIsDigits(t: string)
    requires DigitsLen(t) == |t|
    ensures AllDigits(t)
  {
    LeadingDigits(t);
    assert t[..|t|] == t;
  }

  /** A numeral without its sign is made of figures and starts and ends with a digit. */
  lemma UnsignedChars(t: string)
    requires var n := DigitsLen(t);
             n > 0 && (n == |t| || (t[n] == '.' && n + 1 < |t| && DigitsLen(t[n + 1..]) == |t| - n - 1))
    ensures t != "" && IsDigit(t[0]) && IsDigit(t[|t| - 1]) && forall i :: 0 <= i < |t| ==> IsFigure(t[i])
  {
    if DigitsLen(t) < |t| {
      LeadingDigits(t);
      WholeIsDigits(t[DigitsLen(t) + 1..]);
      FigureParts(t, DigitsLen(t));
    } else {
      WholeIsDigits(t);
    }
  }

  lemma FiguresAreHarmless(s: string, t: string)
    requires s == t || (s != "" && s[0] == '-' && t == s[1..])
    requires t != "" && IsDigit(t[0]) && IsDigit(t[|t| - 1]) && forall i :: 0 <= i < |t| ==> IsFigure(t[i])
    ensures Harmless(s) && Solid(s) && (IsDigit(s[0]) || s[0] == '-')
  {
    assert s != t ==> forall i :: 0 < i < |s| ==> s[i] == t[i - 1];
    assert t[|t| - 1] == s[|s| - 1];
  }

  lemma NumberChars(s: string)
    requires IsNumber(s)
    ensures Harmless(s) && Solid(s) && (IsDigit(s[0]) || s[0] == '-')
  {
    var t := if s[0] == '-' then s[1..] else s;
    UnsignedChars(t);
    FiguresAreHarmless(s, t);
  }

  lemma TextShape(quote: char, content: string)
    requires (quote == '"' || quote == '\'') && Inert(content)
    ensures var s := [quote] + content + [quote]; Inert(s) && Solid(s)
  {
    HarmlessIsInert([quote]);
    InertConcat([quote], content);
    InertConcat([quote] + content, [quote]);
  }

  lemma SpacedIsInert(w1: string, t: string, w2: string)
    requires AllSpace(w1) && AllSpace(w2) && Inert(t)
    ensures Inert(w1 + t + w2)
  {
    HarmlessIsInert(w1);
    HarmlessIsInert(w2);
    InertConcat(w1, t);
    InertConcat(w1 + t, w2);
  }

  lemma SpacedIsClosed(w1: string, t: string, w2: string)
    requires AllSpace(w1) && AllSpace(w2) && Closed(t)
    ensures Closed(w1 + t + w2)
  {
    HarmlessIsInert(w1);
    HarmlessIsInert(w2);
    ClosedConcat(w1, t);
    ClosedConcat(w1 + t, w2);
  }

  /** A guarded text never shows an operator, and is solid if the text is. */
  lemma GuardShape(e: Expr, t: string)
    requires Solid(t) && Closed(t) && (!e.Equality? ==> NoEquality(t))
    ensures Solid(Guard(e, t)) && Inert(Guard(e, t))
  {
    if e.Equality? {
      ClosedWrap('(', t, ')');
    }
  }

  lemma NotShape(w: string, t: string)
    requires AllSpace(w) && Solid(t) && Inert(t)
    ensures Solid("!" + (w + t)) && Inert("!" + (w + t))
  {
    SpacedIsInert(w, t, "");
    assert w + t + "" == w + t;
    PlainIsClosed("!");
    InertConcat("!", w + t);
  }

  lemma OpTextShape(op: Op)
    ensures Closed(OpText(op)) && |OpText(op)| == OpLength(op)
  {
    PlainIsClosed(OpText(op));
  }

  lemma EqualityShape(op: Op, a: string, w1: string, w2: string, b: string)
    requires AllSpace(w1) && AllSpace(w2) && Solid(a) && Inert(a) && Solid(b) && Closed(b)
    ensures var s := (a + w1) + (OpText(op) + (w2 + b)); Solid(s) && Closed(s)
    ensures Inert(a + w1) && !IsMark((a + w1)[|a + w1| - 1])
  {
    OpTextShape(op);
    HarmlessIsInert(w1);
    HarmlessIsInert(w2);
    InertConcat(a, w1);
    ClosedConcat(w2, b);
    ClosedConcat(OpText(op), w2 + b);
    ClosedConcat(a + w1, OpText(op) + (w2 + b));
  }

  /** Printed segments start with a dot or a bracket. */
  predicate SegmentsShaped(s: string) {
    s == "" || ((s[0] == '.' || s[0] == '[') && !IsSpace(s[|s| - 1]) && !IsMark(s[|s| - 1]))
  }

  lemma IdentChars(s: string)
    requires IsIdent(s) || IsDigits(s)
    ensures Harmless(s) && Solid(s)
  {
  }

  lemma {:induction false} PrintShape(e: Expr)
    requires Legal(e)
    ensures Solid(Print(e)) && Closed(Print(e))
    ensures !e.Equality? ==> NoEquality(Print(e))
    decreases e
  {
    match e
    case Keyword(w) => HarmlessIsInert(WordText(w));
    case Number(text) => NumberChars(text); HarmlessIsInert(text);
    case Text(quote, content) => TextShape(quote, content);
    case Path(head, segments) =>
      IdentChars(head);
      HarmlessIsInert(head);
      SegmentsShape(segments);
      InertConcat(head, PrintSegments(segments));
    case Not(w, operand) =>
      PrintShape(operand);
      GuardShape(operand, Print(operand));
      NotShape(w, Guard(operand, Print(operand)));
    case Paren(w1, inner, w2) =>
      PrintShape(inner);
      SpacedIsClosed(w1, Print(inner), w2);
      ClosedWrap('(', w1 + Print(inner) + w2, ')');
    case Equality(op, left, w1, w2, right) =>
      PrintShape(left);
      GuardShape(left, Print(left));
      PrintShape(right);
      EqualityShape(op, Guard(left, Print(left)), w1, w2, Print(right));
  }

  lemma {:induction false} SegmentsShape(segments: Segments)
    requires LegalSegments(segments)
    ensures SegmentsShaped(PrintSegments(segments)) && Inert(PrintSegments(segments))
    decreases segments
  {
    match segments
    case End => HarmlessIsInert("");
    case Dot(name, rest) =>
      SegmentsShape(rest);
      DotShape(name, PrintSegments(rest));
    case Index(w1, key, w2, rest) =>
      PrintShape(key);
      SpacedIsClosed(w1, Print(key), w2);
      SegmentsShape(rest);
      IndexShape(w1 + Print(key) + w2, PrintSegments(rest));
  }

  lemma DotShape(name: string, t: string)
    requires (IsIdent(name) || IsDigits(name)) && Inert(t) && SegmentsShaped(t)
    ensures SegmentsShaped("." + (name + t)) && Inert("." + (name + t))
  {
    IdentChars(name);
    HarmlessIsInert("." + name);
    InertConcat("." + name, t);
    assert "." + (name + t) == ("." + name) + t;
  }

  lemma IndexShape(inner: string, t: string)
    requires Closed(inner) && Inert(t) && SegmentsShaped(t)
    ensures SegmentsShaped("[" + (inner + ("]" + t))) && Inert("[" + (inner + ("]" + t)))
  {
    ClosedWrap('[', inner, ']');
    InertConcat(['['] + inner + [']'], t);
    assert "[" + (inner + ("]" + t)) == (['['] + inner + [']']) + t;
  }
}
