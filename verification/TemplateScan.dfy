/** The evaluator's scanning loops, proved against the functions of TemplateResolve. */
module TemplateScan {
  import opened Wrappers
  import R = TemplateResolve
  import opened JsString
  import opened TemplateResolve

  lemma LevelStep(k: Kind, s: string, i: nat)
    requires i < |s|
    ensures Level(k, s[..i + 1]) == Level(k, s[..i]) + Delta(k, s[i])
  {
    assert s[..i + 1][..i] == s[..i];
  }

  method ParensWrapWhole(expr: string) returns (whole: bool)
    ensures whole == R.ParensWrapWhole(expr)
  {
    var depth := 0;
    var i := 0;
    while i < |expr| - 1
      invariant i == 0 || i <= |expr| - 1
      invariant i <= |expr| && depth == Level(Round, expr[..i])
      invariant forall j: nat {:trigger ClosesAt(expr, j)} :: j < i ==> !ClosesAt(expr, j)
    {
      LevelStep(Round, expr, i);
      if expr[i] == '(' {
        depth := depth + 1;
      } else if expr[i] == ')' {
        depth := depth - 1;
        if depth == 0 {
          assert ClosesAt(expr, i);
          return false;
        }
      }
      i := i + 1;
    }
    return true;
  }

  method FindTopLevelEquality(expr: string) returns (eq: Option<(nat, Op)>)
    ensures eq.None? <==> FindEquality(expr).None?
    ensures eq.Some? ==> FindEquality(expr) == Some(eq.value.0) && eq.value.1 == OpAt(expr, eq.value.0)
  {
    var depth := 0;
    var i := 0;
    while i < |expr|
      invariant i <= |expr| && depth == Level(Both, expr[..i])
      invariant forall j: nat {:trigger EqualityAt(expr, j)} :: j < i ==> !EqualityAt(expr, j)
    {
      LevelStep(Both, expr, i);
      var c := expr[i];
      if c == '[' || c == '(' {
        depth := depth + 1;
      } else if c == ']' || c == ')' {
        depth := depth - 1;
      } else if depth == 0 && IsMark(c) && i + 1 < |expr| && expr[i + 1] == '=' {
        if !(i > 0 && IsMark(expr[i - 1])) && Trim(expr[..i]) != "" {
          assert FirstEquality(expr, i);
          return Some((i, OpAt(expr, i)));
        }
      }
      i := i + 1;
    }
    return None;
  }

  /** The inner loop of resolvePath: the matching `]` for the `[` at position `i`. */
  method MatchSquare(expr: string, i: nat) returns (close: Option<nat>)
    requires i < |expr| && expr[i] == '['
    ensures close.None? <==> FindClose(expr[i..]).None?
    ensures close.Some? ==> i < close.value < |expr| && FindClose(expr[i..]) == Some(close.value - i)
  {
    ghost var t := expr[i..];
    var depth := 1;
    var j := i + 1;
    assert t[..1] == "[";
    while j < |expr| && depth > 0
      invariant i < j <= |expr| && depth > 0 && depth == Level(Square, t[..j - i])
      invariant forall k: nat {:trigger SquareClosesAt(t, k)} :: k < j - i ==> !SquareClosesAt(t, k)
    {
      LevelStep(Square, t, j - i);
      if expr[j] == '[' {
        depth := depth + 1;
      } else if expr[j] == ']' {
        depth := depth - 1;
        if depth == 0 {
          assert FirstClose(t, j - i);
          return Some(j);
        }
      }
      j := j + 1;
    }
    return None;
  }

  /** Reads one segment: a name behind a dot, or the text between square brackets. */
  method ReadSegment(expr: string, i: nat) returns (seg: Option<(Segment, nat)>)
    requires i < |expr|
    ensures seg == NextSegment(expr[i..])
  {
    ghost var t := expr[i..];
    if expr[i] == '.' {
      assert t[1..] == expr[i + 1..];
      var n := NameLen(expr[i + 1..]);
      if n == 0 { return None; }
      assert t[1..1 + n] == expr[i + 1..i + 1 + n];
      return Some((Name(expr[i + 1..i + 1 + n]), 1 + n));
    } else if expr[i] == '[' {
      var close := MatchSquare(expr, i);
      if close.None? { return None; }
      assert t[1..close.value - i] == expr[i + 1..close.value];
      return Some((Key(expr[i + 1..close.value]), close.value + 1 - i));
    } else {
      return None;
    }
  }

  ghost function KeyValue(env: Env, seg: Segment): Value {
    match seg
    case Name(name) => Str(name)
    case Key(src) => R.Resolve(env, src)
  }

  lemma AfterSegment(env: Env, cur: Value, t: string, n: nat, seg: Segment, len: nat)
    requires t != "" && |t| <= n && NextSegment(t) == Some((seg, len))
    ensures FollowAll(env, cur, ParseSteps(t, n), n) ==
            FollowAll(env, GetProp(env, cur, KeyValue(env, seg)), ParseSteps(t[len..], n), n)
  {
  }

  lemma NoSegment(env: Env, cur: Value, t: string, n: nat)
    requires t != "" && |t| <= n && NextSegment(t) == None
    ensures FollowAll(env, cur, ParseSteps(t, n), n) == Undefined
  {
  }

  /** The mutually recursive pair, with the loops where the source has them. */
  method Resolve(env: Env, src: string) returns (v: Value)
    ensures v == R.Resolve(env, src)
    decreases |src|, 2
  {
    var expr := Trim(src);
    if expr == "" { return Undefined; }
    if expr[0] == '(' && expr[|expr| - 1] == ')' {
      var whole := ParensWrapWhole(expr);
      if whole {
        v := Resolve(env, expr[1..|expr| - 1]);
        return;
      }
    }
    v := ResolveBare(env, expr, src);
  }

  /** The rest of the evaluator, for an expression that no parentheses wrap. */
  method ResolveBare(env: Env, expr: string, ghost src: string) returns (v: Value)
    requires expr == Trim(src) && expr != "" && !IsWrapped(expr)
    ensures v == R.Resolve(env, src)
    decreases |expr|, 1
  {
    var eq := FindTopLevelEquality(expr);
    if eq.Some? {
      var (index, op) := eq.value;
      var lv := Resolve(env, expr[..index]);
      var rv := Resolve(env, expr[index + OpLength(op)..]);
      return Compare(env, op, lv, rv);
    }
    if expr[0] == '!' {
      var operand := Resolve(env, expr[1..]);
      return Bool(!Truthy(operand));
    }
    var literal := Literal(env, expr);
    if literal.Some? { return literal.value; }
    v := ResolvePath(env, expr);
  }

  method ResolvePath(env: Env, expr: string) returns (v: Value)
    ensures v == R.ResolvePath(env, expr)
    decreases |expr|, 0, 2
  {
    var i := IdentLen(expr);
    if i == 0 { return Undefined; }
    var cur := GetProp(env, env.root, Str(expr[..i]));
    while i < |expr|
      invariant 0 < i <= |expr|
      invariant R.ResolvePath(env, expr) == Rest(env, cur, expr, i)
    {
      var next := Advance(env, cur, expr, i);
      if next.None? { return Undefined; }
      cur, i := next.value.0, next.value.1;
    }
    NothingLeft(env, cur, expr);
    return cur;
  }

  /** The value at the end of the path, from `cur` and place `i` on. */
  ghost function Rest(env: Env, cur: Value, expr: string, i: nat): Value
    requires i <= |expr|
  {
    FollowAll(env, cur, ParseSteps(expr[i..], |expr|), |expr|)
  }

  lemma NothingLeft(env: Env, cur: Value, expr: string)
    ensures Rest(env, cur, expr, |expr|) == cur
  {
    assert expr[|expr|..] == "";
    assert FollowAll(env, cur, Some(Done), |expr|) == cur;
  }

  /** One round of the loop: the next segment and the property it names, or a malformed path. */
  method Advance(env: Env, cur: Value, expr: string, i: nat) returns (next: Option<(Value, nat)>)
    requires 0 < i < |expr|
    ensures next.None? ==> Rest(env, cur, expr, i) == Undefined
    ensures next.Some? ==> i < next.value.1 <= |expr|
    ensures next.Some? ==> Rest(env, cur, expr, i) == Rest(env, next.value.0, expr, next.value.1)
    decreases |expr|, 0, 1
  {
    var seg := ReadSegment(expr, i);
    if seg.None? {
      NoSegment(env, cur, expr[i..], |expr|);
      return None;
    }
    AfterSegment(env, cur, expr[i..], |expr|, seg.value.0, seg.value.1);
    var key := KeyOf(env, expr, seg.value.0);
    assert expr[i..][seg.value.1..] == expr[i + seg.value.1..];
    next := Some((GetProp(env, cur, key), i + seg.value.1));
  }

  method KeyOf(env: Env, ghost expr: string, seg: Segment) returns (key: Value)
    requires seg.Key? ==> |seg.src| < |expr|
    ensures key == KeyValue(env, seg)
    decreases |expr|, 0, 0
  {
    match seg
    case Name(name) => key := Str(name);
    case Key(src) => key := Resolve(env, src);
  }
}
