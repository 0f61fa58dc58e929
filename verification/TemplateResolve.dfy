/** The string evaluator for template expressions, as functions on strings. */
module TemplateResolve {
  import opened Wrappers
  import opened JsString

  /** JavaScript values; an object is known by its identity. */
  datatype Value = Undefined | Null | Bool(b: bool) | Num(x: real) | NaN | Str(s: string) | Obj(id: nat)

  /** `root` is the object of values; property access, `==` and Number() are parameters. */
  datatype Env = Env(
    root: Value,
    get: (Value, Value) -> Value,
    looseEq: (Value, Value) -> bool,
    number: string -> Value)

  datatype Op = StrictEq | StrictNe | LooseEq | LooseNe

  // ----- Characters -----

  predicate IsDigit(c: char) { '0' <= c <= '9' }

  predicate IsIdentStart(c: char) { 'A' <= c <= 'Z' || 'a' <= c <= 'z' || c == '_' || c == '$' }

  predicate IsIdentPart(c: char) { IsIdentStart(c) || IsDigit(c) }

  predicate IsMark(c: char) { c == '=' || c == '!' }

  // ----- Nesting -----

  datatype Kind = Round | Square | Both

  function Delta(k: Kind, c: char): int {
    if (c == '(' && k != Square) || (c == '[' && k != Round) then 1
    else if (c == ')' && k != Square) || (c == ']' && k != Round) then -1
    else 0
  }

  /** Opening minus closing brackets of the kind. */
  function Level(k: Kind, s: string): int {
    if s == "" then 0 else Level(k, s[..|s| - 1]) + Delta(k, s[|s| - 1])
  }

  predicate ClosesAt(s: string, i: nat) {
    i < |s| && s[i] == ')' && Level(Round, s[..i + 1]) == 0
  }

  /** No parenthesis before the last character brings the nesting back to the outside. */
  predicate ParensWrapWhole(s: string) {
    forall i: nat {:trigger ClosesAt(s, i)} :: i < |s| - 1 ==> !ClosesAt(s, i)
  }

  /** An equality operator outside brackets, with something before it. */
  predicate EqualityAt(s: string, i: nat) {
    && i + 1 < |s| && IsMark(s[i]) && s[i + 1] == '='
    && Level(Both, s[..i]) == 0
    && !(i > 0 && IsMark(s[i - 1]))
    && Trim(s[..i]) != ""
  }

  ghost predicate FirstEquality(s: string, i: nat) {
    EqualityAt(s, i) && forall j: nat {:trigger EqualityAt(s, j)} :: j < i ==> !EqualityAt(s, j)
  }

  /** The first such position. */
  ghost function FindEquality(s: string): (r: Option<nat>)
    ensures r.Some? ==> FirstEquality(s, r.value)
  {
    if i: nat :| FirstEquality(s, i) then Some(i) else None
  }

  function OpAt(s: string, i: nat): Op
    requires i < |s|
  {
    if i + 2 < |s| && s[i + 2] == '=' then (if s[i] == '=' then StrictEq else StrictNe)
    else (if s[i] == '=' then LooseEq else LooseNe)
  }

  function OpLength(op: Op): nat {
    if op == StrictEq || op == StrictNe then 3 else 2
  }

  // ----- Tokens -----

  /** The length of the longest prefix of digits. */
  function DigitsLen(s: string): (n: nat)
    ensures n <= |s|
  {
    if s != "" && IsDigit(s[0]) then 1 + DigitsLen(s[1..]) else 0
  }

  function IdentPartsLen(s: string): (n: nat)
    ensures n <= |s|
  {
    if s != "" && IsIdentPart(s[0]) then 1 + IdentPartsLen(s[1..]) else 0
  }

  /** The length of the identifier at the start, or 0. */
  function IdentLen(s: string): (n: nat)
    ensures n <= |s|
  {
    if s != "" && IsIdentStart(s[0]) then 1 + IdentPartsLen(s[1..]) else 0
  }

  /** An identifier, or else digits: what may follow a dot. */
  function NameLen(s: string): (n: nat)
    ensures n <= |s|
  {
    if IdentLen(s) > 0 then IdentLen(s) else DigitsLen(s)
  }

  predicate IsNumber(s: string) {
    var t := if s != "" && s[0] == '-' then s[1..] else s;
    var n := DigitsLen(t);
    n > 0 && (n == |t| || (t[n] == '.' && n + 1 < |t| && DigitsLen(t[n + 1..]) == |t| - n - 1))
  }

  /** The bracket at the front is closed by the one at `j`. */
  predicate SquareClosesAt(t: string, j: nat) {
    0 < j < |t| && t[j] == ']' && Level(Square, t[..j + 1]) == 0
  }

  ghost predicate FirstClose(t: string, j: nat) {
    SquareClosesAt(t, j) &&
    forall k: nat {:trigger SquareClosesAt(t, k)} :: k < j ==> !SquareClosesAt(t, k)
  }

  ghost function FindClose(t: string): (r: Option<nat>)
    ensures r.Some? ==> FirstClose(t, r.value)
  {
    if j: nat :| FirstClose(t, j) then Some(j) else None
  }

  datatype Segment = Name(name: string) | Key(src: string)

  /** The path segment at the front of `t`, and its length. */
  ghost function NextSegment(t: string): (r: Option<(Segment, nat)>)
    requires t != ""
    ensures r.Some? ==> 0 < r.value.1 <= |t|
    ensures r.Some? && r.value.0.Key? ==> |r.value.0.src| < |t|
  {
    if t[0] == '.' then
      var n := NameLen(t[1..]);
      if n == 0 then None else Some((Name(t[1..1 + n]), 1 + n))
    else if t[0] == '[' then
      var close := FindClose(t);
      if close.None? then None else Some((Key(t[1..close.value]), close.value + 1))
    else None
  }

  datatype Steps = Done | Step(seg: Segment, rest: Steps)

  /** Every computed key is shorter than `n`. */
  ghost predicate Shorter(steps: Steps, n: nat) {
    steps.Step? ==> (steps.seg.Key? ==> |steps.seg.src| < n) && Shorter(steps.rest, n)
  }

  /** The segments that make up `t`, if it is made up of segments; `n` bounds its length. */
  ghost function ParseSteps(t: string, n: nat): (r: Option<Steps>)
    requires |t| <= n
    ensures r.Some? ==> Shorter(r.value, n)
    decreases |t|
  {
    if t == "" then Some(Done)
    else
      match NextSegment(t)
      case None => None
      case Some((seg, len)) =>
        var rest := ParseSteps(t[len..], n);
        if rest.None? then None else Some(Step(seg, rest.value))
  }

  // ----- Evaluation -----

  predicate Truthy(v: Value) {
    match v
    case Undefined => false
    case Null => false
    case NaN => false
    case Bool(b) => b
    case Num(x) => x != 0.0
    case Str(s) => s != ""
    case Obj(_) => true
  }

  predicate Identical(a: Value, b: Value) {
    a == b && a != NaN
  }

  function Compare(env: Env, op: Op, a: Value, b: Value): Value {
    match op
    case StrictEq => Bool(Identical(a, b))
    case StrictNe => Bool(!Identical(a, b))
    case LooseEq => Bool(env.looseEq(a, b))
    case LooseNe => Bool(!env.looseEq(a, b))
  }

  function GetProp(env: Env, v: Value, key: Value): Value {
    if v == Undefined || v == Null then Undefined else env.get(v, key)
  }

  predicate IsQuoted(s: string) {
    |s| >= 2 && (s[0] == '"' || s[0] == '\'') && s[|s| - 1] == s[0]
  }

  predicate IsWrapped(s: string)
    ensures IsWrapped(s) ==> |s| >= 2
  {
    s != "" && s[0] == '(' && s[|s| - 1] == ')' && ParensWrapWhole(s)
  }

  /** The literal tests, in the order of the source. */
  function Literal(env: Env, s: string): Option<Value> {
    if s == "true" then Some(Bool(true))
    else if s == "false" then Some(Bool(false))
    else if s == "null" then Some(Null)
    else if s == "undefined" then Some(Undefined)
    else if IsNumber(s) then Some(env.number(s))
    else if IsQuoted(s) then Some(Str(s[1..|s| - 1]))
    else None
  }

  ghost function Resolve(env: Env, src: string): Value
    decreases |src|, 3
  {
    var s := Trim(src);
    if s == "" then Undefined
    else if IsWrapped(s) then Resolve(env, s[1..|s| - 1])
    else
      var eq := FindEquality(s);
      if eq.Some? then
        var op := OpAt(s, eq.value);
        Compare(env, op, Resolve(env, s[..eq.value]), Resolve(env, s[eq.value + OpLength(op)..]))
      else if s[0] == '!' then Bool(!Truthy(Resolve(env, s[1..])))
      else if Literal(env, s).Some? then Literal(env, s).value
      else ResolvePath(env, s)
  }

  ghost function ResolvePath(env: Env, s: string): Value
    decreases |s|, 2
  {
    var n := IdentLen(s);
    if n == 0 then Undefined else FollowAll(env, GetProp(env, env.root, Str(s[..n])), ParseSteps(s[n..], |s|), |s|)
  }

  /** A malformed path has no value. */
  ghost function FollowAll(env: Env, cur: Value, steps: Option<Steps>, n: nat): Value
    requires steps.Some? ==> Shorter(steps.value, n)
    decreases n, 1
  {
    if steps.None? then Undefined else Follow(env, cur, steps.value, n)
  }

  /** The value at the end of the steps. */
  ghost function Follow(env: Env, cur: Value, steps: Steps, n: nat): Value
    requires Shorter(steps, n)
    decreases n, 0, steps
  {
    match steps
    case Done => cur
    case Step(Name(name), rest) => Follow(env, GetProp(env, cur, Str(name)), rest, n)
    case Step(Key(src), rest) => Follow(env, GetProp(env, cur, Resolve(env, src)), rest, n)
  }
}
