/** The operations of String.prototype that several modules share. */
module JsString {
  /** WhiteSpace and LineTerminator of ECMA-262, which trim() removes. */
  predicate IsSpace(c: char) {
    var n := c as int;
    || 9 <= n <= 13 || n == 32 || n == 0xA0 || n == 0x1680 || 0x2000 <= n <= 0x200A
    || n == 0x2028 || n == 0x2029 || n == 0x202F || n == 0x205F || n == 0x3000 || n == 0xFEFF
  }

  function TrimStart(s: string): (r: string)
    ensures |r| <= |s|
  {
    if s != "" && IsSpace(s[0]) then TrimStart(s[1..]) else s
  }

  function TrimEnd(s: string): (r: string)
    ensures |r| <= |s|
  {
    if s != "" && IsSpace(s[|s| - 1]) then TrimEnd(s[..|s| - 1]) else s
  }

  function Trim(s: string): (r: string)
    ensures |r| <= |s|
  {
    TrimEnd(TrimStart(s))
  }

  // ----- split and join on one character -----

  function Split(s: string, c: char): (r: seq<string>)
    ensures |r| >= 1
  {
    if s == "" then [""]
    else
      var rest := Split(s[1..], c);
      if s[0] == c then [""] + rest else [[s[0]] + rest[0]] + rest[1..]
  }

  function Join(parts: seq<string>, c: char): string {
    if parts == [] then "" else if |parts| == 1 then parts[0] else parts[0] + [c] + Join(parts[1..], c)
  }

  lemma {:induction false} JoinSplit(s: string, c: char)
    ensures Join(Split(s, c), c) == s
  {
    if s != "" {
      var rest := Split(s[1..], c);
      JoinSplit(s[1..], c);
      if s[0] == c {
        assert ([""] + rest)[1..] == rest;
      } else {
        assert ([[s[0]] + rest[0]] + rest[1..])[1..] == rest[1..];
      }
    }
  }

  lemma {:induction false} PartsAreFree(s: string, c: char, i: nat)
    requires i < |Split(s, c)|
    ensures c !in Split(s, c)[i]
  {
    if s != "" {
      if s[0] == c {
        if i > 0 { PartsAreFree(s[1..], c, i - 1); }
      } else {
        PartsAreFree(s[1..], c, i);
      }
    }
  }

  /** Up to the first separator, and what follows it. */
  lemma {:induction false} SplitAtFirst(a: string, b: string, c: char)
    requires c !in a
    ensures Split(a + [c] + b, c) == [a] + Split(b, c)
  {
    var s := a + [c] + b;
    if a == "" {
      assert s[1..] == b;
    } else {
      assert s[1..] == a[1..] + [c] + b;
      SplitAtFirst(a[1..], b, c);
      assert a == [a[0]] + a[1..];
    }
  }

  lemma {:induction false} SplitFree(s: string, c: char)
    requires c !in s
    ensures Split(s, c) == [s]
  {
    if s != "" {
      SplitFree(s[1..], c);
      assert s == [s[0]] + s[1..];
    }
  }

  ghost predicate AllFree(parts: seq<string>, c: char) {
    forall i :: 0 <= i < |parts| ==> c !in parts[i]
  }

  lemma {:induction false} SplitJoin(parts: seq<string>, c: char)
    requires parts != [] && AllFree(parts, c)
    ensures Split(Join(parts, c), c) == parts
  {
    if |parts| == 1 {
      SplitFree(parts[0], c);
    } else {
      SplitJoin(parts[1..], c);
      SplitAtFirst(parts[0], Join(parts[1..], c), c);
    }
  }

  // ----- toLowerCase on ASCII -----

  function Lower(c: char): char { if 'A' <= c <= 'Z' then c + 32 as char else c }

  function ToLower(s: string): (r: string)
    ensures |r| == |s| && forall i :: 0 <= i < |s| ==> r[i] == Lower(s[i])
  {
    seq(|s|, i requires 0 <= i < |s| => Lower(s[i]))
  }

  // ----- Trimming -----

  predicate IsTrimmed(s: string) {
    s == "" || (!IsSpace(s[0]) && !IsSpace(s[|s| - 1]))
  }

  lemma TrimmedStays(s: string)
    requires IsTrimmed(s)
    ensures Trim(s) == s
  {
  }

  lemma {:induction false} TrimEndEnds(s: string)
    ensures TrimEnd(s) == "" || !IsSpace(TrimEnd(s)[|TrimEnd(s)| - 1])
    ensures TrimEnd(s) <= s
  {
    if s != "" && IsSpace(s[|s| - 1]) { TrimEndEnds(s[..|s| - 1]); }
  }

  lemma {:induction false} TrimStartStarts(s: string)
    ensures TrimStart(s) == "" || !IsSpace(TrimStart(s)[0])
  {
    if s != "" && IsSpace(s[0]) { TrimStartStarts(s[1..]); }
  }

  lemma TrimTrims(s: string)
    ensures IsTrimmed(Trim(s))
  {
    TrimStartStarts(s);
    TrimEndEnds(TrimStart(s));
  }

  /** What stands before a last character that is no space is trimmed at its start only. */
  lemma {:induction false} TrimEndedBy(s: string, t: string)
    requires t != "" && IsTrimmed(t)
    ensures exists u :: Trim(s + t) == u + t
  {
    if s == "" {
      assert s + t == t;
      assert Trim(t) == "" + t;
    } else if IsSpace(s[0]) {
      assert (s + t)[1..] == s[1..] + t;
      TrimEndedBy(s[1..], t);
    } else {
      assert Trim(s + t) == s + t;
    }
  }

  predicate AllSpace(s: string) { forall i :: 0 <= i < |s| ==> IsSpace(s[i]) }

  lemma {:induction false} TrimStartSpaced(pre: string, t: string)
    requires AllSpace(pre) && t != "" && !IsSpace(t[0])
    ensures TrimStart(pre + t) == t
  {
    if pre == "" {
      assert pre + t == t;
    } else {
      assert (pre + t)[1..] == pre[1..] + t;
      TrimStartSpaced(pre[1..], t);
    }
  }

  lemma {:induction false} TrimEndSpaced(t: string, post: string)
    requires AllSpace(post) && t != "" && !IsSpace(t[|t| - 1])
    ensures TrimEnd(t + post) == t
  {
    if post == "" {
      assert t + post == t;
    } else {
      assert (t + post)[..|t + post| - 1] == t + post[..|post| - 1];
      TrimEndSpaced(t, post[..|post| - 1]);
    }
  }

  /** Trimming takes the space around a trimmed text, and nothing else. */
  lemma TrimSpaced(pre: string, t: string, post: string)
    requires AllSpace(pre) && AllSpace(post) && t != "" && IsTrimmed(t)
    ensures Trim(pre + t + post) == t
  {
    assert pre + t + post == pre + (t + post);
    TrimStartSpaced(pre, t + post);
    TrimEndSpaced(t, post);
  }

  // ----- What the characters are, in ASCII -----

  /** Space, tab, line feed, vertical tab, form feed and carriage return, and no other ASCII character. */
  lemma AsciiSpaces(c: char)
    requires c < 128 as char
    ensures IsSpace(c) <==> c in {' ', '\t', '\n', 11 as char, 12 as char, '\r'}
  {
  }

  /** The capitals become the small letters of the same places, and nothing else changes. */
  lemma CapitalsAreLowered(s: string, i: nat)
    requires i < |s|
    ensures |ToLower(s)| == |s|
    ensures 'A' <= s[i] <= 'Z' ==> ToLower(s)[i] as int - 'a' as int == s[i] as int - 'A' as int
    ensures !('A' <= s[i] <= 'Z') ==> ToLower(s)[i] == s[i]
  {
  }
}
