/** The search box: a query matches when its characters occur in the input in order. */
module Fuzzy {
  import opened JsString

  /** The needle is the source with some characters left out. */
  ghost predicate IsSubsequence(needle: string, source: string) {
    exists at: seq<nat> :: Embeds(at, needle, source)
  }

  /** `at` gives the ascending places in the source where the needle's characters stand. */
  ghost predicate Embeds(at: seq<nat>, needle: string, source: string) {
    && |at| == |needle|
    && (forall i :: 0 <= i < |at| ==> at[i] < |source| && source[at[i]] == needle[i])
    && (forall i, j :: 0 <= i < j < |at| ==> at[i] < at[j])
  }

  predicate StandsAt(needle: string, source: string, i: nat) {
    i + |needle| <= |source| && source[i..i + |needle|] == needle
  }

  predicate IsSubstring(needle: string, source: string) {
    exists i: nat :: i <= |source| && StandsAt(needle, source, i)
  }

  /** How far the greedy walk gets in the needle after the given characters of the source. */
  function Reached(needle: string, source: string): (r: nat)
    ensures r <= |needle| && r <= |source|
  {
    if source == "" then 0
    else
      var r := Reached(needle, source[..|source| - 1]);
      if r < |needle| && source[|source| - 1] == needle[r] then r + 1 else r
  }

  /** `lower` is toLowerCase. */
  method FuzzyIncludes(lower: string -> string, input: string, query: string) returns (r: bool)
    ensures r <==> IsSubsequence(lower(Trim(query)), lower(input))
  {
    var source, needle := lower(input), lower(Trim(query));
    if needle == "" {
      assert Embeds([], needle, source);
      return true;
    }
    if IsSubstring(needle, source) {
      SubstringIsSubsequence(needle, source);
      return true;
    }
    var qi, si := 0, 0;
    while si < |source| && qi < |needle|
      invariant 0 <= si <= |source| && qi == Reached(needle, source[..si])
    {
      assert source[..si + 1][..si] == source[..si];
      if source[si] == needle[qi] { qi := qi + 1; }
      si := si + 1;
    }
    if si < |source| { ReachedStays(needle, source, si); }
    assert source[..|source|] == source;
    GreedyIsComplete(needle, source);
    return qi == |needle|;
  }

  lemma {:induction false} ReachedStays(needle: string, source: string, si: nat)
    requires si <= |source| && Reached(needle, source[..si]) == |needle|
    ensures Reached(needle, source) == |needle|
    decreases |source| - si
  {
    if si < |source| {
      assert source[..si + 1][..si] == source[..si];
      ReachedStays(needle, source, si + 1);
    } else {
      assert source[..si] == source;
    }
  }

  // ----- The greedy walk is complete -----

  lemma {:induction false} ReachedEmbeds(needle: string, source: string) returns (at: seq<nat>)
    ensures Embeds(at, needle[..Reached(needle, source)], source)
  {
    if source == "" {
      at := [];
    } else {
      var n := |source| - 1;
      var front := source[..n];
      at := ReachedEmbeds(needle, front);
      if Reached(needle, source) > Reached(needle, front) { at := at + [n]; }
    }
  }

  /** No embedding of a start of the needle gets further than the walk. */
  lemma {:induction false} NoneGetsFurther(needle: string, source: string, k: nat, at: seq<nat>)
    requires k <= |needle| && Embeds(at, needle[..k], source)
    ensures k <= Reached(needle, source)
  {
    if k > 0 {
      assert at[k - 1] < |source|;
      var n := |source| - 1;
      var front := source[..n];
      if at[k - 1] < n {
        NoneGetsFurther(needle, front, k, at);
      } else {
        NoneGetsFurther(needle, front, k - 1, at[..k - 1]);
      }
    }
  }

  lemma GreedyIsComplete(needle: string, source: string)
    ensures Reached(needle, source) == |needle| <==> IsSubsequence(needle, source)
  {
    assert needle[..|needle|] == needle;
    if Reached(needle, source) == |needle| {
      var at := ReachedEmbeds(needle, source);
    }
    if at :| Embeds(at, needle, source) { NoneGetsFurther(needle, source, |needle|, at); }
  }

  // ----- Consequences -----

  /** The test for a substring finds nothing that the walk does not. */
  lemma SubstringIsSubsequence(needle: string, source: string)
    requires IsSubstring(needle, source)
    ensures IsSubsequence(needle, source) && Reached(needle, source) == |needle|
  {
    var i: nat :| i <= |source| && StandsAt(needle, source, i);
    var at := seq(|needle|, k requires 0 <= k < |needle| => i + k);
    forall k | 0 <= k < |at| ensures at[k] < |source| && source[at[k]] == needle[k] {
      assert source[i..i + |needle|][k] == source[i + k];
    }
    assert Embeds(at, needle, source);
    GreedyIsComplete(needle, source);
  }

  lemma SubsequenceIsTransitive(a: string, b: string, c: string)
    requires IsSubsequence(a, b) && IsSubsequence(b, c)
    ensures IsSubsequence(a, c)
  {
    var x :| Embeds(x, a, b);
    var y :| Embeds(y, b, c);
    assert Embeds(seq(|a|, i requires 0 <= i < |a| => y[x[i]]), a, c);
  }

  /** Leaving characters out of a query that matches, or putting some into the input, keeps the match. */
  lemma FewerCharactersStillMatch(less: string, needle: string, source: string, more: string)
    requires IsSubsequence(less, needle) && IsSubsequence(needle, source) && IsSubsequence(source, more)
    ensures Reached(less, more) == |less|
  {
    SubsequenceIsTransitive(less, needle, source);
    SubsequenceIsTransitive(less, source, more);
    GreedyIsComplete(less, more);
  }
}
