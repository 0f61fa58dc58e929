/** A map that remembers insertion order: setting a present key replaces its value in place. */
module OrderedDedup {
  import opened Wrappers

  datatype Ordered<V> = Ordered(keys: seq<string>, vals: map<string, V>)
  {
    ghost predicate Valid() {
      NoDup(keys) && forall k :: k in keys <==> k in vals
    }

    function Set(k: string, v: V): Ordered<V> {
      Ordered(if k in vals then keys else keys + [k], vals[k := v])
    }
  }

  datatype Entry<V> = Entry(key: string, val: V)

  function Empty<V>(): Ordered<V> { Ordered([], map[]) }

  /** One Set after the other. */
  function SetAll<V>(m: Ordered<V>, es: seq<Entry<V>>): Ordered<V> {
    if es == [] then m
    else var last := es[|es| - 1]; SetAll(m, es[..|es| - 1]).Set(last.key, last.val)
  }

  function Values<V>(m: Ordered<V>): (r: seq<V>)
    requires m.Valid()
    ensures |r| == |m.keys| && forall i :: 0 <= i < |r| ==> r[i] == m.vals[m.keys[i]]
  {
    seq(|m.keys|, i requires 0 <= i < |m.keys| => assert m.keys[i] in m.keys; m.vals[m.keys[i]])
  }

  lemma SetKeepsValid<V>(m: Ordered<V>, k: string, v: V)
    requires m.Valid()
    ensures m.Set(k, v).Valid()
  {
  }

  lemma {:induction false} SetAllValid<V>(m: Ordered<V>, es: seq<Entry<V>>)
    requires m.Valid()
    ensures SetAll(m, es).Valid()
  {
    if es != [] {
      var front, last := es[..|es| - 1], es[|es| - 1];
      SetAllValid(m, front);
      SetKeepsValid(SetAll(m, front), last.key, last.val);
    }
  }

  lemma SetAllSnoc<V>(m: Ordered<V>, es: seq<Entry<V>>, e: Entry<V>)
    ensures SetAll(m, es + [e]) == SetAll(m, es).Set(e.key, e.val)
  {
    assert (es + [e])[..|es|] == es;
  }

  lemma {:induction false} SetAllAppend<V>(m: Ordered<V>, a: seq<Entry<V>>, b: seq<Entry<V>>)
    ensures SetAll(m, a + b) == SetAll(SetAll(m, a), b)
  {
    if b == [] {
      assert a + b == a;
    } else {
      SetAllAppend(m, a, b[..|b| - 1]);
      assert a + b == (a + b[..|b| - 1]) + [b[|b| - 1]];
      SetAllSnoc(m, a + b[..|b| - 1], b[|b| - 1]);
    }
  }

  // ----- What is left after all entries were set -----

  predicate KeyAt<V>(es: seq<Entry<V>>, i: nat, k: string) { i < |es| && es[i].key == k }

  ghost predicate HasKey<V(!new)>(es: seq<Entry<V>>, k: string) { exists i: nat :: KeyAt(es, i, k) }

  ghost predicate IsFirst<V(!new)>(es: seq<Entry<V>>, k: string, i: nat) {
    KeyAt(es, i, k) && forall j: nat :: j < i ==> !KeyAt(es, j, k)
  }

  ghost predicate IsLast<V(!new)>(es: seq<Entry<V>>, k: string, i: nat) {
    KeyAt(es, i, k) && forall j: nat :: i < j ==> !KeyAt(es, j, k)
  }

  /** A key is there if and only if some entry has it. */
  lemma {:induction false} KeyThere<V(!new)>(es: seq<Entry<V>>, k: string)
    ensures k in SetAll(Empty<V>(), es).vals <==> HasKey(es, k)
  {
    if es != [] {
      var n := |es| - 1;
      KeyThere(es[..n], k);
      if i: nat :| KeyAt(es, i, k) {
        assert i < n ==> KeyAt(es[..n], i, k);
      }
      if i: nat :| KeyAt(es[..n], i, k) {
        assert KeyAt(es, i, k);
      }
      assert es[n].key == k ==> KeyAt(es, n, k);
    }
  }

  /** The value under a key is that of its last entry. */
  lemma {:induction false} LastEntryWins<V(!new)>(es: seq<Entry<V>>, k: string, i: nat)
    requires IsLast(es, k, i)
    ensures var m := SetAll(Empty<V>(), es); k in m.vals && m.vals[k] == es[i].val
  {
    var n := |es| - 1;
    if i < n {
      assert !KeyAt(es, n, k);
      forall j: nat | i < j ensures !KeyAt(es[..n], j, k) {
        assert !KeyAt(es, j, k);
      }
      LastEntryWins(es[..n], k, i);
    }
  }

  /** Keys stand in the order of their first entries. */
  lemma {:induction false} FirstEntryPlaces<V(!new)>(es: seq<Entry<V>>, p: nat, q: nat, i: nat, j: nat)
    requires var ks := SetAll(Empty<V>(), es).keys; p < q < |ks| && IsFirst(es, ks[p], i) && IsFirst(es, ks[q], j)
    ensures i < j
  {
    SetAllValid(Empty<V>(), es);
    var n := |es| - 1;
    var front := es[..n];
    var before := SetAll(Empty<V>(), front);
    SetAllValid(Empty<V>(), front);
    var ks := SetAll(Empty<V>(), es).keys;
    assert ks[p] in before.vals by { assert before.keys[p] == ks[p]; }
    KeyThere(front, ks[p]);
    FirstInFront(es, ks[p], i);
    if q < |before.keys| {
      assert before.keys[q] == ks[q];
      KeyThere(front, ks[q]);
      FirstInFront(es, ks[q], j);
      FirstEntryPlaces(front, p, q, i, j);
    } else {
      KeyThere(front, ks[q]);
      assert !KeyAt(front, j, ks[q]);
    }
  }

  lemma FirstInFront<V(!new)>(es: seq<Entry<V>>, k: string, i: nat)
    requires es != [] && IsFirst(es, k, i) && HasKey(es[..|es| - 1], k)
    ensures IsFirst(es[..|es| - 1], k, i)
  {
    var front := es[..|es| - 1];
    var j: nat :| KeyAt(front, j, k);
    assert KeyAt(es, j, k);
    assert KeyAt(front, i, k);
    forall m: nat | m < i ensures !KeyAt(front, m, k) {
      assert !KeyAt(es, m, k);
    }
  }

  // ----- Mapping the values -----

  function MapEntries<V, W>(f: V -> W, es: seq<Entry<V>>): (r: seq<Entry<W>>)
    ensures |r| == |es| && forall i :: 0 <= i < |r| ==> r[i] == Entry(es[i].key, f(es[i].val))
  {
    seq(|es|, i requires 0 <= i < |es| => Entry(es[i].key, f(es[i].val)))
  }

  function MapSeq<V, W>(f: V -> W, s: seq<V>): (r: seq<W>)
    ensures |r| == |s| && forall i :: 0 <= i < |r| ==> r[i] == f(s[i])
  {
    seq(|s|, i requires 0 <= i < |s| => f(s[i]))
  }

  /** Deduplicating mapped entries is mapping the deduplicated ones. */
  lemma {:induction false} MapThenSet<V, W>(f: V -> W, es: seq<Entry<V>>)
    ensures var m, n := SetAll(Empty<V>(), es), SetAll(Empty<W>(), MapEntries(f, es));
            n.keys == m.keys && n.vals.Keys == m.vals.Keys && forall k :: k in m.vals ==> n.vals[k] == f(m.vals[k])
  {
    if es != [] {
      var front := es[..|es| - 1];
      MapThenSet(f, front);
      assert MapEntries(f, es)[..|es| - 1] == MapEntries(f, front);
    }
  }

  lemma ValuesOfMapped<V, W>(f: V -> W, es: seq<Entry<V>>)
    ensures SetAll(Empty<V>(), es).Valid() && SetAll(Empty<W>(), MapEntries(f, es)).Valid()
    ensures Values(SetAll(Empty<W>(), MapEntries(f, es))) == MapSeq(f, Values(SetAll(Empty<V>(), es)))
  {
    SetAllValid(Empty<V>(), es);
    SetAllValid(Empty<W>(), MapEntries(f, es));
    MapThenSet(f, es);
    var m := SetAll(Empty<V>(), es);
    forall i | 0 <= i < |m.keys| ensures m.keys[i] in m.vals {
      assert m.keys[i] in m.keys;
    }
  }

  // ----- Keeping the first entry of a key instead -----

  function KeepFirst<V>(es: seq<Entry<V>>): Ordered<V> {
    if es == [] then Empty()
    else
      var before, last := KeepFirst(es[..|es| - 1]), es[|es| - 1];
      if last.key in before.vals then before else before.Set(last.key, last.val)
  }

  lemma {:induction false} SameKeys<V>(es: seq<Entry<V>>)
    ensures KeepFirst(es).keys == SetAll(Empty<V>(), es).keys
    ensures KeepFirst(es).vals.Keys == SetAll(Empty<V>(), es).vals.Keys
  {
    if es != [] { SameKeys(es[..|es| - 1]); }
  }

  lemma {:induction false} FirstEntryKept<V(!new)>(es: seq<Entry<V>>, k: string, i: nat)
    requires IsFirst(es, k, i)
    ensures k in KeepFirst(es).vals && KeepFirst(es).vals[k] == es[i].val
  {
    var n := |es| - 1;
    SameKeys(es[..n]);
    KeyThere(es[..n], k);
    if i < n {
      assert KeyAt(es[..n], i, k);
      FirstInFront(es, k, i);
      FirstEntryKept(es[..n], k, i);
    } else {
      assert !HasKey(es[..n], k) by {
        forall j: nat ensures !KeyAt(es[..n], j, k) {
          assert j < n ==> !KeyAt(es, j, k);
        }
      }
    }
  }

  /** The first and the last entry of every key agree. */
  ghost predicate EndsAgree<V(!new)>(es: seq<Entry<V>>) {
    forall k, i: nat, j: nat :: IsFirst(es, k, i) && IsLast(es, k, j) ==> es[i].val == es[j].val
  }

  lemma {:induction false} HasFirst<V(!new)>(es: seq<Entry<V>>, k: string, i: nat) returns (j: nat)
    requires KeyAt(es, i, k)
    ensures IsFirst(es, k, j)
  {
    if m: nat :| m < i && KeyAt(es, m, k) {
      j := HasFirst(es, k, m);
    } else {
      j := i;
    }
  }

  lemma {:induction false} HasLast<V(!new)>(es: seq<Entry<V>>, k: string, i: nat) returns (j: nat)
    requires KeyAt(es, i, k)
    ensures IsLast(es, k, j)
    decreases |es| - i
  {
    if m: nat :| i < m && KeyAt(es, m, k) {
      j := HasLast(es, k, m);
    } else {
      j := i;
    }
  }

  lemma FirstIsLastIff<V(!new)>(es: seq<Entry<V>>)
    ensures KeepFirst(es) == SetAll(Empty<V>(), es) <==> EndsAgree(es)
  {
    SameKeys(es);
    var a, b := KeepFirst(es), SetAll(Empty<V>(), es);
    if EndsAgree(es) {
      forall k | k in a.vals ensures a.vals[k] == b.vals[k] {
        KeyThere(es, k);
        var m: nat :| KeyAt(es, m, k);
        var i := HasFirst(es, k, m);
        var j := HasLast(es, k, m);
        FirstEntryKept(es, k, i);
        LastEntryWins(es, k, j);
      }
      assert a.vals == b.vals;
    }
    if a == b {
      forall k, i: nat, j: nat | IsFirst(es, k, i) && IsLast(es, k, j) ensures es[i].val == es[j].val {
        FirstEntryKept(es, k, i);
        LastEntryWins(es, k, j);
      }
    }
  }

  // ----- Keys that come once -----

  ghost predicate KeysOnce<V(!new)>(es: seq<Entry<V>>) {
    forall i: nat, j: nat :: i < j < |es| ==> es[i].key != es[j].key
  }

  function ValuesOf<V>(es: seq<Entry<V>>): (r: seq<V>)
    ensures |r| == |es| && forall i :: 0 <= i < |r| ==> r[i] == es[i].val
  {
    seq(|es|, i requires 0 <= i < |es| => es[i].val)
  }

  lemma LastIsNew<V(!new)>(es: seq<Entry<V>>)
    requires es != [] && KeysOnce(es)
    ensures KeysOnce(es[..|es| - 1]) && !HasKey(es[..|es| - 1], es[|es| - 1].key)
  {
  }

  function KeysOf<V>(es: seq<Entry<V>>): (r: seq<string>)
    ensures |r| == |es| && forall i :: 0 <= i < |r| ==> r[i] == es[i].key
  {
    seq(|es|, i requires 0 <= i < |es| => es[i].key)
  }

  lemma NewKeyIsLast<V>(m: Ordered<V>, k: string, v: V)
    requires m.Valid() && k !in m.vals
    ensures m.Set(k, v).Valid() && m.Set(k, v).keys == m.keys + [k] && Values(m.Set(k, v)) == Values(m) + [v]
  {
    SetKeepsValid(m, k, v);
    forall i | 0 <= i < |m.keys| ensures m.Set(k, v).vals[m.keys[i]] == m.vals[m.keys[i]] {
      assert m.keys[i] in m.keys;
    }
  }

  lemma FrontAndLast<V>(es: seq<Entry<V>>)
    requires es != []
    ensures var n := |es| - 1;
            KeysOf(es) == KeysOf(es[..n]) + [es[n].key] && ValuesOf(es) == ValuesOf(es[..n]) + [es[n].val]
  {
  }

  /** Setting keys that come once keeps every entry, in its place. */
  lemma {:induction false} OnceIsIdentity<V(!new)>(es: seq<Entry<V>>)
    requires KeysOnce(es)
    ensures var m := SetAll(Empty<V>(), es);
            m.Valid() && m.keys == KeysOf(es) && Values(m) == ValuesOf(es) && KeepFirst(es) == m
  {
    SetAllValid(Empty<V>(), es);
    if es != [] {
      var front, last := es[..|es| - 1], es[|es| - 1];
      LastIsNew(es);
      OnceIsIdentity(front);
      KeyThere(front, last.key);
      NewKeyIsLast(SetAll(Empty<V>(), front), last.key, last.val);
      FrontAndLast(es);
    }
  }

  // ----- A Set: only the keys -----

  function IdEntries(ids: seq<string>): (r: seq<Entry<()>>)
    ensures |r| == |ids| && forall i :: 0 <= i < |r| ==> r[i] == Entry(ids[i], ())
  {
    seq(|ids|, i requires 0 <= i < |ids| => Entry(ids[i], ()))
  }

  /** Each id once, where it first stands. */
  function Distinct(ids: seq<string>): seq<string> { SetAll(Empty<()>(), IdEntries(ids)).keys }

  lemma DistinctIds(ids: seq<string>)
    ensures NoDup(Distinct(ids)) && Elems(Distinct(ids)) == Elems(ids)
  {
    var es := IdEntries(ids);
    var m := SetAll(Empty<()>(), es);
    SetAllValid(Empty<()>(), es);
    forall k ensures k in m.keys <==> k in ids {
      KeyThere(es, k);
      if HasKey(es, k) { var i: nat :| KeyAt(es, i, k); assert ids[i] == k; }
      if k in ids { var i :| 0 <= i < |ids| && ids[i] == k; assert KeyAt(es, i, k); }
    }
  }
}
