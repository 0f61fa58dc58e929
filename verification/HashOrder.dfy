/** The draw order of segment members: by the hash of seed and id, ties by id. */
module HashOrder {
  import opened Wrappers

  /** `<` on strings: by the first code unit that differs, a proper prefix first. */
  predicate Less(a: string, b: string) {
    b != "" && (a == "" || a[0] < b[0] || (a[0] == b[0] && Less(a[1..], b[1..])))
  }

  /** At the first place where they differ `a` has the smaller character or ends. */
  ghost predicate ComesFirst(a: string, b: string) {
    exists k: nat :: DiffersAt(a, b, k) && (k == |a| || (k < |b| && a[k] < b[k]))
  }

  predicate DiffersAt(a: string, b: string, k: nat) {
    && k <= |a| && k <= |b| && a[..k] == b[..k]
    && (if k < |a| && k < |b| then a[k] != b[k] else |a| != |b|)
  }

  lemma {:induction false} LessIsFirstDifference(a: string, b: string)
    ensures Less(a, b) <==> ComesFirst(a, b)
  {
    if a != "" && b != "" && a[0] == b[0] {
      LessIsFirstDifference(a[1..], b[1..]);
      if k: nat :| DiffersAt(a[1..], b[1..], k) && (k == |a[1..]| || (k < |b[1..]| && a[1..][k] < b[1..][k])) {
        assert a[..k + 1] == [a[0]] + a[1..][..k] && b[..k + 1] == [b[0]] + b[1..][..k];
        assert DiffersAt(a, b, k + 1);
      }
      if k: nat :| DiffersAt(a, b, k) && (k == |a| || (k < |b| && a[k] < b[k])) {
        assert k > 0 && a[1..][..k - 1] == a[..k][1..] && b[1..][..k - 1] == b[..k][1..];
        assert DiffersAt(a[1..], b[1..], k - 1);
      }
    } else {
      forall k: nat | 0 < k <= |a| && k <= |b| ensures a[..k] != b[..k] {
        assert a[..k][0] == a[0] && b[..k][0] == b[0];
      }
      assert a[..0] == b[..0];
      assert a != b ==> DiffersAt(a, b, 0);
    }
  }

  lemma {:induction false} LessIsTotal(a: string, b: string)
    ensures Less(a, b) || a == b || Less(b, a)
    ensures !(Less(a, b) && Less(b, a)) && !Less(a, a)
  {
    if a != "" { LessIsIrreflexive(a); }
    if a != "" && b != "" {
      LessIsTotal(a[1..], b[1..]);
      assert a == [a[0]] + a[1..] && b == [b[0]] + b[1..];
    }
  }

  lemma {:induction false} LessIsIrreflexive(a: string)
    ensures !Less(a, a)
  {
    if a != "" { LessIsIrreflexive(a[1..]); }
  }

  lemma {:induction false} LessIsTransitive(a: string, b: string, c: string)
    requires Less(a, b) && Less(b, c)
    ensures Less(a, c)
  {
    if a != "" && a[0] == b[0] && b[0] == c[0] { LessIsTransitive(a[1..], b[1..], c[1..]); }
  }

  /** The hash is a parameter; it is given the seed, a space and the id. */
  datatype Draw = Draw(hash: string -> string, seed: string)
  {
    function Key(id: string): string { hash(seed + " " + id) }

    predicate Before(a: string, b: string) {
      Less(Key(a), Key(b)) || (Key(a) == Key(b) && Less(a, b))
    }
  }

  lemma BeforeIsTotal(d: Draw, a: string, b: string)
    ensures d.Before(a, b) || a == b || d.Before(b, a)
    ensures !(d.Before(a, b) && d.Before(b, a)) && !d.Before(a, a)
  {
    LessIsTotal(d.Key(a), d.Key(b));
    LessIsTotal(a, b);
    LessIsIrreflexive(d.Key(a));
    LessIsIrreflexive(a);
  }

  lemma BeforeIsTransitive(d: Draw, a: string, b: string, c: string)
    requires d.Before(a, b) && d.Before(b, c)
    ensures d.Before(a, c)
  {
    if Less(d.Key(a), d.Key(b)) && Less(d.Key(b), d.Key(c)) { LessIsTransitive(d.Key(a), d.Key(b), d.Key(c)); }
    if Less(a, b) && Less(b, c) { LessIsTransitive(a, b, c); }
  }

  function Insert(d: Draw, id: string, ids: seq<string>): seq<string> {
    if ids == [] || d.Before(id, ids[0]) then [id] + ids else [ids[0]] + Insert(d, id, ids[1..])
  }

  function OrderByHash(d: Draw, ids: seq<string>): seq<string> {
    if ids == [] then [] else Insert(d, ids[0], OrderByHash(d, ids[1..]))
  }

  ghost predicate InOrder(d: Draw, ids: seq<string>) {
    forall i, j :: 0 <= i < j < |ids| ==> d.Before(ids[i], ids[j])
  }

  lemma {:induction false} InsertElems(d: Draw, id: string, ids: seq<string>, x: string)
    ensures x in Insert(d, id, ids) <==> x == id || x in ids
  {
    if ids != [] && !d.Before(id, ids[0]) { InsertElems(d, id, ids[1..], x); }
  }

  lemma {:induction false} InsertInOrder(d: Draw, id: string, ids: seq<string>)
    requires InOrder(d, ids) && id !in ids
    ensures InOrder(d, Insert(d, id, ids))
  {
    if ids == [] {
    } else if d.Before(id, ids[0]) {
      forall j | 0 <= j < |ids| ensures d.Before(id, ids[j]) {
        if j > 0 { BeforeIsTransitive(d, id, ids[0], ids[j]); }
      }
    } else {
      var rest := Insert(d, id, ids[1..]);
      InsertInOrder(d, id, ids[1..]);
      BeforeIsTotal(d, id, ids[0]);
      forall j | 0 <= j < |rest| ensures d.Before(ids[0], rest[j]) {
        InsertElems(d, id, ids[1..], rest[j]);
      }
    }
  }

  /** Distinct ids come out in strictly ascending order, none lost and none added. */
  lemma {:induction false} OrderIsSorted(d: Draw, ids: seq<string>)
    requires NoDup(ids)
    ensures InOrder(d, OrderByHash(d, ids)) && Elems(OrderByHash(d, ids)) == Elems(ids)
  {
    if ids != [] {
      var rest := OrderByHash(d, ids[1..]);
      OrderIsSorted(d, ids[1..]);
      assert ids[0] !in rest by { assert ids[0] !in Elems(rest); }
      InsertInOrder(d, ids[0], rest);
      forall x ensures x in OrderByHash(d, ids) <==> x in ids {
        InsertElems(d, ids[0], rest, x);
        assert x in rest <==> x in Elems(rest);
        assert x in ids[1..] <==> x in Elems(ids[1..]);
      }
    }
  }

  lemma InOrderNoDup(d: Draw, ids: seq<string>)
    requires InOrder(d, ids)
    ensures NoDup(ids)
  {
    forall i, j | 0 <= i < j < |ids| ensures ids[i] != ids[j] { BeforeIsTotal(d, ids[i], ids[j]); }
  }

  lemma EmptyElems(ids: seq<string>)
    ensures Elems(ids) == {} <==> ids == []
  {
    if ids != [] { assert ids[0] in Elems(ids); }
  }

  /** One set of ids has one sorted order. */
  lemma {:induction false} OneSortedOrder(d: Draw, a: seq<string>, b: seq<string>)
    requires InOrder(d, a) && InOrder(d, b) && Elems(a) == Elems(b)
    ensures a == b
  {
    if a == [] || b == [] {
      EmptyElems(a);
      EmptyElems(b);
    } else {
      SameLeast(d, a, b);
      InOrderNoDup(d, a);
      InOrderNoDup(d, b);
      assert Elems(a[1..]) == Elems(a) - {a[0]};
      assert Elems(b[1..]) == Elems(b) - {b[0]};
      OneSortedOrder(d, a[1..], b[1..]);
      assert a == [a[0]] + a[1..] && b == [b[0]] + b[1..];
    }
  }

  lemma SameLeast(d: Draw, a: seq<string>, b: seq<string>)
    requires InOrder(d, a) && InOrder(d, b) && Elems(a) == Elems(b) && a != [] && b != []
    ensures a[0] == b[0]
  {
    assert a[0] in Elems(b) && b[0] in Elems(a);
    BeforeIsTotal(d, a[0], b[0]);
  }

  /** The order depends on the set of ids alone, so a preview and a later send agree. */
  lemma OrderIsCanonical(d: Draw, a: seq<string>, b: seq<string>)
    requires NoDup(a) && NoDup(b) && Elems(a) == Elems(b)
    ensures OrderByHash(d, a) == OrderByHash(d, b)
  {
    OrderIsSorted(d, a);
    OrderIsSorted(d, b);
    OneSortedOrder(d, OrderByHash(d, a), OrderByHash(d, b));
  }

  function Only(ids: seq<string>, keep: set<string>): seq<string> {
    if ids == [] then [] else (if ids[0] in keep then [ids[0]] else []) + Only(ids[1..], keep)
  }

  lemma {:induction false} OnlyElems(ids: seq<string>, keep: set<string>)
    ensures Elems(Only(ids, keep)) == Elems(ids) * keep
  {
    if ids != [] {
      OnlyElems(ids[1..], keep);
      assert Elems(ids) == {ids[0]} + Elems(ids[1..]);
      assert Elems(Only(ids, keep)) == (if ids[0] in keep then {ids[0]} else {}) + Elems(Only(ids[1..], keep));
    }
  }

  lemma {:induction false} OnlyInOrder(d: Draw, ids: seq<string>, keep: set<string>)
    requires InOrder(d, ids)
    ensures InOrder(d, Only(ids, keep))
  {
    if ids != [] {
      var rest := Only(ids[1..], keep);
      OnlyInOrder(d, ids[1..], keep);
      OnlyElems(ids[1..], keep);
      forall j | 0 <= j < |rest| ensures d.Before(ids[0], rest[j]) {
        assert rest[j] in Elems(rest);
      }
    }
  }

  /** Members that join never reshuffle those that were there. */
  lemma JoiningNeverReshuffles(d: Draw, before: seq<string>, after: seq<string>)
    requires NoDup(before) && NoDup(after) && Elems(before) <= Elems(after)
    ensures Only(OrderByHash(d, after), Elems(before)) == OrderByHash(d, before)
  {
    OrderIsSorted(d, before);
    OrderIsSorted(d, after);
    OnlyInOrder(d, OrderByHash(d, after), Elems(before));
    OnlyElems(OrderByHash(d, after), Elems(before));
    OneSortedOrder(d, Only(OrderByHash(d, after), Elems(before)), OrderByHash(d, before));
  }
}
