/** The parent domain that the configured origins share, and the guard built on it. */
module SharedParent {
  import opened Wrappers
  import opened JsString
  import opened OrderedDedup

  /** Neither localhost nor made of digits and dots only. */
  predicate IsShareable(host: string) {
    host != "" && host != "localhost" && !(forall i :: 0 <= i < |host| ==> '0' <= host[i] <= '9' || host[i] == '.')
  }

  function Keep(hosts: seq<string>): seq<string> {
    if hosts == [] then [] else (if IsShareable(hosts[0]) then [hosts[0]] else []) + Keep(hosts[1..])
  }

  /** The distinct hosts of the origins; `hostname` is the empty string where an origin is no URL. */
  function Hosts(hostname: string -> string, origins: seq<string>): seq<string> {
    Distinct(Keep(seq(|origins|, i requires 0 <= i < |origins| => ToLower(hostname(origins[i])))))
  }

  function CommonSuffix(a: seq<string>, b: seq<string>): seq<string> {
    if a == [] || b == [] || a[|a| - 1] != b[|b| - 1] then []
    else CommonSuffix(a[..|a| - 1], b[..|b| - 1]) + [a[|a| - 1]]
  }

  function Labels(host: string): seq<string> { Split(host, '.') }

  /** What the loop over the hosts leaves in `suffix`. */
  function SuffixOfAll(hosts: seq<string>): seq<string>
    requires hosts != []
  {
    if |hosts| == 1 then Labels(hosts[0])
    else CommonSuffix(SuffixOfAll(hosts[..|hosts| - 1]), Labels(hosts[|hosts| - 1]))
  }

  function SharedParentDomain(hostname: string -> string, origins: seq<string>): Option<string> {
    var hosts := Hosts(hostname, origins);
    if |hosts| < 2 then None
    else
      var suffix := SuffixOfAll(hosts);
      if |suffix| >= 2 then Some(Join(suffix, '.')) else None
  }

  // ----- The longest shared suffix -----

  ghost predicate IsSuffix(x: seq<string>, s: seq<string>) {
    |x| <= |s| && s[|s| - |x|..] == x
  }

  ghost predicate SharedByAll(x: seq<string>, hosts: set<string>) {
    forall h :: h in hosts ==> IsSuffix(x, Labels(h))
  }

  lemma SuffixPeel(x: seq<string>, s: seq<string>)
    requires x != [] && s != []
    ensures IsSuffix(x, s) <==> x[|x| - 1] == s[|s| - 1] && IsSuffix(x[..|x| - 1], s[..|s| - 1])
  {
    if |x| <= |s| {
      var t := s[|s| - |x|..];
      assert t == t[..|x| - 1] + [s[|s| - 1]];
      assert t[..|x| - 1] == s[..|s| - 1][|s| - |x|..];
      assert x == x[..|x| - 1] + [x[|x| - 1]];
    }
  }

  /** The suffixes of the common suffix are exactly the common suffixes. */
  lemma {:induction false} CommonSuffixIsLongest(a: seq<string>, b: seq<string>, x: seq<string>)
    ensures IsSuffix(x, CommonSuffix(a, b)) <==> IsSuffix(x, a) && IsSuffix(x, b)
  {
    var c := CommonSuffix(a, b);
    if x == [] {
    } else if a == [] || b == [] {
    } else {
      SuffixPeel(x, a);
      SuffixPeel(x, b);
      if a[|a| - 1] == b[|b| - 1] {
        CommonSuffixIsLongest(a[..|a| - 1], b[..|b| - 1], x[..|x| - 1]);
        SuffixPeel(x, c);
        assert c[..|c| - 1] == CommonSuffix(a[..|a| - 1], b[..|b| - 1]);
      }
    }
  }

  lemma {:induction false} SuffixOfAllIsLongest(hosts: seq<string>, x: seq<string>)
    requires hosts != []
    ensures IsSuffix(x, SuffixOfAll(hosts)) <==> SharedByAll(x, Elems(hosts))
  {
    var n := |hosts| - 1;
    assert hosts == hosts[..n] + [hosts[n]];
    if n == 0 {
      assert Elems(hosts) == {hosts[0]};
    } else {
      SuffixOfAllIsLongest(hosts[..n], x);
      CommonSuffixIsLongest(SuffixOfAll(hosts[..n]), Labels(hosts[n]), x);
      assert Elems(hosts) == Elems(hosts[..n]) + {hosts[n]};
    }
  }

  lemma SameSuffixesSame(a: seq<string>, b: seq<string>)
    requires IsSuffix(a, b) && IsSuffix(b, a)
    ensures a == b
  {
  }

  /** Each label comes from a host, so it holds no dot. */
  lemma SuffixSplitsBack(hosts: seq<string>)
    requires hosts != [] && SuffixOfAll(hosts) != []
    ensures Labels(Join(SuffixOfAll(hosts), '.')) == SuffixOfAll(hosts)
  {
    var suffix := SuffixOfAll(hosts);
    assert IsSuffix(suffix, suffix);
    SuffixOfAllIsLongest(hosts, suffix);
    assert hosts[0] in Elems(hosts);
    LabelsAreFree(hosts[0], suffix);
    SplitJoin(suffix, '.');
  }

  lemma LabelsAreFree(host: string, x: seq<string>)
    requires IsSuffix(x, Labels(host))
    ensures AllFree(x, '.')
  {
    var all := Labels(host);
    forall i | 0 <= i < |x| ensures '.' !in x[i] {
      assert x[i] == all[|all| - |x| + i];
      PartsAreFree(host, '.', |all| - |x| + i);
    }
  }

  /** A name other than localhost, with a character that is neither digit nor dot. */
  predicate IsNamed(host: string) {
    host !in {"", "localhost"} && exists c :: c in host && c != '.' && !('0' <= c <= '9')
  }

  lemma NamedIsShareable(host: string)
    ensures IsNamed(host) <==> IsShareable(host)
  {
    if IsShareable(host) {
      var i :| 0 <= i < |host| && !('0' <= host[i] <= '9' || host[i] == '.');
      assert host[i] in host;
    }
  }

  /** The named hosts among the origins. */
  ghost function HostSet(hostname: string -> string, origins: seq<string>): set<string> {
    set o | o in origins && IsNamed(ToLower(hostname(o))) :: ToLower(hostname(o))
  }

  lemma {:induction false} KeepElems(hosts: seq<string>)
    ensures Elems(Keep(hosts)) == set h | h in hosts && IsShareable(h)
  {
    if hosts != [] {
      KeepElems(hosts[1..]);
      assert Elems(Keep(hosts)) == (if IsShareable(hosts[0]) then {hosts[0]} else {}) + Elems(Keep(hosts[1..]));
    }
  }

  lemma HostsAreDistinct(hostname: string -> string, origins: seq<string>)
    ensures Elems(Hosts(hostname, origins)) == HostSet(hostname, origins)
    ensures |Hosts(hostname, origins)| == |HostSet(hostname, origins)|
  {
    var all := seq(|origins|, i requires 0 <= i < |origins| => ToLower(hostname(origins[i])));
    KeepElems(all);
    DistinctIds(Keep(all));
    NoDupSize(Hosts(hostname, origins));
    forall h: string ensures IsNamed(h) <==> IsShareable(h) { NamedIsShareable(h); }
    forall h ensures h in HostSet(hostname, origins) <==> h in all && IsShareable(h) {
      if h in all { var i :| 0 <= i < |all| && all[i] == h; assert origins[i] in origins; }
      if h in HostSet(hostname, origins) {
        var o :| o in origins && ToLower(hostname(o)) == h;
        var i :| 0 <= i < |origins| && origins[i] == o;
        assert all[i] == h;
      }
    }
  }

  /** `x` is the longest label suffix that all the hosts share. */
  ghost predicate IsLongestShared(x: seq<string>, hosts: set<string>) {
    SharedByAll(x, hosts) && forall y :: SharedByAll(y, hosts) ==> IsSuffix(y, x)
  }

  /**
   * A parent is found if and only if at least two hosts share at least two labels, and
   * its labels are then all that they share.
   */
  lemma ParentIsLongestShared(hostname: string -> string, origins: seq<string>)
    ensures var hosts, r := HostSet(hostname, origins), SharedParentDomain(hostname, origins);
            && (r.Some? <==> |hosts| >= 2 && exists x :: |x| == 2 && SharedByAll(x, hosts))
            && (r.Some? ==> |Labels(r.value)| >= 2 && IsLongestShared(Labels(r.value), hosts))
  {
    var hosts, names := HostSet(hostname, origins), Hosts(hostname, origins);
    HostsAreDistinct(hostname, origins);
    if |names| >= 2 {
      var suffix := SuffixOfAll(names);
      forall x ensures IsSuffix(x, suffix) <==> SharedByAll(x, hosts) { SuffixOfAllIsLongest(names, x); }
      assert IsSuffix(suffix, suffix);
      if |suffix| >= 2 {
        SuffixSplitsBack(names);
        assert IsSuffix(suffix[|suffix| - 2..], suffix);
        assert SharedByAll(suffix[|suffix| - 2..], hosts);
      }
    }
  }

  /** Neither the order nor the multiplicity of the origins matters. */
  lemma ParentDependsOnHostsOnly(hostname: string -> string, a: seq<string>, b: seq<string>)
    requires HostSet(hostname, a) == HostSet(hostname, b)
    ensures SharedParentDomain(hostname, a) == SharedParentDomain(hostname, b)
  {
    HostsAreDistinct(hostname, a);
    HostsAreDistinct(hostname, b);
    var x, y := Hosts(hostname, a), Hosts(hostname, b);
    if |x| >= 2 { SameHostsSameSuffix(x, y); }
  }

  lemma SameHostsSameSuffix(x: seq<string>, y: seq<string>)
    requires x != [] && y != [] && Elems(x) == Elems(y)
    ensures SuffixOfAll(x) == SuffixOfAll(y)
  {
    var a, b := SuffixOfAll(x), SuffixOfAll(y);
    assert IsSuffix(a, a) && IsSuffix(b, b);
    SuffixOfAllIsLongest(x, a);
    SuffixOfAllIsLongest(x, b);
    SuffixOfAllIsLongest(y, a);
    SuffixOfAllIsLongest(y, b);
    SameSuffixesSame(a, b);
  }

  /** With one more host the parent can only get shorter. */
  lemma MoreHostsShareLess(hostname: string -> string, a: seq<string>, b: seq<string>)
    requires HostSet(hostname, a) <= HostSet(hostname, b)
    requires SharedParentDomain(hostname, a).Some? && SharedParentDomain(hostname, b).Some?
    ensures IsSuffix(Labels(SharedParentDomain(hostname, b).value), Labels(SharedParentDomain(hostname, a).value))
  {
    ParentIsLongestShared(hostname, a);
    ParentIsLongestShared(hostname, b);
  }

  // ----- The loops -----

  lemma SuffixOfFewer(hosts: seq<string>, n: nat)
    requires 0 < n < |hosts|
    ensures SuffixOfAll(hosts[..n + 1]) == CommonSuffix(SuffixOfAll(hosts[..n]), Labels(hosts[n]))
  {
    assert hosts[..n + 1][..n] == hosts[..n];
  }

  lemma {:induction false} NothingMoreShared(hosts: seq<string>, n: nat)
    requires 0 < n <= |hosts| && SuffixOfAll(hosts[..n]) == []
    ensures SuffixOfAll(hosts) == []
    decreases |hosts| - n
  {
    if n < |hosts| {
      SuffixOfFewer(hosts, n);
      NothingMoreShared(hosts, n + 1);
    } else {
      assert hosts[..n] == hosts;
    }
  }

  method CommonOf(suffix: seq<string>, labels: seq<string>) returns (common: seq<string>)
    ensures common == CommonSuffix(suffix, labels)
  {
    common := [];
    var i, j := |suffix| - 1, |labels| - 1;
    assert suffix[..|suffix|] == suffix && labels[..|labels|] == labels;
    while i >= 0 && j >= 0 && suffix[i] == labels[j]
      invariant -1 <= i < |suffix| && -1 <= j < |labels|
      invariant CommonSuffix(suffix, labels) == CommonSuffix(suffix[..i + 1], labels[..j + 1]) + common
    {
      assert suffix[..i + 1][..i] == suffix[..i] && labels[..j + 1][..j] == labels[..j];
      common := [suffix[i]] + common;
      i, j := i - 1, j - 1;
    }
  }

  method FindSharedParent(hosts: seq<string>) returns (r: Option<string>)
    ensures r == if |hosts| >= 2 && |SuffixOfAll(hosts)| >= 2 then Some(Join(SuffixOfAll(hosts), '.')) else None
  {
    if |hosts| < 2 { return None; }
    var suffix := Labels(hosts[0]);
    assert hosts[..1] == [hosts[0]];
    var n := 1;
    while n < |hosts|
      invariant 1 <= n <= |hosts| && suffix == SuffixOfAll(hosts[..n])
    {
      SuffixOfFewer(hosts, n);
      suffix := CommonOf(suffix, Labels(hosts[n]));
      n := n + 1;
      if suffix == [] { break; }
    }
    if suffix == [] { NothingMoreShared(hosts, n); }
    assert n == |hosts| ==> hosts[..n] == hosts;
    r := if |suffix| >= 2 then Some(Join(suffix, '.')) else None;
  }

  // ----- The guard at start-up -----

  datatype Outcome = Quiet | Warned(parent: string) | Thrown(parent: string)

  method AssertCookieDomainForSso(
    hostname: string -> string, origins: seq<string>, cookieDomain: string, isProduction: bool)
    returns (r: Outcome)
    ensures r == Quiet <==> Trim(cookieDomain) != "" || SharedParentDomain(hostname, origins).None?
    ensures r.Thrown? ==> isProduction && SharedParentDomain(hostname, origins) == Some(r.parent)
    ensures r.Warned? ==> !isProduction && SharedParentDomain(hostname, origins) == Some(r.parent)
  {
    if |Trim(cookieDomain)| > 0 { return Quiet; }
    var parent := FindSharedParent(Hosts(hostname, origins));
    if parent.None? { return Quiet; }
    r := if isProduction then Thrown(parent.value) else Warned(parent.value);
  }

  /** There is a parent exactly when two different hosts are siblings under at least two common labels. */
  lemma ParentNeedsTwoSiblings(hostname: string -> string, origins: seq<string>)
    ensures SharedParentDomain(hostname, origins).Some? <==>
              exists x, a, b :: a in HostSet(hostname, origins) && b in HostSet(hostname, origins) && a != b
                                && |x| == 2 && SharedByAll(x, HostSet(hostname, origins))
  {
    ParentIsLongestShared(hostname, origins);
    var hosts := HostSet(hostname, origins);
    if |hosts| >= 2 {
      var a :| a in hosts;
      assert |hosts - {a}| >= 1;
      var b :| b in hosts - {a};
      assert a in hosts && b in hosts && a != b;
    }
    if a, b :| a in hosts && b in hosts && a != b {
      assert |hosts| >= |{a, b}| by { SubsetSize({a, b}, hosts); }
    }
  }

  lemma {:induction false} SubsetSize(a: set<string>, b: set<string>)
    requires a <= b
    ensures |a| <= |b|
  {
    if a != {} {
      var x :| x in a;
      SubsetSize(a - {x}, b - {x});
    }
  }
}
