/** Parent domains, cookie scopes and sibling origins derived from a request host. */
module Domains {
  import opened Wrappers
  import opened JsString
  import Decimal

  datatype App = Admin | Auth | Api | Action | Field

  function Name(app: App): string {
    match app
    case Admin => "admin"
    case Auth => "auth"
    case Api => "api"
    case Action => "action"
    case Field => "field"
  }

  const RESERVED: seq<string> := [
    "admin", "auth", "api", "action", "field", "app", "www", "marketing", "labs", "static", "cdn", "assets",
    "status", "help", "support", "billing", "mail", "ftp", "blog", "shop", "store", "docs", "staging", "dev",
    "test", "demo", "beta", "alpha", "uat"]

  const PUBLIC_SUFFIXES: seq<string> := [
    "com.au", "net.au", "org.au", "edu.au", "gov.au", "asn.au", "id.au", "co.uk", "org.uk", "ac.uk", "gov.uk",
    "me.uk", "co.nz", "net.nz", "org.nz", "govt.nz", "co.za", "co.jp", "co.in", "com.br", "com.cn", "com.mx",
    "com.sg"]

  const OWNED: seq<string> := ["uprise.org.au", "upriselabs.org"]

  function DropDot(s: string): string {
    if s != "" && s[|s| - 1] == '.' then s[..|s| - 1] else s
  }

  function StripPort(host: string): string { DropDot(ToLower(Trim(Split(host, ':')[0]))) }

  predicate IsPublicSuffix(domain: string) {
    var d := StripPort(domain);
    d != "" && ('.' !in d || d in PUBLIC_SUFFIXES)
  }

  predicate IsIpv4(h: string) {
    var groups := Split(h, '.');
    |groups| == 4 && forall i :: 0 <= i < 4 ==> 1 <= |groups[i]| <= 3 && Decimal.AllDigits(groups[i])
  }

  predicate HostIsLocal(host: string) { StripPort(host) == "localhost" || IsIpv4(StripPort(host)) }

  predicate HasNonDefaultPort(host: string) {
    var parts := Split(host, ':');
    var last := parts[|parts| - 1];
    |parts| >= 2 && last != "" && Decimal.AllDigits(last) && last != "80" && last != "443"
  }

  predicate IsDerivable(host: string) { !HostIsLocal(host) && !HasNonDefaultPort(host) }

  function ParentDomain(host: string, roots: seq<string>): Option<string> {
    var h := StripPort(host);
    if h == "" || HostIsLocal(h) then None
    else
      var labels := Split(h, '.');
      if |labels| < 2 then None
      else
        var rest := Join(labels[1..], '.');
        if labels[0] in RESERVED && !IsPublicSuffix(rest) then Some(rest)
        else if rest in roots then Some(rest)
        else None
  }

  /** A parent that is not null and not the empty string. */
  predicate HasParent(host: string, roots: seq<string>) {
    ParentDomain(host, roots).Some? && ParentDomain(host, roots).value != ""
  }

  predicate EndsWith(s: string, t: string) { |t| <= |s| && s[|s| - |t|..] == t }

  predicate IsAtOrUnder(h: string, domain: string) { h == domain || EndsWith(h, "." + domain) }

  predicate IsOwned(parent: string) {
    var p := StripPort(parent);
    p != "" && exists owned :: owned in OWNED && IsAtOrUnder(p, owned)
  }

  predicate IsCustomParentHost(host: string, roots: seq<string>) {
    HasParent(host, roots) && ParentDomain(host, roots).value !in roots && !IsOwned(ParentDomain(host, roots).value)
  }

  function CookieDomain(host: string, roots: seq<string>): string {
    if !HasParent(host, roots) || IsPublicSuffix(ParentDomain(host, roots).value) then ""
    else "." + ParentDomain(host, roots).value
  }

  predicate IsAlnum(c: char) { 'a' <= c <= 'z' || '0' <= c <= '9' }

  predicate IsSlug(s: string) {
    s != "" && IsAlnum(s[0]) && IsAlnum(s[|s| - 1]) && forall c :: c in s ==> IsAlnum(c) || c == '-'
  }

  function TenantSlug(host: string, roots: seq<string>): Option<string> {
    var h := StripPort(host);
    if h == "" || HostIsLocal(h) then None
    else
      var labels := Split(h, '.');
      if |labels| < 2 || labels[0] in RESERVED || Join(labels[1..], '.') !in roots || !IsSlug(labels[0]) then None
      else Some(labels[0])
  }

  predicate IsPlatformAppHost(host: string, roots: seq<string>) {
    var labels := Split(StripPort(host), '.');
    |labels| >= 2 && labels[0] in RESERVED && Join(labels[1..], '.') in roots
  }

  function NormaliseProto(proto: string): string {
    var p := if proto == "" then "https" else proto;
    if p[|p| - 1] == ':' then p[..|p| - 1] else p
  }

  function SiblingHost(host: string, app: App, roots: seq<string>): Option<string> {
    if IsDerivable(host) && HasParent(host, roots) then Some(Name(app) + "." + ParentDomain(host, roots).value)
    else None
  }

  function SiblingOrigin(host: string, app: App, proto: string, roots: seq<string>): Option<string> {
    var h := SiblingHost(host, app, roots);
    if h.None? then None else Some(NormaliseProto(proto) + "://" + h.value)
  }

  // ----- The first label and the rest -----

  lemma FirstLabel(h: string)
    requires |Split(h, '.')| >= 2
    ensures '.' !in Split(h, '.')[0] && h == Split(h, '.')[0] + "." + Join(Split(h, '.')[1..], '.')
  {
    JoinSplit(h, '.');
    PartsAreFree(h, '.', 0);
  }

  lemma LabelAndRest(first: string, rest: string)
    requires '.' !in first
    ensures var labels := Split(first + "." + rest, '.');
            |labels| >= 2 && labels[0] == first && Join(labels[1..], '.') == rest
  {
    SplitAtFirst(first, rest, '.');
    JoinSplit(rest, '.');
  }

  // ----- What StripPort leaves -----

  lemma {:induction false} TrimIsSlice(s: string)
    ensures forall c :: c in Trim(s) ==> c in s
  {
    TrimStartInside(s);
    TrimEndEnds(TrimStart(s));
  }

  lemma {:induction false} TrimStartInside(s: string)
    ensures forall c :: c in TrimStart(s) ==> c in s
  {
    if s != "" && IsSpace(s[0]) { TrimStartInside(s[1..]); }
  }

  predicate NoUpper(s: string) { forall i :: 0 <= i < |s| ==> Lower(s[i]) == s[i] }

  lemma LowerKeepsColons(s: string)
    ensures ':' in ToLower(s) ==> ':' in s
    ensures NoUpper(ToLower(s))
    ensures ToLower(s) != "" ==> IsSpace(ToLower(s)[0]) == IsSpace(s[0])
  {
  }

  lemma StrippedShape(host: string)
    ensures ':' !in StripPort(host) && NoUpper(StripPort(host))
    ensures StripPort(host) != "" ==> !IsSpace(StripPort(host)[0])
  {
    var head := Split(host, ':')[0];
    PartsAreFree(host, ':', 0);
    TrimIsSlice(head);
    TrimTrims(head);
    LowerKeepsColons(Trim(head));
  }

  /** Nothing for StripPort to remove. */
  predicate IsPlain(h: string) {
    ':' !in h && NoUpper(h) && IsTrimmed(h) && !EndsWith(h, ".")
  }

  lemma PlainStays(h: string)
    requires IsPlain(h)
    ensures StripPort(h) == h
  {
    SplitFree(h, ':');
    TrimmedStays(h);
    assert ToLower(h) == h;
    if h != "" { assert h[|h| - 1..] == [h[|h| - 1]]; }
  }

  lemma PortIsDropped(h: string, port: string)
    requires ':' !in h
    ensures StripPort(h + ":" + port) == StripPort(h)
  {
    SplitAtFirst(h, port, ':');
    SplitFree(h, ':');
  }

  lemma DotIsDropped(h: string)
    requires IsPlain(h) && h != ""
    ensures StripPort(h + ".") == h
  {
    var d := h + ".";
    SplitFree(d, ':');
    assert d[0] == h[0] && d[|d| - 1] == '.';
    TrimmedStays(d);
    assert forall i :: 0 <= i < |h| ==> d[i] == h[i];
    assert ToLower(d) == d;
    assert d[..|d| - 1] == h;
  }

  lemma NoUpperStays(s: string)
    requires NoUpper(s)
    ensures ToLower(s) == s
  {
  }

  lemma TrimIsPrefix(h: string)
    requires h != "" && !IsSpace(h[0]) && NoUpper(h)
    ensures Trim(h) <= h && NoUpper(Trim(h)) && (Trim(h) == h ==> !IsSpace(h[|h| - 1]))
  {
    TrimEndEnds(h);
    var t := TrimEnd(h);
    assert Trim(h) == t;
    forall i | 0 <= i < |t| ensures Lower(t[i]) == t[i] { assert t[i] == h[i]; }
  }

  lemma StripIsPrefix(h: string)
    requires ':' !in h && NoUpper(h) && h != "" && !IsSpace(h[0])
    ensures StripPort(h) <= h
    ensures h[|h| - 1] == '.' || IsSpace(h[|h| - 1]) ==> StripPort(h) != h
  {
    SplitFree(h, ':');
    TrimIsPrefix(h);
    NoUpperStays(Trim(h));
  }

  // ----- Parents -----

  predicate IsParent(first: string, rest: string, roots: seq<string>) {
    (first in RESERVED && !IsPublicSuffix(rest)) || rest in roots
  }

  /** What a parent looks like: a host's labels from the second on. */
  lemma ParentIsRest(host: string, roots: seq<string>)
    requires ParentDomain(host, roots).Some?
    ensures exists first :: '.' !in first && StripPort(host) == first + "." + ParentDomain(host, roots).value
                            && IsParent(first, ParentDomain(host, roots).value, roots)
  {
    FirstLabel(StripPort(host));
  }

  lemma ParentOf(host: string, first: string, rest: string, roots: seq<string>)
    requires StripPort(host) == first + "." + rest && '.' !in first
    ensures ParentDomain(host, roots)
            == if !HostIsLocal(StripPort(host)) && IsParent(first, rest, roots) then Some(rest) else None
  {
    LabelAndRest(first, rest);
  }

  /** The parent can stand as it is after a sibling's label: no dot or space at its end. */
  predicate EndsCleanly(parent: string) {
    parent != "" && parent[|parent| - 1] != '.' && !IsSpace(parent[|parent| - 1])
  }

  function Place(app: App): nat {
    match app
    case Admin => 0
    case Auth => 1
    case Api => 2
    case Action => 3
    case Field => 4
  }

  lemma NameIsReserved(app: App)
    ensures Name(app) in RESERVED
  {
    assert RESERVED[Place(app)] == Name(app);
  }

  lemma AppIsReserved(app: App)
    ensures '.' !in Name(app) && ':' !in Name(app) && NoUpper(Name(app))
    ensures 'a' <= Name(app)[0] <= 'z'
  {
  }

  lemma SiblingIsPlain(app: App, parent: string)
    requires ':' !in parent && NoUpper(parent) && EndsCleanly(parent)
    ensures IsPlain(Name(app) + "." + parent)
  {
    AppIsReserved(app);
    var h := Name(app) + "." + parent;
    assert h[|h| - 1] == parent[|parent| - 1];
    assert h[0] == Name(app)[0];
    assert h[|h| - 1..] == [parent[|parent| - 1]];
    LowerIsIdentity(app, parent);
  }

  lemma SiblingIsNotLocal(app: App, parent: string)
    requires IsPlain(Name(app) + "." + parent)
    ensures !HostIsLocal(Name(app) + "." + parent)
  {
    AppIsReserved(app);
    var h := Name(app) + "." + parent;
    PlainStays(h);
    LabelAndRest(Name(app), parent);
    assert h[|Name(app)|] == '.';
    assert !Decimal.AllDigits(Name(app));
    NoDotInLocalhost(h);
  }

  lemma NoDotInLocalhost(h: string)
    requires '.' in h
    ensures h != "localhost"
  {
  }

  lemma ParentShape(host: string, roots: seq<string>)
    requires ParentDomain(host, roots).Some?
    ensures ':' !in ParentDomain(host, roots).value && NoUpper(ParentDomain(host, roots).value)
  {
    ParentIsRest(host, roots);
    StrippedShape(host);
    var parent := ParentDomain(host, roots).value;
    var first :| '.' !in first && StripPort(host) == first + "." + parent;
    var h := StripPort(host);
    assert parent == h[|first| + 1..];
  }

  /** A sibling has the host's own parent again, unless that parent ends in a dot or a space. */
  lemma SiblingHasSameParent(host: string, app: App, roots: seq<string>)
    requires SiblingHost(host, app, roots).Some?
    ensures ParentDomain(SiblingHost(host, app, roots).value, roots) == ParentDomain(host, roots)
            <==> EndsCleanly(ParentDomain(host, roots).value)
  {
    var parent := ParentDomain(host, roots).value;
    var sibling := Name(app) + "." + parent;
    ParentShape(host, roots);
    AppIsReserved(app);
    if EndsCleanly(parent) {
      SiblingIsPlain(app, parent);
      PlainStays(sibling);
      SiblingIsNotLocal(app, parent);
      ParentIsRest(host, roots);
      NameIsReserved(app);
      ParentOf(sibling, Name(app), parent, roots);
    } else {
      SiblingIsCut(app, parent);
      if ParentDomain(sibling, roots).Some? {
        ParentIsRest(sibling, roots);
        var first :| '.' !in first && StripPort(sibling) == first + "." + ParentDomain(sibling, roots).value;
        SameFirstLabel(Name(app), parent, first, ParentDomain(sibling, roots).value);
      }
    }
  }

  lemma ParentOfTwoDots(app: App, parent: string, roots: seq<string>)
    requires IsPlain(parent) && parent != "" && !IsPublicSuffix(parent) && IsPlain(Name(app) + "." + parent)
    ensures var host := Name(app) + "." + parent + "..";
            ParentDomain(host, roots) == Some(parent + ".") && IsDerivable(host)
  {
    var h := Name(app) + "." + parent;
    var host := h + "..";
    OneOfTwoDots(h);
    DottedIsNotLocal(app, parent);
    DotIsDropped(parent);
    PlainStays(parent);
    AppIsReserved(app);
    NameIsReserved(app);
    Regroup(Name(app) + ".", parent);
    ParentOf(host, Name(app), parent + ".", roots);
    SplitFree(host, ':');
  }

  lemma Regroup(a: string, b: string)
    ensures a + b + "." == a + (b + ".")
  {
  }

  /** With two trailing dots the parent keeps one, which the sibling's host then loses. */
  lemma TwoDotsChangeParent(app: App, other: App, parent: string, roots: seq<string>)
    requires IsPlain(parent) && parent != "" && !IsPublicSuffix(parent)
    ensures var host := Name(app) + "." + parent + "..";
            && ParentDomain(host, roots) == Some(parent + ".")
            && SiblingHost(host, other, roots) == Some(Name(other) + "." + (parent + "."))
            && ParentDomain(Name(other) + "." + (parent + "."), roots) != ParentDomain(host, roots)
  {
    var host := Name(app) + "." + parent + "..";
    assert EndsCleanly(parent) by { assert parent[|parent| - 1..] == [parent[|parent| - 1]]; }
    SiblingIsPlain(app, parent);
    ParentOfTwoDots(app, parent, roots);
    SiblingHasSameParent(host, other, roots);
  }

  lemma ParentExample()
    ensures IsPlain("a.bc") && StripPort("a.bc") == "a.bc" && !IsPublicSuffix("a.bc")
  {
    assert IsPlain("a.bc") && "a.bc"[1] == '.';
    PlainStays("a.bc");
    forall i | 0 <= i < |PUBLIC_SUFFIXES| ensures |PUBLIC_SUFFIXES[i]| >= 5 {}
  }

  /** So at `admin.a.bc..`, whatever the roots. */
  lemma AdminWithTwoDots(roots: seq<string>)
    ensures var host := Name(Admin) + "." + "a.bc" + "..";
            && SiblingHost(host, Auth, roots).Some?
            && ParentDomain(SiblingHost(host, Auth, roots).value, roots) != ParentDomain(host, roots)
  {
    ParentExample();
    TwoDotsChangeParent(Admin, Auth, "a.bc", roots);
  }

  lemma OneOfTwoDots(h: string)
    requires IsPlain(h) && h != ""
    ensures StripPort(h + "..") == h + "."
  {
    var d := h + "..";
    SplitFree(d, ':');
    assert d[0] == h[0] && d[|d| - 1] == '.';
    TrimmedStays(d);
    assert forall i :: 0 <= i < |h| ==> d[i] == h[i];
    NoUpperStays(d);
    assert d[..|d| - 1] == h + ".";
  }

  lemma DottedIsNotLocal(app: App, parent: string)
    requires IsPlain(Name(app) + "." + parent) && IsPlain(parent) && parent != ""
    ensures !HostIsLocal(Name(app) + "." + parent + ".") && !HostIsLocal(Name(app) + "." + parent + "..")
  {
    var h := Name(app) + "." + parent;
    AppIsReserved(app);
    DotIsDropped(h);
    OneOfTwoDots(h);
    SiblingIsNotLocal(app, parent);
    PlainStays(h);
    LabelAndRest(Name(app), parent + ".");
    assert h + "." == Name(app) + "." + (parent + ".");
    assert (h + ".")[|h|] == '.';
    NoDotInLocalhost(h + ".");
    assert !Decimal.AllDigits(Name(app));
  }

  lemma SiblingIsCut(app: App, parent: string)
    requires parent != "" && !EndsCleanly(parent) && ':' !in parent && NoUpper(parent)
    ensures StripPort(Name(app) + "." + parent) < Name(app) + "." + parent
  {
    AppIsReserved(app);
    var h := Name(app) + "." + parent;
    assert h[|h| - 1] == parent[|parent| - 1] && h[0] == Name(app)[0];
    LowerIsIdentity(app, parent);
    StripIsPrefix(h);
  }

  lemma LowerIsIdentity(app: App, parent: string)
    requires NoUpper(parent)
    ensures NoUpper(Name(app) + "." + parent)
  {
    AppIsReserved(app);
    var h := Name(app) + "." + parent;
    forall i | 0 <= i < |h| ensures Lower(h[i]) == h[i] {
      if i > |Name(app)| { assert h[i] == parent[i - |Name(app)| - 1]; }
    }
  }

  lemma SameFirstLabel(a: string, x: string, b: string, y: string)
    requires '.' !in a && '.' !in b && b + "." + y < a + "." + x
    ensures a == b && |y| < |x|
  {
    var s, t := a + "." + x, b + "." + y;
    assert t == s[..|t|];
    assert t[|b|] == '.' && forall i :: 0 <= i < |a| ==> s[i] == a[i] && a[i] != '.';
    assert s[|a|] == '.' && forall i :: 0 <= i < |b| ==> t[i] == b[i] && b[i] != '.';
    assert a == s[..|a|] && b == t[..|b|];
  }

  /** Then the cookie scope is the host's own too, and its siblings are the host's siblings. */
  lemma SiblingsAreClosed(host: string, app: App, other: App, roots: seq<string>)
    requires SiblingHost(host, app, roots).Some? && EndsCleanly(ParentDomain(host, roots).value)
    ensures var sibling := SiblingHost(host, app, roots).value;
            && CookieDomain(sibling, roots) == CookieDomain(host, roots)
            && SiblingHost(sibling, other, roots) == SiblingHost(host, other, roots)
  {
    var parent := ParentDomain(host, roots).value;
    var sibling := Name(app) + "." + parent;
    SiblingHasSameParent(host, app, roots);
    ParentShape(host, roots);
    SiblingIsPlain(app, parent);
    SiblingIsNotLocal(app, parent);
    SplitFree(sibling, ':');
  }

  lemma OriginsAreClosed(host: string, app: App, other: App, proto: string, roots: seq<string>)
    requires SiblingHost(host, app, roots).Some? && EndsCleanly(ParentDomain(host, roots).value)
    ensures SiblingOrigin(SiblingHost(host, app, roots).value, other, proto, roots)
            == SiblingOrigin(host, other, proto, roots)
  {
    SiblingsAreClosed(host, app, other, roots);
  }

  // ----- Owned domains are never custom -----

  lemma EndsInside(a: string, b: string, t: string)
    requires EndsWith(a + b, t) && |t| <= |b|
    ensures EndsWith(b, t)
  {
    assert (a + b)[|a + b| - |t|..] == b[|b| - |t|..];
  }

  /** Trimming at the start only cuts what stands before an ending that starts with a dot. */
  lemma {:induction false} TrimKeepsEnding(s: string, t: string)
    requires t != "" && IsTrimmed(t) && EndsWith(s, t)
    ensures EndsWith(Trim(s), t)
  {
    var head := s[..|s| - |t|];
    assert s == head + t;
    TrimEndedBy(head, t);
    var u :| Trim(s) == u + t;
    assert (u + t)[|u + t| - |t|..] == t;
  }

  lemma StripKeepsEnding(s: string, t: string)
    requires ':' !in s && NoUpper(s) && EndsWith(s, t) && t != "" && IsTrimmed(t) && t[|t| - 1] != '.'
    ensures EndsWith(StripPort(s), t)
  {
    SplitFree(s, ':');
    TrimKeepsEnding(s, t);
    TrimIsSlice(s);
    LowerOfTrim(s);
    var r := Trim(s);
    assert r[|r| - 1] == t[|t| - 1] by { assert r[|r| - |t|..][|t| - 1] == t[|t| - 1]; }
  }

  lemma {:induction false} LowerOfTrim(s: string)
    requires NoUpper(s)
    ensures ToLower(Trim(s)) == Trim(s)
  {
    forall c | c in Trim(s) ensures Lower(c) == c {
      TrimIsSlice(s);
      var i :| 0 <= i < |s| && s[i] == c;
    }
  }

  /** No reserved label starts like the platform's own names. */
  lemma OwnedNamesAreNotReserved(word: string)
    requires |word| >= 2 && word[0] == 'u' && word[1] == 'p'
    ensures word !in RESERVED
  {
    forall i | 0 <= i < |RESERVED| ensures |RESERVED[i]| >= 2 && !(RESERVED[i][0] == 'u' && RESERVED[i][1] == 'p') {}
  }

  lemma OwnedIsPlain(owned: string)
    requires owned in OWNED
    ensures IsPlain(owned) && IsTrimmed("." + owned) && owned != "" && owned[|owned| - 1] != '.'
  {
    assert owned == OWNED[0] || owned == OWNED[1];
    assert owned[|owned| - 1..] == [owned[|owned| - 1]];
  }

  lemma OwnedFirstLabel(owned: string, first: string, rest: string)
    requires owned in OWNED && owned == first + "." + rest && '.' !in first
    ensures first !in RESERVED
  {
    OwnedStart(owned);
    assert |first| >= 2 by {
      assert owned[|first|] == '.';
    }
    OwnedNamesAreNotReserved(first);
  }

  lemma OwnedStart(owned: string)
    requires owned in OWNED
    ensures |owned| > 2 && owned[0] == 'u' && owned[1] == 'p'
  {
    assert owned == OWNED[0] || owned == OWNED[1];
  }

  /** A host at or under an owned domain, however it is written, has no parent that is not the platform's. */
  lemma OwnedIsNeverCustom(host: string, owned: string, roots: seq<string>)
    requires owned in OWNED && IsAtOrUnder(StripPort(host), owned)
    ensures !IsCustomParentHost(host, roots)
  {
    if HasParent(host, roots) {
      ParentIsRest(host, roots);
      var rest := ParentDomain(host, roots).value;
      var first :| '.' !in first && StripPort(host) == first + "." + rest && IsParent(first, rest, roots);
      if StripPort(host) == owned {
        OwnedFirstLabel(owned, first, rest);
      } else {
        ParentShape(host, roots);
        RestIsOwned(first, rest, owned);
      }
    }
  }

  lemma RestIsOwned(first: string, rest: string, owned: string)
    requires owned in OWNED && EndsWith(first + "." + rest, "." + owned) && '.' !in first
    requires ':' !in rest && NoUpper(rest)
    ensures IsOwned(rest)
  {
    OwnedIsPlain(owned);
    EndingInRest(first, rest, owned);
    if rest == owned {
      PlainStays(owned);
    } else {
      StripKeepsEnding(rest, "." + owned);
    }
    assert IsAtOrUnder(StripPort(rest), owned);
  }

  lemma EndingInRest(first: string, rest: string, owned: string)
    requires EndsWith(first + "." + rest, "." + owned) && '.' !in first
    ensures rest == owned || EndsWith(rest, "." + owned)
  {
    var h := first + "." + rest;
    var k := |h| - |owned| - 1;
    assert h[k..][0] == '.';
    assert k >= |first| by {
      assert forall i :: 0 <= i < |first| ==> h[i] == first[i];
    }
    if k == |first| {
      assert h[k..] == "." + rest;
      assert rest == ("." + rest)[1..] == ("." + owned)[1..] == owned;
    } else {
      EndsInside(first + ".", rest, "." + owned);
    }
  }

  /** The ways of writing a host that mean the same: with a port, with a trailing dot, with both. */
  ghost predicate IsFormOf(host: string, h: string) {
    || host == h || host == h + "."
    || exists port :: host == h + ":" + port || host == h + "." + ":" + port
  }

  lemma FormsStripAlike(host: string, h: string)
    requires IsPlain(h) && h != "" && IsFormOf(host, h)
    ensures StripPort(host) == h
  {
    PlainStays(h);
    DotIsDropped(h);
    if host != h && host != h + "." {
      var port :| host == h + ":" + port || host == h + "." + ":" + port;
      PortIsDropped(h, port);
      PortIsDropped(h + ".", port);
    }
  }

  /** So at any depth, with a port, one trailing dot or both. */
  lemma OwnedFormsAreNeverCustom(host: string, h: string, owned: string, roots: seq<string>)
    requires owned in OWNED && IsAtOrUnder(h, owned) && IsPlain(h) && h != "" && IsFormOf(host, h)
    ensures !IsCustomParentHost(host, roots)
  {
    FormsStripAlike(host, h);
    OwnedIsNeverCustom(host, owned, roots);
  }

  // ----- Kinds of host -----

  /** For every list of roots a host is of at most one kind. */
  lemma KindsExclude(host: string, roots: seq<string>)
    ensures !(IsPlatformAppHost(host, roots) && TenantSlug(host, roots).Some?)
    ensures !(IsPlatformAppHost(host, roots) && IsCustomParentHost(host, roots))
    ensures !(TenantSlug(host, roots).Some? && IsCustomParentHost(host, roots))
  {
  }

  /** The kind of a host with a parent is fixed by whether its first label is reserved and its parent a root. */
  lemma KindOfParented(host: string, first: string, rest: string, roots: seq<string>)
    requires StripPort(host) == first + "." + rest && '.' !in first && ParentDomain(host, roots) == Some(rest)
    ensures IsPlatformAppHost(host, roots) <==> first in RESERVED && rest in roots
    ensures TenantSlug(host, roots) == if first !in RESERVED && IsSlug(first) then Some(first) else None
    ensures IsCustomParentHost(host, roots) ==> first in RESERVED && rest !in roots
  {
    LabelAndRest(first, rest);
    ParentOf(host, first, rest, roots);
  }

  /** No cookie is ever scoped to a public suffix. */
  lemma CookieIsScopedToRegistrable(host: string, roots: seq<string>)
    ensures CookieDomain(host, roots) != "" ==>
              && HasParent(host, roots) && CookieDomain(host, roots) == "." + ParentDomain(host, roots).value
              && !IsPublicSuffix(ParentDomain(host, roots).value)
              && EndsWith(StripPort(host), CookieDomain(host, roots))
  {
    if CookieDomain(host, roots) != "" {
      ParentIsRest(host, roots);
      var parent := ParentDomain(host, roots).value;
      var first :| '.' !in first && StripPort(host) == first + "." + parent;
      assert (first + "." + parent)[|first|..] == "." + parent;
    }
  }
}
