/** What each answer about a host is, by the host's first label and the rest. */
module DomainLaws {
  import opened Wrappers
  import opened JsString
  import opened Domains

  /** The stripped host is a label without dots, a dot, and the rest. */
  predicate IsLabelled(host: string, label_: string, rest: string) {
    StripPort(host) == label_ + "." + rest && '.' !in label_
  }

  lemma NoDotNoParent(host: string, app: App, proto: string, roots: seq<string>)
    requires '.' !in StripPort(host)
    ensures ParentDomain(host, roots) == None && CookieDomain(host, roots) == "" && TenantSlug(host, roots) == None
    ensures SiblingHost(host, app, roots) == None && SiblingOrigin(host, app, proto, roots) == None
    ensures !IsCustomParentHost(host, roots) && !IsPlatformAppHost(host, roots)
  {
    SplitFree(StripPort(host), '.');
  }

  /** Every other host has one label and one rest. */
  lemma DotHasLabel(host: string) returns (label_: string, rest: string)
    requires '.' in StripPort(host)
    ensures IsLabelled(host, label_, rest)
  {
    var h := StripPort(host);
    if |Split(h, '.')| < 2 { OnePartIsFree(h); }
    FirstLabel(h);
    label_, rest := Split(h, '.')[0], Join(Split(h, '.')[1..], '.');
  }

  lemma OnePartIsFree(h: string)
    requires |Split(h, '.')| < 2
    ensures '.' !in h
  {
    JoinSplit(h, '.');
    PartsAreFree(h, '.', 0);
  }

  // ----- Custom, platform and tenant hosts -----

  /** A name without a dot, or one of the listed suffixes: nothing that can be registered. */
  predicate IsSuffixOnly(d: string) { d != "" && (d in PUBLIC_SUFFIXES || forall i :: 0 <= i < |d| ==> d[i] != '.') }

  lemma SuffixIs(domain: string)
    ensures IsPublicSuffix(domain) <==> IsSuffixOnly(StripPort(domain))
  {
    var d := StripPort(domain);
    if '.' in d { var i :| 0 <= i < |d| && d[i] == '.'; }
  }

  /** At a domain of the platform's own, or under one. */
  ghost predicate IsOurs(d: string) {
    exists owned :: owned in OWNED && (d == owned || exists sub: string :: d == sub + "." + owned)
  }

  lemma EndsWithIs(s: string, t: string)
    ensures EndsWith(s, t) <==> exists head: string :: s == head + t
  {
    if EndsWith(s, t) { assert s == s[..|s| - |t|] + t; }
    forall head: string | s == head + t ensures EndsWith(s, t) { assert s[|s| - |t|..] == t; }
  }

  lemma UnderIs(d: string, owned: string)
    ensures IsAtOrUnder(d, owned) <==> d == owned || exists sub: string :: d == sub + "." + owned
  {
    EndsWithIs(d, "." + owned);
    forall sub: string ensures sub + ("." + owned) == sub + "." + owned {}
  }

  lemma OwnedIs(parent: string)
    ensures IsOwned(parent) <==> StripPort(parent) != "" && IsOurs(StripPort(parent))
  {
    var p := StripPort(parent);
    forall owned: string ensures IsAtOrUnder(p, owned) <==> p == owned || exists sub: string :: p == sub + "." + owned {
      UnderIs(p, owned);
    }
  }

  lemma ParentIs(host: string, label_: string, rest: string, roots: seq<string>)
    requires IsLabelled(host, label_, rest)
    ensures ParentDomain(host, roots)
            == if !HostIsLocal(StripPort(host))
                  && ((label_ in RESERVED && !IsSuffixOnly(StripPort(rest))) || rest in roots)
               then Some(rest) else None
  {
    ParentOf(host, label_, rest, roots);
    SuffixIs(rest);
  }

  /** A host is custom, if and only if a reserved label stands in front of a registrable domain that is not ours. */
  lemma CustomIff(host: string, label_: string, rest: string, roots: seq<string>)
    requires IsLabelled(host, label_, rest)
    ensures IsCustomParentHost(host, roots) <==>
      && rest != "" && !HostIsLocal(StripPort(host)) && label_ in RESERVED && !IsSuffixOnly(StripPort(rest))
      && rest !in roots && !IsOurs(StripPort(rest))
  {
    ParentIs(host, label_, rest, roots);
    OwnedIs(rest);
    if StripPort(rest) == "" { OursIsLong(""); }
  }

  lemma OursIsLong(d: string)
    requires |d| < 3
    ensures !IsOurs(d)
  {
    forall owned | owned in OWNED ensures |owned| > 2 { OwnedStart(owned); }
  }

  /** A platform app host has a reserved label in front of a root. */
  lemma PlatformIff(host: string, label_: string, rest: string, roots: seq<string>)
    requires IsLabelled(host, label_, rest)
    ensures IsPlatformAppHost(host, roots) <==> label_ in RESERVED && rest in roots
  {
    LabelAndRest(label_, rest);
  }

  /** Letters, digits and hyphens, with no hyphen at either end. */
  predicate IsTenantName(s: string) {
    && s != "" && s[0] != '-' && s[|s| - 1] != '-'
    && forall c :: c in s ==> 'a' <= c <= 'z' || '0' <= c <= '9' || c == '-'
  }

  /** A tenant's host has the tenant's name, which is no reserved label, in front of a root. */
  lemma SlugIff(host: string, label_: string, rest: string, roots: seq<string>)
    requires IsLabelled(host, label_, rest)
    ensures TenantSlug(host, roots)
            == if !HostIsLocal(StripPort(host)) && label_ !in RESERVED && rest in roots && IsTenantName(label_)
               then Some(label_) else None
  {
    LabelAndRest(label_, rest);
    assert label_ != "" ==> label_[0] in label_ && label_[|label_| - 1] in label_;
  }

  // ----- Cookies and siblings -----

  /** The cookie's domain is the dotted rest, if that is a parent and no public suffix, and else it is host-only. */
  lemma CookieIs(host: string, label_: string, rest: string, roots: seq<string>)
    requires IsLabelled(host, label_, rest)
    ensures CookieDomain(host, roots)
            == if rest != "" && !HostIsLocal(StripPort(host)) && !IsSuffixOnly(StripPort(rest))
                  && (label_ in RESERVED || rest in roots)
               then "." + rest else ""
  {
    ParentIs(host, label_, rest, roots);
    SuffixIs(rest);
  }

  lemma OriginFrom(host: string, rest: string, app: App, proto: string, roots: seq<string>)
    requires ParentDomain(host, roots) == Some(rest) && rest != "" && IsDerivable(host)
    ensures SiblingOrigin(host, app, proto, roots) == Some(NormaliseProto(proto) + "://" + (Name(app) + "." + rest))
  {
  }

  lemma ProtocolIs(proto: string)
    requires proto == "" || proto[|proto| - 1] != ':'
    ensures NormaliseProto(proto) == if proto == "" then "https" else proto
    ensures proto != "" ==> NormaliseProto(proto + ":") == proto
  {
    assert (proto + ":")[..|proto|] == proto;
  }

  /** A sibling's origin: the protocol without its colon, or https if none is given, the app, and the parent. */
  lemma OriginIs(host: string, label_: string, rest: string, app: App, proto: string, roots: seq<string>)
    requires IsLabelled(host, label_, rest) && rest != "" && (proto == "" || proto[|proto| - 1] != ':')
    requires !HostIsLocal(host) && !HasNonDefaultPort(host) && !HostIsLocal(StripPort(host))
    requires (label_ in RESERVED && !IsSuffixOnly(StripPort(rest))) || rest in roots
    ensures var origin := (if proto == "" then "https" else proto) + "://" + (Name(app) + "." + rest);
            && SiblingOrigin(host, app, proto, roots) == Some(origin)
            && (proto != "" ==> SiblingOrigin(host, app, proto + ":", roots) == Some(origin))
  {
    ParentIs(host, label_, rest, roots);
    OriginFrom(host, rest, app, proto, roots);
    OriginFrom(host, rest, app, proto + ":", roots);
    ProtocolIs(proto);
  }

  lemma NotDerivableNoSibling(host: string, app: App, proto: string, roots: seq<string>)
    requires HostIsLocal(host) || HasNonDefaultPort(host)
    ensures SiblingOrigin(host, app, proto, roots) == None
  {
  }

  // ----- Ports, addresses and ways of writing -----

  predicate IsNumeral(s: string) { s != "" && forall i :: 0 <= i < |s| ==> '0' <= s[i] <= '9' }

  /** What stands behind the last colon is another port than 80 and 443. */
  lemma PortIs(h: string, port: string)
    requires ':' !in port
    ensures HasNonDefaultPort(h + ":" + port) <==> IsNumeral(port) && port != "80" && port != "443"
  {
    LastPart(h, port);
  }

  lemma {:induction false} LastPart(h: string, port: string)
    requires ':' !in port
    ensures var parts := Split(h + ":" + port, ':'); |parts| >= 2 && parts[|parts| - 1] == port
    decreases |h|
  {
    if ':' in h {
      if |Split(h, ':')| < 2 { JoinSplit(h, ':'); PartsAreFree(h, ':', 0); }
      JoinSplit(h, ':');
      PartsAreFree(h, ':', 0);
      var a, b := Split(h, ':')[0], Join(Split(h, ':')[1..], ':');
      assert h + ":" + port == a + ":" + (b + ":" + port);
      SplitAtFirst(a, b + ":" + port, ':');
      LastPart(b, port);
    } else {
      SplitAtFirst(h, port, ':');
      SplitFree(port, ':');
    }
  }

  lemma NoColonNoPort(host: string)
    requires ':' !in host
    ensures !HasNonDefaultPort(host)
  {
    SplitFree(host, ':');
  }

  predicate IsGroup(s: string) { 1 <= |s| <= 3 && IsNumeral(s) }

  predicate IsAddress(h: string, a: string, b: string, c: string, d: string) {
    h == a + "." + (b + "." + (c + "." + d)) && IsGroup(a) && IsGroup(b) && IsGroup(c) && IsGroup(d)
  }

  /** Four groups of one to three digits are a bare address. */
  lemma AddressIs(h: string)
    ensures IsIpv4(h) <==> exists a, b, c, d :: IsAddress(h, a, b, c, d)
  {
    forall a, b, c, d | IsAddress(h, a, b, c, d) ensures IsIpv4(h) { FourParts(a, b, c, d); }
    if IsIpv4(h) {
      var p := Split(h, '.');
      JoinSplit(h, '.');
      FourJoined(p);
      assert IsAddress(h, p[0], p[1], p[2], p[3]);
    }
  }

  lemma FourParts(a: string, b: string, c: string, d: string)
    requires IsGroup(a) && IsGroup(b) && IsGroup(c) && IsGroup(d)
    ensures Split(a + "." + (b + "." + (c + "." + d)), '.') == [a, b, c, d]
  {
    SplitAtFirst(a, b + "." + (c + "." + d), '.');
    SplitAtFirst(b, c + "." + d, '.');
    SplitAtFirst(c, d, '.');
    SplitFree(d, '.');
  }

  lemma FourJoined(p: seq<string>)
    requires |p| == 4
    ensures Join(p, '.') == p[0] + "." + (p[1] + "." + (p[2] + "." + p[3]))
  {
    assert p[1..][1..] == p[2..] && p[2..][1..] == p[3..];
    assert Join(p[3..], '.') == p[3];
    assert Join(p[2..], '.') == p[2] + "." + p[3];
    assert Join(p[1..], '.') == p[1] + "." + (p[2] + "." + p[3]);
  }

  lemma LocalIs(host: string)
    ensures HostIsLocal(host) <==>
      StripPort(host) == "localhost" || exists a, b, c, d :: IsAddress(StripPort(host), a, b, c, d)
  {
    AddressIs(StripPort(host));
  }

  lemma DottedIsTrimmed(h: string, dot: string)
    requires (dot == "" || dot == ".") && IsPlain(ToLower(h)) && h != ""
    ensures IsTrimmed(h + dot)
  {
    LowerKeepsSpace(h);
    var t := h + dot;
    assert t[0] == h[0] && t[|t| - 1] == if dot == "" then h[|h| - 1] else '.';
  }

  lemma LowerDropsDot(h: string, dot: string)
    requires (dot == "" || dot == ".") && IsPlain(ToLower(h)) && h != ""
    ensures DropDot(ToLower(h + dot)) == ToLower(h)
  {
    assert ToLower(h + dot) == ToLower(h) + dot;
    if dot == "" { assert ToLower(h)[|h| - 1..] == [ToLower(h)[|h| - 1]]; }
  }

  /** The same text, but for some of its letters being capitals. */
  predicate Spells(h: string, plain: string) {
    |h| == |plain| && forall i :: 0 <= i < |h| ==> h[i] == plain[i] || IsCapitalOf(h[i], plain[i])
  }

  predicate IsCapitalOf(c: char, d: char) { 'A' <= c <= 'Z' && d as int - 'a' as int == c as int - 'A' as int }

  lemma SpellingIsLowered(h: string, plain: string)
    requires Spells(h, plain) && IsPlain(plain)
    ensures ToLower(h) == plain && ':' !in h
  {
    forall i | 0 <= i < |h| ensures ToLower(h)[i] == plain[i] && h[i] != ':' { CapitalsAreLowered(h, i); }
  }

  /** Space around a host, capitals, one trailing dot and a port make no difference. */
  lemma WritingMakesNoDifference(pre: string, h: string, plain: string, post: string, dot: string, port: string)
    requires AllSpace(pre) && AllSpace(post) && (dot == "" || dot == ".")
    requires Spells(h, plain) && IsPlain(plain) && plain != ""
    ensures StripPort(pre + (h + dot) + post) == plain
    ensures StripPort(pre + (h + dot) + post + ":" + port) == plain
  {
    SpellingIsLowered(h, plain);
    SpaceHasNoColon(pre);
    SpaceHasNoColon(post);
    DottedIsTrimmed(h, dot);
    TrimSpaced(pre, h + dot, post);
    SplitFree(pre + (h + dot) + post, ':');
    PortIsDropped(pre + (h + dot) + post, port);
    LowerDropsDot(h, dot);
  }

  lemma SpaceHasNoColon(s: string)
    requires AllSpace(s)
    ensures ':' !in s
  {
  }

  lemma LowerKeepsSpace(s: string)
    ensures forall i :: 0 <= i < |s| ==> IsSpace(ToLower(s)[i]) == IsSpace(s[i])
  {
  }
}
