/** Roles, permission rules and the ability they build, under last-matching-rule-wins. */
module Permissions {

  datatype Domain =
    | Tenant | Iam | Contacts | Audience | Insights | Civic | Demographics | Messaging | Canvass | Events | Journey
    | Integration | Geo | Analytics | Compliance | Telephony | Autodialer | Actions | Payment | Email | Audit | System
    | Foreign(name: string)

  /** A resource name at its first dot: `all`, `<domain>.<entity>`, or a name without a dot. */
  datatype Resource = All | Of(domain: Domain, entity: string) | Plain(name: string)

  datatype Rule = Rule(action: string, resource: Resource, inverted: bool)

  datatype Actor = Actor(roles: seq<string>, overrides: seq<Rule>, isSuperAdmin: bool)

  const MANAGE := "manage"
  const EVERY := "all"

  function Names(d: Domain, entities: seq<string>): (r: seq<Resource>)
    ensures |r| == |entities| && forall i :: 0 <= i < |r| ==> r[i] == Of(d, entities[i])
  {
    seq(|entities|, i requires 0 <= i < |entities| => Of(d, entities[i]))
  }

  const TENANT := Names(Tenant,
    ["tenant", "network", "member", "invitation", "org-profile", "api-keys", "files", "all"])
  const MESSAGING := Names(Messaging,
    ["blast", "inbound", "outbound", "template", "consent", "conversation", "texting", "suppression", "all"])
  const CANVASS := Names(Canvass,
    ["campaign", "turf", "walklist", "doorknock", "disposition", "script", "survey", "content", "shift", "all"])
  const EVENTS := Names(Events, ["event", "calendar", "all"])
  const ANALYTICS := Names(Analytics, ["snapshot", "vital", "all"])
  const OTHERS_BEFORE := Names(Iam, ["user", "session", "profile", "all"]) + Names(Contacts, ["contact", "tag"])
    + Names(Audience, ["audience", "segment", "import", "contact-source", "all"]) + Names(Insights, ["poll", "all"])
    + Names(Civic, ["politician", "policy", "all"]) + Names(Demographics, ["indicator", "all"])
  const OTHERS_BETWEEN := Names(Journey, ["journey", "enrolment", "all"])
    + Names(Integration, ["connection", "sync", "all"])
    + Names(Geo, ["division", "area", "all"])
  const OTHERS_AFTER := Names(Compliance, ["suppression", "all"])
    + Names(Telephony, ["call", "number", "provisioning", "all"]) + Names(Autodialer, ["campaign", "result", "all"])
    + Names(Actions, ["page", "all"]) + Names(Payment, ["all"]) + Names(Email, ["provisioning", "identity", "all"])
    + Names(Audit, ["log"])
    + Names(System, ["feature-flags", "feature-flags-global", "telephony-provisioning", "email-provisioning"]) + [All]

  /** Every resource of the platform, in the order of the list. */
  const LISTED: seq<Resource> :=
    TENANT + OTHERS_BEFORE + MESSAGING + CANVASS + EVENTS + OTHERS_BETWEEN + ANALYTICS + OTHERS_AFTER

  function Grant(action: string, d: Domain, entity: string): Rule { Rule(action, Of(d, entity), false) }

  function Wild(action: string, ds: seq<Domain>): (r: seq<Rule>)
    ensures |r| == |ds| && forall i :: 0 <= i < |r| ==> r[i] == Grant(action, ds[i], EVERY)
  {
    seq(|ds|, i requires 0 <= i < |ds| => Grant(action, ds[i], EVERY))
  }

  const SUPER_ADMIN := [Rule(MANAGE, All, false)]

  const OWNER_DOMAINS := [
    Tenant, Iam, Audience, Messaging, Telephony, Autodialer, Actions, Email, Canvass, Events, Journey, Integration, Geo,
    Analytics, Insights, Civic, Demographics, Compliance]

  const OWNER := Wild(MANAGE, OWNER_DOMAINS)
    + [Grant(MANAGE, Contacts, "contact"), Grant(MANAGE, Contacts, "tag"), Grant(MANAGE, Payment, EVERY),
       Grant("read", Audit, "log"), Grant(MANAGE, System, "feature-flags")]

  const ORGANISER_DOMAINS := [
    Audience, Messaging, Telephony, Autodialer, Actions, Email, Canvass, Events, Journey, Integration, Geo, Compliance,
    Insights, Civic, Demographics]

  const ORGANISER := Wild(MANAGE, ORGANISER_DOMAINS)
    + [Grant(MANAGE, Contacts, "contact"), Grant(MANAGE, Contacts, "tag"), Grant(MANAGE, Tenant, "member"),
       Grant(MANAGE, Tenant, "invitation"), Grant(MANAGE, Tenant, "org-profile"), Grant(MANAGE, Tenant, "files"),
       Grant("read", Tenant, "tenant"), Grant("read", Analytics, EVERY), Grant("create", Analytics, "vital"),
       Grant("read", Audit, "log"), Grant("read", System, "feature-flags")]

  const VOLUNTEER := [
    Grant("read", Canvass, "turf"), Grant("read", Canvass, "walklist"), Grant("read", Canvass, "campaign"),
    Grant("read", Canvass, "script"), Grant("read", Canvass, "survey"), Grant(MANAGE, Canvass, "doorknock"),
    Grant("create", Canvass, "disposition"), Grant("read", Canvass, "shift"), Grant("read", Events, "event"),
    Grant("read", Events, "calendar"), Grant("read", Contacts, "contact"), Grant("read", Contacts, "tag"),
    Grant("create", Analytics, "vital"), Grant(MANAGE, Messaging, "texting")]

  const MEMBER_DOMAINS := [
    Audience, Messaging, Telephony, Autodialer, Actions, Email, Canvass, Events, Analytics, Insights, Civic,
    Demographics]

  const MEMBER := [Grant("read", Tenant, "tenant"), Grant("read", Tenant, "org-profile")] + Wild("read", MEMBER_DOMAINS)

  predicate IsKnownRole(role: string) { role in ["super-admin", "owner", "organiser", "volunteer", "member"] }

  function RoleRules(role: string): seq<Rule> {
    if role == "super-admin" then SUPER_ADMIN
    else if role == "owner" then OWNER
    else if role == "organiser" then ORGANISER
    else if role == "volunteer" then VOLUNTEER
    else if role == "member" then MEMBER
    else []
  }

  // ----- Expansion and resolution -----

  predicate IsEntityOf(r: Resource, d: Domain) { r.Of? && r.domain == d && r.entity != EVERY }

  /** The listed resources of a domain other than its wildcard, in the order of the list. */
  function EntitiesIn(d: Domain, rs: seq<Resource>): seq<Resource> {
    if rs == [] then []
    else EntitiesIn(d, rs[..|rs| - 1]) + (if IsEntityOf(rs[|rs| - 1], d) then [rs[|rs| - 1]] else [])
  }

  predicate IsWildcard(r: Resource) { r.Of? && r.entity == EVERY }

  function Expand(rule: Rule): seq<Rule> {
    if !IsWildcard(rule.resource) then [rule]
    else
      var concretes := EntitiesIn(rule.resource.domain, LISTED);
      [rule] + seq(|concretes|, i requires 0 <= i < |concretes| => Rule(rule.action, concretes[i], rule.inverted))
  }

  function ExpandAll(rules: seq<Rule>): seq<Rule> {
    if rules == [] then [] else ExpandAll(rules[..|rules| - 1]) + Expand(rules[|rules| - 1])
  }

  function RolePermissions(roles: seq<string>): seq<Rule> {
    if roles == [] then []
    else
      var role := roles[|roles| - 1];
      RolePermissions(roles[..|roles| - 1]) + (if IsKnownRole(role) then RoleRules(role) else [])
  }

  /** `can` records the rule without its inversion. */
  function Positive(rules: seq<Rule>): (r: seq<Rule>)
    ensures |r| == |rules| && forall i :: 0 <= i < |r| ==> r[i] == rules[i].(inverted := false)
  {
    seq(|rules|, i requires 0 <= i < |rules| => rules[i].(inverted := false))
  }

  predicate HasSuperAdmin(actor: Actor) {
    actor.isSuperAdmin || exists i :: 0 <= i < |actor.overrides| && actor.overrides[i] == Rule(MANAGE, All, false)
  }

  /** The rules of the ability, in the order in which they were recorded. */
  function Ability(actor: Actor): seq<Rule> {
    if HasSuperAdmin(actor) then [Rule(MANAGE, All, false)]
    else Positive(ExpandAll(RolePermissions(actor.roles))) + ExpandAll(actor.overrides)
  }

  // ----- Last matching rule wins -----

  predicate Matches(rule: Rule, action: string, resource: Resource) {
    (rule.action == MANAGE || rule.action == action) && (rule.resource == All || rule.resource == resource)
  }

  predicate AnyMatches(rules: seq<Rule>, action: string, resource: Resource) {
    exists i :: 0 <= i < |rules| && Matches(rules[i], action, resource)
  }

  predicate Decide(rules: seq<Rule>, action: string, resource: Resource) {
    rules != [] &&
    var last := rules[|rules| - 1];
    if Matches(last, action, resource) then !last.inverted else Decide(rules[..|rules| - 1], action, resource)
  }

  predicate Can(actor: Actor, action: string, resource: Resource) { Decide(Ability(actor), action, resource) }

  lemma AnyMatchesLast(rules: seq<Rule>, action: string, resource: Resource)
    requires rules != []
    ensures AnyMatches(rules, action, resource)
            <==> Matches(rules[|rules| - 1], action, resource) || AnyMatches(rules[..|rules| - 1], action, resource)
  {
    var n := |rules| - 1;
    if i :| 0 <= i < n && Matches(rules[..n][i], action, resource) {
      assert Matches(rules[i], action, resource);
    }
    if i :| 0 <= i < |rules| && Matches(rules[i], action, resource) {
      assert i < n ==> Matches(rules[..n][i], action, resource);
    }
  }

  lemma {:induction false} DecideAppend(a: seq<Rule>, b: seq<Rule>, action: string, resource: Resource)
    ensures Decide(a + b, action, resource)
            == if AnyMatches(b, action, resource) then Decide(b, action, resource) else Decide(a, action, resource)
  {
    if b == [] {
      assert a + b == a;
    } else {
      var n := |b| - 1;
      DecideAppend(a, b[..n], action, resource);
      assert (a + b)[..|a + b| - 1] == a + b[..n];
      AnyMatchesLast(b, action, resource);
    }
  }

  lemma {:induction false} PositiveDecides(rules: seq<Rule>, action: string, resource: Resource)
    requires forall i :: 0 <= i < |rules| ==> !rules[i].inverted
    ensures Decide(rules, action, resource) <==> AnyMatches(rules, action, resource)
  {
    if rules != [] {
      PositiveDecides(rules[..|rules| - 1], action, resource);
      AnyMatchesLast(rules, action, resource);
    }
  }

  lemma {:induction false} InvertedDecides(rules: seq<Rule>, action: string, resource: Resource)
    requires forall i :: 0 <= i < |rules| ==> rules[i].inverted
    ensures !Decide(rules, action, resource)
  {
    if rules != [] { InvertedDecides(rules[..|rules| - 1], action, resource); }
  }

  // ----- What one rule reaches -----

  lemma {:induction false} EntitiesAre(d: Domain, rs: seq<Resource>, r: Resource)
    ensures r in EntitiesIn(d, rs) <==> r in rs && IsEntityOf(r, d)
  {
    if rs != [] {
      EntitiesAre(d, rs[..|rs| - 1], r);
      assert rs == rs[..|rs| - 1] + [rs[|rs| - 1]];
    }
  }

  /** The resources a rule speaks of: all of them, its own, or a wildcard with the entities listed under it. */
  predicate Reaches(rule: Rule, resource: Resource) {
    || rule.resource == All || rule.resource == resource
    || (IsWildcard(rule.resource) && resource in LISTED && IsEntityOf(resource, rule.resource.domain))
  }

  predicate Speaks(rule: Rule, action: string, resource: Resource) {
    (rule.action == MANAGE || rule.action == action) && Reaches(rule, resource)
  }

  /** The expansion of a rule matches exactly what the rule reaches. */
  lemma ExpandMatches(rule: Rule, action: string, resource: Resource)
    ensures AnyMatches(Expand(rule), action, resource) <==> Speaks(rule, action, resource)
  {
    if IsWildcard(rule.resource) {
      var concretes := EntitiesIn(rule.resource.domain, LISTED);
      EntitiesAre(rule.resource.domain, LISTED, resource);
      assert Expand(rule)[0] == rule;
      forall i | 0 <= i < |concretes| ensures Expand(rule)[i + 1] == Rule(rule.action, concretes[i], rule.inverted) {}
      if Speaks(rule, action, resource) && rule.resource != resource {
        var i :| 0 <= i < |concretes| && concretes[i] == resource;
        assert Matches(Expand(rule)[i + 1], action, resource);
      }
      if i :| 0 <= i < |Expand(rule)| && Matches(Expand(rule)[i], action, resource) {
        if i > 0 {
          assert concretes[i - 1] in concretes;
          EntitiesAre(rule.resource.domain, LISTED, concretes[i - 1]);
        }
      }
    } else {
      assert Expand(rule)[0] == rule;
    }
  }

  predicate AnySpeaks(rules: seq<Rule>, action: string, resource: Resource) {
    exists i :: 0 <= i < |rules| && Speaks(rules[i], action, resource)
  }

  lemma AnyMatchesAppend(a: seq<Rule>, b: seq<Rule>, action: string, resource: Resource)
    ensures AnyMatches(a + b, action, resource) <==> AnyMatches(a, action, resource) || AnyMatches(b, action, resource)
  {
    if i :| 0 <= i < |a| && Matches(a[i], action, resource) { assert Matches((a + b)[i], action, resource); }
    if i :| 0 <= i < |b| && Matches(b[i], action, resource) { assert Matches((a + b)[|a| + i], action, resource); }
    if i :| 0 <= i < |a + b| && Matches((a + b)[i], action, resource) {
      assert if i < |a| then Matches(a[i], action, resource) else Matches(b[i - |a|], action, resource);
    }
  }

  lemma {:induction false} ExpandAllMatches(rules: seq<Rule>, action: string, resource: Resource)
    ensures AnyMatches(ExpandAll(rules), action, resource) <==> AnySpeaks(rules, action, resource)
  {
    if rules != [] {
      var n := |rules| - 1;
      ExpandAllMatches(rules[..n], action, resource);
      ExpandMatches(rules[n], action, resource);
      AnyMatchesAppend(ExpandAll(rules[..n]), Expand(rules[n]), action, resource);
      if i :| 0 <= i < n && Speaks(rules[..n][i], action, resource) { assert Speaks(rules[i], action, resource); }
      if i :| 0 <= i < |rules| && Speaks(rules[i], action, resource) {
        assert i < n ==> Speaks(rules[..n][i], action, resource);
      }
    }
  }

  // ----- Roles -----

  /** The rights that the roles alone give. */
  predicate RoleRights(roles: seq<string>, action: string, resource: Resource) {
    Can(Actor(roles, [], false), action, resource)
  }

  /** Roles give what some rule of some known role among them speaks of: order and repetition do not matter. */
  lemma RightsOfRoles(roles: seq<string>, action: string, resource: Resource)
    ensures RoleRights(roles, action, resource) <==> AnyRoleSpeaks(roles, action, resource)
  {
    RoleRightsAre(roles, action, resource);
    PositiveMatches(ExpandAll(RolePermissions(roles)), action, resource);
    ExpandAllMatches(RolePermissions(roles), action, resource);
    RolePermissionsSpeak(roles, action, resource);
  }

  lemma PositiveMatches(rules: seq<Rule>, action: string, resource: Resource)
    ensures Decide(Positive(rules), action, resource) <==> AnyMatches(rules, action, resource)
  {
    PositiveDecides(Positive(rules), action, resource);
    if i :| 0 <= i < |rules| && Matches(rules[i], action, resource) {
      assert Matches(Positive(rules)[i], action, resource);
    }
  }

  lemma AnySpeaksAppend(a: seq<Rule>, b: seq<Rule>, action: string, resource: Resource)
    ensures AnySpeaks(a + b, action, resource) <==> AnySpeaks(a, action, resource) || AnySpeaks(b, action, resource)
  {
    if i :| 0 <= i < |a| && Speaks(a[i], action, resource) { assert Speaks((a + b)[i], action, resource); }
    if i :| 0 <= i < |b| && Speaks(b[i], action, resource) { assert Speaks((a + b)[|a| + i], action, resource); }
    if i :| 0 <= i < |a + b| && Speaks((a + b)[i], action, resource) {
      assert if i < |a| then Speaks(a[i], action, resource) else Speaks(b[i - |a|], action, resource);
    }
  }

  predicate RoleSpeaks(role: string, action: string, resource: Resource) {
    IsKnownRole(role) && AnySpeaks(RoleRules(role), action, resource)
  }

  ghost predicate AnyRoleSpeaks(roles: seq<string>, action: string, resource: Resource) {
    exists i :: 0 <= i < |roles| && RoleSpeaks(roles[i], action, resource)
  }

  lemma AnyRoleSpeaksLast(roles: seq<string>, action: string, resource: Resource)
    requires roles != []
    ensures AnyRoleSpeaks(roles, action, resource)
            <==> RoleSpeaks(roles[|roles| - 1], action, resource)
                 || AnyRoleSpeaks(roles[..|roles| - 1], action, resource)
  {
    var n := |roles| - 1;
    if i :| 0 <= i < n && RoleSpeaks(roles[..n][i], action, resource) {
      assert RoleSpeaks(roles[i], action, resource);
    }
    if i :| 0 <= i < |roles| && RoleSpeaks(roles[i], action, resource) {
      assert i < n ==> RoleSpeaks(roles[..n][i], action, resource);
    }
  }

  lemma {:induction false} RolePermissionsSpeak(roles: seq<string>, action: string, resource: Resource)
    ensures AnySpeaks(RolePermissions(roles), action, resource) <==> AnyRoleSpeaks(roles, action, resource)
  {
    if roles != [] {
      var n := |roles| - 1;
      RolePermissionsSpeak(roles[..n], action, resource);
      var last := if IsKnownRole(roles[n]) then RoleRules(roles[n]) else [];
      AnySpeaksAppend(RolePermissions(roles[..n]), last, action, resource);
      AnyRoleSpeaksLast(roles, action, resource);
    }
  }

  /** Under the same overrides, roles that give a right do no worse than roles that do not. */
  lemma WiderRolesMoreRights(actor: Actor, wider: seq<string>, action: string, resource: Resource)
    requires RoleRights(actor.roles, action, resource) ==> RoleRights(wider, action, resource)
    requires Can(actor, action, resource)
    ensures Can(actor.(roles := wider), action, resource)
  {
    if !HasSuperAdmin(actor) {
      RoleRightsAre(actor.roles, action, resource);
      RoleRightsAre(wider, action, resource);
      var own := ExpandAll(actor.overrides);
      DecideAppend(Positive(ExpandAll(RolePermissions(actor.roles))), own, action, resource);
      DecideAppend(Positive(ExpandAll(RolePermissions(wider))), own, action, resource);
    }
  }

  lemma RoleRightsAre(roles: seq<string>, action: string, resource: Resource)
    ensures RoleRights(roles, action, resource) == Decide(Positive(ExpandAll(RolePermissions(roles))), action, resource)
  {
    var ofRoles := Positive(ExpandAll(RolePermissions(roles)));
    assert Ability(Actor(roles, [], false)) == ofRoles + [] == ofRoles;
  }

  /** More roles never take a right away, whatever the overrides. */
  lemma MoreRolesMoreRights(actor: Actor, more: seq<string>, action: string, resource: Resource)
    requires forall r :: r in actor.roles ==> r in more
    requires Can(actor, action, resource)
    ensures Can(actor.(roles := more), action, resource)
  {
    RightsOfRoles(actor.roles, action, resource);
    RightsOfRoles(more, action, resource);
    if i :| 0 <= i < |actor.roles| && RoleSpeaks(actor.roles[i], action, resource) {
      assert actor.roles[i] in more;
      var j :| 0 <= j < |more| && more[j] == actor.roles[i];
      assert RoleSpeaks(more[j], action, resource);
    }
    WiderRolesMoreRights(actor, more, action, resource);
  }

  // ----- Overrides -----

  lemma RuleDecides(before: seq<Rule>, rule: Rule, action: string, resource: Resource)
    ensures Decide(before + Expand(rule), action, resource)
            <==> if Speaks(rule, action, resource) then !rule.inverted else Decide(before, action, resource)
  {
    DecideAppend(before, Expand(rule), action, resource);
    ExpandMatches(rule, action, resource);
    if rule.inverted {
      InvertedDecides(Expand(rule), action, resource);
    } else {
      PositiveDecides(Expand(rule), action, resource);
    }
  }

  lemma ExpandAllSnoc(rules: seq<Rule>, rule: Rule)
    ensures ExpandAll(rules + [rule]) == ExpandAll(rules) + Expand(rule)
  {
    assert (rules + [rule])[..|rules|] == rules;
  }

  lemma AbilityGrows(roles: seq<string>, overrides: seq<Rule>, rule: Rule)
    requires !HasSuperAdmin(Actor(roles, overrides, false)) && rule != Rule(MANAGE, All, false)
    ensures Ability(Actor(roles, overrides + [rule], false)) == Ability(Actor(roles, overrides, false)) + Expand(rule)
  {
    var more := overrides + [rule];
    forall i | 0 <= i < |more| ensures more[i] != Rule(MANAGE, All, false) {
      assert i < |overrides| ==> more[i] == overrides[i];
    }
    ExpandAllSnoc(overrides, rule);
    var ofRoles := Positive(ExpandAll(RolePermissions(roles)));
    assert ofRoles + (ExpandAll(overrides) + Expand(rule)) == ofRoles + ExpandAll(overrides) + Expand(rule);
  }

  /** The last override decides on what it speaks of; on everything else it changes nothing. */
  lemma LastOverrideDecides(roles: seq<string>, overrides: seq<Rule>, rule: Rule, action: string, resource: Resource)
    requires !HasSuperAdmin(Actor(roles, overrides, false)) && rule != Rule(MANAGE, All, false)
    ensures Can(Actor(roles, overrides + [rule], false), action, resource)
            <==> if Speaks(rule, action, resource) then !rule.inverted
                 else Can(Actor(roles, overrides, false), action, resource)
  {
    AbilityGrows(roles, overrides, rule);
    RuleDecides(Ability(Actor(roles, overrides, false)), rule, action, resource);
  }

  /** A wildcard granted alone reaches itself and the entities listed under it, and no other resource. */
  lemma WildcardReach(d: Domain, verb: string, action: string, resource: Resource)
    ensures Can(Actor([], [Rule(verb, Of(d, EVERY), false)], false), action, resource)
            <==> (verb == MANAGE || verb == action)
                 && (resource == Of(d, EVERY) || (resource in LISTED && IsEntityOf(resource, d)))
  {
    var rule := Rule(verb, Of(d, EVERY), false);
    LastOverrideDecides([], [], rule, action, resource);
    assert [] + [rule] == [rule];
    NothingForNobody(action, resource);
  }

  lemma NothingForNobody(action: string, resource: Resource)
    ensures !Can(Actor([], [], false), action, resource)
  {
    RightsOfRoles([], action, resource);
  }

  /** A last `cannot manage <domain>.all` takes the wildcard and all its entities away, and nothing else. */
  lemma TrailingDenyRemovesDomain(
    roles: seq<string>, overrides: seq<Rule>, d: Domain, action: string, resource: Resource)
    requires !HasSuperAdmin(Actor(roles, overrides, false))
    ensures Can(Actor(roles, overrides + [Rule(MANAGE, Of(d, EVERY), true)], false), action, resource)
            <==> Can(Actor(roles, overrides, false), action, resource)
                 && resource != Of(d, EVERY) && !(resource in LISTED && IsEntityOf(resource, d))
  {
    LastOverrideDecides(roles, overrides, Rule(MANAGE, Of(d, EVERY), true), action, resource);
  }

  /** Nothing is refused to a super-admin, whatever is denied. */
  lemma SuperAdminCanAll(actor: Actor, action: string, resource: Resource)
    requires HasSuperAdmin(actor)
    ensures Can(actor, action, resource)
  {
    assert Matches(Ability(actor)[0], action, resource);
  }

  // ----- The role table -----

  /** `wide` lets everything through that `narrow` does. */
  predicate Includes(wide: Rule, narrow: Rule) {
    && (wide.action == MANAGE || wide.action == narrow.action)
    && (wide.resource == narrow.resource
        || (IsWildcard(wide.resource) && narrow.resource in LISTED
            && IsEntityOf(narrow.resource, wide.resource.domain)))
  }

  ghost predicate Covered(rule: Rule, table: seq<Rule>) {
    exists w :: w in table && Includes(w, rule)
  }

  lemma CoveredSpeaks(narrow: seq<Rule>, wide: seq<Rule>, action: string, resource: Resource)
    requires forall rule :: rule in narrow ==> Covered(rule, wide)
    requires AnySpeaks(narrow, action, resource)
    ensures AnySpeaks(wide, action, resource)
  {
    var i :| 0 <= i < |narrow| && Speaks(narrow[i], action, resource);
    assert narrow[i] in narrow;
    var w :| w in wide && Includes(w, narrow[i]);
    var j :| 0 <= j < |wide| && wide[j] == w;
    assert Speaks(wide[j], action, resource);
  }

  lemma WildIs(action: string, ds: seq<Domain>, d: Domain)
    requires d in ds
    ensures Grant(action, d, EVERY) in Wild(action, ds)
  {
    var i :| 0 <= i < |ds| && ds[i] == d;
    assert Wild(action, ds)[i] == Grant(action, d, EVERY);
  }

  lemma OrganiserManages(d: Domain)
    requires d in ORGANISER_DOMAINS
    ensures Grant(MANAGE, d, EVERY) in ORGANISER
  {
    WildIs(MANAGE, ORGANISER_DOMAINS, d);
  }

  lemma OwnerManages(d: Domain)
    requires d in OWNER_DOMAINS
    ensures Grant(MANAGE, d, EVERY) in OWNER
  {
    WildIs(MANAGE, OWNER_DOMAINS, d);
  }

  lemma WildcardCovers(table: seq<Rule>, rule: Rule, d: Domain)
    requires Grant(MANAGE, d, EVERY) in table
    requires rule.resource == Of(d, EVERY) || (rule.resource in LISTED && IsEntityOf(rule.resource, d))
    ensures Covered(rule, table)
  {
    assert Includes(Grant(MANAGE, d, EVERY), rule);
  }

  lemma SameCovers(table: seq<Rule>, rule: Rule)
    requires rule in table || rule.(action := MANAGE) in table
    ensures Covered(rule, table)
  {
    assert Includes(rule, rule) && Includes(rule.(action := MANAGE), rule);
  }

  lemma SegmentsAreListed()
    ensures forall r :: r in TENANT || r in MESSAGING || r in CANVASS || r in EVENTS || r in ANALYTICS ==> r in LISTED
  {
  }

  lemma TenantListed()
    ensures Of(Tenant, "tenant") in LISTED && Of(Tenant, "member") in LISTED && Of(Tenant, "invitation") in LISTED
    ensures Of(Tenant, "org-profile") in LISTED && Of(Tenant, "files") in LISTED && Of(Analytics, "vital") in LISTED
  {
    SegmentsAreListed();
    assert TENANT[0] == Of(Tenant, "tenant") && TENANT[2] == Of(Tenant, "member");
    assert TENANT[3] == Of(Tenant, "invitation");
    assert TENANT[4] == Of(Tenant, "org-profile") && TENANT[6] == Of(Tenant, "files");
    assert ANALYTICS[1] == Of(Analytics, "vital");
  }

  lemma VolunteerResourcesAreListed()
    ensures Of(Canvass, "turf") in LISTED && Of(Canvass, "walklist") in LISTED && Of(Canvass, "campaign") in LISTED
    ensures Of(Canvass, "script") in LISTED && Of(Canvass, "survey") in LISTED && Of(Canvass, "doorknock") in LISTED
    ensures Of(Canvass, "disposition") in LISTED && Of(Canvass, "shift") in LISTED
    ensures Of(Events, "event") in LISTED && Of(Events, "calendar") in LISTED && Of(Messaging, "texting") in LISTED
  {
    SegmentsAreListed();
    assert CANVASS[0] == Of(Canvass, "campaign") && CANVASS[1] == Of(Canvass, "turf");
    assert CANVASS[2] == Of(Canvass, "walklist");
    assert CANVASS[3] == Of(Canvass, "doorknock") && CANVASS[4] == Of(Canvass, "disposition");
    assert CANVASS[5] == Of(Canvass, "script") && CANVASS[6] == Of(Canvass, "survey");
    assert CANVASS[8] == Of(Canvass, "shift");
    assert EVENTS[0] == Of(Events, "event") && EVENTS[1] == Of(Events, "calendar");
    assert MESSAGING[6] == Of(Messaging, "texting");
  }

  lemma VolunteerReadsEntities(rule: Rule)
    requires rule in VOLUNTEER && rule.resource.Of? && rule.resource.domain in [Canvass, Events, Messaging]
    ensures rule.resource in LISTED && rule.resource.entity != EVERY
  {
    VolunteerResourcesAreListed();
    var i :| 0 <= i < |VOLUNTEER| && VOLUNTEER[i] == rule;
  }

  lemma VolunteerIsCovered(rule: Rule)
    requires rule in VOLUNTEER
    ensures Covered(rule, ORGANISER)
  {
    if rule.resource.domain in [Canvass, Events, Messaging] {
      VolunteerReadsEntities(rule);
      OrganiserManages(rule.resource.domain);
      WildcardCovers(ORGANISER, rule, rule.resource.domain);
    } else {
      SameCovers(ORGANISER, rule);
    }
  }

  lemma MemberIsCovered(rule: Rule)
    requires rule in MEMBER
    ensures Covered(rule, ORGANISER)
  {
    if rule in Wild("read", MEMBER_DOMAINS) && rule.resource.domain != Analytics {
      OrganiserManages(rule.resource.domain);
      WildcardCovers(ORGANISER, rule, rule.resource.domain);
    } else {
      SameCovers(ORGANISER, rule);
    }
  }

  lemma OrganiserIsCovered(rule: Rule)
    requires rule in ORGANISER
    ensures Covered(rule, OWNER)
  {
    TenantListed();
    if rule in Wild(MANAGE, ORGANISER_DOMAINS) || rule.resource.domain in [Tenant, Analytics] {
      OwnerManages(rule.resource.domain);
      WildcardCovers(OWNER, rule, rule.resource.domain);
    } else {
      SameCovers(OWNER, rule);
    }
  }

  /** The step up from each role: for every action and resource, and under any overrides. */
  lemma RolesAreLadder(overrides: seq<Rule>, action: string, resource: Resource)
    ensures Can(Actor(["volunteer"], overrides, false), action, resource)
            ==> Can(Actor(["organiser"], overrides, false), action, resource)
    ensures Can(Actor(["member"], overrides, false), action, resource)
            ==> Can(Actor(["organiser"], overrides, false), action, resource)
    ensures Can(Actor(["organiser"], overrides, false), action, resource)
            ==> Can(Actor(["owner"], overrides, false), action, resource)
  {
    forall rule | rule in VOLUNTEER ensures Covered(rule, ORGANISER) { VolunteerIsCovered(rule); }
    forall rule | rule in MEMBER ensures Covered(rule, ORGANISER) { MemberIsCovered(rule); }
    forall rule | rule in ORGANISER ensures Covered(rule, OWNER) { OrganiserIsCovered(rule); }
    StepUp("volunteer", "organiser", overrides, action, resource);
    StepUp("member", "organiser", overrides, action, resource);
    StepUp("organiser", "owner", overrides, action, resource);
  }

  lemma StepUp(low: string, high: string, overrides: seq<Rule>, action: string, resource: Resource)
    requires IsKnownRole(high) && forall rule :: rule in RoleRules(low) ==> Covered(rule, RoleRules(high))
    ensures Can(Actor([low], overrides, false), action, resource)
            ==> Can(Actor([high], overrides, false), action, resource)
  {
    RightsOfRoles([low], action, resource);
    RightsOfRoles([high], action, resource);
    if RoleRights([low], action, resource) {
      CoveredSpeaks(RoleRules(low), RoleRules(high), action, resource);
      assert RoleSpeaks([high][0], action, resource);
    }
    if Can(Actor([low], overrides, false), action, resource) {
      WiderRolesMoreRights(Actor([low], overrides, false), [high], action, resource);
    }
  }
}

/** The loops that build the table of domains, the rules of the roles and the ability. */
module AbilityBuilding {
  import opened Permissions

  class AbilityBuilder {
    var rules: seq<Rule>

    constructor ()
      ensures rules == []
    {
      rules := [];
    }

    method Allow(rule: Rule)
      modifies this
      ensures rules == old(rules) + [rule.(inverted := false)]
    {
      rules := rules + [rule.(inverted := false)];
    }

    method Deny(rule: Rule)
      modifies this
      ensures rules == old(rules) + [rule.(inverted := true)]
    {
      rules := rules + [rule.(inverted := true)];
    }
  }

  /** For every domain its listed entities; a domain without any is not there. */
  method DomainResources(listed: seq<Resource>) returns (byDomain: map<Domain, seq<Resource>>)
    ensures forall d :: (if d in byDomain then byDomain[d] else []) == EntitiesIn(d, listed)
    ensures forall d :: d in byDomain ==> byDomain[d] != []
  {
    byDomain := map[];
    for i := 0 to |listed|
      invariant forall d :: (if d in byDomain then byDomain[d] else []) == EntitiesIn(d, listed[..i])
      invariant forall d :: d in byDomain ==> byDomain[d] != []
    {
      var resource := listed[i];
      assert listed[..i + 1][..i] == listed[..i];
      if !resource.Of? || resource.entity == EVERY { continue; }
      var sofar := if resource.domain in byDomain then byDomain[resource.domain] else [];
      byDomain := byDomain[resource.domain := sofar + [resource]];
    }
    assert listed[..|listed|] == listed;
  }

  method ResolveRolePermissions(roles: seq<string>) returns (out: seq<Rule>)
    ensures out == RolePermissions(roles)
  {
    out := [];
    for i := 0 to |roles|
      invariant out == RolePermissions(roles[..i])
    {
      assert roles[..i + 1][..i] == roles[..i];
      if !IsKnownRole(roles[i]) { continue; }
      out := out + RoleRules(roles[i]);
    }
    assert roles[..|roles|] == roles;
  }

  method DefineAbilityFor(actor: Actor) returns (ability: seq<Rule>)
    ensures ability == Ability(actor)
  {
    var builder := new AbilityBuilder();
    if HasSuperAdmin(actor) {
      builder.Allow(Rule(MANAGE, All, false));
      return builder.rules;
    }
    var permissions := ResolveRolePermissions(actor.roles);
    var ofRoles := ExpandAll(permissions);
    for i := 0 to |ofRoles|
      invariant builder.rules == Positive(ofRoles[..i])
    {
      builder.Allow(ofRoles[i]);
    }
    RecordOverrides(builder, ExpandAll(actor.overrides));
    ability := builder.rules;
  }

  method RecordOverrides(builder: AbilityBuilder, own: seq<Rule>)
    modifies builder
    ensures builder.rules == old(builder.rules) + own
  {
    for i := 0 to |own|
      invariant builder.rules == old(builder.rules) + own[..i]
    {
      if own[i].inverted { builder.Deny(own[i]); } else { builder.Allow(own[i]); }
    }
  }
}
