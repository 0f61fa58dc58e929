/** What an actor may do, told on the actor's roles and overrides alone. */
module PermissionLaws {
  import opened Permissions

  /** The rule is about this action on this resource: by name, by wildcard, or by being about everything. */
  predicate IsAbout(rule: Rule, action: string, resource: Resource) {
    && (rule.action == "manage" || rule.action == action)
    && match rule.resource
       case All => true
       case Plain(_) => resource == rule.resource
       case Of(domain, entity) =>
         || resource == rule.resource
         || (entity == "all" && resource in LISTED
             && resource.Of? && resource.domain == domain && resource.entity != "all")
  }

  predicate AboutAt(rules: seq<Rule>, i: nat, action: string, resource: Resource) {
    i < |rules| && IsAbout(rules[i], action, resource)
  }

  /** The last override about it. */
  ghost predicate LastAbout(rules: seq<Rule>, i: nat, action: string, resource: Resource) {
    AboutAt(rules, i, action, resource) && forall j: nat :: i < j ==> !AboutAt(rules, j, action, resource)
  }

  ghost predicate NoneAbout(rules: seq<Rule>, action: string, resource: Resource) {
    forall j: nat :: !AboutAt(rules, j, action, resource)
  }

  /** Some role's table has a rule about it. */
  ghost predicate SomeRoleAbout(roles: seq<string>, action: string, resource: Resource) {
    exists role, rule :: role in roles && rule in RoleRules(role) && IsAbout(rule, action, resource)
  }

  predicate IsUnlimited(actor: Actor) {
    actor.isSuperAdmin || Rule("manage", All, false) in actor.overrides
  }

  /** The last override about it allows it, or there is none and some role does. */
  ghost predicate Allows(roles: seq<string>, overrides: seq<Rule>, action: string, resource: Resource) {
    || (exists i: nat :: LastAbout(overrides, i, action, resource) && !overrides[i].inverted)
    || (NoneAbout(overrides, action, resource) && SomeRoleAbout(roles, action, resource))
  }

  lemma AboutIsSpeaks(rule: Rule, action: string, resource: Resource)
    ensures IsAbout(rule, action, resource) <==> Speaks(rule, action, resource)
  {
  }

  lemma RolesSpeak(roles: seq<string>, action: string, resource: Resource)
    ensures RoleRights(roles, action, resource) <==> SomeRoleAbout(roles, action, resource)
  {
    RightsOfRoles(roles, action, resource);
    if role, rule :| role in roles && rule in RoleRules(role) && IsAbout(rule, action, resource) {
      var i :| 0 <= i < |roles| && roles[i] == role;
      var k :| 0 <= k < |RoleRules(role)| && RoleRules(role)[k] == rule;
      AboutIsSpeaks(rule, action, resource);
      assert RoleSpeaks(roles[i], action, resource);
    }
    if i :| 0 <= i < |roles| && RoleSpeaks(roles[i], action, resource) {
      var k :| 0 <= k < |RoleRules(roles[i])| && Speaks(RoleRules(roles[i])[k], action, resource);
      AboutIsSpeaks(RoleRules(roles[i])[k], action, resource);
      assert roles[i] in roles && RoleRules(roles[i])[k] in RoleRules(roles[i]);
    }
  }

  /** One more override decides what it is about, and leaves everything else. */
  lemma AllowsSnoc(roles: seq<string>, front: seq<Rule>, last: Rule, action: string, resource: Resource)
    ensures Allows(roles, front + [last], action, resource)
            <==> if IsAbout(last, action, resource) then !last.inverted else Allows(roles, front, action, resource)
  {
    var all := front + [last];
    forall j: nat
      ensures AboutAt(all, j, action, resource)
              <==> if j == |front| then IsAbout(last, action, resource) else AboutAt(front, j, action, resource)
    {
      assert j < |front| ==> all[j] == front[j];
    }
    if IsAbout(last, action, resource) {
      assert LastAbout(all, |front|, action, resource);
    } else {
      forall i: nat ensures LastAbout(all, i, action, resource) <==> LastAbout(front, i, action, resource) {}
      assert NoneAbout(all, action, resource) <==> NoneAbout(front, action, resource);
    }
  }

  lemma {:induction false} LimitedCan(roles: seq<string>, overrides: seq<Rule>, action: string, resource: Resource)
    requires Rule("manage", All, false) !in overrides
    ensures Can(Actor(roles, overrides, false), action, resource) <==> Allows(roles, overrides, action, resource)
  {
    if overrides == [] {
      RolesSpeak(roles, action, resource);
      assert NoneAbout([], action, resource);
    } else {
      var front, last := overrides[..|overrides| - 1], overrides[|overrides| - 1];
      assert overrides == front + [last];
      LimitedCan(roles, front, action, resource);
      LastOverrideDecides(roles, front, last, action, resource);
      AboutIsSpeaks(last, action, resource);
      AllowsSnoc(roles, front, last, action, resource);
    }
  }

  /**
   * An actor can do something, if and only if nothing limits the actor, or the last override about it allows
   * it, or no override is about it and some role's table is.
   */
  lemma CanIff(actor: Actor, action: string, resource: Resource)
    ensures Can(actor, action, resource)
            <==> IsUnlimited(actor) || Allows(actor.roles, actor.overrides, action, resource)
  {
    if HasSuperAdmin(actor) {
      SuperAdminCanAll(actor, action, resource);
    } else {
      LimitedCan(actor.roles, actor.overrides, action, resource);
    }
  }
}
