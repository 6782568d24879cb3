/** src/services/policy_service.rs and src/api/external.rs: who may do what. */
module Decisions {
  import opened Wrappers
  import opened Environment
  import opened Tables

  predicate Starred(pattern: string) { pattern != [] && pattern[|pattern| - 1] == '*' }

  function Stem(pattern: string): string
    requires Starred(pattern)
  {
    pattern[..|pattern| - 1]
  }

  predicate MatchesResource(pattern: string, resource: string) {
    pattern == "*" || pattern == resource || (Starred(pattern) && Stem(pattern) <= resource)
  }

  predicate MatchesAction(pattern: string, action: string) {
    pattern == "*" || pattern == action
  }

  predicate MatchesPolicy(p: Policy, resource: string, action: string) {
    MatchesResource(p.resource, resource) && MatchesAction(p.action, action)
  }

  /** Some policy of this effect matches. */
  predicate Hits(policies: set<Policy>, effect: Effect, resource: string, action: string) {
    exists p | p in policies :: p.effect == effect && MatchesPolicy(p, resource, action)
  }

  /** An ALLOW matches and no DENY does. */
  predicate Grants(policies: set<Policy>, resource: string, action: string) {
    Hits(policies, Allow, resource, action) && !Hits(policies, Deny, resource, action)
  }

  function AsSet(policies: seq<Policy>): set<Policy> { set p | p in policies }

  method EvaluatePermission(policies: seq<Policy>, resource: string, action: string) returns (granted: bool)
    ensures granted == Grants(AsSet(policies), resource, action)
  {
    var allow, deny := false, false;
    for i := 0 to |policies|
      invariant allow == Hits(AsSet(policies[..i]), Allow, resource, action)
      invariant deny == Hits(AsSet(policies[..i]), Deny, resource, action)
    {
      assert AsSet(policies[..i + 1]) == AsSet(policies[..i]) + {policies[i]};
      if MatchesPolicy(policies[i], resource, action) {
        match policies[i].effect {
          case Allow => allow := true;
          case Deny => deny := true;
        }
      }
    }
    assert policies[..|policies|] == policies;
    granted := allow && !deny;
  }

  /** `org_caller_may_evaluate` and `check_permission`: `caller` is the organization of the key, or None for a global
      superadmin. */
  function CheckPermission(t: Tables, caller: Option<int>, userId: int, resource: string, action: string,
                           q: Planner): Result<bool, Error> {
    match FindUser(t, userId)
    case None => if caller.Some? then Ok(false) else Err(UserNotFound)
    case Some(u) =>
      if caller.Some? && u.organizationId != caller.value then Ok(false)
      else
        match GetUserAllPolicies(t, userId, q)
        case Err(e) => Err(e)
        case Ok(policies) => Ok(Grants(AsSet(policies), resource, action))
  }

  // ----- patterns

  /** Whether every resource `p` matches is matched by `q`, read off the two texts. */
  predicate Covers(q: string, p: string) {
    if Starred(p) then Starred(q) && Stem(q) <= Stem(p)
    else if Starred(q) then Stem(q) <= p
    else q == p
  }

  lemma CoverMatches(q: string, p: string, r: string)
    requires Covers(q, p) && MatchesResource(p, r)
    ensures MatchesResource(q, r)
  {}

  /** A pattern that matches two resources parting right behind `stem` has a star no later than there. */
  lemma ForkedMatch(q: string, stem: string)
    requires MatchesResource(q, stem + "a") && MatchesResource(q, stem + "b")
    ensures Starred(q) && Stem(q) <= stem
  {
    var a, b := stem + "a", stem + "b";
    assert a[|stem|] == 'a' && b[|stem|] == 'b';
    if Starred(q) {
      assert |Stem(q)| <= |stem|;
      assert a[..|stem|] == stem;
    }
  }

  lemma CoversExactly(q: string, p: string)
    ensures Covers(q, p) <==> forall r :: MatchesResource(p, r) ==> MatchesResource(q, r)
  {
    forall r | Covers(q, p) && MatchesResource(p, r) ensures MatchesResource(q, r) {
      CoverMatches(q, p, r);
    }
    if forall r :: MatchesResource(p, r) ==> MatchesResource(q, r) {
      if Starred(p) {
        assert MatchesResource(p, Stem(p) + "a") && MatchesResource(p, Stem(p) + "b");
        ForkedMatch(q, Stem(p));
      } else {
        assert MatchesResource(p, p);
      }
    }
  }

  /** Two patterns never overlap partially. */
  lemma NestedOrDisjoint(p: string, q: string)
    ensures || (forall r :: MatchesResource(p, r) ==> MatchesResource(q, r))
            || (forall r :: MatchesResource(q, r) ==> MatchesResource(p, r))
            || (forall r :: !(MatchesResource(p, r) && MatchesResource(q, r)))
  {}

  /** `q` has the effect of `p` and matches whatever `p` matches. */
  predicate Subsumes(q: Policy, p: Policy) {
    q.effect == p.effect && Covers(q.resource, p.resource) && MatchesAction(q.action, p.action)
  }

  lemma SubsumesExactly(q: Policy, p: Policy)
    ensures Subsumes(q, p) <==> q.effect == p.effect && forall r, a :: MatchesPolicy(p, r, a) ==> MatchesPolicy(q, r, a)
  {
    CoversExactly(q.resource, p.resource);
    var own := if Starred(p.resource) then Stem(p.resource) else p.resource;
    assert MatchesResource(p.resource, own);
    if forall r, a :: MatchesPolicy(p, r, a) ==> MatchesPolicy(q, r, a) {
      forall r | MatchesResource(p.resource, r) ensures MatchesResource(q.resource, r) {
        assert MatchesPolicy(p, r, p.action);
      }
      var odd := q.action + "x";
      assert odd != q.action;
      assert MatchesPolicy(p, own, p.action);
      assert MatchesPolicy(p, own, odd) ==> MatchesPolicy(q, own, odd);
    }
  }

  /** Policy sets that subsume each other rule by rule decide alike, on every request. */
  lemma MutualSubsumptionDecidesAlike(ps: set<Policy>, qs: set<Policy>, resource: string, action: string)
    requires forall p | p in ps :: exists q | q in qs :: Subsumes(q, p)
    requires forall q | q in qs :: exists p | p in ps :: Subsumes(p, q)
    ensures Grants(ps, resource, action) == Grants(qs, resource, action)
  {
    forall effect: Effect ensures Hits(ps, effect, resource, action) ==> Hits(qs, effect, resource, action) {
      SubsumptionCarriesHits(ps, qs, effect, resource, action);
    }
    forall effect: Effect ensures Hits(qs, effect, resource, action) ==> Hits(ps, effect, resource, action) {
      SubsumptionCarriesHits(qs, ps, effect, resource, action);
    }
  }

  lemma SubsumptionCarriesHits(ps: set<Policy>, qs: set<Policy>, effect: Effect, resource: string, action: string)
    requires forall p | p in ps :: exists q | q in qs :: Subsumes(q, p)
    ensures Hits(ps, effect, resource, action) ==> Hits(qs, effect, resource, action)
  {}

  /** Dropping a rule that another rule of the same effect covers changes no decision. */
  lemma DropCovered(policies: seq<Policy>, i: nat, j: nat, resource: string, action: string)
    requires i < |policies| && j < |policies| && i != j
    requires Subsumes(policies[j], policies[i])
    ensures Grants(AsSet(policies[..i] + policies[i + 1..]), resource, action) ==
            Grants(AsSet(policies), resource, action)
  {}

  /** Order and repetition do not matter: lists with the same members decide alike. */
  lemma OrderAndRepetitionIrrelevant(a: seq<Policy>, b: seq<Policy>, resource: string, action: string)
    requires forall p :: p in a <==> p in b
    ensures Grants(AsSet(a), resource, action) == Grants(AsSet(b), resource, action)
  {}

  // ----- decisions over the tables

  /** The policies a user reaches directly or through a group. */
  function Reachable(t: Tables, userId: int): set<Policy> {
    set p | p in ReachablePolicyIds(t, userId) :: t.policies[p]
  }

  lemma QueryListsReachable(t: Tables, userId: int, q: Planner)
    requires t.global
    ensures GetUserAllPolicies(t, userId, q).Ok?
            && AsSet(GetUserAllPolicies(t, userId, q).value) == Reachable(t, userId)
  {
    var rows := ReachablePolicyIds(t, userId);
    var ids := All(q, rows);
    var list := GetUserAllPolicies(t, userId, q).value;
    forall p | p in Reachable(t, userId) ensures p in list {
      var id :| id in rows && t.policies[id] == p;
      assert id in ids;
      var k :| 0 <= k < |ids| && ids[k] == id;
      assert list[k] == p;
    }
    forall p | p in list ensures p in Reachable(t, userId) {
      var k :| 0 <= k < |list| && list[k] == p;
      assert ids[k] in rows;
    }
  }

  /** The answer an organization key gets, in set terms: an outsider and a missing user look the same,
      a tenant schema fails, and in the global schema the answer is the decision over the reachable policies. */
  lemma KeyHolderAnswer(t: Tables, org: int, userId: int, resource: string, action: string, q: Planner)
    ensures CheckPermission(t, Some(org), userId, resource, action, q) ==
            if userId !in t.users || t.users[userId].organizationId != org then Ok(false)
            else if !t.global then Err(Database)
            else Ok(Grants(Reachable(t, userId), resource, action))
  {
    if t.global { QueryListsReachable(t, userId, q); }
  }

  /** The policies assigned to a group. */
  function GroupRules(t: Tables, groupId: int): set<Policy> {
    set p | p in t.policies && (groupId, p) in t.groupPolicies :: t.policies[p]
  }

  /** Joining a group adds exactly the rules of that group. */
  lemma JoiningAddsGroupRules(t: Tables, userId: int, groupId: int, admin: Option<int>)
    requires userId in t.users && groupId in t.groups && (admin.Some? ==> admin.value in t.users)
    ensures var t' := AssignUserToGroup(t, userId, groupId, admin).t;
            Reachable(t', userId) == Reachable(t, userId) + GroupRules(t, groupId)
  {}

  /** Joining a group of DENY rules grants nothing; joining one of ALLOW rules revokes nothing. */
  lemma JoiningIsMonotone(t: Tables, userId: int, groupId: int, admin: Option<int>, resource: string, action: string)
    requires userId in t.users && groupId in t.groups && (admin.Some? ==> admin.value in t.users)
    ensures var t' := AssignUserToGroup(t, userId, groupId, admin).t;
            && ((forall p | p in GroupRules(t, groupId) :: p.effect == Deny) ==>
                  Grants(Reachable(t', userId), resource, action) ==> Grants(Reachable(t, userId), resource, action))
            && ((forall p | p in GroupRules(t, groupId) :: p.effect == Allow) ==>
                  Grants(Reachable(t, userId), resource, action) ==> Grants(Reachable(t', userId), resource, action))
  {
    JoiningAddsGroupRules(t, userId, groupId, admin);
  }
}
