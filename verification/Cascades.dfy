/** What deleting an organization does to one schema, through the foreign keys. */
module Cascades {
  import opened Wrappers
  import opened Tables
  import opened Constraints

  lemma EraseEverything(t: Tables)
    requires Valid(t)
    ensures Erase(t, t.users.Keys, t.groups.Keys, t.policies.Keys) == Some(Emptied(t))
  {
    assert forall k | k in t.tokens :: t.tokens[k].userId in t.users.Keys;
    var t' := Erase(t, t.users.Keys, t.groups.Keys, t.policies.Keys).value;
    assert t'.users == map[] && t'.groups == map[] && t'.policies == map[] && t'.tokens == map[];
  }

  lemma EraseNothing(t: Tables)
    ensures Erase(t, {}, {}, {}) == Some(t)
  {
    var t' := Erase(t, {}, {}, {}).value;
    assert t'.members == t.members && t'.userPolicies == t.userPolicies && t'.groupPolicies == t.groupPolicies;
    assert t'.users == t.users && t'.groups == t.groups && t'.policies == t.policies && t'.tokens == t.tokens;
  }

  /** The organization that owns a schema takes all of it along. */
  lemma DropOwn(t: Tables, org: int)
    requires Valid(t) && OwnedBy(t, org)
    ensures DropOrganization(t, org) == Some(Emptied(t))
  {
    var us := set u | u in t.users && t.users[u].organizationId == org;
    var gs := set g | g in t.groups && t.groups[g].organizationId == org;
    var ps := set p | p in t.policies && t.policies[p].organizationId == org;
    forall u ensures u in us <==> u in t.users.Keys {}
    forall g ensures g in gs <==> g in t.groups.Keys {}
    forall p ensures p in ps <==> p in t.policies.Keys {}
    assert us == t.users.Keys && gs == t.groups.Keys && ps == t.policies.Keys;
    EraseEverything(t);
  }

  /** Any other organization takes nothing. */
  lemma DropForeign(t: Tables, owner: int, org: int)
    requires OwnedBy(t, owner) && owner != org
    ensures DropOrganization(t, org) == Some(t)
  {
    var us := set u | u in t.users && t.users[u].organizationId == org;
    var gs := set g | g in t.groups && t.groups[g].organizationId == org;
    var ps := set p | p in t.policies && t.policies[p].organizationId == org;
    forall u ensures u !in us {}
    forall g ensures g !in gs {}
    forall p ensures p !in ps {}
    assert us == {} && gs == {} && ps == {};
    EraseNothing(t);
  }
}
