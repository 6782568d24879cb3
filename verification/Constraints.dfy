/** The constraints the migrations declare, and that every transaction keeps them. */
module Constraints {
  import opened Wrappers
  import opened Tables
  import C = Constants

  predicate SerialOk(ids: set<int>, next: int) {
    1 <= next <= C.MAX_I64 + 1 && forall i | i in ids :: 1 <= i < next
  }

  predicate UsersOk(t: Tables) {
    && SerialOk(t.users.Keys, t.nextUser)
    && (forall u | u in t.users :: t.users[u].userId == u)
    && (forall u, v | u in t.users && v in t.users && u != v ::
          t.users[u].username != t.users[v].username && EmailKey(t, t.users[u].email) != EmailKey(t, t.users[v].email))
  }

  predicate GroupsOk(t: Tables) {
    && SerialOk(t.groups.Keys, t.nextGroup)
    && (forall g | g in t.groups :: t.groups[g].groupId == g)
    && (forall g, h | g in t.groups && h in t.groups && g != h ::
          t.groups[g].name != t.groups[h].name || t.groups[g].organizationId != t.groups[h].organizationId)
  }

  predicate PoliciesOk(t: Tables) {
    && SerialOk(t.policies.Keys, t.nextPolicy)
    && (forall p | p in t.policies :: t.policies[p].policyId == p)
    && (forall p, q | p in t.policies && q in t.policies && p != q ::
          t.policies[p].name != t.policies[q].name
            || (t.global && t.policies[p].organizationId != t.policies[q].organizationId))
  }

  predicate LinksOk(links: Links, left: set<int>, right: set<int>, users: set<int>) {
    forall k | k in links :: k.0 in left && k.1 in right && (links[k].Some? ==> links[k].value in users)
  }

  predicate TokensOk(t: Tables) {
    && SerialOk(t.tokens.Keys, t.nextToken)
    && (forall k | k in t.tokens :: t.tokens[k].tokenId == k && t.tokens[k].userId in t.users)
    && (forall k, l | k in t.tokens && l in t.tokens && k != l :: t.tokens[k].token != t.tokens[l].token)
  }

  predicate Valid(t: Tables) {
    && UsersOk(t) && GroupsOk(t) && PoliciesOk(t) && TokensOk(t)
    && LinksOk(t.members, t.users.Keys, t.groups.Keys, t.users.Keys)
    && LinksOk(t.userPolicies, t.users.Keys, t.policies.Keys, t.users.Keys)
    && LinksOk(t.groupPolicies, t.groups.Keys, t.policies.Keys, t.users.Keys)
    && (!t.global ==> t.userPolicies == map[] && t.groupPolicies == map[])
  }

  /** Every row carries organization `org`. */
  predicate OwnedBy(t: Tables, org: int) {
    && (forall u | u in t.users :: t.users[u].organizationId == org)
    && (forall g | g in t.groups :: t.groups[g].organizationId == org)
    && (forall p | p in t.policies :: t.policies[p].organizationId == org)
  }

  /** No rows left; serial counters do not go back. */
  function Emptied(t: Tables): Tables {
    t.(users := map[], groups := map[], policies := map[], members := map[], userPolicies := map[],
       groupPolicies := map[], tokens := map[])
  }

  /** A change to the users table alone is fine when the table is, and no user disappears. */
  lemma UsersChanged(t: Tables, t': Tables)
    requires Valid(t) && UsersOk(t') && t.users.Keys <= t'.users.Keys
    requires t' == t.(users := t'.users, nextUser := t'.nextUser)
    ensures Valid(t')
  {}

  /** The same for the groups table. */
  lemma GroupsChanged(t: Tables, t': Tables)
    requires Valid(t) && GroupsOk(t') && t.groups.Keys <= t'.groups.Keys
    requires t' == t.(groups := t'.groups, nextGroup := t'.nextGroup)
    ensures Valid(t')
  {}

  lemma InsertUserKeeps(t: Tables, orgs: set<int>, n: NewUser)
    requires Valid(t)
    ensures var t' := InsertUser(t, orgs, n).t; Valid(t') && t'.global == t.global
  {
    var t' := InsertUser(t, orgs, n).t;
    hide GroupsOk, PoliciesOk, TokensOk, LinksOk;
    assert UsersOk(t');
    UsersChanged(t, t');
    hide UsersOk, ProfileFits;
  }

  lemma UpdatePasswordKeeps(t: Tables, userId: int, hash: PasswordHash)
    requires Valid(t)
    ensures var t' := UpdatePassword(t, userId, hash).t; Valid(t') && t'.global == t.global
  {}

  lemma UpdateProfileKeeps(t: Tables, userId: int, email: string, username: string)
    requires Valid(t)
    ensures var t' := UpdateProfile(t, userId, email, username).t; Valid(t') && t'.global == t.global
  {
    var t' := UpdateProfile(t, userId, email, username).t;
    hide GroupsOk, PoliciesOk, TokensOk, LinksOk;
    assert UsersOk(t');
    UsersChanged(t, t');
    hide UsersOk, ProfileFits;
  }

  lemma SetFirstLoginKeeps(t: Tables, userId: int, firstLogin: bool)
    requires Valid(t)
    ensures var t' := SetFirstLogin(t, userId, firstLogin).t; Valid(t') && t'.global == t.global
  {}

  /** Cascades and the refusal to orphan an assigner together leave no dangling reference. */
  lemma EraseKeeps(t: Tables, users: set<int>, groups: set<int>, policies: set<int>)
    requires Valid(t)
    ensures var r := Erase(t, users, groups, policies); r.Some? ==> Valid(r.value) && r.value.global == t.global
  {}

  lemma InsertGroupKeeps(t: Tables, orgs: set<int>, name: string, organizationId: int)
    requires Valid(t)
    ensures var t' := InsertGroup(t, orgs, name, organizationId).t; Valid(t') && t'.global == t.global
  {
    var t' := InsertGroup(t, orgs, name, organizationId).t;
    if t' != t {
      forall g | g in t.groups ensures t.groups[g].name != name || t.groups[g].organizationId != organizationId {
        assert g !in GroupRows(t, name, organizationId);
      }
      hide UsersOk, PoliciesOk, TokensOk, LinksOk, GroupRows;
      InsertedGroupIsOk(t, t', Group(t.nextGroup, organizationId, name));
      hide GroupsOk;
      GroupsChanged(t, t');
    }
  }

  lemma InsertedGroupIsOk(t: Tables, t': Tables, row: Group)
    requires GroupsOk(t) && t.nextGroup <= C.MAX_I64 && row.groupId == t.nextGroup
    requires forall g | g in t.groups ::
               t.groups[g].name != row.name || t.groups[g].organizationId != row.organizationId
    requires t'.groups == t.groups[t.nextGroup := row] && t'.nextGroup == t.nextGroup + 1
    ensures GroupsOk(t')
  {}

  lemma AssignKeeps(t: Tables, userId: int, groupId: int, assignedBy: Option<int>)
    requires Valid(t)
    ensures var t' := AssignUserToGroup(t, userId, groupId, assignedBy).t; Valid(t') && t'.global == t.global
  {}

  lemma RemoveKeeps(t: Tables, userId: int, groupId: int)
    requires Valid(t)
    ensures var t' := RemoveUserFromGroup(t, userId, groupId).t; Valid(t') && t'.global == t.global
  {}

  lemma InsertPolicyKeeps(t: Tables, orgs: set<int>, name: string, organizationId: int, resource: string,
                          action: string, effect: Effect)
    requires Valid(t)
    ensures var t' := InsertPolicy(t, orgs, name, organizationId, resource, action, effect).t;
            Valid(t') && t'.global == t.global
  {}

  lemma UserGrantKeeps(t: Tables, userId: int, policyId: int, assignedBy: Option<int>)
    requires Valid(t)
    ensures Valid(AssignPolicyToUser(t, userId, policyId, assignedBy).t)
  {}

  lemma GroupGrantKeeps(t: Tables, groupId: int, policyId: int, assignedBy: Option<int>)
    requires Valid(t)
    ensures Valid(AssignPolicyToGroup(t, groupId, policyId, assignedBy).t)
  {}

  lemma UserRevocationKeeps(t: Tables, userId: int, policyId: int)
    requires Valid(t)
    ensures Valid(RemovePolicyFromUser(t, userId, policyId).t)
  {}

  lemma GroupRevocationKeeps(t: Tables, groupId: int, policyId: int)
    requires Valid(t)
    ensures Valid(RemovePolicyFromGroup(t, groupId, policyId).t)
  {}

  lemma CreateTokenKeeps(t: Tables, userId: int, token: string, expiresAt: int)
    requires Valid(t)
    ensures var t' := CreateResetToken(t, userId, token, expiresAt).t; Valid(t') && t'.global == t.global
  {}

  lemma MarkUsedKeeps(t: Tables, tokenId: int, now: int)
    requires Valid(t)
    ensures var t' := MarkTokenUsed(t, tokenId, now).t; Valid(t') && t'.global == t.global
  {}

  lemma CleanupKeeps(t: Tables, now: int)
    requires Valid(t)
    ensures var t' := CleanupExpiredTokens(t, now).t; Valid(t') && t'.global == t.global
  {}
}
