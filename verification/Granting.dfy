/** Granting and revoking policies, seen through the decisions they lead to. */
module Granting {
  import opened Wrappers
  import opened Tables
  import opened Decisions
  import Accounts
  import Constraints

  /** The four transactions on the assignment tables. */
  datatype Grant =
    | ToUser(userId: int, policyId: int, assignedBy: Option<int>)
    | ToGroup(groupId: int, policyId: int, assignedBy: Option<int>)
    | FromUser(userId: int, policyId: int)
    | FromGroup(groupId: int, policyId: int)

  function Granted(t: Tables, g: Grant): Tables {
    match g
    case ToUser(userId, policyId, assignedBy) => AssignPolicyToUser(t, userId, policyId, assignedBy).t
    case ToGroup(groupId, policyId, assignedBy) => AssignPolicyToGroup(t, groupId, policyId, assignedBy).t
    case FromUser(userId, policyId) => RemovePolicyFromUser(t, userId, policyId).t
    case FromGroup(groupId, policyId) => RemovePolicyFromGroup(t, groupId, policyId).t
  }

  /** They touch nothing but the assignments. */
  lemma GrantsTouchAssignments(t: Tables, g: Grant)
    ensures var t' := Granted(t, g); t' == t.(userPolicies := t'.userPolicies, groupPolicies := t'.groupPolicies)
  {}

  /** And they keep every declared constraint. */
  lemma GrantsKeep(t: Tables, g: Grant)
    requires Constraints.Valid(t)
    ensures Constraints.Valid(Granted(t, g))
  {
    hide Constraints.Valid;
    match g {
      case ToUser(userId, policyId, assignedBy) => Constraints.UserGrantKeeps(t, userId, policyId, assignedBy);
      case ToGroup(groupId, policyId, assignedBy) => Constraints.GroupGrantKeeps(t, groupId, policyId, assignedBy);
      case FromUser(userId, policyId) => Constraints.UserRevocationKeeps(t, userId, policyId);
      case FromGroup(groupId, policyId) => Constraints.GroupRevocationKeeps(t, groupId, policyId);
    }
  }

  /** The tables after a link for an existing policy was asked for: kept, added, or refused in a tenant and for missing
      rows. `links` are those of the table asked for. */
  predicate Linking(t: Tables, links: Links, left: int, policyId: int, lefts: set<int>, assignedBy: Option<int>,
                    added: Tables, x: Tx<()>) {
    if policyId !in t.policies then x == Tx(t, Err(PolicyNotFound))
    else if !t.global then x == Tx(t, Err(Database))
    else if (left, policyId) in links then x == Tx(t, Ok(()))
    else if left in lefts && (assignedBy.Some? ==> assignedBy.value in t.users) then x == Tx(added, Ok(()))
    else x == Tx(t, Err(Database))
  }

  /** A grant goes through exactly in the global schema, for an existing policy, to an existing user or group, and for
      an existing assigner; an old link stays as it was. */
  lemma GrantsExactly(t: Tables, id: int, policyId: int, assignedBy: Option<int>)
    ensures Linking(t, t.userPolicies, id, policyId, t.users.Keys, assignedBy,
                    t.(userPolicies := t.userPolicies[(id, policyId) := assignedBy]),
                    Accounts.GrantToUser(t, id, policyId, assignedBy))
    ensures Linking(t, t.groupPolicies, id, policyId, t.groups.Keys, assignedBy,
                    t.(groupPolicies := t.groupPolicies[(id, policyId) := assignedBy]),
                    Accounts.GrantToGroup(t, id, policyId, assignedBy))
  {}

  /** A revocation removes that link and nothing else, in the global schema. */
  lemma RevocationsExactly(t: Tables, id: int, policyId: int)
    ensures var x := RemovePolicyFromUser(t, id, policyId);
            if !t.global then x == Tx(t, Err(Database))
            else x.out == Ok(()) && x.t == t.(userPolicies := x.t.userPolicies)
                 && (forall k :: k in x.t.userPolicies <==> k in t.userPolicies && k != (id, policyId))
                 && (forall k | k in x.t.userPolicies :: x.t.userPolicies[k] == t.userPolicies[k])
    ensures var x := RemovePolicyFromGroup(t, id, policyId);
            if !t.global then x == Tx(t, Err(Database))
            else x.out == Ok(()) && x.t == t.(groupPolicies := x.t.groupPolicies)
                 && (forall k :: k in x.t.groupPolicies <==> k in t.groupPolicies && k != (id, policyId))
                 && (forall k | k in x.t.groupPolicies :: x.t.groupPolicies[k] == t.groupPolicies[k])
  {}

  /** A grant to a user reaches that user and nobody else. */
  lemma UserGrantReaches(t: Tables, userId: int, policyId: int, assignedBy: Option<int>, other: int)
    ensures var x := Accounts.GrantToUser(t, userId, policyId, assignedBy);
            && (x.out.Err? ==> x.t == t)
            && (x.out.Ok? && policyId in t.policies ==>
                  Reachable(x.t, other) == Reachable(t, other) + if other == userId then {t.policies[policyId]} else {})
  {}

  /** A grant to a group reaches exactly its members. */
  lemma GroupGrantReaches(t: Tables, groupId: int, policyId: int, assignedBy: Option<int>, userId: int)
    ensures var x := Accounts.GrantToGroup(t, groupId, policyId, assignedBy);
            && (x.out.Err? ==> x.t == t)
            && (x.out.Ok? && policyId in t.policies ==>
                  Reachable(x.t, userId)
                    == Reachable(t, userId) + if (userId, groupId) in t.members then {t.policies[policyId]} else {})
  {}

  /** Granting a DENY allows nothing new; granting an ALLOW forbids nothing. */
  lemma GrantIsMonotone(t: Tables, userId: int, policyId: int, assignedBy: Option<int>, resource: string,
                        action: string)
    requires policyId in t.policies
    ensures var t' := Accounts.GrantToUser(t, userId, policyId, assignedBy).t;
            && (t.policies[policyId].effect == Deny ==>
                  Grants(Reachable(t', userId), resource, action) ==> Grants(Reachable(t, userId), resource, action))
            && (t.policies[policyId].effect == Allow ==>
                  Grants(Reachable(t, userId), resource, action) ==> Grants(Reachable(t', userId), resource, action))
  {}

  /** Revoking undoes a grant that was new. */
  lemma RevokingUndoesGrant(t: Tables, userId: int, groupId: int, policyId: int, assignedBy: Option<int>)
    requires (userId, policyId) !in t.userPolicies && (groupId, policyId) !in t.groupPolicies
    ensures var x := Accounts.GrantToUser(t, userId, policyId, assignedBy);
            x.out.Ok? ==> RemovePolicyFromUser(x.t, userId, policyId).t == t
    ensures var x := Accounts.GrantToGroup(t, groupId, policyId, assignedBy);
            x.out.Ok? ==> RemovePolicyFromGroup(x.t, groupId, policyId).t == t
  {}
}
