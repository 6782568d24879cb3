/** src/repository/sqlx_impl.rs: the repositories. Each method is one transaction; a statement that fails rolls it
    back. */
module Repository {
  import opened Wrappers
  import opened Text
  import opened Environment
  import opened Tables
  import Sql = Tables
  import opened Organizations
  import C = Constants
  import Accounts
  import Quoting

  /** These are the rows with the given ids, each once, in some order. */
  ghost predicate EachOnce<T>(rows: seq<T>, table: map<int, T>, ids: set<int>) {
    exists order :: Lists(order, ids) && |rows| == |order| && forall i | 0 <= i < |order| ::
                                                                order[i] in table && rows[i] == table[order[i]]
  }

  /** A row that matches, if there is one. */
  predicate OneOf<T(==)>(row: Option<T>, table: map<int, T>, ids: set<int>) {
    if ids == {} then row.None? else row.Some? && exists i | i in ids :: i in table && row.value == table[i]
  }

  /** The tables of every schema and the organizations table, updated in place. */
  class Database {
    var orgs: map<int, Organization>
    var nextOrg: int
    var schemas: map<string, Tables>
    const settings: set<int>

    constructor (d: Db)
      ensures Value() == d
    {
      orgs, nextOrg, schemas, settings := d.orgs, d.nextOrg, d.schemas, d.settings;
    }

    function Value(): Db
      reads this
    {
      Db(orgs, nextOrg, schemas, settings)
    }

    /** What a query returns: the connection sees the schema it set its search path to. */
    function Read<T>(ns: string, rows: Tables -> T): Result<T, Error>
      reads this
    {
      if ns in schemas then Ok(rows(schemas[ns])) else Err(Database)
    }

    // ----- users

    method FindByEmail(email: string, ns: string, q: Planner) returns (out: Result<Option<User>, Error>)
      ensures out == Read(ns, t => Sql.FindByEmail(t, email, q))
      ensures ns in schemas ==>
                out.Ok? && var users := schemas[ns].users;
                  OneOf(out.value, users, set u | u in users && Lower(users[u].email) == Lower(email))
    {
      if ns !in schemas { return Err(Database); }
      var t := schemas[ns];
      var row := First(q, EmailRows(t, email));
      return Ok(match row case None => None case Some(u) => Some(t.users[u]));
    }

    method FindByUsername(username: string, ns: string, q: Planner) returns (out: Result<Option<User>, Error>)
      ensures out == Read(ns, t => Sql.FindByUsername(t, username, q))
      ensures ns in schemas ==>
                out.Ok? && var users := schemas[ns].users;
                  OneOf(out.value, users, set u | u in users && users[u].username == username)
    {
      if ns !in schemas { return Err(Database); }
      var t := schemas[ns];
      var row := First(q, UsernameRows(t, username));
      return Ok(match row case None => None case Some(u) => Some(t.users[u]));
    }

    method FindUser(userId: int, ns: string) returns (out: Result<Option<User>, Error>)
      ensures out == Read(ns, t => Sql.FindUser(t, userId))
    {
      if ns !in schemas { return Err(Database); }
      return Ok(if userId in schemas[ns].users then Some(schemas[ns].users[userId]) else None);
    }

    method CountUsers(ns: string) returns (out: Result<int, Error>)
      ensures out == Read(ns, (t: Tables) => |t.users|)
    {
      if ns !in schemas { return Err(Database); }
      return Ok(|schemas[ns].users|);
    }

    method InsertUser(n: NewUser, ns: string) returns (out: Result<User, Error>)
      modifies this
      ensures Ran(Value(), out) == Commit(old(Value()), ns, Sql.InsertUser(Schema(old(Value()), ns), old(orgs).Keys, n))
    {
      if ns !in schemas { return Err(Database); }
      var t := schemas[ns];
      if n.organizationId !in orgs || t.nextUser > C.MAX_I64 || !ProfileFits(t, t.nextUser, n.email, n.username) {
        assert schemas[ns := t] == schemas;
        return Err(Database);
      }
      var u := User(t.nextUser, n.organizationId, n.email, n.username, n.passwordHash, n.firstLogin);
      schemas := schemas[ns := t.(users := t.users[t.nextUser := u], nextUser := t.nextUser + 1)];
      return Ok(u);
    }

    method UpdateUserPassword(userId: int, hash: PasswordHash, ns: string) returns (out: Result<(), Error>)
      modifies this
      ensures Ran(Value(), out) == Commit(old(Value()), ns, UpdatePassword(Schema(old(Value()), ns), userId, hash))
    {
      if ns !in schemas { return Err(Database); }
      var t := schemas[ns];
      if userId in t.users { t := t.(users := t.users[userId := t.users[userId].(passwordHash := hash)]); }
      schemas := schemas[ns := t];
      return Ok(());
    }

    method UpdateUserProfile(userId: int, email: string, username: string, ns: string) returns (out: Result<(), Error>)
      modifies this
      ensures Ran(Value(), out) ==
              Commit(old(Value()), ns, UpdateProfile(Schema(old(Value()), ns), userId, email, username))
    {
      if ns !in schemas { return Err(Database); }
      var t := schemas[ns];
      out := Ok(());
      if userId in t.users {
        if ProfileFits(t, userId, email, username) {
          t := t.(users := t.users[userId := t.users[userId].(email := email, username := username)]);
        } else {
          out := Err(Database);
        }
      }
      schemas := schemas[ns := t];
    }

    method SetFirstLogin(userId: int, firstLogin: bool, ns: string) returns (out: Result<(), Error>)
      modifies this
      ensures Ran(Value(), out) ==
              Commit(old(Value()), ns, Sql.SetFirstLogin(Schema(old(Value()), ns), userId, firstLogin))
    {
      if ns !in schemas { return Err(Database); }
      var t := schemas[ns];
      if userId in t.users { t := t.(users := t.users[userId := t.users[userId].(firstLogin := firstLogin)]); }
      schemas := schemas[ns := t];
      return Ok(());
    }

    method GetUserGroups(userId: int, ns: string, q: Planner) returns (out: Result<seq<Group>, Error>)
      ensures out == Read(ns, t => Sql.GetUserGroups(t, userId, q))
      ensures ns in schemas ==>
                && out.Ok?
                && var t := schemas[ns];
                   EachOnce(out.value, t.groups, set g | g in t.groups && (userId, g) in t.members)
    {
      if ns !in schemas { return Err(Database); }
      var t := schemas[ns];
      var ids := All(q, UserGroupIds(t, userId));
      return Ok(seq(|ids|, i requires 0 <= i < |ids| => t.groups[ids[i]]));
    }

    method GetUserAllPolicies(userId: int, ns: string, q: Planner) returns (out: Result<seq<Policy>, Error>)
      ensures out == if ns in schemas then Sql.GetUserAllPolicies(schemas[ns], userId, q) else Err(Database)
      ensures out.Ok? ==>
                && ns in schemas && schemas[ns].global
                && var t := schemas[ns];
                   EachOnce(out.value, t.policies,
                            set p | p in t.policies && ((userId, p) in t.userPolicies
                                                        || exists k | k in t.members ::
                                                             k.0 == userId && (k.1, p) in t.groupPolicies))
    {
      if ns !in schemas || !schemas[ns].global { return Err(Database); }
      var t := schemas[ns];
      var ids := All(q, ReachablePolicyIds(t, userId));
      assert ReachablePolicyIds(t, userId) == set p | p in t.policies && ((userId, p) in t.userPolicies
                                                || exists k | k in t.members ::
                                                     k.0 == userId && (k.1, p) in t.groupPolicies);
      return Ok(seq(|ids|, i requires 0 <= i < |ids| => t.policies[ids[i]]));
    }

    /** Deletes the row and what cascades from it; no row is an error of its own. */
    method DeleteUser(userId: int, ns: string) returns (out: Result<(), Error>)
      modifies this
      ensures Ran(Value(), out) == Commit(old(Value()), ns, EraseUser(Schema(old(Value()), ns), userId))
    {
      if ns !in schemas { return Err(Database); }
      var t := schemas[ns];
      if userId !in t.users {
        out := Err(UserNotFound);
      } else {
        var rest := Erase(t, {userId}, {}, {});
        if rest.Some? { t := rest.value; out := Ok(()); } else { out := Err(Database); }
      }
      schemas := schemas[ns := t];
    }

    // ----- groups

    method FindGroupByName(name: string, organizationId: int, ns: string, q: Planner)
      returns (out: Result<Option<Group>, Error>)
      ensures out == Read(ns, t => Sql.FindGroupByName(t, name, organizationId, q))
      ensures ns in schemas ==>
                && out.Ok?
                && var groups := schemas[ns].groups;
                   OneOf(out.value, groups, set g | g in groups && groups[g].name == name
                         && groups[g].organizationId == organizationId)
    {
      if ns !in schemas { return Err(Database); }
      var t := schemas[ns];
      var row := First(q, GroupRows(t, name, organizationId));
      return Ok(match row case None => None case Some(g) => Some(t.groups[g]));
    }

    method FindGroup(groupId: int, ns: string) returns (out: Result<Option<Group>, Error>)
      ensures out == Read(ns, t => Sql.FindGroup(t, groupId))
    {
      if ns !in schemas { return Err(Database); }
      return Ok(if groupId in schemas[ns].groups then Some(schemas[ns].groups[groupId]) else None);
    }

    method InsertGroup(name: string, organizationId: int, ns: string) returns (out: Result<Group, Error>)
      modifies this
      ensures Ran(Value(), out) ==
              Commit(old(Value()), ns, Sql.InsertGroup(Schema(old(Value()), ns), old(orgs).Keys, name, organizationId))
    {
      if ns !in schemas { return Err(Database); }
      var t := schemas[ns];
      if organizationId !in orgs || t.nextGroup > C.MAX_I64 || |name| > 100
        || GroupRows(t, name, organizationId) != {} {
        assert schemas[ns := t] == schemas;
        return Err(Database);
      }
      var g := Group(t.nextGroup, organizationId, name);
      schemas := schemas[ns := t.(groups := t.groups[t.nextGroup := g], nextGroup := t.nextGroup + 1)];
      return Ok(g);
    }

    method AssignUserToGroup(userId: int, groupId: int, assignedBy: Option<int>, ns: string)
      returns (out: Result<(), Error>)
      modifies this
      ensures Ran(Value(), out) ==
              Commit(old(Value()), ns, Sql.AssignUserToGroup(Schema(old(Value()), ns), userId, groupId, assignedBy))
    {
      if ns !in schemas { return Err(Database); }
      var t := schemas[ns];
      out := Ok(());
      if (userId, groupId) !in t.members {
        if userId in t.users && groupId in t.groups && (assignedBy.Some? ==> assignedBy.value in t.users) {
          t := t.(members := t.members[(userId, groupId) := assignedBy]);
        } else {
          out := Err(Database);
        }
      }
      schemas := schemas[ns := t];
    }

    method RemoveUserFromGroup(userId: int, groupId: int, ns: string) returns (out: Result<(), Error>)
      modifies this
      ensures Ran(Value(), out) ==
              Commit(old(Value()), ns, Sql.RemoveUserFromGroup(Schema(old(Value()), ns), userId, groupId))
    {
      if ns !in schemas { return Err(Database); }
      var t := schemas[ns];
      schemas := schemas[ns := t.(members := t.members - {(userId, groupId)})];
      return Ok(());
    }

    /** The default of the trait, src/repository/mod.rs: one insertion after the other, up to the first that fails. */
    method AssignUserToGroups(userId: int, groupIds: seq<int>, assignedBy: Option<int>, ns: string)
      returns (out: Result<(), Error>)
      modifies this
      ensures ns in old(schemas) ==>
                Ran(Value(), out)
                  == Commit(old(Value()), ns,
                            Accounts.AssignAll(Schema(old(Value()), ns), userId, groupIds, assignedBy))
      ensures ns !in old(schemas) ==> Value() == old(Value())
    {
      ghost var d := Value();
      ghost var whole := Accounts.AssignAll(Schema(d, ns), userId, groupIds, assignedBy);
      assert groupIds[0..] == groupIds;
      AtTwice(d, ns, Schema(d, ns), Schema(d, ns));
      for i := 0 to |groupIds|
        invariant Value() == At(d, ns, Schema(Value(), ns))
        invariant Accounts.AssignAll(Schema(Value(), ns), userId, groupIds[i..], assignedBy) == whole
      {
        ghost var t := Schema(Value(), ns);
        assert groupIds[i..][0] == groupIds[i] && groupIds[i..][1..] == groupIds[i + 1..];
        AtTwice(d, ns, t, Sql.AssignUserToGroup(t, userId, groupIds[i], assignedBy).t);
        var _ :- AssignUserToGroup(userId, groupIds[i], assignedBy, ns);
      }
      return Ok(());
    }

    // ----- policies

    method PolicyNamed(name: string, organizationId: int, ns: string) returns (out: Result<bool, Error>)
      ensures out == Read(ns, t => PolicyRows(t, name, organizationId) != {})
    {
      if ns !in schemas { return Err(Database); }
      return Ok(PolicyRows(schemas[ns], name, organizationId) != {});
    }

    method InsertPolicy(name: string, organizationId: int, resource: string, action: string, effect: Effect, ns: string)
      returns (out: Result<Policy, Error>)
      modifies this
      ensures Ran(Value(), out) ==
              Commit(old(Value()), ns,
                     Sql.InsertPolicy(Schema(old(Value()), ns), old(orgs).Keys, name, organizationId, resource, action,
                                      effect))
    {
      if ns !in schemas { return Err(Database); }
      var t := schemas[ns];
      if organizationId !in orgs || t.nextPolicy > C.MAX_I64 || |name| > 100 || |resource| > 255 || |action| > 100
        || exists p | p in t.policies ::
             t.policies[p].name == name && (!t.global || t.policies[p].organizationId == organizationId)
      {
        assert schemas[ns := t] == schemas;
        return Err(Database);
      }
      var p := Policy(t.nextPolicy, organizationId, name, resource, action, effect);
      schemas := schemas[ns := t.(policies := t.policies[t.nextPolicy := p], nextPolicy := t.nextPolicy + 1)];
      return Ok(p);
    }

    method FindPolicy(policyId: int, ns: string) returns (out: Result<Option<Policy>, Error>)
      ensures out == Read(ns, t => Sql.FindPolicy(t, policyId))
    {
      if ns !in schemas { return Err(Database); }
      return Ok(if policyId in schemas[ns].policies then Some(schemas[ns].policies[policyId]) else None);
    }

    method AssignPolicyToUser(userId: int, policyId: int, assignedBy: Option<int>, ns: string)
      returns (out: Result<(), Error>)
      modifies this
      ensures Ran(Value(), out) ==
              Commit(old(Value()), ns, Sql.AssignPolicyToUser(Schema(old(Value()), ns), userId, policyId, assignedBy))
    {
      if ns !in schemas { return Err(Database); }
      var t := schemas[ns];
      out := Err(Database);
      if t.global {
        var links := Linked(t.userPolicies, userId, policyId, t.users.Keys, t.policies.Keys, t.users.Keys, assignedBy);
        if links.Some? { t := t.(userPolicies := links.value); out := Ok(()); }
      }
      schemas := schemas[ns := t];
    }

    method AssignPolicyToGroup(groupId: int, policyId: int, assignedBy: Option<int>, ns: string)
      returns (out: Result<(), Error>)
      modifies this
      ensures Ran(Value(), out) ==
              Commit(old(Value()), ns, Sql.AssignPolicyToGroup(Schema(old(Value()), ns), groupId, policyId, assignedBy))
    {
      if ns !in schemas { return Err(Database); }
      var t := schemas[ns];
      out := Err(Database);
      if t.global {
        var links := Linked(t.groupPolicies, groupId, policyId, t.groups.Keys, t.policies.Keys, t.users.Keys,
                            assignedBy);
        if links.Some? { t := t.(groupPolicies := links.value); out := Ok(()); }
      }
      schemas := schemas[ns := t];
    }

    method RemovePolicyFromUser(userId: int, policyId: int, ns: string) returns (out: Result<(), Error>)
      modifies this
      ensures Ran(Value(), out) ==
              Commit(old(Value()), ns, Sql.RemovePolicyFromUser(Schema(old(Value()), ns), userId, policyId))
    {
      if ns !in schemas { return Err(Database); }
      var t := schemas[ns];
      out := Err(Database);
      if t.global { t := t.(userPolicies := t.userPolicies - {(userId, policyId)}); out := Ok(()); }
      schemas := schemas[ns := t];
    }

    method RemovePolicyFromGroup(groupId: int, policyId: int, ns: string) returns (out: Result<(), Error>)
      modifies this
      ensures Ran(Value(), out) ==
              Commit(old(Value()), ns, Sql.RemovePolicyFromGroup(Schema(old(Value()), ns), groupId, policyId))
    {
      if ns !in schemas { return Err(Database); }
      var t := schemas[ns];
      out := Err(Database);
      if t.global { t := t.(groupPolicies := t.groupPolicies - {(groupId, policyId)}); out := Ok(()); }
      schemas := schemas[ns := t];
    }

    // ----- password reset tokens

    method CreateResetToken(userId: int, token: string, expiresAt: int, ns: string)
      returns (out: Result<ResetToken, Error>)
      modifies this
      ensures Ran(Value(), out) ==
              Commit(old(Value()), ns, Sql.CreateResetToken(Schema(old(Value()), ns), userId, token, expiresAt))
    {
      if ns !in schemas { return Err(Database); }
      var t := schemas[ns];
      if userId !in t.users || t.nextToken > C.MAX_I64 || exists k | k in t.tokens :: t.tokens[k].token == token {
        assert schemas[ns := t] == schemas;
        return Err(Database);
      }
      var r := ResetToken(t.nextToken, userId, token, expiresAt, None);
      schemas := schemas[ns := t.(tokens := t.tokens[t.nextToken := r], nextToken := t.nextToken + 1)];
      return Ok(r);
    }

    method FindValidToken(token: string, ns: string, e: Env) returns (out: Result<Option<ResetToken>, Error>)
      ensures out == Read(ns, t => Sql.FindValidToken(t, token, e))
    {
      if ns !in schemas { return Err(Database); }
      var t := schemas[ns];
      var row := First(e.planner, ValidTokenRows(t, token, e.now));
      return Ok(match row case None => None case Some(k) => Some(t.tokens[k]));
    }

    method MarkTokenUsed(tokenId: int, now: Instant, ns: string) returns (out: Result<(), Error>)
      modifies this
      ensures Ran(Value(), out) == Commit(old(Value()), ns, Sql.MarkTokenUsed(Schema(old(Value()), ns), tokenId, now))
    {
      if ns !in schemas { return Err(Database); }
      var t := schemas[ns];
      if tokenId in t.tokens { t := t.(tokens := t.tokens[tokenId := t.tokens[tokenId].(usedAt := Some(now))]); }
      schemas := schemas[ns := t];
      return Ok(());
    }

    method CleanupExpiredTokens(now: Instant, ns: string) returns (out: Result<(), Error>)
      modifies this
      ensures Ran(Value(), out) == Commit(old(Value()), ns, Sql.CleanupExpiredTokens(Schema(old(Value()), ns), now))
    {
      if ns !in schemas { return Err(Database); }
      var t := schemas[ns];
      schemas := schemas[ns := t.(tokens := map k | k in t.tokens && t.tokens[k].expiresAt >= now :: t.tokens[k])];
      return Ok(());
    }

    // ----- organizations

    method FindOrganization(organizationId: int) returns (out: Option<Organization>)
      ensures out == FindById(orgs, organizationId)
    {
      return if organizationId in orgs then Some(orgs[organizationId]) else None;
    }

    method FindOrganizationByNamespace(ns: string, q: Planner) returns (out: Option<Organization>)
      ensures out == FindByNamespace(orgs, ns, q)
    {
      var row := First(q, NamespaceRows(orgs, ns));
      return match row case None => None case Some(o) => Some(orgs[o]);
    }

    method FindOrganizationByKey(key: int, q: Planner) returns (out: Option<Organization>)
      ensures out == FindBySecretKey(orgs, key, q)
    {
      var row := First(q, KeyRows(orgs, key));
      return match row case None => None case Some(o) => Some(orgs[o]);
    }

    /** One transaction inserts the row, validates its namespace, and creates and fills the schema. */
    method InsertOrganization(name: string, namespace: string, key: int) returns (out: Result<Organization, Error>)
      modifies this
      ensures Ran(Value(), out) == Organizations.InsertOrganization(old(Value()), name, namespace, key)
    {
      if |name| > 100 || |namespace| > 63 || nextOrg > C.MAX_I64
        || exists o | o in orgs :: orgs[o].name == name || orgs[o].namespace == namespace || orgs[o].secretKey == key
      {
        return Err(Database);
      }
      if !Quoting.NamespaceText(namespace) { return Err(InvalidNamespace); }
      if !SchemaCreatable(Value(), namespace) { return Err(Database); }
      var o := Organization(nextOrg, name, key, namespace);
      orgs, nextOrg := orgs[nextOrg := o], nextOrg + 1;
      schemas := schemas[namespace := Empty(false)];
      return Ok(o);
    }

    method RotateSecretKey(organizationId: int, key: int) returns (out: Result<int, Error>)
      modifies this
      ensures Ran(Value(), out) == Organizations.RotateSecretKey(old(Value()), organizationId, key)
    {
      if organizationId in orgs {
        if exists o | o in orgs :: o != organizationId && orgs[o].secretKey == key { return Err(Database); }
        orgs := orgs[organizationId := orgs[organizationId].(secretKey := key)];
      }
      return Ok(key);
    }

    /** Deletes the row; the foreign keys of every schema cascade or refuse. */
    method DeleteOrganization(organizationId: int) returns (out: Result<(), Error>)
      modifies this
      ensures Ran(Value(), out) == Organizations.DeleteOrganization(old(Value()), organizationId)
    {
      if organizationId in orgs && organizationId in settings { return Err(Database); }
      if exists ns | ns in schemas :: DropOrganization(schemas[ns], organizationId).None? { return Err(Database); }
      orgs := orgs - {organizationId};
      schemas := map ns | ns in schemas :: DropOrganization(schemas[ns], organizationId).value;
      return Ok(());
    }
  }
}
