/** src/services/: requests as sequences of repository transactions. */
module Services {
  import opened Wrappers
  import opened Text
  import opened Environment
  import opened Tables
  import opened Organizations
  import opened Repository
  import C = Constants
  import Accounts
  import Decisions
  import Email
  import Jwt
  import Quoting
  import Requests

  /** `x` happened in schema `ns` of `d`; without the schema something failed and nothing happened. */
  predicate Did<T(==)>(d: Db, ns: string, x: Tx<T>, d': Db, out: Result<T, Error>) {
    if ns in d.schemas then d' == At(d, ns, x.t) && out == x.out else d' == d && out.Err?
  }

  /** What is left of the resolving loop once `ids` are found. */
  function Behind(ids: seq<int>, x: Tx<seq<int>>): Tx<seq<int>> {
    Tx(x.t, match x.out case Ok(more) => Ok(ids + more) case Err(e) => Err(e))
  }

  lemma BehindNothing(x: Tx<seq<int>>)
    ensures Behind([], x) == x
  {
    if x.out.Ok? { assert [] + x.out.value == x.out.value; }
  }

  lemma BehindAll(t: Tables, orgs: set<int>, wanted: seq<string>, org: int, q: Planner, ids: seq<int>)
    ensures Behind(ids, Accounts.ResolveAll(t, orgs, wanted[|wanted|..], org, q)) == Tx(t, Ok(ids))
  {
    assert ids + [] == ids;
  }

  /** One turn of the loop takes one id off what is left. */
  lemma BehindOne(t: Tables, orgs: set<int>, wanted: seq<string>, i: nat, org: int, q: Planner, ids: seq<int>)
    requires i < |wanted|
    ensures var one := Accounts.ResolveOne(t, orgs, wanted[i], org, q);
            Behind(ids, Accounts.ResolveAll(t, orgs, wanted[i..], org, q)) ==
            if one.out.Err? then Tx(one.t, Err(one.out.error))
            else Behind(ids + [one.out.value], Accounts.ResolveAll(one.t, orgs, wanted[i + 1..], org, q))
  {
    hide Accounts.ResolveOne;
    assert wanted[i..][0] == wanted[i] && wanted[i..][1..] == wanted[i + 1..];
    var one := Accounts.ResolveOne(t, orgs, wanted[i], org, q);
    if one.out.Ok? {
      var rest := Accounts.ResolveAll(one.t, orgs, wanted[i + 1..], org, q);
      if rest.out.Ok? { assert ids + ([one.out.value] + rest.out.value) == ids + [one.out.value] + rest.out.value; }
    }
  }

  /** src/services/user_service.rs */
  class UserService {
    const db: Database

    constructor (db: Database)
      ensures this.db == db
    {
      this.db := db;
    }

    method ResolveGroupIds(groups: seq<string>, organizationId: int, ns: string, q: Planner)
      returns (out: Result<seq<int>, Error>)
      modifies db
      ensures Did(old(db.Value()), ns,
                  Accounts.ResolveGroupIds(Schema(old(db.Value()), ns), old(db.orgs).Keys, ns, groups, organizationId,
                                           q), db.Value(), out)
    {
      hide Accounts.ResolveAll, Accounts.ReservedIn, Trim, Behind;
      if exists i | 0 <= i < |groups| :: Accounts.ReservedIn(ns, groups[i]) {
        AtTwice(db.Value(), ns, Schema(db.Value(), ns), Schema(db.Value(), ns));
        return Err(SuperadminReserved);
      }
      var wanted := if groups == [] then [C.USERS_GROUP] else groups;
      ghost var d := db.Value();
      ghost var whole := Accounts.ResolveAll(Schema(d, ns), d.orgs.Keys, wanted, organizationId, q);
      AtTwice(d, ns, Schema(d, ns), Schema(d, ns));
      BehindNothing(whole);
      assert wanted[0..] == wanted;
      var groupIds := [];
      var i := 0;
      while i < |wanted|
        invariant 0 <= i <= |wanted|
        invariant db.Value() == At(d, ns, Schema(db.Value(), ns)) && (ns !in d.schemas ==> i == 0)
        invariant Behind(groupIds,
                         Accounts.ResolveAll(Schema(db.Value(), ns), d.orgs.Keys, wanted[i..], organizationId, q))
                           == whole
      {
        ghost var t := Schema(db.Value(), ns);
        BehindOne(t, d.orgs.Keys, wanted, i, organizationId, q, groupIds);
        var group := Trim(wanted[i]);
        var found :- db.FindGroupByName(group, organizationId, ns, q);
        var groupId;
        if found.Some? {
          groupId := found.value.groupId;
        } else if group == C.USERS_GROUP || group == C.ADMIN_GROUP {
          ghost var x := InsertGroup(t, d.orgs.Keys, group, organizationId);
          AtTwice(d, ns, t, x.t);
          var g :- db.InsertGroup(group, organizationId, ns);
          groupId := g.groupId;
        } else {
          return Err(InvalidGroup(group));
        }
        groupIds := groupIds + [groupId];
        i := i + 1;
      }
      BehindAll(Schema(db.Value(), ns), d.orgs.Keys, wanted, organizationId, q, groupIds);
      return Ok(groupIds);
    }

    method GetUserGroupNames(userId: int, ns: string, q: Planner) returns (out: Result<seq<string>, Error>)
      ensures out == db.Read(ns, t => Accounts.GetUserGroupNames(t, userId, q))
    {
      var groups :- db.GetUserGroups(userId, ns, q);
      return Ok(Accounts.Names(groups));
    }

    /** The response built from a row the caller holds and the group names of now. */
    method Respond(u: User, ns: string, q: Planner) returns (out: Result<Accounts.UserResponse, Error>)
      ensures out == db.Read(ns, t => Accounts.Respond(t, u, ns, q))
    {
      var groups :- GetUserGroupNames(u.userId, ns, q);
      return Ok(Accounts.UserResponse(u.userId, u.email, u.username, groups, u.firstLogin, u.organizationId, ns));
    }

    method CreateUser(f: Accounts.UserForm, adminId: Option<int>, ns: string, q: Planner)
      returns (out: Result<Accounts.UserResponse, Error>)
      modifies db
      ensures Ran(db.Value(), out) ==
              Commit(old(db.Value()), ns,
                     Accounts.CreateUser(Schema(old(db.Value()), ns), old(db.orgs).Keys, ns, f, adminId, q))
    {
      hide Accounts.ResolveGroupIds, Accounts.AssignAll, InsertUser, FindByEmail, FindByUsername,
        Accounts.GetUserGroupNames;
      ghost var d := db.Value();
      ghost var orgs, t := d.orgs.Keys, Schema(d, ns);
      ghost var x := Accounts.ResolveGroupIds(t, orgs, ns, f.groups, f.organizationId, q);
      ghost var n := NewUser(f.organizationId, f.email, f.username, Argon2(f.password), f.firstLogin);
      ghost var y := InsertUser(x.t, orgs, n);
      AtTwice(d, ns, t, x.t);
      AtTwice(d, ns, x.t, y.t);
      var byEmail :- db.FindByEmail(f.email, ns, q);
      if byEmail.Some? { return Err(EmailTaken); }
      var byUsername := db.FindByUsername(f.username, ns, q);
      match byUsername {
        case Err(err) => return Err(err);
        case Ok(Some(_)) => return Err(UsernameTaken);
        case Ok(None) =>
      }
      var groupIds :- ResolveGroupIds(f.groups, f.organizationId, ns, q);
      var user :- db.InsertUser(NewUser(f.organizationId, f.email, f.username, Argon2(f.password), f.firstLogin), ns);
      AtTwice(d, ns, y.t, Accounts.AssignAll(y.t, user.userId, groupIds, adminId).t);
      var _ :- db.AssignUserToGroups(user.userId, groupIds, adminId, ns);
      out := Respond(user, ns, q);
    }

    method Register(organizationId: Option<int>, email: string, username: string, password: string,
                    group: Option<string>, ns: string, e: Env)
      returns (out: Result<Accounts.AuthResponse, Error>)
      modifies db
      ensures match Requests.RegistrationOrganization(old(db.orgs), ns, organizationId, e.planner)
              case Err(err) => db.Value() == old(db.Value()) && out == Err(err)
              case Ok(id) =>
                Ran(db.Value(), out) ==
                Commit(old(db.Value()), ns,
                       Accounts.Register(Schema(old(db.Value()), ns), old(db.orgs).Keys, ns, id, email, username,
                                         password, group, e))
    {
      hide Accounts.CreateUser, Email.IsEmail, Email.IsPassword, C.IsPrivilegedGroup;
      ghost var d := db.Value();
      AtTwice(d, ns, Schema(d, ns), Schema(d, ns));
      var owner := db.FindOrganizationByNamespace(ns, e.planner);
      var id: int;
      if organizationId.Some? {
        if owner.Some? && owner.value.organizationId != organizationId.value { return Err(OrganizationMismatch); }
        id := organizationId.value;
      } else if ns == C.DEFAULT_NAMESPACE {
        id := C.DEFAULT_ORGANIZATION_ID;
      } else {
        if owner.None? { return Err(OrganizationNotFound); }
        id := owner.value.organizationId;
      }
      var userCount :- db.CountUsers(ns);
      var groups: seq<string> := [];
      if group.Some? {
        if C.IsPrivilegedGroup(group.value) { return Err(PrivilegedGroup(group.value)); }
        groups := [group.value];
      } else if userCount == 0 {
        groups := [if ns == C.DEFAULT_NAMESPACE then C.SUPERADMIN_GROUP else C.ADMIN_GROUP, C.USERS_GROUP];
      }
      if !Email.IsEmail(email) { return Err(InvalidEmail); }
      if !Email.IsPassword(password) { return Err(PasswordTooShort); }
      var user :- CreateUser(Accounts.UserForm(id, email, username, password, groups, false), None, ns, e.planner);
      return Ok(Accounts.AuthResponse(user, Accounts.TokenFor(user, e.now), user.firstLogin));
    }

    method Login(identity: string, password: string, ns: string, e: Env)
      returns (out: Result<Accounts.AuthResponse, Error>)
      ensures out == if ns in db.schemas then Accounts.Login(db.schemas[ns], ns, identity, password, e)
              else Err(Database)
    {
      hide Email.IsEmail, FindByEmail, FindByUsername, Accounts.GetUserGroupNames;
      var found: Option<User>;
      if Email.IsEmail(identity) {
        found :- db.FindByEmail(identity, ns, e.planner);
      } else {
        found :- db.FindByUsername(identity, ns, e.planner);
      }
      if found.None? { return Err(InvalidCredentials); }
      var user := found.value;
      if user.passwordHash == Unparsable { return Err(InvalidStoredHash); }
      if !Accounts.Verifies(password, user.passwordHash) { return Err(InvalidCredentials); }
      var response := Respond(user, ns, e.planner);
      return response.Map(r => Accounts.AuthResponse(r, Accounts.TokenFor(r, e.now), user.firstLogin));
    }

    method RefreshTokenForUser(userId: int, ns: string, e: Env) returns (out: Result<Jwt.Claims, Error>)
      ensures out == if ns in db.schemas then Accounts.RefreshTokenForUser(db.schemas[ns], ns, userId, e)
              else Err(Database)
    {
      var found :- db.FindUser(userId, ns);
      if found.None? { return Err(UserNotFound); }
      var response := Respond(found.value, ns, e.planner);
      return response.Map(r => Accounts.TokenFor(r, e.now));
    }

    method ChangePassword(userId: int, current: string, new_: string, ns: string) returns (out: Result<(), Error>)
      modifies db
      ensures Ran(db.Value(), out) ==
              Commit(old(db.Value()), ns, Accounts.ChangePassword(Schema(old(db.Value()), ns), userId, current, new_))
    {
      hide Email.IsPassword;
      ghost var d := db.Value();
      ghost var t := Schema(d, ns);
      ghost var x := UpdatePassword(t, userId, Argon2(new_));
      AtTwice(d, ns, x.t, SetFirstLogin(x.t, userId, false).t);
      var found :- db.FindUser(userId, ns);
      if found.None? { return Err(UserNotFound); }
      if found.value.passwordHash == Unparsable { return Err(InvalidStoredHash); }
      if !Accounts.Verifies(current, found.value.passwordHash) { return Err(WrongPassword); }
      if !Email.IsPassword(new_) { return Err(PasswordTooShort); }
      out := db.UpdateUserPassword(userId, Argon2(new_), ns);
      if out.Err? { return; }
      out := db.SetFirstLogin(userId, false, ns);
    }

    method ForgotPassword(email: string, ns: string, e: Env) returns (out: Result<string, Error>)
      modifies db
      ensures Ran(db.Value(), out) ==
              Commit(old(db.Value()), ns, Accounts.ForgotPassword(Schema(old(db.Value()), ns), email, e))
    {
      hide FindByEmail, CreateResetToken;
      AtTwice(db.Value(), ns, Schema(db.Value(), ns), Schema(db.Value(), ns));
      var found :- db.FindByEmail(email, ns, e.planner);
      if found.None? { return Err(EmailNotFound); }
      var row :- db.CreateResetToken(found.value.userId, e.resetToken, e.now + DAY, ns);
      return Ok(row.token);
    }

    method ResetPassword(token: string, new_: string, ns: string, e: Env) returns (out: Result<(), Error>)
      modifies db
      ensures Ran(db.Value(), out) ==
              Commit(old(db.Value()), ns, Accounts.ResetPassword(Schema(old(db.Value()), ns), token, new_, e))
    {
      hide FindValidToken, Utf8Length;
      ghost var d := db.Value();
      ghost var t := Schema(d, ns);
      var found :- db.FindValidToken(token, ns, e);
      AtTwice(d, ns, t, t);
      if found.None? { return Err(InvalidResetToken); }
      if Utf8Length(new_) < C.MIN_PASSWORD_LENGTH { return Err(PasswordTooShort); }
      ghost var x := UpdatePassword(t, found.value.userId, Argon2(new_));
      AtTwice(d, ns, x.t, MarkTokenUsed(x.t, found.value.tokenId, e.now).t);
      out := db.UpdateUserPassword(found.value.userId, Argon2(new_), ns);
      if out.Err? { return; }
      out := db.MarkTokenUsed(found.value.tokenId, e.now, ns);
    }

    method ResetUserPassword(userId: int, ns: string, e: Env) returns (out: Result<string, Error>)
      modifies db
      ensures Ran(db.Value(), out) ==
              Commit(old(db.Value()), ns,
                     Accounts.ResetUserPassword(Schema(old(db.Value()), ns), userId, e.temporaryPassword))
    {
      var temporary := e.temporaryPassword;
      ghost var d := db.Value();
      ghost var x := UpdatePassword(Schema(d, ns), userId, Argon2(temporary));
      AtTwice(d, ns, x.t, SetFirstLogin(x.t, userId, true).t);
      var _ :- db.UpdateUserPassword(userId, Argon2(temporary), ns);
      var flagged := db.SetFirstLogin(userId, true, ns);
      return flagged.Map(_ => temporary);
    }

    method UpdateUser(userId: int, email: Option<string>, username: Option<string>, firstLogin: Option<bool>,
                      ns: string, q: Planner)
      returns (out: Result<Accounts.UserResponse, Error>)
      modifies db
      ensures Ran(db.Value(), out) ==
              Commit(old(db.Value()), ns,
                     Accounts.UpdateUser(Schema(old(db.Value()), ns), ns, userId, email, username, firstLogin, q))
    {
      hide Email.IsEmail, UpdateProfile, Accounts.GetUserGroupNames;
      ghost var d := db.Value();
      ghost var t := Schema(d, ns);
      AtTwice(d, ns, t, t);
      var found :- db.FindUser(userId, ns);
      if found.None? { return Err(UserNotFound); }
      var user := found.value;
      if email.Some? {
        if !Email.IsEmail(email.value) { return Err(InvalidEmail); }
        user := user.(email := email.value);
      }
      if username.Some? { user := user.(username := username.value); }
      ghost var x := UpdateProfile(t, user.userId, user.email, user.username);
      AtTwice(d, ns, t, x.t);
      var _ :- db.UpdateUserProfile(user.userId, user.email, user.username, ns);
      if firstLogin.Some? {
        AtTwice(d, ns, x.t, SetFirstLogin(x.t, user.userId, firstLogin.value).t);
        AtTwice(d, ns, SetFirstLogin(x.t, user.userId, firstLogin.value).t, t);
        var flagged := db.SetFirstLogin(user.userId, firstLogin.value, ns);
        match flagged { case Err(err) => return Err(err); case Ok(_) => }
        user := user.(firstLogin := firstLogin.value);
      }
      out := Respond(user, ns, q);
    }
  }

  /** src/services/group_service.rs */
  class GroupService {
    const db: Database

    constructor (db: Database)
      ensures this.db == db
    {
      this.db := db;
    }

    method CreateGroup(name: string, organizationId: int, ns: string, q: Planner) returns (out: Result<Group, Error>)
      modifies db
      ensures Did(old(db.Value()), ns,
                  Accounts.CreateGroup(Schema(old(db.Value()), ns), old(db.orgs).Keys, ns, name, organizationId, q),
                    db.Value(), out)
    {
      hide InsertGroup, FindGroupByName, C.IsSuperadminName;
      AtTwice(db.Value(), ns, Schema(db.Value(), ns), Schema(db.Value(), ns));
      if ns != C.DEFAULT_NAMESPACE && C.IsSuperadminName(name) { return Err(SuperadminReserved); }
      var found :- db.FindGroupByName(name, organizationId, ns, q);
      if found.Some? { return Err(GroupExists); }
      out := db.InsertGroup(name, organizationId, ns);
    }

    method AssignUserToGroup(userId: int, groupId: int, assignedBy: Option<int>, ns: string)
      returns (out: Result<(), Error>)
      modifies db
      ensures Ran(db.Value(), out) ==
              Commit(old(db.Value()), ns,
                     Accounts.JoinGroup(Schema(old(db.Value()), ns), ns, userId, groupId, assignedBy))
    {
      hide C.IsSuperadminName;
      AtTwice(db.Value(), ns, Schema(db.Value(), ns), Schema(db.Value(), ns));
      var found :- db.FindGroup(groupId, ns);
      if found.None? { return Err(GroupNotFound); }
      if ns != C.DEFAULT_NAMESPACE && C.IsSuperadminName(found.value.name) { return Err(SuperadminReserved); }
      out := db.AssignUserToGroup(userId, groupId, assignedBy, ns);
    }
  }

  /** src/services/policy_service.rs */
  class PolicyService {
    const db: Database

    constructor (db: Database)
      ensures this.db == db
    {
      this.db := db;
    }

    method CreatePolicy(name: string, organizationId: int, resource: string, action: string, effect: Effect, ns: string)
      returns (out: Result<Policy, Error>)
      modifies db
      ensures Ran(db.Value(), out) ==
              Commit(old(db.Value()), ns,
                     Accounts.CreatePolicy(Schema(old(db.Value()), ns), old(db.orgs).Keys, name, organizationId,
                                           resource, action, effect))
    {
      hide InsertPolicy, PolicyRows;
      AtTwice(db.Value(), ns, Schema(db.Value(), ns), Schema(db.Value(), ns));
      var taken :- db.PolicyNamed(name, organizationId, ns);
      if taken { return Err(PolicyExists); }
      if resource == [] || action == [] { return Err(EmptyPattern); }
      out := db.InsertPolicy(name, organizationId, resource, action, effect, ns);
    }

    method AssignPolicyToUser(userId: int, policyId: int, assignedBy: Option<int>, ns: string)
      returns (out: Result<(), Error>)
      modifies db
      ensures Ran(db.Value(), out) ==
              Commit(old(db.Value()), ns,
                     Accounts.GrantToUser(Schema(old(db.Value()), ns), userId, policyId, assignedBy))
    {
      AtTwice(db.Value(), ns, Schema(db.Value(), ns), Schema(db.Value(), ns));
      var found :- db.FindPolicy(policyId, ns);
      if found.None? { return Err(PolicyNotFound); }
      out := db.AssignPolicyToUser(userId, policyId, assignedBy, ns);
    }

    method AssignPolicyToGroup(groupId: int, policyId: int, assignedBy: Option<int>, ns: string)
      returns (out: Result<(), Error>)
      modifies db
      ensures Ran(db.Value(), out) ==
              Commit(old(db.Value()), ns,
                     Accounts.GrantToGroup(Schema(old(db.Value()), ns), groupId, policyId, assignedBy))
    {
      AtTwice(db.Value(), ns, Schema(db.Value(), ns), Schema(db.Value(), ns));
      var found :- db.FindPolicy(policyId, ns);
      if found.None? { return Err(PolicyNotFound); }
      out := db.AssignPolicyToGroup(groupId, policyId, assignedBy, ns);
    }

    /** `check_permission` of src/api/external.rs over the decision loop: `caller` is the organization of the key,
        or None for a global superadmin. */
    method CheckPermission(caller: Option<int>, userId: int, resource: string, action: string, ns: string, q: Planner)
      returns (out: Result<bool, Error>)
      ensures out ==
              if ns in db.schemas then Decisions.CheckPermission(db.schemas[ns], caller, userId, resource, action, q)
                else Err(Database)
    {
      hide Decisions.Grants, Decisions.AsSet;
      var found :- db.FindUser(userId, ns);
      if caller.Some? {
        if found.None? || found.value.organizationId != caller.value { return Ok(false); }
      } else if found.None? {
        return Err(UserNotFound);
      }
      var policies :- db.GetUserAllPolicies(userId, ns, q);
      var granted := Decisions.EvaluatePermission(policies, resource, action);
      return Ok(granted);
    }
  }

  /** src/services/organization_service.rs */
  class OrganizationService {
    const db: Database

    constructor (db: Database)
      ensures this.db == db
    {
      this.db := db;
    }

    method CreateOrganization(name: string, ns: string, e: Env) returns (out: Result<Organization, Error>)
      modifies db
      ensures Ran(db.Value(), out) == Requests.CreateOrg(old(db.Value()), name, ns, e)
    {
      hide InsertGroup, FindGroupByName;
      if NameTaken(db.orgs, name) { return Err(OrganizationExists); }
      if !Quoting.NamespaceText(ns) { return Err(InvalidNamespace); }
      var org :- db.InsertOrganization(name, ns, e.key);
      ghost var d := db.Value();
      ghost var whole := Requests.SeedGroups(Schema(d, ns), d.orgs.Keys, Requests.DEFAULT_GROUPS, org.organizationId,
                                             e.planner);
      var names := [C.ADMIN_GROUP, C.USERS_GROUP];
      assert names[0..] == names;
      AtTwice(d, ns, Schema(d, ns), Schema(d, ns));
      for i := 0 to |names|
        invariant ns in d.schemas && db.Value() == At(d, ns, Schema(db.Value(), ns))
        invariant Requests.SeedGroups(Schema(db.Value(), ns), d.orgs.Keys, names[i..], org.organizationId, e.planner)
                  == whole
      {
        ghost var t := Schema(db.Value(), ns);
        assert names[i..][0] == names[i] && names[i..][1..] == names[i + 1..];
        AtTwice(d, ns, t, InsertGroup(t, d.orgs.Keys, names[i], org.organizationId).t);
        var found := db.FindGroupByName(names[i], org.organizationId, ns, e.planner);
        match found {
          case Err(err) => return Err(err);
          case Ok(Some(_)) =>
          case Ok(None) => var _ :- db.InsertGroup(names[i], org.organizationId, ns);
        }
      }
      return Ok(org);
    }
  }
}
