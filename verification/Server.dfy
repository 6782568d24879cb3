/** src/api/ and src/handler/auth.rs: the handlers behind their gates, run on the shared database. */
module Server {
  import opened Wrappers
  import opened Environment
  import opened Tables
  import opened Organizations
  import opened Requests
  import opened Repository
  import opened Services
  import C = Constants
  import Accounts
  import Decisions
  import Email
  import Integrity
  import Jwt

  /** A request let through to a schema is one committed transaction of that schema. */
  lemma ExecuteCommits(d: Db, ns: string, act: Act, e: Env)
    ensures Execute(d, InSchema(ns, act), e) == Commit(d, ns, Perform(Schema(d, ns), d.orgs.Keys, ns, act, e))
  {}

  /** src/api/admin.rs */
  class AdminApi {
    const db: Database
    const users: UserService
    const groups: GroupService
    const policies: PolicyService

    constructor (db: Database)
      ensures this.db == db && Wired()
    {
      this.db := db;
      this.users := new UserService(db);
      this.groups := new GroupService(db);
      this.policies := new PolicyService(db);
    }

    predicate Wired() { users.db == db && groups.db == db && policies.db == db }

    method GetOrgNamespaceSafe(u: AuthenticatedUser, organizationId: int) returns (out: Result<string, Error>)
      ensures out == OrgNamespaceSafe(db.orgs, u, organizationId)
    {
      var org := db.FindOrganization(organizationId);
      if org.None? { return Err(OrganizationNotFound); }
      if u.namespace != org.value.namespace && !IsGlobalSuperadmin(u) { return Err(Forbidden); }
      return Ok(org.value.namespace);
    }

    method CreateUser(u: AuthenticatedUser, f: Accounts.UserForm, e: Env) returns (out: Result<Answer, Error>)
      requires Wired() && IsAdmin(u)
      modifies db
      ensures Ran(db.Value(), out) == Execute(old(db.Value()), PlanCall(old(db.Value()), u, Call.CreateUser(f)), e)
    {
      hide Accounts.CreateUser, Email.IsEmail, Email.IsPassword, Execute;
      ghost var d := db.Value();
      RefusalsChangeNothing(d, e);
      if !Email.IsEmail(f.email) { return Err(InvalidEmail); }
      if !Email.IsPassword(f.password) { return Err(PasswordTooShort); }
      var ns :- GetOrgNamespaceSafe(u, f.organizationId);
      var adminId := if u.namespace == ns then Some(u.userId) else None;
      ExecuteCommits(d, ns, ActCreateUser(f, adminId), e);
      var user := users.CreateUser(f, adminId, ns, e.planner);
      return user.Map(r => UserShown(r));
    }

    method UpdateUser(u: AuthenticatedUser, org: Option<int>, userId: int, email: Option<string>,
                      username: Option<string>, firstLogin: Option<bool>, e: Env)
      returns (out: Result<Answer, Error>)
      requires Wired() && IsAdmin(u)
      modifies db
      ensures Ran(db.Value(), out) ==
              Execute(old(db.Value()),
                      PlanCall(old(db.Value()), u, Call.UpdateUser(org, userId, email, username, firstLogin)), e)
    {
      hide Accounts.UpdateUser, Execute;
      ghost var d := db.Value();
      RefusalsChangeNothing(d, e);
      var ns :- GetOrgNamespaceSafe(u, OrDefault(org));
      ExecuteCommits(d, ns, ActUpdateUser(userId, email, username, firstLogin), e);
      var user := users.UpdateUser(userId, email, username, firstLogin, ns, e.planner);
      return user.Map(r => UserShown(r));
    }

    method DeleteUser(u: AuthenticatedUser, org: Option<int>, userId: int, e: Env) returns (out: Result<Answer, Error>)
      requires Wired() && IsAdmin(u)
      modifies db
      ensures Ran(db.Value(), out) ==
              Execute(old(db.Value()), PlanCall(old(db.Value()), u, Call.DeleteUser(org, userId)), e)
    {
      hide EraseUser, Execute;
      ghost var d := db.Value();
      RefusalsChangeNothing(d, e);
      if u.userId == userId && u.namespace != C.DEFAULT_NAMESPACE { return Err(CannotDeleteYourself); }
      var ns :- GetOrgNamespaceSafe(u, OrDefault(org));
      ExecuteCommits(d, ns, ActDeleteUser(userId), e);
      var deleted := db.DeleteUser(userId, ns);
      return deleted.Map(_ => Done);
    }

    method ResetUserPassword(u: AuthenticatedUser, org: Option<int>, userId: int, e: Env)
      returns (out: Result<Answer, Error>)
      requires Wired() && IsAdmin(u)
      modifies db
      ensures Ran(db.Value(), out) ==
              Execute(old(db.Value()), PlanCall(old(db.Value()), u, Call.ResetUserPassword(org, userId)), e)
    {
      hide Accounts.ResetUserPassword, Execute;
      ghost var d := db.Value();
      RefusalsChangeNothing(d, e);
      var ns :- GetOrgNamespaceSafe(u, OrDefault(org));
      ExecuteCommits(d, ns, ActResetUserPassword(userId), e);
      var temporary := users.ResetUserPassword(userId, ns, e);
      return temporary.Map(p => TemporaryPassword(p));
    }

    method SendPasswordResetEmail(u: AuthenticatedUser, org: Option<int>, userId: int, e: Env)
      returns (out: Result<Answer, Error>)
      requires Wired() && IsAdmin(u)
      modifies db
      ensures Ran(db.Value(), out) ==
              Execute(old(db.Value()), PlanCall(old(db.Value()), u, Call.SendReset(org, userId)), e)
    {
      hide Accounts.ForgotPassword, Execute;
      ghost var d := db.Value();
      RefusalsChangeNothing(d, e);
      var ns :- GetOrgNamespaceSafe(u, OrDefault(org));
      ExecuteCommits(d, ns, ActSendReset(userId), e);
      AtTwice(d, ns, Schema(d, ns), Schema(d, ns));
      var found :- db.FindUser(userId, ns);
      if found.None? { return Err(UserNotFound); }
      var token := users.ForgotPassword(found.value.email, ns, e);
      return token.Map(s => ResetLink(s));
    }

    /** The name check of `create_group` comes before its first query, so the schema must be there for the errors to
        agree; the schema of an existing organization is. */
    method CreateGroup(u: AuthenticatedUser, organizationId: int, name: string, e: Env)
      returns (out: Result<Answer, Error>)
      requires Wired() && IsAdmin(u) && Integrity.OrganizationsOk(db.Value())
      modifies db
      ensures Ran(db.Value(), out) ==
              Execute(old(db.Value()), PlanCall(old(db.Value()), u, Call.CreateGroup(organizationId, name)), e)
    {
      hide Accounts.CreateGroup, Execute;
      ghost var d := db.Value();
      RefusalsChangeNothing(d, e);
      var ns :- GetOrgNamespaceSafe(u, organizationId);
      ExecuteCommits(d, ns, ActCreateGroup(organizationId, name), e);
      var group := groups.CreateGroup(name, organizationId, ns, e.planner);
      return group.Map(g => GroupShown(g));
    }

    method AssignUserToGroup(u: AuthenticatedUser, org: Option<int>, userId: int, groupId: int, e: Env)
      returns (out: Result<Answer, Error>)
      requires Wired() && IsAdmin(u)
      modifies db
      ensures Ran(db.Value(), out) ==
              Execute(old(db.Value()), PlanCall(old(db.Value()), u, Call.JoinGroup(org, userId, groupId)), e)
    {
      hide Accounts.JoinGroup, Execute;
      ghost var d := db.Value();
      RefusalsChangeNothing(d, e);
      var ns :- GetOrgNamespaceSafe(u, OrDefault(org));
      var assignedBy := if u.namespace == ns then Some(u.userId) else None;
      ExecuteCommits(d, ns, ActJoinGroup(userId, groupId, assignedBy), e);
      var joined := groups.AssignUserToGroup(userId, groupId, assignedBy, ns);
      return joined.Map(_ => Done);
    }

    method RemoveUserFromGroup(u: AuthenticatedUser, org: Option<int>, userId: int, groupId: int, e: Env)
      returns (out: Result<Answer, Error>)
      requires Wired() && IsAdmin(u)
      modifies db
      ensures Ran(db.Value(), out) ==
              Execute(old(db.Value()), PlanCall(old(db.Value()), u, Call.LeaveGroup(org, userId, groupId)), e)
    {
      hide Execute;
      ghost var d := db.Value();
      RefusalsChangeNothing(d, e);
      var ns :- GetOrgNamespaceSafe(u, OrDefault(org));
      ExecuteCommits(d, ns, ActLeaveGroup(userId, groupId), e);
      var left := db.RemoveUserFromGroup(userId, groupId, ns);
      return left.Map(_ => Done);
    }

    method CreatePolicy(u: AuthenticatedUser, organizationId: int, name: string, resource: string, action: string,
                        effect: Effect, e: Env)
      returns (out: Result<Answer, Error>)
      requires Wired() && IsAdmin(u)
      modifies db
      ensures Ran(db.Value(), out) ==
              Execute(old(db.Value()),
                      PlanCall(old(db.Value()), u, Call.CreatePolicy(organizationId, name, resource, action, effect)),
                        e)
    {
      hide Accounts.CreatePolicy, Execute;
      ghost var d := db.Value();
      RefusalsChangeNothing(d, e);
      var ns :- GetOrgNamespaceSafe(u, organizationId);
      ExecuteCommits(d, ns, ActCreatePolicy(organizationId, name, resource, action, effect), e);
      var policy := policies.CreatePolicy(name, organizationId, resource, action, effect, ns);
      return policy.Map(p => PolicyShown(p));
    }
  }

  lemma RefusalsChangeNothing(d: Db, e: Env)
    ensures forall err :: Execute(d, Refuse(err), e) == Ran(d, Err(err))
  {}

  lemma SelfServicePlans(d: Db, u: AuthenticatedUser, current: string, new_: string, email: Option<string>,
                         username: Option<string>)
    ensures PlanCall(d, u, RefreshToken) == InSchema(u.namespace, ActRefresh(u.userId))
    ensures PlanCall(d, u, Call.ChangePassword(current, new_)) ==
            InSchema(u.namespace, ActChangePassword(u.userId, current, new_))
    ensures PlanCall(d, u, EditProfile(email, username)) ==
            InSchema(u.namespace, ActUpdateUser(u.userId, email, username, None))
  {}

  lemma ListedOrganizations(d: Db, ns: Option<string>, e: Env, listed: set<Organization>)
    requires listed == set o | o in d.orgs.Values && (ns.Some? ==> o.namespace == ns.value)
    ensures PerformOrg(d, OrgList(ns), e) == Ran(d, Ok(OrganizationsShown(listed)))
  {}

  /** src/api/organization.rs */
  class OrganizationApi {
    const db: Database
    const organizations: OrganizationService

    constructor (db: Database)
      ensures this.db == db && organizations.db == db
    {
      this.db := db;
      this.organizations := new OrganizationService(db);
    }

    /** The caller's own organization, checked against the caller's namespace. */
    method OwnOrganization(u: AuthenticatedUser) returns (out: Result<Organization, Error>)
      ensures out == Requests.OwnOrganization(db.Value(), u)
    {
      var found :- db.FindUser(u.userId, u.namespace);
      if found.None? { return Err(Unauthorized); }
      var org := db.FindOrganization(found.value.organizationId);
      if org.None? { return Err(OrganizationNotFound); }
      if org.value.namespace != u.namespace { return Err(Forbidden); }
      return Ok(org.value);
    }

    method GetOrgKey(u: AuthenticatedUser, e: Env) returns (out: Result<Answer, Error>)
      requires Integrity.OrganizationsOk(db.Value())
      ensures Ran(db.Value(), out) == Execute(db.Value(), PlanCall(db.Value(), u, ReadOwnKey), e)
    {
      if !IsAdmin(u) { return Err(Forbidden); }
      var org := OwnOrganization(u);
      return org.Map(o => OrganizationShown(o));
    }

    method RotateOrgKey(u: AuthenticatedUser, e: Env) returns (out: Result<Answer, Error>)
      requires organizations.db == db && Integrity.OrganizationsOk(db.Value())
      modifies db
      ensures Ran(db.Value(), out) == Execute(old(db.Value()), PlanCall(old(db.Value()), u, RotateOwnKey), e)
    {
      var found := db.FindUser(u.userId, u.namespace);
      if found.Err? || found.value.None? { return Err(Unauthorized); }
      var row := found.value.value;
      if row.organizationId == 0 { return Err(Forbidden); }
      if !IsAdmin(u) { return Err(Forbidden); }
      var org := db.FindOrganization(row.organizationId);
      if org.None? { return Err(OrganizationNotFound); }
      if org.value.namespace != u.namespace { return Err(Forbidden); }
      var key := db.RotateSecretKey(row.organizationId, e.key);
      return key.Map(k => NewKey(row.organizationId, k));
    }

    method ListOrganizations(u: AuthenticatedUser, e: Env) returns (out: Result<Answer, Error>)
      requires organizations.db == db && IsAdmin(u)
      ensures Ran(db.Value(), out) == Execute(db.Value(), PlanCall(db.Value(), u, Call.ListOrganizations), e)
    {
      if IsGlobalSuperadmin(u) {
        ListedOrganizations(db.Value(), None, e, db.orgs.Values);
        return Ok(OrganizationsShown(db.orgs.Values));
      }
      var own :- OwnOrganization(u);
      var mine := set o | o in db.orgs.Values && o.namespace == u.namespace;
      ListedOrganizations(db.Value(), Some(u.namespace), e, mine);
      return Ok(OrganizationsShown(mine));
    }

    method CreateOrganization(u: AuthenticatedUser, name: string, ns: string, e: Env)
      returns (out: Result<Answer, Error>)
      requires organizations.db == db && IsAdmin(u)
      modifies db
      ensures Ran(db.Value(), out) ==
              Execute(old(db.Value()), PlanCall(old(db.Value()), u, Call.CreateOrganization(name, ns)), e)
    {
      hide CreateOrg;
      if !IsGlobalSuperadmin(u) { return Err(Forbidden); }
      var org := organizations.CreateOrganization(name, ns, e);
      return org.Map(o => OrganizationShown(o));
    }

    method AdminRotateOrgKey(u: AuthenticatedUser, organizationId: int, e: Env) returns (out: Result<Answer, Error>)
      requires IsAdmin(u)
      modifies db
      ensures Ran(db.Value(), out) ==
              Execute(old(db.Value()), PlanCall(old(db.Value()), u, RotateKey(organizationId)), e)
    {
      if !IsGlobalSuperadmin(u) { return Err(Forbidden); }
      var key := db.RotateSecretKey(organizationId, e.key);
      return key.Map(k => NewKey(organizationId, k));
    }

    method DeleteOrganization(u: AuthenticatedUser, organizationId: int, e: Env) returns (out: Result<Answer, Error>)
      requires IsAdmin(u)
      modifies db
      ensures Ran(db.Value(), out) ==
              Execute(old(db.Value()), PlanCall(old(db.Value()), u, Call.DeleteOrganization(organizationId)), e)
    {
      if !IsGlobalSuperadmin(u) { return Err(Forbidden); }
      var deleted := db.DeleteOrganization(organizationId);
      return deleted.Map(_ => Done);
    }
  }

  /** src/handler/auth.rs and the public routes: everything a request can reach. */
  class App {
    const db: Database
    const users: UserService
    const policies: PolicyService
    const admin: AdminApi
    const organizations: OrganizationApi
    var now: Instant
    var issued: set<Jwt.Claims>
    var resetTokens: set<string>
    var keys: set<int>

    constructor (d: Db, now: Instant)
      requires Integrity.DbOk(d)
      ensures Valid() && fresh(db) && State() == World(d, now, {}, {}, {})
    {
      var db := new Database(d);
      this.db := db;
      this.users := new UserService(db);
      this.policies := new PolicyService(db);
      this.admin := new AdminApi(db);
      this.organizations := new OrganizationApi(db);
      this.now, this.issued, this.resetTokens, this.keys := now, {}, {}, {};
    }

    predicate Wired() {
      && users.db == db && policies.db == db && admin.db == db && admin.Wired()
      && organizations.db == db && organizations.organizations.db == db
    }

    ghost predicate Valid()
      reads this, db
    {
      Wired() && Integrity.DbOk(db.Value())
    }

    function State(): World
      reads this, db
    {
      World(db.Value(), now, issued, resetTokens, keys)
    }

    /** Routes behind `require_auth`; those from CreateUser on are also behind `require_superadmin`. */
    method HandleCall(u: AuthenticatedUser, call: Call, e: Env) returns (out: Result<Answer, Error>)
      requires Valid()
      modifies db
      ensures Ran(db.Value(), out) == Execute(old(db.Value()), PlanCall(old(db.Value()), u, call), e)
    {
      match call {
        case RefreshToken => out := Refresh(u, e);
        case ChangePassword(current, new_) => out := ChangeOwnPassword(u, current, new_, e);
        case EditProfile(email, username) => out := EditOwnProfile(u, email, username, e);
        case ReadOwnKey => out := organizations.GetOrgKey(u, e);
        case RotateOwnKey => out := organizations.RotateOrgKey(u, e);
        case _ =>
          if !IsAdmin(u) { return Err(Forbidden); }
          out := HandleAdminCall(u, call, e);
      }
    }

    method HandleAdminCall(u: AuthenticatedUser, call: Call, e: Env) returns (out: Result<Answer, Error>)
      requires Valid() && IsAdmin(u)
      requires !call.RefreshToken? && !call.ChangePassword? && !call.EditProfile? && !call.ReadOwnKey?
               && !call.RotateOwnKey?
      modifies db
      ensures Ran(db.Value(), out) == Execute(old(db.Value()), PlanCall(old(db.Value()), u, call), e)
    {
      hide PlanCall, Execute;
      match call {
        case CreateUser(form) => out := admin.CreateUser(u, form, e);
        case UpdateUser(org, userId, email, username, flag) =>
          out := admin.UpdateUser(u, org, userId, email, username, flag, e);
        case DeleteUser(org, userId) => out := admin.DeleteUser(u, org, userId, e);
        case ResetUserPassword(org, userId) => out := admin.ResetUserPassword(u, org, userId, e);
        case SendReset(org, userId) => out := admin.SendPasswordResetEmail(u, org, userId, e);
        case CreateGroup(org, name) => out := admin.CreateGroup(u, org, name, e);
        case JoinGroup(org, userId, groupId) => out := admin.AssignUserToGroup(u, org, userId, groupId, e);
        case LeaveGroup(org, userId, groupId) => out := admin.RemoveUserFromGroup(u, org, userId, groupId, e);
        case CreatePolicy(org, name, resource, action, effect) =>
          out := admin.CreatePolicy(u, org, name, resource, action, effect, e);
        case ListOrganizations => out := organizations.ListOrganizations(u, e);
        case CreateOrganization(name, ns) => out := organizations.CreateOrganization(u, name, ns, e);
        case RotateKey(id) => out := organizations.AdminRotateOrgKey(u, id, e);
        case DeleteOrganization(id) => out := organizations.DeleteOrganization(u, id, e);
      }
    }

    method Refresh(u: AuthenticatedUser, e: Env) returns (out: Result<Answer, Error>)
      requires Valid()
      ensures Ran(db.Value(), out) == Execute(db.Value(), PlanCall(db.Value(), u, RefreshToken), e)
    {
      hide Accounts.RefreshTokenForUser, Execute, PlanCall, Integrity.DbOk;
      SelfServicePlans(db.Value(), u, "", "", None, None);
      ExecuteCommits(db.Value(), u.namespace, ActRefresh(u.userId), e);
      AtTwice(db.Value(), u.namespace, Schema(db.Value(), u.namespace), Schema(db.Value(), u.namespace));
      var token := users.RefreshTokenForUser(u.userId, u.namespace, e);
      return token.Map(t => FreshToken(t));
    }

    method ChangeOwnPassword(u: AuthenticatedUser, current: string, new_: string, e: Env)
      returns (out: Result<Answer, Error>)
      requires Valid()
      modifies db
      ensures Ran(db.Value(), out) ==
              Execute(old(db.Value()), PlanCall(old(db.Value()), u, Call.ChangePassword(current, new_)), e)
    {
      hide Accounts.ChangePassword, Execute, PlanCall, Integrity.DbOk;
      SelfServicePlans(db.Value(), u, current, new_, None, None);
      ExecuteCommits(db.Value(), u.namespace, ActChangePassword(u.userId, current, new_), e);
      var changed := users.ChangePassword(u.userId, current, new_, u.namespace);
      return changed.Map(_ => Done);
    }

    /** `update_profile` is `update_user` without the `first_login` part. */
    method EditOwnProfile(u: AuthenticatedUser, email: Option<string>, username: Option<string>, e: Env)
      returns (out: Result<Answer, Error>)
      requires Valid()
      modifies db
      ensures Ran(db.Value(), out) ==
              Execute(old(db.Value()), PlanCall(old(db.Value()), u, EditProfile(email, username)), e)
    {
      hide Accounts.UpdateUser, Execute, PlanCall, Integrity.DbOk;
      SelfServicePlans(db.Value(), u, "", "", email, username);
      ExecuteCommits(db.Value(), u.namespace, ActUpdateUser(u.userId, email, username, None), e);
      var user := users.UpdateUser(u.userId, email, username, None, u.namespace, e.planner);
      return user.Map(r => UserShown(r));
    }

    /** `require_org_key_or_superadmin` and `check_permission`. */
    method HandleCheck(credential: Credential, userId: int, resource: string, action: string, e: Env)
      returns (out: Result<Answer, Error>)
      requires Valid()
      ensures Ran(db.Value(), out) ==
              Execute(db.Value(), PlanOf(State(), Request.CheckPermission(credential, userId, resource, action), e), e)
    {
      hide Decisions.CheckPermission, Execute, Integrity.DbOk;
      RefusalsChangeNothing(db.Value(), e);
      var ns: string;
      var caller: Option<int>;
      match credential {
        case Key(key) =>
          var org := db.FindOrganizationByKey(key, e.planner);
          if org.None? { return Err(Unauthorized); }
          ns, caller := org.value.namespace, Some(org.value.organizationId);
        case Token(token) =>
          if !Accepts(State(), token, e.now) || !IsGlobalSuperadmin(FromClaims(token)) { return Err(Unauthorized); }
          ns, caller := token.namespace, None;
      }
      ExecuteCommits(db.Value(), ns, ActCheckPermission(caller, userId, resource, action), e);
      AtTwice(db.Value(), ns, Schema(db.Value(), ns), Schema(db.Value(), ns));
      var allowed := policies.CheckPermission(caller, userId, resource, action, ns, e.planner);
      return allowed.Map(b => Decision(b));
    }

    method HandleRegister(ns: string, org: Option<int>, email: string, username: string, password: string,
                          group: Option<string>, e: Env)
      returns (out: Result<Answer, Error>)
      requires Valid()
      modifies db
      ensures Ran(db.Value(), out) ==
              Execute(old(db.Value()),
                      PlanOf(old(State()), Request.Register(ns, org, email, username, password, group), e), e)
    {
      hide Execute, Accounts.Register, RegistrationOrganization, Integrity.DbOk;
      ghost var d := db.Value();
      RefusalsChangeNothing(d, e);
      if RegistrationOrganization(d.orgs, ns, org, e.planner).Ok? {
        ExecuteCommits(d, ns,
                       ActRegister(RegistrationOrganization(d.orgs, ns, org, e.planner).value, email, username,
                                   password, group), e);
      }
      var auth := users.Register(org, email, username, password, group, ns, e);
      return auth.Map(a => LoggedIn(a));
    }

    method HandleLogin(ns: string, identity: string, password: string, e: Env) returns (out: Result<Answer, Error>)
      requires Valid()
      ensures Ran(db.Value(), out) == Execute(db.Value(), InSchema(ns, ActLogin(identity, password)), e)
    {
      hide Execute, Accounts.Login, Integrity.DbOk;
      ExecuteCommits(db.Value(), ns, ActLogin(identity, password), e);
      AtTwice(db.Value(), ns, Schema(db.Value(), ns), Schema(db.Value(), ns));
      var auth := users.Login(identity, password, ns, e);
      return auth.Map(a => LoggedIn(a));
    }

    method HandleForgotPassword(ns: string, email: string, e: Env) returns (out: Result<Answer, Error>)
      requires Valid()
      modifies db
      ensures Ran(db.Value(), out) == Execute(old(db.Value()), InSchema(ns, ActForgotPassword(email)), e)
    {
      hide Execute, Accounts.ForgotPassword, Integrity.DbOk;
      ExecuteCommits(db.Value(), ns, ActForgotPassword(email), e);
      var token := users.ForgotPassword(email, ns, e);
      return token.Map(s => ResetLink(s));
    }

    method HandleResetPassword(ns: string, token: string, new_: string, e: Env) returns (out: Result<Answer, Error>)
      requires Valid()
      modifies db
      ensures Ran(db.Value(), out) == Execute(old(db.Value()), InSchema(ns, ActResetPassword(token, new_)), e)
    {
      hide Execute, Accounts.ResetPassword, Integrity.DbOk;
      ExecuteCommits(db.Value(), ns, ActResetPassword(token, new_), e);
      var changed := users.ResetPassword(token, new_, ns, e);
      return changed.Map(_ => Done);
    }

    method CleanupTokens(ns: string, e: Env) returns (out: Result<Answer, Error>)
      requires Valid()
      modifies db
      ensures Ran(db.Value(), out) == Execute(old(db.Value()), InSchema(ns, ActCleanup), e)
    {
      hide Execute, Integrity.DbOk;
      ExecuteCommits(db.Value(), ns, ActCleanup, e);
      var cleaned := db.CleanupExpiredTokens(e.now, ns);
      return cleaned.Map(_ => Done);
    }

    method HandlePublic(r: Request, e: Env) returns (out: Result<Answer, Error>)
      requires Valid() && !r.Bearer? && !r.CheckPermission?
      modifies db
      ensures Ran(db.Value(), out) == Execute(old(db.Value()), PlanOf(old(State()), r, e), e)
    {
      hide Execute, RegistrationOrganization, Integrity.DbOk;
      match r {
        case Register(ns, org, email, username, password, group) =>
          out := HandleRegister(ns, org, email, username, password, group, e);
        case Login(ns, identity, password) => out := HandleLogin(ns, identity, password, e);
        case ForgotPassword(ns, email) => out := HandleForgotPassword(ns, email, e);
        case ResetPassword(ns, token, new_) => out := HandleResetPassword(ns, token, new_, e);
        case CleanupTokens(ns) => out := CleanupTokens(ns, e);
      }
    }

    /** One request, from the middleware to the answer: exactly the step of the state machine. */
    method Handle(r: Request, e: Env) returns (a: Answer)
      requires Valid() && Admissible(State(), e)
      modifies this, db
      ensures (State(), a) == Apply(old(State()), r, e)
      ensures Step(old(State()), Event(r, e), State(), a)
      ensures Valid()
    {
      hide Integrity.DbOk, PlanCall, Execute;
      ghost var w := State();
      var out: Result<Answer, Error>;
      match r {
        case Bearer(token, call) =>
          if Accepts(State(), token, e.now) {
            out := HandleCall(FromClaims(token), call, e);
          } else {
            RefusalsChangeNothing(db.Value(), e);
            out := Err(Unauthorized);
          }
        case CheckPermission(credential, userId, resource, action) =>
          out := HandleCheck(credential, userId, resource, action, e);
        case _ => out := HandlePublic(r, e);
      }
      a := AnswerOf(out);
      now := e.now;
      issued, resetTokens, keys := issued + Minted(a), resetTokens + {e.resetToken}, keys + {e.key};
      Integrity.StepKeepsDbOk(w, Event(r, e), State(), a);
    }
  }
}
