/** A whole request as one step: the middlewares and handlers of src/handler/auth.rs and src/api/ decide where it acts,
    then it runs in one schema or on the organizations table. */
module Requests {
  import opened Wrappers
  import opened Environment
  import opened Tables
  import opened Organizations
  import C = Constants
  import Accounts
  import Decimal
  import Decisions
  import Email
  import Jwt
  import Quoting

  /** `issued`, `resetTokens` and `keys` remember every JWT, reset token and organization key ever made. */
  datatype World = World(db: Db, now: Instant, issued: set<Jwt.Claims>, resetTokens: set<string>, keys: set<int>)

  datatype AuthenticatedUser = AuthenticatedUser(
    userId: int, email: string, username: string, groups: seq<string>, namespace: string, organizationId: int)

  datatype Credential = Key(key: int) | Token(token: Jwt.Claims)

  datatype Request =
    | Register(ns: string, organizationId: Option<int>, email: string, username: string, password: string,
               group: Option<string>)
    | Login(ns: string, identity: string, password: string)
    | ForgotPassword(ns: string, email: string)
    | ResetPassword(ns: string, token: string, newPassword: string)
    | CleanupTokens(ns: string)
    | CheckPermission(credential: Credential, userId: int, resource: string, action: string)
    | Bearer(bearer: Jwt.Claims, call: Call)

  /** What a caller with a bearer token may ask; from CreateUser on behind `require_superadmin`. */
  datatype Call =
    | RefreshToken
    | ChangePassword(current: string, newPassword: string)
    | EditProfile(email: Option<string>, username: Option<string>)
    | ReadOwnKey
    | RotateOwnKey
    | CreateUser(form: Accounts.UserForm)
    | UpdateUser(org: Option<int>, userId: int, email: Option<string>, username: Option<string>,
                 firstLogin: Option<bool>)
    | DeleteUser(org: Option<int>, userId: int)
    | ResetUserPassword(org: Option<int>, userId: int)
    | SendReset(org: Option<int>, userId: int)
    | CreateGroup(organizationId: int, name: string)
    | JoinGroup(org: Option<int>, userId: int, groupId: int)
    | LeaveGroup(org: Option<int>, userId: int, groupId: int)
    | CreatePolicy(organizationId: int, name: string, resource: string, action: string, effect: Effect)
    | ListOrganizations
    | CreateOrganization(name: string, namespace: string)
    | RotateKey(organizationId: int)
    | DeleteOrganization(organizationId: int)

  /** What a request does once it is let through, inside one schema. */
  datatype Act =
    | ActRegister(organizationId: int, email: string, username: string, password: string, group: Option<string>)
    | ActLogin(identity: string, password: string)
    | ActForgotPassword(email: string)
    | ActResetPassword(token: string, newPassword: string)
    | ActCleanup
    | ActCheckPermission(caller: Option<int>, userId: int, resource: string, action: string)
    | ActRefresh(userId: int)
    | ActChangePassword(userId: int, current: string, newPassword: string)
    | ActUpdateUser(userId: int, newEmail: Option<string>, newUsername: Option<string>, firstLogin: Option<bool>)
    | ActCreateUser(form: Accounts.UserForm, adminId: Option<int>)
    | ActDeleteUser(userId: int)
    | ActResetUserPassword(userId: int)
    | ActSendReset(userId: int)
    | ActCreateGroup(organizationId: int, name: string)
    | ActJoinGroup(userId: int, groupId: int, assignedBy: Option<int>)
    | ActLeaveGroup(userId: int, groupId: int)
    | ActCreatePolicy(organizationId: int, name: string, resource: string, action: string, effect: Effect)

  /** The same, on the organizations table. */
  datatype OrgAct =
    | OrgShow(organizationId: int)
    | OrgList(only: Option<string>)
    | OrgCreate(name: string, namespace: string)
    | OrgRotate(organizationId: int)
    | OrgDelete(organizationId: int)

  datatype Plan = Refuse(error: Error) | InSchema(ns: string, act: Act) | OnOrganizations(orgAct: OrgAct)

  datatype Answer =
    | Failed(error: Error)
    | LoggedIn(auth: Accounts.AuthResponse)
    | FreshToken(token: Jwt.Claims)
    | UserShown(user: Accounts.UserResponse)
    | GroupShown(group: Group)
    | PolicyShown(policy: Policy)
    | ResetLink(resetToken: string)
    | TemporaryPassword(password: string)
    | Decision(allowed: bool)
    | OrganizationShown(org: Organization)
    | OrganizationsShown(orgs: set<Organization>)
    | NewKey(organizationId: int, key: int)
    | Done

  // ----- who is asking

  /** `From<Claims>`. */
  function FromClaims(c: Jwt.Claims): AuthenticatedUser {
    var id := match Decimal.Parse(c.sub) case Some(n) => n case None => 0;
    AuthenticatedUser(id, c.email, c.username, c.groups, c.namespace, c.organizationId)
  }

  predicate IsGlobalSuperadmin(u: AuthenticatedUser) {
    u.namespace == C.DEFAULT_NAMESPACE && C.SUPERADMIN_GROUP in u.groups
  }

  predicate IsAdmin(u: AuthenticatedUser) {
    C.SUPERADMIN_GROUP in u.groups || C.ADMIN_GROUP in u.groups
  }

  /** Only tokens this service signed pass the signature check, and only unexpired ones the rest. */
  predicate Accepts(w: World, token: Jwt.Claims, now: Instant) {
    token in w.issued && Jwt.CheckClaims(Jwt.ISSUER, token, Seconds(now)).Ok?
  }

  /** `get_org_namespace_safe`. */
  function OrgNamespaceSafe(orgs: map<int, Organization>, u: AuthenticatedUser, organizationId: int)
    : Result<string, Error> {
    if organizationId !in orgs then Err(OrganizationNotFound)
    else
      var ns := orgs[organizationId].namespace;
      if u.namespace != ns && !IsGlobalSuperadmin(u) then Err(Forbidden) else Ok(ns)
  }

  function OrDefault(org: Option<int>): int {
    if org.Some? then org.value else C.DEFAULT_ORGANIZATION_ID
  }

  function Gated(d: Db, u: AuthenticatedUser, organizationId: int, act: Act): Plan {
    match OrgNamespaceSafe(d.orgs, u, organizationId) case Err(e) => Refuse(e) case Ok(ns) => InSchema(ns, act)
  }

  /** `assigned_by` names the caller only inside the caller's own namespace. */
  function Assigner(d: Db, u: AuthenticatedUser, organizationId: int): Option<int> {
    if organizationId in d.orgs && d.orgs[organizationId].namespace == u.namespace then Some(u.userId) else None
  }

  /** The organization behind the caller's own user row, when it belongs to the caller's namespace. */
  function OwnOrganization(d: Db, u: AuthenticatedUser): Result<Organization, Error> {
    if u.namespace !in d.schemas then Err(Database)
    else
      match FindUser(d.schemas[u.namespace], u.userId)
      case None => Err(Unauthorized)
      case Some(row) =>
        match FindById(d.orgs, row.organizationId)
        case None => Err(OrganizationNotFound)
        case Some(o) => if o.namespace != u.namespace then Err(Forbidden) else Ok(o)
  }

  function PlanAdminCall(d: Db, u: AuthenticatedUser, call: Call): Plan {
    match call
    case CreateUser(f) =>
      if !Email.IsEmail(f.email) then Refuse(InvalidEmail)
      else if !Email.IsPassword(f.password) then Refuse(PasswordTooShort)
      else Gated(d, u, f.organizationId, ActCreateUser(f, Assigner(d, u, f.organizationId)))
    case UpdateUser(org, userId, email, username, firstLogin) =>
      Gated(d, u, OrDefault(org), ActUpdateUser(userId, email, username, firstLogin))
    case DeleteUser(org, userId) =>
      if u.userId == userId && u.namespace != C.DEFAULT_NAMESPACE then Refuse(CannotDeleteYourself)
      else Gated(d, u, OrDefault(org), ActDeleteUser(userId))
    case ResetUserPassword(org, userId) => Gated(d, u, OrDefault(org), ActResetUserPassword(userId))
    case SendReset(org, userId) => Gated(d, u, OrDefault(org), ActSendReset(userId))
    case CreateGroup(org, name) => Gated(d, u, org, ActCreateGroup(org, name))
    case JoinGroup(org, userId, groupId) =>
      Gated(d, u, OrDefault(org), ActJoinGroup(userId, groupId, Assigner(d, u, OrDefault(org))))
    case LeaveGroup(org, userId, groupId) => Gated(d, u, OrDefault(org), ActLeaveGroup(userId, groupId))
    case CreatePolicy(org, name, resource, action, effect) =>
      Gated(d, u, org, ActCreatePolicy(org, name, resource, action, effect))
    case ListOrganizations =>
      if IsGlobalSuperadmin(u) then OnOrganizations(OrgList(None))
      else
        (match OwnOrganization(d, u)
         case Err(e) => Refuse(e)
         case Ok(_) => OnOrganizations(OrgList(Some(u.namespace))))
    case CreateOrganization(name, ns) =>
      if IsGlobalSuperadmin(u) then OnOrganizations(OrgCreate(name, ns)) else Refuse(Forbidden)
    case RotateKey(id) => if IsGlobalSuperadmin(u) then OnOrganizations(OrgRotate(id)) else Refuse(Forbidden)
    case DeleteOrganization(id) => if IsGlobalSuperadmin(u) then OnOrganizations(OrgDelete(id)) else Refuse(Forbidden)
    case _ => Refuse(Forbidden)
  }

  function PlanCall(d: Db, u: AuthenticatedUser, call: Call): Plan {
    match call
    case RefreshToken => InSchema(u.namespace, ActRefresh(u.userId))
    case ChangePassword(current, new_) => InSchema(u.namespace, ActChangePassword(u.userId, current, new_))
    case EditProfile(email, username) => InSchema(u.namespace, ActUpdateUser(u.userId, email, username, None))
    case ReadOwnKey =>
      if !IsAdmin(u) then Refuse(Forbidden)
      else
        (match OwnOrganization(d, u) case Err(e) => Refuse(e) case Ok(o) => OnOrganizations(OrgShow(o.organizationId)))
    case RotateOwnKey =>
      if u.namespace !in d.schemas || u.userId !in d.schemas[u.namespace].users then Refuse(Unauthorized)
      else if d.schemas[u.namespace].users[u.userId].organizationId == 0 || !IsAdmin(u) then Refuse(Forbidden)
      else
        (match OwnOrganization(d, u) case Err(e) => Refuse(e) case Ok(o) =>
         OnOrganizations(OrgRotate(o.organizationId)))
    case _ => if IsAdmin(u) then PlanAdminCall(d, u, call) else Refuse(Forbidden)
  }

  /** The organization a registration is bound to. */
  function RegistrationOrganization(orgs: map<int, Organization>, ns: string, requested: Option<int>,
                                    q: Planner): Result<int, Error> {
    var owner := FindByNamespace(orgs, ns, q);
    match requested
    case Some(id) => if owner.Some? && owner.value.organizationId != id then Err(OrganizationMismatch) else Ok(id)
    case None =>
      if ns == C.DEFAULT_NAMESPACE then Ok(C.DEFAULT_ORGANIZATION_ID)
      else if owner.Some? then Ok(owner.value.organizationId)
      else Err(OrganizationNotFound)
  }

  function PlanOf(w: World, r: Request, e: Env): Plan {
    match r
    case Register(ns, org, email, username, password, group) =>
      (match RegistrationOrganization(w.db.orgs, ns, org, e.planner)
       case Err(err) => Refuse(err)
       case Ok(id) => InSchema(ns, ActRegister(id, email, username, password, group)))
    case Login(ns, identity, password) => InSchema(ns, ActLogin(identity, password))
    case ForgotPassword(ns, email) => InSchema(ns, ActForgotPassword(email))
    case ResetPassword(ns, token, new_) => InSchema(ns, ActResetPassword(token, new_))
    case CleanupTokens(ns) => InSchema(ns, ActCleanup)
    case CheckPermission(Key(key), userId, resource, action) =>
      (match FindBySecretKey(w.db.orgs, key, e.planner)
       case None => Refuse(Unauthorized)
       case Some(o) => InSchema(o.namespace, ActCheckPermission(Some(o.organizationId), userId, resource, action)))
    case CheckPermission(Token(token), userId, resource, action) =>
      if Accepts(w, token, e.now) && IsGlobalSuperadmin(FromClaims(token))
      then InSchema(token.namespace, ActCheckPermission(None, userId, resource, action))
      else Refuse(Unauthorized)
    case Bearer(token, call) =>
      if Accepts(w, token, e.now) then PlanCall(w.db, FromClaims(token), call) else Refuse(Unauthorized)
  }

  // ----- what it does

  function Reply<T>(t: Tables, out: Result<T, Error>, f: T -> Answer): Tx<Answer> {
    Tx(t, match out case Ok(x) => Ok(f(x)) case Err(e) => Err(e))
  }

  function Perform(t: Tables, orgs: set<int>, ns: string, act: Act, e: Env): Tx<Answer> {
    match act
    case ActRegister(org, email, username, password, group) =>
      var x := Accounts.Register(t, orgs, ns, org, email, username, password, group, e);
        Reply(x.t, x.out, a => LoggedIn(a))
    case ActLogin(identity, password) => Reply(t, Accounts.Login(t, ns, identity, password, e), a => LoggedIn(a))
    case ActForgotPassword(email) => var x := Accounts.ForgotPassword(t, email, e); Reply(x.t, x.out, a => ResetLink(a))
    case ActResetPassword(token, new_) => var x := Accounts.ResetPassword(t, token, new_, e);
      Reply(x.t, x.out, a => Done)
    case ActCleanup => var x := CleanupExpiredTokens(t, e.now); Reply(x.t, x.out, a => Done)
    case ActCheckPermission(caller, userId, resource, action) =>
      Reply(t, Decisions.CheckPermission(t, caller, userId, resource, action, e.planner), a => Decision(a))
    case ActRefresh(userId) => Reply(t, Accounts.RefreshTokenForUser(t, ns, userId, e), a => FreshToken(a))
    case ActChangePassword(userId, current, new_) =>
      var x := Accounts.ChangePassword(t, userId, current, new_); Reply(x.t, x.out, a => Done)
    case ActUpdateUser(userId, email, username, firstLogin) =>
      var x := Accounts.UpdateUser(t, ns, userId, email, username, firstLogin, e.planner);
        Reply(x.t, x.out, a => UserShown(a))
    case ActCreateUser(form, adminId) =>
      var x := Accounts.CreateUser(t, orgs, ns, form, adminId, e.planner); Reply(x.t, x.out, a => UserShown(a))
    case ActDeleteUser(userId) => var x := EraseUser(t, userId); Reply(x.t, x.out, a => Done)
    case ActResetUserPassword(userId) =>
      var x := Accounts.ResetUserPassword(t, userId, e.temporaryPassword); Reply(x.t, x.out, a => TemporaryPassword(a))
    case ActSendReset(userId) => var x := Accounts.SendReset(t, userId, e); Reply(x.t, x.out, a => ResetLink(a))
    case ActCreateGroup(org, name) =>
      var x := Accounts.CreateGroup(t, orgs, ns, name, org, e.planner); Reply(x.t, x.out, a => GroupShown(a))
    case ActJoinGroup(userId, groupId, assignedBy) =>
      var x := Accounts.JoinGroup(t, ns, userId, groupId, assignedBy); Reply(x.t, x.out, a => Done)
    case ActLeaveGroup(userId, groupId) => var x := RemoveUserFromGroup(t, userId, groupId);
      Reply(x.t, x.out, a => Done)
    case ActCreatePolicy(org, name, resource, action, effect) =>
      var x := Accounts.CreatePolicy(t, orgs, name, org, resource, action, effect);
        Reply(x.t, x.out, a => PolicyShown(a))
  }

  /** The default groups of a new organization, each inserted when missing. */
  function SeedGroups(t: Tables, orgs: set<int>, names: seq<string>, organizationId: int, q: Planner): Tx<()>
    decreases |names|
  {
    if names == [] then Tx(t, Ok(()))
    else if FindGroupByName(t, names[0], organizationId, q).Some? then SeedGroups(t, orgs, names[1..], organizationId,
      q)
    else
      var x := InsertGroup(t, orgs, names[0], organizationId);
      match x.out case Err(e) => Tx(x.t, Err(e)) case Ok(_) => SeedGroups(x.t, orgs, names[1..], organizationId, q)
  }

  const DEFAULT_GROUPS := [C.ADMIN_GROUP, C.USERS_GROUP]

  function CreateOrg(d: Db, name: string, ns: string, e: Env): Ran<Organization> {
    if NameTaken(d.orgs, name) then Ran(d, Err(OrganizationExists))
    else if !Quoting.NamespaceText(ns) then Ran(d, Err(InvalidNamespace))
    else
      var x := InsertOrganization(d, name, ns, e.key);
      match x.out
      case Err(err) => x
      case Ok(o) =>
        var y := SeedGroups(x.db.schemas[ns], x.db.orgs.Keys, DEFAULT_GROUPS, o.organizationId, e.planner);
        Ran(x.db.(schemas := x.db.schemas[ns := y.t]), match y.out case Ok(_) => Ok(o) case Err(err) => Err(err))
  }

  function PerformOrg(d: Db, act: OrgAct, e: Env): Ran<Answer> {
    match act
    case OrgShow(id) =>
      Ran(d, match FindById(d.orgs, id) case None => Err(OrganizationNotFound) case Some(o) => Ok(OrganizationShown(o)))
    case OrgList(ns) =>
      Ran(d, Ok(OrganizationsShown(set o | o in d.orgs.Values && (ns.Some? ==> o.namespace == ns.value))))
    case OrgCreate(name, ns) =>
      var x := CreateOrg(d, name, ns, e);
      Ran(x.db, match x.out case Ok(o) => Ok(OrganizationShown(o)) case Err(err) => Err(err))
    case OrgRotate(id) =>
      var x := RotateSecretKey(d, id, e.key);
      Ran(x.db, match x.out case Ok(k) => Ok(NewKey(id, k)) case Err(err) => Err(err))
    case OrgDelete(id) =>
      var x := Organizations.DeleteOrganization(d, id);
      Ran(x.db, match x.out case Ok(_) => Ok(Done) case Err(err) => Err(err))
  }

  function Execute(d: Db, plan: Plan, e: Env): Ran<Answer> {
    match plan
    case Refuse(err) => Ran(d, Err(err))
    case InSchema(ns, act) =>
      if ns !in d.schemas then Ran(d, Err(Database))
      else
        var x := Perform(d.schemas[ns], d.orgs.Keys, ns, act, e);
        Ran(d.(schemas := d.schemas[ns := x.t]), x.out)
    case OnOrganizations(act) => PerformOrg(d, act, e)
  }

  function Minted(a: Answer): set<Jwt.Claims> {
    match a
    case LoggedIn(auth) => {auth.token}
    case FreshToken(token) => {token}
    case _ => {}
  }

  function AnswerOf(out: Result<Answer, Error>): Answer {
    match out case Ok(a) => a case Err(e) => Failed(e)
  }

  function Apply(w: World, r: Request, e: Env): (World, Answer) {
    var x := Execute(w.db, PlanOf(w, r, e), e);
    var a := AnswerOf(x.out);
    (World(x.db, e.now, w.issued + Minted(a), w.resetTokens + {e.resetToken}, w.keys + {e.key}), a)
  }

  // ----- runs

  datatype Event = Event(request: Request, env: Env)

  /** The clock does not run backwards and random values are new. */
  predicate Admissible(w: World, e: Env) {
    w.now <= e.now && e.resetToken !in w.resetTokens && e.key !in w.keys
  }

  predicate Step(w: World, ev: Event, w': World, a: Answer) {
    Admissible(w, ev.env) && (w', a) == Apply(w, ev.request, ev.env)
  }

  datatype Trace = Trace(worlds: seq<World>, events: seq<Event>, answers: seq<Answer>)

  ghost predicate IsRun(tr: Trace) {
    && |tr.worlds| == |tr.events| + 1 && |tr.answers| == |tr.events|
    && forall i | 0 <= i < |tr.events| :: Step(tr.worlds[i], tr.events[i], tr.worlds[i + 1], tr.answers[i])
  }
}
