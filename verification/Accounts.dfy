/** What src/services/user_service.rs and src/services/group_service.rs do to the tables of one namespace,
    a whole request at a time. */
module Accounts {
  import opened Wrappers
  import opened Text
  import opened Environment
  import opened Tables
  import C = Constants
  import Email
  import Jwt

  datatype UserResponse = UserResponse(
    userId: int, email: string, username: string, groups: seq<string>, firstLogin: bool, organizationId: int,
    namespace: string)

  datatype AuthResponse = AuthResponse(user: UserResponse, token: Jwt.Claims, requiresPasswordChange: bool)

  datatype UserForm = UserForm(
    organizationId: int, email: string, username: string, password: string, groups: seq<string>, firstLogin: bool)

  function Names(groups: seq<Group>): seq<string> {
    seq(|groups|, i requires 0 <= i < |groups| => groups[i].name)
  }

  function GetUserGroupNames(t: Tables, userId: int, q: Planner): seq<string> {
    Names(GetUserGroups(t, userId, q))
  }

  function Respond(t: Tables, u: User, ns: string, q: Planner): UserResponse {
    UserResponse(u.userId, u.email, u.username, GetUserGroupNames(t, u.userId, q), u.firstLogin, u.organizationId, ns)
  }

  function TokenFor(r: UserResponse, now: Instant): Jwt.Claims {
    Jwt.NewClaims(Jwt.Identity(r.userId, r.email, r.username, r.groups, r.namespace, r.organizationId), Jwt.ISSUER,
                  Seconds(now))
  }

  function Session(r: UserResponse, now: Instant): AuthResponse {
    AuthResponse(r, TokenFor(r, now), r.firstLogin)
  }

  predicate Verifies(password: string, hash: PasswordHash) {
    hash == Argon2(password)
  }

  // ----- creating users

  /** One round of the resolving loop. */
  function ResolveOne(t: Tables, orgs: set<int>, group: string, organizationId: int, q: Planner): Tx<int> {
    var name := Trim(group);
    match FindGroupByName(t, name, organizationId, q)
    case Some(g) => Tx(t, Ok(g.groupId))
    case None =>
      if name == C.USERS_GROUP || name == C.ADMIN_GROUP then
        var x := InsertGroup(t, orgs, name, organizationId);
        Tx(x.t, match x.out case Ok(g) => Ok(g.groupId) case Err(e) => Err(e))
      else Tx(t, Err(InvalidGroup(name)))
  }

  function ResolveAll(t: Tables, orgs: set<int>, groups: seq<string>, organizationId: int, q: Planner): Tx<seq<int>>
    decreases |groups|
  {
    if groups == [] then Tx(t, Ok([]))
    else
      var x := ResolveOne(t, orgs, groups[0], organizationId, q);
      match x.out
      case Err(e) => Tx(x.t, Err(e))
      case Ok(id) =>
        var rest := ResolveAll(x.t, orgs, groups[1..], organizationId, q);
        Tx(rest.t, match rest.out case Ok(ids) => Ok([id] + ids) case Err(e) => Err(e))
  }

  predicate ReservedIn(ns: string, group: string) {
    ns != C.DEFAULT_NAMESPACE && C.IsSuperadminName(group)
  }

  function OrUsers(groups: seq<string>): seq<string> {
    if groups == [] then [C.USERS_GROUP] else groups
  }

  function ResolveGroupIds(t: Tables, orgs: set<int>, ns: string, groups: seq<string>, organizationId: int,
                           q: Planner): Tx<seq<int>> {
    if exists i | 0 <= i < |groups| :: ReservedIn(ns, groups[i]) then Tx(t, Err(SuperadminReserved))
    else ResolveAll(t, orgs, OrUsers(groups), organizationId, q)
  }

  function AssignAll(t: Tables, userId: int, groupIds: seq<int>, assignedBy: Option<int>): Tx<()>
    decreases |groupIds|
  {
    if groupIds == [] then Tx(t, Ok(()))
    else
      var x := AssignUserToGroup(t, userId, groupIds[0], assignedBy);
      if x.out.Err? then x else AssignAll(x.t, userId, groupIds[1..], assignedBy)
  }

  /** The part of `create_user` behind the resolved group ids. */
  function Enroll(t: Tables, orgs: set<int>, ns: string, f: UserForm, groupIds: seq<int>, adminId: Option<int>,
                  q: Planner): Tx<UserResponse> {
    var x := InsertUser(t, orgs, NewUser(f.organizationId, f.email, f.username, Argon2(f.password), f.firstLogin));
    match x.out
    case Err(e) => Tx(x.t, Err(e))
    case Ok(u) =>
      var y := AssignAll(x.t, u.userId, groupIds, adminId);
      match y.out
      case Err(e) => Tx(y.t, Err(e))
      case Ok(_) => Tx(y.t, Ok(Respond(y.t, u, ns, q)))
  }

  function CreateUser(t: Tables, orgs: set<int>, ns: string, f: UserForm, adminId: Option<int>,
                      q: Planner): Tx<UserResponse> {
    if FindByEmail(t, f.email, q).Some? then Tx(t, Err(EmailTaken))
    else if FindByUsername(t, f.username, q).Some? then Tx(t, Err(UsernameTaken))
    else
      var x := ResolveGroupIds(t, orgs, ns, f.groups, f.organizationId, q);
      match x.out
      case Err(e) => Tx(x.t, Err(e))
      case Ok(ids) => Enroll(x.t, orgs, ns, f, ids, adminId, q)
  }

  /** The groups a registration asks for: the caller's choice unless privileged, else the bootstrap groups of an
      empty namespace, else none. */
  function RegistrationGroups(ns: string, group: Option<string>, userCount: int): Result<seq<string>, Error> {
    match group
    case Some(g) => if C.IsPrivilegedGroup(g) then Err(PrivilegedGroup(g)) else Ok([g])
    case None =>
      if userCount == 0 then
        Ok([if ns == C.DEFAULT_NAMESPACE then C.SUPERADMIN_GROUP else C.ADMIN_GROUP, C.USERS_GROUP])
      else Ok([])
  }

  function Register(t: Tables, orgs: set<int>, ns: string, organizationId: int, email: string, username: string,
                    password: string, group: Option<string>, e: Env): Tx<AuthResponse> {
    match RegistrationGroups(ns, group, |t.users|)
    case Err(err) => Tx(t, Err(err))
    case Ok(groups) =>
      if !Email.IsEmail(email) then Tx(t, Err(InvalidEmail))
      else if !Email.IsPassword(password) then Tx(t, Err(PasswordTooShort))
      else
        var x := CreateUser(t, orgs, ns, UserForm(organizationId, email, username, password, groups, false), None,
                            e.planner);
        Tx(x.t, match x.out case Ok(r) => Ok(Session(r, e.now)) case Err(err) => Err(err))
  }

  // ----- sessions

  function FindByIdentity(t: Tables, identity: string, q: Planner): Option<User> {
    if Email.IsEmail(identity) then FindByEmail(t, identity, q) else FindByUsername(t, identity, q)
  }

  function Login(t: Tables, ns: string, identity: string, password: string, e: Env): Result<AuthResponse, Error> {
    match FindByIdentity(t, identity, e.planner)
    case None => Err(InvalidCredentials)
    case Some(u) =>
      if u.passwordHash == Unparsable then Err(InvalidStoredHash)
      else if !Verifies(password, u.passwordHash) then Err(InvalidCredentials)
      else Ok(Session(Respond(t, u, ns, e.planner), e.now))
  }

  function RefreshTokenForUser(t: Tables, ns: string, userId: int, e: Env): Result<Jwt.Claims, Error> {
    match FindUser(t, userId)
    case None => Err(UserNotFound)
    case Some(u) => Ok(TokenFor(Respond(t, u, ns, e.planner), e.now))
  }

  // ----- passwords

  function ChangePassword(t: Tables, userId: int, current: string, new_: string): Tx<()> {
    match FindUser(t, userId)
    case None => Tx(t, Err(UserNotFound))
    case Some(u) =>
      if u.passwordHash == Unparsable then Tx(t, Err(InvalidStoredHash))
      else if !Verifies(current, u.passwordHash) then Tx(t, Err(WrongPassword))
      else if !Email.IsPassword(new_) then Tx(t, Err(PasswordTooShort))
      else SetFirstLogin(UpdatePassword(t, userId, Argon2(new_)).t, userId, false)
  }

  function ForgotPassword(t: Tables, email: string, e: Env): Tx<string> {
    match FindByEmail(t, email, e.planner)
    case None => Tx(t, Err(EmailNotFound))
    case Some(u) =>
      var x := CreateResetToken(t, u.userId, e.resetToken, e.now + DAY);
      Tx(x.t, match x.out case Ok(r) => Ok(r.token) case Err(err) => Err(err))
  }

  /** The admin route: the row is found by id and its e-mail goes through `forgot_password`. */
  function SendReset(t: Tables, userId: int, e: Env): Tx<string> {
    match FindUser(t, userId)
    case None => Tx(t, Err(UserNotFound))
    case Some(u) => ForgotPassword(t, u.email, e)
  }

  function ResetPassword(t: Tables, token: string, new_: string, e: Env): Tx<()> {
    match FindValidToken(t, token, e)
    case None => Tx(t, Err(InvalidResetToken))
    case Some(r) =>
      if Utf8Length(new_) < C.MIN_PASSWORD_LENGTH then Tx(t, Err(PasswordTooShort))
      else MarkTokenUsed(UpdatePassword(t, r.userId, Argon2(new_)).t, r.tokenId, e.now)
  }

  /** A missing user is no error: nothing is updated and the temporary password is returned all the same. */
  function ResetUserPassword(t: Tables, userId: int, temporary: string): Tx<string> {
    Tx(SetFirstLogin(UpdatePassword(t, userId, Argon2(temporary)).t, userId, true).t, Ok(temporary))
  }

  // ----- profiles

  function UpdateUser(t: Tables, ns: string, userId: int, email: Option<string>, username: Option<string>,
                      firstLogin: Option<bool>, q: Planner): Tx<UserResponse> {
    match FindUser(t, userId)
    case None => Tx(t, Err(UserNotFound))
    case Some(u) =>
      if email.Some? && !Email.IsEmail(email.value) then Tx(t, Err(InvalidEmail))
      else
        var u := u.(email := if email.Some? then email.value else u.email,
                    username := if username.Some? then username.value else u.username);
        var x := UpdateProfile(t, u.userId, u.email, u.username);
        match x.out
        case Err(err) => Tx(x.t, Err(err))
        case Ok(_) =>
          match firstLogin
          case None => Tx(x.t, Ok(Respond(x.t, u, ns, q)))
          case Some(b) =>
            var y := SetFirstLogin(x.t, u.userId, b);
            Tx(y.t, Ok(Respond(y.t, u.(firstLogin := b), ns, q)))
  }

  // ----- groups and policies

  function CreateGroup(t: Tables, orgs: set<int>, ns: string, name: string, organizationId: int,
                       q: Planner): Tx<Group> {
    if ReservedIn(ns, name) then Tx(t, Err(SuperadminReserved))
    else if FindGroupByName(t, name, organizationId, q).Some? then Tx(t, Err(GroupExists))
    else InsertGroup(t, orgs, name, organizationId)
  }

  function JoinGroup(t: Tables, ns: string, userId: int, groupId: int, assignedBy: Option<int>): Tx<()> {
    match FindGroup(t, groupId)
    case None => Tx(t, Err(GroupNotFound))
    case Some(g) =>
      if ReservedIn(ns, g.name) then Tx(t, Err(SuperadminReserved))
        else AssignUserToGroup(t, userId, groupId, assignedBy)
  }

  function GrantToUser(t: Tables, userId: int, policyId: int, assignedBy: Option<int>): Tx<()> {
    if FindPolicy(t, policyId).None? then Tx(t, Err(PolicyNotFound))
      else AssignPolicyToUser(t, userId, policyId, assignedBy)
  }

  function GrantToGroup(t: Tables, groupId: int, policyId: int, assignedBy: Option<int>): Tx<()> {
    if FindPolicy(t, policyId).None? then Tx(t, Err(PolicyNotFound))
      else AssignPolicyToGroup(t, groupId, policyId, assignedBy)
  }

  function CreatePolicy(t: Tables, orgs: set<int>, name: string, organizationId: int, resource: string, action: string,
                        effect: Effect): Tx<Policy> {
    if PolicyRows(t, name, organizationId) != {} then Tx(t, Err(PolicyExists))
    else if resource == [] || action == [] then Tx(t, Err(EmptyPattern))
    else InsertPolicy(t, orgs, name, organizationId, resource, action, effect)
  }
}
