/** Requests taken apart: one repository transaction at a time, with the request's own variables in between. */
module Steps {
  import opened Wrappers
  import opened Text
  import opened Environment
  import opened Tables
  import opened Requests
  import C = Constants
  import Accounts
  import Decisions
  import Email

  /** What `create_user`, `login`, `refresh_token_for_user` and the profile updates do with the group names they read
      last. */
  datatype Purpose = ToShow | ToLogIn | ToRefresh

  /** The requests that are one transaction. */
  type SingleAct = act: Act | act.ActCleanup? || act.ActDeleteUser? || act.ActLeaveGroup? witness ActCleanup

  /** A request waiting for its next transaction, with the values of its variables. */
  datatype Local =
    | Finished(out: Result<Answer, Error>)
    | OneShot(single: SingleAct)
    | CountUsers(form: Accounts.UserForm, group: Option<string>)
    | SeekEmail(form: Accounts.UserForm, adminId: Option<int>, purpose: Purpose)
    | SeekUsername(form: Accounts.UserForm, adminId: Option<int>, purpose: Purpose)
    | SeekGroup(form: Accounts.UserForm, adminId: Option<int>, purpose: Purpose, wanted: seq<string>, found: seq<int>)
    | AddGroup(form: Accounts.UserForm, adminId: Option<int>, purpose: Purpose, wanted: seq<string>, found: seq<int>)
    | AddUser(form: Accounts.UserForm, adminId: Option<int>, purpose: Purpose, groupIds: seq<int>)
    | AddMember(user: User, adminId: Option<int>, purpose: Purpose, groupIds: seq<int>)
    | ReadGroups(user: User, purpose: Purpose)
    | SeekIdentity(identity: string, password: string)
    | SeekSession(userId: int)
    | SeekResetToken(token: string, newPassword: string)
    | WriteResetPassword(row: ResetToken, newPassword: string)
    | MarkResetToken(row: ResetToken)
    | SeekPasswordOwner(userId: int, current: string, newPassword: string)
    | WritePassword(userId: int, newPassword: string, temporary: bool)
    | WriteFlag(userId: int, newPassword: string, temporary: bool)
    | SeekProfile(userId: int, newEmail: Option<string>, newUsername: Option<string>, firstLogin: Option<bool>)
    | WriteProfile(user: User, firstLogin: Option<bool>)
    | WriteProfileFlag(user: User, flag: bool)
    | SeekResetUser(userId: int)
    | SeekResetEmail(email: string)
    | AddResetToken(userId: int)
    | SeekGroupName(organizationId: int, name: string)
    | AddNamedGroup(organizationId: int, name: string)
    | SeekJoinedGroup(userId: int, groupId: int, assignedBy: Option<int>)
    | AddJoin(userId: int, groupId: int, assignedBy: Option<int>)
    | SeekPolicyName(organizationId: int, name: string, resource: string, action: string, effect: Effect)
    | AddPolicy(organizationId: int, name: string, resource: string, action: string, effect: Effect)
    | SeekSubject(caller: Option<int>, userId: int, resource: string, action: string)
    | ReadPolicies(userId: int, resource: string, action: string)

  function Failure(e: Error): Local { Finished(Err(e)) }

  /** The request up to its first transaction. */
  function Start(ns: string, act: Act, e: Env): Local {
    match act
    case ActRegister(org, email, username, password, group) =>
      CountUsers(Accounts.UserForm(org, email, username, password, [], false), group)
    case ActLogin(identity, password) => SeekIdentity(identity, password)
    case ActForgotPassword(email) => SeekResetEmail(email)
    case ActResetPassword(token, new_) => SeekResetToken(token, new_)
    case ActCheckPermission(caller, userId, resource, action) => SeekSubject(caller, userId, resource, action)
    case ActRefresh(userId) => SeekSession(userId)
    case ActChangePassword(userId, current, new_) => SeekPasswordOwner(userId, current, new_)
    case ActUpdateUser(userId, email, username, firstLogin) => SeekProfile(userId, email, username, firstLogin)
    case ActCreateUser(form, adminId) => SeekEmail(form, adminId, ToShow)
    case ActResetUserPassword(userId) => WritePassword(userId, e.temporaryPassword, true)
    case ActSendReset(userId) => SeekResetUser(userId)
    case ActCreateGroup(org, name) =>
      if Accounts.ReservedIn(ns, name) then Failure(SuperadminReserved) else SeekGroupName(org, name)
    case ActJoinGroup(userId, groupId, assignedBy) => SeekJoinedGroup(userId, groupId, assignedBy)
    case ActCreatePolicy(org, name, resource, action, effect) => SeekPolicyName(org, name, resource, action, effect)
    case ActCleanup => OneShot(act)
    case ActDeleteUser(_) => OneShot(act)
    case ActLeaveGroup(_, _) => OneShot(act)
  }

  /** `register` behind the count: which groups to ask for, then the two validated values. */
  function Counted(ns: string, form: Accounts.UserForm, group: Option<string>, userCount: int): Local {
    match Accounts.RegistrationGroups(ns, group, userCount)
    case Err(err) => Failure(err)
    case Ok(groups) =>
      if !Email.IsEmail(form.email) then Failure(InvalidEmail)
      else if !Email.IsPassword(form.password) then Failure(PasswordTooShort)
      else SeekEmail(form.(groups := groups), None, ToLogIn)
  }

  /** `resolve_group_ids` up to its loop. */
  function Resolving(ns: string, form: Accounts.UserForm, adminId: Option<int>, purpose: Purpose): Local {
    if exists i | 0 <= i < |form.groups| :: Accounts.ReservedIn(ns, form.groups[i]) then Failure(SuperadminReserved)
    else SeekGroup(form, adminId, purpose, Accounts.OrUsers(form.groups), [])
  }

  /** The head of the resolving loop. */
  function NextGroup(form: Accounts.UserForm, adminId: Option<int>, purpose: Purpose, wanted: seq<string>,
                     found: seq<int>): Local {
    if wanted == [] then AddUser(form, adminId, purpose, found) else SeekGroup(form, adminId, purpose, wanted, found)
  }

  /** The head of the assigning loop. */
  function NextMember(user: User, adminId: Option<int>, purpose: Purpose, groupIds: seq<int>): Local {
    if groupIds == [] then ReadGroups(user, purpose) else AddMember(user, adminId, purpose, groupIds)
  }

  function Deliver(r: Accounts.UserResponse, purpose: Purpose, now: Instant): Answer {
    match purpose
    case ToShow => UserShown(r)
    case ToLogIn => LoggedIn(Accounts.Session(r, now))
    case ToRefresh => FreshToken(Accounts.TokenFor(r, now))
  }

  /** One transaction, and what the request does until the next. */
  function Advance(t: Tables, orgs: set<int>, ns: string, l: Local, e: Env): (Tables, Local) {
    match l
    case Finished(_) => (t, l)
    case OneShot(act) => var x := Perform(t, orgs, ns, act, e); (x.t, Finished(x.out))
    case CountUsers(form, group) => (t, Counted(ns, form, group, |t.users|))
    case SeekEmail(form, adminId, purpose) =>
      (t, if FindByEmail(t, form.email, e.planner).Some? then Failure(EmailTaken)
       else SeekUsername(form, adminId, purpose))
    case SeekUsername(form, adminId, purpose) =>
      (t, if FindByUsername(t, form.username, e.planner).Some? then Failure(UsernameTaken)
       else Resolving(ns, form, adminId, purpose))
    case SeekGroup(form, adminId, purpose, wanted, found) =>
      if wanted == [] then (t, AddUser(form, adminId, purpose, found))
      else
        var name := Trim(wanted[0]);
        (match FindGroupByName(t, name, form.organizationId, e.planner)
         case Some(g) => (t, NextGroup(form, adminId, purpose, wanted[1..], found + [g.groupId]))
         case None =>
           if name == C.USERS_GROUP || name == C.ADMIN_GROUP then (t, AddGroup(form, adminId, purpose, wanted, found))
           else (t, Failure(InvalidGroup(name))))
    case AddGroup(form, adminId, purpose, wanted, found) =>
      if wanted == [] then (t, AddUser(form, adminId, purpose, found))
      else
        var x := InsertGroup(t, orgs, Trim(wanted[0]), form.organizationId);
        (x.t, match x.out case Ok(g) =>
         NextGroup(form, adminId, purpose, wanted[1..], found + [g.groupId]) case Err(err) => Failure(err))
    case AddUser(f, adminId, purpose, ids) =>
      var x := InsertUser(t, orgs, NewUser(f.organizationId, f.email, f.username, Argon2(f.password), f.firstLogin));
      (x.t, match x.out case Ok(u) => NextMember(u, adminId, purpose, ids) case Err(err) => Failure(err))
    case AddMember(user, adminId, purpose, ids) =>
      if ids == [] then (t, ReadGroups(user, purpose))
      else
        var x := AssignUserToGroup(t, user.userId, ids[0], adminId);
        (x.t, match x.out case Ok(_) => NextMember(user, adminId, purpose, ids[1..]) case Err(err) => Failure(err))
    case ReadGroups(user, purpose) =>
      (t, Finished(Ok(Deliver(Accounts.Respond(t, user, ns, e.planner), purpose, e.now))))
    case SeekIdentity(identity, password) =>
      (t, match Accounts.FindByIdentity(t, identity, e.planner)
          case None => Failure(InvalidCredentials)
          case Some(u) =>
            if u.passwordHash == Unparsable then Failure(InvalidStoredHash)
            else if !Accounts.Verifies(password, u.passwordHash) then Failure(InvalidCredentials)
            else ReadGroups(u, ToLogIn))
    case SeekSession(userId) =>
      (t, match FindUser(t, userId) case None => Failure(UserNotFound) case Some(u) => ReadGroups(u, ToRefresh))
    case SeekResetToken(token, new_) =>
      (t, match FindValidToken(t, token, e)
          case None => Failure(InvalidResetToken)
          case Some(r) =>
            if Utf8Length(new_) < C.MIN_PASSWORD_LENGTH then Failure(PasswordTooShort) else WriteResetPassword(r, new_))
    case WriteResetPassword(r, new_) => (UpdatePassword(t, r.userId, Argon2(new_)).t, MarkResetToken(r))
    case MarkResetToken(r) => (MarkTokenUsed(t, r.tokenId, e.now).t, Finished(Ok(Done)))
    case SeekPasswordOwner(userId, current, new_) =>
      (t, match FindUser(t, userId)
          case None => Failure(UserNotFound)
          case Some(u) =>
            if u.passwordHash == Unparsable then Failure(InvalidStoredHash)
            else if !Accounts.Verifies(current, u.passwordHash) then Failure(WrongPassword)
            else if !Email.IsPassword(new_) then Failure(PasswordTooShort)
            else WritePassword(userId, new_, false))
    case WritePassword(userId, new_, temporary) =>
      (UpdatePassword(t, userId, Argon2(new_)).t, WriteFlag(userId, new_, temporary))
    case WriteFlag(userId, new_, temporary) =>
      (SetFirstLogin(t, userId, temporary).t, Finished(Ok(if temporary then TemporaryPassword(new_) else Done)))
    case SeekProfile(userId, email, username, firstLogin) =>
      (t, match FindUser(t, userId)
          case None => Failure(UserNotFound)
          case Some(u) =>
            if email.Some? && !Email.IsEmail(email.value) then Failure(InvalidEmail)
            else WriteProfile(u.(email := if email.Some? then email.value else u.email,
                                 username := if username.Some? then username.value else u.username), firstLogin))
    case WriteProfile(u, firstLogin) =>
      var x := UpdateProfile(t, u.userId, u.email, u.username);
      (x.t, if x.out.Err? then Failure(x.out.error)
            else if firstLogin.Some? then WriteProfileFlag(u, firstLogin.value)
            else ReadGroups(u, ToShow))
    case WriteProfileFlag(u, flag) => (SetFirstLogin(t, u.userId, flag).t, ReadGroups(u.(firstLogin := flag), ToShow))
    case SeekResetUser(userId) =>
      (t, match FindUser(t, userId) case None => Failure(UserNotFound) case Some(u) => SeekResetEmail(u.email))
    case SeekResetEmail(email) =>
      (t, match FindByEmail(t, email, e.planner) case None => Failure(EmailNotFound) case Some(u) =>
       AddResetToken(u.userId))
    case AddResetToken(userId) =>
      var x := CreateResetToken(t, userId, e.resetToken, e.now + DAY);
      (x.t, Finished(match x.out case Ok(r) => Ok(ResetLink(r.token)) case Err(err) => Err(err)))
    case SeekGroupName(org, name) =>
      (t, if FindGroupByName(t, name, org, e.planner).Some? then Failure(GroupExists) else AddNamedGroup(org, name))
    case AddNamedGroup(org, name) =>
      var x := InsertGroup(t, orgs, name, org);
      (x.t, Finished(match x.out case Ok(g) => Ok(GroupShown(g)) case Err(err) => Err(err)))
    case SeekJoinedGroup(userId, groupId, assignedBy) =>
      (t, match FindGroup(t, groupId)
          case None => Failure(GroupNotFound)
          case Some(g) =>
            if Accounts.ReservedIn(ns, g.name) then Failure(SuperadminReserved)
              else AddJoin(userId, groupId, assignedBy))
    case AddJoin(userId, groupId, assignedBy) =>
      var x := AssignUserToGroup(t, userId, groupId, assignedBy);
      (x.t, Finished(match x.out case Ok(_) => Ok(Done) case Err(err) => Err(err)))
    case SeekPolicyName(org, name, resource, action, effect) =>
      (t, if PolicyRows(t, name, org) != {} then Failure(PolicyExists)
          else if resource == [] || action == [] then Failure(EmptyPattern)
          else AddPolicy(org, name, resource, action, effect))
    case AddPolicy(org, name, resource, action, effect) =>
      var x := InsertPolicy(t, orgs, name, org, resource, action, effect);
      (x.t, Finished(match x.out case Ok(p) => Ok(PolicyShown(p)) case Err(err) => Err(err)))
    case SeekSubject(caller, userId, resource, action) =>
      (t, match FindUser(t, userId)
          case None => if caller.Some? then Finished(Ok(Decision(false))) else Failure(UserNotFound)
          case Some(u) =>
            if caller.Some? && u.organizationId != caller.value then Finished(Ok(Decision(false)))
            else ReadPolicies(userId, resource, action))
    case ReadPolicies(userId, resource, action) =>
      (t, Finished(match GetUserAllPolicies(t, userId, e.planner)
                   case Err(err) => Err(err)
                   case Ok(policies) => Ok(Decision(Decisions.Grants(Decisions.AsSet(policies), resource, action)))))
  }

  /** The statement a transaction writes with; most only query. */
  datatype Statement =
    | Query
    | Single(act: SingleAct)
    | InsertingGroup(name: string, organizationId: int)
    | InsertingUser(row: NewUser)
    | InsertingMember(userId: int, groupId: int, assignedBy: Option<int>)
    | InsertingPolicy(name: string, organizationId: int, resource: string, action: string, effect: Effect)
    | InsertingToken(userId: int)
    | UpdatingPassword(userId: int, hash: PasswordHash)
    | UpdatingFlag(userId: int, flag: bool)
    | UpdatingProfile(userId: int, email: string, username: string)
    | UpdatingToken(tokenId: int)

  function StatementOf(l: Local): Statement {
    match l
    case OneShot(act) => Single(act)
    case AddGroup(f, _, _, wanted, _) => if wanted == [] then Query
      else InsertingGroup(Trim(wanted[0]), f.organizationId)
    case AddUser(f, _, _, _) =>
      InsertingUser(NewUser(f.organizationId, f.email, f.username, Argon2(f.password), f.firstLogin))
    case AddMember(user, adminId, _, ids) => if ids == [] then Query else InsertingMember(user.userId, ids[0], adminId)
    case WriteResetPassword(r, new_) => UpdatingPassword(r.userId, Argon2(new_))
    case MarkResetToken(r) => UpdatingToken(r.tokenId)
    case WritePassword(userId, new_, _) => UpdatingPassword(userId, Argon2(new_))
    case WriteFlag(userId, _, temporary) => UpdatingFlag(userId, temporary)
    case WriteProfile(u, _) => UpdatingProfile(u.userId, u.email, u.username)
    case WriteProfileFlag(u, flag) => UpdatingFlag(u.userId, flag)
    case AddResetToken(userId) => InsertingToken(userId)
    case AddNamedGroup(org, name) => InsertingGroup(name, org)
    case AddJoin(userId, groupId, assignedBy) => InsertingMember(userId, groupId, assignedBy)
    case AddPolicy(org, name, resource, action, effect) => InsertingPolicy(name, org, resource, action, effect)
    case _ => Query
  }

  function Written(t: Tables, orgs: set<int>, ns: string, st: Statement, e: Env): Tables {
    match st
    case Query => t
    case Single(act) => Perform(t, orgs, ns, act, e).t
    case InsertingGroup(name, org) => InsertGroup(t, orgs, name, org).t
    case InsertingUser(n) => InsertUser(t, orgs, n).t
    case InsertingMember(userId, groupId, assignedBy) => AssignUserToGroup(t, userId, groupId, assignedBy).t
    case InsertingPolicy(name, org, resource, action, effect) =>
      InsertPolicy(t, orgs, name, org, resource, action, effect).t
    case InsertingToken(userId) => CreateResetToken(t, userId, e.resetToken, e.now + DAY).t
    case UpdatingPassword(userId, hash) => UpdatePassword(t, userId, hash).t
    case UpdatingFlag(userId, flag) => SetFirstLogin(t, userId, flag).t
    case UpdatingProfile(userId, email, username) => UpdateProfile(t, userId, email, username).t
    case UpdatingToken(tokenId) => MarkTokenUsed(t, tokenId, e.now).t
  }

  predicate WritesUsers(st: Statement) {
    st.InsertingUser? || st.UpdatingPassword? || st.UpdatingFlag? || st.UpdatingProfile?
  }

  predicate WritesTokens(st: Statement) { st.InsertingToken? || st.UpdatingToken? }

  lemma InsertUserTouches(t: Tables, orgs: set<int>, n: NewUser)
    ensures var t' := InsertUser(t, orgs, n).t; t' == t.(users := t'.users, nextUser := t'.nextUser)
  {
    hide ProfileFits;
  }

  lemma UpdateProfileTouches(t: Tables, userId: int, email: string, username: string)
    ensures var t' := UpdateProfile(t, userId, email, username).t; t' == t.(users := t'.users)
  {
    hide ProfileFits;
  }

  lemma FieldUpdatesTouch(t: Tables, userId: int, hash: PasswordHash, flag: bool)
    ensures var t' := UpdatePassword(t, userId, hash).t; t' == t.(users := t'.users)
    ensures var t' := SetFirstLogin(t, userId, flag).t; t' == t.(users := t'.users)
  {}

  lemma UserStatementsTouchUsers(t: Tables, orgs: set<int>, ns: string, st: Statement, e: Env)
    requires WritesUsers(st)
    ensures var t' := Written(t, orgs, ns, st, e); t' == t.(users := t'.users, nextUser := t'.nextUser)
  {
    hide InsertUser, UpdateProfile, UpdatePassword, SetFirstLogin, InsertGroup, InsertPolicy, AssignUserToGroup,
      CreateResetToken, MarkTokenUsed, Perform;
    match st {
      case InsertingUser(n) => InsertUserTouches(t, orgs, n);
      case UpdatingProfile(userId, email, username) => UpdateProfileTouches(t, userId, email, username);
      case UpdatingPassword(userId, hash) => FieldUpdatesTouch(t, userId, hash, false);
      case UpdatingFlag(userId, flag) => FieldUpdatesTouch(t, userId, Unparsable, flag);
    }
  }

  lemma TokenStatementsTouchTokens(t: Tables, orgs: set<int>, ns: string, st: Statement, e: Env)
    requires WritesTokens(st)
    ensures var t' := Written(t, orgs, ns, st, e); t' == t.(tokens := t'.tokens, nextToken := t'.nextToken)
  {}

  lemma OtherInsertsTouchTheirs(t: Tables, orgs: set<int>, ns: string, st: Statement, e: Env)
    ensures var t' := Written(t, orgs, ns, st, e);
            && (st.InsertingGroup? ==> t' == t.(groups := t'.groups, nextGroup := t'.nextGroup))
            && (st.InsertingMember? ==> t' == t.(members := t'.members))
            && (st.InsertingPolicy? ==> t' == t.(policies := t'.policies, nextPolicy := t'.nextPolicy))
  {
    hide GroupRows, Perform;
  }

  /** Each statement writes to one table. */
  lemma StatementTouches(t: Tables, orgs: set<int>, ns: string, st: Statement, e: Env)
    requires !st.Single?
    ensures var t' := Written(t, orgs, ns, st, e);
            if st.Query? then t' == t
            else if WritesUsers(st) then t' == t.(users := t'.users, nextUser := t'.nextUser)
            else if WritesTokens(st) then t' == t.(tokens := t'.tokens, nextToken := t'.nextToken)
            else if st.InsertingGroup? then t' == t.(groups := t'.groups, nextGroup := t'.nextGroup)
            else if st.InsertingMember? then t' == t.(members := t'.members)
            else t' == t.(policies := t'.policies, nextPolicy := t'.nextPolicy)
  {
    if st.Query? {
      assert Written(t, orgs, ns, st, e) == t;
    } else if WritesUsers(st) {
      UserStatementsTouchUsers(t, orgs, ns, st, e);
    } else if WritesTokens(st) {
      TokenStatementsTouchTokens(t, orgs, ns, st, e);
    } else {
      OtherInsertsTouchTheirs(t, orgs, ns, st, e);
    }
    hide Written;
  }

  lemma SingleIsPerformed(t: Tables, orgs: set<int>, ns: string, act: SingleAct, e: Env)
    ensures Written(t, orgs, ns, Single(act), e) == Perform(t, orgs, ns, act, e).t
  {
    hide Perform;
  }

  lemma CreationWrites(t: Tables, orgs: set<int>, ns: string, l: Local, e: Env)
    requires CreatesUser(l)
    ensures Advance(t, orgs, ns, l, e).0 == Written(t, orgs, ns, StatementOf(l), e)
  {
    hide FindByEmail, FindByUsername, FindGroupByName, InsertUser, InsertGroup, AssignUserToGroup, Trim, Resolving,
      Counted, Perform;
  }

  /** A transaction changes the tables by its statement alone. */
  lemma AdvanceWrites(t: Tables, orgs: set<int>, ns: string, l: Local, e: Env)
    ensures Advance(t, orgs, ns, l, e).0 == Written(t, orgs, ns, StatementOf(l), e)
  {
    hide Perform, Accounts.Respond, FindByEmail, FindValidToken, InsertGroup, Accounts.FindByIdentity,
      AssignUserToGroup, InsertPolicy, UpdateProfile, CreateResetToken, GetUserAllPolicies, PolicyRows, Email.IsEmail,
      Email.IsPassword, Accounts.ReservedIn, Utf8Length, Decisions.Grants, UpdatePassword, SetFirstLogin,
      MarkTokenUsed, FindGroupByName;
    if CreatesUser(l) {
      hide Advance, StatementOf, Written;
      CreationWrites(t, orgs, ns, l, e);
    }
  }

  predicate CreatesUser(l: Local) {
    l.CountUsers? || l.SeekEmail? || l.SeekUsername? || l.SeekGroup? || l.AddGroup? || l.AddUser? || l.AddMember?
  }

  /** How many transactions a request may still have before it. */
  function Left(l: Local): nat {
    match l
    case Finished(_) => 0
    case CountUsers(_, _) => 16
    case SeekEmail(form, _, _) => 9 + 3 * |form.groups|
    case SeekUsername(form, _, _) => 8 + 3 * |form.groups|
    case SeekGroup(_, _, _, wanted, found) => 4 + 3 * |wanted| + |found|
    case AddGroup(_, _, _, wanted, found) => 3 + 3 * |wanted| + |found| + (if wanted == [] then 1 else 0)
    case AddUser(_, _, _, ids) => 3 + |ids|
    case AddMember(_, _, _, ids) => 2 + |ids|
    case ReadGroups(_, _) => 1
    case SeekResetToken(_, _) => 3
    case WriteResetPassword(_, _) => 2
    case SeekPasswordOwner(_, _, _) => 3
    case WritePassword(_, _, _) => 2
    case SeekProfile(_, _, _, _) => 4
    case WriteProfile(_, _) => 3
    case WriteProfileFlag(_, _) => 2
    case SeekResetUser(_) => 3
    case SeekIdentity(_, _) => 2
    case SeekSession(_) => 2
    case SeekResetEmail(_) => 2
    case SeekGroupName(_, _) => 2
    case SeekJoinedGroup(_, _, _) => 2
    case SeekPolicyName(_, _, _, _, _) => 2
    case SeekSubject(_, _, _, _) => 2
    case _ => 1
  }

  lemma CreationProgresses(t: Tables, orgs: set<int>, ns: string, l: Local, e: Env)
    requires CreatesUser(l)
    ensures Left(Advance(t, orgs, ns, l, e).1) < Left(l)
  {
    hide FindByEmail, FindByUsername, FindGroupByName, InsertUser, InsertGroup, AssignUserToGroup, Email.IsEmail,
      Email.IsPassword, C.IsPrivilegedGroup, Accounts.ReservedIn, Trim;
  }

  /** Every transaction brings a request closer to its answer. */
  lemma AdvanceProgresses(t: Tables, orgs: set<int>, ns: string, l: Local, e: Env)
    requires !l.Finished?
    ensures Left(Advance(t, orgs, ns, l, e).1) < Left(l)
  {
    hide Perform, Accounts.Respond, Accounts.FindByIdentity, FindByEmail, FindValidToken, FindGroupByName, InsertGroup,
      FindUser, FindGroup, AssignUserToGroup, InsertPolicy, UpdateProfile, CreateResetToken, GetUserAllPolicies,
      PolicyRows, Email.IsEmail, Email.IsPassword, Accounts.ReservedIn, Utf8Length, Decisions.Grants, UpdatePassword,
      MarkTokenUsed, SetFirstLogin, Deliver;
    if CreatesUser(l) {
      hide Advance, Left;
      CreationProgresses(t, orgs, ns, l, e);
    }
  }

  /** The request run to its end with nothing in between. */
  function Drive(t: Tables, orgs: set<int>, ns: string, l: Local, e: Env): Tx<Answer>
    decreases Left(l)
  {
    if l.Finished? then Tx(t, l.out)
    else
      AdvanceProgresses(t, orgs, ns, l, e);
      var (t', l') := Advance(t, orgs, ns, l, e);
      Drive(t', orgs, ns, l', e)
  }
}
