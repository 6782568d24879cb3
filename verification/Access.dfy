/** What a caller may do, read off the token it presents. */
module Access {
  import opened Wrappers
  import opened Text
  import opened Environment
  import opened Tables
  import opened Organizations
  import opened Requests
  import opened Isolation
  import Accounts
  import Constraints
  import Decimal
  import Email
  import Integrity
  import Jwt
  import Outcomes
  import Staleness

  /** Issued here, in the name of this service, and not yet expired. */
  predicate Live(w: World, token: Jwt.Claims, now: Instant) {
    token in w.issued && token.iss == "keyrunes" && Seconds(now) < token.exp
  }

  /** The request is answered with this error and changes nothing. */
  predicate Refused(w: World, r: Request, e: Env, err: Error) {
    var (w', a) := Apply(w, r, e);
    w'.db == w.db && w'.issued == w.issued && a == Failed(err)
  }

  /** The answer hands out this token. */
  predicate HandsOut(a: Answer, c: Jwt.Claims) {
    (a.LoggedIn? && a.auth.token == c) || (a.FreshToken? && a.token == c)
  }

  /** The request does in schema `ns` what `act` does there, and nothing elsewhere. The tokens in the answer count as
      issued. */
  ghost predicate Runs(w: World, r: Request, e: Env, ns: string, act: Act) {
    var (w', a) := Apply(w, r, e);
    if ns !in w.db.schemas then w'.db == w.db && a == Failed(Database)
    else
      var x := Perform(w.db.schemas[ns], w.db.orgs.Keys, ns, act, e);
      && w'.db == w.db.(schemas := w.db.schemas[ns := x.t])
      && a == (match x.out case Ok(b) => b case Err(err) => Failed(err))
      && forall c :: c in w'.issued <==> c in w.issued || HandsOut(a, c)
  }

  /** The request does on the organizations table what `act` does there. */
  predicate Manages(w: World, r: Request, e: Env, act: OrgAct) {
    var (w', a) := Apply(w, r, e);
    var x := PerformOrg(w.db, act, e);
    w'.db == x.db && a == match x.out case Ok(b) => b case Err(err) => Failed(err)
  }

  /** The user id in the token; text that is no i64 stands for user 0. */
  function CallerId(token: Jwt.Claims): int {
    match Decimal.Parse(token.sub) case Some(n) => n case None => 0
  }

  /** A bearer token that is unknown, foreign or expired is refused, whatever is asked for. */
  lemma DeadTokensAreRefused(w: World, token: Jwt.Claims, call: Call, e: Env)
    requires !Live(w, token, e.now)
    ensures Refused(w, Bearer(token, call), e, Unauthorized)
  {
    hide PlanCall;
  }

  /** A live token is obeyed as the plan for its caller says. */
  lemma LivePlans(w: World, token: Jwt.Claims, call: Call, e: Env)
    requires Live(w, token, e.now)
    ensures var p, r := PlanCall(w.db, FromClaims(token), call), Bearer(token, call);
            && (p.Refuse? ==> Refused(w, r, e, p.error))
            && (p.InSchema? ==> Runs(w, r, e, p.ns, p.act))
            && (p.OnOrganizations? ==> Manages(w, r, e, p.orgAct))
  {
    hide PlanCall, Perform, PerformOrg;
  }

  // ----- one's own account

  /** What a caller may ask for itself runs in the namespace and for the user of the token. */
  lemma SelfServiceRuns(w: World, token: Jwt.Claims, current: string, new_: string, email: Option<string>,
                        username: Option<string>, e: Env)
    requires Live(w, token, e.now)
    ensures Runs(w, Bearer(token, RefreshToken), e, token.namespace, ActRefresh(CallerId(token)))
    ensures Runs(w, Bearer(token, Call.ChangePassword(current, new_)), e, token.namespace,
                 ActChangePassword(CallerId(token), current, new_))
    ensures Runs(w, Bearer(token, EditProfile(email, username)), e, token.namespace,
                 ActUpdateUser(CallerId(token), email, username, None))
  {
    hide Perform;
  }

  /** A refresh opens a session for the row and the memberships of now: the fresh token speaks for that user, names
      exactly the groups it holds, and is good for an hour. */
  lemma RefreshOpensSession(w: World, token: Jwt.Claims, e: Env, now: Instant)
    requires Integrity.DbOk(w.db) && Live(w, token, e.now)
    ensures var (w', a) := Apply(w, Bearer(token, RefreshToken), e);
            var ns, id := token.namespace, CallerId(token);
            && w'.db == w.db
            && if ns !in w.db.schemas then a == Failed(Database)
               else if id !in w.db.schemas[ns].users then a == Failed(UserNotFound)
               else
                 && a.FreshToken?
                 && var caller, row := FromClaims(a.token), w.db.schemas[ns].users[id];
                    && caller.userId == id && caller.email == row.email && caller.username == row.username
                    && caller.namespace == ns && caller.organizationId == row.organizationId
                    && (forall name :: name in caller.groups <==> Staleness.HoldsIn(w.db.schemas[ns], id, name))
                    && (Live(w', a.token, now) <==> Seconds(now) < Seconds(e.now) + 3600)
  {
    hide Apply, Perform, Staleness.HoldsIn, Constraints.Valid, Integrity.OrganizationsOk;
    SelfServiceRuns(w, token, "", "", None, None, e);
    var ns, id := token.namespace, CallerId(token);
    if ns in w.db.schemas {
      var t := w.db.schemas[ns];
      assert w.db.schemas[ns := t] == w.db.schemas;
      UsersAreValid(t, id);
      Outcomes.RefreshExactly(t, w.db.orgs.Keys, ns, id, e);
      if id in t.users { Decimal.ParsePrint(id); }
    }
  }

  lemma UsersAreValid(t: Tables, id: int)
    requires Constraints.Valid(t)
    ensures Constraints.UsersOk(t) && (id in t.users ==> t.users[id].userId == id && Decimal.IsI64(id))
  {}

  // ----- administration

  /** The calls that administer one namespace. */
  predicate IsAdministration(call: Call) {
    || call.CreateUser? || call.UpdateUser? || call.DeleteUser? || call.ResetUserPassword? || call.SendReset?
    || call.CreateGroup? || call.JoinGroup? || call.LeaveGroup? || call.CreatePolicy?
  }

  /** The organization such a call is about; without one, it is the default organization. */
  function Target(call: Call): int
    requires IsAdministration(call)
  {
    match call
    case CreateUser(form) => form.organizationId
    case CreateGroup(org, _) => org
    case CreatePolicy(org, _, _, _, _) => org
    case UpdateUser(org, _, _, _, _) => if org.Some? then org.value else 1
    case DeleteUser(org, _) => if org.Some? then org.value else 1
    case ResetUserPassword(org, _) => if org.Some? then org.value else 1
    case SendReset(org, _) => if org.Some? then org.value else 1
    case JoinGroup(org, _, _) => if org.Some? then org.value else 1
    case LeaveGroup(org, _, _) => if org.Some? then org.value else 1
  }

  /** What such a call asks the namespace to do; `assigner` is the caller when it lives there. */
  function Asked(call: Call, assigner: Option<int>): Act
    requires IsAdministration(call)
  {
    match call
    case CreateUser(form) => ActCreateUser(form, assigner)
    case UpdateUser(_, userId, email, username, flag) => ActUpdateUser(userId, email, username, flag)
    case DeleteUser(_, userId) => ActDeleteUser(userId)
    case ResetUserPassword(_, userId) => ActResetUserPassword(userId)
    case SendReset(_, userId) => ActSendReset(userId)
    case CreateGroup(org, name) => ActCreateGroup(org, name)
    case JoinGroup(_, userId, groupId) => ActJoinGroup(userId, groupId, assigner)
    case LeaveGroup(_, userId, groupId) => ActLeaveGroup(userId, groupId)
    case CreatePolicy(org, name, resource, action, effect) => ActCreatePolicy(org, name, resource, action, effect)
  }

  /** The plan behind an administrative call. */
  lemma AdministrationPlan(d: Db, token: Jwt.Claims, call: Call)
    requires IsAdministration(call)
    ensures var p, org := PlanCall(d, FromClaims(token), call), Target(call);
            if !AdminToken(token) then p == Refuse(Forbidden)
            else if call.CreateUser? && !Email.IsEmail(call.form.email) then p == Refuse(InvalidEmail)
            else if call.CreateUser? && Utf8Length(call.form.password) < 8 then p == Refuse(PasswordTooShort)
            else if call.DeleteUser? && call.userId == CallerId(token) && token.namespace != "public" then
              p == Refuse(CannotDeleteYourself)
            else if org !in d.orgs then p == Refuse(OrganizationNotFound)
            else
              var ns := d.orgs[org].namespace;
              if ns != token.namespace && !SuperadminToken(token) then p == Refuse(Forbidden)
              else p == InSchema(ns, Asked(call, if ns == token.namespace then Some(CallerId(token)) else None))
  {
    hide Email.IsEmail, Utf8Length, Decimal.Parse;
  }

  /** The refusals of an administrative call, in the order of the checks, or else where it runs. */
  lemma AdministrationExactly(w: World, token: Jwt.Claims, call: Call, e: Env)
    requires Live(w, token, e.now) && IsAdministration(call)
    ensures var r, org := Bearer(token, call), Target(call);
            if !AdminToken(token) then Refused(w, r, e, Forbidden)
            else if call.CreateUser? && !Email.IsEmail(call.form.email) then Refused(w, r, e, InvalidEmail)
            else if call.CreateUser? && Utf8Length(call.form.password) < 8 then Refused(w, r, e, PasswordTooShort)
            else if call.DeleteUser? && call.userId == CallerId(token) && token.namespace != "public" then
              Refused(w, r, e, CannotDeleteYourself)
            else if org !in w.db.orgs then Refused(w, r, e, OrganizationNotFound)
            else
              var ns := w.db.orgs[org].namespace;
              if ns != token.namespace && !SuperadminToken(token) then Refused(w, r, e, Forbidden)
              else Runs(w, r, e, ns, Asked(call, if ns == token.namespace then Some(CallerId(token)) else None))
  {
    hide Email.IsEmail, Utf8Length, PlanCall, Refused, Runs, AdminToken, SuperadminToken, CallerId;
    AdministrationPlan(w.db, token, call);
    LivePlans(w, token, call, e);
  }

  // ----- the errors of the gate are not the errors of a schema

  predicate GateError(err: Error) { err.Forbidden? || err.OrganizationNotFound? || err.CannotDeleteYourself? }

  lemma {:induction false} LoopErrors(t: Tables, orgs: set<int>, groups: seq<string>, org: int, q: Planner)
    ensures var out := Accounts.ResolveAll(t, orgs, groups, org, q).out; out.Err? ==> !GateError(out.error)
    decreases |groups|
  {
    hide FindGroupByName, Trim;
    if groups != [] {
      var x := Accounts.ResolveOne(t, orgs, groups[0], org, q);
      if x.out.Ok? { LoopErrors(x.t, orgs, groups[1..], org, q); }
    }
  }

  lemma {:induction false} AssignErrors(t: Tables, userId: int, ids: seq<int>, assignedBy: Option<int>)
    ensures var out := Accounts.AssignAll(t, userId, ids, assignedBy).out; out.Err? ==> !GateError(out.error)
    decreases |ids|
  {
    if ids != [] {
      var x := AssignUserToGroup(t, userId, ids[0], assignedBy);
      if x.out.Ok? { AssignErrors(x.t, userId, ids[1..], assignedBy); }
    }
  }

  lemma CreationErrors(t: Tables, orgs: set<int>, ns: string, f: Accounts.UserForm, adminId: Option<int>, q: Planner)
    ensures var out := Accounts.CreateUser(t, orgs, ns, f, adminId, q).out; out.Err? ==> !GateError(out.error)
  {
    hide Accounts.ResolveAll, Accounts.AssignAll, Accounts.Respond, FindByEmail, FindByUsername, Accounts.ReservedIn,
      InsertUser;
    LoopErrors(t, orgs, Accounts.OrUsers(f.groups), f.organizationId, q);
    var x := Accounts.ResolveAll(t, orgs, Accounts.OrUsers(f.groups), f.organizationId, q);
    if x.out.Ok? {
      var n := NewUser(f.organizationId, f.email, f.username, Argon2(f.password), f.firstLogin);
      InsertErrors(x.t, orgs, n);
      var y := InsertUser(x.t, orgs, n);
      if y.out.Ok? { AssignErrors(y.t, y.out.value.userId, x.out.value, adminId); }
    }
  }

  lemma InsertErrors(t: Tables, orgs: set<int>, n: NewUser)
    ensures var out := InsertUser(t, orgs, n).out; out.Err? ==> out.error == Database
  {}

  lemma ActsPassNoJudgement(t: Tables, orgs: set<int>, ns: string, act: Act, e: Env)
    ensures var out := Perform(t, orgs, ns, act, e).out;
            if out.Ok? then !out.value.Failed? && !out.value.OrganizationShown? && !out.value.OrganizationsShown?
            else !GateError(out.error)
  {
    hide Accounts.Respond, Accounts.ReservedIn, Email.IsEmail, Email.IsPassword, FindByEmail, FindByUsername,
      FindGroupByName, Accounts.CreateUser, Accounts.FindByIdentity, FindValidToken;
    if act.ActCreateUser? {
      CreationErrors(t, orgs, ns, act.form, act.adminId, e.planner);
    } else if act.ActRegister? && Accounts.RegistrationGroups(ns, act.group, |t.users|).Ok? {
      var groups := Accounts.RegistrationGroups(ns, act.group, |t.users|).value;
      CreationErrors(t, orgs, ns,
                     Accounts.UserForm(act.organizationId, act.email, act.username, act.password, groups, false), None,
                     e.planner);
    }
  }

  /** A live token is refused as forbidden exactly without an administrative group, or when the organization exists,
      belongs to another namespace and the token is no global superadmin's. */
  lemma ForbiddenExactly(w: World, token: Jwt.Claims, call: Call, e: Env)
    requires Live(w, token, e.now) && IsAdministration(call)
    requires call.CreateUser? ==> Email.IsEmail(call.form.email) && Utf8Length(call.form.password) >= 8
    requires call.DeleteUser? ==> call.userId != CallerId(token) || token.namespace == "public"
    ensures Apply(w, Bearer(token, call), e).1 == Failed(Forbidden) <==>
            || !("admin" in token.groups || "superadmin" in token.groups)
            || (Target(call) in w.db.orgs && w.db.orgs[Target(call)].namespace != token.namespace
                && !(token.namespace == "public" && "superadmin" in token.groups))
  {
    hide Perform, Email.IsEmail, Utf8Length, Apply;
    AdministrationExactly(w, token, call, e);
    var org := Target(call);
    if org in w.db.orgs && w.db.orgs[org].namespace in w.db.schemas {
      var ns := w.db.orgs[org].namespace;
      var act := Asked(call, if ns == token.namespace then Some(CallerId(token)) else None);
      ActsPassNoJudgement(w.db.schemas[ns], w.db.orgs.Keys, ns, act, e);
    }
  }

  /** In particular a global superadmin never is, for an organization that exists, nor is an administrator for the
      organization of its own namespace. */
  lemma RightfulCallersAreLetIn(w: World, token: Jwt.Claims, call: Call, e: Env)
    requires Live(w, token, e.now) && IsAdministration(call) && Target(call) in w.db.orgs
    requires (token.namespace == "public" && "superadmin" in token.groups)
             || (("admin" in token.groups || "superadmin" in token.groups)
                 && w.db.orgs[Target(call)].namespace == token.namespace)
    ensures Apply(w, Bearer(token, call), e).1 != Failed(Forbidden)
  {
    hide Perform, Email.IsEmail, Utf8Length, Apply;
    AdministrationExactly(w, token, call, e);
    var ns := w.db.orgs[Target(call)].namespace;
    if ns in w.db.schemas {
      var act := Asked(call, if ns == token.namespace then Some(CallerId(token)) else None);
      ActsPassNoJudgement(w.db.schemas[ns], w.db.orgs.Keys, ns, act, e);
    }
  }

  // ----- organizations

  /** The calls that manage organizations, and what they ask for. */
  predicate IsManagement(call: Call) { call.CreateOrganization? || call.RotateKey? || call.DeleteOrganization? }

  function Managed(call: Call): OrgAct
    requires IsManagement(call)
  {
    match call
    case CreateOrganization(name, namespace) => OrgCreate(name, namespace)
    case RotateKey(org) => OrgRotate(org)
    case DeleteOrganization(org) => OrgDelete(org)
  }

  lemma ManagementPlan(d: Db, token: Jwt.Claims, call: Call)
    requires IsManagement(call)
    ensures PlanCall(d, FromClaims(token), call) ==
            if token.namespace == "public" && "superadmin" in token.groups then OnOrganizations(Managed(call))
            else Refuse(Forbidden)
  {
    hide Decimal.Parse;
  }

  /** Creating, rotating and deleting organizations is for global superadmins. */
  lemma ManagementExactly(w: World, token: Jwt.Claims, call: Call, e: Env)
    requires Live(w, token, e.now) && IsManagement(call)
    ensures var r := Bearer(token, call);
            if token.namespace == "public" && "superadmin" in token.groups then Manages(w, r, e, Managed(call))
            else Refused(w, r, e, Forbidden)
  {
    hide PlanCall, Refused, Manages, Live, Managed;
    ManagementPlan(w.db, token, call);
    LivePlans(w, token, call, e);
  }

  /** The checks on the way from a caller to the organization of its own row, and the error of the first that fails. */
  function OwnOrganizationError(d: Db, token: Jwt.Claims): Option<Error> {
    if token.namespace !in d.schemas then Some(Database)
    else
      var users := d.schemas[token.namespace].users;
      if CallerId(token) !in users then Some(Unauthorized)
      else
        var org := users[CallerId(token)].organizationId;
        if org !in d.orgs then Some(OrganizationNotFound)
        else if d.orgs[org].namespace != token.namespace then Some(Forbidden)
        else None
  }

  /** A global superadmin sees every organization; another administrator, whose own row belongs to an organization of
      its namespace, sees those of that namespace. */
  lemma ListExactly(w: World, token: Jwt.Claims, e: Env)
    requires Live(w, token, e.now)
    ensures var r := Bearer(token, ListOrganizations);
            if token.namespace == "public" && "superadmin" in token.groups then Manages(w, r, e, OrgList(None))
            else if !AdminToken(token) then Refused(w, r, e, Forbidden)
            else match OwnOrganizationError(w.db, token)
              case Some(err) => Refused(w, r, e, err)
              case None => Manages(w, r, e, OrgList(Some(token.namespace)))
  {
    hide PerformOrg;
  }

  /** An administrator reads the key of the organization of its own row, if that is of its namespace. */
  lemma ReadOwnKeyExactly(w: World, token: Jwt.Claims, e: Env)
    requires Live(w, token, e.now) && WellKeyed(w.db.orgs)
    ensures var r := Bearer(token, ReadOwnKey);
            if !AdminToken(token) then Refused(w, r, e, Forbidden)
            else match OwnOrganizationError(w.db, token)
              case Some(err) => Refused(w, r, e, err)
              case None =>
                Manages(w, r, e, OrgShow(w.db.schemas[token.namespace].users[CallerId(token)].organizationId))
  {
    hide PerformOrg;
  }

  /** And rotates it under the same conditions, which are checked in another order. */
  lemma RotateOwnKeyExactly(w: World, token: Jwt.Claims, e: Env)
    requires Live(w, token, e.now) && WellKeyed(w.db.orgs)
    ensures var r, ns, id := Bearer(token, RotateOwnKey), token.namespace, CallerId(token);
            if ns !in w.db.schemas || id !in w.db.schemas[ns].users then Refused(w, r, e, Unauthorized)
            else if !AdminToken(token)
              || w.db.schemas[ns].users[id].organizationId == 0 then Refused(w, r, e, Forbidden)
            else match OwnOrganizationError(w.db, token)
              case Some(err) => Refused(w, r, e, err)
              case None => Manages(w, r, e, OrgRotate(w.db.schemas[ns].users[id].organizationId))
  {
    hide PerformOrg;
  }

  // ----- who reaches beyond its namespace

  lemma OnlyHomeIsShown(w: World, token: Jwt.Claims, call: Call, e: Env)
    requires WellKeyed(w.db.orgs) && !SuperadminToken(token)
    ensures var a := Apply(w, Bearer(token, call), e).1;
            && (a.OrganizationsShown? ==> forall o | o in a.orgs :: o.namespace == token.namespace)
            && (a.OrganizationShown? ==> a.org.namespace == token.namespace)
  {
    hide PlanOf, Perform, CreateOrg, Organizations.DeleteOrganization;
    var r := Bearer(token, call);
    PlansStayHome(w, r, e);
    match PlanOf(w, r, e) {
      case InSchema(ns, act) =>
        if ns in w.db.schemas { ActsPassNoJudgement(w.db.schemas[ns], w.db.orgs.Keys, ns, act, e); }
      case _ =>
    }
  }

  /** A bearer request that touches another namespace's schema or organization, makes or removes an organization, or
      shows a foreign one, presents a live token of the namespace `public` with the group `superadmin`. */
  lemma OnlySuperadminsReachOut(w: World, token: Jwt.Claims, call: Call, e: Env)
    requires WellKeyed(w.db.orgs)
    requires var (w', a) := Apply(w, Bearer(token, call), e);
             || (exists ns :: ns != token.namespace && !SameSchema(w.db, w'.db, ns))
             || w'.db.orgs.Keys != w.db.orgs.Keys
             || (exists o | o in w.db.orgs && o in w'.db.orgs ::
                   w.db.orgs[o].namespace != token.namespace && w'.db.orgs[o] != w.db.orgs[o])
             || (a.OrganizationsShown? && exists o | o in a.orgs :: o.namespace != token.namespace)
             || (a.OrganizationShown? && a.org.namespace != token.namespace)
    ensures Live(w, token, e.now) && token.namespace == "public" && "superadmin" in token.groups
  {
    var r := Bearer(token, call);
    if !Live(w, token, e.now) {
      DeadTokensAreRefused(w, token, call, e);
    } else if !SuperadminToken(token) {
      OnlyHomeIsShown(w, token, call, e);
      RequestsStayHome(w, r, e);
    }
    hide Apply;
  }

  // ----- the permission API

  /** Without an organization key, a decision is for a live token of a global superadmin only. It tells a missing user
      from one that may not, and changes nothing. */
  lemma TokenHolderDecision(w: World, token: Jwt.Claims, userId: int, resource: string, action: string, e: Env)
    requires Integrity.DbOk(w.db)
    ensures var r := CheckPermission(Token(token), userId, resource, action);
            var (w', a) := Apply(w, r, e);
            var t := w.db.schemas["public"];
            w'.db == w.db
            && if !(Live(w, token, e.now) && token.namespace == "public" && "superadmin" in token.groups) then
                 a == Failed(Unauthorized)
               else if userId !in t.users then a == Failed(UserNotFound)
               else a == Decision(&& Outcomes.RuledBy(t, userId, Allow, resource, action)
                                  && !Outcomes.RuledBy(t, userId, Deny, resource, action))
  {
    hide Perform, Outcomes.RuledBy, Constraints.Valid;
    var t := w.db.schemas["public"];
    Outcomes.CheckPermissionExactly(t, w.db.orgs.Keys, "public", None, userId, resource, action, e);
    assert w.db.schemas["public" := t] == w.db.schemas;
  }

  // ----- requests without a token

  /** The public requests run in the namespace they name, with the values they carry. */
  lemma PublicRequestsRun(w: World, ns: string, text: string, password: string, e: Env)
    ensures Runs(w, Login(ns, text, password), e, ns, ActLogin(text, password))
    ensures Runs(w, ForgotPassword(ns, text), e, ns, ActForgotPassword(text))
    ensures Runs(w, Request.ResetPassword(ns, text, password), e, ns, ActResetPassword(text, password))
    ensures Runs(w, CleanupTokens(ns), e, ns, ActCleanup)
  {
    hide Perform;
  }

  /** A registration is for the organization of its namespace; it may name that one, or any one where there is none. */
  lemma RegistrationsAreBound(w: World, ns: string, requested: Option<int>, email: string, username: string,
                              password: string, group: Option<string>, owner: Option<int>, e: Env)
    requires Integrity.OrganizationsOk(w.db)
    requires if owner.Some? then owner.value in w.db.orgs && w.db.orgs[owner.value].namespace == ns
             else forall o | o in w.db.orgs :: w.db.orgs[o].namespace != ns
    ensures var r := Request.Register(ns, requested, email, username, password, group);
            if requested.Some? && owner.Some? && owner != requested then Refused(w, r, e, OrganizationMismatch)
            else if requested.None? && owner.None? && ns != "public" then Refused(w, r, e, OrganizationNotFound)
            else
              var org := if requested.Some? then requested.value else if ns == "public" then 1 else owner.value;
              Runs(w, r, e, ns, ActRegister(org, email, username, password, group))
  {
    hide Perform;
    var rows := NamespaceRows(w.db.orgs, ns);
    assert forall o :: o in rows <==> o in w.db.orgs && w.db.orgs[o].namespace == ns;
    if owner.Some? {
      assert owner.value in rows;
      assert forall o | o in rows :: o == owner.value;
    } else {
      Outcomes.NoneThere(rows);
    }
    hide NamespaceRows;
  }

  // ----- over runs

  lemma {:induction false} TokensAreHandedOut(tr: Trace, j: nat, c: Jwt.Claims)
    requires IsRun(tr) && j < |tr.worlds| && c in tr.worlds[j].issued
    ensures c in tr.worlds[0].issued || exists k | 0 <= k < j :: HandsOut(tr.answers[k], c)
  {
    hide Execute, PlanOf;
    if j > 0 {
      assert Step(tr.worlds[j - 1], tr.events[j - 1], tr.worlds[j - 1 + 1], tr.answers[j - 1]);
      if c in tr.worlds[j - 1].issued {
        TokensAreHandedOut(tr, j - 1, c);
      } else {
        assert HandsOut(tr.answers[j - 1], c);
      }
    }
  }

  /** In every run, a bearer request that changes the database, or is answered by anything but `Unauthorized`, presents
      a token that was there at the start or was handed out by an earlier answer, and that has not expired. */
  lemma EffectsNeedLiveTokens(tr: Trace, j: nat)
    requires IsRun(tr) && j < |tr.events| && tr.events[j].request.Bearer?
    requires tr.worlds[j + 1].db != tr.worlds[j].db || tr.answers[j] != Failed(Unauthorized)
    ensures var c := tr.events[j].request.bearer;
            && (c in tr.worlds[0].issued || exists k | 0 <= k < j :: HandsOut(tr.answers[k], c))
            && c.iss == "keyrunes" && Seconds(tr.events[j].env.now) < c.exp
  {
    hide Apply;
    var w, ev := tr.worlds[j], tr.events[j];
    assert Step(w, ev, tr.worlds[j + 1], tr.answers[j]);
    if Live(w, ev.request.bearer, ev.env.now) {
      TokensAreHandedOut(tr, j, ev.request.bearer);
    } else {
      DeadTokensAreRefused(w, ev.request.bearer, ev.request.call, ev.env);
    }
  }

  /** One hour after user `userId` of `ns` is seen without `group`, and as long as the membership does not come back, no
      request that presents a token claiming it has any effect or gets any other answer than `Unauthorized`. */
  lemma LostGroupsHaveNoEffect(tr: Trace, i: nat, j: nat, ns: string, userId: int, group: string)
    requires IsRun(tr) && i <= j < |tr.events| && Staleness.LifetimesBounded(tr.worlds[0])
    requires forall k | i <= k <= j :: !Staleness.Holds(tr.worlds[k], ns, userId, group)
    requires tr.events[j].env.now >= tr.worlds[i].now + 3600 * 1_000_000
    requires var r := tr.events[j].request;
             || (r.Bearer? && Staleness.Claims(r.bearer, ns, userId, group))
             || (r.CheckPermission? && r.credential.Token? && Staleness.Claims(r.credential.token, ns, userId, group))
    ensures tr.worlds[j + 1].db == tr.worlds[j].db && tr.answers[j] == Failed(Unauthorized)
  {
    hide Staleness.Holds, Staleness.Claims, PlanCall, Staleness.LifetimesBounded;
    var w, ev := tr.worlds[j], tr.events[j];
    assert Step(w, ev, tr.worlds[j + 1], tr.answers[j]);
    var c := if ev.request.Bearer? then ev.request.bearer else ev.request.credential.token;
    Staleness.BoundedStaleness(tr, i, j, ns, userId, group, c, ev.env.now);
  }
}
