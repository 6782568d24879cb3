/** Tenants cannot touch or observe each other. */
module Isolation {
  import opened Wrappers
  import opened Environment
  import opened Tables
  import opened Organizations
  import opened Requests
  import opened Integrity
  import Accounts
  import Constraints
  import Journeys
  import Jwt

  /** The one namespace a request belongs to: the one it names, that of its organization key, or that of its bearer
      token. */
  function Home(orgs: map<int, Organization>, r: Request, e: Env): Option<string> {
    match r
    case Register(ns, _, _, _, _, _) => Some(ns)
    case Login(ns, _, _) => Some(ns)
    case ForgotPassword(ns, _) => Some(ns)
    case ResetPassword(ns, _, _) => Some(ns)
    case CleanupTokens(ns) => Some(ns)
    case CheckPermission(Key(key), _, _, _) =>
      (match FindBySecretKey(orgs, key, e.planner) case None => None case Some(o) => Some(o.namespace))
    case CheckPermission(Token(token), _, _, _) => Some(token.namespace)
    case Bearer(token, _) => Some(token.namespace)
  }

  /** A token of the global namespace that carries the group `superadmin`. */
  predicate SuperadminToken(token: Jwt.Claims) { token.namespace == "public" && "superadmin" in token.groups }

  /** A token that carries one of the two administrative groups. */
  predicate AdminToken(token: Jwt.Claims) { "admin" in token.groups || "superadmin" in token.groups }

  /** The request presents the token of a global superadmin. */
  predicate BySuperadmin(r: Request) {
    match r
    case CheckPermission(Token(token), _, _, _) => SuperadminToken(token)
    case Bearer(token, _) => SuperadminToken(token)
    case _ => false
  }

  predicate SameSchema(a: Db, b: Db, ns: string) {
    (ns in a.schemas <==> ns in b.schemas) && (ns in a.schemas ==> a.schemas[ns] == b.schemas[ns])
  }

  /** Nothing differs outside schema `home`, except the key of an organization of that namespace. */
  ghost predicate OnlyAt(d: Db, d': Db, home: Option<string>) {
    && d'.nextOrg == d.nextOrg && d'.orgs.Keys == d.orgs.Keys
    && (forall ns | Some(ns) != home :: SameSchema(d, d', ns))
    && (forall o | o in d.orgs :: d'.orgs[o].(secretKey := d.orgs[o].secretKey) == d.orgs[o])
    && (forall o | o in d.orgs && Some(d.orgs[o].namespace) != home :: d'.orgs[o] == d.orgs[o])
  }

  /** Whatever a request may do without a global superadmin's token, it does at home. */
  predicate StaysHome(orgs: map<int, Organization>, plan: Plan, home: Option<string>) {
    match plan
    case Refuse(_) => true
    case InSchema(ns, _) => home == Some(ns)
    case OnOrganizations(OrgShow(o)) => o in orgs && home == Some(orgs[o].namespace)
    case OnOrganizations(OrgRotate(o)) => o in orgs && home == Some(orgs[o].namespace)
    case OnOrganizations(OrgList(only)) => only.Some? && home == only
    case OnOrganizations(_) => false
  }

  predicate WellKeyed(orgs: map<int, Organization>) { forall o | o in orgs :: orgs[o].organizationId == o }

  lemma CallsStayHome(d: Db, u: AuthenticatedUser, call: Call)
    requires WellKeyed(d.orgs) && !IsGlobalSuperadmin(u)
    ensures StaysHome(d.orgs, PlanCall(d, u, call), Some(u.namespace))
  {}

  lemma PlansStayHome(w: World, r: Request, e: Env)
    requires WellKeyed(w.db.orgs)
    requires !BySuperadmin(r)
    ensures StaysHome(w.db.orgs, PlanOf(w, r, e), Home(w.db.orgs, r, e))
  {
    hide PlanCall, RegistrationOrganization, Accepts;
    if r.Bearer? { CallsStayHome(w.db, FromClaims(r.bearer), r.call); }
  }

  /** Frame: without a global superadmin's token a request changes its own schema and its own organization's key,
      nothing else. */
  lemma RequestsStayHome(w: World, r: Request, e: Env)
    requires WellKeyed(w.db.orgs)
    requires !BySuperadmin(r)
    ensures OnlyAt(w.db, Apply(w, r, e).0.db, Home(w.db.orgs, r, e))
  {
    hide PlanOf, Perform, Home, BySuperadmin, Organizations.DeleteOrganization, CreateOrg;
    PlansStayHome(w, r, e);
  }

  /** Two worlds look alike from `home` and treat the bearer token of `r` alike. */
  predicate Alike(a: World, b: World, r: Request, e: Env) {
    && a.db.orgs == b.db.orgs
    && (match Home(a.db.orgs, r, e) case None => true case Some(home) => SameSchema(a.db, b.db, home))
    && (match r
        case Bearer(token, _) => Accepts(a, token, e.now) == Accepts(b, token, e.now)
        case CheckPermission(Token(token), _, _, _) => Accepts(a, token, e.now) == Accepts(b, token, e.now)
        case _ => true)
  }

  lemma AlikeWorldsPlanAlike(a: World, b: World, r: Request, e: Env)
    requires Alike(a, b, r, e)
    ensures PlanOf(a, r, e) == PlanOf(b, r, e)
  {
    match r {
      case Bearer(token, call) =>
        var u := FromClaims(token);
        assert OwnOrganization(a.db, u) == OwnOrganization(b.db, u);
        assert PlanAdminCall(a.db, u, call) == PlanAdminCall(b.db, u, call);
      case _ =>
    }
  }

  /** Non-interference: worlds that agree on the caller's schema and on the organizations give the caller the same
      answer, and agree again afterwards. */
  lemma AnswersDependOnHome(a: World, b: World, r: Request, e: Env)
    requires WellKeyed(a.db.orgs)
    requires Alike(a, b, r, e)
    requires !BySuperadmin(r)
    ensures Apply(a, r, e).1 == Apply(b, r, e).1
    ensures Apply(a, r, e).0.db.orgs == Apply(b, r, e).0.db.orgs
    ensures Home(a.db.orgs, r, e).Some? ==>
              SameSchema(Apply(a, r, e).0.db, Apply(b, r, e).0.db, Home(a.db.orgs, r, e).value)
  {
    hide PlanOf, Perform, BySuperadmin, Organizations.DeleteOrganization, CreateOrg;
    AlikeWorldsPlanAlike(a, b, r, e);
    PlansStayHome(a, r, e);
  }

  /** Through a whole run of foreign requests, a schema and the organization of its namespace stay exactly as they
      are. */
  lemma {:induction false} ForeignRunsLeaveNoTrace(tr: Trace, i: nat, j: nat, ns: string)
    requires IsRun(tr) && i <= j < |tr.worlds| && DbOk(tr.worlds[0].db)
    requires forall k | i <= k < j ::
               !BySuperadmin(tr.events[k].request)
                 && Home(tr.worlds[k].db.orgs, tr.events[k].request, tr.events[k].env) != Some(ns)
    ensures SameSchema(tr.worlds[i].db, tr.worlds[j].db, ns)
    ensures tr.worlds[j].db.orgs.Keys == tr.worlds[i].db.orgs.Keys
    ensures forall o | o in tr.worlds[i].db.orgs && tr.worlds[i].db.orgs[o].namespace == ns ::
              tr.worlds[j].db.orgs[o] == tr.worlds[i].db.orgs[o]
    decreases j - i
  {
    hide DbOk, BySuperadmin, Home, Apply;
    if i < j {
      ForeignRunsLeaveNoTrace(tr, i, j - 1, ns);
      var w, ev := tr.worlds[j - 1], tr.events[j - 1];
      assert Step(w, ev, tr.worlds[j - 1 + 1], tr.answers[j - 1]);
      RunKeepsDbOk(tr, j - 1);
      DbOkIsWellKeyed(w.db);
      RequestsStayHome(w, ev.request, ev.env);
      assert OnlyAt(w.db, tr.worlds[j].db, Home(w.db.orgs, ev.request, ev.env));
    }
  }

  lemma DbOkIsWellKeyed(d: Db)
    requires DbOk(d)
    ensures WellKeyed(d.orgs)
  {}

  // ----- callers without an administrative group

  /** Only the credentials and the profile of row `self` may differ. */
  ghost predicate OnlyOwnRow(t: Tables, t': Tables, self: int) {
    && t' == t.(users := t'.users) && t'.users.Keys == t.users.Keys
    && forall u | u in t.users ::
         if u != self then t'.users[u] == t.users[u]
         else t'.users[u].userId == t.users[u].userId && t'.users[u].organizationId == t.users[u].organizationId
  }

  lemma SelfServiceTouchesOwnRow(t: Tables, orgs: set<int>, ns: string, act: Act, e: Env, self: int)
    requires Constraints.Valid(t)
    requires act in {ActRefresh(self)} || (act.ActChangePassword? && act.userId == self)
             || (act.ActUpdateUser? && act.userId == self)
    ensures OnlyOwnRow(t, Perform(t, orgs, ns, act, e).t, self)
  {
    hide Accounts.RefreshTokenForUser, Accounts.ChangePassword, Accounts.UpdateUser, Accounts.Respond,
      Constraints.Valid;
    match act {
      case ActRefresh(_) =>
      case ActChangePassword(_, current, new_) => Journeys.ChangePasswordExactly(t, self, current, new_);
      case ActUpdateUser(_, email, username, flag) =>
        Journeys.UpdateUserExactly(t, ns, self, email, username, flag, e.planner);
    }
  }

  /** A caller whose token carries neither `admin` nor `superadmin` changes nothing in the whole database but its own
      row, and there neither its id nor its organization; every administrative call is refused. */
  lemma PlainUsersTouchOnlyThemselves(w: World, token: Jwt.Claims, call: Call, e: Env)
    requires DbOk(w.db) && !AdminToken(token)
    ensures var (w', a) := Apply(w, Bearer(token, call), e);
            && w'.db == w.db.(schemas := w'.db.schemas) && w'.db.schemas.Keys == w.db.schemas.Keys
            && (forall ns | ns in w.db.schemas && ns != token.namespace :: w'.db.schemas[ns] == w.db.schemas[ns])
            && (token.namespace in w.db.schemas ==>
                  OnlyOwnRow(w.db.schemas[token.namespace], w'.db.schemas[token.namespace], FromClaims(token).userId))
            && (!call.RefreshToken? && !call.ChangePassword? && !call.EditProfile? ==> w'.db == w.db && a.Failed?)
  {
    hide Perform, PlanAdminCall, OwnOrganization, Constraints.Valid;
    var ns, self := token.namespace, FromClaims(token).userId;
    if ns in w.db.schemas {
      OwnRowUnchanged(w.db.schemas[ns], self);
      if Accepts(w, token, e.now) && PlanCall(w.db, FromClaims(token), call).InSchema? {
        SelfServiceTouchesOwnRow(w.db.schemas[ns], w.db.orgs.Keys, ns, PlanCall(w.db, FromClaims(token), call).act, e,
                                 self);
      }
    }
    hide IsAdmin, Accepts, OnlyOwnRow;
  }

  lemma OwnRowUnchanged(t: Tables, self: int)
    ensures OnlyOwnRow(t, t, self)
  {}
}
