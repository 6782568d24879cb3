/** `cleanup_expired_tokens` cannot be observed. */
module Cleanup {
  import opened Text
  import opened Environment
  import opened Tables
  import opened Organizations
  import opened Requests
  import opened Steps
  import Accounts
  import Decisions
  import Email
  import Granularity
  import opened Integrity
  import ResetRaces
  import Resets

  function WithTokens(t: Tables, tokens: map<int, ResetToken>): Tables { t.(tokens := tokens) }

  /** `t'` lacks some tokens of `t` that are past their expiry; nothing else differs. */
  predicate Cleaned(t: Tables, t': Tables, now: int) {
    && t' == WithTokens(t, t'.tokens)
    && (forall k | k in t'.tokens :: k in t.tokens && t'.tokens[k] == t.tokens[k])
    && (forall k | k in t.tokens && k !in t'.tokens :: t.tokens[k].expiresAt < now)
  }

  lemma CleaningCleans(t: Tables, now: int)
    ensures Cleaned(t, CleanupExpiredTokens(t, now).t, now)
  {}

  lemma CleanedStays(t: Tables, t': Tables, now: int, later: int)
    requires Cleaned(t, t', now) && now <= later
    ensures Cleaned(t, t', later)
  {}

  predicate TouchesTokens(l: Local) { l.SeekResetToken? || l.MarkResetToken? || l.AddResetToken? || l.OneShot? }

  lemma UserReadsAgree(t: Tables, tokens: map<int, ResetToken>, q: Planner)
    ensures forall email :: FindByEmail(WithTokens(t, tokens), email, q) == FindByEmail(t, email, q)
    ensures forall name :: FindByUsername(WithTokens(t, tokens), name, q) == FindByUsername(t, name, q)
    ensures forall u, ns :: Accounts.Respond(WithTokens(t, tokens), u, ns, q) == Accounts.Respond(t, u, ns, q)
  {
    var t' := WithTokens(t, tokens);
    forall email
      ensures FindByEmail(t', email, q) == FindByEmail(t, email, q)
    {
      assert EmailRows(t', email) == EmailRows(t, email);
    }
    forall name
      ensures FindByUsername(t', name, q) == FindByUsername(t, name, q)
    {
      assert UsernameRows(t', name) == UsernameRows(t, name);
    }
    forall u: User, ns ensures Accounts.Respond(t', u, ns, q) == Accounts.Respond(t, u, ns, q) {
      assert UserGroupIds(t', u.userId) == UserGroupIds(t, u.userId);
      assert GetUserGroups(t', u.userId, q) == GetUserGroups(t, u.userId, q);
    }
  }

  lemma GroupReadsAgree(t: Tables, tokens: map<int, ResetToken>, q: Planner)
    ensures forall name, org :: FindGroupByName(WithTokens(t, tokens), name, org, q) == FindGroupByName(t, name, org, q)
    ensures forall name, org :: PolicyRows(WithTokens(t, tokens), name, org) == PolicyRows(t, name, org)
    ensures forall u :: GetUserAllPolicies(WithTokens(t, tokens), u, q) == GetUserAllPolicies(t, u, q)
  {
    var t' := WithTokens(t, tokens);
    forall name, org ensures FindGroupByName(t', name, org, q) == FindGroupByName(t, name, org, q) {
      assert GroupRows(t', name, org) == GroupRows(t, name, org);
    }
    forall u ensures GetUserAllPolicies(t', u, q) == GetUserAllPolicies(t, u, q) {
      assert ReachablePolicyIds(t', u) == ReachablePolicyIds(t, u);
    }
  }

  lemma UserInsertCommutes(t: Tables, tokens: map<int, ResetToken>, orgs: set<int>, n: NewUser)
    ensures InsertUser(WithTokens(t, tokens), orgs, n) ==
            Tx(WithTokens(InsertUser(t, orgs, n).t, tokens), InsertUser(t, orgs, n).out)
  {}

  lemma ProfileFitsAlike(t: Tables, tokens: map<int, ResetToken>, self: int, email: string, username: string)
    ensures ProfileFits(WithTokens(t, tokens), self, email, username) == ProfileFits(t, self, email, username)
  {}

  lemma GroupInsertCommutes(t: Tables, tokens: map<int, ResetToken>, orgs: set<int>, name: string, org: int)
    ensures InsertGroup(WithTokens(t, tokens), orgs, name, org) ==
            Tx(WithTokens(InsertGroup(t, orgs, name, org).t, tokens), InsertGroup(t, orgs, name, org).out)
  {}

  lemma PolicyInsertCommutes(t: Tables, tokens: map<int, ResetToken>, orgs: set<int>, name: string, org: int,
                             resource: string, action: string, effect: Effect)
    ensures InsertPolicy(WithTokens(t, tokens), orgs, name, org, resource, action, effect) ==
            Tx(WithTokens(InsertPolicy(t, orgs, name, org, resource, action, effect).t, tokens),
               InsertPolicy(t, orgs, name, org, resource, action, effect).out)
  {}

  lemma ProfileUpdateCommutes(t: Tables, tokens: map<int, ResetToken>, userId: int, email: string, username: string)
    ensures UpdateProfile(WithTokens(t, tokens), userId, email, username) ==
            Tx(WithTokens(UpdateProfile(t, userId, email, username).t, tokens),
               UpdateProfile(t, userId, email, username).out)
  {
    ProfileFitsAlike(t, tokens, userId, email, username);
    hide ProfileFits;
  }

  lemma UpdatesCommute(t: Tables, tokens: map<int, ResetToken>)
    ensures forall u, h ::
              UpdatePassword(WithTokens(t, tokens), u, h)
                == Tx(WithTokens(UpdatePassword(t, u, h).t, tokens), UpdatePassword(t, u, h).out)
    ensures forall u, b ::
              SetFirstLogin(WithTokens(t, tokens), u, b)
                == Tx(WithTokens(SetFirstLogin(t, u, b).t, tokens), SetFirstLogin(t, u, b).out)
    ensures forall u, g, a ::
              AssignUserToGroup(WithTokens(t, tokens), u, g, a)
                == Tx(WithTokens(AssignUserToGroup(t, u, g, a).t, tokens), AssignUserToGroup(t, u, g, a).out)
  {}

  predicate Inserts(l: Local) { l.AddUser? || l.AddGroup? || l.AddNamedGroup? || l.AddPolicy? || l.WriteProfile? }

  lemma EnrolmentsOutOfSight(t: Tables, tokens: map<int, ResetToken>, orgs: set<int>, ns: string, l: Local, e: Env)
    requires l.AddUser? || l.AddGroup? || l.AddNamedGroup?
    ensures var (t1, l1) := Advance(t, orgs, ns, l, e);
            Advance(WithTokens(t, tokens), orgs, ns, l, e) == (WithTokens(t1, tokens), l1)
  {
    hide InsertUser, InsertGroup, Trim, NextGroup, NextMember;
    match l {
      case AddUser(f, _, _, _) =>
        UserInsertCommutes(t, tokens, orgs,
                           NewUser(f.organizationId, f.email, f.username, Argon2(f.password), f.firstLogin));
      case AddGroup(f, _, _, wanted, _) =>
        if wanted != [] { GroupInsertCommutes(t, tokens, orgs, Trim(wanted[0]), f.organizationId); }
      case AddNamedGroup(org, name) => GroupInsertCommutes(t, tokens, orgs, name, org);
    }
  }

  /** The transactions that fill the other tables do not see the token table. */
  lemma InsertsOutOfSight(t: Tables, tokens: map<int, ResetToken>, orgs: set<int>, ns: string, l: Local, e: Env)
    requires Inserts(l)
    ensures var (t1, l1) := Advance(t, orgs, ns, l, e);
            Advance(WithTokens(t, tokens), orgs, ns, l, e) == (WithTokens(t1, tokens), l1)
  {
    hide InsertPolicy, UpdateProfile;
    match l {
      case AddPolicy(org, name, resource, action, effect) =>
        PolicyInsertCommutes(t, tokens, orgs, name, org, resource, action, effect);
      case WriteProfile(u, _) => ProfileUpdateCommutes(t, tokens, u.userId, u.email, u.username);
      case _ =>
        hide Advance;
        EnrolmentsOutOfSight(t, tokens, orgs, ns, l, e);
    }
  }

  /** Nor do the lookups and updates. */
  lemma ReadsOutOfSight(t: Tables, tokens: map<int, ResetToken>, orgs: set<int>, ns: string, l: Local, e: Env)
    requires !TouchesTokens(l) && !Inserts(l)
    ensures var (t1, l1) := Advance(t, orgs, ns, l, e);
            Advance(WithTokens(t, tokens), orgs, ns, l, e) == (WithTokens(t1, tokens), l1)
  {
    hide FindByEmail, FindByUsername, Accounts.Respond, FindGroupByName, PolicyRows, GetUserAllPolicies,
      UpdatePassword, SetFirstLogin, AssignUserToGroup, Email.IsEmail, Email.IsPassword, Trim, Counted, Resolving,
      NextGroup, NextMember, Deliver, Decisions.Grants, Decisions.AsSet, Accounts.ReservedIn;
    UserReadsAgree(t, tokens, e.planner);
    GroupReadsAgree(t, tokens, e.planner);
    UpdatesCommute(t, tokens);
  }

  predicate NoToken(t: Tables, text: string) { forall k | k in t.tokens :: t.tokens[k].token != text }

  lemma EraseUserCommutes(t: Tables, t': Tables, userId: int, now: int)
    requires Cleaned(t, t', now)
    ensures EraseUser(t, userId).out ==
            EraseUser(t', userId).out && Cleaned(EraseUser(t, userId).t, EraseUser(t', userId).t, now)
  {}

  /** A live token is found in the cleaned table as in the other, and by the same row. */
  lemma LiveTokensAgree(t: Tables, t': Tables, token: string, e: Env)
    requires Cleaned(t, t', e.now)
    ensures FindValidToken(t, token, e) == FindValidToken(t', token, e)
  {
    var rows, rows' := ValidTokenRows(t, token, e.now), ValidTokenRows(t', token, e.now);
    forall k ensures k in rows <==> k in rows' {
      if k in t.tokens && k !in t'.tokens { assert t.tokens[k].expiresAt < e.now; }
    }
    assert rows == rows';
  }

  lemma MarkCommutes(t: Tables, t': Tables, tokenId: int, now: int)
    requires Cleaned(t, t', now)
    ensures Cleaned(MarkTokenUsed(t, tokenId, now).t, MarkTokenUsed(t', tokenId, now).t, now)
  {
    var t1, t2 := MarkTokenUsed(t, tokenId, now).t, MarkTokenUsed(t', tokenId, now).t;
    assert t1 == WithTokens(t, t1.tokens) && t2 == WithTokens(t', t2.tokens);
    assert t2 == WithTokens(t1, t2.tokens);
  }

  lemma CreateCommutes(t: Tables, t': Tables, userId: int, text: string, expiresAt: int, now: int)
    requires Cleaned(t, t', now) && NoToken(t, text)
    ensures CreateResetToken(t, userId, text, expiresAt).out == CreateResetToken(t', userId, text, expiresAt).out
    ensures Cleaned(CreateResetToken(t, userId, text, expiresAt).t, CreateResetToken(t', userId, text, expiresAt).t,
                    now)
  {}

  lemma OneShotCommutes(t: Tables, t': Tables, orgs: set<int>, ns: string, act: SingleAct, e: Env)
    requires Cleaned(t, t', e.now)
    ensures Perform(t, orgs, ns, act, e).out == Perform(t', orgs, ns, act, e).out
    ensures Cleaned(Perform(t, orgs, ns, act, e).t, Perform(t', orgs, ns, act, e).t, e.now)
  {
    hide EraseUser;
    if act.ActDeleteUser? { EraseUserCommutes(t, t', act.userId, e.now); }
  }

  lemma LookupCommutes(t: Tables, t': Tables, orgs: set<int>, ns: string, l: Local, e: Env)
    requires Cleaned(t, t', e.now) && l.SeekResetToken?
    ensures var (t1, l1) := Advance(t, orgs, ns, l, e);
            var (t2, l2) := Advance(t', orgs, ns, l, e);
            l1 == l2 && Cleaned(t1, t2, e.now)
  {
    hide Cleaned, FindValidToken, Utf8Length;
    LiveTokensAgree(t, t', l.token, e);
  }

  lemma MarkStepCommutes(t: Tables, t': Tables, orgs: set<int>, ns: string, l: Local, e: Env)
    requires Cleaned(t, t', e.now) && l.MarkResetToken?
    ensures var (t1, l1) := Advance(t, orgs, ns, l, e);
            var (t2, l2) := Advance(t', orgs, ns, l, e);
            l1 == l2 && Cleaned(t1, t2, e.now)
  {
    hide Cleaned, MarkTokenUsed;
    MarkCommutes(t, t', l.row.tokenId, e.now);
  }

  lemma CreateStepCommutes(t: Tables, t': Tables, orgs: set<int>, ns: string, l: Local, e: Env)
    requires Cleaned(t, t', e.now) && NoToken(t, e.resetToken) && l.AddResetToken?
    ensures var (t1, l1) := Advance(t, orgs, ns, l, e);
            var (t2, l2) := Advance(t', orgs, ns, l, e);
            l1 == l2 && Cleaned(t1, t2, e.now)
  {
    hide Cleaned, NoToken, CreateResetToken;
    CreateCommutes(t, t', l.userId, e.resetToken, e.now + DAY, e.now);
  }

  lemma OneShotStepCommutes(t: Tables, t': Tables, orgs: set<int>, ns: string, l: Local, e: Env)
    requires Cleaned(t, t', e.now) && l.OneShot?
    ensures var (t1, l1) := Advance(t, orgs, ns, l, e);
            var (t2, l2) := Advance(t', orgs, ns, l, e);
            l1 == l2 && Cleaned(t1, t2, e.now)
  {
    hide Cleaned, Perform;
    OneShotCommutes(t, t', orgs, ns, l.single, e);
  }

  lemma TokenStepCommutes(t: Tables, t': Tables, orgs: set<int>, ns: string, l: Local, e: Env)
    requires Cleaned(t, t', e.now) && NoToken(t, e.resetToken) && TouchesTokens(l)
    ensures var (t1, l1) := Advance(t, orgs, ns, l, e);
            var (t2, l2) := Advance(t', orgs, ns, l, e);
            l1 == l2 && Cleaned(t1, t2, e.now)
  {
    hide Cleaned, NoToken, Advance;
    if l.SeekResetToken? {
      LookupCommutes(t, t', orgs, ns, l, e);
    } else if l.MarkResetToken? {
      MarkStepCommutes(t, t', orgs, ns, l, e);
    } else if l.AddResetToken? {
      CreateStepCommutes(t, t', orgs, ns, l, e);
    } else {
      OneShotStepCommutes(t, t', orgs, ns, l, e);
    }
  }

  /** One transaction does the same on both sides. */
  lemma AdvanceCommutes(t: Tables, t': Tables, orgs: set<int>, ns: string, l: Local, e: Env)
    requires Cleaned(t, t', e.now) && NoToken(t, e.resetToken)
    ensures var (t1, l1) := Advance(t, orgs, ns, l, e);
            var (t2, l2) := Advance(t', orgs, ns, l, e);
            l1 == l2 && Cleaned(t1, t2, e.now)
  {
    hide Advance, NoToken, Inserts;
    if TouchesTokens(l) {
      TokenStepCommutes(t, t', orgs, ns, l, e);
    } else if Inserts(l) {
      InsertsOutOfSight(t, t'.tokens, orgs, ns, l, e);
      OtherTokensStay(t, orgs, ns, l, e);
    } else {
      ReadsOutOfSight(t, t'.tokens, orgs, ns, l, e);
      OtherTokensStay(t, orgs, ns, l, e);
    }
  }

  lemma OtherTokensStay(t: Tables, orgs: set<int>, ns: string, l: Local, e: Env)
    requires !TouchesTokens(l)
    ensures Advance(t, orgs, ns, l, e).0.tokens == t.tokens
  {
    assert !WritesTokens(StatementOf(l)) && !StatementOf(l).Single? by { hide Trim; }
    hide Advance, Written, StatementOf;
    AdvanceWrites(t, orgs, ns, l, e);
    ResetRaces.OtherWritesKeepTokens(t, orgs, ns, StatementOf(l), e);
  }

  lemma AdvanceKeepsNoToken(t: Tables, orgs: set<int>, ns: string, l: Local, e: Env)
    requires NoToken(t, e.resetToken) && !l.AddResetToken?
    ensures NoToken(Advance(t, orgs, ns, l, e).0, e.resetToken)
  {
    assert !StatementOf(l).InsertingToken? by { hide Trim; }
    hide NoToken, Advance, StatementOf, Written;
    AdvanceWrites(t, orgs, ns, l, e);
    TokenTextsStay(t, orgs, ns, StatementOf(l), e);
    SubsetNoToken(t, Advance(t, orgs, ns, l, e).0, e.resetToken);
  }

  lemma TokenTextsStay(t: Tables, orgs: set<int>, ns: string, st: Statement, e: Env)
    requires !st.InsertingToken?
    ensures var t' := Written(t, orgs, ns, st, e);
            forall k | k in t'.tokens :: k in t.tokens && t'.tokens[k].token == t.tokens[k].token
  {
    hide Perform;
    match st {
      case Single(act) => OneShotTexts(t, orgs, ns, act, e);
      case UpdatingToken(_) =>
      case _ =>
        hide Written;
        ResetRaces.OtherWritesKeepTokens(t, orgs, ns, st, e);
    }
  }

  lemma OneShotTexts(t: Tables, orgs: set<int>, ns: string, act: SingleAct, e: Env)
    ensures var t' := Perform(t, orgs, ns, act, e).t;
            forall k | k in t'.tokens :: k in t.tokens && t'.tokens[k] == t.tokens[k]
  {
    hide EraseUser;
    if act.ActDeleteUser? { ErasedTokens(t, act.userId); }
  }

  lemma ErasedTokens(t: Tables, userId: int)
    ensures var t' := EraseUser(t, userId).t; forall k | k in t'.tokens :: k in t.tokens && t'.tokens[k] == t.tokens[k]
  {}

  lemma SubsetNoToken(t: Tables, t': Tables, text: string)
    requires NoToken(t, text) && forall k | k in t'.tokens :: k in t.tokens && t'.tokens[k].token == t.tokens[k].token
    ensures NoToken(t', text)
  {}

  lemma {:induction false} DriveCommutes(t: Tables, t': Tables, orgs: set<int>, ns: string, l: Local, e: Env)
    requires Cleaned(t, t', e.now) && (NoToken(t, e.resetToken) || l.Finished?)
    ensures Drive(t, orgs, ns, l, e).out == Drive(t', orgs, ns, l, e).out
    ensures Cleaned(Drive(t, orgs, ns, l, e).t, Drive(t', orgs, ns, l, e).t, e.now)
    decreases Left(l)
  {
    hide Cleaned, NoToken, Advance;
    if !l.Finished? {
      AdvanceProgresses(t, orgs, ns, l, e);
      AdvanceCommutes(t, t', orgs, ns, l, e);
      var (t1, l1) := Advance(t, orgs, ns, l, e);
      if l.AddResetToken? { LastStep(t, orgs, ns, l, e); } else { AdvanceKeepsNoToken(t, orgs, ns, l, e); }
      DriveCommutes(t1, Advance(t', orgs, ns, l, e).0, orgs, ns, l1, e);
    }
  }

  lemma LastStep(t: Tables, orgs: set<int>, ns: string, l: Local, e: Env)
    requires l.AddResetToken?
    ensures Advance(t, orgs, ns, l, e).1.Finished?
  {}

  /** A whole request answers alike on both sides. */
  lemma PerformCommutes(t: Tables, t': Tables, orgs: set<int>, ns: string, act: Act, e: Env)
    requires Cleaned(t, t', e.now) && NoToken(t, e.resetToken)
    ensures Perform(t, orgs, ns, act, e).out == Perform(t', orgs, ns, act, e).out
    ensures Cleaned(Perform(t, orgs, ns, act, e).t, Perform(t', orgs, ns, act, e).t, e.now)
  {
    hide Cleaned, NoToken, Perform, Drive, Start;
    DriveCommutes(t, t', orgs, ns, Start(ns, act, e), e);
    Granularity.UninterruptedIsAtomic(t, orgs, ns, act, e);
    Granularity.UninterruptedIsAtomic(t', orgs, ns, act, e);
  }

  // ----- whole worlds

  /** `w'` is `w` after more cleaning: fewer expired tokens, a clock no earlier, and more random values used up. */
  predicate WorldCleaned(w: World, w': World) {
    w'.issued == w.issued && SameBut(w.db, w'.db, w'.now)
  }

  /** Plans do not look at tokens. */
  lemma PlansAgree(w: World, w': World, r: Request, e: Env)
    requires WorldCleaned(w, w')
    ensures PlanOf(w', r, e) == PlanOf(w, r, e)
  {
    if r.Bearer? { CallsAgree(w, w', FromClaims(r.bearer), r.call); }
    hide PlanCall;
  }

  lemma AdminCallsAgree(d: Db, d': Db, u: AuthenticatedUser, call: Call)
    requires d'.orgs == d.orgs && OwnOrganization(d', u) == OwnOrganization(d, u)
    ensures PlanAdminCall(d', u, call) == PlanAdminCall(d, u, call)
  {
    hide OwnOrganization, Email.IsEmail, Email.IsPassword;
  }

  lemma OwnOrganizationsAgree(d: Db, d': Db, u: AuthenticatedUser, now: int)
    requires SameBut(d, d', now)
    ensures OwnOrganization(d', u) == OwnOrganization(d, u)
    ensures u.namespace in d.schemas ==> d'.schemas[u.namespace].users == d.schemas[u.namespace].users
  {}

  lemma CallsAgree(w: World, w': World, u: AuthenticatedUser, call: Call)
    requires WorldCleaned(w, w')
    ensures PlanCall(w'.db, u, call) == PlanCall(w.db, u, call)
  {
    hide OwnOrganization, PlanAdminCall, Cleaned;
    OwnOrganizationsAgree(w.db, w'.db, u, w'.now);
    AdminCallsAgree(w.db, w'.db, u, call);
  }

  lemma DropCommutes(t: Tables, t': Tables, org: int, now: int)
    requires Cleaned(t, t', now)
    ensures DropOrganization(t, org).Some? == DropOrganization(t', org).Some?
    ensures DropOrganization(t, org).Some? ==>
              Cleaned(DropOrganization(t, org).value, DropOrganization(t', org).value, now)
  {}

  predicate SameBut(d: Db, d': Db, now: int) {
    && d' == d.(schemas := d'.schemas) && d'.schemas.Keys == d.schemas.Keys
    && forall ns | ns in d.schemas :: Cleaned(d.schemas[ns], d'.schemas[ns], now)
  }

  lemma SchemaRequestsAgree(d: Db, d': Db, ns: string, act: Act, e: Env)
    requires SameBut(d, d', e.now) && ns in d.schemas && NoToken(d.schemas[ns], e.resetToken)
    ensures Execute(d, InSchema(ns, act), e).out == Execute(d', InSchema(ns, act), e).out
    ensures SameBut(Execute(d, InSchema(ns, act), e).db, Execute(d', InSchema(ns, act), e).db, e.now)
  {
    hide Perform, Cleaned, NoToken;
    PerformCommutes(d.schemas[ns], d'.schemas[ns], d.orgs.Keys, ns, act, e);
  }

  lemma DeletionsAgree(d: Db, d': Db, org: int, e: Env)
    requires SameBut(d, d', e.now)
    ensures Organizations.DeleteOrganization(d, org).out == Organizations.DeleteOrganization(d', org).out
    ensures SameBut(Organizations.DeleteOrganization(d, org).db, Organizations.DeleteOrganization(d', org).db, e.now)
  {
    hide DropOrganization, Cleaned;
    forall ns | ns in d.schemas
      ensures DropOrganization(d.schemas[ns], org).Some? == DropOrganization(d'.schemas[ns], org).Some?
      ensures DropOrganization(d.schemas[ns], org).Some? ==>
                Cleaned(DropOrganization(d.schemas[ns], org).value, DropOrganization(d'.schemas[ns], org).value, e.now)
    {
      DropCommutes(d.schemas[ns], d'.schemas[ns], org, e.now);
    }
  }

  lemma CreationsAgree(d: Db, d': Db, name: string, ns: string, e: Env)
    requires SameBut(d, d', e.now)
    ensures CreateOrg(d, name, ns, e).out == CreateOrg(d', name, ns, e).out
    ensures SameBut(CreateOrg(d, name, ns, e).db, CreateOrg(d', name, ns, e).db, e.now)
  {
    hide SeedGroups, Cleaned;
    var x, x' := InsertOrganization(d, name, ns, e.key), InsertOrganization(d', name, ns, e.key);
    assert x.out == x'.out;
    if x.out.Ok? {
      assert x'.db.orgs == x.db.orgs;
      var y := SeedGroups(Empty(false), x.db.orgs.Keys, DEFAULT_GROUPS, x.out.value.organizationId, e.planner);
      assert Cleaned(y.t, y.t, e.now) by { SelfCleaned(y.t, e.now); }
    }
  }

  lemma SelfCleaned(t: Tables, now: int)
    ensures Cleaned(t, t, now)
  {}

  lemma ExecutionsAgree(d: Db, d': Db, plan: Plan, e: Env)
    requires SameBut(d, d', e.now)
    requires forall ns | ns in d.schemas :: NoToken(d.schemas[ns], e.resetToken)
    ensures Execute(d, plan, e).out == Execute(d', plan, e).out
    ensures SameBut(Execute(d, plan, e).db, Execute(d', plan, e).db, e.now)
  {
    hide Perform, Cleaned, NoToken, CreateOrg, Organizations.DeleteOrganization;
    match plan {
      case InSchema(ns, act) => if ns in d.schemas { SchemaRequestsAgree(d, d', ns, act, e); }
      case OnOrganizations(OrgCreate(name, ns)) => CreationsAgree(d, d', name, ns, e);
      case OnOrganizations(OrgDelete(id)) => DeletionsAgree(d, d', id, e);
      case _ =>
    }
  }

  /** A request answers alike in both worlds and leaves them alike. */
  lemma RequestsAgree(w: World, w': World, r: Request, e: Env)
    requires WorldCleaned(w, w') && w'.now <= e.now
    requires Resets.TokensKnown(w) && e.resetToken !in w.resetTokens
    ensures Apply(w, r, e).1 == Apply(w', r, e).1
    ensures WorldCleaned(Apply(w, r, e).0, Apply(w', r, e).0)
  {
    hide PlanOf, Execute, Cleaned;
    PlansAgree(w, w', r, e);
    forall ns | ns in w.db.schemas ensures Cleaned(w.db.schemas[ns], w'.db.schemas[ns], e.now) {
      CleanedStays(w.db.schemas[ns], w'.db.schemas[ns], w'.now, e.now);
    }
    ExecutionsAgree(w.db, w'.db, PlanOf(w, r, e), e);
  }

  lemma CleanupEventCleans(w: World, ns: string, e: Env)
    requires w.now <= e.now
    ensures WorldCleaned(w, Apply(w, CleanupTokens(ns), e).0)
  {
    hide Cleaned;
    forall s | s in w.db.schemas
      ensures Cleaned(w.db.schemas[s], w.db.schemas[s], e.now)
    {
      SelfCleaned(w.db.schemas[s], e.now);
    }
    if ns in w.db.schemas { CleaningCleans(w.db.schemas[ns], e.now); }
    hide CleanupExpiredTokens;
  }

  /** The run with one clean-up event more, before event `i`. */
  ghost predicate IsRunWithCleanup(tr: Trace, tr': Trace, i: nat, cleanup: Event) {
    && IsRun(tr) && IsRun(tr') && i <= |tr.events|
    && cleanup.request.CleanupTokens?
    && tr'.worlds[0] == tr.worlds[0] && tr'.events == tr.events[..i] + [cleanup] + tr.events[i..]
  }

  lemma {:induction false} SameBefore(tr: Trace, tr': Trace, i: nat, cleanup: Event, j: nat)
    requires IsRunWithCleanup(tr, tr', i, cleanup) && j <= i
    ensures tr'.worlds[j] == tr.worlds[j]
    ensures j > 0 ==> tr'.answers[j - 1] == tr.answers[j - 1]
  {
    hide Apply, Admissible;
    if j > 0 {
      SameBefore(tr, tr', i, cleanup, j - 1);
      assert Step(tr.worlds[j - 1], tr.events[j - 1], tr.worlds[j - 1 + 1], tr.answers[j - 1]);
      assert Step(tr'.worlds[j - 1], tr'.events[j - 1], tr'.worlds[j - 1 + 1], tr'.answers[j - 1]);
    }
  }

  lemma {:induction false} CleanedBehind(tr: Trace, tr': Trace, i: nat, cleanup: Event, j: nat)
    requires IsRunWithCleanup(tr, tr', i, cleanup) && i <= j <= |tr.events|
    requires DbOk(tr.worlds[0].db) && Resets.TokensKnown(tr.worlds[0])
    ensures WorldCleaned(tr.worlds[j], tr'.worlds[j + 1])
    ensures j > i ==> tr'.answers[j] == tr.answers[j - 1]
    decreases j
  {
    hide Apply, WorldCleaned, DbOk, Resets.TokensKnown;
    assert Step(tr'.worlds[j], tr'.events[j], tr'.worlds[j + 1], tr'.answers[j]);
    if j == i {
      SameBefore(tr, tr', i, cleanup, i);
      CleanupEventCleans(tr.worlds[i], cleanup.request.ns, cleanup.env);
    } else {
      CleanedBehind(tr, tr', i, cleanup, j - 1);
      Resets.RunKeepsKnown(tr, j - 1);
      assert Step(tr.worlds[j - 1], tr.events[j - 1], tr.worlds[j - 1 + 1], tr.answers[j - 1]);
      RequestsAgree(tr.worlds[j - 1], tr'.worlds[j], tr.events[j - 1].request, tr.events[j - 1].env);
    }
  }

  /** Clean-up is unobservable: put anywhere into a run, it changes no answer of any other request. */
  lemma CleanupIsUnobservable(tr: Trace, tr': Trace, i: nat, cleanup: Event)
    requires IsRunWithCleanup(tr, tr', i, cleanup)
    requires DbOk(tr.worlds[0].db) && Resets.TokensKnown(tr.worlds[0])
    ensures tr'.answers[..i] + tr'.answers[i + 1..] == tr.answers
  {
    hide DbOk, Resets.TokensKnown, Step;
    forall j | 0 <= j < |tr.answers| ensures tr.answers[j] == (tr'.answers[..i] + tr'.answers[i + 1..])[j] {
      if j < i { SameBefore(tr, tr', i, cleanup, j + 1); } else { CleanedBehind(tr, tr', i, cleanup, j + 1); }
    }
  }
}
