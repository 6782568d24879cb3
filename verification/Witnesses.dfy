/** Runs that show what atomic requests would rule out: two administrators of one namespace, two resets with one
    token. */
module Witnesses {
  import opened Wrappers
  import opened Text
  import opened Environment
  import opened Tables
  import opened Constraints
  import opened Organizations
  import opened Requests
  import opened Steps
  import opened Interleaving
  import opened Schedules
  import opened BootstrapRaces
  import C = Constants
  import Accounts
  import Bootstrap
  import Email
  import Enrolment
  import Granularity
  import Integrity
  import Journeys
  import ResetRaces
  import Staleness

  /** Two requests begin. */
  lemma BothBegin(s: Sys, ns: string, a: int, b: int, f: Act, g: Act, e: Env) returns (r: Interleaved)
    requires s.threads == map[] && a != b && !f.ActResetUserPassword? && !g.ActResetUserPassword?
    ensures IsInterleaving(r) && r.states[0] == s && r.moves == [Begin(a, ns, f), Begin(b, ns, g)] && Last(r).db == s.db
    ensures Last(r).threads == map[a := Thread(ns, f, Start(ns, f, e)), b := Thread(ns, g, Start(ns, g, e))]
  {
    hide Start, SysStep;
    var r0 := JustStarted(s);
    var r1 := BeginOn(r0, a, ns, f, e);
    r := BeginOn(r1, b, ns, g, e);
  }

  /** A transaction that only reads. */
  lemma LookOn(r: Interleaved, id: int, e: Env, l: Local) returns (r': Interleaved)
    requires IsInterleaving(r) && id in Last(r).threads
    requires var s, th := Last(r), Last(r).threads[id];
             && th.ns in s.db.schemas && DrawsNothing(th.local)
             && Advance(s.db.schemas[th.ns], s.db.orgs.Keys, th.ns, th.local, e) == (s.db.schemas[th.ns], l)
    ensures IsInterleaving(r') && Continues(r, r') && r'.moves == r.moves + [Tick(id)]
    ensures Last(r').threads == Last(r).threads[id := Last(r).threads[id].(local := l)] && Last(r').db == Last(r).db
  {
    hide Advance, SysStep, DrawsNothing;
    r' := TickOn(r, id, e);
    var s, ns := Last(r), Last(r).threads[id].ns;
    assert s.db.schemas[ns := s.db.schemas[ns]] == s.db.schemas;
  }

  // ----- two administrators

  /** A registration without requested group whose values pass the checks in front of the first lookup. */
  predicate Plausible(act: Act) {
    && act.ActRegister? && act.group.None? && Email.IsEmail(act.email) && Email.IsPassword(act.password)
    && |act.email| <= 255 && |act.username| <= 50
  }

  /** What `register` goes on with when it has counted no user. */
  function FirstForm(ns: string, act: Act): Accounts.UserForm
    requires act.ActRegister?
  {
    Accounts.UserForm(act.organizationId, act.email, act.username, act.password,
                      [Bootstrap.BootstrapGroup(ns), C.USERS_GROUP], false)
  }

  lemma CountingZero(t: Tables, orgs: set<int>, ns: string, act: Act, e: Env)
    requires Plausible(act) && |t.users| == 0
    ensures Advance(t, orgs, ns, Start(ns, act, e), e) == (t, SeekEmail(FirstForm(ns, act), None, ToLogIn))
  {
    hide Email.IsEmail, Email.IsPassword;
  }

  /** There are serial ids left, and the bootstrap group can be found or inserted. */
  ghost predicate Hospitable(t: Tables, orgs: set<int>, ns: string, org: int) {
    && Valid(t) && org in orgs && t.nextUser <= C.MAX_I64 && Enrolment.Room(t, org) <= C.MAX_I64 + 1
    && Enrolment.Known(t, orgs, Bootstrap.BootstrapGroup(ns), org)
  }

  lemma FirstGroupsAreKnown(t: Tables, orgs: set<int>, ns: string, org: int)
    requires org in orgs && Enrolment.Known(t, orgs, Bootstrap.BootstrapGroup(ns), org)
    ensures Enrolment.AllKnown(t, orgs, [Bootstrap.BootstrapGroup(ns), C.USERS_GROUP], org)
    ensures !Accounts.ReservedIn(ns, Bootstrap.BootstrapGroup(ns)) && !Accounts.ReservedIn(ns, C.USERS_GROUP)
  {
    C.DefaultNames();
  }

  /** `t'` is `t` after a registration that had counted no user. */
  ghost predicate Promoted(t: Tables, t': Tables, ns: string, act: Act)
    requires act.ActRegister?
  {
    && Valid(t') && HoldsPrivilege(t', t.nextUser) && t'.nextUser == t.nextUser + 1
    && t'.users
       == t.users[t.nextUser := User(t.nextUser, act.organizationId, act.email, act.username, Argon2(act.password),
                                     false)]
    && Enrolment.Joined(t, t', FirstForm(ns, act).groups) && Enrolment.Room(t', act.organizationId) <= C.MAX_I64 + 1
  }

  /** A registration that has counted no user becomes an administrator, whoever has been stored meanwhile. */
  lemma FirstFormSucceeds(t: Tables, orgs: set<int>, ns: string, act: Act, e: Env)
    requires Plausible(act) && Hospitable(t, orgs, ns, act.organizationId)
    requires EmailRows(t, act.email) == {} && UsernameRows(t, act.username) == {}
    ensures var x := Drive(t, orgs, ns, SeekEmail(FirstForm(ns, act), None, ToLogIn), e);
            x.out.Ok? && Promoted(t, x.t, ns, act)
  {
    var f := FirstForm(ns, act);
    var x := Accounts.CreateUser(t, orgs, ns, f, None, e.planner);
    hide Accounts.CreateUser, Drive, Enrolment.Known, Enrolment.Wanted, Enrolment.AllKnown, Enrolment.Room, Valid,
      EmailRows, UsernameRows, Enrolment.Joined, Accounts.ReservedIn, Email.IsEmail, Email.IsPassword, HoldsPrivilege,
      Staleness.HoldsIn, Bootstrap.BootstrapGroup;
    FirstGroupsAreKnown(t, orgs, ns, act.organizationId);
    Enrolment.CreateUserSucceedsExactly(t, orgs, ns, f, None, e.planner);
    Enrolment.CreateUserJoins(t, orgs, ns, f, None, e.planner);
    Enrolment.CreateUserKeepsRoom(t, orgs, ns, f, None, e.planner);
    Journeys.CreatedRow(t, orgs, ns, f, None, e.planner);
    Granularity.DriveCreateUser(t, orgs, ns, f, None, ToLogIn, e);
    Integrity.DriveKeepsValid(t, orgs, ns, SeekEmail(f, None, ToLogIn), e);
    NewcomerHoldsFirst(t, orgs, ns, f, e);
  }

  lemma NewcomerHoldsFirst(t: Tables, orgs: set<int>, ns: string, f: Accounts.UserForm, e: Env)
    requires Valid(t) && f.groups == [Bootstrap.BootstrapGroup(ns), C.USERS_GROUP]
    requires Accounts.CreateUser(t, orgs, ns, f, None, e.planner).out.Ok?
    ensures HoldsPrivilege(Accounts.CreateUser(t, orgs, ns, f, None, e.planner).t, t.nextUser)
  {
    var x := Accounts.CreateUser(t, orgs, ns, f, None, e.planner);
    var name := Bootstrap.BootstrapGroup(ns);
    assert name in Enrolment.Wanted(f.groups) && C.IsPrivilegedGroup(name) by {
      C.DefaultNames();
      assert Trim(Accounts.OrUsers(f.groups)[0]) == name;
    }
    hide Valid, Enrolment.Wanted, C.IsPrivilegedGroup, Bootstrap.BootstrapGroup;
    Enrolment.CreateUserAnswersWanted(t, orgs, ns, f, None, e.planner);
    var u := AnsweredUser(t, orgs, ns, f, e.planner);
    Staleness.ResponseNamesMemberships(x.t, u, ns, e.planner, name);
  }

  lemma AnsweredUser(t: Tables, orgs: set<int>, ns: string, f: Accounts.UserForm, q: Planner) returns (u: User)
    requires Accounts.CreateUser(t, orgs, ns, f, None, q).out.Ok?
    ensures var x := Accounts.CreateUser(t, orgs, ns, f, None, q); x.out.value == Accounts.Respond(x.t, u, ns, q)
  {
    hide Accounts.ResolveGroupIds, InsertUser, Accounts.AssignAll, Accounts.Respond;
    var x := Accounts.ResolveGroupIds(t, orgs, ns, f.groups, f.organizationId, q);
    u := InsertUser(x.t, orgs,
                    NewUser(f.organizationId, f.email, f.username, Argon2(f.password), f.firstLogin)).out.value;
  }

  lemma SecondFits(t: Tables, t': Tables, orgs: set<int>, ns: string, f: Act, g: Act)
    requires Plausible(f) && Plausible(g) && f.organizationId == g.organizationId
             && Hospitable(t, orgs, ns, f.organizationId)
    requires Lower(f.email) != Lower(g.email) && f.username != g.username && t.users == map[]
    requires Promoted(t, t', ns, f) && t.nextUser < C.MAX_I64
    ensures Hospitable(t', orgs, ns, f.organizationId) && EmailRows(t', g.email) == {}
            && UsernameRows(t', g.username) == {}
  {
    hide Lower, Email.IsEmail, Email.IsPassword, Enrolment.Wanted, Valid, Enrolment.Room;
    assert forall h :: Enrolment.Names(t, h, Bootstrap.BootstrapGroup(ns), f.organizationId) ==>
        Enrolment.Names(t', h, Bootstrap.BootstrapGroup(ns), f.organizationId);
  }

  lemma PrivilegeIsKept(t: Tables, t': Tables, ns: string, act: Act, userId: int)
    requires act.ActRegister? && Promoted(t, t', ns, act) && HoldsPrivilege(t, userId)
    ensures HoldsPrivilege(t', userId)
  {
    var g :| (userId, g) in t.members && g in t.groups && C.IsPrivilegedGroup(t.groups[g].name);
    hide C.IsPrivilegedGroup, Enrolment.Wanted, Valid, Enrolment.Room, HoldsPrivilege, FirstForm;
    assert (userId, g) in t'.members && g in t'.groups && C.IsPrivilegedGroup(t'.groups[g].name);
    assert HoldsPrivilege(t', userId) by { HoldingIs(t', userId, g); }
  }

  lemma HoldingIs(t: Tables, userId: int, g: int)
    requires (userId, g) in t.members && g in t.groups && C.IsPrivilegedGroup(t.groups[g].name)
    ensures HoldsPrivilege(t, userId)
  {
    hide C.IsPrivilegedGroup;
  }

  lemma PromotedHolds(t: Tables, t': Tables, ns: string, act: Act)
    requires act.ActRegister? && Promoted(t, t', ns, act)
    ensures HoldsPrivilege(t', t.nextUser) && t'.nextUser == t.nextUser + 1
  {
    hide HoldsPrivilege, Valid, Enrolment.Joined, Enrolment.Room;
  }

  /** Begin, begin, count, count. */
  lemma BothCount(s: Sys, ns: string, a: int, b: int, f: Act, g: Act, e: Env) returns (r: Interleaved)
    requires s.threads == map[] && ns in s.db.schemas && |s.db.schemas[ns].users| == 0 && a != b && Plausible(f)
             && Plausible(g)
    ensures IsInterleaving(r) && r.states[0] == s && r.moves == [Begin(a, ns, f), Begin(b, ns, g), Tick(a), Tick(b)]
    ensures Last(r).db == s.db
    ensures Last(r).threads == map[a := Thread(ns, f, SeekEmail(FirstForm(ns, f), None, ToLogIn)),
                                   b := Thread(ns, g, SeekEmail(FirstForm(ns, g), None, ToLogIn))]
  {
    var t, orgs := s.db.schemas[ns], s.db.orgs.Keys;
    hide Plausible, FirstForm, Start, Advance, SysStep, DrawsNothing, IsInterleaving, Continues;
    StartsByCounting(ns, f, e);
    StartsByCounting(ns, g, e);
    CountingZero(t, orgs, ns, f, e);
    CountingZero(t, orgs, ns, g, e);
    var r2 := BothBegin(s, ns, a, b, f, g, e);
    var r3 := LookOn(r2, a, e, SeekEmail(FirstForm(ns, f), None, ToLogIn));
    r := LookOn(r3, b, e, SeekEmail(FirstForm(ns, g), None, ToLogIn));
  }

  lemma StartsByCounting(ns: string, act: Act, e: Env)
    requires Plausible(act)
    ensures act.ActRegister? && DrawsNothing(Start(ns, act, e))
  {}

  lemma NobodyMatches(t: Tables, act: Act)
    requires act.ActRegister? && t.users == map[]
    ensures EmailRows(t, act.email) == {} && UsernameRows(t, act.username) == {}
  {
    hide Lower;
  }

  lemma BothFirstForms(t: Tables, orgs: set<int>, ns: string, f: Act, g: Act, e: Env)
    requires Plausible(f) && Plausible(g) && f.organizationId == g.organizationId
    requires Lower(f.email) != Lower(g.email) && f.username != g.username
    requires Hospitable(t, orgs, ns, f.organizationId) && t.nextUser < C.MAX_I64 && t.users == map[]
    ensures var x := Drive(t, orgs, ns, SeekEmail(FirstForm(ns, f), None, ToLogIn), e);
            var y := Drive(x.t, orgs, ns, SeekEmail(FirstForm(ns, g), None, ToLogIn), e);
            HoldsPrivilege(y.t, t.nextUser) && HoldsPrivilege(y.t, t.nextUser + 1)
  {
    hide Email.IsEmail, Email.IsPassword, Lower, Drive, HoldsPrivilege, Hospitable, Promoted, EmailRows, UsernameRows,
      FirstForm;
    NobodyMatches(t, f);
    FirstFormSucceeds(t, orgs, ns, f, e);
    var x := Drive(t, orgs, ns, SeekEmail(FirstForm(ns, f), None, ToLogIn), e);
    SecondFits(t, x.t, orgs, ns, f, g);
    FirstFormSucceeds(x.t, orgs, ns, g, e);
    var y := Drive(x.t, orgs, ns, SeekEmail(FirstForm(ns, g), None, ToLogIn), e);
    PromotedHolds(t, x.t, ns, f);
    PromotedHolds(x.t, y.t, ns, g);
    PrivilegeIsKept(x.t, y.t, ns, g, t.nextUser);
  }

  /** One registration to its end, then the other. */
  lemma BothDrive(r: Interleaved, ns: string, a: int, b: int, e: Env) returns (r': Interleaved)
    requires IsInterleaving(r) && a != b && a in Last(r).threads && b in Last(r).threads && ns in Last(r).db.schemas
    requires forall id | id in {a, b} :: Last(r).threads[id].ns == ns && CreatesUser(Last(r).threads[id].local)
    ensures IsInterleaving(r') && Continues(r, r')
            && forall k | |r.moves| <= k < |r'.moves| :: r'.moves[k] in {Tick(a), Tick(b)}
    ensures var s := Last(r);
            var x := Drive(s.db.schemas[ns], s.db.orgs.Keys, ns, s.threads[a].local, e);
            Schema(Last(r').db, ns) == Drive(x.t, s.db.orgs.Keys, ns, s.threads[b].local, e).t
  {
    hide IsInterleaving, Drive;
    var r1 := DriveOn(r, a, e);
    r' := DriveOn(r1, b, e);
  }

  /** Two registrations with different e-mails and user names that both count before either stores its user both
      succeed, and the namespace ends up with two administrators. */
  lemma TwoAdministrators(s: Sys, ns: string, a: int, b: int, f: Act, g: Act, e: Env) returns (r: Interleaved)
    requires Unsettled(s, ns) && ns in s.db.schemas && a != b
    requires Plausible(f) && Plausible(g) && f.organizationId == g.organizationId
    requires Lower(f.email) != Lower(g.email) && f.username != g.username
    requires Hospitable(s.db.schemas[ns], s.db.orgs.Keys, ns, f.organizationId) && s.db.schemas[ns].nextUser < C.MAX_I64
    ensures IsInterleaving(r) && r.states[0] == s
    ensures |r.moves| >= 4 && r.moves[..4] == [Begin(a, ns, f), Begin(b, ns, g), Tick(a), Tick(b)]
    ensures forall k | 4 <= k < |r.moves| :: r.moves[k] in {Tick(a), Tick(b)}
    ensures var u := s.db.schemas[ns].nextUser;
            HoldsPrivilege(Schema(Last(r).db, ns), u) && HoldsPrivilege(Schema(Last(r).db, ns), u + 1)
  {
    hide SysStep, Drive, HoldsPrivilege, Hospitable, Lower, Plausible, FirstForm, Valid;
    var r4 := BothCount(s, ns, a, b, f, g, e);
    r := BothDrive(r4, ns, a, b, e);
    BothFirstForms(s.db.schemas[ns], s.db.orgs.Keys, ns, f, g, e);
  }

  // ----- two resets

  lemma ResetSteps(t: Tables, orgs: set<int>, ns: string, act: Act, e: Env)
    requires act.ActResetPassword? && FindValidToken(t, act.token, e).Some?
             && Utf8Length(act.newPassword) >= C.MIN_PASSWORD_LENGTH
    ensures var l := Start(ns, act, e);
            l.SeekResetToken? && Advance(t, orgs, ns, l, e).0 == t && Advance(t, orgs, ns, l, e).1.WriteResetPassword?
  {
    hide FindValidToken, Utf8Length;
  }

  lemma ResetEnds(t: Tables, orgs: set<int>, ns: string, l: Local, e: Env)
    ensures l.WriteResetPassword? ==> Advance(t, orgs, ns, l, e).1.MarkResetToken?
    ensures l.MarkResetToken? ==> ResetRaces.Succeeded(Advance(t, orgs, ns, l, e).1)
  {
    hide UpdatePassword, MarkTokenUsed;
  }

  /** Behind its first transaction, a reset can run to its end. */
  lemma FinishReset(r: Interleaved, id: int, e: Env) returns (r': Interleaved)
    requires IsInterleaving(r) && id in Last(r).threads
    requires var th := Last(r).threads[id]; th.ns in Last(r).db.schemas && th.local.WriteResetPassword?
    ensures IsInterleaving(r') && Continues(r, r') && r'.moves == r.moves + [Tick(id), Tick(id)]
    ensures var th := Last(r).threads[id];
            && Last(r').db.schemas.Keys == Last(r).db.schemas.Keys
            && id in Last(r').threads
               && Last(r').threads == Last(r).threads[id := th.(local := Last(r').threads[id].local)]
            && ResetRaces.Succeeded(Last(r').threads[id].local)
  {
    hide Advance, SysStep;
    var th := Last(r).threads[id];
    ResetEnds(Last(r).db.schemas[th.ns], Last(r).db.orgs.Keys, th.ns, th.local, e);
    var r1 := TickOn(r, id, e);
    ResetEnds(Last(r1).db.schemas[th.ns], Last(r1).db.orgs.Keys, th.ns, Last(r1).threads[id].local, e);
    r' := TickOn(r1, id, e);
  }

  /** Two resets that both look for a usable token before either marks it both succeed. */
  lemma TwoResets(s: Sys, ns: string, a: int, b: int, f: Act, g: Act, e: Env) returns (r: Interleaved)
    requires s.threads == map[] && ns in s.db.schemas && a != b
    requires f.ActResetPassword? && g.ActResetPassword? && f.token == g.token
             && FindValidToken(s.db.schemas[ns], f.token, e).Some?
    requires Utf8Length(f.newPassword) >= C.MIN_PASSWORD_LENGTH && Utf8Length(g.newPassword) >= C.MIN_PASSWORD_LENGTH
    ensures IsInterleaving(r) && r.states[0] == s
    ensures r.moves == [Begin(a, ns, f), Begin(b, ns, g), Tick(a), Tick(b), Tick(a), Tick(a), Tick(b), Tick(b)]
    ensures ResetRaces.ResetsIn(Last(r), a, ns, f.token) && ResetRaces.Succeeded(Last(r).threads[a].local)
    ensures ResetRaces.ResetsIn(Last(r), b, ns, f.token) && ResetRaces.Succeeded(Last(r).threads[b].local)
  {
    hide Advance, Start, FindValidToken, Utf8Length, SysStep;
    var t, orgs := s.db.schemas[ns], s.db.orgs.Keys;
    ResetSteps(t, orgs, ns, f, e);
    ResetSteps(t, orgs, ns, g, e);
    var r2 := BothBegin(s, ns, a, b, f, g, e);
    var r3 := LookOn(r2, a, e, Advance(t, orgs, ns, Start(ns, f, e), e).1);
    var r4 := LookOn(r3, b, e, Advance(t, orgs, ns, Start(ns, g, e), e).1);
    var r6 := FinishReset(r4, a, e);
    r := FinishReset(r6, b, e);
  }
}
