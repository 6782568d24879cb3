/** Stored credentials against the history of writes. */
module Ledger {
  import opened Wrappers
  import opened Text
  import opened Environment
  import opened Tables
  import opened Constraints
  import opened Organizations
  import opened Requests
  import opened Integrity
  import Accounts
  import Decisions
  import Email

  datatype Account = Account(hash: PasswordHash, mustChange: bool)

  /** What one request writes about credentials. A token reset says nothing about `first_login`. */
  datatype Note =
    | Nothing
    | Opened(userId: int, hash: PasswordHash, mustChange: bool)
    | Rekeyed(userId: int, hash: PasswordHash, flag: Option<bool>)
    | Flagged(userId: int, mustChange: bool)
    | Closed(users: set<int>)

  /** The last password written to `userId`, unless the account was closed behind it. */
  function LastPassword(base: map<int, Account>, notes: seq<Note>, userId: int): Option<PasswordHash> {
    if notes == [] then if userId in base then Some(base[userId].hash) else None
    else
      var earlier := LastPassword(base, notes[..|notes| - 1], userId);
      match notes[|notes| - 1]
      case Opened(u, hash, _) => if u == userId then Some(hash) else earlier
      case Rekeyed(u, hash, _) => if u == userId then Some(hash) else earlier
      case Closed(users) => if userId in users then None else earlier
      case _ => earlier
  }

  /** The last `first_login` written to `userId`. */
  function LastFlag(base: map<int, Account>, notes: seq<Note>, userId: int): Option<bool> {
    if notes == [] then if userId in base then Some(base[userId].mustChange) else None
    else
      var earlier := LastFlag(base, notes[..|notes| - 1], userId);
      match notes[|notes| - 1]
      case Opened(u, _, b) => if u == userId then Some(b) else earlier
      case Rekeyed(u, _, b) => if u == userId && b.Some? then b else earlier
      case Flagged(u, b) => if u == userId then Some(b) else earlier
      case Closed(users) => if userId in users then None else earlier
      case Nothing => earlier
  }

  /** The credentials in the table. */
  function Stored(t: Tables): map<int, Account> {
    map u | u in t.users :: Account(t.users[u].passwordHash, t.users[u].firstLogin)
  }

  /** What an act wrote, told from the request, the outcome, the serial counter and the issuee of a token. */
  function NoteOf(t: Tables, act: Act, e: Env, x: Tx<Answer>): Note {
    match act
    case ActRegister(_, _, _, password, _) =>
      if x.t.nextUser > t.nextUser then Opened(t.nextUser, Argon2(password), false) else Nothing
    case ActCreateUser(f, _) =>
      if x.t.nextUser > t.nextUser then Opened(t.nextUser, Argon2(f.password), f.firstLogin) else Nothing
    case ActChangePassword(userId, _, new_) => if x.out.Ok? then Rekeyed(userId, Argon2(new_), Some(false)) else Nothing
    case ActResetUserPassword(userId) =>
      if userId in t.users then Rekeyed(userId, Argon2(e.temporaryPassword), Some(true)) else Nothing
    case ActResetPassword(token, new_) =>
      var row := FindValidToken(t, token, e);
      if x.out.Ok? && row.Some? then Rekeyed(row.value.userId, Argon2(new_), None) else Nothing
    case ActUpdateUser(userId, _, _, flag) => if x.out.Ok? && flag.Some? then Flagged(userId, flag.value) else Nothing
    case ActDeleteUser(userId) => if x.out.Ok? then Closed({userId}) else Nothing
    case _ => Nothing
  }

  /** The table with one note more. */
  function Posted(accounts: map<int, Account>, n: Note): map<int, Account> {
    match n
    case Nothing => accounts
    case Opened(u, hash, b) => accounts[u := Account(hash, b)]
    case Rekeyed(u, hash, b) =>
      if u in accounts then accounts[u := Account(hash, if b.Some? then b.value else accounts[u].mustChange)]
        else accounts
    case Flagged(u, b) => if u in accounts then accounts[u := accounts[u].(mustChange := b)] else accounts
    case Closed(users) => accounts - users
  }

  // ----- one request

  lemma {:induction false} ResolveKeepsUsers(t: Tables, orgs: set<int>, groups: seq<string>, org: int, q: Planner)
    ensures var t' := Accounts.ResolveAll(t, orgs, groups, org, q).t; t'.users == t.users && t'.nextUser == t.nextUser
    decreases |groups|
  {
    if groups != [] { ResolveKeepsUsers(Accounts.ResolveOne(t, orgs, groups[0], org, q).t, orgs, groups[1..], org, q); }
  }

  lemma {:induction false} AssignKeepsUsers(t: Tables, userId: int, ids: seq<int>, assignedBy: Option<int>)
    ensures var t' := Accounts.AssignAll(t, userId, ids, assignedBy).t; t'.users == t.users && t'.nextUser == t.nextUser
    decreases |ids|
  {
    if ids != [] { AssignKeepsUsers(AssignUserToGroup(t, userId, ids[0], assignedBy).t, userId, ids[1..], assignedBy); }
  }

  /** Creating a user opens one account at most, under the next serial id, whatever happens behind the insertion. */
  lemma CreateUserPosts(t: Tables, orgs: set<int>, ns: string, f: Accounts.UserForm, adminId: Option<int>, q: Planner)
    ensures var t' := Accounts.CreateUser(t, orgs, ns, f, adminId, q).t;
            if t'.nextUser > t.nextUser then Stored(t') == Stored(t)[t.nextUser := Account(Argon2(f.password),
              f.firstLogin)]
            else t'.users == t.users
  {
    hide InsertGroup, Accounts.Respond;
    var x := Accounts.ResolveGroupIds(t, orgs, ns, f.groups, f.organizationId, q);
    ResolveKeepsUsers(t, orgs, Accounts.OrUsers(f.groups), f.organizationId, q);
    if x.out.Ok? {
      var n := NewUser(f.organizationId, f.email, f.username, Argon2(f.password), f.firstLogin);
      InsertPosts(x.t, orgs, n);
      var y := InsertUser(x.t, orgs, n);
      if y.out.Ok? { AssignKeepsUsers(y.t, y.out.value.userId, x.out.value, adminId); }
    }
    hide InsertUser;
  }

  lemma InsertPosts(t: Tables, orgs: set<int>, n: NewUser)
    ensures var y := InsertUser(t, orgs, n);
            if y.out.Ok? then y.t.nextUser > t.nextUser
              && Stored(y.t) == Stored(t)[t.nextUser := Account(n.passwordHash, n.firstLogin)]
            else y.t == t
  {}

  lemma PasswordPosts(t: Tables, userId: int, hash: PasswordHash)
    ensures var t' := UpdatePassword(t, userId, hash).t;
            Stored(t') == Posted(Stored(t), Rekeyed(userId, hash, None)) && t'.users.Keys == t.users.Keys
  {}

  lemma FlagPosts(t: Tables, userId: int, b: bool)
    ensures SetFirstLogin(t, userId, b).out == Ok(()) && Stored(SetFirstLogin(t, userId, b).t) ==
            Posted(Stored(t), Flagged(userId, b))
  {}

  lemma ProfilePosts(t: Tables, userId: int, email: string, username: string)
    ensures Stored(UpdateProfile(t, userId, email, username).t) == Stored(t)
  {
    hide ProfileFits;
  }

  lemma RekeyPosts(t: Tables, userId: int, hash: PasswordHash, b: bool)
    ensures var x := SetFirstLogin(UpdatePassword(t, userId, hash).t, userId, b);
            x.out == Ok(()) && Stored(x.t) == Posted(Stored(t), Rekeyed(userId, hash, Some(b)))
  {
    hide UpdatePassword, SetFirstLogin, Stored;
    PasswordPosts(t, userId, hash);
    FlagPosts(UpdatePassword(t, userId, hash).t, userId, b);
  }

  lemma PasswordActPosts(t: Tables, orgs: set<int>, ns: string, act: Act, e: Env)
    requires act.ActChangePassword? || act.ActResetUserPassword? || act.ActResetPassword?
    ensures var x := Perform(t, orgs, ns, act, e); Stored(x.t) == Posted(Stored(t), NoteOf(t, act, e, x))
  {
    hide UpdatePassword, SetFirstLogin, Email.IsPassword, Utf8Length, FindValidToken;
    match act {
      case ActChangePassword(userId, _, new_) => RekeyPosts(t, userId, Argon2(new_), false);
      case ActResetUserPassword(userId) => RekeyPosts(t, userId, Argon2(e.temporaryPassword), true);
      case ActResetPassword(token, new_) =>
        match FindValidToken(t, token, e) {
          case None =>
          case Some(r) =>
            PasswordPosts(t, r.userId, Argon2(new_));
            var t' := UpdatePassword(t, r.userId, Argon2(new_)).t;
            assert Stored(MarkTokenUsed(t', r.tokenId, e.now).t) == Stored(t');
        }
    }
  }

  lemma UpdateUserPosts(t: Tables, orgs: set<int>, ns: string, act: Act, e: Env)
    requires Valid(t) && act.ActUpdateUser?
    ensures var x := Perform(t, orgs, ns, act, e); Stored(x.t) == Posted(Stored(t), NoteOf(t, act, e, x))
  {
    hide UpdateProfile, SetFirstLogin, Accounts.Respond, Email.IsEmail;
    if act.userId in t.users {
      var u := t.users[act.userId];
      assert u.userId == act.userId;
      var email := if act.newEmail.Some? then act.newEmail.value else u.email;
      var username := if act.newUsername.Some? then act.newUsername.value else u.username;
      ProfilePosts(t, u.userId, email, username);
      if act.firstLogin.Some? {
        FlagPosts(UpdateProfile(t, u.userId, email, username).t, u.userId, act.firstLogin.value);
      }
    }
  }

  lemma ErasePosts(t: Tables, users: set<int>, groups: set<int>, policies: set<int>)
    ensures Erase(t, users, groups, policies).Some? ==>
              Stored(Erase(t, users, groups, policies).value) == Posted(Stored(t), Closed(users))
  {}

  /** Refinement: the stored credentials after a request are those before it with what the request wrote. */
  lemma PerformPosts(t: Tables, orgs: set<int>, ns: string, act: Act, e: Env)
    requires Valid(t)
    ensures var x := Perform(t, orgs, ns, act, e); Stored(x.t) == Posted(Stored(t), NoteOf(t, act, e, x))
  {
    hide Valid, Stored, Accounts.CreateUser;
    match act {
      case ActRegister(org, email, username, password, group) =>
        var groups := Accounts.RegistrationGroups(ns, group, |t.users|);
        if groups.Ok? {
          CreatedPosts(t, orgs, ns, Accounts.UserForm(org, email, username, password, groups.value, false), None,
                       e.planner);
        }
      case ActCreateUser(form, adminId) => CreatedPosts(t, orgs, ns, form, adminId, e.planner);
      case ActDeleteUser(userId) =>
        hide Erase;
        ErasePosts(t, {userId}, {}, {});
      case ActUpdateUser(_, _, _, _) => UpdateUserPosts(t, orgs, ns, act, e);
      case _ =>
        if act.ActChangePassword? || act.ActResetUserPassword? || act.ActResetPassword? {
          PasswordActPosts(t, orgs, ns, act, e);
        }
        else { OtherActsPostNothing(t, orgs, ns, act, e); }
        hide Perform;
    }
  }

  lemma CreatedPosts(t: Tables, orgs: set<int>, ns: string, f: Accounts.UserForm, adminId: Option<int>, q: Planner)
    ensures var t' := Accounts.CreateUser(t, orgs, ns, f, adminId, q).t;
            Stored(t')
              == Posted(Stored(t), if t'.nextUser > t.nextUser then Opened(t.nextUser, Argon2(f.password), f.firstLogin)
                        else Nothing)
  {
    hide Accounts.CreateUser;
    CreateUserPosts(t, orgs, ns, f, adminId, q);
  }

  predicate IsReading(act: Act) { act.ActLogin? || act.ActCheckPermission? || act.ActRefresh? }

  predicate IsTokenKeeping(act: Act) { act.ActForgotPassword? || act.ActCleanup? || act.ActSendReset? }

  predicate IsGrouping(act: Act) {
    act.ActCreateGroup? || act.ActJoinGroup? || act.ActLeaveGroup? || act.ActCreatePolicy?
  }

  lemma InsertionsPostNothing(t: Tables, orgs: set<int>, name: string, org: int, resource: string, action: string,
                              effect: Effect)
    ensures InsertGroup(t, orgs, name, org).t.users == t.users
    ensures InsertPolicy(t, orgs, name, org, resource, action, effect).t.users == t.users
  {
    hide GroupRows;
  }

  lemma CreatingPostsNothing(t: Tables, orgs: set<int>, ns: string, act: Act, e: Env)
    requires act.ActCreateGroup? || act.ActCreatePolicy?
    ensures Perform(t, orgs, ns, act, e).t.users == t.users
  {
    hide PolicyRows, Accounts.ReservedIn, FindGroupByName, InsertGroup, InsertPolicy;
    match act {
      case ActCreateGroup(org, name) => InsertionsPostNothing(t, orgs, name, org, "", "", Deny);
      case ActCreatePolicy(org, name, resource, action, effect) =>
        InsertionsPostNothing(t, orgs, name, org, resource, action, effect);
    }
  }

  lemma JoiningPostsNothing(t: Tables, orgs: set<int>, ns: string, act: Act, e: Env)
    requires act.ActJoinGroup? || act.ActLeaveGroup?
    ensures Perform(t, orgs, ns, act, e).t.users == t.users
  {
    hide Accounts.ReservedIn;
  }

  lemma GroupingPostsNothing(t: Tables, orgs: set<int>, ns: string, act: Act, e: Env)
    requires IsGrouping(act)
    ensures Perform(t, orgs, ns, act, e).t.users == t.users
  {
    hide Perform;
    if act.ActCreateGroup? || act.ActCreatePolicy? {
      CreatingPostsNothing(t, orgs, ns, act, e);
    } else {
      JoiningPostsNothing(t, orgs, ns, act, e);
    }
  }

  lemma OtherActsPostNothing(t: Tables, orgs: set<int>, ns: string, act: Act, e: Env)
    requires IsReading(act) || IsTokenKeeping(act) || IsGrouping(act)
    ensures var x := Perform(t, orgs, ns, act, e); Stored(x.t) == Stored(t) && NoteOf(t, act, e, x) == Nothing
  {
    if IsGrouping(act) {
      GroupingPostsNothing(t, orgs, ns, act, e);
      hide Perform;
    } else {
      hide Accounts.Login, Accounts.RefreshTokenForUser, Decisions.CheckPermission, FindByEmail;
      assert Perform(t, orgs, ns, act, e).t.users == t.users;
    }
  }

  /** Only an existing account is rekeyed or flagged. */
  predicate Fits(accounts: map<int, Account>, n: Note) {
    match n
    case Rekeyed(u, _, _) => u in accounts
    case Flagged(u, _) => u in accounts
    case _ => true
  }

  lemma PerformNotesFit(t: Tables, orgs: set<int>, ns: string, act: Act, e: Env)
    requires Valid(t)
    ensures Fits(Stored(t), NoteOf(t, act, e, Perform(t, orgs, ns, act, e)))
  {
    hide Accounts.CreateUser, Accounts.Register, Accounts.Respond, UpdateProfile, Email.IsEmail, Email.IsPassword,
      Utf8Length;
    match act {
      case ActResetPassword(token, _) =>
        assert FindValidToken(t, token, e).Some? ==> FindValidToken(t, token, e).value.userId in t.users;
      case ActChangePassword(_, _, _) =>
      case ActUpdateUser(_, _, _, _) =>
      case _ => hide Perform;
    }
  }

  // ----- runs

  function StoredAt(d: Db, ns: string): map<int, Account> {
    if ns in d.schemas then Stored(d.schemas[ns]) else map[]
  }

  /** What one event wrote in namespace `ns`. */
  function EventNote(w: World, ev: Event, ns: string): Note {
    if ns !in w.db.schemas then Nothing
    else
      var t := w.db.schemas[ns];
      match PlanOf(w, ev.request, ev.env)
      case InSchema(home, act) =>
        if home == ns then NoteOf(t, act, ev.env, Perform(t, w.db.orgs.Keys, ns, act, ev.env)) else Nothing
      case OnOrganizations(OrgDelete(org)) =>
        if Organizations.DeleteOrganization(w.db, org).out.Ok? then Closed(set u | u in t.users
          && t.users[u].organizationId == org) else Nothing
      case _ => Nothing
  }

  function History(tr: Trace, ns: string, j: nat): (notes: seq<Note>)
    requires j <= |tr.events| && |tr.worlds| == |tr.events| + 1
    ensures |notes| == j
  {
    if j == 0 then [] else History(tr, ns, j - 1) + [EventNote(tr.worlds[j - 1], tr.events[j - 1], ns)]
  }

  lemma {:induction false} SeedKeepsUsers(t: Tables, orgs: set<int>, names: seq<string>, org: int, q: Planner)
    ensures SeedGroups(t, orgs, names, org, q).t.users == t.users
    decreases |names|
  {
    if names != [] {
      var rest := if FindGroupByName(t, names[0], org, q).Some? then t else InsertGroup(t, orgs, names[0], org).t;
      SeedKeepsUsers(rest, orgs, names[1..], org, q);
    }
  }

  lemma DeletionPosts(d: Db, org: int, ns: string)
    requires ns in d.schemas
    ensures var x := Organizations.DeleteOrganization(d, org);
            && ns in x.db.schemas
            && Stored(x.db.schemas[ns]) == Posted(Stored(d.schemas[ns]),
                 if x.out.Ok? then Closed(set u | u in d.schemas[ns].users
                                          && d.schemas[ns].users[u].organizationId == org) else Nothing)
  {
    hide Erase, Stored;
    var t := d.schemas[ns];
    ErasePosts(t, set u | u in t.users && t.users[u].organizationId == org,
               set g | g in t.groups && t.groups[g].organizationId == org,
               set p | p in t.policies && t.policies[p].organizationId == org);
  }

  lemma StepPosts(w: World, ev: Event, w': World, a: Answer, ns: string)
    requires DbOk(w.db) && Step(w, ev, w', a)
    ensures StoredAt(w'.db, ns) ==
            Posted(StoredAt(w.db, ns), EventNote(w, ev, ns)) && Fits(StoredAt(w.db, ns), EventNote(w, ev, ns))
  {
    hide Valid, Perform, Stored, PlanOf, NoteOf, Organizations.DeleteOrganization, SeedGroups, Posted, Fits;
    NothingPosts(StoredAt(w.db, ns));
    match PlanOf(w, ev.request, ev.env) {
      case InSchema(home, act) =>
        if home == ns && ns in w.db.schemas {
          PerformPosts(w.db.schemas[ns], w.db.orgs.Keys, ns, act, ev.env);
          PerformNotesFit(w.db.schemas[ns], w.db.orgs.Keys, ns, act, ev.env);
        }
      case OnOrganizations(OrgDelete(org)) =>
        if ns in w.db.schemas {
          DeletionPosts(w.db, org, ns);
          ClosingFits(StoredAt(w.db, ns), set u | u in w.db.schemas[ns].users
                      && w.db.schemas[ns].users[u].organizationId == org);
        } else {
          DeletionAddsNoSchema(w.db, org, ns);
        }
      case OnOrganizations(OrgCreate(name, created)) => CreationPosts(w.db, name, created, ev.env, ns);
      case _ =>
    }
  }

  lemma NothingPosts(accounts: map<int, Account>)
    ensures Posted(accounts, Nothing) == accounts && Fits(accounts, Nothing)
  {}

  lemma ClosingFits(accounts: map<int, Account>, users: set<int>)
    ensures Fits(accounts, Closed(users))
  {}

  lemma DeletionAddsNoSchema(d: Db, org: int, ns: string)
    requires ns !in d.schemas
    ensures ns !in Organizations.DeleteOrganization(d, org).db.schemas
  {}

  lemma CreationPosts(d: Db, name: string, created: string, e: Env, ns: string)
    ensures StoredAt(CreateOrg(d, name, created, e).db, ns) == StoredAt(d, ns)
  {
    hide SeedGroups;
    var x := InsertOrganization(d, name, created, e.key);
    if x.out.Ok? {
      SeedKeepsUsers(Empty(false), x.db.orgs.Keys, DEFAULT_GROUPS, x.out.value.organizationId, e.planner);
    }
  }

  /** The last write of the history is what the table holds. */
  ghost predicate Tallies(accounts: map<int, Account>, base: map<int, Account>, notes: seq<Note>) {
    forall u ::
      && LastPassword(base, notes, u) == (if u in accounts then Some(accounts[u].hash) else None)
      && LastFlag(base, notes, u) == (if u in accounts then Some(accounts[u].mustChange) else None)
  }

  lemma PostingTallies(accounts: map<int, Account>, base: map<int, Account>, notes: seq<Note>, n: Note)
    requires Tallies(accounts, base, notes) && Fits(accounts, n)
    ensures Tallies(Posted(accounts, n), base, notes + [n])
  {}

  /** Over a whole run, stored credentials are the last writes of the history. */
  lemma {:induction false} StoredIsLastWritten(tr: Trace, j: nat, ns: string)
    requires IsRun(tr) && j < |tr.worlds| && DbOk(tr.worlds[0].db)
    ensures Tallies(StoredAt(tr.worlds[j].db, ns), StoredAt(tr.worlds[0].db, ns), History(tr, ns, j))
  {
    hide DbOk, Posted, Fits, EventNote, StoredAt;
    var base := StoredAt(tr.worlds[0].db, ns);
    if j > 0 {
      hide Tallies;
      StoredIsLastWritten(tr, j - 1, ns);
      RunKeepsDbOk(tr, j - 1);
      assert Step(tr.worlds[j - 1], tr.events[j - 1], tr.worlds[j - 1 + 1], tr.answers[j - 1]);
      StepPosts(tr.worlds[j - 1], tr.events[j - 1], tr.worlds[j], tr.answers[j - 1], ns);
      PostingTallies(StoredAt(tr.worlds[j - 1].db, ns), base, History(tr, ns, j - 1),
                     EventNote(tr.worlds[j - 1], tr.events[j - 1], ns));
    }
  }

  /** Login accepts exactly the password last written to the user it finds, and asks for a change exactly when the last
      `first_login` written says so. */
  lemma LoginFollowsHistory(tr: Trace, j: nat, ns: string, identity: string, password: string, u: User)
    requires IsRun(tr) && j < |tr.events| && DbOk(tr.worlds[0].db)
    requires tr.events[j].request == Login(ns, identity, password) && ns in tr.worlds[j].db.schemas
    requires Accounts.FindByIdentity(tr.worlds[j].db.schemas[ns], identity, tr.events[j].env.planner) == Some(u)
    ensures var base, notes := StoredAt(tr.worlds[0].db, ns), History(tr, ns, j);
            && (tr.answers[j].LoggedIn? <==> LastPassword(base, notes, u.userId) == Some(Argon2(password)))
            && (tr.answers[j].LoggedIn? ==>
                  && tr.answers[j].auth.user.userId == u.userId
                  && LastFlag(base, notes, u.userId) == Some(tr.answers[j].auth.requiresPasswordChange))
  {
    hide EventNote, Accounts.FindByIdentity, IsRun, DbOk, LastPassword, LastFlag, Valid, Apply;
    RunSteps(tr, j);
    StoredIsLastWritten(tr, j, ns);
    RunKeepsDbOk(tr, j);
    var w, e := tr.worlds[j], tr.events[j].env;
    ValidSchema(w.db, ns);
    FoundUserIsStored(w.db.schemas[ns], identity, e.planner);
    LoginAnswers(w, ns, identity, password, e, u);
    assert u.userId in StoredAt(w.db, ns);
  }

  lemma RunSteps(tr: Trace, j: nat)
    requires IsRun(tr) && j < |tr.events|
    ensures |tr.worlds| == |tr.events| + 1 && |tr.answers| ==
            |tr.events| && Step(tr.worlds[j], tr.events[j], tr.worlds[j + 1], tr.answers[j])
  {
    hide Step;
  }

  lemma ValidSchema(d: Db, ns: string)
    requires DbOk(d) && ns in d.schemas
    ensures Valid(d.schemas[ns])
  {}

  lemma LoginAnswers(w: World, ns: string, identity: string, password: string, e: Env, u: User)
    requires ns in w.db.schemas && Accounts.FindByIdentity(w.db.schemas[ns], identity, e.planner) == Some(u)
    ensures var a := Apply(w, Login(ns, identity, password), e).1;
            && (a.LoggedIn? <==> u.passwordHash == Argon2(password))
            && (a.LoggedIn? ==> a.auth.user.userId == u.userId && a.auth.requiresPasswordChange == u.firstLogin)
  {
    hide Accounts.GetUserGroupNames, Accounts.FindByIdentity;
  }

  lemma FoundUserIsStored(t: Tables, identity: string, q: Planner)
    requires Valid(t)
    ensures var u := Accounts.FindByIdentity(t, identity, q);
            u.Some? ==> u.value.userId in t.users && t.users[u.value.userId] == u.value
  {}
}
