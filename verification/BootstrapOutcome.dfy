/** When registrations run at the same time and nothing is taken away, exactly those that counted no user become
    administrators. */
module BootstrapOutcome {
  import opened Wrappers
  import opened Text
  import opened Environment
  import opened Tables
  import opened Organizations
  import opened Requests
  import opened Steps
  import opened Interleaving
  import opened Handles
  import opened BootstrapRaces
  import C = Constants
  import Accounts
  import Bootstrap
  import Email
  import Granting

  // ----- nothing is taken away

  predicate Deleting(act: Act) { act.ActDeleteUser? || act.ActLeaveGroup? }

  /** Moreover, nothing in `ns` is taken away. */
  predicate Gentle(m: Move, ns: string) {
    BeginsUninvited(m, ns) && !m.RemoveOrganization? && (m.Begin? && m.ns == ns ==> !Deleting(m.act))
  }

  predicate Grows(t: Tables, t': Tables) {
    && t.nextUser <= t'.nextUser
    && (forall u | u in t.users :: u in t'.users)
    && (forall k | k in t.members :: k in t'.members)
    && forall g | g in t.groups :: g in t'.groups && t'.groups[g].name == t.groups[g].name
  }

  lemma InsertGroupGrows(t: Tables, orgs: set<int>, name: string, org: int)
    requires GroupsNumbered(t)
    ensures Grows(t, InsertGroup(t, orgs, name, org).t)
  {
    hide GroupRows;
  }

  lemma MoreUsersGrow(t: Tables, t': Tables)
    requires t' == t.(users := t'.users, nextUser := t'.nextUser) && t.nextUser <= t'.nextUser
    requires forall u | u in t.users :: u in t'.users
    ensures Grows(t, t')
  {}

  lemma InsertUserGrows(t: Tables, orgs: set<int>, n: NewUser)
    ensures Grows(t, InsertUser(t, orgs, n).t)
  {
    InsertUserTouches(t, orgs, n);
    MoreUsersGrow(t, InsertUser(t, orgs, n).t);
    hide ProfileFits, Grows;
  }

  lemma UpdateProfileGrows(t: Tables, userId: int, email: string, username: string)
    ensures Grows(t, UpdateProfile(t, userId, email, username).t)
  {
    UpdateProfileTouches(t, userId, email, username);
    MoreUsersGrow(t, UpdateProfile(t, userId, email, username).t);
    hide ProfileFits, Grows;
  }

  lemma FieldUpdatesGrow(t: Tables, userId: int, hash: PasswordHash, flag: bool)
    ensures Grows(t, UpdatePassword(t, userId, hash).t) && Grows(t, SetFirstLogin(t, userId, flag).t)
  {
    FieldUpdatesTouch(t, userId, hash, flag);
    MoreUsersGrow(t, UpdatePassword(t, userId, hash).t);
    MoreUsersGrow(t, SetFirstLogin(t, userId, flag).t);
    hide Grows;
  }

  lemma UserStatementGrows(t: Tables, orgs: set<int>, ns: string, st: Statement, e: Env)
    requires WritesUsers(st)
    ensures Grows(t, Written(t, orgs, ns, st, e))
  {
    hide Grows, InsertUser, UpdateProfile, UpdatePassword, SetFirstLogin, InsertGroup, InsertPolicy, AssignUserToGroup,
      CreateResetToken, MarkTokenUsed, Perform;
    match st {
      case InsertingUser(n) => InsertUserGrows(t, orgs, n);
      case UpdatingProfile(userId, email, username) => UpdateProfileGrows(t, userId, email, username);
      case UpdatingPassword(userId, hash) => FieldUpdatesGrow(t, userId, hash, false);
      case UpdatingFlag(userId, flag) => FieldUpdatesGrow(t, userId, Unparsable, flag);
    }
  }

  lemma CleanupGrows(t: Tables, orgs: set<int>, ns: string, e: Env)
    ensures Grows(t, Perform(t, orgs, ns, ActCleanup, e).t)
  {}

  lemma InsertStatementGrows(t: Tables, orgs: set<int>, ns: string, st: Statement, e: Env)
    requires GroupsNumbered(t) && (st.InsertingGroup? || st.InsertingMember?)
    ensures Grows(t, Written(t, orgs, ns, st, e))
  {
    if st.InsertingGroup? { InsertGroupGrows(t, orgs, st.name, st.organizationId); }
    hide InsertGroup, GroupsNumbered, Perform;
  }

  lemma StatementGrows(t: Tables, orgs: set<int>, ns: string, st: Statement, e: Env)
    requires GroupsNumbered(t) && (st.Single? ==> !Deleting(st.act))
    ensures Grows(t, Written(t, orgs, ns, st, e))
  {
    hide Written, GroupsNumbered, Perform;
    if st.Single? {
      SingleIsPerformed(t, orgs, ns, st.act, e);
      CleanupGrows(t, orgs, ns, e);
    } else if st.InsertingGroup? || st.InsertingMember? {
      InsertStatementGrows(t, orgs, ns, st, e);
    } else if WritesUsers(st) {
      UserStatementGrows(t, orgs, ns, st, e);
    } else {
      StatementTouches(t, orgs, ns, st, e);
    }
  }

  lemma AdvanceGrows(t: Tables, orgs: set<int>, ns: string, l: Local, e: Env)
    requires GroupsNumbered(t) && (l.OneShot? ==> !Deleting(l.single))
    ensures Grows(t, Advance(t, orgs, ns, l, e).0)
  {
    OneShotStatement(l);
    hide Advance, StatementOf, Written, Grows, GroupsNumbered;
    AdvanceWrites(t, orgs, ns, l, e);
    StatementGrows(t, orgs, ns, StatementOf(l), e);
  }

  lemma OneShotStatement(l: Local)
    ensures StatementOf(l).Single? ==> l.OneShot? && StatementOf(l).act == l.single
  {}

  lemma NothingShrinks(t: Tables)
    ensures Grows(t, t)
  {}

  lemma TouchGrows(t: Tables, orgs: set<int>, ns: string, touch: Touch, e: Env)
    requires GroupsNumbered(t) && !touch.Dropped? && (touch.Ticked? && touch.l.OneShot? ==> !Deleting(touch.l.single))
    ensures Grows(t, After(t, orgs, ns, touch, e))
  {
    hide Grows, GroupsNumbered, Advance, InsertGroup, Granting.Granted;
    match touch {
      case Untouched => NothingShrinks(t);
      case Ticked(l) => AdvanceGrows(t, orgs, ns, l, e);
      case Seeded(org, name) => InsertGroupGrows(t, orgs, name, org);
      case Regranted(grant) => GrantShrinksNothing(t, grant);
    }
  }

  lemma GrantShrinksNothing(t: Tables, grant: Granting.Grant)
    ensures Grows(t, Granting.Granted(t, grant))
  {
    Granting.GrantsTouchAssignments(t, grant);
    hide Granting.Granted;
  }

  // ----- on the way to the group

  predicate PrivilegedGroup(t: Tables, g: int) { g in t.groups && C.IsPrivilegedGroup(t.groups[g].name) }

  /** The group of the first id, or of the first name still wanted, is privileged. */
  predicate Ahead(t: Tables, ns: string, wanted: seq<string>, found: seq<int>) {
    if found == [] then wanted != [] && wanted[0] == Bootstrap.BootstrapGroup(ns) else PrivilegedGroup(t, found[0])
  }

  predicate Past(l: Local) { l.AddMember? || l.ReadGroups? || l.Finished? }

  /** A request that has counted zero, with what takes it to a privileged group; no request deletes. */
  ghost predicate Leading(t: Tables, ns: string, l: Local, zero: bool) {
    match l
    case OneShot(act) => !Deleting(act)
    case SeekEmail(form, a, _) => zero ==> a.None? && form.groups == [Bootstrap.BootstrapGroup(ns), C.USERS_GROUP]
    case SeekUsername(form, a, _) => zero ==> a.None? && form.groups == [Bootstrap.BootstrapGroup(ns), C.USERS_GROUP]
    case SeekGroup(_, a, _, wanted, found) => zero ==> a.None? && Ahead(t, ns, wanted, found)
    case AddGroup(_, a, _, wanted, found) => zero ==> a.None? && Ahead(t, ns, wanted, found)
    case AddUser(_, a, _, ids) => zero ==> a.None? && Ahead(t, ns, [], ids)
    case AddMember(user, a, _, ids) => zero ==> a.None? && (HoldsPrivilege(t, user.userId) || Ahead(t, ns, [], ids))
    case _ => true
  }

  lemma HoldingStays(t: Tables, t': Tables, userId: int)
    requires Grows(t, t') && HoldsPrivilege(t, userId)
    ensures HoldsPrivilege(t', userId)
  {
    var g :| (userId, g) in t.members && g in t.groups && C.IsPrivilegedGroup(t.groups[g].name);
    assert (userId, g) in t'.members && g in t'.groups && C.IsPrivilegedGroup(t'.groups[g].name);
    hide C.IsPrivilegedGroup;
  }

  lemma LeadingStays(t: Tables, t': Tables, ns: string, l: Local, zero: bool)
    requires Grows(t, t') && Leading(t, ns, l, zero)
    ensures Leading(t', ns, l, zero)
  {
    if l.AddMember? && HoldsPrivilege(t, l.user.userId) { HoldingStays(t, t', l.user.userId); }
    hide HoldsPrivilege, C.IsPrivilegedGroup;
  }

  lemma StartLeads(t: Tables, ns: string, act: Act, e: Env, zero: bool)
    requires Uninvited(act) && !Deleting(act)
    ensures var l := Start(ns, act, e); Leading(t, ns, l, zero) && !l.SeekJoinedGroup? && !l.AddJoin? && !l.AddMember?
  {}

  lemma CountLeads(t: Tables, ns: string, form: Accounts.UserForm, group: Option<string>, n: int)
    ensures var l := Counted(ns, form, group, n); Leading(t, ns, l, group.None? && n == 0) && Beyond(l)
  {
    hide C.IsPrivilegedGroup, Email.IsEmail, Email.IsPassword;
  }

  lemma ResolvingLeads(t: Tables, ns: string, l: Local, zero: bool)
    requires l.SeekUsername? && Leading(t, ns, l, zero)
    ensures var l' := Resolving(ns, l.form, l.adminId, l.purpose); Leading(t, ns, l', zero) && Beyond(l')
  {
    hide Accounts.ReservedIn;
  }

  lemma BootstrapGroupIsPrivileged(ns: string)
    ensures Trim(Bootstrap.BootstrapGroup(ns)) == Bootstrap.BootstrapGroup(ns)
    ensures C.IsPrivilegedGroup(Bootstrap.BootstrapGroup(ns))
  {
    C.DefaultNames();
  }

  lemma FoundGroupLeads(t: Tables, ns: string, org: int, q: Planner)
    requires GroupsNumbered(t)
    ensures var g := FindGroupByName(t, Bootstrap.BootstrapGroup(ns), org, q);
            g.Some? ==> PrivilegedGroup(t, g.value.groupId)
  {
    BootstrapGroupIsPrivileged(ns);
    hide C.IsPrivilegedGroup;
  }

  lemma InsertedGroupLeads(t: Tables, orgs: set<int>, ns: string, org: int)
    ensures var x := InsertGroup(t, orgs, Bootstrap.BootstrapGroup(ns), org);
            x.out.Ok? ==> PrivilegedGroup(x.t, x.out.value.groupId)
  {
    BootstrapGroupIsPrivileged(ns);
    hide C.IsPrivilegedGroup, GroupRows;
  }

  /** Nobody counts twice, and none of these requests joins a group by its id. */
  predicate Beyond(l: Local) { !l.CountUsers? && !l.SeekJoinedGroup? && !l.AddJoin? }

  lemma SeekingLeads(t: Tables, orgs: set<int>, ns: string, l: Local, e: Env, zero: bool)
    requires GroupsNumbered(t) && l.SeekGroup? && Leading(t, ns, l, zero)
    ensures var (t', l') := Advance(t, orgs, ns, l, e); Leading(t', ns, l', zero) && Beyond(l')
  {
    BootstrapGroupIsPrivileged(ns);
    FoundGroupLeads(t, ns, l.form.organizationId, e.planner);
    hide GroupsNumbered, GroupRows, Left, Perform, C.IsPrivilegedGroup, FindGroupByName, Trim,
      Bootstrap.BootstrapGroup, HoldsPrivilege;
  }

  lemma PrivilegedStays(t: Tables, t': Tables, g: int)
    requires Grows(t, t') && PrivilegedGroup(t, g)
    ensures PrivilegedGroup(t', g)
  {
    hide C.IsPrivilegedGroup;
  }

  lemma AddingLeads(t: Tables, orgs: set<int>, ns: string, l: Local, e: Env, zero: bool)
    requires GroupsNumbered(t) && l.AddGroup? && Leading(t, ns, l, zero)
    ensures var (t', l') := Advance(t, orgs, ns, l, e); Leading(t', ns, l', zero) && Beyond(l')
  {
    hide GroupsNumbered, PrivilegedGroup, InsertGroup, Trim, Bootstrap.BootstrapGroup, HoldsPrivilege, Grows;
    BootstrapGroupIsPrivileged(ns);
    InsertedGroupLeads(t, orgs, ns, l.form.organizationId);
    if l.wanted != [] { InsertGroupGrows(t, orgs, Trim(l.wanted[0]), l.form.organizationId); }
    if zero && l.found != [] {
      NothingShrinks(t);
      PrivilegedStays(t, if l.wanted == [] then t
                      else InsertGroup(t, orgs, Trim(l.wanted[0]), l.form.organizationId).t, l.found[0]);
    }
  }

  /** With nobody to credit and both rows there, the membership goes in. */
  lemma JoiningLeads(t: Tables, orgs: set<int>, ns: string, l: Local, e: Env)
    requires l.AddMember? && l.adminId.None? && l.user.userId in t.users && Ahead(t, ns, [], l.groupIds)
    ensures HoldsPrivilege(Advance(t, orgs, ns, l, e).0, l.user.userId)
  {
    var t' := Advance(t, orgs, ns, l, e).0;
    var g := l.groupIds[0];
    assert (l.user.userId, g) in t'.members && g in t'.groups && C.IsPrivilegedGroup(t'.groups[g].name);
    hide C.IsPrivilegedGroup;
  }

  lemma AssigningLoopLeads(t: Tables, orgs: set<int>, ns: string, l: Local, e: Env, zero: bool)
    requires GroupsNumbered(t) && (l.AddUser? || l.AddMember?) && Leading(t, ns, l, zero)
    requires zero && l.AddMember? ==> l.user.userId in t.users
    ensures var (t', l') := Advance(t, orgs, ns, l, e); Leading(t', ns, l', zero) && Beyond(l')
    ensures var (t', l') := Advance(t, orgs, ns, l, e); zero && l.AddMember? ==> HoldsPrivilege(t', l.user.userId)
  {
    AdvanceGrows(t, orgs, ns, l, e);
    var t' := Advance(t, orgs, ns, l, e).0;
    if l.AddMember? && zero {
      if HoldsPrivilege(t, l.user.userId) {
        HoldingStays(t, t', l.user.userId);
      } else {
        JoiningLeads(t, orgs, ns, l, e);
      }
    }
    hide GroupsNumbered, C.IsPrivilegedGroup, InsertUser, AssignUserToGroup, HoldsPrivilege;
  }

  lemma LookupsLead(t: Tables, orgs: set<int>, ns: string, l: Local, e: Env, zero: bool)
    requires (l.CountUsers? || l.SeekEmail? || l.SeekUsername?) && Leading(t, ns, l, zero)
    requires l.CountUsers? ==> (zero <==> l.group.None? && |t.users| == 0)
    ensures var (t', l') := Advance(t, orgs, ns, l, e); Leading(t', ns, l', zero) && Beyond(l')
  {
    hide FindByEmail, FindByUsername, Resolving, Counted, HoldsPrivilege, Ahead;
    if l.CountUsers? {
      CountLeads(t, ns, l.form, l.group, |t.users|);
    } else if l.SeekUsername? {
      ResolvingLeads(t, ns, l, zero);
    }
  }

  lemma OthersLead(t: Tables, orgs: set<int>, ns: string, l: Local, e: Env, zero: bool)
    requires !CreatesUser(l) && !l.SeekJoinedGroup? && !l.AddJoin?
    ensures var (t', l') := Advance(t, orgs, ns, l, e);
            (l.Finished? || Leading(t', ns, l', zero)) && !CreatesUser(l') && Beyond(l')
  {
    hide Perform, Accounts.Respond, Accounts.FindByIdentity, FindByEmail, FindValidToken, FindGroupByName, InsertGroup,
      InsertPolicy, UpdateProfile, CreateResetToken, GetUserAllPolicies, PolicyRows, Email.IsEmail, Email.IsPassword,
      Utf8Length, UpdatePassword, SetFirstLogin, MarkTokenUsed, FindUser;
  }

  /** One more transaction of a request that has counted zero keeps it on its way; the one that assigns arrives. */
  lemma AdvanceLeads(t: Tables, orgs: set<int>, ns: string, l: Local, e: Env, zero: bool)
    requires GroupsNumbered(t) && Leading(t, ns, l, zero) && !l.SeekJoinedGroup? && !l.AddJoin? && !l.Finished?
    requires l.CountUsers? ==> (zero <==> l.group.None? && |t.users| == 0)
    requires zero && l.AddMember? ==> l.user.userId in t.users
    ensures var (t', l') := Advance(t, orgs, ns, l, e);
            Leading(t', ns, l', zero) && Beyond(l') && (zero && l.AddMember? ==> HoldsPrivilege(t', l.user.userId))
  {
    hide Advance, Leading, HoldsPrivilege, GroupsNumbered;
    if l.CountUsers? || l.SeekEmail? || l.SeekUsername? {
      LookupsLead(t, orgs, ns, l, e, zero);
    } else if l.SeekGroup? {
      SeekingLeads(t, orgs, ns, l, e, zero);
    } else if l.AddGroup? {
      AddingLeads(t, orgs, ns, l, e, zero);
    } else if l.AddUser? || l.AddMember? {
      AssigningLoopLeads(t, orgs, ns, l, e, zero);
    } else {
      OthersLead(t, orgs, ns, l, e, zero);
    }
  }

  /** Behind the insertion a request only assigns and reads. */
  lemma PastStays(t: Tables, orgs: set<int>, ns: string, l: Local, e: Env)
    requires Past(l)
    ensures var l' := Advance(t, orgs, ns, l, e).1; Past(l') && (l'.AddMember? ==> l.AddMember? && l'.user == l.user)
  {
    hide AssignUserToGroup, Accounts.Respond;
  }

  lemma InsertionPasses(t: Tables, orgs: set<int>, ns: string, l: Local, e: Env)
    requires l.AddUser? && InsertUser(t, orgs, StatementOf(l).row).out.Ok?
    ensures var (t', l') := Advance(t, orgs, ns, l, e);
            && t.nextUser in t'.users && t'.nextUser == t.nextUser + 1 && Past(l')
            && (l.groupIds != [] ==> l'.AddMember? && l'.user.userId == t.nextUser)
  {
    hide ProfileFits;
  }

  // ----- the system

  /** Each stored row has one request behind it, which holds a privileged group by now or is about to if it counted
      zero. */
  ghost predicate RowsFollowed(s: Sys, ns: string, zero: set<int>, rows: set<(int, int)>) {
    var t := Schema(s.db, ns);
    && (forall p | p in rows :: RowFollowed(s, ns, zero, p))
    && (forall p, q | p in rows && q in rows :: p.0 == q.0 <==> p.1 == q.1)
  }

  ghost predicate RowFollowed(s: Sys, ns: string, zero: set<int>, p: (int, int)) {
    var t := Schema(s.db, ns);
    && p.1 in t.users && p.1 < t.nextUser && p.0 in s.threads && s.threads[p.0].ns == ns && Past(s.threads[p.0].local)
    && (p.0 in zero ==>
        HoldsPrivilege(t, p.1) || (s.threads[p.0].local.AddMember? && s.threads[p.0].local.user.userId == p.1))
  }

  ghost predicate ThreadLeads(t: Tables, ns: string, id: int, l: Local, zero: set<int>, rows: set<(int, int)>) {
    && Leading(t, ns, l, id in zero) && !l.SeekJoinedGroup? && !l.AddJoin?
    && (l.CountUsers? ==> id !in zero) && (id in zero && l.AddMember? ==> (id, l.user.userId) in rows)
  }

  ghost predicate Settled(s: Sys, ns: string, zero: set<int>, rows: set<(int, int)>) {
    && GroupsNumbered(Schema(s.db, ns)) && zero <= s.threads.Keys && RowsFollowed(s, ns, zero, rows)
    && forall id | id in s.threads && s.threads[id].ns == ns ::
         ThreadLeads(Schema(s.db, ns), ns, id, s.threads[id].local, zero, rows)
  }

  lemma NobodyIsSettled(s: Sys, ns: string)
    requires Unsettled(s, ns)
    ensures Settled(s, ns, {}, {})
  {}

  lemma StepGrows(s: Sys, m: Move, e: Env, s': Sys, ns: string, zero: set<int>, rows: set<(int, int)>)
    requires SysStep(s, m, e, s') && Settled(s, ns, zero, rows) && Gentle(m, ns)
    ensures Grows(Schema(s.db, ns), Schema(s'.db, ns))
  {
    hide SysStep, After, GroupsNumbered, RowsFollowed, Grows, HoldsPrivilege, Ahead, Schema;
    StepTouches(s, m, e, s', ns);
    NothingShrinks(Schema(s.db, ns));
    var touch := Touched(s, m, ns);
    assert touch.Ticked? ==> ThreadLeads(Schema(s.db, ns), ns, m.id, touch.l, zero, rows);
    TouchGrows(Schema(s.db, ns), s.db.orgs.Keys, ns, touch, e);
  }

  lemma ThreadLeadsOn(t: Tables, t': Tables, ns: string, id: int, l: Local, zero: set<int>, rows: set<(int, int)>,
                      zero': set<int>, rows': set<(int, int)>)
    requires ThreadLeads(t, ns, id, l, zero, rows) && Grows(t, t')
    requires (id in zero' <==> id in zero) && rows <= rows'
    ensures ThreadLeads(t', ns, id, l, zero', rows')
  {
    LeadingStays(t, t', ns, l, id in zero);
    hide Leading;
  }

  /** A request of a settled system runs a transaction. */
  lemma TickLeads(t: Tables, orgs: set<int>, ns: string, id: int, l: Local, e: Env, zero: set<int>,
                  rows: set<(int, int)>, zero': set<int>, rows': set<(int, int)>)
    requires GroupsNumbered(t) && ThreadLeads(t, ns, id, l, zero, rows) && !l.Finished?
    requires id in zero && l.AddMember? ==> l.user.userId in t.users
    requires (id in zero' <==> id in zero || (l.CountUsers? && l.group.None? && |t.users| == 0)) && rows <= rows'
    requires l.AddUser? && InsertUser(t, orgs, StatementOf(l).row).out.Ok? ==> (id, t.nextUser) in rows'
    ensures var (t', l') := Advance(t, orgs, ns, l, e);
            ThreadLeads(t', ns, id, l', zero', rows')
              && (id in zero && l.AddMember? ==> HoldsPrivilege(t', l.user.userId))
  {
    hide GroupsNumbered, HoldsPrivilege, Advance, InsertUser, StatementOf, Ahead;
    AdvanceLeads(t, orgs, ns, l, e, id in zero');
    hide Leading;
    MembersOfWhom(t, orgs, ns, l, e);
  }

  /** The user a request assigns is the one it has stored. */
  lemma MembersOfWhom(t: Tables, orgs: set<int>, ns: string, l: Local, e: Env)
    requires !l.SeekJoinedGroup? && !l.AddJoin?
    ensures var l' := Advance(t, orgs, ns, l, e).1;
            l'.AddMember? ==> (l.AddMember? && l'.user == l.user)
                              || (l.AddUser? && InsertUser(t, orgs, StatementOf(l).row).out.Ok?
                                  && l'.user.userId == t.nextUser)
  {
    if !CreatesUser(l) {
      OthersStayTracked(t, orgs, ns, l, e);
      hide Advance;
    }
    hide FindByEmail, FindByUsername, FindGroupByName, InsertGroup, AssignUserToGroup, Trim, Resolving, Counted,
      ProfileFits, Perform;
    ResolvingAssignsNobody(ns, l);
  }

  lemma ResolvingAssignsNobody(ns: string, l: Local)
    ensures l.CountUsers? ==> forall n :: !Counted(ns, l.form, l.group, n).AddMember?
    ensures l.SeekUsername? ==> !Resolving(ns, l.form, l.adminId, l.purpose).AddMember?
  {
    hide Accounts.ReservedIn, Accounts.RegistrationGroups, Email.IsEmail, Email.IsPassword;
  }

  predicate Running(s: Sys, m: Move, id: int) { m == Tick(id) && id in s.threads && !s.threads[id].local.Finished? }

  lemma HistoryOf(s: Sys, m: Move, ns: string, zero: set<int>, rows: set<(int, int)>, id: int)
    requires id in s.threads && s.threads[id].ns == ns
    ensures var l := s.threads[id].local;
            id in zero + CountedNow(s, m, ns) <==>
            id in zero
              || (Running(s, m, id) && ns in s.db.schemas && l.CountUsers? && l.group.None?
                  && |Schema(s.db, ns).users| == 0)
    ensures var l := s.threads[id].local;
            Running(s, m, id) && ns in s.db.schemas && l.AddUser?
              && InsertUser(Schema(s.db, ns), s.db.orgs.Keys, StatementOf(l).row).out.Ok? ==>
              (id, Schema(s.db, ns).nextUser) in rows + StoredNow(s, m, ns)
  {
    hide InsertUser, StatementOf;
  }

  lemma StepKeepsThreadLeading(s: Sys, m: Move, e: Env, s': Sys, ns: string, zero: set<int>, rows: set<(int, int)>,
                               id: int)
    requires SysStep(s, m, e, s') && Settled(s, ns, zero, rows) && Gentle(m, ns)
    requires id in s'.threads && s'.threads[id].ns == ns
    ensures ThreadLeads(Schema(s'.db, ns), ns, id, s'.threads[id].local, zero + CountedNow(s, m, ns),
                        rows + StoredNow(s, m, ns))
  {
    hide SysStep, After, GroupsNumbered, Grows, HoldsPrivilege, Advance, Start, Leading, CountsZero, Inserts,
      InsertUser, StatementOf, Past;
    var t, t' := Schema(s.db, ns), Schema(s'.db, ns);
    var zero', rows' := zero + CountedNow(s, m, ns), rows + StoredNow(s, m, ns);
    ThreadMoves(s, m, e, s', id);
    StepTouches(s, m, e, s', ns);
    if id !in s.threads {
      StartLeads(t', ns, s'.threads[id].act, e, id in zero');
      CountersRun(s, m, ns);
    } else {
      var l := s.threads[id].local;
      assert ThreadLeads(t, ns, id, l, zero, rows);
      HistoryOf(s, m, ns, zero, rows, id);
      if Running(s, m, id) {
        TickAdvances(s, m, e, s', id);
        if ns in s.db.schemas {
          TickLeads(t, s.db.orgs.Keys, ns, id, l, e, zero, rows, zero', rows');
        } else {
          FailureLeads(t', ns, id, Database, zero', rows');
        }
      } else {
        StepGrows(s, m, e, s', ns, zero, rows);
        ThreadLeadsOn(t, t', ns, id, l, zero, rows, zero', rows');
      }
    }
  }

  lemma CountersRun(s: Sys, m: Move, ns: string)
    ensures forall id | id in CountedNow(s, m, ns) :: id in s.threads && m == Tick(id)
    ensures forall p | p in StoredNow(s, m, ns) :: p.0 in s.threads && m == Tick(p.0) && s.threads[p.0].local.AddUser?
  {
    hide InsertUser, StatementOf;
  }

  lemma FailureLeads(t: Tables, ns: string, id: int, err: Error, zero: set<int>, rows: set<(int, int)>)
    ensures ThreadLeads(t, ns, id, Failure(err), zero, rows)
  {}

  lemma StepKeepsRow(s: Sys, m: Move, e: Env, s': Sys, ns: string, zero: set<int>, rows: set<(int, int)>, p: (int, int))
    requires SysStep(s, m, e, s') && Settled(s, ns, zero, rows) && Gentle(m, ns) && p in rows
    ensures RowFollowed(s', ns, zero + CountedNow(s, m, ns), p)
  {
    hide SysStep, After, GroupsNumbered, HoldsPrivilege, Advance, Leading, CountsZero, Inserts, InsertUser, StatementOf;
    var t, t' := Schema(s.db, ns), Schema(s'.db, ns);
    assert RowFollowed(s, ns, zero, p);
    var l := s.threads[p.0].local;
    assert ThreadLeads(t, ns, p.0, l, zero, rows);
    StepGrows(s, m, e, s', ns, zero, rows);
    ThreadMoves(s, m, e, s', p.0);
    HistoryOf(s, m, ns, zero, rows, p.0);
    if HoldsPrivilege(t, p.1) { HoldingStays(t, t', p.1); }
    if Running(s, m, p.0) {
      TickAdvances(s, m, e, s', p.0);
      PastStays(t, s.db.orgs.Keys, ns, l, e);
      TickLeads(t, s.db.orgs.Keys, ns, p.0, l, e, zero, rows, zero, rows);
    }
  }

  lemma StepStores(s: Sys, m: Move, e: Env, s': Sys, ns: string, zero: set<int>, rows: set<(int, int)>)
    requires SysStep(s, m, e, s') && Settled(s, ns, zero, rows) && Gentle(m, ns) && Inserts(s, m, ns)
    ensures RowFollowed(s', ns, zero + CountedNow(s, m, ns), (m.id, Schema(s.db, ns).nextUser))
  {
    hide SysStep, After, GroupsNumbered, HoldsPrivilege, Advance, InsertUser, StatementOf;
    var l := s.threads[m.id].local;
    assert ThreadLeads(Schema(s.db, ns), ns, m.id, l, zero, rows);
    TickAdvances(s, m, e, s', m.id);
    StepTouches(s, m, e, s', ns);
    InsertionPasses(s.db.schemas[ns], s.db.orgs.Keys, ns, l, e);
  }

  lemma StepKeepsRows(s: Sys, m: Move, e: Env, s': Sys, ns: string, zero: set<int>, rows: set<(int, int)>)
    requires SysStep(s, m, e, s') && Settled(s, ns, zero, rows) && Gentle(m, ns)
    ensures RowsFollowed(s', ns, zero + CountedNow(s, m, ns), rows + StoredNow(s, m, ns))
  {
    hide SysStep, GroupsNumbered, HoldsPrivilege, Leading, InsertUser, StatementOf;
    var zero', rows' := zero + CountedNow(s, m, ns), rows + StoredNow(s, m, ns);
    CountersRun(s, m, ns);
    forall p | p in rows' ensures RowFollowed(s', ns, zero', p) {
      if p in rows { StepKeepsRow(s, m, e, s', ns, zero, rows, p); } else { StepStores(s, m, e, s', ns, zero, rows); }
    }
    forall p, q | p in rows' && q in rows' ensures p.0 == q.0 <==> p.1 == q.1 {
      assert p in rows ==> RowFollowed(s, ns, zero, p);
      assert q in rows ==> RowFollowed(s, ns, zero, q);
    }
  }

  lemma StepKeepsSettled(s: Sys, m: Move, e: Env, s': Sys, ns: string, zero: set<int>, rows: set<(int, int)>)
    requires SysStep(s, m, e, s') && Settled(s, ns, zero, rows) && Gentle(m, ns)
    ensures Settled(s', ns, zero + CountedNow(s, m, ns), rows + StoredNow(s, m, ns))
  {
    hide SysStep, RowsFollowed, ThreadLeads, GroupsNumbered, Ages, CountedNow, StoredNow, Gentle;
    StepAges(s, m, e, s', ns);
    AgingNumbers(Schema(s.db, ns), Schema(s'.db, ns));
    StepKeepsRows(s, m, e, s', ns, zero, rows);
    CountersRun(s, m, ns);
    forall id | id in zero + CountedNow(s, m, ns) ensures id in s'.threads { ThreadMoves(s, m, e, s', id); }
    forall id | id in s'.threads && s'.threads[id].ns == ns
      ensures ThreadLeads(Schema(s'.db, ns), ns, id, s'.threads[id].local, zero + CountedNow(s, m, ns),
                          rows + StoredNow(s, m, ns))
    {
      StepKeepsThreadLeading(s, m, e, s', ns, zero, rows, id);
    }
  }

  lemma {:induction false} RunsStaySettled(r: Interleaved, j: nat, ns: string)
    requires IsInterleaving(r) && j < |r.states| && Unsettled(r.states[0], ns)
    requires forall k | 0 <= k < j :: Gentle(r.moves[k], ns)
    ensures Settled(r.states[j], ns, ZeroCounts(r, j, ns), Stored(r, j, ns))
  {
    hide SysStep, Settled, Unsettled, Gentle, CountsZero, Inserts;
    if j == 0 {
      NobodyIsSettled(r.states[0], ns);
      assert ZeroCounts(r, 0, ns) == {} && Stored(r, 0, ns) == {};
    } else {
      RunsStaySettled(r, j - 1, ns);
      var s, m, e := r.states[j - 1], r.moves[j - 1], r.envs[j - 1];
      assert SysStep(s, m, e, r.states[j - 1 + 1]);
      StepKeepsSettled(s, m, e, r.states[j], ns, ZeroCounts(r, j - 1, ns), Stored(r, j - 1, ns));
      HistoryGrows(r, j, ns);
    }
  }

  lemma StoredUsersStay(r: Interleaved, j: nat, ns: string)
    requires IsInterleaving(r) && j < |r.states| && Unsettled(r.states[0], ns)
    requires forall k | 0 <= k < j :: Gentle(r.moves[k], ns)
    ensures forall p | p in Stored(r, j, ns) :: p.1 in Schema(r.states[j].db, ns).users
  {
    hide SysStep, Unsettled, Gentle, Stored, ZeroCounts, ThreadLeads;
    RunsStaySettled(r, j, ns);
    forall p | p in Stored(r, j, ns) ensures p.1 in Schema(r.states[j].db, ns).users {
      assert RowFollowed(r.states[j], ns, ZeroCounts(r, j, ns), p);
    }
  }

  /** Every count of zero comes before the first insertion. */
  lemma ZeroCountsComeFirst(r: Interleaved, k: nat, ns: string)
    requires IsInterleaving(r) && k < |r.moves| && Unsettled(r.states[0], ns)
    requires forall i | 0 <= i < k :: Gentle(r.moves[i], ns)
    requires CountsZero(r.states[k], r.moves[k], ns)
    ensures Stored(r, k, ns) == {}
  {
    hide SysStep, Unsettled, Gentle, Stored;
    StoredUsersStay(r, k, ns);
    assert Schema(r.states[k].db, ns).users.Keys == {};
  }

  /** No request is in flight in `ns`. */
  predicate AllFinished(s: Sys, ns: string) {
    forall id | id in s.threads && s.threads[id].ns == ns :: s.threads[id].local.Finished?
  }

  /** When nothing is in flight any more, the users in a privileged group are exactly those whose registration counted
      zero. */
  lemma AdministratorsExactly(r: Interleaved, j: nat, ns: string, userId: int)
    requires IsInterleaving(r) && j < |r.states| && Unsettled(r.states[0], ns)
    requires forall k | 0 <= k < j :: Gentle(r.moves[k], ns)
    requires AllFinished(r.states[j], ns)
    ensures HoldsPrivilege(Schema(r.states[j].db, ns), userId) <==>
            exists id | id in ZeroCounts(r, j, ns) :: (id, userId) in Stored(r, j, ns)
  {
    hide SysStep, Unsettled, Gentle, ZeroCounts, Stored, HoldsPrivilege, ThreadLeads;
    if HoldsPrivilege(Schema(r.states[j].db, ns), userId) {
      UninvitedAll(r, j, ns);
      PrivilegeComesFromZeroCounts(r, j, ns, userId);
    }
    RunsStaySettled(r, j, ns);
    if id :| id in ZeroCounts(r, j, ns) && (id, userId) in Stored(r, j, ns) {
      assert RowFollowed(r.states[j], ns, ZeroCounts(r, j, ns), (id, userId));
    }
  }

  lemma UninvitedAll(r: Interleaved, j: nat, ns: string)
    requires j <= |r.moves| && forall k | 0 <= k < j :: Gentle(r.moves[k], ns)
    ensures forall k | 0 <= k < j :: BeginsUninvited(r.moves[k], ns)
  {}

  /** So there is at most one of them exactly when no two registrations that stored their user had counted zero. */
  lemma AtMostOneAdministrator(r: Interleaved, j: nat, ns: string)
    requires IsInterleaving(r) && j < |r.states| && Unsettled(r.states[0], ns)
    requires forall k | 0 <= k < j :: Gentle(r.moves[k], ns)
    requires AllFinished(r.states[j], ns)
    ensures var t, zero, rows := Schema(r.states[j].db, ns), ZeroCounts(r, j, ns), Stored(r, j, ns);
            (forall u, v :: HoldsPrivilege(t, u) && HoldsPrivilege(t, v) ==> u == v) <==>
            (forall p, q | p in rows && q in rows && p.0 in zero && q.0 in zero :: p == q)
  {
    hide SysStep, Unsettled, Gentle, ZeroCounts, Stored, HoldsPrivilege, ThreadLeads, AllFinished, RowFollowed;
    RunsStaySettled(r, j, ns);
    var t, zero, rows := Schema(r.states[j].db, ns), ZeroCounts(r, j, ns), Stored(r, j, ns);
    forall u ensures HoldsPrivilege(t, u) <==> exists id | id in zero :: (id, u) in rows {
      AdministratorsExactly(r, j, ns, u);
    }
    if forall u, v :: HoldsPrivilege(t, u) && HoldsPrivilege(t, v) ==> u == v {
      forall p, q | p in rows && q in rows && p.0 in zero && q.0 in zero ensures p == q {
        assert (p.0, p.1) in rows && (q.0, q.1) in rows;
        assert HoldsPrivilege(t, p.1) && HoldsPrivilege(t, q.1);
      }
    }
  }
}
