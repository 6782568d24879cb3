/** Who becomes an administrator when registrations run at the same time. */
module BootstrapRaces {
  import opened Wrappers
  import opened Text
  import opened Environment
  import opened Tables
  import opened Constraints
  import opened Organizations
  import opened Requests
  import opened Steps
  import opened Interleaving
  import opened Handles
  import C = Constants
  import Accounts
  import Decisions
  import Email

  // ----- what to count

  /** The step is the count of a registration that asks for no group, and reads 0. */
  predicate CountsZero(s: Sys, m: Move, ns: string) {
    && m.Tick? && m.id in s.threads && s.threads[m.id].ns == ns && ns in s.db.schemas
    && s.threads[m.id].local.CountUsers? && s.threads[m.id].local.group.None? && |s.db.schemas[ns].users| == 0
  }

  /** The step stores the row of a new user. */
  predicate Inserts(s: Sys, m: Move, ns: string) {
    && m.Tick? && m.id in s.threads && s.threads[m.id].ns == ns && ns in s.db.schemas
    && s.threads[m.id].local.AddUser?
    && InsertUser(s.db.schemas[ns], s.db.orgs.Keys, StatementOf(s.threads[m.id].local).row).out.Ok?
  }

  /** The requests that have counted no user in `ns`. */
  function ZeroCounts(r: Interleaved, j: nat, ns: string): set<int>
    requires Wellformed(r, j)
  {
    set k | 0 <= k < j && CountsZero(r.states[k], r.moves[k], ns) :: r.moves[k].id
  }

  /** The requests that have stored a user in `ns`, each with the id of its row. */
  function Stored(r: Interleaved, j: nat, ns: string): set<(int, int)>
    requires Wellformed(r, j)
  {
    set k | 0 <= k < j && Inserts(r.states[k], r.moves[k], ns) :: (r.moves[k].id, Schema(r.states[k].db, ns).nextUser)
  }

  function CountedNow(s: Sys, m: Move, ns: string): set<int> { if CountsZero(s, m, ns) then {m.id} else {} }

  function StoredNow(s: Sys, m: Move, ns: string): set<(int, int)> {
    if Inserts(s, m, ns) then {(m.id, Schema(s.db, ns).nextUser)} else {}
  }

  lemma HistoryGrows(r: Interleaved, j: nat, ns: string)
    requires Wellformed(r, j) && j > 0
    ensures ZeroCounts(r, j, ns) == ZeroCounts(r, j - 1, ns) + CountedNow(r.states[j - 1], r.moves[j - 1], ns)
    ensures Stored(r, j, ns) == Stored(r, j - 1, ns) + StoredNow(r.states[j - 1], r.moves[j - 1], ns)
  {
    hide CountsZero, Inserts, Schema;
  }

  ghost predicate HoldsPrivilege(t: Tables, userId: int) {
    exists g :: (userId, g) in t.members && g in t.groups && C.IsPrivilegedGroup(t.groups[g].name)
  }

  // ----- privilege comes from a count of zero

  /** Requests that put nobody into a group but the user they register. */
  predicate Uninvited(act: Act) { !act.ActCreateUser? && !act.ActJoinGroup? }

  predicate BeginsUninvited(m: Move, ns: string) { m.Begin? && m.ns == ns ==> Uninvited(m.act) }

  predicate FromZero(userId: int, zero: set<int>, rows: set<(int, int)>) {
    exists id | id in zero :: (id, userId) in rows
  }

  predicate Accountable(t: Tables, zero: set<int>, rows: set<(int, int)>) {
    GroupsNumbered(t) && forall k | k in t.members :: Harmless(Privileged, t, k.1) || FromZero(k.0, zero, rows)
  }

  /** A request that has not counted zero has no privileged name or id in hand. */
  predicate Tracked(t: Tables, id: int, l: Local, zero: set<int>, rows: set<(int, int)>) {
    match l
    case SeekEmail(form, _, _) => id in zero || NoneGuarded(Privileged, form.groups)
    case SeekUsername(form, _, _) => id in zero || NoneGuarded(Privileged, form.groups)
    case AddMember(user, _, _, ids) => (id in zero && (id, user.userId) in rows) || AllHarmless(Privileged, t, ids)
    case SeekJoinedGroup(_, _, _) => false
    case AddJoin(_, _, _) => false
    case _ => id in zero || CleanLocal(Privileged, t, l)
  }

  predicate Watched(s: Sys, ns: string, zero: set<int>, rows: set<(int, int)>) {
    && Accountable(Schema(s.db, ns), zero, rows)
    && forall id | id in s.threads && s.threads[id].ns == ns ::
         Tracked(Schema(s.db, ns), id, s.threads[id].local, zero, rows)
  }

  lemma TrackedStays(t: Tables, t': Tables, id: int, l: Local, zero: set<int>, rows: set<(int, int)>, zero': set<int>,
                     rows': set<(int, int)>)
    requires Tracked(t, id, l, zero, rows) && Ages(t, t') && zero <= zero' && rows <= rows'
    ensures Tracked(t', id, l, zero', rows')
  {
    if CleanLocal(Privileged, t, l) { CleanLocalStays(Privileged, t, t', l); }
    hide Harmless;
  }

  lemma StartIsTracked(t: Tables, ns: string, act: Act, e: Env, id: int, zero: set<int>, rows: set<(int, int)>)
    requires Uninvited(act)
    ensures Tracked(t, id, Start(ns, act, e), zero, rows)
  {}

  /** `register` asks for a privileged group only behind a count of zero. */
  lemma CountIsTracked(t: Tables, ns: string, form: Accounts.UserForm, group: Option<string>, id: int, zero: set<int>,
                       rows: set<(int, int)>)
    requires group.None? && |t.users| == 0 ==> id in zero
    ensures Tracked(t, id, Counted(ns, form, group, |t.users|), zero, rows)
  {
    hide C.IsPrivilegedGroup, Email.IsEmail, Email.IsPassword;
  }

  lemma ResolvingIsTracked(t: Tables, ns: string, l: Local, id: int, zero: set<int>, rows: set<(int, int)>)
    requires l.SeekUsername? && Tracked(t, id, l, zero, rows)
    ensures Tracked(t, id, Resolving(ns, l.form, l.adminId, l.purpose), zero, rows)
  {
    C.DefaultNames();
    hide C.IsPrivilegedGroup, Accounts.ReservedIn;
  }

  lemma LoopsStayTracked(t: Tables, orgs: set<int>, ns: string, l: Local, e: Env, id: int, zero: set<int>,
                         rows: set<(int, int)>)
    requires GroupsNumbered(t) && IsLooping(l) && Tracked(t, id, l, zero, rows)
    requires l.AddUser? && InsertUser(t, orgs, StatementOf(l).row).out.Ok? ==> (id, t.nextUser) in rows
    ensures var (t', l') := Advance(t, orgs, ns, l, e); Tracked(t', id, l', zero, rows)
  {
    hide GroupsNumbered, Harmless, Guarded, FindGroupByName, InsertGroup, AssignUserToGroup, Trim, ProfileFits;
    if CleanLocal(Privileged, t, l) {
      LoopsStayClean(Privileged, t, orgs, ns, l, e);
      hide Advance;
    }
  }

  lemma OthersStayTracked(t: Tables, orgs: set<int>, ns: string, l: Local, e: Env)
    requires !CreatesUser(l) && !l.SeekJoinedGroup? && !l.AddJoin?
    ensures var l' := Advance(t, orgs, ns, l, e).1; !CreatesUser(l') && !l'.SeekJoinedGroup? && !l'.AddJoin?
  {
    hide Perform, Accounts.Respond, Accounts.FindByIdentity, FindByEmail, FindValidToken, FindGroupByName, InsertGroup,
      InsertPolicy, UpdateProfile, CreateResetToken, GetUserAllPolicies, PolicyRows, Email.IsEmail, Email.IsPassword,
      Utf8Length, Decisions.Grants, UpdatePassword, SetFirstLogin, MarkTokenUsed, FindUser;
  }

  lemma LookupsStayTracked(t: Tables, orgs: set<int>, ns: string, l: Local, e: Env, id: int, zero: set<int>,
                           rows: set<(int, int)>)
    requires (l.CountUsers? || l.SeekEmail? || l.SeekUsername?) && Tracked(t, id, l, zero, rows)
    requires l.CountUsers? && l.group.None? && |t.users| == 0 ==> id in zero
    ensures var (t', l') := Advance(t, orgs, ns, l, e); Tracked(t', id, l', zero, rows)
  {
    hide FindByEmail, FindByUsername, Resolving, Counted, CleanLocal, NoneGuarded;
    if l.CountUsers? {
      CountIsTracked(t, ns, l.form, l.group, id, zero, rows);
    } else if l.SeekUsername? {
      ResolvingIsTracked(t, ns, l, id, zero, rows);
    }
    FailureIsTracked(t, id, EmailTaken, zero, rows);
    FailureIsTracked(t, id, UsernameTaken, zero, rows);
  }

  lemma FailureIsTracked(t: Tables, id: int, err: Error, zero: set<int>, rows: set<(int, int)>)
    ensures Tracked(t, id, Failure(err), zero, rows)
  {}

  lemma AdvanceStaysTracked(t: Tables, orgs: set<int>, ns: string, l: Local, e: Env, id: int, zero: set<int>,
                            rows: set<(int, int)>)
    requires GroupsNumbered(t) && Tracked(t, id, l, zero, rows)
    requires l.CountUsers? && l.group.None? && |t.users| == 0 ==> id in zero
    requires l.AddUser? && InsertUser(t, orgs, StatementOf(l).row).out.Ok? ==> (id, t.nextUser) in rows
    ensures var (t', l') := Advance(t, orgs, ns, l, e); Tracked(t', id, l', zero, rows)
  {
    hide GroupsNumbered, StatementOf, InsertUser, Advance, NoneGuarded, AllHarmless;
    if IsLooping(l) {
      hide Tracked;
      LoopsStayTracked(t, orgs, ns, l, e, id, zero, rows);
    } else if CreatesUser(l) {
      hide Tracked;
      LookupsStayTracked(t, orgs, ns, l, e, id, zero, rows);
    } else {
      OthersStayTracked(t, orgs, ns, l, e);
    }
  }

  lemma MoreHistory(t: Tables, zero: set<int>, rows: set<(int, int)>, zero': set<int>, rows': set<(int, int)>,
                    userId: int)
    requires zero <= zero' && rows <= rows' && FromZero(userId, zero, rows)
    ensures FromZero(userId, zero', rows')
  {}

  /** A membership that a tracked request inserts is in a harmless group, or is the newcomer's who counted zero. */
  lemma JoiningIsAccounted(t: Tables, id: int, l: Local, k: (int, int), zero: set<int>, rows: set<(int, int)>)
    requires Tracked(t, id, l, zero, rows) && Joins(StatementOf(l), k)
    ensures Harmless(Privileged, t, k.1) || FromZero(k.0, zero, rows)
  {
    hide Harmless, Trim;
  }

  lemma StepKeepsAccount(s: Sys, m: Move, e: Env, s': Sys, ns: string, zero: set<int>, rows: set<(int, int)>)
    requires SysStep(s, m, e, s') && Watched(s, ns, zero, rows)
    ensures Accountable(Schema(s'.db, ns), zero + CountedNow(s, m, ns), rows + StoredNow(s, m, ns))
  {
    hide SysStep, Ages, GroupsNumbered, Harmless, Tracked, StatementOf, Joins, FromZero, CountedNow, StoredNow;
    var t, t' := Schema(s.db, ns), Schema(s'.db, ns);
    StepAges(s, m, e, s', ns);
    AgingNumbers(t, t');
    var zero', rows' := zero + CountedNow(s, m, ns), rows + StoredNow(s, m, ns);
    forall k | k in t'.members ensures Harmless(Privileged, t', k.1) || FromZero(k.0, zero', rows') {
      StepJoins(s, m, e, s', ns, k);
      if k !in t.members { JoiningIsAccounted(t, m.id, s.threads[m.id].local, k, zero, rows); }
      if FromZero(k.0, zero, rows) { MoreHistory(t, zero, rows, zero', rows', k.0); }
      if Harmless(Privileged, t, k.1) { HarmlessStays(Privileged, t, t', k.1); }
    }
  }

  lemma StepKeepsTracked(s: Sys, m: Move, e: Env, s': Sys, ns: string, zero: set<int>, rows: set<(int, int)>, id: int)
    requires SysStep(s, m, e, s') && Watched(s, ns, zero, rows) && BeginsUninvited(m, ns)
    requires id in s'.threads && s'.threads[id].ns == ns
    ensures Tracked(Schema(s'.db, ns), id, s'.threads[id].local, zero + CountedNow(s, m, ns),
                    rows + StoredNow(s, m, ns))
  {
    hide SysStep, Ages, GroupsNumbered, Tracked, Advance, Start, StatementOf, InsertUser, Harmless;
    var t, t' := Schema(s.db, ns), Schema(s'.db, ns);
    var zero', rows' := zero + CountedNow(s, m, ns), rows + StoredNow(s, m, ns);
    ThreadMoves(s, m, e, s', id);
    StepTouches(s, m, e, s', ns);
    StepAges(s, m, e, s', ns);
    hide After;
    if id !in s.threads {
      StartIsTracked(t', ns, s'.threads[id].act, e, id, zero', rows');
    } else {
      var l := s.threads[id].local;
      if s'.threads[id].local == l {
        TrackedStays(t, t', id, l, zero, rows, zero', rows');
      } else if ns in s.db.schemas {
        NoAging(t);
        TrackedStays(t, t, id, l, zero, rows, zero', rows');
        AdvanceStaysTracked(t, s.db.orgs.Keys, ns, l, e, id, zero', rows');
      } else {
        FailureIsTracked(t', id, Database, zero', rows');
      }
    }
  }

  lemma NoAging(t: Tables)
    requires GroupsNumbered(t)
    ensures Ages(t, t)
  {}

  lemma StepKeepsWatched(s: Sys, m: Move, e: Env, s': Sys, ns: string, zero: set<int>, rows: set<(int, int)>)
    requires SysStep(s, m, e, s') && Watched(s, ns, zero, rows) && BeginsUninvited(m, ns)
    ensures Watched(s', ns, zero + CountedNow(s, m, ns), rows + StoredNow(s, m, ns))
  {
    hide SysStep, Tracked, Accountable, CountedNow, StoredNow;
    StepKeepsAccount(s, m, e, s', ns, zero, rows);
    forall id | id in s'.threads && s'.threads[id].ns == ns
      ensures Tracked(Schema(s'.db, ns), id, s'.threads[id].local, zero + CountedNow(s, m, ns),
                      rows + StoredNow(s, m, ns))
    {
      StepKeepsTracked(s, m, e, s', ns, zero, rows, id);
    }
  }

  /** Nothing is in flight and nobody is registered yet; groups may be there. */
  predicate Unsettled(s: Sys, ns: string) {
    s.threads == map[] && Valid(Schema(s.db, ns)) && Schema(s.db, ns).users == map[]
  }

  lemma UnsettledIsWatched(s: Sys, ns: string)
    requires Unsettled(s, ns)
    ensures Watched(s, ns, {}, {}) && Schema(s.db, ns).members == map[]
  {
    var t := Schema(s.db, ns);
    assert forall k | k in t.members :: k.0 in t.users;
    assert t.members == map[];
  }

  lemma {:induction false} RunsStayWatched(r: Interleaved, j: nat, ns: string)
    requires IsInterleaving(r) && j < |r.states| && Unsettled(r.states[0], ns)
    requires forall k | 0 <= k < j :: BeginsUninvited(r.moves[k], ns)
    ensures Watched(r.states[j], ns, ZeroCounts(r, j, ns), Stored(r, j, ns))
  {
    hide SysStep, Watched, Unsettled, BeginsUninvited, CountsZero, Inserts;
    if j == 0 {
      UnsettledIsWatched(r.states[0], ns);
      assert ZeroCounts(r, 0, ns) == {} && Stored(r, 0, ns) == {};
    } else {
      RunsStayWatched(r, j - 1, ns);
      var s, m, e := r.states[j - 1], r.moves[j - 1], r.envs[j - 1];
      assert SysStep(s, m, e, r.states[j - 1 + 1]);
      StepKeepsWatched(s, m, e, r.states[j], ns, ZeroCounts(r, j - 1, ns), Stored(r, j - 1, ns));
      HistoryGrows(r, j, ns);
    }
  }

  /** However registrations interleave with each other and with every request that invites nobody, whoever holds a
      privileged group was stored by a registration whose own count read 0. */
  lemma PrivilegeComesFromZeroCounts(r: Interleaved, j: nat, ns: string, userId: int)
    requires IsInterleaving(r) && j < |r.states| && Unsettled(r.states[0], ns)
    requires forall k | 0 <= k < j :: BeginsUninvited(r.moves[k], ns)
    requires HoldsPrivilege(Schema(r.states[j].db, ns), userId)
    ensures exists id | id in ZeroCounts(r, j, ns) :: (id, userId) in Stored(r, j, ns)
  {
    hide SysStep, Unsettled, BeginsUninvited, C.IsPrivilegedGroup, ZeroCounts, Stored, Tracked;
    RunsStayWatched(r, j, ns);
    var t := Schema(r.states[j].db, ns);
    var g :| (userId, g) in t.members && g in t.groups && C.IsPrivilegedGroup(t.groups[g].name);
    assert Harmless(Privileged, t, (userId, g).1) || FromZero((userId, g).0, ZeroCounts(r, j, ns), Stored(r, j, ns));
  }
}
