/** No tenant ever has a superadmin, however requests interleave. */
module Confinement {
  import opened Wrappers
  import opened Text
  import opened Environment
  import opened Tables
  import opened Organizations
  import opened Requests
  import opened Steps
  import opened Interleaving
  import opened Handles
  import C = Constants
  import Constraints
  import Accounts
  import Decisions
  import Email
  import Jwt

  predicate Clean(t: Tables) {
    GroupsNumbered(t) && forall k | k in t.members :: Harmless(Superadmin, t, k.1)
  }

  predicate CleanClaims(c: Jwt.Claims) { c.namespace != C.DEFAULT_NAMESPACE ==> NoneGuarded(Superadmin, c.groups) }

  lemma ResponsesAreClean(t: Tables, u: User, ns: string, q: Planner)
    requires Clean(t)
    ensures NoneGuarded(Superadmin, Accounts.Respond(t, u, ns, q).groups)
  {}

  /** The one check in front of the loop: a tenant form behind it names no superadmin group. */
  lemma ResolvingIsClean(t: Tables, ns: string, form: Accounts.UserForm, adminId: Option<int>, purpose: Purpose)
    requires ns != C.DEFAULT_NAMESPACE
    ensures CleanLocal(Superadmin, t, Resolving(ns, form, adminId, purpose))
  {}

  predicate TenantClaims(ns: string, cs: set<Jwt.Claims>) {
    forall c | c in cs :: c.namespace == ns && NoneGuarded(Superadmin, c.groups)
  }

  predicate IsPlain(l: Local) {
    !IsLooping(l) && !l.SeekUsername? && !l.ReadGroups? && !l.SeekJoinedGroup? && !l.OneShot? && !l.Finished?
  }

  /** The other transactions leave the request with no group id in hand, and mint nothing. */
  lemma PlainSteps(t: Tables, orgs: set<int>, ns: string, l: Local, e: Env)
    requires IsPlain(l)
    ensures var l' := Advance(t, orgs, ns, l, e).1;
            !IsLooping(l') && !l'.AddJoin? && !l'.OneShot? && (l'.Finished? ==> MintedBy(l') == {})
  {
    hide Accounts.Respond, FindByEmail, FindByUsername, FindValidToken, InsertGroup, Accounts.FindByIdentity,
      AssignUserToGroup, InsertPolicy, UpdateProfile, CreateResetToken, GetUserAllPolicies, PolicyRows, Email.IsEmail,
      Email.IsPassword, Accounts.RegistrationGroups, FindGroupByName, Utf8Length, Decisions.Grants, UpdatePassword,
      MarkTokenUsed, SetFirstLogin, FindUser, FindGroup;
  }

  lemma UsernameStep(t: Tables, orgs: set<int>, ns: string, l: Local, e: Env)
    requires ns != C.DEFAULT_NAMESPACE && l.SeekUsername?
    ensures var (t', l') := Advance(t, orgs, ns, l, e); t' == t && CleanLocal(Superadmin, t, l') && MintedBy(l') == {}
  {
    ResolvingIsClean(t, ns, l.form, l.adminId, l.purpose);
    hide FindByUsername, CleanLocal;
  }

  lemma ReadStep(t: Tables, orgs: set<int>, ns: string, l: Local, e: Env)
    requires Clean(t) && l.ReadGroups?
    ensures var (t', l') := Advance(t, orgs, ns, l, e);
            t' == t && CleanLocal(Superadmin, t, l') && TenantClaims(ns, MintedBy(l'))
  {
    hide Clean, NoneGuarded, Accounts.GetUserGroupNames;
    ResponsesAreClean(t, l.user, ns, e.planner);
  }

  lemma JoinStep(t: Tables, orgs: set<int>, ns: string, l: Local, e: Env)
    requires ns != C.DEFAULT_NAMESPACE && Clean(t) && l.SeekJoinedGroup?
    ensures var (t', l') := Advance(t, orgs, ns, l, e); t' == t && CleanLocal(Superadmin, t, l') && MintedBy(l') == {}
  {
    hide Clean, Harmless, FindGroup, Accounts.ReservedIn;
    JoinedGroupIsHarmless(t, ns, l.groupId);
  }

  lemma SingleStep(t: Tables, orgs: set<int>, ns: string, l: Local, e: Env)
    requires l.OneShot?
    ensures var (t', l') := Advance(t, orgs, ns, l, e); CleanLocal(Superadmin, t', l') && MintedBy(l') == {}
  {
    OneShotsMintNothing(t, orgs, ns, l.single, e);
    hide Perform;
  }

  lemma JoinedGroupIsHarmless(t: Tables, ns: string, g: int)
    requires ns != C.DEFAULT_NAMESPACE && Clean(t)
    ensures FindGroup(t, g).Some? && !Accounts.ReservedIn(ns, FindGroup(t, g).value.name) ==> Harmless(Superadmin, t, g)
  {}

  lemma OneShotsMintNothing(t: Tables, orgs: set<int>, ns: string, act: SingleAct, e: Env)
    ensures var x := Perform(t, orgs, ns, act, e); x.out.Ok? ==> Minted(x.out.value) == {}
  {}

  lemma LoopStep(t: Tables, orgs: set<int>, ns: string, l: Local, e: Env)
    requires Clean(t) && CleanLocal(Superadmin, t, l) && IsLooping(l)
    ensures var (t', l') := Advance(t, orgs, ns, l, e); CleanLocal(Superadmin, t', l') && MintedBy(l') == {}
  {
    hide CleanLocal, Advance, IsLooping;
    LoopsStayClean(Superadmin, t, orgs, ns, l, e);
  }

  lemma PlainStep(t: Tables, orgs: set<int>, ns: string, l: Local, e: Env)
    requires IsPlain(l)
    ensures var (t', l') := Advance(t, orgs, ns, l, e); CleanLocal(Superadmin, t', l') && MintedBy(l') == {}
  {
    hide Advance;
    PlainSteps(t, orgs, ns, l, e);
  }

  /** What a tenant request knows after one more transaction is clean again, and so is any token it mints. */
  lemma AdvanceCleansLocal(t: Tables, orgs: set<int>, ns: string, l: Local, e: Env)
    requires ns != C.DEFAULT_NAMESPACE && Clean(t) && CleanLocal(Superadmin, t, l) && !l.Finished?
    ensures var (t', l') := Advance(t, orgs, ns, l, e); CleanLocal(Superadmin, t', l') && TenantClaims(ns, MintedBy(l'))
  {
    hide Clean, CleanLocal, NoneGuarded, Advance, MintedBy;
    if l.SeekUsername? {
      UsernameStep(t, orgs, ns, l, e);
    } else if l.ReadGroups? {
      ReadStep(t, orgs, ns, l, e);
    } else if l.SeekJoinedGroup? {
      JoinStep(t, orgs, ns, l, e);
    } else if l.OneShot? {
      SingleStep(t, orgs, ns, l, e);
    } else if IsLooping(l) {
      LoopStep(t, orgs, ns, l, e);
    } else {
      PlainStep(t, orgs, ns, l, e);
    }
  }

  // ----- whole systems

  predicate IsTenant(ns: string) { ns != C.DEFAULT_NAMESPACE }

  predicate Confined(s: Sys) {
    && (forall ns | ns in s.db.schemas && IsTenant(ns) :: Clean(s.db.schemas[ns]))
    && (forall id | id in s.threads && IsTenant(s.threads[id].ns) ::
          CleanLocal(Superadmin, Schema(s.db, s.threads[id].ns), s.threads[id].local))
    && (forall c | c in s.issued :: CleanClaims(c))
  }

  lemma StepKeepsSchemaClean(s: Sys, m: Move, e: Env, s': Sys, ns: string)
    requires Confined(s) && SysStep(s, m, e, s') && IsTenant(ns)
    ensures Ages(Schema(s.db, ns), Schema(s'.db, ns)) && Clean(Schema(s'.db, ns))
  {
    hide Ages, CleanLocal, SysStep, Harmless, CleanClaims, StatementOf, GroupsNumbered;
    EmptyIsNumbered();
    var t, t' := Schema(s.db, ns), Schema(s'.db, ns);
    StepAges(s, m, e, s', ns);
    AgingNumbers(t, t');
    forall k | k in t'.members ensures Harmless(Superadmin, t', k.1) {
      StepJoins(s, m, e, s', ns, k);
      if k !in t.members { JoinedIdsAreHarmless(Superadmin, t, Touched(s, m, ns).l); }
      HarmlessStays(Superadmin, t, t', k.1);
    }
  }

  lemma StartIsClean(t: Tables, ns: string, act: Act, e: Env)
    ensures CleanLocal(Superadmin, t, Start(ns, act, e))
  {}

  lemma StepKeepsThreadClean(s: Sys, m: Move, e: Env, s': Sys, id: int)
    requires Confined(s) && SysStep(s, m, e, s')
    requires id in s'.threads && IsTenant(s'.threads[id].ns)
    ensures CleanLocal(Superadmin, Schema(s'.db, s'.threads[id].ns), s'.threads[id].local)
  {
    hide Clean, Ages, CleanLocal, SysStep, Advance, Start, CleanClaims;
    var th := s'.threads[id];
    var t, t' := Schema(s.db, th.ns), Schema(s'.db, th.ns);
    ThreadMoves(s, m, e, s', id);
    StepTouches(s, m, e, s', th.ns);
    if id !in s.threads {
      StartIsClean(t', th.ns, th.act, e);
    } else if th.local == s.threads[id].local {
      StepKeepsSchemaClean(s, m, e, s', th.ns);
      CleanLocalStays(Superadmin, t, t', th.local);
    } else if th.ns in s.db.schemas {
      AdvanceCleansLocal(t, s.db.orgs.Keys, th.ns, s.threads[id].local, e);
    } else {
      FailureIsClean(t', Database);
    }
  }

  lemma FailureIsClean(t: Tables, err: Error)
    ensures CleanLocal(Superadmin, t, Failure(err))
  {}

  lemma StepKeepsTokensClean(s: Sys, m: Move, e: Env, s': Sys, c: Jwt.Claims)
    requires Confined(s) && SysStep(s, m, e, s') && c in s'.issued
    ensures CleanClaims(c)
  {
    hide Clean, CleanLocal, SysStep, Advance, MintedBy, NoneGuarded;
    if c !in s.issued {
      TokensAppearWithAnswers(s, m, e, s', c);
      var th := s.threads[m.id];
      var t := s.db.schemas[th.ns];
      if IsTenant(th.ns) {
        AdvanceCleansLocal(t, s.db.orgs.Keys, th.ns, th.local, e);
      } else {
        MintedNamespace(t, s.db.orgs.Keys, th.ns, th.local, e, c);
      }
    }
  }

  /** A token names the namespace it was minted in. */
  lemma MintedNamespace(t: Tables, orgs: set<int>, ns: string, l: Local, e: Env, c: Jwt.Claims)
    requires !l.Finished? && c in MintedBy(Advance(t, orgs, ns, l, e).1)
    ensures c.namespace == ns
  {
    if IsPlain(l) { PlainSteps(t, orgs, ns, l, e); }
  }

  lemma StepKeepsConfined(s: Sys, m: Move, e: Env, s': Sys)
    requires Confined(s) && SysStep(s, m, e, s')
    ensures Confined(s')
  {
    hide Clean, CleanLocal, SysStep, CleanClaims;
    forall ns | ns in s'.db.schemas && IsTenant(ns)
      ensures Clean(s'.db.schemas[ns])
    {
      StepKeepsSchemaClean(s, m, e, s', ns);
    }
    forall id | id in s'.threads && IsTenant(s'.threads[id].ns)
      ensures CleanLocal(Superadmin, Schema(s'.db, s'.threads[id].ns), s'.threads[id].local)
    {
      StepKeepsThreadClean(s, m, e, s', id);
    }
    forall c | c in s'.issued ensures CleanClaims(c) { StepKeepsTokensClean(s, m, e, s', c); }
  }

  lemma {:induction false} RunsStayConfined(r: Interleaved, j: nat)
    requires IsInterleaving(r) && j < |r.states|
    requires Confined(r.states[0])
    ensures Confined(r.states[j])
  {
    hide Confined, SysStep;
    if j > 0 {
      RunsStayConfined(r, j - 1);
      assert SysStep(r.states[j - 1], r.moves[j - 1], r.envs[j - 1], r.states[j - 1 + 1]);
      StepKeepsConfined(r.states[j - 1], r.moves[j - 1], r.envs[j - 1], r.states[j]);
    }
  }

  /** At the start nothing is in flight, no tenant has a superadmin member, and no tenant token says otherwise.
      A tenant may well hold a group of that name. */
  predicate Quiet(s: Sys) {
    && s.threads == map[]
    && (forall ns | ns in s.db.schemas && IsTenant(ns) ::
          && Constraints.Valid(s.db.schemas[ns])
          && forall k | k in s.db.schemas[ns].members :: !C.IsSuperadminName(s.db.schemas[ns].groups[k.1].name))
    && (forall c | c in s.issued :: CleanClaims(c))
  }

  lemma QuietIsConfined(s: Sys)
    requires Quiet(s)
    ensures Confined(s)
  {}

  /** Under every interleaving, no membership of a tenant leads to a group that reads as `superadmin`. */
  lemma NoTenantSuperadmin(r: Interleaved, j: nat, ns: string, userId: int, groupId: int)
    requires IsInterleaving(r) && j < |r.states| && Quiet(r.states[0])
    requires ns != C.DEFAULT_NAMESPACE && ns in r.states[j].db.schemas
    requires var t := r.states[j].db.schemas[ns]; (userId, groupId) in t.members && groupId in t.groups
    ensures !C.IsSuperadminName(r.states[j].db.schemas[ns].groups[groupId].name)
  {
    hide Quiet, C.IsSuperadminName;
    QuietIsConfined(r.states[0]);
    RunsStayConfined(r, j);
    assert Harmless(Superadmin, r.states[j].db.schemas[ns], (userId, groupId).1);
  }

  /** And no token issued for a tenant carries such a name. */
  lemma NoTenantSuperadminToken(r: Interleaved, j: nat, c: Jwt.Claims, group: string)
    requires IsInterleaving(r) && j < |r.states| && Quiet(r.states[0])
    requires c in r.states[j].issued && c.namespace != C.DEFAULT_NAMESPACE && group in c.groups
    ensures !C.IsSuperadminName(group)
  {
    hide Quiet, C.IsSuperadminName;
    QuietIsConfined(r.states[0]);
    RunsStayConfined(r, j);
  }
}
