/** What every transaction and every request keeps: the constraints the migrations declare. */
module Integrity {
  import opened Environment
  import opened Tables
  import opened Constraints
  import opened Organizations
  import opened Requests
  import opened Steps
  import opened Interleaving
  import C = Constants
  import Granting
  import Granularity

  // ----- the constraints of one schema

  lemma SingleActKeeps(t: Tables, orgs: set<int>, ns: string, act: SingleAct, e: Env)
    requires Valid(t)
    ensures var t' := Perform(t, orgs, ns, act, e).t; Valid(t') && t'.global == t.global
  {
    hide Valid, Erase, CleanupExpiredTokens, RemoveUserFromGroup;
    match act {
      case ActCleanup => CleanupKeeps(t, e.now);
      case ActDeleteUser(userId) => EraseKeeps(t, {userId}, {}, {});
      case ActLeaveGroup(userId, groupId) => RemoveKeeps(t, userId, groupId);
    }
  }

  /** No transaction of any request breaks a constraint, whatever ran before it. */
  lemma AdvanceKeepsValid(t: Tables, orgs: set<int>, ns: string, l: Local, e: Env)
    requires Valid(t)
    ensures var t' := Advance(t, orgs, ns, l, e).0; Valid(t') && t'.global == t.global
  {
    hide Valid, Advance, Perform, StatementOf, InsertUser, InsertGroup, InsertPolicy, AssignUserToGroup,
      UpdatePassword, UpdateProfile, SetFirstLogin, CreateResetToken, MarkTokenUsed;
    AdvanceWrites(t, orgs, ns, l, e);
    match StatementOf(l) {
      case Query =>
      case Single(act) => SingleActKeeps(t, orgs, ns, act, e);
      case InsertingGroup(name, org) => InsertGroupKeeps(t, orgs, name, org);
      case InsertingUser(n) => InsertUserKeeps(t, orgs, n);
      case InsertingMember(userId, groupId, assignedBy) => AssignKeeps(t, userId, groupId, assignedBy);
      case InsertingPolicy(name, org, resource, action, effect) =>
        InsertPolicyKeeps(t, orgs, name, org, resource, action, effect);
      case InsertingToken(userId) => CreateTokenKeeps(t, userId, e.resetToken, e.now + DAY);
      case UpdatingPassword(userId, hash) => UpdatePasswordKeeps(t, userId, hash);
      case UpdatingFlag(userId, flag) => SetFirstLoginKeeps(t, userId, flag);
      case UpdatingProfile(userId, email, username) => UpdateProfileKeeps(t, userId, email, username);
      case UpdatingToken(tokenId) => MarkUsedKeeps(t, tokenId, e.now);
    }
  }

  lemma {:induction false} DriveKeepsValid(t: Tables, orgs: set<int>, ns: string, l: Local, e: Env)
    requires Valid(t)
    ensures var t' := Drive(t, orgs, ns, l, e).t; Valid(t') && t'.global == t.global
    decreases Left(l)
  {
    hide Valid, Advance;
    if !l.Finished? {
      AdvanceProgresses(t, orgs, ns, l, e);
      AdvanceKeepsValid(t, orgs, ns, l, e);
      var (t', l') := Advance(t, orgs, ns, l, e);
      DriveKeepsValid(t', orgs, ns, l', e);
    }
  }

  /** No request breaks a constraint of the schema it runs in. */
  lemma PerformKeeps(t: Tables, orgs: set<int>, ns: string, act: Act, e: Env)
    requires Valid(t)
    ensures var t' := Perform(t, orgs, ns, act, e).t; Valid(t') && t'.global == t.global
  {
    hide Valid, Perform, Drive, Start;
    DriveKeepsValid(t, orgs, ns, Start(ns, act, e), e);
    Granularity.UninterruptedIsAtomic(t, orgs, ns, act, e);
  }

  lemma {:induction false} SeedKeeps(t: Tables, orgs: set<int>, names: seq<string>, org: int, q: Planner)
    requires Valid(t)
    ensures var t' := SeedGroups(t, orgs, names, org, q).t; Valid(t') && t'.global == t.global
    decreases |names|
  {
    hide Valid, InsertGroup, FindGroupByName;
    if names != [] {
      InsertGroupKeeps(t, orgs, names[0], org);
      var rest := if FindGroupByName(t, names[0], org, q).Some? then t else InsertGroup(t, orgs, names[0], org).t;
      SeedKeeps(rest, orgs, names[1..], org, q);
    }
  }

  // ----- the whole database

  predicate OrganizationsOk(d: Db) {
    && SerialOk(d.orgs.Keys, d.nextOrg)
    && (forall o | o in d.orgs :: d.orgs[o].organizationId == o && d.orgs[o].namespace in d.schemas)
    && (forall o, p | o in d.orgs && p in d.orgs && o != p ::
          d.orgs[o].namespace != d.orgs[p].namespace && d.orgs[o].secretKey != d.orgs[p].secretKey)
  }

  predicate SchemasOk(d: Db) {
    forall ns | ns in d.schemas :: Valid(d.schemas[ns]) && (d.schemas[ns].global <==> ns == C.DEFAULT_NAMESPACE)
  }

  predicate DbOk(d: Db) {
    OrganizationsOk(d) && SchemasOk(d) && C.DEFAULT_NAMESPACE in d.schemas
  }

  lemma CreateOrgKeeps(d: Db, name: string, ns: string, e: Env)
    requires DbOk(d)
    ensures DbOk(CreateOrg(d, name, ns, e).db)
  {
    hide Valid, SeedGroups;
    var x := InsertOrganization(d, name, ns, e.key);
    if x.out.Ok? {
      EmptyIsValid();
      SeedKeeps(Empty(false), x.db.orgs.Keys, DEFAULT_GROUPS, d.nextOrg, e.planner);
    }
  }

  lemma EmptyIsValid()
    ensures Valid(Empty(false))
  {}

  lemma DropKeeps(t: Tables, org: int)
    requires Valid(t)
    ensures var r := DropOrganization(t, org); r.Some? ==> Valid(r.value) && r.value.global == t.global
  {
    hide Valid;
    EraseKeeps(t, set u | u in t.users && t.users[u].organizationId == org,
               set g | g in t.groups && t.groups[g].organizationId == org,
               set p | p in t.policies && t.policies[p].organizationId == org);
  }

  lemma DeleteOrganizationKeeps(d: Db, org: int)
    requires DbOk(d)
    ensures DbOk(Organizations.DeleteOrganization(d, org).db)
  {
    hide Valid, DropOrganization;
    forall ns | ns in d.schemas
      ensures var r := DropOrganization(d.schemas[ns], org);
              r.Some? ==> Valid(r.value) && r.value.global == d.schemas[ns].global
    {
      DropKeeps(d.schemas[ns], org);
    }
  }

  /** Every request, whoever sends it, keeps the whole database consistent. */
  lemma StepKeepsDbOk(w: World, ev: Event, w': World, a: Answer)
    requires DbOk(w.db) && Step(w, ev, w', a)
    ensures DbOk(w'.db)
  {
    hide Valid, PlanOf, Perform, CreateOrg, Organizations.DeleteOrganization;
    match PlanOf(w, ev.request, ev.env) {
      case Refuse(_) =>
      case InSchema(ns, act) =>
        if ns in w.db.schemas {
          PerformKeeps(w.db.schemas[ns], w.db.orgs.Keys, ns, act, ev.env);
        }
      case OnOrganizations(OrgCreate(name, ns)) => CreateOrgKeeps(w.db, name, ns, ev.env);
      case OnOrganizations(OrgDelete(id)) => DeleteOrganizationKeeps(w.db, id);
      case OnOrganizations(_) =>
    }
  }

  lemma {:induction false} RunKeepsDbOk(tr: Trace, j: nat)
    requires IsRun(tr) && j < |tr.worlds|
    requires DbOk(tr.worlds[0].db)
    ensures DbOk(tr.worlds[j].db)
  {
    hide DbOk;
    if j > 0 {
      RunKeepsDbOk(tr, j - 1);
      assert Step(tr.worlds[j - 1], tr.events[j - 1], tr.worlds[j - 1 + 1], tr.answers[j - 1]);
      StepKeepsDbOk(tr.worlds[j - 1], tr.events[j - 1], tr.worlds[j], tr.answers[j - 1]);
    }
  }

  // ----- requests in flight

  lemma SysStepKeepsValid(s: Sys, m: Move, e: Env, s': Sys, ns: string)
    requires SysStep(s, m, e, s') && Valid(Schema(s.db, ns))
    ensures Valid(Schema(s'.db, ns))
  {
    hide Valid, SysStep, Advance, InsertGroup, DropOrganization, Granting.Granted;
    StepTouches(s, m, e, s', ns);
    var t := Schema(s.db, ns);
    if ns in s.db.schemas {
      match Touched(s, m, ns) {
        case Untouched =>
        case Ticked(l) => AdvanceKeepsValid(t, s.db.orgs.Keys, ns, l, e);
        case Seeded(org, name) => InsertGroupKeeps(t, s.db.orgs.Keys, name, org);
        case Dropped(org) => DropKeeps(t, org);
        case Regranted(grant) => Granting.GrantsKeep(t, grant);
      }
    }
  }

  /** Under every interleaving of transactions, every schema keeps every declared constraint. */
  lemma {:induction false} InterleavingsKeepValid(r: Interleaved, j: nat, ns: string)
    requires IsInterleaving(r) && j < |r.states|
    requires Valid(Schema(r.states[0].db, ns))
    ensures Valid(Schema(r.states[j].db, ns))
  {
    hide Valid, SysStep;
    if j > 0 {
      InterleavingsKeepValid(r, j - 1, ns);
      assert SysStep(r.states[j - 1], r.moves[j - 1], r.envs[j - 1], r.states[j - 1 + 1]);
      SysStepKeepsValid(r.states[j - 1], r.moves[j - 1], r.envs[j - 1], r.states[j], ns);
    }
  }
}
