/** Each schema belongs to one organization, and its rows know it. */
module Binding {
  import opened Wrappers
  import opened Text
  import opened Environment
  import opened Tables
  import opened Constraints
  import opened Organizations
  import opened Requests
  import opened Steps
  import opened Interleaving
  import opened Integrity
  import opened Cascades
  import C = Constants
  import Accounts
  import Decisions
  import Email
  import Granting
  import Granularity

  predicate Bound(d: Db) {
    && (forall ns | ns in d.schemas :: exists o | o in d.orgs :: d.orgs[o].namespace == ns && OwnedBy(d.schemas[ns], o))
    && C.DEFAULT_ORGANIZATION_ID in d.orgs && d.orgs[C.DEFAULT_ORGANIZATION_ID].namespace == C.DEFAULT_NAMESPACE
  }

  predicate RowsFor(act: Act, org: int) {
    match act
    case ActRegister(o, _, _, _, _) => o == org
    case ActCreateUser(f, _) => f.organizationId == org
    case ActCreateGroup(o, _) => o == org
    case ActCreatePolicy(o, _, _, _, _) => o == org
    case _ => true
  }

  // ----- one transaction

  /** The rows a request in flight may still add are for organization `org`. */
  predicate LocalFor(l: Local, org: int) {
    match l
    case CountUsers(form, _) => form.organizationId == org
    case SeekEmail(form, _, _) => form.organizationId == org
    case SeekUsername(form, _, _) => form.organizationId == org
    case SeekGroup(form, _, _, _, _) => form.organizationId == org
    case AddGroup(form, _, _, _, _) => form.organizationId == org
    case AddUser(form, _, _, _) => form.organizationId == org
    case SeekGroupName(o, _) => o == org
    case AddNamedGroup(o, _) => o == org
    case SeekPolicyName(o, _, _, _, _) => o == org
    case AddPolicy(o, _, _, _, _) => o == org
    case _ => true
  }

  predicate StatementFor(st: Statement, org: int) {
    match st
    case InsertingGroup(_, o) => o == org
    case InsertingUser(n) => n.organizationId == org
    case InsertingPolicy(_, o, _, _, _) => o == org
    case _ => true
  }

  lemma StartsFor(ns: string, act: Act, e: Env, org: int)
    requires RowsFor(act, org)
    ensures LocalFor(Start(ns, act, e), org)
  {}

  lemma StatementsFor(l: Local, org: int)
    requires LocalFor(l, org)
    ensures StatementFor(StatementOf(l), org)
  {
    hide Trim;
  }

  lemma CreationStaysFor(t: Tables, orgs: set<int>, ns: string, l: Local, e: Env, org: int)
    requires CreatesUser(l) && LocalFor(l, org)
    ensures LocalFor(Advance(t, orgs, ns, l, e).1, org)
  {
    hide Accounts.RegistrationGroups, FindByEmail, FindByUsername, FindGroupByName, InsertUser, InsertGroup,
      AssignUserToGroup, Email.IsEmail, Email.IsPassword, Accounts.ReservedIn, Trim;
  }

  lemma AdvanceStaysFor(t: Tables, orgs: set<int>, ns: string, l: Local, e: Env, org: int)
    requires LocalFor(l, org)
    ensures LocalFor(Advance(t, orgs, ns, l, e).1, org)
  {
    hide Perform, Accounts.Respond, Accounts.FindByIdentity, FindByEmail, FindValidToken, FindGroupByName, InsertGroup,
      AssignUserToGroup, InsertPolicy, UpdateProfile, CreateResetToken, GetUserAllPolicies, PolicyRows, Email.IsEmail,
      Email.IsPassword, Accounts.ReservedIn, Utf8Length, Decisions.Grants, FindUser, FindGroup;
    if CreatesUser(l) {
      hide Advance, LocalFor;
      CreationStaysFor(t, orgs, ns, l, e, org);
    }
  }

  lemma UpdatesKeepOwner(t: Tables, orgs: set<int>, ns: string, st: Statement, e: Env, org: int)
    requires OwnedBy(t, org) && WritesUsers(st) && !st.InsertingUser?
    ensures OwnedBy(Written(t, orgs, ns, st, e), org)
  {
    hide ProfileFits;
  }

  lemma InsertsKeepOwnerExactly(t: Tables, orgs: set<int>, ns: string, st: Statement, e: Env, org: int)
    requires OwnedBy(t, org) && (st.InsertingUser? || st.InsertingGroup? || st.InsertingPolicy?)
    ensures OwnedBy(Written(t, orgs, ns, st, e), org) <==> StatementFor(st, org) || Written(t, orgs, ns, st, e) == t
  {
    hide ProfileFits, GroupRows;
    var t' := Written(t, orgs, ns, st, e);
    if t' != t {
      assert st.InsertingUser? ==> t'.users[t.nextUser].organizationId == st.row.organizationId;
      assert st.InsertingGroup? ==> t'.groups[t.nextGroup].organizationId == st.organizationId;
      assert st.InsertingPolicy? ==> t'.policies[t.nextPolicy].organizationId == st.organizationId;
    }
  }

  lemma SingleActKeepsOwner(t: Tables, orgs: set<int>, ns: string, act: SingleAct, e: Env, org: int)
    requires OwnedBy(t, org)
    ensures OwnedBy(Perform(t, orgs, ns, act, e).t, org)
  {}

  /** A statement keeps the rows of a schema with one organization exactly when it is for that organization or adds
      nothing. */
  lemma StatementKeepsOwnerExactly(t: Tables, orgs: set<int>, ns: string, st: Statement, e: Env, org: int)
    requires OwnedBy(t, org)
    ensures OwnedBy(Written(t, orgs, ns, st, e), org) <==> StatementFor(st, org) || Written(t, orgs, ns, st, e) == t
  {
    hide Perform;
    if st.Single? {
      SingleActKeepsOwner(t, orgs, ns, st.act, e, org);
    } else if st.InsertingUser? || st.InsertingGroup? || st.InsertingPolicy? {
      InsertsKeepOwnerExactly(t, orgs, ns, st, e, org);
      hide Written;
    } else if WritesUsers(st) {
      UpdatesKeepOwner(t, orgs, ns, st, e, org);
      hide Written;
    } else {
      StatementTouches(t, orgs, ns, st, e);
      hide Written;
    }
  }

  lemma AdvanceKeepsOwner(t: Tables, orgs: set<int>, ns: string, l: Local, e: Env, org: int)
    requires OwnedBy(t, org) && LocalFor(l, org)
    ensures var (t', l') := Advance(t, orgs, ns, l, e); OwnedBy(t', org) && LocalFor(l', org)
  {
    hide OwnedBy, LocalFor, Advance, StatementOf, Written;
    AdvanceStaysFor(t, orgs, ns, l, e, org);
    StatementsFor(l, org);
    AdvanceWrites(t, orgs, ns, l, e);
    StatementKeepsOwnerExactly(t, orgs, ns, StatementOf(l), e, org);
  }

  lemma {:induction false} DriveKeepsOwner(t: Tables, orgs: set<int>, ns: string, l: Local, e: Env, org: int)
    requires OwnedBy(t, org) && LocalFor(l, org)
    ensures OwnedBy(Drive(t, orgs, ns, l, e).t, org)
    decreases Left(l)
  {
    hide OwnedBy, LocalFor, Advance;
    if !l.Finished? {
      AdvanceProgresses(t, orgs, ns, l, e);
      AdvanceKeepsOwner(t, orgs, ns, l, e, org);
      var (t', l') := Advance(t, orgs, ns, l, e);
      DriveKeepsOwner(t', orgs, ns, l', e, org);
    }
  }

  lemma PerformKeepsOwner(t: Tables, orgs: set<int>, ns: string, act: Act, e: Env, org: int)
    requires OwnedBy(t, org) && RowsFor(act, org)
    ensures OwnedBy(Perform(t, orgs, ns, act, e).t, org)
  {
    hide OwnedBy, Perform, Drive, Start, RowsFor, LocalFor;
    StartsFor(ns, act, e, org);
    DriveKeepsOwner(t, orgs, ns, Start(ns, act, e), e, org);
    Granularity.UninterruptedIsAtomic(t, orgs, ns, act, e);
  }

  lemma {:induction false} SeedKeepsOwner(t: Tables, orgs: set<int>, names: seq<string>, org: int, q: Planner)
    requires OwnedBy(t, org)
    ensures OwnedBy(SeedGroups(t, orgs, names, org, q).t, org)
    decreases |names|
  {
    if names != [] {
      var rest := if FindGroupByName(t, names[0], org, q).Some? then t else InsertGroup(t, orgs, names[0], org).t;
      SeedKeepsOwner(rest, orgs, names[1..], org, q);
    }
  }

  // ----- requests in flight

  /** Requests that begin in `ns`, and groups seeded there, are for organization `org`. */
  predicate MoveFor(m: Move, ns: string, org: int) {
    match m
    case Begin(_, ns', act) => ns' == ns ==> RowsFor(act, org)
    case SeedGroup(ns', o, _) => ns' == ns ==> o == org
    case _ => true
  }

  predicate InFlightFor(s: Sys, ns: string, org: int) {
    && OwnedBy(Schema(s.db, ns), org)
    && forall id | id in s.threads && s.threads[id].ns == ns :: LocalFor(s.threads[id].local, org)
  }

  lemma DropKeepsOwner(t: Tables, owner: int, org: int)
    requires OwnedBy(t, owner)
    ensures var r := DropOrganization(t, org); r.Some? ==> OwnedBy(r.value, owner)
  {
    hide AssignedBy, Unlink;
  }

  lemma GroupInsertKeepsOwner(t: Tables, orgs: set<int>, org: int, name: string)
    requires OwnedBy(t, org)
    ensures OwnedBy(InsertGroup(t, orgs, name, org).t, org)
  {
    hide GroupRows;
  }

  lemma GrantKeepsOwner(t: Tables, grant: Granting.Grant, org: int)
    requires OwnedBy(t, org)
    ensures OwnedBy(Granting.Granted(t, grant), org)
  {
    Granting.GrantsTouchAssignments(t, grant);
    hide Granting.Granted;
  }

  lemma FailureIsFor(err: Error, org: int)
    ensures LocalFor(Failure(err), org)
  {}

  lemma SysStepKeepsOwner(s: Sys, m: Move, e: Env, s': Sys, ns: string, org: int)
    requires SysStep(s, m, e, s') && InFlightFor(s, ns, org) && MoveFor(m, ns, org)
    ensures OwnedBy(Schema(s'.db, ns), org)
  {
    hide OwnedBy, LocalFor, RowsFor, SysStep, Advance, InsertGroup, DropOrganization, Granting.Granted;
    StepTouches(s, m, e, s', ns);
    var t := Schema(s.db, ns);
    if ns in s.db.schemas {
      match Touched(s, m, ns) {
        case Untouched =>
        case Ticked(l) => AdvanceKeepsOwner(t, s.db.orgs.Keys, ns, l, e, org);
        case Seeded(_, name) => GroupInsertKeepsOwner(t, s.db.orgs.Keys, org, name);
        case Dropped(o) => DropKeepsOwner(t, org, o);
        case Regranted(grant) => GrantKeepsOwner(t, grant, org);
      }
    }
  }

  lemma SysStepKeepsInFlight(s: Sys, m: Move, e: Env, s': Sys, ns: string, org: int)
    requires SysStep(s, m, e, s') && InFlightFor(s, ns, org) && MoveFor(m, ns, org)
    ensures InFlightFor(s', ns, org)
  {
    hide OwnedBy, LocalFor, RowsFor, SysStep, Advance, Start;
    SysStepKeepsOwner(s, m, e, s', ns, org);
    forall id | id in s'.threads && s'.threads[id].ns == ns ensures LocalFor(s'.threads[id].local, org) {
      ThreadMoves(s, m, e, s', id);
      if id !in s.threads {
        StartsFor(ns, s'.threads[id].act, e, org);
      } else if s'.threads[id].local != s.threads[id].local {
        if ns in s.db.schemas { AdvanceKeepsOwner(Schema(s.db, ns), s.db.orgs.Keys, ns, s.threads[id].local, e, org); }
        else { FailureIsFor(Database, org); }
      }
    }
  }

  /** Binding in flight: however transactions interleave, and whatever organizations are deleted meanwhile, a schema
      holds rows of one organization only, as long as each request that began there names that organization. */
  lemma {:induction false} InterleavingsKeepOwner(r: Interleaved, j: nat, ns: string, org: int)
    requires IsInterleaving(r) && j < |r.states| && InFlightFor(r.states[0], ns, org)
    requires forall k | 0 <= k < j :: MoveFor(r.moves[k], ns, org)
    ensures InFlightFor(r.states[j], ns, org)
  {
    hide InFlightFor, MoveFor, SysStep;
    if j > 0 {
      InterleavingsKeepOwner(r, j - 1, ns, org);
      assert SysStep(r.states[j - 1], r.moves[j - 1], r.envs[j - 1], r.states[j - 1 + 1]);
      SysStepKeepsInFlight(r.states[j - 1], r.moves[j - 1], r.envs[j - 1], r.states[j], ns, org);
    }
  }

  // ----- whole requests

  predicate NamesOneOrganization(orgs: map<int, Organization>) {
    && (forall o | o in orgs :: orgs[o].organizationId == o)
    && (forall o, p | o in orgs && p in orgs && o != p :: orgs[o].namespace != orgs[p].namespace)
    && C.DEFAULT_ORGANIZATION_ID in orgs && orgs[C.DEFAULT_ORGANIZATION_ID].namespace == C.DEFAULT_NAMESPACE
  }

  lemma RegistrationsNameTheOwner(orgs: map<int, Organization>, ns: string, requested: Option<int>, q: Planner,
                                  org: int)
    requires NamesOneOrganization(orgs)
    requires org in orgs && orgs[org].namespace == ns
    ensures RegistrationOrganization(orgs, ns, requested, q) in {Ok(org), Err(OrganizationMismatch)}
  {
    assert org in NamespaceRows(orgs, ns);
    forall o | o in NamespaceRows(orgs, ns) ensures o == org {}
  }

  lemma CallsNameTheOwner(d: Db, u: AuthenticatedUser, call: Call, ns: string, act: Act, org: int)
    requires NamesOneOrganization(d.orgs)
    requires PlanCall(d, u, call) == InSchema(ns, act)
    requires org in d.orgs && d.orgs[org].namespace == ns
    ensures RowsFor(act, org)
  {}

  /** A request that adds rows to a schema adds them for the organization of that schema. */
  lemma PlansNameTheOwner(w: World, r: Request, e: Env, ns: string, act: Act, org: int)
    requires NamesOneOrganization(w.db.orgs)
    requires PlanOf(w, r, e) == InSchema(ns, act)
    requires org in w.db.orgs && w.db.orgs[org].namespace == ns
    ensures RowsFor(act, org)
  {
    hide PlanCall, RegistrationOrganization, NamesOneOrganization, FromClaims, Accepts;
    match r {
      case Register(_, requested, _, _, _, _) => RegistrationsNameTheOwner(w.db.orgs, ns, requested, e.planner, org);
      case Bearer(token, call) => CallsNameTheOwner(w.db, FromClaims(token), call, ns, act, org);
      case _ =>
    }
  }

  predicate Deletes(r: Request) { r.Bearer? && r.call.DeleteOrganization? }

  lemma StepKeepsBound(w: World, ev: Event, w': World, a: Answer)
    requires DbOk(w.db) && Bound(w.db) && Step(w, ev, w', a) && !Deletes(ev.request)
    ensures Bound(w'.db)
  {
    hide Valid, OwnedBy, PlanOf, Perform, CreateOrg;
    var d := w.db;
    match PlanOf(w, ev.request, ev.env) {
      case Refuse(_) =>
      case InSchema(ns, act) =>
        if ns in d.schemas {
          var org :| org in d.orgs && d.orgs[org].namespace == ns && OwnedBy(d.schemas[ns], org);
          PlansNameTheOwner(w, ev.request, ev.env, ns, act, org);
          PerformKeepsOwner(d.schemas[ns], d.orgs.Keys, ns, act, ev.env, org);
          BoundExtends(d, w'.db);
        }
      case OnOrganizations(OrgCreate(name, ns)) => CreateOrgKeepsBound(d, name, ns, ev.env);
      case OnOrganizations(OrgDelete(_)) => DeletionsAreRequested(w, ev.request, ev.env);
      case OnOrganizations(_) => BoundExtends(d, w'.db);
    }
  }

  lemma DeletionsAreRequested(w: World, r: Request, e: Env)
    requires !Deletes(r)
    ensures !(PlanOf(w, r, e).OnOrganizations? && PlanOf(w, r, e).orgAct.OrgDelete?)
  {}

  lemma EmptyIsOwned(org: int)
    ensures OwnedBy(Empty(false), org)
  {}

  lemma CreateOrgKeepsBound(d: Db, name: string, ns: string, e: Env)
    requires DbOk(d) && Bound(d)
    ensures Bound(CreateOrg(d, name, ns, e).db)
  {
    hide Valid, OwnedBy, Bound, SeedGroups;
    var x := InsertOrganization(d, name, ns, e.key);
    if x.out.Ok? {
      EmptyIsOwned(d.nextOrg);
      SeedKeepsOwner(Empty(false), x.db.orgs.Keys, DEFAULT_GROUPS, d.nextOrg, e.planner);
    }
    BoundExtends(d, CreateOrg(d, name, ns, e).db);
  }

  /** Binding survives when no organization goes and every schema is an old one or has an owner of its own. */
  lemma BoundExtends(d: Db, d': Db)
    requires Bound(d)
    requires forall o | o in d.orgs :: o in d'.orgs && d'.orgs[o].namespace == d.orgs[o].namespace
    requires forall ns | ns in d'.schemas :: (ns in d.schemas && d'.schemas[ns] == d.schemas[ns])
                                             || exists o | o in d'.orgs ::
                                                  d'.orgs[o].namespace == ns && OwnedBy(d'.schemas[ns], o)
    ensures Bound(d')
  {}

  /** Binding: as long as no organization is deleted, all rows of a schema carry the id of its one organization. */
  lemma {:induction false} RunKeepsBound(tr: Trace, j: nat)
    requires IsRun(tr) && j < |tr.worlds|
    requires DbOk(tr.worlds[0].db) && Bound(tr.worlds[0].db)
    requires forall k | 0 <= k < j :: !Deletes(tr.events[k].request)
    ensures Bound(tr.worlds[j].db)
  {
    hide DbOk, Bound, Apply;
    if j > 0 {
      RunKeepsBound(tr, j - 1);
      RunKeepsDbOk(tr, j - 1);
      assert Step(tr.worlds[j - 1], tr.events[j - 1], tr.worlds[j - 1 + 1], tr.answers[j - 1]);
      StepKeepsBound(tr.worlds[j - 1], tr.events[j - 1], tr.worlds[j], tr.answers[j - 1]);
    }
  }

  /** So every membership joins a user and a group of one organization, the one whose namespace the schema is. */
  lemma MembershipsStayInside(tr: Trace, j: nat, ns: string, userId: int, groupId: int)
    requires IsRun(tr) && j < |tr.worlds|
    requires DbOk(tr.worlds[0].db) && Bound(tr.worlds[0].db)
    requires forall k | 0 <= k < j :: !Deletes(tr.events[k].request)
    requires var d := tr.worlds[j].db; ns in d.schemas && (userId, groupId) in d.schemas[ns].members
    ensures var d := tr.worlds[j].db; var t := d.schemas[ns];
            && userId in t.users && groupId in t.groups
            && t.users[userId].organizationId == t.groups[groupId].organizationId
            && t.users[userId].organizationId in d.orgs && d.orgs[t.users[userId].organizationId].namespace == ns
  {
    RunKeepsBound(tr, j);
    RunKeepsDbOk(tr, j);
  }

  /** The first deletion from a bound database is refused exactly when a global setting names the organization;
      otherwise it empties the organization's own schema and leaves the others alone. */
  lemma FirstDeletionCascades(d: Db, org: int)
    requires DbOk(d) && Bound(d) && org in d.orgs
    ensures var x := Organizations.DeleteOrganization(d, org);
            var home := d.orgs[org].namespace;
            if org in d.settings then x == Ran(d, Err(Database))
            else
              && x.out == Ok(())
              && x.db.orgs == d.orgs - {org} && x.db.schemas.Keys == d.schemas.Keys
              && x.db.schemas[home] == Emptied(d.schemas[home])
              && forall ns | ns in d.schemas && ns != home :: x.db.schemas[ns] == d.schemas[ns]
  {
    hide Valid, OwnedBy, DropOrganization;
    forall ns | ns in d.schemas
      ensures DropOrganization(d.schemas[ns], org) ==
              Some(if ns == d.orgs[org].namespace then Emptied(d.schemas[ns]) else d.schemas[ns])
    {
      var o :| o in d.orgs && d.orgs[o].namespace == ns && OwnedBy(d.schemas[ns], o);
      if o == org { DropOwn(d.schemas[ns], org); } else { DropForeign(d.schemas[ns], o, org); }
    }
  }
}
