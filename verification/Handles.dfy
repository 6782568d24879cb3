/** Group ids in the hands of requests: what other requests can do to the groups behind them meanwhile. */
module Handles {
  import opened Wrappers
  import opened Text
  import opened Environment
  import opened Tables
  import opened Organizations
  import opened Requests
  import opened Steps
  import opened Interleaving
  import C = Constants
  import Granting

  // ----- groups age

  predicate GroupsNumbered(t: Tables) { forall g | g in t.groups :: t.groups[g].groupId == g < t.nextGroup }

  /** Group names are immutable and ids are not reused: a group row is an old one under its old name, or has a new
      id. */
  predicate Ages(t: Tables, t': Tables) {
    && t.nextGroup <= t'.nextGroup
    && forall g | g in t'.groups ::
         && t'.groups[g].groupId == g < t'.nextGroup
         && (g < t.nextGroup ==> g in t.groups && t'.groups[g].name == t.groups[g].name)
  }

  lemma AgingNumbers(t: Tables, t': Tables)
    requires Ages(t, t')
    ensures GroupsNumbered(t')
  {}

  lemma EmptyIsNumbered()
    ensures GroupsNumbered(Empty(false))
  {}

  lemma FewerGroupsAge(t: Tables, t': Tables)
    requires GroupsNumbered(t) && t'.nextGroup == t.nextGroup
    requires forall g | g in t'.groups :: g in t.groups && t'.groups[g] == t.groups[g]
    ensures Ages(t, t')
  {}

  lemma InsertGroupAges(t: Tables, orgs: set<int>, name: string, org: int)
    requires GroupsNumbered(t)
    ensures Ages(t, InsertGroup(t, orgs, name, org).t)
  {
    hide GroupRows;
  }

  lemma SingleActKeepsGroups(t: Tables, orgs: set<int>, ns: string, act: SingleAct, e: Env)
    ensures var t' := Perform(t, orgs, ns, act, e).t;
            t'.nextGroup == t.nextGroup && forall g | g in t'.groups :: g in t.groups && t'.groups[g] == t.groups[g]
  {
    hide AssignedBy, Unlink;
  }

  lemma OthersKeepGroups(t: Tables, orgs: set<int>, ns: string, st: Statement, e: Env)
    requires !st.InsertingGroup?
    ensures var t' := Written(t, orgs, ns, st, e);
            t'.nextGroup == t.nextGroup && forall g | g in t'.groups :: g in t.groups && t'.groups[g] == t.groups[g]
  {
    hide Written, Perform;
    if st.Single? {
      SingleIsPerformed(t, orgs, ns, st.act, e);
      SingleActKeepsGroups(t, orgs, ns, st.act, e);
    } else {
      StatementTouches(t, orgs, ns, st, e);
    }
  }

  lemma GroupStatementAges(t: Tables, orgs: set<int>, ns: string, st: Statement, e: Env)
    requires GroupsNumbered(t) && st.InsertingGroup?
    ensures Ages(t, Written(t, orgs, ns, st, e))
  {
    InsertGroupAges(t, orgs, st.name, st.organizationId);
    hide Ages, GroupsNumbered, InsertGroup;
  }

  lemma StatementAges(t: Tables, orgs: set<int>, ns: string, st: Statement, e: Env)
    requires GroupsNumbered(t)
    ensures Ages(t, Written(t, orgs, ns, st, e))
  {
    hide Ages, GroupsNumbered, Written;
    if st.InsertingGroup? {
      GroupStatementAges(t, orgs, ns, st, e);
    } else {
      OthersKeepGroups(t, orgs, ns, st, e);
      FewerGroupsAge(t, Written(t, orgs, ns, st, e));
    }
  }

  /** No transaction renames a group or reuses an id. */
  lemma AdvanceAges(t: Tables, orgs: set<int>, ns: string, l: Local, e: Env)
    requires GroupsNumbered(t)
    ensures Ages(t, Advance(t, orgs, ns, l, e).0)
  {
    hide Ages, GroupsNumbered, Advance, Written, StatementOf;
    AdvanceWrites(t, orgs, ns, l, e);
    StatementAges(t, orgs, ns, StatementOf(l), e);
  }

  lemma TouchAges(t: Tables, orgs: set<int>, ns: string, touch: Touch, e: Env)
    requires GroupsNumbered(t)
    ensures Ages(t, After(t, orgs, ns, touch, e))
  {
    hide Ages, GroupsNumbered, Advance, InsertGroup, AssignedBy, Unlink, Granting.Granted;
    FewerGroupsAge(t, t);
    match touch {
      case Untouched =>
      case Ticked(l) => AdvanceAges(t, orgs, ns, l, e);
      case Seeded(org, name) => InsertGroupAges(t, orgs, name, org);
      case Dropped(org) => FewerGroupsAge(t, After(t, orgs, ns, touch, e));
      case Regranted(grant) =>
        Granting.GrantsTouchAssignments(t, grant);
        FewerGroupsAge(t, Granting.Granted(t, grant));
    }
  }

  /** Nor does any other step. */
  lemma StepAges(s: Sys, m: Move, e: Env, s': Sys, ns: string)
    requires SysStep(s, m, e, s') && GroupsNumbered(Schema(s.db, ns))
    ensures Ages(Schema(s.db, ns), Schema(s'.db, ns))
  {
    hide Ages, GroupsNumbered, SysStep, After;
    StepTouches(s, m, e, s', ns);
    FewerGroupsAge(Schema(s.db, ns), Schema(s.db, ns));
    TouchAges(Schema(s.db, ns), s.db.orgs.Keys, ns, Touched(s, m, ns), e);
  }

  // ----- memberships come from one statement

  predicate Joins(st: Statement, k: (int, int)) { st.InsertingMember? && k == (st.userId, st.groupId) }

  lemma SingleActJoins(t: Tables, orgs: set<int>, ns: string, act: SingleAct, e: Env)
    ensures Perform(t, orgs, ns, act, e).t.members.Keys <= t.members.Keys
  {
    hide AssignedBy;
  }

  lemma MemberStatementJoins(t: Tables, orgs: set<int>, ns: string, st: Statement, e: Env)
    requires st.InsertingMember?
    ensures Written(t, orgs, ns, st, e).members.Keys <= t.members.Keys + {(st.userId, st.groupId)}
  {}

  lemma StatementJoins(t: Tables, orgs: set<int>, ns: string, st: Statement, e: Env, k: (int, int))
    requires k in Written(t, orgs, ns, st, e).members
    ensures k in t.members || Joins(st, k)
  {
    hide Written, Perform;
    if st.Single? {
      SingleIsPerformed(t, orgs, ns, st.act, e);
      SingleActJoins(t, orgs, ns, st.act, e);
    } else if st.InsertingMember? {
      MemberStatementJoins(t, orgs, ns, st, e);
    } else {
      StatementTouches(t, orgs, ns, st, e);
    }
  }

  /** A membership is in the table because it was, or because the step has just inserted it. */
  lemma StepJoins(s: Sys, m: Move, e: Env, s': Sys, ns: string, k: (int, int))
    requires SysStep(s, m, e, s') && k in Schema(s'.db, ns).members
    ensures k in Schema(s.db, ns).members || (Touched(s, m, ns).Ticked? && Joins(StatementOf(Touched(s, m, ns).l), k))
  {
    hide SysStep, Advance, Written, StatementOf, Joins, InsertGroup, Granting.Granted, AssignedBy;
    StepTouches(s, m, e, s', ns);
    var t, orgs := Schema(s.db, ns), s.db.orgs.Keys;
    if Schema(s'.db, ns) != t {
      match Touched(s, m, ns) {
        case Ticked(l) =>
          AdvanceWrites(t, orgs, ns, l, e);
          StatementJoins(t, orgs, ns, StatementOf(l), e, k);
        case Seeded(org, name) => InsertGroupKeepsMembers(t, orgs, name, org);
        case Regranted(grant) => Granting.GrantsTouchAssignments(t, grant);
        case _ =>
      }
    }
  }

  lemma InsertGroupKeepsMembers(t: Tables, orgs: set<int>, name: string, org: int)
    ensures InsertGroup(t, orgs, name, org).t.members == t.members
  {
    hide GroupRows;
  }

  // ----- ids checked once

  /** The names a check keeps out: the look-alikes of `superadmin`, or those of `admin` as well. */
  datatype Level = Superadmin | Privileged

  predicate Guarded(level: Level, name: string) {
    if level.Superadmin? then C.IsSuperadminName(name) else C.IsPrivilegedGroup(name)
  }

  /** The id is taken, and not by a group of a guarded name. */
  predicate Harmless(level: Level, t: Tables, g: int) {
    g < t.nextGroup && (g in t.groups ==> !Guarded(level, t.groups[g].name))
  }

  predicate AllHarmless(level: Level, t: Tables, ids: seq<int>) {
    forall i | 0 <= i < |ids| :: Harmless(level, t, ids[i])
  }

  predicate NoneGuarded(level: Level, names: seq<string>) { forall i | 0 <= i < |names| :: !Guarded(level, names[i]) }

  /** What a request knows while it waits: no guarded name, and no id of a guarded group. */
  predicate CleanLocal(level: Level, t: Tables, l: Local) {
    match l
    case SeekGroup(_, _, _, wanted, found) => NoneGuarded(level, wanted) && AllHarmless(level, t, found)
    case AddGroup(_, _, _, wanted, found) => NoneGuarded(level, wanted) && AllHarmless(level, t, found)
    case AddUser(_, _, _, ids) => AllHarmless(level, t, ids)
    case AddMember(_, _, _, ids) => AllHarmless(level, t, ids)
    case AddJoin(_, g, _) => Harmless(level, t, g)
    case _ => true
  }

  lemma HarmlessStays(level: Level, t: Tables, t': Tables, g: int)
    requires Ages(t, t') && Harmless(level, t, g)
    ensures Harmless(level, t', g)
  {}

  /** An id checked once stays harmless while other requests run. */
  lemma CleanLocalStays(level: Level, t: Tables, t': Tables, l: Local)
    requires Ages(t, t') && CleanLocal(level, t, l)
    ensures CleanLocal(level, t', l)
  {}

  /** Memberships are only ever inserted for ids a request has checked. */
  lemma JoinedIdsAreHarmless(level: Level, t: Tables, l: Local)
    requires CleanLocal(level, t, l)
    ensures StatementOf(l).InsertingMember? ==> Harmless(level, t, StatementOf(l).groupId)
  {
    hide Harmless, Trim;
  }

  lemma GuardIgnoresPadding(level: Level, name: string)
    ensures Guarded(level, Trim(name)) == Guarded(level, name)
  {
    C.PrivilegeIgnoresPadding(name);
    hide C.IsSuperadminName, C.IsPrivilegedGroup;
  }

  lemma FoundGroupIsHarmless(level: Level, t: Tables, name: string, org: int, q: Planner)
    requires GroupsNumbered(t) && !Guarded(level, name)
    ensures FindGroupByName(t, name, org, q).Some? ==>
              Harmless(level, t, FindGroupByName(t, name, org, q).value.groupId)
  {
    hide Guarded;
  }

  lemma InsertedGroupIsHarmless(level: Level, t: Tables, orgs: set<int>, name: string, org: int)
    requires !Guarded(level, name)
    ensures var x := InsertGroup(t, orgs, name, org); x.out.Ok? ==> Harmless(level, x.t, x.out.value.groupId)
  {
    hide Guarded, GroupRows;
  }

  predicate IsLooping(l: Local) { l.SeekGroup? || l.AddGroup? || l.AddUser? || l.AddMember? }

  /** Each turn of the resolving and assigning loops carries harmless ids on. */
  lemma LoopsStayClean(level: Level, t: Tables, orgs: set<int>, ns: string, l: Local, e: Env)
    requires GroupsNumbered(t) && CleanLocal(level, t, l) && IsLooping(l)
    ensures var (t', l') := Advance(t, orgs, ns, l, e); CleanLocal(level, t', l') && (l'.Finished? ==> l'.out.Err?)
  {
    hide GroupsNumbered, Ages, Harmless, Guarded, InsertGroup, AssignUserToGroup, InsertUser, FindGroupByName, Trim;
    AdvanceAges(t, orgs, ns, l, e);
    var t' := Advance(t, orgs, ns, l, e).0;
    forall g | Harmless(level, t, g) ensures Harmless(level, t', g) { HarmlessStays(level, t, t', g); }
    match l {
      case SeekGroup(form, _, _, wanted, _) =>
        if wanted != [] {
          GuardIgnoresPadding(level, wanted[0]);
          FoundGroupIsHarmless(level, t, Trim(wanted[0]), form.organizationId, e.planner);
        }
      case AddGroup(form, _, _, wanted, _) =>
        if wanted != [] {
          GuardIgnoresPadding(level, wanted[0]);
          InsertedGroupIsHarmless(level, t, orgs, Trim(wanted[0]), form.organizationId);
        }
      case _ =>
    }
  }
}
