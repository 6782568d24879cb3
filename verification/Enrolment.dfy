/** What creating a user does to the groups of its schema, and what the caller is told. */
module Enrolment {
  import opened Wrappers
  import opened Text
  import opened Environment
  import opened Tables
  import opened Constraints
  import C = Constants
  import Accounts
  import Staleness

  /** `g` is the group of organization `org` with this name. */
  predicate Names(t: Tables, g: int, name: string, org: int) {
    g in t.groups && t.groups[g].name == name && t.groups[g].organizationId == org
  }

  predicate IsDefaultName(name: string) { name == C.USERS_GROUP || name == C.ADMIN_GROUP }

  /** `t'` is `t` with nothing but new default groups of organization `org`. */
  predicate OnlyDefaultsAdded(t: Tables, t': Tables, org: int) {
    && t' == t.(groups := t'.groups, nextGroup := t'.nextGroup)
    && (forall g | g in t.groups :: g in t'.groups && t'.groups[g] == t.groups[g])
    && (forall g | g in t'.groups && g !in t.groups ::
          IsDefaultName(t'.groups[g].name) && t'.groups[g].organizationId == org)
  }

  predicate NamesAll(t: Tables, ids: seq<int>, groups: seq<string>, org: int) {
    |ids| == |groups| && forall i | 0 <= i < |ids| :: Names(t, ids[i], Trim(groups[i]), org)
  }

  lemma FoundByName(t: Tables, name: string, org: int, q: Planner)
    requires GroupsOk(t)
    ensures var g := FindGroupByName(t, name, org, q);
            if g.Some? then Names(t, g.value.groupId, name, org) else forall h :: !Names(t, h, name, org)
  {
    assert forall h :: h in GroupRows(t, name, org) <==> Names(t, h, name, org);
  }

  lemma AddingDefaultGroup(t: Tables, orgs: set<int>, name: string, org: int)
    requires Valid(t) && IsDefaultName(name)
    ensures var x := InsertGroup(t, orgs, name, org);
            Valid(x.t) && OnlyDefaultsAdded(t, x.t, org) && (x.out.Ok? ==> Names(x.t, x.out.value.groupId, name, org))
  {
    InsertGroupKeeps(t, orgs, name, org);
    assert t.nextGroup !in t.groups;
    hide Valid, GroupRows;
  }

  lemma ResolveOneNames(t: Tables, orgs: set<int>, group: string, org: int, q: Planner)
    requires Valid(t)
    ensures var x := Accounts.ResolveOne(t, orgs, group, org, q);
            Valid(x.t) && OnlyDefaultsAdded(t, x.t, org) && (x.out.Ok? ==> Names(x.t, x.out.value, Trim(group), org))
  {
    hide Valid, OnlyDefaultsAdded, Names, InsertGroup, FindGroupByName, Trim;
    GroupsAreOk(t);
    FoundByName(t, Trim(group), org, q);
    NothingAdded(t, org);
    if IsDefaultName(Trim(group)) { AddingDefaultGroup(t, orgs, Trim(group), org); }
  }

  lemma GroupsAreOk(t: Tables)
    requires Valid(t)
    ensures GroupsOk(t)
  {}

  lemma NamesStay(t: Tables, t': Tables, g: int, name: string, org: int, o: int)
    requires OnlyDefaultsAdded(t, t', o) && Names(t, g, name, org)
    ensures Names(t', g, name, org)
  {}

  lemma AdditionsCompose(t: Tables, t': Tables, t'': Tables, org: int)
    requires OnlyDefaultsAdded(t, t', org) && OnlyDefaultsAdded(t', t'', org)
    ensures OnlyDefaultsAdded(t, t'', org)
  {}

  /** The loop: every id names its group, existing rows stay as they are, and only `users` and `admin` are ever
      inserted, also when the loop stops at an unknown name. */
  lemma {:induction false} ResolveNamesAll(t: Tables, orgs: set<int>, groups: seq<string>, org: int, q: Planner)
    requires Valid(t)
    ensures var x := Accounts.ResolveAll(t, orgs, groups, org, q);
            Valid(x.t) && OnlyDefaultsAdded(t, x.t, org) && (x.out.Ok? ==> NamesAll(x.t, x.out.value, groups, org))
    decreases |groups|
  {
    hide Valid, OnlyDefaultsAdded, Names, Accounts.ResolveOne, Trim;
    if groups == [] {
      NothingAdded(t, org);
    } else {
      ResolveOneNames(t, orgs, groups[0], org, q);
      var one := Accounts.ResolveOne(t, orgs, groups[0], org, q);
      if one.out.Ok? {
        ResolveNamesAll(one.t, orgs, groups[1..], org, q);
        var rest := Accounts.ResolveAll(one.t, orgs, groups[1..], org, q);
        AdditionsCompose(t, one.t, rest.t, org);
        NamesStay(one.t, rest.t, one.out.value, Trim(groups[0]), org, org);
      }
    }
  }

  lemma NothingAdded(t: Tables, org: int)
    ensures OnlyDefaultsAdded(t, t, org)
  {}

  lemma FindNamed(t: Tables, g: int, name: string, org: int, q: Planner)
    requires Valid(t) && Names(t, g, name, org)
    ensures FindGroupByName(t, name, org, q).Some? && FindGroupByName(t, name, org, q).value.groupId == g
  {
    FoundByName(t, name, org, q);
  }

  /** Resolving again, however rows are picked, finds the same ids and changes nothing. */
  lemma {:induction false} ResolveIsIdempotent(t: Tables, orgs: set<int>, groups: seq<string>, org: int, ids: seq<int>,
                                               q: Planner)
    requires Valid(t) && NamesAll(t, ids, groups, org)
    ensures Accounts.ResolveAll(t, orgs, groups, org, q) == Tx(t, Ok(ids))
    decreases |groups|
  {
    hide Valid, Names, Trim, FindGroupByName;
    if groups != [] {
      FindNamed(t, ids[0], Trim(groups[0]), org, q);
      ResolveIsIdempotent(t, orgs, groups[1..], org, ids[1..], q);
      assert ids == [ids[0]] + ids[1..];
    }
  }

  /** `resolve_group_ids` as a whole: what a success returns and leaves, and that repeating it is without effect. */
  lemma ResolvedGroups(t: Tables, orgs: set<int>, ns: string, groups: seq<string>, org: int, q: Planner, again: Planner)
    requires Valid(t)
    ensures var x := Accounts.ResolveGroupIds(t, orgs, ns, groups, org, q);
            && Valid(x.t) && OnlyDefaultsAdded(t, x.t, org)
            && (x.out.Ok? ==> NamesAll(x.t, x.out.value, Accounts.OrUsers(groups), org))
            && (x.out.Ok? ==> Accounts.ResolveGroupIds(x.t, orgs, ns, groups, org, again) == x)
  {
    hide Valid, OnlyDefaultsAdded, NamesAll, Accounts.ReservedIn, Accounts.ResolveAll;
    NothingAdded(t, org);
    ResolveNamesAll(t, orgs, Accounts.OrUsers(groups), org, q);
    var x := Accounts.ResolveAll(t, orgs, Accounts.OrUsers(groups), org, q);
    if x.out.Ok? { ResolveIsIdempotent(x.t, orgs, Accounts.OrUsers(groups), org, x.out.value, again); }
  }

  /** A name the loop can turn into an id: a group of the organization has it, or it is a default name and the
      organization exists. */
  ghost predicate Known(t: Tables, orgs: set<int>, name: string, org: int) {
    (IsDefaultName(name) && org in orgs) || exists g :: Names(t, g, name, org)
  }

  ghost predicate AllKnown(t: Tables, orgs: set<int>, groups: seq<string>, org: int) {
    forall i | 0 <= i < |groups| :: Known(t, orgs, Trim(groups[i]), org)
  }

  /** With room for two more groups, the loop succeeds exactly when every trimmed name is known. */
  lemma {:induction false} ResolveSucceedsExactly(t: Tables, orgs: set<int>, groups: seq<string>, org: int, q: Planner)
    requires Valid(t) && Room(t, org) <= C.MAX_I64 + 1
    ensures Accounts.ResolveAll(t, orgs, groups, org, q).out.Ok? <==> AllKnown(t, orgs, groups, org)
    decreases |groups|
  {
    hide Valid, Trim, Accounts.ResolveOne, Known;
    if groups != [] {
      var x := Accounts.ResolveOne(t, orgs, groups[0], org, q);
      ResolveOneSucceeds(t, orgs, groups[0], org, q);
      ResolveOneNames(t, orgs, groups[0], org, q);
      if x.out.Ok? {
        ResolveSucceedsExactly(x.t, orgs, groups[1..], org, q);
        AllKnownStays(t, x.t, orgs, groups[1..], org);
        assert groups == [groups[0]] + groups[1..];
      }
    }
  }

  lemma AllKnownStays(t: Tables, t': Tables, orgs: set<int>, groups: seq<string>, org: int)
    requires OnlyDefaultsAdded(t, t', org) && (t' == t || org in orgs)
    ensures AllKnown(t', orgs, groups, org) == AllKnown(t, orgs, groups, org)
  {
    hide Known;
    forall i | 0 <= i < |groups| ensures Known(t', orgs, Trim(groups[i]), org) == Known(t, orgs, Trim(groups[i]), org) {
      KnownStays(t, t', orgs, Trim(groups[i]), org);
    }
  }

  /** The next serial id once the missing default groups are there. */
  function Room(t: Tables, org: int): int {
    t.nextGroup + (if GroupRows(t, C.USERS_GROUP, org) == {} then 1 else 0)
      + (if GroupRows(t, C.ADMIN_GROUP, org) == {} then 1 else 0)
  }

  lemma ResolveOneSucceeds(t: Tables, orgs: set<int>, group: string, org: int, q: Planner)
    requires Valid(t) && Room(t, org) <= C.MAX_I64 + 1
    ensures var x := Accounts.ResolveOne(t, orgs, group, org, q);
            && (x.out.Ok? <==> Known(t, orgs, Trim(group), org))
            && Room(x.t, org) <= C.MAX_I64 + 1 && (x.t == t || org in orgs)
  {
    assert t.nextGroup !in t.groups;
    hide Trim, Valid, Room;
    var name := Trim(group);
    assert forall h :: h in GroupRows(t, name, org) <==> Names(t, h, name, org);
    hide GroupRows;
    if IsDefaultName(name) && GroupRows(t, name, org) == {} && org in orgs { AddingTakesRoom(t, orgs, name, org); }
  }

  lemma AddingTakesRoom(t: Tables, orgs: set<int>, name: string, org: int)
    requires IsDefaultName(name) && GroupRows(t, name, org) == {} && org in orgs && t.nextGroup !in t.groups
    requires Room(t, org) <= C.MAX_I64 + 1
    ensures InsertGroup(t, orgs, name, org).out.Ok? && Room(InsertGroup(t, orgs, name, org).t, org) <= Room(t, org)
  {
    var t' := InsertGroup(t, orgs, name, org).t;
    assert t.nextGroup in GroupRows(t', name, org);
    OthersStay(t, t', C.USERS_GROUP, org);
    OthersStay(t, t', C.ADMIN_GROUP, org);
    hide GroupRows;
  }

  lemma OthersStay(t: Tables, t': Tables, name: string, org: int)
    requires forall g | g in t.groups :: g in t'.groups && t'.groups[g] == t.groups[g]
    ensures GroupRows(t', name, org) == {} ==> GroupRows(t, name, org) == {}
  {
    assert forall g | g in GroupRows(t, name, org) :: g in GroupRows(t', name, org);
  }

  lemma KnownStays(t: Tables, t': Tables, orgs: set<int>, name: string, org: int)
    requires OnlyDefaultsAdded(t, t', org) && (t' == t || org in orgs)
    ensures Known(t', orgs, name, org) == Known(t, orgs, name, org)
  {
    if g :| Names(t, g, name, org) { NamesStay(t, t', g, name, org, org); }
    if g :| Names(t', g, name, org) { assert g in t.groups ==> Names(t, g, name, org); }
  }

  // ----- the user that joins

  function Wanted(groups: seq<string>): set<string> {
    set i | 0 <= i < |Accounts.OrUsers(groups)| :: Trim(Accounts.OrUsers(groups)[i])
  }

  lemma AssigningOneJoins(t: Tables, userId: int, id: int, assignedBy: Option<int>)
    ensures var x := AssignUserToGroup(t, userId, id, assignedBy);
            && x.t == t.(members := x.t.members)
            && (forall k | k in t.members :: k in x.t.members)
            && (forall k | k in x.t.members :: k in t.members || k == (userId, id))
            && (x.out.Ok? ==> (userId, id) in x.t.members)
  {}

  lemma {:induction false} AssigningJoins(t: Tables, userId: int, ids: seq<int>, assignedBy: Option<int>)
    ensures var x := Accounts.AssignAll(t, userId, ids, assignedBy);
            && x.t == t.(members := x.t.members)
            && (forall k | k in t.members :: k in x.t.members)
            && (forall k | k in x.t.members :: k in t.members || (k.0 == userId && k.1 in ids))
            && (x.out.Ok? ==> forall i | 0 <= i < |ids| :: (userId, ids[i]) in x.t.members)
    decreases |ids|
  {
    if ids != [] {
      var x := AssignUserToGroup(t, userId, ids[0], assignedBy);
      AssigningOneJoins(t, userId, ids[0], assignedBy);
      hide AssignUserToGroup;
      AssigningJoins(x.t, userId, ids[1..], assignedBy);
      assert ids == [ids[0]] + ids[1..];
    }
  }

  /** What `create_user` leaves, whether it succeeds or stops on the way: at most one new row, under the next serial id,
      at most the default groups inserted, and no membership but the new user's in groups it asked for. */
  predicate Joined(t: Tables, t': Tables, groups: seq<string>) {
    && (t'.users == t.users || (t.nextUser in t'.users && t'.users - {t.nextUser} == t.users))
    && (forall g | g in t.groups :: g in t'.groups && t'.groups[g] == t.groups[g])
    && (forall k | k in t.members :: k in t'.members)
    && (forall k | k in t'.members && k !in t.members ::
          k.0 == t.nextUser && k.1 in t'.groups && t'.groups[k.1].name in Wanted(groups))
  }

  lemma InsertingAdds(t: Tables, orgs: set<int>, n: NewUser)
    requires Valid(t)
    ensures var x := InsertUser(t, orgs, n);
            && x.t == t.(users := x.t.users, nextUser := x.t.nextUser)
            && (x.out.Ok? ==>
                x.out.value.userId == t.nextUser && t.nextUser in x.t.users && x.t.users - {t.nextUser} == t.users)
            && (x.out.Err? ==> x.t == t)
  {
    hide ProfileFits;
  }

  lemma CreateUserJoins(t: Tables, orgs: set<int>, ns: string, f: Accounts.UserForm, adminId: Option<int>, q: Planner)
    requires Valid(t)
    ensures Joined(t, Accounts.CreateUser(t, orgs, ns, f, adminId, q).t, f.groups)
  {
    hide Valid, InsertUser, Accounts.ResolveAll, Accounts.Respond, Accounts.ReservedIn, NamesAll, Wanted,
      Accounts.AssignAll, EmailRows, UsernameRows;
    var x := Accounts.ResolveGroupIds(t, orgs, ns, f.groups, f.organizationId, q);
    ResolvedGroups(t, orgs, ns, f.groups, f.organizationId, q, q);
    if x.out.Ok? {
      var n := NewUser(f.organizationId, f.email, f.username, Argon2(f.password), f.firstLogin);
      InsertingAdds(x.t, orgs, n);
      var y := InsertUser(x.t, orgs, n);
      if y.out.Ok? {
        AssigningJoins(y.t, y.out.value.userId, x.out.value, adminId);
        NamesAllFrame(x.t, y.t, x.out.value, Accounts.OrUsers(f.groups), f.organizationId);
        ResolvedNamesAreWanted(y.t, x.out.value, f.groups, f.organizationId);
        var z := Accounts.AssignAll(y.t, y.out.value.userId, x.out.value, adminId);
        assert Joined(t, z.t, f.groups);
      }
    }
  }

  lemma {:induction false} AssigningSucceedsExactly(t: Tables, userId: int, ids: seq<int>, assignedBy: Option<int>)
    requires userId in t.users && forall i | 0 <= i < |ids| :: ids[i] in t.groups
    requires assignedBy.Some? && assignedBy.value !in t.users ==> forall k | k in t.members :: k.0 != userId
    ensures Accounts.AssignAll(t, userId, ids, assignedBy).out.Ok? <==>
            ids == [] || (assignedBy.Some? ==> assignedBy.value in t.users)
    decreases |ids|
  {
    if ids != [] {
      var x := AssignUserToGroup(t, userId, ids[0], assignedBy);
      if assignedBy.Some? && assignedBy.value !in t.users {
        assert (userId, ids[0]) !in t.members by { assert forall k | k in t.members :: k.0 != userId; }
      } else {
        AssigningSucceedsExactly(x.t, userId, ids[1..], assignedBy);
      }
    }
  }

  /** What the two lookups, the columns and the references demand of a new row. */
  predicate RowFits(t: Tables, orgs: set<int>, f: Accounts.UserForm) {
    && EmailRows(t, f.email) == {} && UsernameRows(t, f.username) == {}
    && |f.email| <= 255 && |f.username| <= 50 && f.organizationId in orgs
  }

  lemma FittingRowIsInserted(t: Tables, orgs: set<int>, f: Accounts.UserForm)
    requires t.nextUser <= C.MAX_I64 && EmailRows(t, f.email) == {} && UsernameRows(t, f.username) == {}
    ensures InsertUser(t, orgs,
                       NewUser(f.organizationId, f.email, f.username, Argon2(f.password), f.firstLogin)).out.Ok? <==>
            RowFits(t, orgs, f)
  {
    forall u | u in t.users ensures Lower(t.users[u].email) != Lower(f.email) && t.users[u].username != f.username {
      assert u !in EmailRows(t, f.email) && u !in UsernameRows(t, f.username);
    }
    hide Lower;
  }

  lemma RowFitsFrame(t: Tables, t': Tables, orgs: set<int>, f: Accounts.UserForm)
    requires t'.users == t.users
    ensures EmailRows(t', f.email) == EmailRows(t, f.email)
            && UsernameRows(t', f.username) == UsernameRows(t, f.username)
    ensures RowFits(t', orgs, f) == RowFits(t, orgs, f)
  {}

  /** While serial ids last, `create_user` succeeds exactly when neither lookup finds a row, the columns and the
      organization admit the new one, no name is reserved, every name is known and the assigner, if any, is a user (the
      new one included). */
  lemma CreateUserSucceedsExactly(t: Tables, orgs: set<int>, ns: string, f: Accounts.UserForm, adminId: Option<int>,
                                  q: Planner)
    requires Valid(t) && t.nextUser <= C.MAX_I64 && Room(t, f.organizationId) <= C.MAX_I64 + 1
    ensures Accounts.CreateUser(t, orgs, ns, f, adminId, q).out.Ok? <==>
            && RowFits(t, orgs, f)
            && (forall i | 0 <= i < |f.groups| :: !Accounts.ReservedIn(ns, f.groups[i]))
            && AllKnown(t, orgs, Accounts.OrUsers(f.groups), f.organizationId)
            && (adminId.Some? ==> adminId.value in t.users.Keys + {t.nextUser})
  {
    hide Valid, InsertUser, Accounts.ResolveAll, Accounts.Respond, Accounts.ReservedIn, NamesAll, Room, AllKnown,
      EmailRows, UsernameRows, RowFits;
    ResolveSucceedsExactly(t, orgs, Accounts.OrUsers(f.groups), f.organizationId, q);
    RowFitsLooksUp(t, orgs, f);
    var x := Accounts.ResolveGroupIds(t, orgs, ns, f.groups, f.organizationId, q);
    ResolvedGroups(t, orgs, ns, f.groups, f.organizationId, q, q);
    if x.out.Ok? && EmailRows(t, f.email) == {} && UsernameRows(t, f.username) == {} {
      RowFitsFrame(t, x.t, orgs, f);
      FittingRowIsInserted(x.t, orgs, f);
      var n := NewUser(f.organizationId, f.email, f.username, Argon2(f.password), f.firstLogin);
      InsertingAdds(x.t, orgs, n);
      var y := InsertUser(x.t, orgs, n);
      if y.out.Ok? {
        NewcomerIsAssigned(t, x.t, y.t, x.out.value, Accounts.OrUsers(f.groups), f.organizationId, adminId);
      }
    }
    hide Accounts.AssignAll;
  }

  lemma {:induction false} ResolvingKeepsRoom(t: Tables, orgs: set<int>, groups: seq<string>, org: int, q: Planner)
    requires Valid(t) && Room(t, org) <= C.MAX_I64 + 1
    ensures Room(Accounts.ResolveAll(t, orgs, groups, org, q).t, org) <= C.MAX_I64 + 1
    decreases |groups|
  {
    hide Valid, Accounts.ResolveOne, Room;
    if groups != [] {
      var x := Accounts.ResolveOne(t, orgs, groups[0], org, q);
      ResolveOneSucceeds(t, orgs, groups[0], org, q);
      ResolveOneNames(t, orgs, groups[0], org, q);
      if x.out.Ok? { ResolvingKeepsRoom(x.t, orgs, groups[1..], org, q); }
    }
  }

  lemma CreateUserKeepsRoom(t: Tables, orgs: set<int>, ns: string, f: Accounts.UserForm, adminId: Option<int>,
                            q: Planner)
    requires Valid(t) && Room(t, f.organizationId) <= C.MAX_I64 + 1
    ensures Room(Accounts.CreateUser(t, orgs, ns, f, adminId, q).t, f.organizationId) <= C.MAX_I64 + 1
  {
    hide Valid, InsertUser, Accounts.ResolveAll, Accounts.AssignAll, Accounts.Respond, Accounts.ReservedIn, NamesAll,
      EmailRows, UsernameRows;
    ResolvingKeepsRoom(t, orgs, Accounts.OrUsers(f.groups), f.organizationId, q);
    ResolvedGroups(t, orgs, ns, f.groups, f.organizationId, q, q);
    var x := Accounts.ResolveGroupIds(t, orgs, ns, f.groups, f.organizationId, q);
    if x.out.Ok? {
      var n := NewUser(f.organizationId, f.email, f.username, Argon2(f.password), f.firstLogin);
      InsertingAdds(x.t, orgs, n);
      var y := InsertUser(x.t, orgs, n);
      if y.out.Ok? { AssigningJoins(y.t, y.out.value.userId, x.out.value, adminId); }
    }
  }

  lemma RowFitsLooksUp(t: Tables, orgs: set<int>, f: Accounts.UserForm)
    ensures RowFits(t, orgs, f) ==> EmailRows(t, f.email) == {} && UsernameRows(t, f.username) == {}
  {}

  lemma NewcomerIsAssigned(t: Tables, t': Tables, t'': Tables, ids: seq<int>, groups: seq<string>, org: int,
                           assignedBy: Option<int>)
    requires Valid(t) && t'.members == t.members && t'.users == t.users && NamesAll(t', ids, groups, org)
             && groups != []
    requires t'' == t'.(users := t''.users, nextUser := t''.nextUser)
    requires t.nextUser in t''.users && t''.users - {t.nextUser} == t.users
    ensures Accounts.AssignAll(t'', t.nextUser, ids, assignedBy).out.Ok? <==>
            assignedBy.Some? ==> assignedBy.value in t.users.Keys + {t.nextUser}
  {
    assert forall k | k in t.members :: k.0 in t.users && k.0 != t.nextUser;
    assert t''.users.Keys == t.users.Keys + {t.nextUser} by {
      forall u | u in t''.users && u != t.nextUser ensures u in t.users { assert u in t''.users - {t.nextUser}; }
      forall u | u in t.users ensures u in t''.users { assert u in t''.users - {t.nextUser}; }
    }
    hide Valid;
    AssigningSucceedsExactly(t'', t.nextUser, ids, assignedBy);
  }

  lemma NamesAllFrame(t: Tables, t': Tables, ids: seq<int>, groups: seq<string>, org: int)
    requires NamesAll(t, ids, groups, org) && t'.groups == t.groups
    ensures NamesAll(t', ids, groups, org)
  {}

  lemma ResolvedNamesAreWanted(t: Tables, ids: seq<int>, groups: seq<string>, org: int)
    requires NamesAll(t, ids, Accounts.OrUsers(groups), org)
    ensures forall g | g in ids :: g in t.groups && t.groups[g].name in Wanted(groups)
    ensures forall name | name in Wanted(groups) :: exists i | 0 <= i < |ids| ::
                                                      ids[i] in t.groups && t.groups[ids[i]].name == name
  {}

  /** A created user is answered with exactly the set of requested names, or with `users` when none were requested. */
  lemma CreateUserAnswersWanted(t: Tables, orgs: set<int>, ns: string, f: Accounts.UserForm, adminId: Option<int>,
                                q: Planner)
    requires Valid(t)
    ensures var x := Accounts.CreateUser(t, orgs, ns, f, adminId, q);
            x.out.Ok? ==> x.out.value.userId == t.nextUser && forall name :: name in x.out.value.groups <==>
              name in Wanted(f.groups)
  {
    hide InsertUser, Accounts.ResolveAll, Accounts.ReservedIn, NamesAll, Accounts.GetUserGroupNames, Wanted;
    var x := Accounts.ResolveGroupIds(t, orgs, ns, f.groups, f.organizationId, q);
    ResolvedGroups(t, orgs, ns, f.groups, f.organizationId, q, q);
    if Accounts.CreateUser(t, orgs, ns, f, adminId, q).out.Ok? {
      var n := NewUser(f.organizationId, f.email, f.username, Argon2(f.password), f.firstLogin);
      InsertingAdds(x.t, orgs, n);
      var y := InsertUser(x.t, orgs, n);
      AssigningJoins(y.t, t.nextUser, x.out.value, adminId);
      var z := Accounts.AssignAll(y.t, t.nextUser, x.out.value, adminId);
      NamesAllFrame(x.t, z.t, x.out.value, Accounts.OrUsers(f.groups), f.organizationId);
      ResolvedNamesAreWanted(z.t, x.out.value, f.groups, f.organizationId);
      forall name ensures name in Accounts.Respond(z.t, y.out.value, ns, q).groups <==> name in Wanted(f.groups) {
        Staleness.ResponseNamesMemberships(z.t, y.out.value, ns, q, name);
        NewcomerHolds(x.t, z.t, t.nextUser, x.out.value, name);
      }
    }
  }

  /** A user that had no membership holds the groups it was assigned, no others. */
  lemma NewcomerHolds(t: Tables, t': Tables, userId: int, ids: seq<int>, name: string)
    requires Valid(t) && userId !in t.users
    requires forall k | k in t'.members :: k in t.members || (k.0 == userId && k.1 in ids)
    requires forall i | 0 <= i < |ids| :: (userId, ids[i]) in t'.members
    ensures Staleness.HoldsIn(t', userId, name) <==>
            exists i | 0 <= i < |ids| :: ids[i] in t'.groups && t'.groups[ids[i]].name == name
  {
    assert forall k | k in t.members :: k.0 != userId;
    forall g | (userId, g) in t'.members
      ensures g in ids
    {
      assert (userId, g) !in t.members || (userId, g).0 != userId;
    }
    if g :| g in t'.groups && t'.groups[g].name == name && (userId, g) in t'.members {
      var i :| 0 <= i < |ids| && ids[i] == g;
      assert t'.groups[ids[i]].name == name;
    }
    if i :| 0 <= i < |ids| && ids[i] in t'.groups && t'.groups[ids[i]].name == name {
      var g := ids[i];
      assert g in t'.groups && t'.groups[g].name == name && (userId, g) in t'.members;
    }
  }
}
