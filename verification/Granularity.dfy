/** A request that nothing interrupts does, transaction by transaction, what the whole-request functions say. */
module Granularity {
  import opened Wrappers
  import opened Text
  import opened Environment
  import opened Tables
  import opened Requests
  import opened Steps
  import Accounts
  import Decisions
  import Email

  function Delivered(x: Tx<Accounts.UserResponse>, purpose: Purpose, now: Instant): Tx<Answer> {
    Tx(x.t, match x.out case Ok(r) => Ok(Deliver(r, purpose, now)) case Err(err) => Err(err))
  }

  lemma {:induction false} DriveMembers(t: Tables, orgs: set<int>, ns: string, user: User, adminId: Option<int>,
                                        purpose: Purpose, ids: seq<int>, e: Env)
    ensures Drive(t, orgs, ns, NextMember(user, adminId, purpose, ids), e) ==
            var y := Accounts.AssignAll(t, user.userId, ids, adminId);
            if y.out.Err? then Tx(y.t, Err(y.out.error))
            else Tx(y.t, Ok(Deliver(Accounts.Respond(y.t, user, ns, e.planner), purpose, e.now)))
    decreases |ids|
  {
    hide Accounts.Respond, AssignUserToGroup;
    if ids != [] {
      var x := AssignUserToGroup(t, user.userId, ids[0], adminId);
      if x.out.Ok? { DriveMembers(x.t, orgs, ns, user, adminId, purpose, ids[1..], e); }
    }
  }

  lemma DriveEnroll(t: Tables, orgs: set<int>, ns: string, f: Accounts.UserForm, adminId: Option<int>, purpose: Purpose,
                    ids: seq<int>, e: Env)
    ensures Drive(t, orgs, ns, AddUser(f, adminId, purpose, ids), e) ==
            Delivered(Accounts.Enroll(t, orgs, ns, f, ids, adminId, e.planner), purpose, e.now)
  {
    hide Accounts.Respond, Accounts.AssignAll, InsertUser;
    var x := InsertUser(t, orgs, NewUser(f.organizationId, f.email, f.username, Argon2(f.password), f.firstLogin));
    if x.out.Ok? { DriveMembers(x.t, orgs, ns, x.out.value, adminId, purpose, ids, e); }
  }

  lemma {:induction false} DriveGroups(t: Tables, orgs: set<int>, ns: string, f: Accounts.UserForm,
                                       adminId: Option<int>, purpose: Purpose, wanted: seq<string>, found: seq<int>,
                                       e: Env)
    ensures Drive(t, orgs, ns, NextGroup(f, adminId, purpose, wanted, found), e) ==
            var x := Accounts.ResolveAll(t, orgs, wanted, f.organizationId, e.planner);
            if x.out.Err? then Tx(x.t, Err(x.out.error))
              else Drive(x.t, orgs, ns, AddUser(f, adminId, purpose, found + x.out.value), e)
    decreases |wanted|
  {
    hide InsertUser, FindGroupByName, InsertGroup, Trim;
    if wanted == [] {
      assert found + [] == found;
    } else {
      var x := Accounts.ResolveOne(t, orgs, wanted[0], f.organizationId, e.planner);
      if x.out.Ok? {
        DriveGroups(x.t, orgs, ns, f, adminId, purpose, wanted[1..], found + [x.out.value], e);
        var rest := Accounts.ResolveAll(x.t, orgs, wanted[1..], f.organizationId, e.planner);
        if rest.out.Ok? { assert found + [x.out.value] + rest.out.value == found + ([x.out.value] + rest.out.value); }
      }
      DriveOneGroup(t, orgs, ns, f, adminId, purpose, wanted, found, e);
    }
  }

  /** One round of the loop takes one or two transactions. */
  lemma DriveOneGroup(t: Tables, orgs: set<int>, ns: string, f: Accounts.UserForm, adminId: Option<int>,
                      purpose: Purpose, wanted: seq<string>, found: seq<int>, e: Env)
    requires wanted != []
    ensures Drive(t, orgs, ns, SeekGroup(f, adminId, purpose, wanted, found), e) ==
            var x := Accounts.ResolveOne(t, orgs, wanted[0], f.organizationId, e.planner);
            if x.out.Err? then Tx(x.t, Err(x.out.error))
            else Drive(x.t, orgs, ns, NextGroup(f, adminId, purpose, wanted[1..], found + [x.out.value]), e)
  {
    hide FindGroupByName, InsertGroup, Trim, NextGroup, Left;
    var (t', l) := Advance(t, orgs, ns, SeekGroup(f, adminId, purpose, wanted, found), e);
    if l.AddGroup? {
      var (t'', l') := Advance(t', orgs, ns, l, e);
      assert Drive(t', orgs, ns, l, e) == Drive(t'', orgs, ns, l', e);
    }
  }

  lemma DriveCreateUser(t: Tables, orgs: set<int>, ns: string, f: Accounts.UserForm, adminId: Option<int>,
                        purpose: Purpose, e: Env)
    ensures Drive(t, orgs, ns, SeekEmail(f, adminId, purpose), e) ==
            Delivered(Accounts.CreateUser(t, orgs, ns, f, adminId, e.planner), purpose, e.now)
  {
    hide FindByEmail, FindByUsername, Accounts.ResolveAll, Accounts.Enroll, Left, Accounts.ReservedIn;
    DriveGroups(t, orgs, ns, f, adminId, purpose, Accounts.OrUsers(f.groups), [], e);
    var (_, l) := Advance(t, orgs, ns, SeekEmail(f, adminId, purpose), e);
    var (_, l') := Advance(t, orgs, ns, l, e);
    assert Drive(t, orgs, ns, l, e) == Drive(t, orgs, ns, l', e) || l.Finished?;
    var x := Accounts.ResolveAll(t, orgs, Accounts.OrUsers(f.groups), f.organizationId, e.planner);
    if x.out.Ok? {
      assert [] + x.out.value == x.out.value;
      DriveEnroll(x.t, orgs, ns, f, adminId, purpose, x.out.value, e);
    }
  }

  lemma DriveRegister(t: Tables, orgs: set<int>, ns: string, org: int, email: string, username: string,
                      password: string, group: Option<string>, e: Env)
    ensures var act := ActRegister(org, email, username, password, group);
            Drive(t, orgs, ns, Start(ns, act, e), e) == Perform(t, orgs, ns, act, e)
  {
    hide Accounts.CreateUser, Left, Email.IsEmail, Email.IsPassword, Accounts.RegistrationGroups;
    var groups := Accounts.RegistrationGroups(ns, group, |t.users|);
    if groups.Ok? {
      DriveCreateUser(t, orgs, ns, Accounts.UserForm(org, email, username, password, groups.value, false), None,
                      ToLogIn, e);
    }
  }

  /** A request with at most four transactions left, unrolled. */
  lemma Unroll(t: Tables, orgs: set<int>, ns: string, l: Local, e: Env)
    requires Left(l) <= 4
    ensures var (t1, l1) := Advance(t, orgs, ns, l, e);
            var (t2, l2) := Advance(t1, orgs, ns, l1, e);
            var (t3, l3) := Advance(t2, orgs, ns, l2, e);
            var (t4, l4) := Advance(t3, orgs, ns, l3, e);
            l4.Finished? && Drive(t, orgs, ns, l, e) == Tx(t4, l4.out)
  {
    hide Advance, Left;
    FinishedStays(t, orgs, ns, l, e);
    var (t1, l1) := Advance(t, orgs, ns, l, e);
    FinishedStays(t1, orgs, ns, l1, e);
    var (t2, l2) := Advance(t1, orgs, ns, l1, e);
    FinishedStays(t2, orgs, ns, l2, e);
    var (t3, l3) := Advance(t2, orgs, ns, l2, e);
    FinishedStays(t3, orgs, ns, l3, e);
    var (t4, l4) := Advance(t3, orgs, ns, l3, e);
    FinishedStays(t4, orgs, ns, l4, e);
  }

  lemma FinishedStays(t: Tables, orgs: set<int>, ns: string, l: Local, e: Env)
    ensures var (t', l') := Advance(t, orgs, ns, l, e);
            Drive(t, orgs, ns, l, e) == Drive(t', orgs, ns, l', e)
              && (if Left(l) == 0 then l.Finished? && l' == l else Left(l') < Left(l))
  {
    if !l.Finished? { AdvanceProgresses(t, orgs, ns, l, e); }
    hide Advance;
  }

  predicate IsPasswordAct(act: Act) { act.ActChangePassword? || act.ActResetUserPassword? }

  predicate IsTokenAct(act: Act) { act.ActResetPassword? || act.ActForgotPassword? || act.ActSendReset? }

  predicate IsSessionAct(act: Act) { act.ActLogin? || act.ActRefresh? || act.ActCheckPermission? }

  lemma DriveChange(t: Tables, orgs: set<int>, ns: string, act: Act, e: Env)
    requires act.ActChangePassword?
    ensures Drive(t, orgs, ns, Start(ns, act, e), e) == Perform(t, orgs, ns, act, e)
  {
    hide Drive, Email.IsPassword, UpdatePassword;
    Unroll(t, orgs, ns, Start(ns, act, e), e);
  }

  lemma DriveTemporary(t: Tables, orgs: set<int>, ns: string, act: Act, e: Env)
    requires act.ActResetUserPassword?
    ensures Drive(t, orgs, ns, Start(ns, act, e), e) == Perform(t, orgs, ns, act, e)
  {
    hide Drive, UpdatePassword, SetFirstLogin;
    Unroll(t, orgs, ns, Start(ns, act, e), e);
  }

  lemma DrivePasswords(t: Tables, orgs: set<int>, ns: string, act: Act, e: Env)
    requires IsPasswordAct(act)
    ensures Drive(t, orgs, ns, Start(ns, act, e), e) == Perform(t, orgs, ns, act, e)
  {
    hide Drive, Start, Perform;
    if act.ActChangePassword? {
      DriveChange(t, orgs, ns, act, e);
    } else {
      DriveTemporary(t, orgs, ns, act, e);
    }
  }

  lemma DriveReset(t: Tables, orgs: set<int>, ns: string, act: Act, e: Env)
    requires act.ActResetPassword?
    ensures Drive(t, orgs, ns, Start(ns, act, e), e) == Perform(t, orgs, ns, act, e)
  {
    hide Drive, FindValidToken, Utf8Length, UpdatePassword;
    Unroll(t, orgs, ns, Start(ns, act, e), e);
  }

  lemma DriveMail(t: Tables, orgs: set<int>, ns: string, act: Act, e: Env)
    requires act.ActForgotPassword? || act.ActSendReset?
    ensures Drive(t, orgs, ns, Start(ns, act, e), e) == Perform(t, orgs, ns, act, e)
  {
    hide Drive, FindByEmail, CreateResetToken;
    Unroll(t, orgs, ns, Start(ns, act, e), e);
  }

  lemma DriveTokens(t: Tables, orgs: set<int>, ns: string, act: Act, e: Env)
    requires IsTokenAct(act)
    ensures Drive(t, orgs, ns, Start(ns, act, e), e) == Perform(t, orgs, ns, act, e)
  {
    hide Drive, Start, Perform;
    if act.ActResetPassword? {
      DriveReset(t, orgs, ns, act, e);
    } else {
      DriveMail(t, orgs, ns, act, e);
    }
  }

  /** The last part of a profile update, behind the row it has read. */
  lemma DriveWriting(t: Tables, orgs: set<int>, ns: string, u: User, flag: Option<bool>, e: Env)
    ensures Drive(t, orgs, ns, WriteProfile(u, flag), e) ==
            var x := UpdateProfile(t, u.userId, u.email, u.username);
            if x.out.Err? then Tx(x.t, Err(x.out.error))
            else if flag.None? then Tx(x.t, Ok(UserShown(Accounts.Respond(x.t, u, ns, e.planner))))
            else
              var y := SetFirstLogin(x.t, u.userId, flag.value);
              Tx(y.t, Ok(UserShown(Accounts.Respond(y.t, u.(firstLogin := flag.value), ns, e.planner))))
  {
    hide Drive, Accounts.Respond, UpdateProfile, SetFirstLogin;
    Unroll(t, orgs, ns, WriteProfile(u, flag), e);
  }

  lemma DriveProfile(t: Tables, orgs: set<int>, ns: string, act: Act, e: Env)
    requires act.ActUpdateUser?
    ensures Drive(t, orgs, ns, Start(ns, act, e), e) == Perform(t, orgs, ns, act, e)
  {
    hide Drive, Accounts.Respond, UpdateProfile, SetFirstLogin, Email.IsEmail;
    var l := Start(ns, act, e);
    var (t', l') := Advance(t, orgs, ns, l, e);
    FinishedStays(t, orgs, ns, l, e);
    FinishedStays(t', orgs, ns, l', e);
    if l'.WriteProfile? {
      DriveWriting(t', orgs, ns, l'.user, l'.firstLogin, e);
    } else {
      DrivenOut(t', orgs, ns, l', e);
    }
  }

  lemma DrivenOut(t: Tables, orgs: set<int>, ns: string, l: Local, e: Env)
    requires l.Finished?
    ensures Drive(t, orgs, ns, l, e) == Tx(t, l.out)
  {}

  lemma DriveLogin(t: Tables, orgs: set<int>, ns: string, act: Act, e: Env)
    requires act.ActLogin?
    ensures Drive(t, orgs, ns, Start(ns, act, e), e) == Perform(t, orgs, ns, act, e)
  {
    hide Drive, Accounts.Respond, Accounts.FindByIdentity, Counted, Resolving, NextGroup, NextMember;
    Unroll(t, orgs, ns, Start(ns, act, e), e);
  }

  lemma DriveSessions(t: Tables, orgs: set<int>, ns: string, act: Act, e: Env)
    requires IsSessionAct(act)
    ensures Drive(t, orgs, ns, Start(ns, act, e), e) == Perform(t, orgs, ns, act, e)
  {
    hide Drive, Accounts.Respond, Accounts.FindByIdentity, GetUserAllPolicies, Decisions.Grants, Decisions.AsSet,
      Counted, Resolving, NextGroup, NextMember;
    if act.ActLogin? {
      hide Start, Perform;
      DriveLogin(t, orgs, ns, act, e);
    } else {
      Unroll(t, orgs, ns, Start(ns, act, e), e);
    }
  }

  lemma DriveGrouping(t: Tables, orgs: set<int>, ns: string, act: Act, e: Env)
    requires !act.ActRegister? && !act.ActCreateUser? && !act.ActUpdateUser?
    requires !IsPasswordAct(act) && !IsTokenAct(act) && !IsSessionAct(act)
    ensures Drive(t, orgs, ns, Start(ns, act, e), e) == Perform(t, orgs, ns, act, e)
  {
    hide Drive, FindGroupByName, InsertGroup, AssignUserToGroup, InsertPolicy, PolicyRows, Accounts.ReservedIn,
      EraseUser, CleanupExpiredTokens, Counted, Resolving, NextGroup, NextMember, Deliver;
    Unroll(t, orgs, ns, Start(ns, act, e), e);
  }

  /** The two granularities agree: driven to its end without interruption, a request is one step of the coarse model. */
  lemma UninterruptedIsAtomic(t: Tables, orgs: set<int>, ns: string, act: Act, e: Env)
    ensures Drive(t, orgs, ns, Start(ns, act, e), e) == Perform(t, orgs, ns, act, e)
  {
    match act {
      case ActRegister(org, email, username, password, group) =>
        DriveRegister(t, orgs, ns, org, email, username, password, group, e);
      case ActCreateUser(form, adminId) =>
        hide Accounts.CreateUser;
        DriveCreateUser(t, orgs, ns, form, adminId, ToShow, e);
      case ActUpdateUser(_, _, _, _) => DriveProfile(t, orgs, ns, act, e);
      case _ =>
        if IsPasswordAct(act) { DrivePasswords(t, orgs, ns, act, e); }
        else if IsTokenAct(act) { DriveTokens(t, orgs, ns, act, e); }
        else if IsSessionAct(act) { DriveSessions(t, orgs, ns, act, e); }
        else { DriveGrouping(t, orgs, ns, act, e); }
    }
  }
}
