/** Requests that belong together: what one leaves is what the next one finds. */
module Journeys {
  import opened Wrappers
  import opened Text
  import opened Environment
  import opened Tables
  import opened Constraints
  import opened Requests
  import C = Constants
  import Accounts
  import Decimal
  import Decisions
  import Email
  import Enrolment
  import Granting
  import Integrity
  import Resets
  import Staleness

  // ----- registering and logging in

  /** The only row a successful registration adds carries what was asked for. */
  lemma CreatedRow(t: Tables, orgs: set<int>, ns: string, f: Accounts.UserForm, adminId: Option<int>, q: Planner)
    requires Valid(t)
    ensures var x := Accounts.CreateUser(t, orgs, ns, f, adminId, q);
            x.out.Ok? ==>
              && x.t.users == t.users[t.nextUser :=
                   User(t.nextUser, f.organizationId, f.email, f.username, Argon2(f.password), f.firstLogin)]
              && x.t.nextUser == t.nextUser + 1
              && EmailRows(t, f.email) == {} && UsernameRows(t, f.username) == {}
              && x.out.value == Accounts.Respond(x.t, x.t.users[t.nextUser], ns, q)
  {
    hide Valid, Accounts.ResolveAll, Accounts.GetUserGroupNames, Accounts.ReservedIn, ProfileFits, EmailRows,
      UsernameRows, Enrolment.NamesAll;
    var x := Accounts.ResolveGroupIds(t, orgs, ns, f.groups, f.organizationId, q);
    Enrolment.ResolvedGroups(t, orgs, ns, f.groups, f.organizationId, q, q);
    if x.out.Ok? {
      var y := InsertUser(x.t, orgs, NewUser(f.organizationId, f.email, f.username, Argon2(f.password), f.firstLogin));
      if y.out.Ok? { Enrolment.AssigningJoins(y.t, t.nextUser, x.out.value, adminId); }
    }
    hide Accounts.AssignAll;
  }

  /** Registering and then logging in, by e-mail in any case or by a user name that does not read as an e-mail, leads
      to the new user with the registered password, and with no other. */
  lemma RegisterThenLogin(t: Tables, orgs: set<int>, ns: string, org: int, email: string, username: string,
                          password: string, group: Option<string>, e: Env, identity: string, attempt: string,
                          later: Env)
    requires Valid(t)
    requires Accounts.Register(t, orgs, ns, org, email, username, password, group, e).out.Ok?
    requires if Email.IsEmail(identity) then Lower(identity) == Lower(email) else identity == username
    ensures var x := Accounts.Register(t, orgs, ns, org, email, username, password, group, e);
            var again := Accounts.Login(x.t, ns, identity, attempt, later);
            if attempt == password then again.Ok? && again.value.user.userId == x.out.value.user.userId
              && !again.value.requiresPasswordChange
            else again == Err(InvalidCredentials)
  {
    hide Valid, Accounts.CreateUser, Accounts.GetUserGroupNames, Email.IsEmail, Email.IsPassword, Lower;
    var groups := Accounts.RegistrationGroups(ns, group, |t.users|).value;
    var f := Accounts.UserForm(org, email, username, password, groups, false);
    CreatedRow(t, orgs, ns, f, None, e.planner);
    var t' := Accounts.CreateUser(t, orgs, ns, f, None, e.planner).t;
    assert forall u | u in t.users :: u !in EmailRows(t, email) && u !in UsernameRows(t, username);
    forall u ensures u in EmailRows(t', identity) && Lower(identity) == Lower(email) ==> u == t.nextUser {}
    forall u ensures u in UsernameRows(t', username) ==> u == t.nextUser {}
    assert Lower(identity) == Lower(email) ==> t.nextUser in EmailRows(t', identity);
    assert t.nextUser in UsernameRows(t', username);
    hide EmailRows, UsernameRows, Accounts.RegistrationGroups;
  }

  /** Logging in by the registered user name and password leads to the new user exactly when the name does not read as
      an e-mail, or is the user's own e-mail up to case. */
  lemma LoginByNameExactly(t: Tables, orgs: set<int>, ns: string, org: int, email: string, username: string,
                           password: string, group: Option<string>, e: Env, later: Env)
    requires Valid(t)
    requires Accounts.Register(t, orgs, ns, org, email, username, password, group, e).out.Ok?
    ensures var x := Accounts.Register(t, orgs, ns, org, email, username, password, group, e);
            var again := Accounts.Login(x.t, ns, username, password, later);
            (again.Ok? && again.value.user.userId == x.out.value.user.userId) <==>
            !Email.IsEmail(username) || Lower(username) == Lower(email)
  {
    hide Valid, Accounts.CreateUser, Accounts.GetUserGroupNames, Email.IsEmail, Email.IsPassword, Lower;
    if Email.IsEmail(username) && Lower(username) != Lower(email) {
      var groups := Accounts.RegistrationGroups(ns, group, |t.users|).value;
      var f := Accounts.UserForm(org, email, username, password, groups, false);
      CreatedRow(t, orgs, ns, f, None, e.planner);
      var t' := Accounts.CreateUser(t, orgs, ns, f, None, e.planner).t;
      assert t.nextUser !in EmailRows(t', username);
      OldRowsAreNumbered(t);
      hide EmailRows, UsernameRows, Accounts.RegistrationGroups;
    } else {
      RegisterThenLogin(t, orgs, ns, org, email, username, password, group, e, username, password, later);
      hide Accounts.Register, Accounts.Login;
    }
  }

  lemma OldRowsAreNumbered(t: Tables)
    requires Valid(t)
    ensures forall u | u in t.users :: t.users[u].userId == u && u != t.nextUser
  {}

  /** The caller a middleware reconstructs from a token is the user, the memberships and the organization it was minted
      for. */
  lemma TokenIdentity(r: Accounts.UserResponse, now: Instant)
    requires Decimal.IsI64(r.userId)
    ensures FromClaims(Accounts.TokenFor(r, now)) ==
            AuthenticatedUser(r.userId, r.email, r.username, r.groups, r.namespace, r.organizationId)
  {
    Decimal.ParsePrint(r.userId);
  }

  /** A login token is the session of the row it was given for, and is accepted exactly during the hour that follows. */
  lemma LoginOpensSession(w: World, ns: string, identity: string, password: string, e: Env, now: Instant)
    requires Integrity.DbOk(w.db) && Apply(w, Login(ns, identity, password), e).1.LoggedIn?
    ensures var (w', a) := Apply(w, Login(ns, identity, password), e);
            var caller := FromClaims(a.auth.token);
            && ns in w.db.schemas && caller.userId in w.db.schemas[ns].users && caller.namespace == ns
            && var row := w.db.schemas[ns].users[caller.userId];
               && caller.email == row.email && caller.username == row.username
                  && caller.organizationId == row.organizationId
               && (forall name :: name in caller.groups <==> Staleness.HoldsIn(w.db.schemas[ns], caller.userId, name))
               && a.auth.token in w'.issued && a.auth.token.iss == "keyrunes"
               && (Seconds(now) < a.auth.token.exp <==> Seconds(now) < Seconds(e.now) + 3600)
               && (Accepts(w', a.auth.token, now) <==> Seconds(now) < Seconds(e.now) + 3600)
  {
    hide Accounts.GetUserGroupNames, Accounts.FindByIdentity, Integrity.OrganizationsOk, Valid;
    var t := w.db.schemas[ns];
    var u := Accounts.FindByIdentity(t, identity, e.planner).value;
    FoundRow(t, identity, e.planner);
    TokenIdentity(Accounts.Respond(t, u, ns, e.planner), e.now);
    forall name
      ensures name in Accounts.Respond(t, u, ns, e.planner).groups <==> Staleness.HoldsIn(t, u.userId, name)
    {
      Staleness.ResponseNamesMemberships(t, u, ns, e.planner, name);
    }
    hide Staleness.HoldsIn;
  }

  lemma FoundRow(t: Tables, identity: string, q: Planner)
    requires Valid(t)
    ensures var u := Accounts.FindByIdentity(t, identity, q);
            u.Some? ==> u.value.userId in t.users && t.users[u.value.userId] == u.value && Decimal.IsI64(u.value.userId)
  {
    hide Email.IsEmail;
  }

  // ----- losing and changing passwords

  /** A forgotten password can be reset with the mailed token exactly during the next 24 hours; the reset replaces the
      password of the user it was made for. */
  lemma ForgotThenReset(t: Tables, email: string, e: Env, new_: string, later: Env)
    requires Valid(t) && Accounts.ForgotPassword(t, email, e).out.Ok?
    ensures var x := Accounts.ForgotPassword(t, email, e);
            var y := Accounts.ResetPassword(x.t, x.out.value, new_, later);
            && (y.out.Ok? <==> later.now < e.now + DAY && Utf8Length(new_) >= C.MIN_PASSWORD_LENGTH)
            && (y.out.Ok? ==>
                  var u := First(e.planner, EmailRows(t, email)).value;
                  y.t.users == t.users[u := t.users[u].(passwordHash := Argon2(new_))])
            && (later.now >= e.now + DAY ==> y == Tx(x.t, Err(InvalidResetToken)))
  {
    hide Utf8Length, Lower;
    var x := Accounts.ForgotPassword(t, email, e);
    CreateTokenKeeps(t, FindByEmail(t, email, e.planner).value.userId, e.resetToken, e.now + DAY);
    Resets.ResetExactly(x.t, e.resetToken, new_, later, t.nextToken);
    if later.now >= e.now + DAY {
      forall l ensures !Resets.Good(x.t, l, e.resetToken, later.now) {}
    }
    hide Accounts.ResetPassword;
  }

  /** A password change needs the current password and a long enough new one; it replaces the hash, clears the flag and
      touches nothing else, and every refusal leaves everything as it was. */
  lemma ChangePasswordExactly(t: Tables, userId: int, current: string, new_: string)
    ensures var x := Accounts.ChangePassword(t, userId, current, new_);
            if userId in t.users && t.users[userId].passwordHash == Argon2(current) && Email.IsPassword(new_) then
              x == Tx(t.(users := t.users[userId := t.users[userId].(passwordHash := Argon2(new_),
                                                                     firstLogin := false)]), Ok(()))
            else x.t == t && x.out.Err?
  {
    hide Email.IsPassword;
    if userId in t.users {
      var u := t.users[userId].(passwordHash := Argon2(new_));
      assert t.users[userId := u][userId := u.(firstLogin := false)] == t.users[userId := u.(firstLogin := false)];
    }
  }

  // ----- profiles

  lemma ProfileWritten(t: Tables, userId: int, u: User, flag: bool)
    requires userId in t.users && u == t.users[userId].(email := u.email, username := u.username)
    ensures var x := UpdateProfile(t, userId, u.email, u.username);
            && (x.out.Err? ==> x.t == t)
            && (x.out.Ok? ==>
                  && x.t == t.(users := t.users[userId := u])
                  && SetFirstLogin(x.t, userId, flag)
                     == Tx(t.(users := t.users[userId := u.(firstLogin := flag)]), Ok(())))
  {
    hide ProfileFits;
    assert t.users[userId := u][userId := u.(firstLogin := flag)] == t.users[userId := u.(firstLogin := flag)];
  }

  /** A profile update writes exactly the values that were given to that row, or nothing at all: on any error the
      tables stay. */
  lemma UpdateUserExactly(t: Tables, ns: string, userId: int, email: Option<string>, username: Option<string>,
                          flag: Option<bool>, q: Planner)
    requires Valid(t)
    ensures var x := Accounts.UpdateUser(t, ns, userId, email, username, flag, q);
            && (x.out.Err? ==> x.t == t)
            && (x.out.Ok? ==>
                  && userId in t.users
                  && var row := t.users[userId].(
                       email := if email.Some? then email.value else t.users[userId].email,
                       username := if username.Some? then username.value else t.users[userId].username,
                       firstLogin := if flag.Some? then flag.value else t.users[userId].firstLogin);
                     && x.t == t.(users := t.users[userId := row])
                     && x.out.value == Accounts.Respond(x.t, row, ns, q))
  {
    hide Accounts.Respond, Email.IsEmail;
    if userId in t.users {
      assert t.users[userId].userId == userId;
      hide Valid, UpdateProfile, SetFirstLogin;
      var u := t.users[userId].(email := if email.Some? then email.value else t.users[userId].email,
                                username := if username.Some? then username.value else t.users[userId].username);
      ProfileWritten(t, userId, u, flag.Some? && flag.value);
    }
  }

  /** Deleting a user takes the row and whatever refers to it as its own; it is refused exactly when a link of somebody
      else names the user as the one who assigned it. Nothing of anybody else changes. */
  lemma DeleteUserExactly(t: Tables, userId: int)
    requires Valid(t) && userId in t.users
    ensures var x := EraseUser(t, userId);
            var held := (exists k | k in t.members :: k.0 != userId && t.members[k] == Some(userId))
                        || (exists k | k in t.userPolicies :: k.0 != userId && t.userPolicies[k] == Some(userId))
                        || (exists k | k in t.groupPolicies :: t.groupPolicies[k] == Some(userId));
            if held then x == Tx(t, Err(Database))
            else x == Tx(t.(users := t.users - {userId},
                            members := map k | k in t.members && k.0 != userId :: t.members[k],
                            userPolicies := map k | k in t.userPolicies && k.0 != userId :: t.userPolicies[k],
                            tokens := map k | k in t.tokens && t.tokens[k].userId != userId :: t.tokens[k]), Ok(()))
  {
    Unlinked(t.members, userId);
    Unlinked(t.userPolicies, userId);
    UnlinkedNothing(t.groupPolicies, userId);
    var r := Erase(t, {userId}, {}, {});
    if r.Some? {
      assert r.value.groups == t.groups && r.value.policies == t.policies;
      assert r.value.tokens == map k | k in t.tokens && t.tokens[k].userId != userId :: t.tokens[k];
    }
    hide Valid;
  }

  lemma Unlinked(links: Links, userId: int)
    ensures Unlink(links, {userId}, {}) == map k | k in links && k.0 != userId :: links[k]
    ensures AssignedBy(Unlink(links, {userId}, {}), {userId}) <==>
            exists k | k in links :: k.0 != userId && links[k] == Some(userId)
  {
    var rest := Unlink(links, {userId}, {});
    assert rest == map k | k in links && k.0 != userId :: links[k];
    if k :| k in links && k.0 != userId && links[k] == Some(userId) { assert k in rest && rest[k].value in {userId}; }
  }

  lemma UnlinkedNothing(links: Links, userId: int)
    ensures Unlink(links, {}, {}) == links
    ensures AssignedBy(links, {userId}) <==> exists k | k in links :: links[k] == Some(userId)
  {
    assert Unlink(links, {}, {}) == links;
    if k :| k in links && links[k] == Some(userId) { assert links[k].value in {userId}; }
  }

  // ----- groups and policies

  /** A created group is found by its name in its organization, and creating it again is refused. */
  lemma CreatedGroupIsFound(t: Tables, orgs: set<int>, ns: string, name: string, org: int, q: Planner)
    requires Valid(t) && Accounts.CreateGroup(t, orgs, ns, name, org, q).out.Ok?
    ensures var x := Accounts.CreateGroup(t, orgs, ns, name, org, q);
            && FindGroupByName(x.t, name, org, q) == Some(x.out.value)
            && x.out.value == Group(t.nextGroup, org, name)
            && Accounts.CreateGroup(x.t, orgs, ns, name, org, q) == Tx(x.t, Err(GroupExists))
  {
    var x := Accounts.CreateGroup(t, orgs, ns, name, org, q);
    InsertGroupKeeps(t, orgs, name, org);
    Enrolment.FindNamed(x.t, t.nextGroup, name, org, q);
    hide Valid, C.IsSuperadminName;
  }

  /** A created policy, once granted, is in force as written: an ALLOW lets its own resource and action through unless
      a DENY matches, and a DENY stops them. */
  lemma CreatedPolicyDecides(t: Tables, orgs: set<int>, name: string, org: int, resource: string, action: string,
                             effect: Effect, userId: int, assignedBy: Option<int>)
    requires Valid(t)
    requires var x := Accounts.CreatePolicy(t, orgs, name, org, resource, action, effect);
             x.out.Ok? && Accounts.GrantToUser(x.t, userId, x.out.value.policyId, assignedBy).out.Ok?
    ensures var x := Accounts.CreatePolicy(t, orgs, name, org, resource, action, effect);
            var t' := Accounts.GrantToUser(x.t, userId, x.out.value.policyId, assignedBy).t;
            Decisions.Grants(Decisions.Reachable(t', userId), resource, action) ==
            (effect == Allow && !Decisions.Hits(Decisions.Reachable(t, userId), Deny, resource, action))
  {
    var x := Accounts.CreatePolicy(t, orgs, name, org, resource, action, effect);
    var p := Policy(t.nextPolicy, org, name, resource, action, effect);
    Granting.UserGrantReaches(x.t, userId, p.policyId, assignedBy, userId);
    NewPolicyUnreached(t, x.t, userId);
    assert Decisions.MatchesPolicy(p, resource, action);
    hide Valid, Decisions.Reachable, Decisions.MatchesPolicy;
  }

  lemma NewPolicyUnreached(t: Tables, t': Tables, userId: int)
    requires Valid(t)
    requires t'.userPolicies == t.userPolicies && t'.groupPolicies == t.groupPolicies && t'.members == t.members
    requires t'.policies.Keys == t.policies.Keys + {t.nextPolicy}
             && forall p | p in t.policies :: t'.policies[p] == t.policies[p]
    ensures Decisions.Reachable(t', userId) == Decisions.Reachable(t, userId)
  {
    assert ReachablePolicyIds(t', userId) == ReachablePolicyIds(t, userId);
  }
}
