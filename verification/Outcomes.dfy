/** What each request does to the rows of its schema, and what it answers. */
module Outcomes {
  import opened Wrappers
  import opened Text
  import opened Environment
  import opened Tables
  import opened Constraints
  import opened Requests
  import C = Constants
  import Accounts
  import Decimal
  import Decisions
  import Email
  import Enrolment
  import Journeys
  import Jwt
  import Resets
  import Staleness

  /** The two names agree once the first is trimmed, up to the case of ASCII letters. */
  predicate LooksLike(name: string, target: string) { EqIgnoreAsciiCase(Trim(name), target) }

  // ----- memberships

  /** Joining succeeds exactly when the group is there, is no look-alike of `superadmin` in a tenant, and either the
      membership is there too or user and assigner are. It adds that membership, unless it was there, and nothing
      else. */
  lemma JoinGroupExactly(t: Tables, orgs: set<int>, ns: string, userId: int, groupId: int, assignedBy: Option<int>,
                         e: Env)
    ensures var x := Perform(t, orgs, ns, ActJoinGroup(userId, groupId, assignedBy), e);
            if groupId !in t.groups then x == Tx(t, Err(GroupNotFound))
            else if ns != "public" && LooksLike(t.groups[groupId].name, "superadmin") then
              x == Tx(t, Err(SuperadminReserved))
            else if (userId, groupId) in t.members then x == Tx(t, Ok(Done))
            else if userId in t.users && (assignedBy.Some? ==> assignedBy.value in t.users) then
              x == Tx(t.(members := t.members[(userId, groupId) := assignedBy]), Ok(Done))
            else x == Tx(t, Err(Database))
  {
    hide Trim;
  }

  /** So whoever has joined holds the group, reaches its policies, and nobody else gains anything. */
  lemma JoiningJoins(t: Tables, orgs: set<int>, ns: string, userId: int, groupId: int, assignedBy: Option<int>, e: Env,
                     other: int, name: string)
    requires LinksOk(t.members, t.users.Keys, t.groups.Keys, t.users.Keys)
    requires Perform(t, orgs, ns, ActJoinGroup(userId, groupId, assignedBy), e).out.Ok?
    ensures var t' := Perform(t, orgs, ns, ActJoinGroup(userId, groupId, assignedBy), e).t;
            && groupId in t.groups && (userId, groupId) in t'.members
            && (Staleness.HoldsIn(t', other, name) <==>
                Staleness.HoldsIn(t, other, name) || (other == userId && name == t.groups[groupId].name))
            && Decisions.Reachable(t', other)
               == Decisions.Reachable(t, other) + if other == userId then Decisions.GroupRules(t, groupId) else {}
  {
    JoinGroupExactly(t, orgs, ns, userId, groupId, assignedBy, e);
    hide Perform, LooksLike;
    var t' := t.(members := t.members[(userId, groupId) := assignedBy]);
    JoinedHold(t, t', userId, groupId, other, name);
    JoinedReach(t, t', userId, groupId, other);
    if (userId, groupId) in t.members {
      JoinedHold(t, t, userId, groupId, other, name);
      JoinedReach(t, t, userId, groupId, other);
    }
  }

  lemma JoinedHold(t: Tables, t': Tables, userId: int, groupId: int, other: int, name: string)
    requires groupId in t.groups && t'.groups == t.groups && t'.members.Keys == t.members.Keys + {(userId, groupId)}
    ensures Staleness.HoldsIn(t', other, name) <==>
            Staleness.HoldsIn(t, other, name) || (other == userId && name == t.groups[groupId].name)
  {
    assert forall k :: k in t'.members <==> k in t.members || k == (userId, groupId);
  }

  lemma JoinedReach(t: Tables, t': Tables, userId: int, groupId: int, other: int)
    requires t' == t.(members := t'.members) && t'.members.Keys == t.members.Keys + {(userId, groupId)}
    ensures Decisions.Reachable(t', other)
            == Decisions.Reachable(t, other) + if other == userId then Decisions.GroupRules(t, groupId) else {}
  {
    assert forall k :: k in t'.members <==> k in t.members || k == (userId, groupId);
  }

  /** Leaving removes that membership and nothing else. */
  lemma LeaveGroupExactly(t: Tables, orgs: set<int>, ns: string, userId: int, groupId: int, e: Env)
    ensures var x := Perform(t, orgs, ns, ActLeaveGroup(userId, groupId), e);
            && x.out == Ok(Done) && x.t == t.(members := x.t.members)
            && (forall k :: k in x.t.members <==> k in t.members && k != (userId, groupId))
            && (forall k | k in x.t.members :: x.t.members[k] == t.members[k])
  {}

  // ----- groups and policies

  /** A group is created under the next id exactly when its name is no look-alike of `superadmin` in a tenant, is free
      in its organization, and fits. */
  lemma CreateGroupExactly(t: Tables, orgs: set<int>, ns: string, org: int, name: string, e: Env)
    ensures var x := Perform(t, orgs, ns, ActCreateGroup(org, name), e);
            if ns != "public" && LooksLike(name, "superadmin") then x == Tx(t, Err(SuperadminReserved))
            else if exists g | g in t.groups :: t.groups[g].name == name && t.groups[g].organizationId == org then
              x == Tx(t, Err(GroupExists))
            else if org in orgs && |name| <= 100 && t.nextGroup <= C.MAX_I64 then
              var row := Group(t.nextGroup, org, name);
              x == Tx(t.(groups := t.groups[t.nextGroup := row], nextGroup := t.nextGroup + 1), Ok(GroupShown(row)))
            else x == Tx(t, Err(Database))
  {
    hide Trim, GroupRows;
    GroupNameFree(t, name, org);
  }

  lemma NoneThere(ids: set<int>)
    requires forall i :: i !in ids
    ensures ids == {}
  {
    var x := AnyOf(ids);
    assert x !in ids;
  }

  lemma GroupNameFree(t: Tables, name: string, org: int)
    ensures GroupRows(t, name, org) == {} <==>
            forall g | g in t.groups :: t.groups[g].name != name || t.groups[g].organizationId != org
  {
    assert forall g :: g in GroupRows(t, name, org) <==>
        g in t.groups && t.groups[g].name == name && t.groups[g].organizationId == org;
    if forall g :: g !in GroupRows(t, name, org) { NoneThere(GroupRows(t, name, org)); }
  }

  lemma PolicyNameFree(t: Tables, name: string, org: int)
    ensures PolicyRows(t, name, org) == {} <==>
            forall p | p in t.policies :: t.policies[p].name != name || t.policies[p].organizationId != org
  {
    assert forall p :: p in PolicyRows(t, name, org) <==>
        p in t.policies && t.policies[p].name == name && t.policies[p].organizationId == org;
    if forall p :: p !in PolicyRows(t, name, org) { NoneThere(PolicyRows(t, name, org)); }
  }

  /** A policy is created under the next id exactly when its name is free, neither pattern is empty, and it fits; a
      tenant keeps the name free across organizations. */
  lemma CreatePolicyExactly(t: Tables, orgs: set<int>, ns: string, org: int, name: string, resource: string,
                            action: string, effect: Effect, e: Env)
    ensures var x := Perform(t, orgs, ns, ActCreatePolicy(org, name, resource, action, effect), e);
            if exists p | p in t.policies :: t.policies[p].name == name && t.policies[p].organizationId == org then
              x == Tx(t, Err(PolicyExists))
            else if resource == "" || action == "" then x == Tx(t, Err(EmptyPattern))
            else if org in orgs && |name| <= 100 && |resource| <= 255 && |action| <= 100 && t.nextPolicy <= C.MAX_I64
                    && (!t.global ==> forall p | p in t.policies :: t.policies[p].name != name) then
              var row := Policy(t.nextPolicy, org, name, resource, action, effect);
              x == Tx(t.(policies := t.policies[t.nextPolicy := row], nextPolicy := t.nextPolicy + 1),
                      Ok(PolicyShown(row)))
            else x == Tx(t, Err(Database))
  {
    hide PolicyRows;
    PolicyNameFree(t, name, org);
  }

  // ----- passwords

  /** An administrator's reset replaces the password and asks for a change; a missing user is no error. */
  lemma ResetUserPasswordExactly(t: Tables, orgs: set<int>, ns: string, userId: int, e: Env)
    ensures var x := Perform(t, orgs, ns, ActResetUserPassword(userId), e);
            && x.out == Ok(TemporaryPassword(e.temporaryPassword))
            && x.t == if userId !in t.users then t
                      else t.(users := t.users[userId := t.users[userId].(passwordHash := Argon2(e.temporaryPassword),
                                                                          firstLogin := true)])
  {
    if userId in t.users {
      var u := t.users[userId].(passwordHash := Argon2(e.temporaryPassword));
      assert t.users[userId := u][userId := u.(firstLogin := true)] == t.users[userId := u.(firstLogin := true)];
    }
  }

  /** Changing one's own password needs the row, a hash that parses, the current password and eight bytes. */
  lemma ChangePasswordExactly(t: Tables, orgs: set<int>, ns: string, userId: int, current: string, new_: string, e: Env)
    ensures var x := Perform(t, orgs, ns, ActChangePassword(userId, current, new_), e);
            if userId !in t.users then x == Tx(t, Err(UserNotFound))
            else if t.users[userId].passwordHash == Unparsable then x == Tx(t, Err(InvalidStoredHash))
            else if t.users[userId].passwordHash != Argon2(current) then x == Tx(t, Err(WrongPassword))
            else if Utf8Length(new_) < 8 then x == Tx(t, Err(PasswordTooShort))
            else x == Tx(t.(users := t.users[userId := t.users[userId].(passwordHash := Argon2(new_),
                                                                        firstLogin := false)]), Ok(Done))
  {
    hide Utf8Length;
    if userId in t.users {
      var u := t.users[userId].(passwordHash := Argon2(new_));
      assert t.users[userId := u][userId := u.(firstLogin := false)] == t.users[userId := u.(firstLogin := false)];
    }
  }

  /** The tables with a reset token for `userId` added, good for 24 hours. */
  predicate Mailed(t: Tables, userId: int, e: Env, x: Tx<Answer>) {
    if t.nextToken <= C.MAX_I64 && forall k | k in t.tokens :: t.tokens[k].token != e.resetToken then
      var row := ResetToken(t.nextToken, userId, e.resetToken, e.now + 24 * 3600 * 1_000_000, None);
      x == Tx(t.(tokens := t.tokens[t.nextToken := row], nextToken := t.nextToken + 1), Ok(ResetLink(e.resetToken)))
    else x == Tx(t, Err(Database))
  }

  /** A forgotten password is answered with a token for a user of that e-mail, in any case. */
  lemma ForgotPasswordExactly(t: Tables, orgs: set<int>, ns: string, email: string, e: Env)
    requires UsersOk(t)
    ensures var x := Perform(t, orgs, ns, ActForgotPassword(email), e);
            if exists u | u in t.users :: Lower(t.users[u].email) == Lower(email) then
              exists u | u in t.users :: Lower(t.users[u].email) == Lower(email) && Mailed(t, u, e, x)
            else x == Tx(t, Err(EmailNotFound))
  {
    assert forall u :: u in EmailRows(t, email) <==> u in t.users && Lower(t.users[u].email) == Lower(email);
    hide Lower, EmailRows;
    if FindByEmail(t, email, e.planner).Some? {
      var u := First(e.planner, EmailRows(t, email)).value;
      assert Mailed(t, u, e, Perform(t, orgs, ns, ActForgotPassword(email), e));
    }
  }

  /** An administrator's mail is for a user of the e-mail of the selected row. */
  lemma SendResetExactly(t: Tables, orgs: set<int>, ns: string, userId: int, e: Env)
    requires UsersOk(t)
    ensures var x := Perform(t, orgs, ns, ActSendReset(userId), e);
            if userId !in t.users then x == Tx(t, Err(UserNotFound))
            else exists u | u in t.users ::
                   Lower(t.users[u].email) == Lower(t.users[userId].email) && Mailed(t, u, e, x)
  {
    if userId in t.users { ForgotPasswordExactly(t, orgs, ns, t.users[userId].email, e); }
    hide Lower, Accounts.ForgotPassword, Mailed;
  }

  /** A reset takes the row of its text that is unused and not yet expired, replaces the password of its user by one of
      eight bytes or more, and uses the row up. */
  lemma ResetPasswordExactly(t: Tables, orgs: set<int>, ns: string, token: string, new_: string, e: Env)
    requires Valid(t)
    ensures var x := Perform(t, orgs, ns, ActResetPassword(token, new_), e);
            && (x.out.Err? ==> x.t == t)
            && (x.out == Err(InvalidResetToken) <==>
                forall k | k in t.tokens ::
                  t.tokens[k].token != token || t.tokens[k].usedAt.Some? || t.tokens[k].expiresAt <= e.now)
            && (x.out == Err(InvalidResetToken)
                || x.out == (if Utf8Length(new_) < 8 then Err(PasswordTooShort) else Ok(Done)))
            && forall k | x.out.Ok? && k in t.tokens && t.tokens[k].token == token ::
                 && t.tokens[k].userId in t.users
                 && var u := t.tokens[k].userId;
                    x.t == t.(users := t.users[u := t.users[u].(passwordHash := Argon2(new_))],
                              tokens := t.tokens[k := t.tokens[k].(usedAt := Some(e.now))])
  {
    hide Valid, Accounts.ResetPassword, Utf8Length;
    if k :| Resets.Good(t, k, token, e.now) {
      Resets.ResetExactly(t, token, new_, e, k);
      OneRowATextSays(t, k);
    } else {
      Resets.ResetExactly(t, token, new_, e, 0);
      forall k | k in t.tokens
        ensures t.tokens[k].token != token || t.tokens[k].usedAt.Some? || t.tokens[k].expiresAt <= e.now
      {
        assert !Resets.Good(t, k, token, e.now);
      }
    }
  }

  lemma OneRowATextSays(t: Tables, k: int)
    requires Valid(t) && k in t.tokens
    ensures t.tokens[k].userId in t.users && forall l | l in t.tokens
            && t.tokens[l].token == t.tokens[k].token :: l == k
  {}

  /** The clean-up removes exactly the reset tokens past their expiry. */
  lemma CleanupExactly(t: Tables, orgs: set<int>, ns: string, e: Env)
    ensures var x := Perform(t, orgs, ns, ActCleanup, e);
            && x.out == Ok(Done) && x.t == t.(tokens := x.t.tokens)
            && (forall k :: k in x.t.tokens <==> k in t.tokens && e.now <= t.tokens[k].expiresAt)
            && (forall k | k in x.t.tokens :: x.t.tokens[k] == t.tokens[k])
  {}

  // ----- profiles

  /** No other row has this e-mail or user name; a tenant compares e-mails as they are written. */
  predicate ProfileFree(t: Tables, self: int, email: string, username: string) {
    forall u | u in t.users && u != self ::
      && t.users[u].username != username
      && (if t.global then Lower(t.users[u].email) != Lower(email) else t.users[u].email != email)
  }

  lemma FreeProfilesFit(t: Tables, self: int, email: string, username: string)
    ensures ProfileFits(t, self, email, username) <==>
            |email| <= 255 && |username| <= 50 && ProfileFree(t, self, email, username)
  {
    hide Lower;
  }

  /** A profile update succeeds exactly for an existing row with values that are well-formed, fit and are free. */
  lemma UpdateUserExactly(t: Tables, orgs: set<int>, ns: string, userId: int, email: Option<string>,
                          username: Option<string>, flag: Option<bool>, e: Env)
    requires Valid(t)
    ensures var x := Perform(t, orgs, ns, ActUpdateUser(userId, email, username, flag), e);
            if userId !in t.users then x == Tx(t, Err(UserNotFound))
            else if email.Some? && !Email.IsEmail(email.value) then x == Tx(t, Err(InvalidEmail))
            else
              var row := t.users[userId].(
                email := if email.Some? then email.value else t.users[userId].email,
                username := if username.Some? then username.value else t.users[userId].username,
                firstLogin := if flag.Some? then flag.value else t.users[userId].firstLogin);
              if |row.email| <= 255 && |row.username| <= 50 && ProfileFree(t, userId, row.email, row.username) then
                && x.t == t.(users := t.users[userId := row])
                && x.out.Ok? && x.out.value.UserShown? && Shows(x.t, row, ns, x.out.value.user)
              else x == Tx(t, Err(Database))
  {
    hide Email.IsEmail, Valid, ProfileFree, ProfileFits, Accounts.Respond, Shows;
    Journeys.UpdateUserExactly(t, ns, userId, email, username, flag, e.planner);
    if userId in t.users {
      RowIsItsOwn(t, userId);
      var row := t.users[userId].(
        email := if email.Some? then email.value else t.users[userId].email,
        username := if username.Some? then username.value else t.users[userId].username,
        firstLogin := if flag.Some? then flag.value else t.users[userId].firstLogin);
      FreeProfilesFit(t, userId, row.email, row.username);
      ResponseShows(t.(users := t.users[userId := row]), row, ns, e.planner);
    }
  }

  lemma RowIsItsOwn(t: Tables, userId: int)
    requires Valid(t) && userId in t.users
    ensures t.users[userId].userId == userId
  {}

  /** The response shows the row, the groups it holds and the namespace. */
  ghost predicate Shows(t: Tables, row: User, ns: string, r: Accounts.UserResponse) {
    && r.userId == row.userId && r.email == row.email && r.username == row.username && r.firstLogin == row.firstLogin
    && r.organizationId == row.organizationId && r.namespace == ns
    && forall name :: name in r.groups <==> Staleness.HoldsIn(t, row.userId, name)
  }

  lemma ResponseShows(t: Tables, row: User, ns: string, q: Planner)
    ensures Shows(t, row, ns, Accounts.Respond(t, row, ns, q))
  {
    forall name ensures name in Accounts.Respond(t, row, ns, q).groups <==> Staleness.HoldsIn(t, row.userId, name) {
      Staleness.ResponseNamesMemberships(t, row, ns, q, name);
    }
    hide Accounts.GetUserGroupNames, Staleness.HoldsIn;
  }

  // ----- sessions

  /** A token for `row`, its groups of this moment and its namespace, good for an hour. */
  ghost predicate SpeaksFor(c: Jwt.Claims, t: Tables, row: User, ns: string, now: Instant) {
    && c.sub == Decimal.Print(row.userId) && c.email == row.email && c.username == row.username
    && c.namespace == ns && c.organizationId == row.organizationId && c.iss == "keyrunes"
    && c.iat == now / 1_000_000 && c.exp == now / 1_000_000 + 3600
    && forall name :: name in c.groups <==> Staleness.HoldsIn(t, row.userId, name)
  }

  lemma TokensSpeak(t: Tables, row: User, ns: string, q: Planner, now: Instant)
    ensures SpeaksFor(Accounts.TokenFor(Accounts.Respond(t, row, ns, q), now), t, row, ns, now)
  {
    ResponseShows(t, row, ns, q);
    hide Staleness.HoldsIn, Accounts.Respond;
  }

  /** A refreshed token speaks for the row and the memberships of now. */
  lemma RefreshExactly(t: Tables, orgs: set<int>, ns: string, userId: int, e: Env)
    requires UsersOk(t)
    ensures var x := Perform(t, orgs, ns, ActRefresh(userId), e);
            && x.t == t
            && if userId !in t.users then x.out == Err(UserNotFound)
               else x.out.Ok? && x.out.value.FreshToken? && SpeaksFor(x.out.value.token, t, t.users[userId], ns, e.now)
  {
    hide SpeaksFor;
    if userId in t.users { TokensSpeak(t, t.users[userId], ns, e.planner, e.now); }
    hide Accounts.Respond, Accounts.TokenFor;
  }

  /** The row has this e-mail in some case, or this user name when the identity is no e-mail. */
  predicate Named(t: Tables, u: int, identity: string) {
    && u in t.users
    && if Email.IsEmail(identity) then Lower(t.users[u].email) == Lower(identity) else t.users[u].username == identity
  }

  ghost predicate LoginOf(t: Tables, u: int, ns: string, password: string, now: Instant, out: Result<Answer, Error>)
    requires u in t.users
  {
    var row := t.users[u];
    if row.passwordHash == Unparsable then out == Err(InvalidStoredHash)
    else if row.passwordHash != Argon2(password) then out == Err(InvalidCredentials)
    else
      && out.Ok? && out.value.LoggedIn? && Shows(t, row, ns, out.value.auth.user)
      && SpeaksFor(out.value.auth.token, t, row, ns, now)
      && out.value.auth.requiresPasswordChange == row.firstLogin
  }

  lemma FoundIsNamed(t: Tables, identity: string, q: Planner) returns (u: int)
    ensures var found := Accounts.FindByIdentity(t, identity, q);
            if found.Some? then Named(t, u, identity) && found.value == t.users[u]
              else forall v :: !Named(t, v, identity)
  {
    hide Lower, Email.IsEmail;
    var rows := if Email.IsEmail(identity) then EmailRows(t, identity) else UsernameRows(t, identity);
    assert forall v :: v in rows <==> Named(t, v, identity);
    hide EmailRows, UsernameRows, Named;
    var first := First(q, rows);
    u := if first.Some? then first.value else 0;
  }

  lemma LoginGives(t: Tables, orgs: set<int>, ns: string, identity: string, password: string, e: Env, u: int)
    requires u in t.users && Accounts.FindByIdentity(t, identity, e.planner) == Some(t.users[u])
    ensures LoginOf(t, u, ns, password, e.now, Perform(t, orgs, ns, ActLogin(identity, password), e).out)
  {
    ResponseShows(t, t.users[u], ns, e.planner);
    TokensSpeak(t, t.users[u], ns, e.planner, e.now);
    hide SpeaksFor, Shows, Accounts.GetUserGroupNames, Accounts.TokenFor, Accounts.FindByIdentity;
  }

  /** A login is for a row so named, and opens a session exactly on its password. */
  lemma LoginExactly(t: Tables, orgs: set<int>, ns: string, identity: string, password: string, e: Env)
    ensures var x := Perform(t, orgs, ns, ActLogin(identity, password), e);
            && x.t == t
            && if exists u :: Named(t, u, identity) then
                 exists u :: Named(t, u, identity) && LoginOf(t, u, ns, password, e.now, x.out)
               else x.out == Err(InvalidCredentials)
  {
    hide Named, LoginOf, Accounts.FindByIdentity, Accounts.Respond;
    var u := FoundIsNamed(t, identity, e.planner);
    if Accounts.FindByIdentity(t, identity, e.planner).Some? {
      NamedIsStored(t, u, identity);
      LoginGives(t, orgs, ns, identity, password, e, u);
    }
  }

  lemma NamedIsStored(t: Tables, u: int, identity: string)
    requires Named(t, u, identity)
    ensures u in t.users
  {}

  // ----- new users

  /** Some row has the e-mail in some case. */
  predicate MailTaken(t: Tables, email: string) { exists u | u in t.users :: Lower(t.users[u].email) == Lower(email) }

  predicate NameTaken(t: Tables, username: string) { exists u | u in t.users :: t.users[u].username == username }

  lemma LookupsTell(t: Tables, email: string, username: string, q: Planner)
    ensures MailTaken(t, email) == FindByEmail(t, email, q).Some? == (EmailRows(t, email) != {})
    ensures NameTaken(t, username) == FindByUsername(t, username, q).Some? == (UsernameRows(t, username) != {})
  {
    assert forall u :: u in EmailRows(t, email) <==> u in t.users && Lower(t.users[u].email) == Lower(email);
    assert forall u :: u in UsernameRows(t, username) <==> u in t.users && t.users[u].username == username;
    hide Lower, EmailRows, UsernameRows;
    if !MailTaken(t, email) { NoneThere(EmailRows(t, email)); }
    if !NameTaken(t, username) { NoneThere(UsernameRows(t, username)); }
  }

  /** The stored row, and a response that names the groups asked for, which are those it holds. */
  ghost predicate Created(t: Tables, t': Tables, ns: string, f: Accounts.UserForm, asked: seq<string>,
                          r: Accounts.UserResponse) {
    var row := User(t.nextUser, f.organizationId, f.email, f.username, Argon2(f.password), f.firstLogin);
    && t'.users == t.users[t.nextUser := row] && t'.nextUser == t.nextUser + 1 && Shows(t', row, ns, r)
    && forall name :: name in r.groups <==> exists i | 0 <= i < |asked| :: Trim(asked[i]) == name
  }

  /** The names `create_user` resolves: those of the form, or `users`. */
  function AskedOf(groups: seq<string>): seq<string> { if groups == [] then ["users"] else groups }

  /** `create_user` refuses a taken e-mail, a taken user name and, in a tenant, a look-alike of `superadmin`, in this
      order and without effect. Behind that, and while ids last, it succeeds exactly when the columns, the organization,
      the names and the assigner are good. */
  lemma CreationExactly(t: Tables, orgs: set<int>, ns: string, f: Accounts.UserForm, adminId: Option<int>, e: Env)
    requires Valid(t) && t.nextUser <= C.MAX_I64 && Enrolment.Room(t, f.organizationId) <= C.MAX_I64 + 1
    ensures var x := Accounts.CreateUser(t, orgs, ns, f, adminId, e.planner);
            if MailTaken(t, f.email) then x == Tx(t, Err(EmailTaken))
            else if NameTaken(t, f.username) then x == Tx(t, Err(UsernameTaken))
            else if ns != "public" && exists i | 0 <= i < |f.groups| :: LooksLike(f.groups[i], "superadmin") then
              x == Tx(t, Err(SuperadminReserved))
            else
              && (x.out.Ok? <==>
                  && |f.email| <= 255 && |f.username| <= 50 && f.organizationId in orgs
                  && Enrolment.AllKnown(t, orgs, AskedOf(f.groups), f.organizationId)
                  && (adminId.Some? ==> adminId.value in t.users.Keys + {t.nextUser}))
              && (x.out.Ok? ==> Created(t, x.t, ns, f, AskedOf(f.groups), x.out.value))
  {
    LookupsTell(t, f.email, f.username, e.planner);
    CreationRefusals(t, orgs, ns, f, adminId, e.planner);
    Enrolment.CreateUserSucceedsExactly(t, orgs, ns, f, adminId, e.planner);
    ReservedLooks(ns, f.groups);
    hide Accounts.CreateUser, Valid, Enrolment.Room, Enrolment.AllKnown, EmailRows, UsernameRows, MailTaken, NameTaken,
      LooksLike, Accounts.ReservedIn, Created;
    if Accounts.CreateUser(t, orgs, ns, f, adminId, e.planner).out.Ok? {
      CreatedShows(t, orgs, ns, f, adminId, e.planner);
    }
  }

  /** The same as an administrator is answered. */
  lemma CreateUserExactly(t: Tables, orgs: set<int>, ns: string, f: Accounts.UserForm, adminId: Option<int>, e: Env)
    requires Valid(t) && t.nextUser <= C.MAX_I64 && Enrolment.Room(t, f.organizationId) <= C.MAX_I64 + 1
    ensures var x := Perform(t, orgs, ns, ActCreateUser(f, adminId), e);
            if MailTaken(t, f.email) then x == Tx(t, Err(EmailTaken))
            else if NameTaken(t, f.username) then x == Tx(t, Err(UsernameTaken))
            else if ns != "public" && exists i | 0 <= i < |f.groups| :: LooksLike(f.groups[i], "superadmin") then
              x == Tx(t, Err(SuperadminReserved))
            else
              && (x.out.Ok? <==>
                  && |f.email| <= 255 && |f.username| <= 50 && f.organizationId in orgs
                  && Enrolment.AllKnown(t, orgs, AskedOf(f.groups), f.organizationId)
                  && (adminId.Some? ==> adminId.value in t.users.Keys + {t.nextUser}))
              && (x.out.Ok? ==> x.out.value.UserShown? && Created(t, x.t, ns, f, AskedOf(f.groups), x.out.value.user))
  {
    CreationExactly(t, orgs, ns, f, adminId, e);
    hide Accounts.CreateUser, Valid, Enrolment.Room, Enrolment.AllKnown, MailTaken, NameTaken, LooksLike, Created;
  }

  lemma ReservedLooks(ns: string, groups: seq<string>)
    ensures (exists i | 0 <= i < |groups| :: Accounts.ReservedIn(ns, groups[i])) <==>
            ns != "public" && exists i | 0 <= i < |groups| :: LooksLike(groups[i], "superadmin")
  {
    assert forall i | 0 <= i < |groups| ::
        Accounts.ReservedIn(ns, groups[i]) <==> ns != "public" && LooksLike(groups[i], "superadmin");
    hide LooksLike, Accounts.ReservedIn;
  }

  lemma CreationRefusals(t: Tables, orgs: set<int>, ns: string, f: Accounts.UserForm, adminId: Option<int>, q: Planner)
    ensures var x := Accounts.CreateUser(t, orgs, ns, f, adminId, q);
            if FindByEmail(t, f.email, q).Some? then x == Tx(t, Err(EmailTaken))
            else if FindByUsername(t, f.username, q).Some? then x == Tx(t, Err(UsernameTaken))
            else if exists i | 0 <= i < |f.groups| ::
                      Accounts.ReservedIn(ns, f.groups[i]) then x == Tx(t, Err(SuperadminReserved))
            else true
  {
    hide FindByEmail, FindByUsername, Accounts.ReservedIn, Accounts.ResolveAll, Accounts.Enroll;
  }

  lemma CreatedShows(t: Tables, orgs: set<int>, ns: string, f: Accounts.UserForm, adminId: Option<int>, q: Planner)
    requires Valid(t) && Accounts.CreateUser(t, orgs, ns, f, adminId, q).out.Ok?
    ensures var x := Accounts.CreateUser(t, orgs, ns, f, adminId, q);
            Created(t, x.t, ns, f, AskedOf(f.groups), x.out.value)
  {
    hide Accounts.CreateUser, Accounts.Respond, Valid, Shows, EmailRows, UsernameRows;
    var x := Accounts.CreateUser(t, orgs, ns, f, adminId, q);
    Journeys.CreatedRow(t, orgs, ns, f, adminId, q);
    ResponseShows(x.t, x.t.users[t.nextUser], ns, q);
    Enrolment.CreateUserAnswersWanted(t, orgs, ns, f, adminId, q);
    hide Enrolment.Wanted;
    forall name ensures name in x.out.value.groups <==>
      exists i | 0 <= i < |AskedOf(f.groups)| :: Trim(AskedOf(f.groups)[i]) == name {
      WantedIsAsked(f.groups, name);
    }
  }

  lemma WantedIsAsked(groups: seq<string>, name: string)
    ensures name in Enrolment.Wanted(groups) <==>
            exists i | 0 <= i < |AskedOf(groups)| :: Trim(AskedOf(groups)[i]) == name
  {
    assert AskedOf(groups) == Accounts.OrUsers(groups);
    hide Trim;
  }

  /** The groups a registration asks for: the caller's choice, or those of the first user, or `users`. */
  function FirstGroups(t: Tables, ns: string, group: Option<string>): seq<string> {
    if group.Some? then [group.value]
    else if t.users == map[] then [if ns == "public" then "superadmin" else "admin", "users"]
    else ["users"]
  }

  ghost predicate Registered(t: Tables, ns: string, f: Accounts.UserForm, asked: seq<string>, now: Instant,
                             x: Tx<Answer>) {
    var row := User(t.nextUser, f.organizationId, f.email, f.username, Argon2(f.password), false);
    && x.out.Ok? && x.out.value.LoggedIn? && Created(t, x.t, ns, f, asked, x.out.value.auth.user)
    && SpeaksFor(x.out.value.auth.token, x.t, row, ns, now) && !x.out.value.auth.requiresPasswordChange
  }

  /** None of the names a registration resolves is reserved. */
  lemma RegistrationGroupsTell(t: Tables, ns: string, group: Option<string>)
    ensures var r := Accounts.RegistrationGroups(ns, group, |t.users|);
            if group.Some? && (LooksLike(group.value, "superadmin") || LooksLike(group.value, "admin")) then
              r == Err(PrivilegedGroup(group.value))
            else
              && r.Ok? && AskedOf(r.value) == FirstGroups(t, ns, group)
              && (ns != "public" ==> forall i | 0 <= i < |r.value| :: !LooksLike(r.value[i], "superadmin"))
  {
    C.DefaultNames();
    hide Trim;
  }

  lemma RegistrationSpeaks(t: Tables, orgs: set<int>, ns: string, f: Accounts.UserForm, asked: seq<string>, e: Env)
    requires Valid(t) && !f.firstLogin
    requires var x := Accounts.CreateUser(t, orgs, ns, f, None, e.planner);
             x.out.Ok? && Created(t, x.t, ns, f, asked, x.out.value)
    ensures var x := Accounts.CreateUser(t, orgs, ns, f, None, e.planner);
            Registered(t, ns, f, asked, e.now, Tx(x.t, Ok(LoggedIn(Accounts.Session(x.out.value, e.now)))))
  {
    hide Accounts.CreateUser, Accounts.Respond, Valid, SpeaksFor, EmailRows, UsernameRows, Shows;
    var x := Accounts.CreateUser(t, orgs, ns, f, None, e.planner);
    Journeys.CreatedRow(t, orgs, ns, f, None, e.planner);
    TokensSpeak(x.t, x.t.users[t.nextUser], ns, e.planner, e.now);
    ResponseShows(x.t, x.t.users[t.nextUser], ns, e.planner);
    assert x.out.value.firstLogin == false by { RespondedFlag(x.t, x.t.users[t.nextUser], ns, e.planner); }
    hide Accounts.TokenFor;
  }

  lemma RespondedFlag(t: Tables, u: User, ns: string, q: Planner)
    ensures Accounts.Respond(t, u, ns, q).firstLogin == u.firstLogin
  {}

  lemma FormGroupsDoNotShow(t: Tables, ns: string, f: Accounts.UserForm, groups: seq<string>, asked: seq<string>,
                            now: Instant, x: Tx<Answer>)
    ensures Registered(t, ns, f.(groups := groups), asked, now, x) == Registered(t, ns, f, asked, now, x)
  {
    hide SpeaksFor, Shows;
  }

  /** `register` refuses a privileged group, a malformed e-mail, a short password and whatever `create_user` refuses, in
      this order; the first four refusals and the taken values have no effect. A success stores the row and opens its
      session. */
  lemma RegisterExactly(t: Tables, orgs: set<int>, ns: string, org: int, email: string, username: string,
                        password: string, group: Option<string>, e: Env)
    requires Valid(t) && t.nextUser <= C.MAX_I64 && Enrolment.Room(t, org) <= C.MAX_I64 + 1
    ensures var x := Perform(t, orgs, ns, ActRegister(org, email, username, password, group), e);
            var asked := FirstGroups(t, ns, group);
            if group.Some? && (LooksLike(group.value, "superadmin") || LooksLike(group.value, "admin")) then
              x == Tx(t, Err(PrivilegedGroup(group.value)))
            else if !Email.IsEmail(email) then x == Tx(t, Err(InvalidEmail))
            else if Utf8Length(password) < 8 then x == Tx(t, Err(PasswordTooShort))
            else if MailTaken(t, email) then x == Tx(t, Err(EmailTaken))
            else if NameTaken(t, username) then x == Tx(t, Err(UsernameTaken))
            else if |email| <= 255 && |username| <= 50 && org in orgs && Enrolment.AllKnown(t, orgs, asked, org) then
              Registered(t, ns, Accounts.UserForm(org, email, username, password, asked, false), asked, e.now, x)
            else x.out.Err?
  {
    hide Email.IsEmail, Utf8Length, MailTaken, NameTaken, Valid, Enrolment.Room, Enrolment.AllKnown,
      Accounts.CreateUser, Created, SpeaksFor, LooksLike, Accounts.RegistrationGroups, FirstGroups, AskedOf,
      Registered, Accounts.Session;
    RegistrationGroupsTell(t, ns, group);
    var groups := Accounts.RegistrationGroups(ns, group, |t.users|);
    if groups.Ok? {
      var f := Accounts.UserForm(org, email, username, password, groups.value, false);
      CreationExactly(t, orgs, ns, f, None, e);
      if Accounts.CreateUser(t, orgs, ns, f, None, e.planner).out.Ok? {
        var x := Accounts.CreateUser(t, orgs, ns, f, None, e.planner);
        RegistrationSpeaks(t, orgs, ns, f, AskedOf(groups.value), e);
        FormGroupsDoNotShow(t, ns, f, AskedOf(groups.value), AskedOf(groups.value), e.now,
                            Tx(x.t, Ok(LoggedIn(Accounts.Session(x.out.value, e.now)))));
      }
    }
  }

  // ----- deleting users

  /** A link of somebody else names the user as the one who assigned it. */
  predicate CreditedElsewhere(t: Tables, userId: int) {
    || (exists k | k in t.members :: k.0 != userId && t.members[k] == Some(userId))
    || (exists k | k in t.userPolicies :: k.0 != userId && t.userPolicies[k] == Some(userId))
    || (exists k | k in t.groupPolicies :: t.groupPolicies[k] == Some(userId))
  }

  lemma DeleteUserExactly(t: Tables, orgs: set<int>, ns: string, userId: int, e: Env)
    requires Valid(t)
    ensures var x := Perform(t, orgs, ns, ActDeleteUser(userId), e);
            if userId !in t.users then x == Tx(t, Err(UserNotFound))
            else if CreditedElsewhere(t, userId) then x == Tx(t, Err(Database))
            else x == Tx(t.(users := t.users - {userId},
                            members := map k | k in t.members && k.0 != userId :: t.members[k],
                            userPolicies := map k | k in t.userPolicies && k.0 != userId :: t.userPolicies[k],
                            tokens := map k | k in t.tokens && t.tokens[k].userId != userId :: t.tokens[k]), Ok(Done))
  {
    if userId in t.users { Journeys.DeleteUserExactly(t, userId); }
    hide Valid, Erase;
  }

  // ----- decisions

  /** A pattern matches its own text, and with a star at its end every text that begins with the rest. */
  predicate PatternMatches(pattern: string, text: string) {
    pattern == text || (|pattern| > 0 && pattern[|pattern| - 1] == '*' && pattern[..|pattern| - 1] <= text)
  }

  /** Some policy of this effect, assigned to the user or to one of its groups, matches. An action is matched by itself
      or by a single star. */
  predicate RuledBy(t: Tables, userId: int, effect: Effect, resource: string, action: string) {
    exists p | p in t.policies ::
      && t.policies[p].effect == effect
      && PatternMatches(t.policies[p].resource, resource) && t.policies[p].action in {"*", action}
      && ((userId, p) in t.userPolicies || exists k | k in t.members :: k.0 == userId && (k.1, p) in t.groupPolicies)
  }

  lemma RuledByHits(t: Tables, userId: int, effect: Effect, resource: string, action: string)
    ensures RuledBy(t, userId, effect, resource, action) <==>
            Decisions.Hits(Decisions.Reachable(t, userId), effect, resource, action)
  {
    forall p | p in t.policies
      ensures p in ReachablePolicyIds(t, userId) <==>
              (userId, p) in t.userPolicies || exists k | k in t.members :: k.0 == userId && (k.1, p) in t.groupPolicies
    {
      if k :| k in t.members && k.0 == userId && (k.1, p) in t.groupPolicies {
        var l := (k.1, p);
        assert l in t.groupPolicies && l.1 == p && (userId, l.0) in t.members;
      }
    }
    forall p | p in t.policies
      ensures Decisions.MatchesPolicy(t.policies[p], resource, action) <==>
              PatternMatches(t.policies[p].resource, resource) && t.policies[p].action in {"*", action}
    {}
    hide PatternMatches, ReachablePolicyIds, Decisions.MatchesPolicy;
    if RuledBy(t, userId, effect, resource, action) {
      var p :| p in t.policies && t.policies[p].effect == effect && p in ReachablePolicyIds(t, userId)
               && Decisions.MatchesPolicy(t.policies[p], resource, action);
      assert t.policies[p] in Decisions.Reachable(t, userId);
    }
  }

  /** Who is asked about: an organization key gets `false` for a missing or foreign user, a global superadmin an error
      for a missing one. The decision itself is some ALLOW and no DENY, in the global schema only. */
  lemma CheckPermissionExactly(t: Tables, orgs: set<int>, ns: string, caller: Option<int>, userId: int,
                               resource: string, action: string, e: Env)
    ensures var x := Perform(t, orgs, ns, ActCheckPermission(caller, userId, resource, action), e);
            && x.t == t
            && x.out == (if userId !in t.users then if caller.Some? then Ok(Decision(false)) else Err(UserNotFound)
                         else if caller.Some? && t.users[userId].organizationId != caller.value then Ok(Decision(false))
                         else if !t.global then Err(Database)
                         else Ok(Decision(&& RuledBy(t, userId, Allow, resource, action)
                                          && !RuledBy(t, userId, Deny, resource, action))))
  {
    RuledByHits(t, userId, Allow, resource, action);
    RuledByHits(t, userId, Deny, resource, action);
    if t.global { Decisions.QueryListsReachable(t, userId, e.planner); }
    hide RuledBy, Decisions.Reachable, Decisions.Hits;
  }
}
