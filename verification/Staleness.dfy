/** How long a lost group membership can live on in tokens. */
module Staleness {
  import opened Wrappers
  import opened Environment
  import opened Tables
  import opened Requests
  import C = Constants
  import Accounts
  import Decimal
  import Jwt

  predicate Holds(w: World, ns: string, userId: int, group: string) {
    ns in w.db.schemas && HoldsIn(w.db.schemas[ns], userId, group)
  }

  predicate HoldsIn(t: Tables, userId: int, group: string) {
    exists g | g in t.groups :: t.groups[g].name == group && (userId, g) in t.members
  }

  /** `c` presents itself as user `userId` of `ns` and as a member of `group`. */
  predicate Claims(c: Jwt.Claims, ns: string, userId: int, group: string) {
    c.namespace == ns && c.sub == Decimal.Print(userId) && group in c.groups
  }

  predicate LifetimesBounded(w: World) {
    forall c | c in w.issued :: c.exp <= Seconds(w.now) + Jwt.TOKEN_TTL
  }

  /** A response names a group exactly when the user holds it. */
  lemma ResponseNamesMemberships(t: Tables, u: User, ns: string, q: Planner, group: string)
    ensures group in Accounts.Respond(t, u, ns, q).groups <==> HoldsIn(t, u.userId, group)
  {
    var rows := UserGroupIds(t, u.userId);
    var ids := All(q, rows);
    var names := Accounts.Respond(t, u, ns, q).groups;
    if group in names {
      var i :| 0 <= i < |names| && names[i] == group;
      assert ids[i] in rows;
    }
    if HoldsIn(t, u.userId, group) {
      var g :| g in t.groups && t.groups[g].name == group && (u.userId, g) in t.members;
      assert g in ids;
      var i :| 0 <= i < |ids| && ids[i] == g;
      assert names[i] == group;
    }
  }

  /** Whatever a request mints names, for the user it is made for, exactly the groups that user holds when the request
      ends. */
  lemma MintedClaimsAreCurrent(t: Tables, orgs: set<int>, ns: string, act: Act, e: Env, c: Jwt.Claims, m: string,
                               userId: int, group: string)
    requires var x := Perform(t, orgs, ns, act, e); x.out.Ok? && c in Minted(x.out.value)
    ensures c.exp == Seconds(e.now) + Jwt.TOKEN_TTL
    ensures c.sub == Decimal.Print(userId) ==>
              (Claims(c, m, userId, group) <==> m == ns && HoldsIn(Perform(t, orgs, ns, act, e).t, userId, group))
  {
    var x := Perform(t, orgs, ns, act, e);
    var u: User;
    match act {
      case ActRegister(org, email, username, password, g) =>
        u := RegisteredUser(t, orgs, ns, org, email, username, password, g, e);
      case ActLogin(identity, password) => u := Accounts.FindByIdentity(t, identity, e.planner).value;
      case ActRefresh(id) => u := t.users[id];
    }
    assert c == Accounts.TokenFor(Accounts.Respond(x.t, u, ns, e.planner), e.now);
    hide Perform, Accounts.GetUserGroupNames;
    ResponseNamesMemberships(x.t, u, ns, e.planner, group);
    if c.sub == Decimal.Print(userId) {
      Decimal.PrintInjective(u.userId, userId);
    }
  }

  /** The row behind a successful registration. */
  lemma RegisteredUser(t: Tables, orgs: set<int>, ns: string, org: int, email: string, username: string,
                       password: string, group: Option<string>, e: Env) returns (u: User)
    requires Accounts.Register(t, orgs, ns, org, email, username, password, group, e).out.Ok?
    ensures var x := Accounts.Register(t, orgs, ns, org, email, username, password, group, e);
            x.out.value == Accounts.Session(Accounts.Respond(x.t, u, ns, e.planner), e.now)
  {
    hide Accounts.AssignAll, Accounts.ResolveAll, Accounts.GetUserGroupNames, FindByEmail, FindByUsername, ProfileFits,
      C.IsPrivilegedGroup;
    var groups := Accounts.RegistrationGroups(ns, group, |t.users|).value;
    var f := Accounts.UserForm(org, email, username, password, groups, false);
    var x := Accounts.ResolveGroupIds(t, orgs, ns, groups, org, e.planner);
    u := InsertUser(x.t, orgs, NewUser(org, email, username, Argon2(password), false)).out.value;
  }

  /** A deleted user holds no group, and leaving the only group of a name ends the membership of that name. */
  lemma LosingMemberships(t: Tables, userId: int, groupId: int, group: string)
    requires forall g | g in t.groups && t.groups[g].name == group && (userId, g) in t.members :: g == groupId
    ensures !HoldsIn(RemoveUserFromGroup(t, userId, groupId).t, userId, group)
    ensures EraseUser(t, userId).out.Ok? ==> forall name :: !HoldsIn(EraseUser(t, userId).t, userId, name)
  {}

  lemma StepMintsCurrent(w: World, ev: Event, w': World, a: Answer, c: Jwt.Claims, ns: string, userId: int,
                         group: string)
    requires Step(w, ev, w', a) && c in w'.issued && c !in w.issued
    ensures c.exp == Seconds(w'.now) + Jwt.TOKEN_TTL
    ensures Claims(c, ns, userId, group) ==> Holds(w', ns, userId, group)
  {
    var plan := PlanOf(w, ev.request, ev.env);
    assert c in Minted(a);
    assert plan.InSchema? && plan.ns in w.db.schemas;
    MintedClaimsAreCurrent(w.db.schemas[plan.ns], w.db.orgs.Keys, plan.ns, plan.act, ev.env, c, ns, userId, group);
  }

  lemma {:induction false} LifetimesStayBounded(tr: Trace, j: nat)
    requires IsRun(tr) && j < |tr.worlds|
    requires LifetimesBounded(tr.worlds[0])
    ensures LifetimesBounded(tr.worlds[j])
  {
    if j > 0 {
      LifetimesStayBounded(tr, j - 1);
      var w, ev, w', a := tr.worlds[j - 1], tr.events[j - 1], tr.worlds[j], tr.answers[j - 1];
      assert Step(w, ev, tr.worlds[j - 1 + 1], a);
      forall c | c in w'.issued ensures c.exp <= Seconds(w'.now) + Jwt.TOKEN_TTL {
        if c !in w.issued { StepMintsCurrent(w, ev, w', a, c, "", 0, ""); }
      }
    }
  }

  lemma BoundedLifetime(w: World, c: Jwt.Claims)
    requires LifetimesBounded(w) && c in w.issued
    ensures c.exp <= Seconds(w.now) + Jwt.TOKEN_TTL
  {}

  /** While a membership stays lost, every token that claims it was issued no later than the loss. */
  lemma {:induction false} ClaimingTokensPredateLoss(tr: Trace, i: nat, j: nat, ns: string, userId: int, group: string,
                                                     c: Jwt.Claims)
    requires IsRun(tr) && i <= j < |tr.worlds|
    requires LifetimesBounded(tr.worlds[0])
    requires forall k | i <= k <= j :: !Holds(tr.worlds[k], ns, userId, group)
    requires c in tr.worlds[j].issued && Claims(c, ns, userId, group)
    ensures c.exp <= Seconds(tr.worlds[i].now) + Jwt.TOKEN_TTL
    decreases j - i
  {
    hide Apply, Holds, Claims, LifetimesBounded;
    if i == j {
      LifetimesStayBounded(tr, i);
      BoundedLifetime(tr.worlds[i], c);
    } else {
      assert Step(tr.worlds[j - 1], tr.events[j - 1], tr.worlds[j - 1 + 1], tr.answers[j - 1]);
      if c !in tr.worlds[j - 1].issued {
        StepMintsCurrent(tr.worlds[j - 1], tr.events[j - 1], tr.worlds[j], tr.answers[j - 1], c, ns, userId, group);
      }
      ClaimingTokensPredateLoss(tr, i, j - 1, ns, userId, group, c);
    }
  }

  const LIFETIME := 1_000_000 * Jwt.TOKEN_TTL

  /** Bounded staleness: one hour after user `userId` of `ns` is seen without `group`, and as long as the membership
      does not come back, no token is accepted that still claims it. A deleted user holds no group at all. */
  lemma BoundedStaleness(tr: Trace, i: nat, j: nat, ns: string, userId: int, group: string, c: Jwt.Claims, now: Instant)
    requires IsRun(tr) && i <= j < |tr.worlds|
    requires LifetimesBounded(tr.worlds[0])
    requires forall k | i <= k <= j :: !Holds(tr.worlds[k], ns, userId, group)
    requires Claims(c, ns, userId, group)
    requires now >= tr.worlds[i].now + LIFETIME
    ensures !Accepts(tr.worlds[j], c, now)
  {
    if c in tr.worlds[j].issued {
      ClaimingTokensPredateLoss(tr, i, j, ns, userId, group, c);
    }
  }
}
