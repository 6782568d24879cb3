/** Password reset tokens when each request is one step. */
module Resets {
  import opened Wrappers
  import opened Text
  import opened Environment
  import opened Tables
  import opened Constraints
  import opened Organizations
  import opened Requests
  import opened Integrity
  import opened Steps
  import opened ResetRaces
  import C = Constants
  import Accounts
  import Granularity

  /** Row `k` carries `token` and is good at `now`: unused, and `now` is strictly before its expiry. */
  predicate Good(t: Tables, k: int, token: string, now: int) {
    k in t.tokens && t.tokens[k].token == token && t.tokens[k].usedAt == None && now < t.tokens[k].expiresAt
  }

  /** The tables with one password replaced and one token used. */
  function ResetBy(t: Tables, k: int, new_: string, now: int): Tables
    requires k in t.tokens && t.tokens[k].userId in t.users
  {
    var u := t.tokens[k].userId;
    t.(users := t.users[u := t.users[u].(passwordHash := Argon2(new_))],
       tokens := t.tokens[k := t.tokens[k].(usedAt := Some(now))])
  }

  /** What a reset does, whichever row the database picks: it succeeds exactly on a good token with a long enough
      password, and then changes its issuee's password and its own `used_at`, nothing else. Otherwise nothing
      changes. */
  lemma ResetExactly(t: Tables, token: string, new_: string, e: Env, k: int)
    requires Valid(t)
    ensures var x := Accounts.ResetPassword(t, token, new_, e);
            Good(t, k, token, e.now) ==>
              x == (if Utf8Length(new_) >= C.MIN_PASSWORD_LENGTH then Tx(ResetBy(t, k, new_, e.now), Ok(()))
                    else Tx(t, Err(PasswordTooShort)))
    ensures (forall l :: !Good(t, l, token, e.now)) ==>
              Accounts.ResetPassword(t, token, new_, e) == Tx(t, Err(InvalidResetToken))
  {
    var rows := ValidTokenRows(t, token, e.now);
    assert forall l :: l in rows <==> Good(t, l, token, e.now);
    match First(e.planner, rows) {
      case None =>
      case Some(l) =>
        assert Good(t, l, token, e.now);
        assert t.tokens[l].tokenId == l && t.tokens[l].userId in t.users;
        if Good(t, k, token, e.now) { assert k == l; }
    }
  }

  /** A password that is too short leaves the token as good as it was. */
  lemma ShortPasswordConsumesNothing(t: Tables, token: string, short: string, long: string, e: Env)
    requires Utf8Length(short) < C.MIN_PASSWORD_LENGTH
    ensures Accounts.ResetPassword(t, token, short, e).t == t
    ensures Accounts.ResetPassword(Accounts.ResetPassword(t, token, short, e).t, token, long, e) ==
            Accounts.ResetPassword(t, token, long, e)
  {}

  // ----- over runs

  lemma AgesCompose(t: Tables, t': Tables, t'': Tables, random: string)
    requires TokensAge(t, t', random) && TokensAge(t', t'', random)
    ensures TokensAge(t, t'', random)
  {}

  lemma {:induction false} DriveAges(t: Tables, orgs: set<int>, ns: string, l: Local, e: Env)
    requires Numbered(t)
    ensures TokensAge(t, Drive(t, orgs, ns, l, e).t, e.resetToken)
    decreases Left(l)
  {
    hide TokensAge, Numbered, Advance;
    if l.Finished? {
      SelfAges(t, e.resetToken);
    } else {
      AdvanceProgresses(t, orgs, ns, l, e);
      var (t', l') := Advance(t, orgs, ns, l, e);
      AdvanceAgesTokens(t, orgs, ns, l, e);
      assert Numbered(t') by { NumberedBehind(t, t', e.resetToken); }
      DriveAges(t', orgs, ns, l', e);
      AgesCompose(t, t', Drive(t', orgs, ns, l', e).t, e.resetToken);
    }
  }

  lemma SelfAges(t: Tables, random: string)
    requires Numbered(t)
    ensures TokensAge(t, t, random)
  {}

  lemma NumberedBehind(t: Tables, t': Tables, random: string)
    requires TokensAge(t, t', random)
    ensures Numbered(t')
  {}

  lemma PerformAges(t: Tables, orgs: set<int>, ns: string, act: Act, e: Env)
    requires Numbered(t)
    ensures TokensAge(t, Perform(t, orgs, ns, act, e).t, e.resetToken)
  {
    hide TokensAge, Numbered, Perform, Drive, Start;
    DriveAges(t, orgs, ns, Start(ns, act, e), e);
    Granularity.UninterruptedIsAtomic(t, orgs, ns, act, e);
  }

  lemma {:induction false} SeedAges(t: Tables, orgs: set<int>, names: seq<string>, org: int, q: Planner)
    ensures SeedGroups(t, orgs, names, org, q).t.tokens == t.tokens
    decreases |names|
  {
    if names != [] {
      var rest := if FindGroupByName(t, names[0], org, q).Some? then t else InsertGroup(t, orgs, names[0], org).t;
      SeedAges(rest, orgs, names[1..], org, q);
    }
  }

  predicate AllNumbered(d: Db) { forall ns | ns in d.schemas :: Numbered(d.schemas[ns]) }

  /** Tokens age through every request, whoever sends it; a schema that is new has none. */
  lemma StepAges(w: World, ev: Event, w': World, a: Answer, ns: string)
    requires AllNumbered(w.db) && Step(w, ev, w', a)
    ensures ns in w.db.schemas ==>
              ns in w'.db.schemas && TokensAge(w.db.schemas[ns], w'.db.schemas[ns], ev.env.resetToken)
    ensures ns !in w.db.schemas && ns in w'.db.schemas ==> w'.db.schemas[ns].tokens == map[]
  {
    hide TokensAge, Numbered, Perform, SeedGroups, DropOrganization, PlanOf, Minted;
    if ns in w.db.schemas { SelfAges(w.db.schemas[ns], ev.env.resetToken); }
    match PlanOf(w, ev.request, ev.env) {
      case InSchema(home, act) =>
        if home in w.db.schemas { PerformAges(w.db.schemas[home], w.db.orgs.Keys, home, act, ev.env); }
      case OnOrganizations(OrgCreate(name, created)) =>
        var x := InsertOrganization(w.db, name, created, ev.env.key);
        if x.out.Ok? {
          SeedAges(Empty(false), x.db.orgs.Keys, DEFAULT_GROUPS, x.out.value.organizationId, ev.env.planner);
        }
      case OnOrganizations(OrgDelete(id)) =>
        if ns in w.db.schemas { DropAgesTokens(w.db.schemas[ns], id, ev.env.resetToken); }
      case _ =>
    }
  }

  /** No row with this text is unused, and none will come. */
  predicate Closed(w: World, ns: string, token: string) {
    && token in w.resetTokens
    && (ns in w.db.schemas ==>
          forall k | k in w.db.schemas[ns].tokens && w.db.schemas[ns].tokens[k].token == token ::
            w.db.schemas[ns].tokens[k].usedAt.Some?)
  }

  lemma StepKeepsClosed(w: World, ev: Event, w': World, a: Answer, ns: string, token: string)
    requires AllNumbered(w.db) && Step(w, ev, w', a) && Closed(w, ns, token)
    ensures Closed(w', ns, token)
  {
    hide Execute, PlanOf, Unique, AllNumbered;
    StepAges(w, ev, w', a, ns);
  }

  /** In a valid schema a successful reset uses up the only row with its token. */
  lemma SuccessUsesToken(t: Tables, token: string, new_: string, e: Env)
    requires Valid(t) && Accounts.ResetPassword(t, token, new_, e).out.Ok?
    ensures exists k | k in t.tokens :: t.tokens[k].token == token
    ensures var t' := Accounts.ResetPassword(t, token, new_, e).t;
            forall k | k in t'.tokens && t'.tokens[k].token == token :: t'.tokens[k].usedAt.Some?
  {}

  /** A successful reset closes its token. */
  lemma SuccessCloses(w: World, ev: Event, w': World, a: Answer, ns: string, token: string, new_: string)
    requires DbOk(w.db) && Step(w, ev, w', a) && TokensKnown(w)
    requires ev.request == ResetPassword(ns, token, new_) && a == Done
    ensures Closed(w', ns, token)
  {
    hide OrganizationsOk, Valid, Accounts.ResetPassword;
    SuccessUsesToken(w.db.schemas[ns], token, new_, ev.env);
  }

  /** Every token text was made here. */
  predicate TokensKnown(w: World) {
    forall ns, k | ns in w.db.schemas && k in w.db.schemas[ns].tokens ::
      w.db.schemas[ns].tokens[k].token in w.resetTokens
  }

  lemma StepKeepsKnown(w: World, ev: Event, w': World, a: Answer)
    requires AllNumbered(w.db) && Step(w, ev, w', a) && TokensKnown(w)
    ensures TokensKnown(w')
  {
    hide Execute, PlanOf, Unique, AllNumbered;
    forall ns, k | ns in w'.db.schemas
      && k in w'.db.schemas[ns].tokens ensures w'.db.schemas[ns].tokens[k].token in w'.resetTokens {
      StepAges(w, ev, w', a, ns);
    }
  }

  lemma DbOkIsNumbered(d: Db)
    requires DbOk(d)
    ensures AllNumbered(d)
  {}

  lemma {:induction false} RunKeepsKnown(tr: Trace, j: nat)
    requires IsRun(tr) && j < |tr.worlds| && DbOk(tr.worlds[0].db) && TokensKnown(tr.worlds[0])
    ensures TokensKnown(tr.worlds[j])
  {
    hide DbOk, TokensKnown, AllNumbered;
    if j > 0 {
      RunKeepsKnown(tr, j - 1);
      RunKeepsDbOk(tr, j - 1);
      DbOkIsNumbered(tr.worlds[j - 1].db);
      assert Step(tr.worlds[j - 1], tr.events[j - 1], tr.worlds[j - 1 + 1], tr.answers[j - 1]);
      StepKeepsKnown(tr.worlds[j - 1], tr.events[j - 1], tr.worlds[j], tr.answers[j - 1]);
    }
  }

  lemma {:induction false} SuccessClosesForGood(tr: Trace, i: nat, j: nat, ns: string, token: string, new_: string)
    requires IsRun(tr) && i < j < |tr.worlds| && DbOk(tr.worlds[0].db) && TokensKnown(tr.worlds[0])
    requires tr.events[i].request == ResetPassword(ns, token, new_) && tr.answers[i] == Done
    ensures Closed(tr.worlds[j], ns, token)
    decreases j - i
  {
    hide DbOk, TokensKnown, AllNumbered, Closed, Step;
    RunKeepsDbOk(tr, j - 1);
    assert Step(tr.worlds[j - 1], tr.events[j - 1], tr.worlds[j - 1 + 1], tr.answers[j - 1]);
    if j == i + 1 {
      RunKeepsKnown(tr, i);
      SuccessCloses(tr.worlds[i], tr.events[i], tr.worlds[j], tr.answers[i], ns, token, new_);
    } else {
      SuccessClosesForGood(tr, i, j - 1, ns, token, new_);
      DbOkIsNumbered(tr.worlds[j - 1].db);
      StepKeepsClosed(tr.worlds[j - 1], tr.events[j - 1], tr.worlds[j], tr.answers[j - 1], ns, token);
    }
  }

  /** A token resets a password at most once: every later attempt is refused and changes nothing. */
  lemma ResetAtMostOnce(tr: Trace, i: nat, j: nat, ns: string, token: string, first: string, second: string)
    requires IsRun(tr) && i < j < |tr.events| && DbOk(tr.worlds[0].db) && TokensKnown(tr.worlds[0])
    requires tr.events[i].request == ResetPassword(ns, token, first) && tr.answers[i] == Done
    requires tr.events[j].request == ResetPassword(ns, token, second)
    ensures tr.answers[j] == Failed(InvalidResetToken) && tr.worlds[j + 1].db == tr.worlds[j].db
  {
    hide DbOk, TokensKnown;
    SuccessClosesForGood(tr, i, j, ns, token, first);
    var w, e := tr.worlds[j], tr.events[j].env;
    assert Step(w, tr.events[j], tr.worlds[j + 1], tr.answers[j]);
    RunKeepsSchema(tr, i, j, ns);
    assert ValidTokenRows(w.db.schemas[ns], token, e.now) == {};
    assert w.db.schemas[ns := w.db.schemas[ns]] == w.db.schemas;
  }

  /** A schema that answered once is there for good. */
  lemma {:induction false} RunKeepsSchema(tr: Trace, i: nat, j: nat, ns: string)
    requires IsRun(tr) && i <= j < |tr.worlds| && i < |tr.events|
    requires tr.events[i].request.ResetPassword? && tr.events[i].request.ns == ns && tr.answers[i] == Done
    ensures ns in tr.worlds[j].db.schemas
  {
    hide PlanCall;
    if i == j {
      assert Step(tr.worlds[i], tr.events[i], tr.worlds[i + 1], tr.answers[i]);
    } else {
      RunKeepsSchema(tr, i, j - 1, ns);
      assert Step(tr.worlds[j - 1], tr.events[j - 1], tr.worlds[j - 1 + 1], tr.answers[j - 1]);
    }
  }
}
