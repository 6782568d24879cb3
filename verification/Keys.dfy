/** Organization keys against the history of the keys handed out. */
module Keys {
  import opened Wrappers
  import opened Environment
  import opened Tables
  import opened Constraints
  import opened Organizations
  import opened Requests
  import opened Integrity
  import C = Constants
  import Accounts
  import Decisions

  /** The key of each organization. */
  type Book = map<int, int>

  function StoredKeys(orgs: map<int, Organization>): Book {
    map o | o in orgs :: orgs[o].secretKey
  }

  /** What the answer to one request says about keys. Rotating the key of an organization that is not there hands out
      a key nobody owns. */
  function Noted(book: Book, r: Request, a: Answer): Book {
    match a
    case OrganizationShown(o) =>
      if r.Bearer? && r.call.CreateOrganization? then book[o.organizationId := o.secretKey] else book
    case NewKey(id, key) => if id in book then book[id := key] else book
    case Done => if r.Bearer? && r.call.DeleteOrganization? then book - {r.call.organizationId} else book
    case _ => book
  }

  lemma SeedingSucceeds(orgs: set<int>, org: int, q: Planner)
    requires org in orgs
    ensures SeedGroups(Empty(false), orgs, DEFAULT_GROUPS, org, q).out == Ok(())
  {
    var t := Empty(false);
    var x := InsertGroup(t, orgs, C.ADMIN_GROUP, org);
    assert DEFAULT_GROUPS[1..] == [C.USERS_GROUP];
    assert GroupRows(t, C.ADMIN_GROUP, org) == {};
    assert C.ADMIN_GROUP[0] != C.USERS_GROUP[0];
    assert GroupRows(x.t, C.USERS_GROUP, org) == {};
    assert SeedGroups(x.t, orgs, [C.USERS_GROUP], org, q).out == Ok(()) by {
      assert [C.USERS_GROUP][1..] == [];
    }
  }

  lemma CreationNotes(d: Db, name: string, ns: string, e: Env)
    ensures var x := CreateOrg(d, name, ns, e);
            StoredKeys(x.db.orgs) ==
            if x.out.Ok? then StoredKeys(d.orgs)[x.out.value.organizationId := x.out.value.secretKey]
              else StoredKeys(d.orgs)
  {
    hide SeedGroups;
    var x := InsertOrganization(d, name, ns, e.key);
    if x.out.Ok? { SeedingSucceeds(x.db.orgs.Keys, x.out.value.organizationId, e.planner); }
  }

  lemma RotationNotes(d: Db, id: int, key: int)
    ensures var x := RotateSecretKey(d, id, key);
            StoredKeys(x.db.orgs) == if x.out.Ok? && id in d.orgs then StoredKeys(d.orgs)[id := key]
              else StoredKeys(d.orgs)
    ensures RotateSecretKey(d, id, key).out.Ok? ==> RotateSecretKey(d, id, key).out.value == key
  {}

  lemma DeletionNotes(d: Db, id: int)
    ensures var x := Organizations.DeleteOrganization(d, id);
            StoredKeys(x.db.orgs) == if x.out.Ok? then StoredKeys(d.orgs) - {id} else StoredKeys(d.orgs)
  {}

  /** Which organization act a request can lead to. */
  lemma PlannedOrgActs(w: World, r: Request, e: Env)
    ensures var p := PlanOf(w, r, e);
            p.OnOrganizations? ==>
              && r.Bearer?
              && (p.orgAct.OrgCreate? <==> r.call.CreateOrganization?)
              && (p.orgAct.OrgDelete? <==> r.call.DeleteOrganization?)
              && (p.orgAct.OrgDelete? ==> p.orgAct.organizationId == r.call.organizationId)
  {
    hide FromClaims, OwnOrganization, Accepts;
  }

  /** No act inside a schema answers with a key, or answers a deletion. */
  lemma SchemaActsShowNoKey(w: World, r: Request, e: Env, ns: string, act: Act)
    requires PlanOf(w, r, e) == InSchema(ns, act)
    ensures !(r.Bearer? && (r.call.CreateOrganization? || r.call.DeleteOrganization?))
  {}

  lemma ActsAnswerNoKey(t: Tables, orgs: set<int>, ns: string, act: Act, e: Env)
    ensures var a := AnswerOf(Perform(t, orgs, ns, act, e).out); !a.NewKey? && !a.OrganizationShown?
  {
    hide Accounts.CreateUser, Accounts.Register, Accounts.Login, Accounts.UpdateUser, Accounts.ForgotPassword,
      Accounts.ResetPassword, Accounts.SendReset, Accounts.ChangePassword, Accounts.RefreshTokenForUser,
      Accounts.CreateGroup, Accounts.JoinGroup, Accounts.CreatePolicy, Decisions.CheckPermission, EraseUser;
  }

  /** The stored keys after a request are those before it with what its answer says. */
  lemma StepNotes(w: World, ev: Event, w': World, a: Answer)
    requires Step(w, ev, w', a)
    ensures StoredKeys(w'.db.orgs) == Noted(StoredKeys(w.db.orgs), ev.request, a)
  {
    hide PlanOf, Perform, CreateOrg, Organizations.DeleteOrganization, RotateSecretKey;
    PlannedOrgActs(w, ev.request, ev.env);
    match PlanOf(w, ev.request, ev.env) {
      case Refuse(_) =>
      case InSchema(ns, act) =>
        SchemaActsShowNoKey(w, ev.request, ev.env, ns, act);
        if ns in w.db.schemas { ActsAnswerNoKey(w.db.schemas[ns], w.db.orgs.Keys, ns, act, ev.env); }
      case OnOrganizations(OrgCreate(name, ns)) => CreationNotes(w.db, name, ns, ev.env);
      case OnOrganizations(OrgRotate(id)) => RotationNotes(w.db, id, ev.env.key);
      case OnOrganizations(OrgDelete(id)) => DeletionNotes(w.db, id);
      case OnOrganizations(_) =>
    }
  }

  /** The last key handed out to each organization, as the answers of the first `j` requests tell it. */
  function LastIssued(tr: Trace, j: nat): Book
    requires j <= |tr.events| && |tr.worlds| == |tr.events| + 1 && |tr.answers| == |tr.events|
  {
    if j == 0 then StoredKeys(tr.worlds[0].db.orgs)
      else Noted(LastIssued(tr, j - 1), tr.events[j - 1].request, tr.answers[j - 1])
  }

  lemma {:induction false} StoredKeysAreLastIssued(tr: Trace, j: nat)
    requires IsRun(tr) && j < |tr.worlds|
    ensures StoredKeys(tr.worlds[j].db.orgs) == LastIssued(tr, j)
  {
    hide Noted, StoredKeys, Step;
    if j > 0 {
      StoredKeysAreLastIssued(tr, j - 1);
      assert Step(tr.worlds[j - 1], tr.events[j - 1], tr.worlds[j - 1 + 1], tr.answers[j - 1]);
      StepNotes(tr.worlds[j - 1], tr.events[j - 1], tr.worlds[j], tr.answers[j - 1]);
    }
  }

  /** A key authenticates exactly when it is the last one issued to an organization that still exists,
      and then resolves to that very organization, however the row is picked. */
  lemma KeyAuthenticatesExactly(tr: Trace, j: nat, key: int, q: Planner)
    requires IsRun(tr) && j < |tr.worlds| && DbOk(tr.worlds[0].db)
    ensures var book, found := LastIssued(tr, j), FindBySecretKey(tr.worlds[j].db.orgs, key, q);
            && (found.Some? <==> exists o | o in book :: book[o] == key)
            && (forall o | o in book && book[o] == key :: found.Some? && found.value.organizationId == o)
  {
    hide LastIssued, DbOk, Step;
    StoredKeysAreLastIssued(tr, j);
    RunKeepsDbOk(tr, j);
    var orgs := tr.worlds[j].db.orgs;
    KeysAreUnique(tr.worlds[j].db);
    var book := LastIssued(tr, j);
    assert forall o :: o in KeyRows(orgs, key) <==> o in book && book[o] == key;
  }

  lemma KeysAreUnique(d: Db)
    requires DbOk(d)
    ensures forall o | o in d.orgs :: d.orgs[o].organizationId == o
    ensures forall o, p | o in d.orgs && p in d.orgs && d.orgs[o].secretKey == d.orgs[p].secretKey :: o == p
  {}

  /** Rotation: the organization answers to its new key only, every other organization to its old one. */
  lemma RotationAffectsOneOrganization(tr: Trace, j: nat, id: int, key: int, old_: int, q: Planner)
    requires IsRun(tr) && j < |tr.events| && DbOk(tr.worlds[0].db)
    requires tr.answers[j] == NewKey(id, key) && id in tr.worlds[j].db.orgs
    ensures var before, after := tr.worlds[j].db.orgs, tr.worlds[j + 1].db.orgs;
            && FindBySecretKey(after, key, q) == Some(before[id].(secretKey := key))
            && (old_ == before[id].secretKey && old_ != key ==> FindBySecretKey(after, old_, q) == None)
            && forall o | o in before && o != id :: FindBySecretKey(after, before[o].secretKey, q) == Some(before[o])
  {
    hide DbOk, Step;
    RunKeepsDbOk(tr, j);
    RunKeepsDbOk(tr, j + 1);
    KeysAreUnique(tr.worlds[j].db);
    KeysAreUnique(tr.worlds[j + 1].db);
    RotatedRows(tr, j, id, key);
    var before, after := tr.worlds[j].db.orgs, tr.worlds[j + 1].db.orgs;
    OwnersOf(after, key);
    assert id in KeyRows(after, key) && after[id] == before[id].(secretKey := key);
    forall o | o in before && o != id ensures FindBySecretKey(after, before[o].secretKey, q) == Some(before[o]) {
      assert after[o] == before[o];
      OwnersOf(after, before[o].secretKey);
    }
    OwnersOf(after, old_);
  }

  lemma OwnersOf(orgs: map<int, Organization>, key: int)
    ensures forall o :: o in KeyRows(orgs, key) <==> o in orgs && orgs[o].secretKey == key
  {}

  lemma RotatedRows(tr: Trace, j: nat, id: int, key: int)
    requires IsRun(tr) && j < |tr.events| && tr.answers[j] == NewKey(id, key) && id in tr.worlds[j].db.orgs
    ensures tr.worlds[j + 1].db.orgs == tr.worlds[j].db.orgs[id := tr.worlds[j].db.orgs[id].(secretKey := key)]
  {
    hide PlanOf, Perform, CreateOrg, Organizations.DeleteOrganization;
    var w, ev := tr.worlds[j], tr.events[j];
    assert Step(w, ev, tr.worlds[j + 1], tr.answers[j]);
    match PlanOf(w, ev.request, ev.env) {
      case InSchema(ns, act) =>
        if ns in w.db.schemas { ActsAnswerNoKey(w.db.schemas[ns], w.db.orgs.Keys, ns, act, ev.env); }
      case _ =>
    }
  }

  /** An organization-key caller, end to end: an unknown key is refused; a known one is answered for users of its own
      schema and organization, and in the global schema with the decision over all policies the user reaches. */
  lemma KeyHolderDecision(w: World, key: int, userId: int, resource: string, action: string, e: Env)
    requires DbOk(w.db)
    ensures var a := Apply(w, CheckPermission(Key(key), userId, resource, action), e).1;
            match FindBySecretKey(w.db.orgs, key, e.planner)
            case None => a == Failed(Unauthorized)
            case Some(o) =>
              var t := w.db.schemas[o.namespace];
              if userId !in t.users || t.users[userId].organizationId != o.organizationId then a == Decision(false)
              else if o.namespace != C.DEFAULT_NAMESPACE then a == Failed(Database)
              else a == Decision(
                && Decisions.Hits(Decisions.Reachable(t, userId), Allow, resource, action)
                && !Decisions.Hits(Decisions.Reachable(t, userId), Deny, resource, action))
  {
    hide Valid, Decisions.CheckPermission, Decisions.Hits, Decisions.Reachable;
    match FindBySecretKey(w.db.orgs, key, e.planner) {
      case None =>
      case Some(o) =>
        assert o.namespace in w.db.schemas;
        Decisions.KeyHolderAnswer(w.db.schemas[o.namespace], o.organizationId, userId, resource, action, e.planner);
    }
  }
}
