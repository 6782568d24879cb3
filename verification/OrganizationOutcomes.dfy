/** What organization management does to the organizations, to every schema, and what it answers. */
module OrganizationOutcomes {
  import opened Wrappers
  import opened Environment
  import opened Tables
  import opened Organizations
  import opened Requests
  import C = Constants
  import Quoting

  // ----- creating

  /** Some organization has this name. */
  predicate NameInUse(d: Db, name: string) { exists o | o in d.orgs :: d.orgs[o].name == name }

  /** Letters, digits and underscores. */
  predicate PlainText(namespace: string) {
    forall i | 0 <= i < |namespace| ::
      var c := namespace[i];
      'a' <= c <= 'z' || 'A' <= c <= 'Z' || '0' <= c <= '9' || c == '_' || c >= '\U{0080}'
  }

  /** The columns and indexes admit the organization, and PostgreSQL its schema. */
  predicate Admitted(d: Db, name: string, namespace: string, key: int) {
    && |name| <= 100 && 0 < |namespace| <= 63 && d.nextOrg <= C.MAX_I64
    && !("pg_" <= namespace) && namespace !in d.schemas
    && forall o | o in d.orgs :: d.orgs[o].namespace != namespace && d.orgs[o].secretKey != key
  }

  /** A schema with the groups `admin` and `users` and nothing else. */
  function Furnished(org: int): Tables {
    Empty(false).(groups := map[1 := Group(1, org, "admin"), 2 := Group(2, org, "users")], nextGroup := 3)
  }

  lemma SeedingFurnishes(orgs: set<int>, org: int, q: Planner)
    requires org in orgs
    ensures SeedGroups(Empty(false), orgs, DEFAULT_GROUPS, org, q) == Tx(Furnished(org), Ok(()))
  {
    var t := Empty(false);
    var x := InsertGroup(t, orgs, "admin", org);
    assert DEFAULT_GROUPS[1..] == ["users"];
    assert GroupRows(t, "admin", org) == {};
    assert "admin"[0] != "users"[0];
    assert GroupRows(x.t, "users", org) == {};
    assert ["users"][1..] == [];
  }

  /** A new organization takes the next id, its own key, and a schema with exactly the two default groups. */
  lemma CreateExactly(d: Db, name: string, namespace: string, e: Env)
    ensures var x := PerformOrg(d, OrgCreate(name, namespace), e);
            if NameInUse(d, name) then x == Ran(d, Err(OrganizationExists))
            else if !PlainText(namespace) then x == Ran(d, Err(InvalidNamespace))
            else if Admitted(d, name, namespace, e.key) then
              var row := Organization(d.nextOrg, name, e.key, namespace);
              x == Ran(d.(orgs := d.orgs[d.nextOrg := row], nextOrg := d.nextOrg + 1,
                          schemas := d.schemas[namespace := Furnished(d.nextOrg)]), Ok(OrganizationShown(row)))
            else x == Ran(d, Err(Database))
  {
    hide SeedGroups, Furnished;
    assert PlainText(namespace) == Quoting.NamespaceText(namespace);
    hide PlainText, Quoting.NamespaceText;
    var x := InsertOrganization(d, name, namespace, e.key);
    if x.out.Ok? {
      SeedingFurnishes(x.db.orgs.Keys, d.nextOrg, e.planner);
      assert d.schemas[namespace := Empty(false)][namespace := Furnished(d.nextOrg)] ==
             d.schemas[namespace := Furnished(d.nextOrg)];
    }
  }

  // ----- rotating and reading

  /** A rotation gives one organization the new key, unless another one has it; without a row it changes nothing. */
  lemma RotateExactly(d: Db, org: int, e: Env)
    ensures var x := PerformOrg(d, OrgRotate(org), e);
            if org !in d.orgs then x == Ran(d, Ok(NewKey(org, e.key)))
            else if exists o | o in d.orgs :: o != org && d.orgs[o].secretKey == e.key then x == Ran(d, Err(Database))
            else x == Ran(d.(orgs := d.orgs[org := d.orgs[org].(secretKey := e.key)]), Ok(NewKey(org, e.key)))
  {}

  lemma ReadExactly(d: Db, org: int, only: Option<string>, e: Env)
    ensures PerformOrg(d, OrgShow(org), e) ==
            Ran(d, if org in d.orgs then Ok(OrganizationShown(d.orgs[org])) else Err(OrganizationNotFound))
    ensures var x := PerformOrg(d, OrgList(only), e);
            && x.db == d && x.out.Ok? && x.out.value.OrganizationsShown?
            && forall o :: o in x.out.value.orgs <==>
                 o in d.orgs.Values && (only == None || only == Some(o.namespace))
  {}

  // ----- deleting

  predicate UserGoes(t: Tables, u: int, org: int) { u in t.users && t.users[u].organizationId == org }

  predicate GroupGoes(t: Tables, g: int, org: int) { g in t.groups && t.groups[g].organizationId == org }

  predicate PolicyGoes(t: Tables, p: int, org: int) { p in t.policies && t.policies[p].organizationId == org }

  /** A link that stays names a user that goes as the one who assigned it. */
  predicate HeldBack(t: Tables, org: int) {
    || (exists k | k in t.members :: !UserGoes(t, k.0, org) && !GroupGoes(t, k.1, org)
                                     && t.members[k].Some? && UserGoes(t, t.members[k].value, org))
    || (exists k | k in t.userPolicies :: !UserGoes(t, k.0, org) && !PolicyGoes(t, k.1, org)
                                          && t.userPolicies[k].Some? && UserGoes(t, t.userPolicies[k].value, org))
    || (exists k | k in t.groupPolicies :: !GroupGoes(t, k.0, org) && !PolicyGoes(t, k.1, org)
                                           && t.groupPolicies[k].Some? && UserGoes(t, t.groupPolicies[k].value, org))
  }

  /** The rows of the organization are gone, with all links and reset tokens that refer to them. */
  function Cleared(t: Tables, org: int): Tables {
    t.(users := map u | u in t.users && !UserGoes(t, u, org) :: t.users[u],
       groups := map g | g in t.groups && !GroupGoes(t, g, org) :: t.groups[g],
       policies := map p | p in t.policies && !PolicyGoes(t, p, org) :: t.policies[p],
       members := map k | k in t.members && !UserGoes(t, k.0, org) && !GroupGoes(t, k.1, org) :: t.members[k],
       userPolicies := map k | k in t.userPolicies && !UserGoes(t, k.0, org) && !PolicyGoes(t, k.1, org)
                         :: t.userPolicies[k],
       groupPolicies := map k | k in t.groupPolicies && !GroupGoes(t, k.0, org) && !PolicyGoes(t, k.1, org)
                          :: t.groupPolicies[k],
       tokens := map k | k in t.tokens && !UserGoes(t, t.tokens[k].userId, org) :: t.tokens[k])
  }

  lemma UnlinkedTell(links: Links, left: set<int>, right: set<int>, gone: set<int>)
    ensures Unlink(links, left, right) == map k | k in links && k.0 !in left && k.1 !in right :: links[k]
    ensures AssignedBy(Unlink(links, left, right), gone) <==>
            exists k | k in links :: k.0 !in left && k.1 !in right && links[k].Some? && links[k].value in gone
  {
    var rest := Unlink(links, left, right);
    if k :| k in links && k.0 !in left && k.1 !in right && links[k].Some? && links[k].value in gone {
      assert k in rest;
    }
  }

  lemma EraseRefusal(t: Tables, org: int, users: set<int>, groups: set<int>, policies: set<int>)
    requires forall u :: u in users <==> UserGoes(t, u, org)
    requires forall g :: g in groups <==> GroupGoes(t, g, org)
    requires forall p :: p in policies <==> PolicyGoes(t, p, org)
    ensures Erase(t, users, groups, policies).None? <==> HeldBack(t, org)
  {
    hide UserGoes, GroupGoes, PolicyGoes, AssignedBy, Unlink;
    UnlinkedTell(t.members, users, groups, users);
    UnlinkedTell(t.userPolicies, users, policies, users);
    UnlinkedTell(t.groupPolicies, groups, policies, users);
  }

  lemma ClearedTables(t: Tables, org: int, t': Tables, users: set<int>, groups: set<int>, policies: set<int>)
    requires forall u :: u in users <==> UserGoes(t, u, org)
    requires forall g :: g in groups <==> GroupGoes(t, g, org)
    requires forall p :: p in policies <==> PolicyGoes(t, p, org)
    requires Erase(t, users, groups, policies) == Some(t')
    ensures t' == Cleared(t, org)
  {
    hide UserGoes, GroupGoes, PolicyGoes, AssignedBy;
    var c := Cleared(t, org);
    assert t'.users == c.users && t'.groups == c.groups && t'.policies == c.policies && t'.tokens == c.tokens;
    assert t'.members == c.members && t'.userPolicies == c.userPolicies && t'.groupPolicies == c.groupPolicies;
  }

  lemma DropExactly(t: Tables, org: int)
    ensures DropOrganization(t, org) == if HeldBack(t, org) then None else Some(Cleared(t, org))
  {
    var users := set u | u in t.users && t.users[u].organizationId == org;
    var groups := set g | g in t.groups && t.groups[g].organizationId == org;
    var policies := set p | p in t.policies && t.policies[p].organizationId == org;
    assert forall u :: u in users <==> UserGoes(t, u, org);
    assert forall g :: g in groups <==> GroupGoes(t, g, org);
    assert forall p :: p in policies <==> PolicyGoes(t, p, org);
    hide UserGoes, GroupGoes, PolicyGoes, Erase, HeldBack, Cleared;
    EraseRefusal(t, org, users, groups, policies);
    var r := Erase(t, users, groups, policies);
    if r.Some? { ClearedTables(t, org, r.value, users, groups, policies); }
  }

  /** Deleting an organization is refused exactly while a global setting names it or a remaining link credits one of its
      users; otherwise its rows go from every schema, and the schemas stay. */
  lemma DeleteExactly(d: Db, org: int, e: Env)
    ensures var x := PerformOrg(d, OrgDelete(org), e);
            if (org in d.orgs && org in d.settings) || exists ns | ns in d.schemas :: HeldBack(d.schemas[ns], org) then
              x == Ran(d, Err(Database))
            else
              && x.out == Ok(Done) && x.db == d.(orgs := x.db.orgs, schemas := x.db.schemas)
              && x.db.orgs == d.orgs - {org} && x.db.schemas.Keys == d.schemas.Keys
              && forall ns | ns in d.schemas :: x.db.schemas[ns] == Cleared(d.schemas[ns], org)
  {
    hide HeldBack, Cleared, DropOrganization;
    forall ns | ns in d.schemas
      ensures DropOrganization(d.schemas[ns], org)
              == if HeldBack(d.schemas[ns], org) then None else Some(Cleared(d.schemas[ns], org))
    {
      DropExactly(d.schemas[ns], org);
    }
  }
}
