/** Who becomes the first administrator of a namespace that fills up by registrations alone. */
module Bootstrap {
  import opened Wrappers
  import opened Text
  import opened Environment
  import opened Tables
  import opened Constraints
  import opened Enrolment
  import C = Constants
  import Accounts
  import Email
  import Integrity
  import Requests

  /** One registration as it reaches the schema; `orgs` are the organizations that exist at that moment. */
  datatype Call = Call(
    orgs: set<int>, organizationId: int, email: string, username: string, password: string, group: Option<string>,
    e: Env)

  function Registered(t: Tables, ns: string, c: Call): Tables {
    Accounts.Register(t, c.orgs, ns, c.organizationId, c.email, c.username, c.password, c.group, c.e).t
  }

  /** The schema after all of `calls`, refused ones included. */
  function AllRegistered(t: Tables, ns: string, calls: seq<Call>): Tables {
    if calls == [] then t else Registered(AllRegistered(t, ns, calls[..|calls| - 1]), ns, calls[|calls| - 1])
  }

  function BootstrapGroup(ns: string): string {
    if ns == C.DEFAULT_NAMESPACE then C.SUPERADMIN_GROUP else C.ADMIN_GROUP
  }

  /** Only user `first` holds a privileged group, and only the bootstrap group of the namespace. */
  predicate OnlyFirst(t: Tables, ns: string, first: int) {
    forall k | k in t.members && k.1 in t.groups && C.IsPrivilegedGroup(t.groups[k.1].name) ::
      k.0 == first && t.groups[k.1].name == BootstrapGroup(ns)
  }

  predicate Bootstrapping(t: Tables, ns: string, first: int) {
    Valid(t) && OnlyFirst(t, ns, first) && (t.users == map[] ==> t.nextUser == first)
  }

  /** The only privileged name a registration can ask for is the bootstrap group, and only in an empty schema. */
  lemma WantedNames(ns: string, group: Option<string>, userCount: int, name: string)
    requires Accounts.RegistrationGroups(ns, group, userCount).Ok?
    requires name in Wanted(Accounts.RegistrationGroups(ns, group, userCount).value) && C.IsPrivilegedGroup(name)
    ensures group.None? && userCount == 0 && name == BootstrapGroup(ns)
  {
    hide C.IsPrivilegedGroup;
    var groups := Accounts.RegistrationGroups(ns, group, userCount).value;
    var i :| 0 <= i < |Accounts.OrUsers(groups)| && Trim(Accounts.OrUsers(groups)[i]) == name;
    C.DefaultNames();
    C.PrivilegeIgnoresPadding(Accounts.OrUsers(groups)[i]);
  }

  lemma CreationBootstraps(t: Tables, orgs: set<int>, ns: string, f: Accounts.UserForm, group: Option<string>,
                           q: Planner, first: int)
    requires Bootstrapping(t, ns, first)
    requires Accounts.RegistrationGroups(ns, group, |t.users|) == Ok(f.groups)
    ensures var t' := Accounts.CreateUser(t, orgs, ns, f, None, q).t;
            OnlyFirst(t', ns, first) && (t'.users == map[] ==> t'.nextUser == first)
  {
    hide C.IsPrivilegedGroup, Accounts.CreateUser, Valid, Wanted, Accounts.RegistrationGroups;
    var t' := Accounts.CreateUser(t, orgs, ns, f, None, q).t;
    CreateUserJoins(t, orgs, ns, f, None, q);
    forall k | k in t'.members && k.1 in t'.groups && C.IsPrivilegedGroup(t'.groups[k.1].name)
      ensures k.0 == first && t'.groups[k.1].name == BootstrapGroup(ns)
    {
      if k in t.members {
        MembersHaveGroups(t, k);
        assert t'.groups[k.1] == t.groups[k.1] by {
          assert forall g | g in t.groups :: g in t'.groups && t'.groups[g] == t.groups[g];
        }
      } else {
        WantedNames(ns, group, |t.users|, t'.groups[k.1].name);
      }
    }
    if t'.users == map[] { NoNewSerial(t, orgs, ns, f, q); }
  }

  lemma MembersHaveGroups(t: Tables, k: (int, int))
    requires Valid(t) && k in t.members
    ensures k.1 in t.groups
  {}

  /** A schema that stays empty has handed out no user id. */
  lemma NoNewSerial(t: Tables, orgs: set<int>, ns: string, f: Accounts.UserForm, q: Planner)
    requires Valid(t) && Accounts.CreateUser(t, orgs, ns, f, None, q).t.users == map[]
    ensures t.users == map[] && Accounts.CreateUser(t, orgs, ns, f, None, q).t.nextUser == t.nextUser
  {
    hide Accounts.Respond, Accounts.ReservedIn, Accounts.ResolveAll, Accounts.AssignAll, InsertUser, NamesAll;
    var x := Accounts.ResolveGroupIds(t, orgs, ns, f.groups, f.organizationId, q);
    ResolvedGroups(t, orgs, ns, f.groups, f.organizationId, q, q);
    if x.out.Ok? {
      var n := NewUser(f.organizationId, f.email, f.username, Argon2(f.password), f.firstLogin);
      InsertingAdds(x.t, orgs, n);
      var y := InsertUser(x.t, orgs, n);
      if y.out.Ok? {
        AssigningJoins(y.t, t.nextUser, x.out.value, None);
        assert t.nextUser in Accounts.AssignAll(y.t, t.nextUser, x.out.value, None).t.users;
      }
    }
  }

  lemma RegistrationBootstraps(t: Tables, ns: string, c: Call, first: int)
    requires Bootstrapping(t, ns, first)
    ensures Bootstrapping(Registered(t, ns, c), ns, first)
  {
    hide Valid, OnlyFirst, Accounts.CreateUser, Email.IsEmail, Email.IsPassword;
    Integrity.PerformKeeps(t, c.orgs, ns,
                           Requests.ActRegister(c.organizationId, c.email, c.username, c.password, c.group), c.e);
    var groups := Accounts.RegistrationGroups(ns, c.group, |t.users|);
    if groups.Ok? {
      CreationBootstraps(t, c.orgs, ns,
                         Accounts.UserForm(c.organizationId, c.email, c.username, c.password, groups.value, false),
                         c.group, c.e.planner, first);
    }
    hide Accounts.RegistrationGroups;
  }

  lemma {:induction false} RegistrationsBootstrap(t: Tables, ns: string, calls: seq<Call>)
    requires Valid(t) && t.users == map[]
    ensures Bootstrapping(AllRegistered(t, ns, calls), ns, t.nextUser)
    decreases |calls|
  {
    hide Registered;
    if calls == [] {
      assert forall k | k in t.members :: k.0 in t.users;
    } else {
      RegistrationsBootstrap(t, ns, calls[..|calls| - 1]);
      RegistrationBootstraps(AllRegistered(t, ns, calls[..|calls| - 1]), ns, calls[|calls| - 1], t.nextUser);
    }
  }

  /** Bootstrap: from a schema without users, whatever is registered, whoever holds a privileged group is the first
      user stored, and the group is `superadmin` in the global namespace, `admin` in a tenant. */
  lemma OnlyTheFirstIsPrivileged(t: Tables, ns: string, calls: seq<Call>, userId: int, groupId: int)
    requires Valid(t) && t.users == map[]
    requires var t' := AllRegistered(t, ns, calls);
             (userId, groupId) in t'.members && groupId in t'.groups && C.IsPrivilegedGroup(t'.groups[groupId].name)
    ensures userId == t.nextUser
    ensures forall u | u in AllRegistered(t, ns, calls).users :: userId <= u
    ensures AllRegistered(t, ns, calls).groups[groupId].name == if ns ==
            C.DEFAULT_NAMESPACE then C.SUPERADMIN_GROUP else C.ADMIN_GROUP
  {
    hide AllRegistered, C.IsPrivilegedGroup;
    RegistrationsBootstrap(t, ns, calls);
    IdsStartAt(t, ns, calls);
    assert (userId, groupId).0 == t.nextUser;
  }

  lemma {:induction false} IdsStartAt(t: Tables, ns: string, calls: seq<Call>)
    requires Valid(t) && t.users == map[]
    ensures forall u | u in AllRegistered(t, ns, calls).users :: t.nextUser <= u
    ensures t.nextUser <= AllRegistered(t, ns, calls).nextUser
    decreases |calls|
  {
    hide Registered, Valid;
    if calls != [] {
      var before := calls[..|calls| - 1];
      IdsStartAt(t, ns, before);
      RegistrationsBootstrap(t, ns, before);
      RegistrationAddsNext(AllRegistered(t, ns, before), ns, calls[|calls| - 1]);
    }
  }

  lemma RegistrationAddsNext(t: Tables, ns: string, c: Call)
    requires Valid(t)
    ensures var t' := Registered(t, ns, c);
            t.nextUser <= t'.nextUser && forall u | u in t'.users :: u in t.users || u == t.nextUser
  {
    hide Accounts.CreateUser, Email.IsEmail, Email.IsPassword, Valid;
    var groups := Accounts.RegistrationGroups(ns, c.group, |t.users|);
    if groups.Ok? {
      var f := Accounts.UserForm(c.organizationId, c.email, c.username, c.password, groups.value, false);
      CreateUserJoins(t, c.orgs, ns, f, None, c.e.planner);
      SerialGrows(t, c.orgs, ns, f, c.e.planner);
    }
    hide Accounts.RegistrationGroups;
  }

  lemma SerialGrows(t: Tables, orgs: set<int>, ns: string, f: Accounts.UserForm, q: Planner)
    requires Valid(t)
    ensures t.nextUser <= Accounts.CreateUser(t, orgs, ns, f, None, q).t.nextUser
  {
    hide Accounts.Respond, Accounts.ReservedIn, Accounts.ResolveAll, Accounts.AssignAll, NamesAll, Valid;
    var x := Accounts.ResolveGroupIds(t, orgs, ns, f.groups, f.organizationId, q);
    ResolvedGroups(t, orgs, ns, f.groups, f.organizationId, q, q);
    if x.out.Ok? {
      var y := InsertUser(x.t, orgs, NewUser(f.organizationId, f.email, f.username, Argon2(f.password), f.firstLogin));
      if y.out.Ok? { AssigningJoins(y.t, t.nextUser, x.out.value, None); }
    }
  }

  /** A group named by the caller, in whatever case and padding, is refused when privileged, and grants no privilege
      otherwise. */
  lemma RequestedGroupGrantsNothing(t: Tables, ns: string, c: Call, name: string)
    requires Valid(t) && c.group.Some?
    ensures var x := Accounts.Register(t, c.orgs, ns, c.organizationId, c.email, c.username, c.password, c.group, c.e);
            && (C.IsPrivilegedGroup(c.group.value) ==> x == Tx(t, Err(PrivilegedGroup(c.group.value))))
            && (x.out.Ok? && name in x.out.value.user.groups ==>
                !C.IsPrivilegedGroup(name) && name == Trim(c.group.value))
  {
    hide C.IsPrivilegedGroup, Accounts.CreateUser, Email.IsEmail, Email.IsPassword, Valid;
    if !C.IsPrivilegedGroup(c.group.value) {
      C.PrivilegeIgnoresPadding(c.group.value);
      var f := Accounts.UserForm(c.organizationId, c.email, c.username, c.password, [c.group.value], false);
      CreateUserAnswersWanted(t, c.orgs, ns, f, None, c.e.planner);
    }
  }
}
