/** The tables of one schema and the transactions of src/repository/sqlx_impl.rs on them.
    Constraints and cascades are those of migrations/. */
module Tables {
  import opened Wrappers
  import opened Text
  import opened Environment
  import C = Constants

  datatype PasswordHash = Argon2(password: string) | Unparsable

  datatype User = User(
    userId: int, organizationId: int, email: string, username: string, passwordHash: PasswordHash, firstLogin: bool)

  datatype NewUser = NewUser(
    organizationId: int, email: string, username: string, passwordHash: PasswordHash, firstLogin: bool)

  datatype Group = Group(groupId: int, organizationId: int, name: string)

  datatype Effect = Allow | Deny

  datatype Policy = Policy(
    policyId: int, organizationId: int, name: string, resource: string, action: string, effect: Effect)

  datatype ResetToken = ResetToken(tokenId: int, userId: int, token: string, expiresAt: int, usedAt: Option<int>)

  datatype Error =
    | Database | EmailTaken | UsernameTaken | SuperadminReserved | InvalidGroup(name: string)
    | InvalidCredentials | InvalidStoredHash | UserNotFound | WrongPassword | PasswordTooShort | InvalidEmail
    | EmailNotFound | InvalidResetToken | GroupExists | GroupNotFound
    | OrganizationMismatch | OrganizationNotFound | OrganizationExists | InvalidNamespace
    | PrivilegedGroup(name: string)
    | PolicyExists | PolicyNotFound | EmptyPattern | Unauthorized | Forbidden | CannotDeleteYourself

  /** A join row maps (user, group), (user, policy) or (group, policy) to its `assigned_by`. */
  type Links = map<(int, int), Option<int>>

  /** `global` tells the schema of the public migrations, which alone has policy assignments
      and compares e-mail addresses by their lower-case form. */
  datatype Tables = Tables(
    global: bool,
    users: map<int, User>, nextUser: int,
    groups: map<int, Group>, nextGroup: int,
    members: Links,
    policies: map<int, Policy>, nextPolicy: int,
    userPolicies: Links, groupPolicies: Links,
    tokens: map<int, ResetToken>, nextToken: int)

  /** The tables after a transaction and what it returned. */
  datatype Tx<+T> = Tx(t: Tables, out: Result<T, Error>)

  function Empty(global: bool): Tables {
    Tables(global, map[], 1, map[], 1, map[], map[], 1, map[], map[], map[], 1)
  }

  // ----- users

  function EmailRows(t: Tables, email: string): set<int> {
    set u | u in t.users && Lower(t.users[u].email) == Lower(email)
  }

  function UsernameRows(t: Tables, username: string): set<int> {
    set u | u in t.users && t.users[u].username == username
  }

  function FindByEmail(t: Tables, email: string, q: Planner): Option<User> {
    match First(q, EmailRows(t, email)) case None => None case Some(u) => Some(t.users[u])
  }

  function FindByUsername(t: Tables, username: string, q: Planner): Option<User> {
    match First(q, UsernameRows(t, username)) case None => None case Some(u) => Some(t.users[u])
  }

  function FindUser(t: Tables, userId: int): Option<User> {
    if userId in t.users then Some(t.users[userId]) else None
  }

  /** The text the unique index on e-mail compares. */
  function EmailKey(t: Tables, email: string): string {
    if t.global then Lower(email) else email
  }

  /** Whether the unique indexes and column widths of `users` admit these values for a row other than `self`. */
  predicate ProfileFits(t: Tables, self: int, email: string, username: string) {
    && |email| <= 255 && |username| <= 50
    && forall u | u in t.users && u != self ::
         EmailKey(t, t.users[u].email) != EmailKey(t, email) && t.users[u].username != username
  }

  function InsertUser(t: Tables, orgs: set<int>, n: NewUser): Tx<User> {
    if n.organizationId in orgs && t.nextUser <= C.MAX_I64 && ProfileFits(t, t.nextUser, n.email, n.username) then
      var u := User(t.nextUser, n.organizationId, n.email, n.username, n.passwordHash, n.firstLogin);
      Tx(t.(users := t.users[t.nextUser := u], nextUser := t.nextUser + 1), Ok(u))
    else Tx(t, Err(Database))
  }

  function UpdatePassword(t: Tables, userId: int, hash: PasswordHash): Tx<()> {
    Tx(if userId in t.users then t.(users := t.users[userId := t.users[userId].(passwordHash := hash)]) else t, Ok(()))
  }

  function UpdateProfile(t: Tables, userId: int, email: string, username: string): Tx<()> {
    if userId !in t.users then Tx(t, Ok(()))
    else if ProfileFits(t, userId, email, username) then
      Tx(t.(users := t.users[userId := t.users[userId].(email := email, username := username)]), Ok(()))
    else Tx(t, Err(Database))
  }

  function SetFirstLogin(t: Tables, userId: int, firstLogin: bool): Tx<()> {
    Tx(if userId in t.users then t.(users := t.users[userId := t.users[userId].(firstLogin := firstLogin)])
       else t, Ok(()))
  }

  function UserGroupIds(t: Tables, userId: int): set<int> {
    set g | g in t.groups && (userId, g) in t.members
  }

  function GetUserGroups(t: Tables, userId: int, q: Planner): seq<Group> {
    var ids := All(q, UserGroupIds(t, userId));
    seq(|ids|, i requires 0 <= i < |ids| => t.groups[ids[i]])
  }

  // ----- cascading deletes

  predicate AssignedBy(links: Links, gone: set<int>) {
    exists k | k in links :: links[k].Some? && links[k].value in gone
  }

  function Unlink(links: Links, left: set<int>, right: set<int>): Links {
    map k | k in links && k.0 !in left && k.1 !in right :: links[k]
  }

  /** Deletes rows with everything that cascades from them; refused while a surviving link names a deleted
      user as the one who assigned it. */
  function Erase(t: Tables, users: set<int>, groups: set<int>, policies: set<int>): Option<Tables> {
    var members := Unlink(t.members, users, groups);
    var userPolicies := Unlink(t.userPolicies, users, policies);
    var groupPolicies := Unlink(t.groupPolicies, groups, policies);
    if AssignedBy(members, users) || AssignedBy(userPolicies, users) || AssignedBy(groupPolicies, users) then None
    else Some(t.(users := t.users - users, groups := t.groups - groups, policies := t.policies - policies,
                 members := members, userPolicies := userPolicies, groupPolicies := groupPolicies,
                 tokens := map k | k in t.tokens && t.tokens[k].userId !in users :: t.tokens[k]))
  }

  function EraseUser(t: Tables, userId: int): Tx<()> {
    if userId !in t.users then Tx(t, Err(UserNotFound))
    else
      match Erase(t, {userId}, {}, {})
      case None => Tx(t, Err(Database))
      case Some(t') => Tx(t', Ok(()))
  }

  /** What deleting an organization does to one schema. */
  function DropOrganization(t: Tables, organizationId: int): Option<Tables> {
    Erase(t,
          set u | u in t.users && t.users[u].organizationId == organizationId,
          set g | g in t.groups && t.groups[g].organizationId == organizationId,
          set p | p in t.policies && t.policies[p].organizationId == organizationId)
  }

  // ----- groups

  function GroupRows(t: Tables, name: string, organizationId: int): set<int> {
    set g | g in t.groups && t.groups[g].name == name && t.groups[g].organizationId == organizationId
  }

  function FindGroupByName(t: Tables, name: string, organizationId: int, q: Planner): Option<Group> {
    match First(q, GroupRows(t, name, organizationId)) case None => None case Some(g) => Some(t.groups[g])
  }

  function FindGroup(t: Tables, groupId: int): Option<Group> {
    if groupId in t.groups then Some(t.groups[groupId]) else None
  }

  function InsertGroup(t: Tables, orgs: set<int>, name: string, organizationId: int): Tx<Group> {
    if organizationId in orgs && t.nextGroup <= C.MAX_I64 && |name| <= 100
      && GroupRows(t, name, organizationId) == {} then
      var g := Group(t.nextGroup, organizationId, name);
      Tx(t.(groups := t.groups[t.nextGroup := g], nextGroup := t.nextGroup + 1), Ok(g))
    else Tx(t, Err(Database))
  }

  /** A row that exists stays as it is; a new one must name an existing user, group and assigner. */
  function AssignUserToGroup(t: Tables, userId: int, groupId: int, assignedBy: Option<int>): Tx<()> {
    if (userId, groupId) in t.members then Tx(t, Ok(()))
    else if userId in t.users && groupId in t.groups && (assignedBy.Some? ==> assignedBy.value in t.users) then
      Tx(t.(members := t.members[(userId, groupId) := assignedBy]), Ok(()))
    else Tx(t, Err(Database))
  }

  function RemoveUserFromGroup(t: Tables, userId: int, groupId: int): Tx<()> {
    Tx(t.(members := t.members - {(userId, groupId)}), Ok(()))
  }

  // ----- policies

  function PolicyRows(t: Tables, name: string, organizationId: int): set<int> {
    set p | p in t.policies && t.policies[p].name == name && t.policies[p].organizationId == organizationId
  }

  /** A tenant schema keeps policy names unique across organizations. */
  function InsertPolicy(t: Tables, orgs: set<int>, name: string, organizationId: int, resource: string, action: string,
                        effect: Effect): Tx<Policy> {
    if organizationId in orgs && t.nextPolicy <= C.MAX_I64 && |name| <= 100 && |resource| <= 255 && |action| <= 100
      && forall p | p in t.policies ::
           t.policies[p].name == name ==> t.global && t.policies[p].organizationId != organizationId
    then
      var p := Policy(t.nextPolicy, organizationId, name, resource, action, effect);
      Tx(t.(policies := t.policies[t.nextPolicy := p], nextPolicy := t.nextPolicy + 1), Ok(p))
    else Tx(t, Err(Database))
  }

  function FindPolicy(t: Tables, policyId: int): Option<Policy> {
    if policyId in t.policies then Some(t.policies[policyId]) else None
  }

  /** `INSERT … ON CONFLICT DO NOTHING` into a link table: the ids and the assigner must exist. */
  function Linked(links: Links, left: int, right: int, lefts: set<int>, rights: set<int>, users: set<int>,
                  assignedBy: Option<int>): Option<Links> {
    if (left, right) in links then Some(links)
    else if left in lefts && right in rights && (assignedBy.Some? ==> assignedBy.value in users) then
      Some(links[(left, right) := assignedBy])
    else None
  }

  function AssignPolicyToUser(t: Tables, userId: int, policyId: int, assignedBy: Option<int>): Tx<()> {
    match Linked(t.userPolicies, userId, policyId, t.users.Keys, t.policies.Keys, t.users.Keys, assignedBy)
    case None => Tx(t, Err(Database))
    case Some(links) => if t.global then Tx(t.(userPolicies := links), Ok(())) else Tx(t, Err(Database))
  }

  function AssignPolicyToGroup(t: Tables, groupId: int, policyId: int, assignedBy: Option<int>): Tx<()> {
    match Linked(t.groupPolicies, groupId, policyId, t.groups.Keys, t.policies.Keys, t.users.Keys, assignedBy)
    case None => Tx(t, Err(Database))
    case Some(links) => if t.global then Tx(t.(groupPolicies := links), Ok(())) else Tx(t, Err(Database))
  }

  function RemovePolicyFromUser(t: Tables, userId: int, policyId: int): Tx<()> {
    if t.global then Tx(t.(userPolicies := t.userPolicies - {(userId, policyId)}), Ok(())) else Tx(t, Err(Database))
  }

  function RemovePolicyFromGroup(t: Tables, groupId: int, policyId: int): Tx<()> {
    if t.global then Tx(t.(groupPolicies := t.groupPolicies - {(groupId, policyId)}), Ok(())) else Tx(t, Err(Database))
  }

  /** The policies a user reaches directly or through one of its groups. */
  function ReachablePolicyIds(t: Tables, userId: int): set<int> {
    set p | p in t.policies && ((userId, p) in t.userPolicies
                                || exists k | k in t.groupPolicies :: k.1 == p && (userId, k.0) in t.members)
  }

  /** Tenant schemas have no assignment tables, so the query fails there. */
  function GetUserAllPolicies(t: Tables, userId: int, q: Planner): Result<seq<Policy>, Error> {
    if !t.global then Err(Database)
    else
      var ids := All(q, ReachablePolicyIds(t, userId));
      Ok(seq(|ids|, i requires 0 <= i < |ids| => t.policies[ids[i]]))
  }

  // ----- password reset tokens

  function CreateResetToken(t: Tables, userId: int, token: string, expiresAt: int): Tx<ResetToken> {
    if userId in t.users && t.nextToken <= C.MAX_I64 && forall k | k in t.tokens :: t.tokens[k].token != token then
      var r := ResetToken(t.nextToken, userId, token, expiresAt, None);
      Tx(t.(tokens := t.tokens[t.nextToken := r], nextToken := t.nextToken + 1), Ok(r))
    else Tx(t, Err(Database))
  }

  function ValidTokenRows(t: Tables, token: string, now: int): set<int> {
    set k | k in t.tokens && t.tokens[k].token == token && t.tokens[k].expiresAt > now && t.tokens[k].usedAt == None
  }

  function FindValidToken(t: Tables, token: string, e: Env): Option<ResetToken> {
    match First(e.planner, ValidTokenRows(t, token, e.now)) case None => None case Some(k) => Some(t.tokens[k])
  }

  function MarkTokenUsed(t: Tables, tokenId: int, now: int): Tx<()> {
    Tx(if tokenId in t.tokens then t.(tokens := t.tokens[tokenId := t.tokens[tokenId].(usedAt := Some(now))])
       else t, Ok(()))
  }

  function CleanupExpiredTokens(t: Tables, now: int): Tx<()> {
    Tx(t.(tokens := map k | k in t.tokens && t.tokens[k].expiresAt >= now :: t.tokens[k]), Ok(()))
  }
}
