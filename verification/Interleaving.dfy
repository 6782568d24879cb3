/** Any number of requests in flight: every repository transaction is one step, and steps of different requests
    come in any order. */
module Interleaving {
  import opened Environment
  import opened Tables
  import opened Organizations
  import opened Requests
  import opened Steps
  import Granting
  import Jwt

  datatype Thread = Thread(ns: string, act: Act, local: Local)

  /** `issued` and `resetTokens` remember every JWT and every reset token ever made. */
  datatype Sys = Sys(db: Db, issued: set<Jwt.Claims>, resetTokens: set<string>, threads: map<int, Thread>)

  /** A request begins; a request runs its next transaction; or one transaction of organization management runs,
      among them the insertion of one default group of a new organization; or a policy is granted or revoked. */
  datatype Move =
    | Begin(id: int, ns: string, act: Act)
    | Tick(id: int)
    | NewOrganization(name: string, namespace: string)
    | SeedGroup(ns: string, organizationId: int, name: string)
    | RotateOrganizationKey(organizationId: int)
    | RemoveOrganization(organizationId: int)
    | ChangeGrant(ns: string, grant: Granting.Grant)

  function MintedBy(l: Local): set<Jwt.Claims> {
    if l.Finished? && l.out.Ok? then Minted(l.out.value) else {}
  }

  function Moved(s: Sys, m: Move, e: Env): Sys {
    match m
    case Begin(id, ns, act) =>
      if id in s.threads then s else s.(threads := s.threads[id := Thread(ns, act, Start(ns, act, e))])
    case Tick(id) =>
      if id !in s.threads || s.threads[id].local.Finished? then s
      else
        var th := s.threads[id];
        if th.ns !in s.db.schemas then s.(threads := s.threads[id := th.(local := Failure(Database))])
        else
          var (t, l) := Advance(s.db.schemas[th.ns], s.db.orgs.Keys, th.ns, th.local, e);
          Sys(s.db.(schemas := s.db.schemas[th.ns := t]), s.issued + MintedBy(l), s.resetTokens,
              s.threads[id := th.(local := l)])
    case NewOrganization(name, namespace) => s.(db := InsertOrganization(s.db, name, namespace, e.key).db)
    case SeedGroup(ns, org, name) =>
      if ns !in s.db.schemas || name !in DEFAULT_GROUPS then s
      else s.(db := s.db.(schemas := s.db.schemas[ns := InsertGroup(s.db.schemas[ns], s.db.orgs.Keys, name, org).t]))
    case RotateOrganizationKey(id) => s.(db := RotateSecretKey(s.db, id, e.key).db)
    case RemoveOrganization(id) => s.(db := Organizations.DeleteOrganization(s.db, id).db)
    case ChangeGrant(ns, grant) => s.(db := At(s.db, ns, Granting.Granted(Schema(s.db, ns), grant)))
  }

  /** One step; random values are new. */
  predicate SysStep(s: Sys, m: Move, e: Env, s': Sys) {
    e.resetToken !in s.resetTokens && s' == Moved(s, m, e).(resetTokens := s.resetTokens + {e.resetToken})
  }

  datatype Interleaved = Interleaved(states: seq<Sys>, moves: seq<Move>, envs: seq<Env>)

  predicate Wellformed(r: Interleaved, j: nat) { |r.states| == |r.moves| + 1 == |r.envs| + 1 && j < |r.states| }

  ghost predicate IsInterleaving(r: Interleaved) {
    && |r.states| == |r.moves| + 1 == |r.envs| + 1
    && forall i | 0 <= i < |r.moves| :: SysStep(r.states[i], r.moves[i], r.envs[i], r.states[i + 1])
  }

  /** The tables a step leaves in one schema: unchanged, or the outcome of one transaction. */
  datatype Touch =
    | Untouched
    | Ticked(l: Local)
    | Seeded(organizationId: int, name: string)
    | Dropped(organizationId: int)
    | Regranted(grant: Granting.Grant)

  function Touched(s: Sys, m: Move, ns: string): Touch {
    match m
    case Tick(id) =>
      if id in s.threads && s.threads[id].ns == ns && !s.threads[id].local.Finished? then Ticked(s.threads[id].local)
        else Untouched
    case SeedGroup(ns', org, name) => if ns' == ns && name in DEFAULT_GROUPS then Seeded(org, name) else Untouched
    case RemoveOrganization(id) => Dropped(id)
    case ChangeGrant(ns', grant) => if ns' == ns then Regranted(grant) else Untouched
    case _ => Untouched
  }

  function After(t: Tables, orgs: set<int>, ns: string, touch: Touch, e: Env): Tables {
    match touch
    case Untouched => t
    case Ticked(l) => Advance(t, orgs, ns, l, e).0
    case Seeded(org, name) => InsertGroup(t, orgs, name, org).t
    case Dropped(org) => (match DropOrganization(t, org) case None => t case Some(t') => t')
    case Regranted(grant) => Granting.Granted(t, grant)
  }

  /** What a step does to one schema, whatever else it does. */
  lemma StepTouches(s: Sys, m: Move, e: Env, s': Sys, ns: string)
    requires SysStep(s, m, e, s')
    ensures ns in s.db.schemas ==> ns in s'.db.schemas
    ensures Schema(s'.db, ns) == Schema(s.db, ns)
            || (ns in s.db.schemas
                && Schema(s'.db, ns) == After(Schema(s.db, ns), s.db.orgs.Keys, ns, Touched(s, m, ns), e))
    ensures ns !in s.db.schemas ==> Schema(s'.db, ns) == Schema(s.db, ns)
    ensures ns in s.db.schemas && m.Tick? ==>
              Schema(s'.db, ns) == After(Schema(s.db, ns), s.db.orgs.Keys, ns, Touched(s, m, ns), e)
  {
    hide Advance, DropOrganization, Granting.Granted;
  }

  /** A thread moves by its own transactions only. */
  lemma ThreadMoves(s: Sys, m: Move, e: Env, s': Sys, id: int)
    requires SysStep(s, m, e, s')
    ensures id in s'.threads && id !in s.threads ==>
              && m == Begin(id, s'.threads[id].ns, s'.threads[id].act)
              && s'.threads[id].local == Start(s'.threads[id].ns, s'.threads[id].act, e)
    ensures id in s.threads ==> id in s'.threads && s'.threads[id] == s.threads[id].(local := s'.threads[id].local)
    ensures id in s.threads && s'.threads[id].local != s.threads[id].local ==>
              var th := s.threads[id];
              && m == Tick(id) && !th.local.Finished?
              && (if th.ns in s.db.schemas then
                    var (t, l) := Advance(s.db.schemas[th.ns], s.db.orgs.Keys, th.ns, th.local, e);
                    s'.db.schemas[th.ns] == t && s'.threads[id].local == l
                  else s'.threads[id].local == Failure(Database))
  {
    hide Advance, Start, DropOrganization, Granting.Granted;
  }

  /** And a transaction it runs moves it to where `Advance` says. */
  lemma TickAdvances(s: Sys, m: Move, e: Env, s': Sys, id: int)
    requires SysStep(s, m, e, s') && m == Tick(id) && id in s.threads && !s.threads[id].local.Finished?
    ensures var th := s.threads[id];
            && id in s'.threads
            && s'.threads[id] == th.(local := if th.ns in s.db.schemas
               then Advance(s.db.schemas[th.ns], s.db.orgs.Keys, th.ns, th.local, e).1 else Failure(Database))
            && (th.ns in s.db.schemas ==>
                  Schema(s'.db, th.ns) == Advance(s.db.schemas[th.ns], s.db.orgs.Keys, th.ns, th.local, e).0)
  {
    hide Advance;
  }

  /** A token appears in `issued` only when the request that minted it finishes. */
  lemma TokensAppearWithAnswers(s: Sys, m: Move, e: Env, s': Sys, c: Jwt.Claims)
    requires SysStep(s, m, e, s') && c in s'.issued && c !in s.issued
    ensures m.Tick? && m.id in s.threads && s.threads[m.id].ns in s.db.schemas && !s.threads[m.id].local.Finished?
    ensures c in MintedBy(Advance(s.db.schemas[s.threads[m.id].ns], s.db.orgs.Keys, s.threads[m.id].ns,
                                  s.threads[m.id].local, e).1)
  {
    hide Advance;
  }
}
