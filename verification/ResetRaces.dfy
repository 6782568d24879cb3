/** Password reset tokens when requests interleave. */
module ResetRaces {
  import opened Wrappers
  import opened Text
  import opened Environment
  import opened Tables
  import opened Constraints
  import opened Organizations
  import opened Requests
  import opened Steps
  import opened Interleaving
  import C = Constants
  import Granting

  predicate Numbered(t: Tables) { forall k | k in t.tokens :: t.tokens[k].tokenId == k < t.nextToken }

  predicate Unique(t: Tables) {
    forall k, l | k in t.tokens && l in t.tokens && t.tokens[k].token == t.tokens[l].token :: k == l
  }

  /** Token rows keep their text and, once used, stay used; a new row has a new id and the new random text. */
  predicate TokensAge(t: Tables, t': Tables, random: string) {
    && t.nextToken <= t'.nextToken && Numbered(t') && (Unique(t) ==> Unique(t'))
    && forall k | k in t'.tokens ::
         && (k < t.nextToken ==>
               && k in t.tokens && t'.tokens[k].token == t.tokens[k].token
               && (t.tokens[k].usedAt.Some? ==> t'.tokens[k].usedAt.Some?))
         && (k >= t.nextToken ==> t'.tokens[k].token == random)
  }

  /** Every token text in the table was made here, and no two rows share one. */
  predicate Booked(t: Tables, known: set<string>) {
    Numbered(t) && Unique(t) && forall k | k in t.tokens :: t.tokens[k].token in known
  }

  /** No row with this text is unused, and none will come. */
  predicate Spent(t: Tables, known: set<string>, token: string) {
    token in known && forall k | k in t.tokens && t.tokens[k].token == token :: t.tokens[k].usedAt.Some?
  }

  /** The row in hand is still the only one that can carry its text. */
  predicate Holds(t: Tables, known: set<string>, r: ResetToken) {
    && r.token in known && r.tokenId < t.nextToken
    && forall k | k in t.tokens && t.tokens[k].token == r.token :: k == r.tokenId
  }

  lemma SpentStays(t: Tables, t': Tables, known: set<string>, random: string, token: string)
    requires TokensAge(t, t', random) && random !in known && Spent(t, known, token)
    ensures Spent(t', known + {random}, token)
  {}

  lemma BookedStays(t: Tables, t': Tables, known: set<string>, random: string)
    requires TokensAge(t, t', random) && random !in known && Booked(t, known)
    ensures Booked(t', known + {random})
  {}

  lemma SameTokensAge(t: Tables, t': Tables, random: string)
    requires Numbered(t) && t'.nextToken == t.nextToken
    requires forall k | k in t'.tokens :: k in t.tokens && t'.tokens[k] == t.tokens[k]
    ensures TokensAge(t, t', random)
  {}

  lemma OtherWritesKeepTokens(t: Tables, orgs: set<int>, ns: string, st: Statement, e: Env)
    requires !WritesTokens(st) && !st.Single?
    ensures var t' := Written(t, orgs, ns, st, e); t'.tokens == t.tokens && t'.nextToken == t.nextToken
  {
    hide Written;
    StatementTouches(t, orgs, ns, st, e);
  }

  lemma OneShotAges(t: Tables, orgs: set<int>, ns: string, act: SingleAct, e: Env)
    requires Numbered(t)
    ensures TokensAge(t, Perform(t, orgs, ns, act, e).t, e.resetToken)
  {
    hide TokensAge, AssignedBy, Unlink, Numbered;
    SameTokensAge(t, t, e.resetToken);
    SameTokensAge(t, Perform(t, orgs, ns, act, e).t, e.resetToken);
  }

  lemma MarkAges(t: Tables, tokenId: int, now: int, random: string)
    requires Numbered(t)
    ensures TokensAge(t, MarkTokenUsed(t, tokenId, now).t, random)
  {
    hide Unique;
    SameTextsStayUnique(t, MarkTokenUsed(t, tokenId, now).t);
  }

  lemma SameTextsStayUnique(t: Tables, t': Tables)
    requires forall k | k in t'.tokens :: k in t.tokens && t'.tokens[k].token == t.tokens[k].token
    ensures Unique(t) ==> Unique(t')
  {}

  lemma CreateAges(t: Tables, userId: int, expiresAt: int, random: string)
    requires Numbered(t)
    ensures TokensAge(t, CreateResetToken(t, userId, random, expiresAt).t, random)
  {}

  /** No transaction clears `used_at`, renames a token or reuses an id. */
  lemma AdvanceAgesTokens(t: Tables, orgs: set<int>, ns: string, l: Local, e: Env)
    requires Numbered(t)
    ensures TokensAge(t, Advance(t, orgs, ns, l, e).0, e.resetToken)
  {
    hide Advance, Perform, Numbered, Unique, TokensAge, MarkTokenUsed, CreateResetToken, StatementOf;
    AdvanceWrites(t, orgs, ns, l, e);
    match StatementOf(l) {
      case Single(act) => OneShotAges(t, orgs, ns, act, e);
      case UpdatingToken(tokenId) => MarkAges(t, tokenId, e.now, e.resetToken);
      case InsertingToken(userId) => CreateAges(t, userId, e.now + DAY, e.resetToken);
      case st =>
        hide Written;
        OtherWritesKeepTokens(t, orgs, ns, st, e);
        SameTokensAge(t, Written(t, orgs, ns, st, e), e.resetToken);
    }
  }

  lemma DropAgesTokens(t: Tables, org: int, random: string)
    requires Numbered(t)
    ensures DropOrganization(t, org).Some? ==> TokensAge(t, DropOrganization(t, org).value, random)
  {}

  /** What else happens to a schema keeps or removes token rows. */
  lemma OthersKeepTokens(t: Tables, orgs: set<int>, ns: string, touch: Touch, e: Env)
    requires !touch.Ticked?
    ensures var t' := After(t, orgs, ns, touch, e);
            t'.nextToken == t.nextToken && forall k | k in t'.tokens :: k in t.tokens && t'.tokens[k] == t.tokens[k]
  {
    hide GroupRows, AssignedBy, Unlink, Advance;
    if touch.Regranted? {
      Granting.GrantsTouchAssignments(t, touch.grant);
    }
    hide Granting.Granted;
  }

  predicate AllBooked(s: Sys) { forall ns | ns in s.db.schemas :: Booked(s.db.schemas[ns], s.resetTokens) }

  lemma StepAgesTokens(s: Sys, m: Move, e: Env, s': Sys, ns: string)
    requires AllBooked(s) && SysStep(s, m, e, s')
    ensures TokensAge(Schema(s.db, ns), Schema(s'.db, ns), e.resetToken)
  {
    hide SysStep, Advance, TokensAge, Numbered, Unique, After;
    StepTouches(s, m, e, s', ns);
    var t, touch := Schema(s.db, ns), Touched(s, m, ns);
    assert Numbered(t) by { EmptyIsBooked(s.resetTokens); }
    SameTokensAge(t, t, e.resetToken);
    if touch.Ticked? {
      AdvanceAgesTokens(t, s.db.orgs.Keys, ns, touch.l, e);
      TickedAfter(t, s.db.orgs.Keys, ns, touch.l, e);
    } else {
      OthersKeepTokens(t, s.db.orgs.Keys, ns, touch, e);
      SameTokensAge(t, After(t, s.db.orgs.Keys, ns, touch, e), e.resetToken);
    }
  }

  lemma TickedAfter(t: Tables, orgs: set<int>, ns: string, l: Local, e: Env)
    ensures After(t, orgs, ns, Ticked(l), e) == Advance(t, orgs, ns, l, e).0
  {
    hide Advance;
  }

  lemma EmptyIsBooked(known: set<string>)
    ensures Booked(Empty(false), known)
  {}

  /** Where a `reset_password` request for `token` can be, and what it knows there. */
  predicate OnTrack(t: Tables, known: set<string>, token: string, l: Local) {
    match l
    case SeekResetToken(text, _) => text == token
    case WriteResetPassword(r, _) => r.token == token && Holds(t, known, r)
    case MarkResetToken(r) => r.token == token && Holds(t, known, r)
    case Finished(out) => out.Ok? ==> Spent(t, known, token)
    case _ => false
  }

  lemma OnTrackStays(t: Tables, t': Tables, known: set<string>, random: string, token: string, l: Local)
    requires TokensAge(t, t', random) && random !in known && OnTrack(t, known, token, l)
    ensures OnTrack(t', known + {random}, token, l)
  {}

  lemma AdvanceStaysOnTrack(t: Tables, orgs: set<int>, ns: string, l: Local, e: Env, known: set<string>, token: string)
    requires Booked(t, known) && OnTrack(t, known, token, l)
    ensures var (t', l') := Advance(t, orgs, ns, l, e); OnTrack(t', known, token, l')
  {
    hide Utf8Length, UpdatePassword, FindValidToken, MarkTokenUsed;
    FoundIsHeld(t, known, token, e);
    match l {
      case WriteResetPassword(r, new_) => FieldUpdatesTouch(t, r.userId, Argon2(new_), false);
      case MarkResetToken(r) => MarkSpends(t, known, r, e.now);
      case _ =>
    }
    hide Booked;
  }

  lemma FoundIsHeld(t: Tables, known: set<string>, token: string, e: Env)
    requires Booked(t, known)
    ensures var r := FindValidToken(t, token, e); r.Some? ==> r.value.token == token && Holds(t, known, r.value)
  {}

  lemma MarkSpends(t: Tables, known: set<string>, r: ResetToken, now: int)
    requires Holds(t, known, r)
    ensures Spent(MarkTokenUsed(t, r.tokenId, now).t, known, r.token)
  {}

  predicate ResetOk(s: Sys) {
    && AllBooked(s)
    && forall id | id in s.threads && s.threads[id].act.ActResetPassword? ::
         OnTrack(Schema(s.db, s.threads[id].ns), s.resetTokens, s.threads[id].act.token, s.threads[id].local)
  }

  lemma StepKeepsOnTrack(s: Sys, m: Move, e: Env, s': Sys, id: int)
    requires ResetOk(s) && SysStep(s, m, e, s')
    requires id in s'.threads && s'.threads[id].act.ActResetPassword?
    ensures OnTrack(Schema(s'.db, s'.threads[id].ns), s'.resetTokens, s'.threads[id].act.token, s'.threads[id].local)
  {
    hide SysStep, Advance, TokensAge, Booked, OnTrack, AllBooked;
    var th := s'.threads[id];
    var t, t' := Schema(s.db, th.ns), Schema(s'.db, th.ns);
    assert s'.resetTokens == s.resetTokens + {e.resetToken} && e.resetToken !in s.resetTokens by {
      NewTokenText(s, m, e, s');
    }
    ThreadMoves(s, m, e, s', id);
    StepTouches(s, m, e, s', th.ns);
    if id !in s.threads {
      StartsOnTrack(t', s'.resetTokens, th.ns, th.act, e);
    } else if th.local == s.threads[id].local {
      StepAgesTokens(s, m, e, s', th.ns);
      OnTrackStays(t, t', s.resetTokens, e.resetToken, th.act.token, th.local);
    } else if th.ns in s.db.schemas {
      BookedSchema(s, th.ns);
      AdvanceStaysOnTrack(t, s.db.orgs.Keys, th.ns, s.threads[id].local, e, s.resetTokens, th.act.token);
      OnTrackGrows(t', s.resetTokens, e.resetToken, th.act.token, th.local);
    } else {
      FailureIsOnTrack(t', s'.resetTokens, th.act.token, Database);
    }
  }

  lemma NewTokenText(s: Sys, m: Move, e: Env, s': Sys)
    requires SysStep(s, m, e, s')
    ensures s'.resetTokens == s.resetTokens + {e.resetToken} && e.resetToken !in s.resetTokens
  {
    hide Moved;
  }

  lemma BookedSchema(s: Sys, ns: string)
    requires AllBooked(s) && ns in s.db.schemas
    ensures Booked(s.db.schemas[ns], s.resetTokens)
  {}

  lemma StartsOnTrack(t: Tables, known: set<string>, ns: string, act: Act, e: Env)
    requires act.ActResetPassword?
    ensures OnTrack(t, known, act.token, Start(ns, act, e))
  {}

  lemma OnTrackGrows(t: Tables, known: set<string>, random: string, token: string, l: Local)
    requires OnTrack(t, known, token, l)
    ensures OnTrack(t, known + {random}, token, l)
  {}

  lemma FailureIsOnTrack(t: Tables, known: set<string>, token: string, err: Error)
    ensures OnTrack(t, known, token, Failure(err))
  {}

  lemma StepKeepsResetOk(s: Sys, m: Move, e: Env, s': Sys)
    requires ResetOk(s) && SysStep(s, m, e, s')
    ensures ResetOk(s')
  {
    hide SysStep, OnTrack, Booked, TokensAge;
    forall ns | ns in s'.db.schemas ensures Booked(s'.db.schemas[ns], s'.resetTokens) {
      NewTokenText(s, m, e, s');
      StepAgesTokens(s, m, e, s', ns);
      EmptyIsBooked(s.resetTokens);
      BookedStays(Schema(s.db, ns), Schema(s'.db, ns), s.resetTokens, e.resetToken);
    }
    forall id | id in s'.threads && s'.threads[id].act.ActResetPassword?
      ensures OnTrack(Schema(s'.db, s'.threads[id].ns), s'.resetTokens, s'.threads[id].act.token, s'.threads[id].local)
    {
      StepKeepsOnTrack(s, m, e, s', id);
    }
  }

  lemma {:induction false} RunsKeepResetOk(r: Interleaved, j: nat)
    requires IsInterleaving(r) && j < |r.states| && ResetOk(r.states[0])
    ensures ResetOk(r.states[j])
  {
    hide ResetOk, SysStep;
    if j > 0 {
      RunsKeepResetOk(r, j - 1);
      assert SysStep(r.states[j - 1], r.moves[j - 1], r.envs[j - 1], r.states[j - 1 + 1]);
      StepKeepsResetOk(r.states[j - 1], r.moves[j - 1], r.envs[j - 1], r.states[j]);
    }
  }

  /** Nothing is in flight and every token in a valid database was made here. */
  predicate Calm(s: Sys) {
    && s.threads == map[]
    && forall ns | ns in s.db.schemas ::
         && TokensOk(s.db.schemas[ns])
         && forall k | k in s.db.schemas[ns].tokens :: s.db.schemas[ns].tokens[k].token in s.resetTokens
  }

  lemma CalmIsResetOk(s: Sys)
    requires Calm(s)
    ensures ResetOk(s)
  {}

  predicate ResetsIn(s: Sys, id: int, ns: string, token: string) {
    id in s.threads && s.threads[id].ns == ns && s.threads[id].act.ActResetPassword? && s.threads[id].act.token == token
  }

  // ----- when exactly a reset succeeds

  predicate Looks(s: Sys, m: Move, id: int) {
    m == Tick(id) && id in s.threads && s.threads[id].act.ActResetPassword? && s.threads[id].local.SeekResetToken?
  }

  /** The step is the first transaction of reset `id`: it finds its token usable, and the password is long enough. */
  predicate Finds(s: Sys, m: Move, e: Env, id: int) {
    && Looks(s, m, id)
    && var th := s.threads[id];
       && th.ns in s.db.schemas
       && FindValidToken(s.db.schemas[th.ns], th.act.token, e).Some?
          && Utf8Length(th.act.newPassword) >= C.MIN_PASSWORD_LENGTH
  }

  /** The step is the last transaction of reset `id`, the one that sets `used_at`. */
  predicate Marks(s: Sys, m: Move, id: int) {
    m == Tick(id) && id in s.threads && s.threads[id].act.ActResetPassword? && s.threads[id].local.MarkResetToken?
  }

  ghost predicate HasFound(r: Interleaved, j: nat, id: int)
    requires Wellformed(r, j)
  {
    exists k | 0 <= k < j :: Finds(r.states[k], r.moves[k], r.envs[k], id)
  }

  ghost predicate HasMarked(r: Interleaved, j: nat, id: int)
    requires Wellformed(r, j)
  {
    exists k | 0 <= k < j :: Marks(r.states[k], r.moves[k], id)
  }

  predicate Succeeded(l: Local) { l.Finished? && l.out.Ok? }

  /** The request is past its first transaction and has not failed. */
  predicate UnderWay(l: Local) { l.WriteResetPassword? || l.MarkResetToken? || Succeeded(l) }

  predicate IsResetOf(act: Act, l: Local) {
    act.ActResetPassword? && (l == SeekResetToken(act.token, act.newPassword) || UnderWay(l) || l.Finished?)
  }

  lemma ResetTransitions(t: Tables, orgs: set<int>, ns: string, act: Act, l: Local, e: Env)
    requires IsResetOf(act, l) && !l.Finished?
    ensures var l' := Advance(t, orgs, ns, l, e).1;
            && IsResetOf(act, l') && (Succeeded(l') <==> l.MarkResetToken?)
            && (UnderWay(l') <==>
                UnderWay(l)
                  || (FindValidToken(t, act.token, e).Some? && Utf8Length(act.newPassword) >= C.MIN_PASSWORD_LENGTH))
  {
    hide FindValidToken, Utf8Length;
  }

  /** The local state of a reset tells whether it has found and whether it has marked its token. */
  predicate Recorded(s: Sys, id: int, found: bool, marked: bool) {
    && (id !in s.threads ==> !found && !marked)
    && (id in s.threads && s.threads[id].act.ActResetPassword? ==>
          var th := s.threads[id];
          && IsResetOf(th.act, th.local) && (found <==> UnderWay(th.local)) && (marked <==> Succeeded(th.local))
          && (UnderWay(th.local) ==> th.ns in s.db.schemas))
  }

  lemma StepRecords(s: Sys, m: Move, e: Env, s': Sys, id: int, found: bool, marked: bool)
    requires SysStep(s, m, e, s') && Recorded(s, id, found, marked)
    ensures Recorded(s', id, found || Finds(s, m, e, id), marked || Marks(s, m, id))
  {
    hide SysStep, Advance, FindValidToken, Utf8Length, After;
    ThreadMoves(s, m, e, s', id);
    if id in s'.threads && s'.threads[id].act.ActResetPassword? {
      StepTouches(s, m, e, s', s'.threads[id].ns);
      if id in s.threads && m == Tick(id) && !s.threads[id].local.Finished? {
        var th := s.threads[id];
        TickAdvances(s, m, e, s', id);
        ResetTransitions(Schema(s.db, th.ns), s.db.orgs.Keys, th.ns, th.act, th.local, e);
      }
    }
  }

  lemma {:induction false} RunsRecord(r: Interleaved, j: nat, id: int)
    requires IsInterleaving(r) && j < |r.states| && r.states[0].threads == map[]
    ensures Recorded(r.states[j], id, HasFound(r, j, id), HasMarked(r, j, id))
  {
    hide SysStep, Recorded, Finds, Marks;
    if j == 0 {
      NothingRecorded(r.states[0], id);
    } else {
      RunsRecord(r, j - 1, id);
      var s, m, e := r.states[j - 1], r.moves[j - 1], r.envs[j - 1];
      assert SysStep(s, m, e, r.states[j - 1 + 1]);
      StepRecords(s, m, e, r.states[j], id, HasFound(r, j - 1, id), HasMarked(r, j - 1, id));
      assert HasFound(r, j, id) <==> HasFound(r, j - 1, id) || Finds(s, m, e, id);
      assert HasMarked(r, j, id) <==> HasMarked(r, j - 1, id) || Marks(s, m, id);
    }
  }

  lemma NothingRecorded(s: Sys, id: int)
    requires id !in s.threads
    ensures Recorded(s, id, false, false)
  {}

  /** In every interleaving, a reset is on its way to success exactly when its first transaction found a usable token
      and the password is long enough: nothing that runs in between stops it after that. It succeeds when it marks the
      token. */
  lemma ResetSucceedsExactly(r: Interleaved, j: nat, id: int)
    requires IsInterleaving(r) && j < |r.states| && r.states[0].threads == map[]
    requires id in r.states[j].threads && r.states[j].threads[id].act.ActResetPassword?
    ensures UnderWay(r.states[j].threads[id].local) <==> HasFound(r, j, id)
    ensures Succeeded(r.states[j].threads[id].local) <==> HasMarked(r, j, id)
  {
    RunsRecord(r, j, id);
  }

  // ----- which rows are used

  /** Rows keep `used_at`, except that those in `marked` are used now; new rows are unused. */
  predicate UseChanges(t: Tables, t': Tables, marked: set<int>) {
    forall k | k in t'.tokens ::
      if k < t.nextToken then k in t.tokens && (t'.tokens[k].usedAt.Some? <==> t.tokens[k].usedAt.Some? || k in marked)
      else t'.tokens[k].usedAt.None?
  }

  function Marking(st: Statement): set<int> { if st.UpdatingToken? then {st.tokenId} else {} }

  lemma SameTokensUse(t: Tables, t': Tables)
    requires Numbered(t) && forall k | k in t'.tokens :: k in t.tokens && t'.tokens[k] == t.tokens[k]
    ensures UseChanges(t, t', {})
  {}

  lemma OneShotUses(t: Tables, orgs: set<int>, ns: string, act: SingleAct, e: Env)
    requires Numbered(t)
    ensures UseChanges(t, Perform(t, orgs, ns, act, e).t, {})
  {
    hide UseChanges, AssignedBy, Unlink, Numbered;
    SameTokensUse(t, t);
    SameTokensUse(t, Perform(t, orgs, ns, act, e).t);
  }

  lemma TokenStatementsUse(t: Tables, orgs: set<int>, ns: string, st: Statement, e: Env)
    requires Numbered(t) && WritesTokens(st)
    ensures UseChanges(t, Written(t, orgs, ns, st, e), Marking(st))
  {}

  /** `used_at` is set by the transaction that marks the token, and by no other. */
  lemma StatementUses(t: Tables, orgs: set<int>, ns: string, st: Statement, e: Env)
    requires Numbered(t)
    ensures UseChanges(t, Written(t, orgs, ns, st, e), Marking(st))
  {
    hide UseChanges, Numbered, Perform;
    if st.Single? {
      OneShotUses(t, orgs, ns, st.act, e);
    } else if WritesTokens(st) {
      hide Written;
      TokenStatementsUse(t, orgs, ns, st, e);
    } else {
      hide Written;
      OtherWritesKeepTokens(t, orgs, ns, st, e);
      SameTokensUse(t, Written(t, orgs, ns, st, e));
    }
  }

  /** The rows of `ns` that a step marks. */
  function MarkedIn(s: Sys, m: Move, ns: string): set<int> {
    match Touched(s, m, ns)
    case Ticked(l) => Marking(StatementOf(l)) * Schema(s.db, ns).tokens.Keys
    case _ => {}
  }

  lemma StepUses(s: Sys, m: Move, e: Env, s': Sys, ns: string)
    requires AllBooked(s) && SysStep(s, m, e, s')
    ensures UseChanges(Schema(s.db, ns), Schema(s'.db, ns), MarkedIn(s, m, ns))
  {
    hide SysStep, Advance, Numbered, Unique, Written, StatementOf, UseChanges, After;
    StepTouches(s, m, e, s', ns);
    var t, touch := Schema(s.db, ns), Touched(s, m, ns);
    assert Numbered(t) by { EmptyIsBooked(s.resetTokens); }
    if touch.Ticked? {
      AdvanceWrites(t, s.db.orgs.Keys, ns, touch.l, e);
      TickedAfter(t, s.db.orgs.Keys, ns, touch.l, e);
      StatementUses(t, s.db.orgs.Keys, ns, StatementOf(touch.l), e);
      if ns in s.db.schemas {
        UseOfPresent(t, Schema(s'.db, ns), Marking(StatementOf(touch.l)));
      } else {
        SameTokensUse(t, t);
        assert MarkedIn(s, m, ns) == {};
      }
    } else {
      OthersKeepTokens(t, s.db.orgs.Keys, ns, touch, e);
      SameTokensUse(t, After(t, s.db.orgs.Keys, ns, touch, e));
      SameTokensUse(t, t);
    }
  }

  lemma UseOfPresent(t: Tables, t': Tables, marked: set<int>)
    requires UseChanges(t, t', marked)
    ensures UseChanges(t, t', marked * t.tokens.Keys)
  {}

  /** The rows of `ns` that were used at the start, or that a reset has marked since. */
  function MarkedBefore(r: Interleaved, j: nat, ns: string): set<int>
    requires Wellformed(r, j)
  {
    if j == 0 then
      var t := Schema(r.states[0].db, ns);
      set k | k in t.tokens && t.tokens[k].usedAt.Some?
    else MarkedBefore(r, j - 1, ns) + MarkedIn(r.states[j - 1], r.moves[j - 1], ns)
  }

  predicate UsedExactly(t: Tables, marked: set<int>) {
    (forall k | k in t.tokens :: t.tokens[k].usedAt.Some? <==> k in marked) && forall k | k in marked :: k < t.nextToken
  }

  lemma UseStays(t: Tables, t': Tables, before: set<int>, marked: set<int>)
    requires UsedExactly(t, before) && UseChanges(t, t', marked)
    requires Numbered(t) && marked <= t.tokens.Keys && t.nextToken <= t'.nextToken
    ensures UsedExactly(t', before + marked)
  {}

  lemma {:induction false} MarkedAreUsed(r: Interleaved, j: nat, ns: string)
    requires IsInterleaving(r) && j < |r.states| && Calm(r.states[0])
    ensures UsedExactly(Schema(r.states[j].db, ns), MarkedBefore(r, j, ns))
  {
    hide SysStep, Calm, UseChanges, Unique, UsedExactly, Spent, OnTrack;
    CalmIsResetOk(r.states[0]);
    RunsKeepResetOk(r, j);
    EmptyIsBooked({});
    if j == 0 {
      InitialUse(Schema(r.states[0].db, ns));
    } else {
      MarkedAreUsed(r, j - 1, ns);
      RunsKeepResetOk(r, j - 1);
      var s, m, e, s' := r.states[j - 1], r.moves[j - 1], r.envs[j - 1], r.states[j];
      assert SysStep(s, m, e, r.states[j - 1 + 1]);
      StepUses(s, m, e, s', ns);
      StepAgesTokens(s, m, e, s', ns);
      UseStays(Schema(s.db, ns), Schema(s'.db, ns), MarkedBefore(r, j - 1, ns), MarkedIn(s, m, ns));
    }
  }

  lemma InitialUse(t: Tables)
    requires Numbered(t)
    ensures UsedExactly(t, set k | k in t.tokens && t.tokens[k].usedAt.Some?)
  {}

  /** A token is found exactly when a row of that text is there, its expiry is still to come and no reset has marked it
      yet. */
  lemma FoundUntilMarked(r: Interleaved, j: nat, ns: string, token: string, e: Env)
    requires IsInterleaving(r) && j < |r.states| && Calm(r.states[0])
    ensures var t := Schema(r.states[j].db, ns);
            FindValidToken(t, token, e).Some? <==>
            exists k | k in t.tokens ::
              t.tokens[k].token == token && e.now < t.tokens[k].expiresAt && k !in MarkedBefore(r, j, ns)
  {
    hide MarkedBefore, Calm;
    MarkedAreUsed(r, j, ns);
    var t := Schema(r.states[j].db, ns);
    assert forall k :: k in ValidTokenRows(t, token, e.now) <==>
      k in t.tokens && t.tokens[k].token == token && e.now < t.tokens[k].expiresAt && k !in MarkedBefore(r, j, ns);
  }

  // ----- resets with one token

  lemma {:induction false} SpentStaysInRun(r: Interleaved, i: nat, j: nat, ns: string, token: string)
    requires IsInterleaving(r) && i <= j < |r.states| && Calm(r.states[0])
    requires Spent(Schema(r.states[i].db, ns), r.states[i].resetTokens, token)
    ensures Spent(Schema(r.states[j].db, ns), r.states[j].resetTokens, token)
    decreases j - i
  {
    hide SysStep, Spent, Calm, AllBooked;
    if i < j {
      SpentStaysInRun(r, i, j - 1, ns, token);
      CalmIsResetOk(r.states[0]);
      RunsKeepResetOk(r, j - 1);
      var s, m, e, s' := r.states[j - 1], r.moves[j - 1], r.envs[j - 1], r.states[j];
      assert SysStep(s, m, e, r.states[j - 1 + 1]);
      NewTokenText(s, m, e, s');
      StepAgesTokens(s, m, e, s', ns);
      SpentStays(Schema(s.db, ns), Schema(s'.db, ns), s.resetTokens, e.resetToken, token);
    }
  }

  lemma {:induction false} ThreadsStay(r: Interleaved, i: nat, j: nat, id: int)
    requires IsInterleaving(r) && i <= j < |r.states| && id in r.states[i].threads
    ensures id in r.states[j].threads
    ensures r.states[j].threads[id] == r.states[i].threads[id].(local := r.states[j].threads[id].local)
    decreases j - i
  {
    hide SysStep;
    if i < j {
      ThreadsStay(r, i, j - 1, id);
      assert SysStep(r.states[j - 1], r.moves[j - 1], r.envs[j - 1], r.states[j - 1 + 1]);
      ThreadMoves(r.states[j - 1], r.moves[j - 1], r.envs[j - 1], r.states[j], id);
    }
  }

  /** A spent token is found by nobody. */
  lemma SpentIsNotFound(t: Tables, known: set<string>, token: string, e: Env)
    requires Spent(t, known, token)
    ensures FindValidToken(t, token, e).None?
  {}

  /** Behind a success nobody finds the token any more. */
  lemma NoFindAfterSuccess(r: Interleaved, i: nat, k: nat, a: int, b: int, ns: string, token: string)
    requires IsInterleaving(r) && i <= k < |r.moves| && Calm(r.states[0])
    requires ResetsIn(r.states[i], a, ns, token) && Succeeded(r.states[i].threads[a].local)
    requires ResetsIn(r.states[k], b, ns, token)
    ensures !Finds(r.states[k], r.moves[k], r.envs[k], b)
  {
    hide Calm, SysStep, Spent, AllBooked;
    CalmIsResetOk(r.states[0]);
    RunsKeepResetOk(r, i);
    FinishedIsSpent(Schema(r.states[i].db, ns), r.states[i].resetTokens, token, r.states[i].threads[a].local);
    SpentStaysInRun(r, i, k, ns, token);
    SpentIsNotFound(Schema(r.states[k].db, ns), r.states[k].resetTokens, token, r.envs[k]);
  }

  lemma FinishedIsSpent(t: Tables, known: set<string>, token: string, l: Local)
    requires OnTrack(t, known, token, l) && Succeeded(l)
    ensures Spent(t, known, token)
  {}

  /** Once a reset has completed, every later-starting one with the same token fails, however all requests
      interleave. */
  lemma LaterResetFails(r: Interleaved, i: nat, j: nat, a: int, b: int, ns: string, token: string)
    requires IsInterleaving(r) && i <= j < |r.states| && Calm(r.states[0])
    requires ResetsIn(r.states[i], a, ns, token) && Succeeded(r.states[i].threads[a].local)
    requires b !in r.states[i].threads && ResetsIn(r.states[j], b, ns, token) && r.states[j].threads[b].local.Finished?
    ensures r.states[j].threads[b].local.out.Err?
  {
    hide SysStep, Finds;
    ResetSucceedsExactly(r, j, b);
    if HasFound(r, j, b) {
      var k :| 0 <= k < j && Finds(r.states[k], r.moves[k], r.envs[k], b);
      assert b in r.states[k].threads by { FindingIsRunning(r.states[k], r.moves[k], r.envs[k], b); }
      ThreadsStay(r, k, j, b);
      if k < i { ThreadsStay(r, k, i, b); }
      NoFindAfterSuccess(r, i, k, a, b, ns, token);
    }
  }

  lemma FindingIsRunning(s: Sys, m: Move, e: Env, id: int)
    requires Finds(s, m, e, id)
    ensures id in s.threads && m == Tick(id)
  {}

  /** The first transaction of each of the two comes before the last one of the other. */
  ghost predicate Overlap(r: Interleaved, j: nat, a: int, b: int)
    requires Wellformed(r, j)
  {
    exists fa, ma, fb, mb ::
      && 0 <= fa < mb < j && 0 <= fb < ma < j
      && Finds(r.states[fa], r.moves[fa], r.envs[fa], a) && Marks(r.states[ma], r.moves[ma], a)
      && Finds(r.states[fb], r.moves[fb], r.envs[fb], b) && Marks(r.states[mb], r.moves[mb], b)
  }

  lemma FindPrecedesMark(r: Interleaved, j: nat, a: int, b: int, ns: string, token: string, m: nat, f: nat)
    requires IsInterleaving(r) && j < |r.states| && Calm(r.states[0]) && a != b && m < j && f < j
    requires ResetsIn(r.states[j], a, ns, token) && ResetsIn(r.states[j], b, ns, token)
    requires Marks(r.states[m], r.moves[m], a) && Finds(r.states[f], r.moves[f], r.envs[f], b)
    ensures f < m
  {
    hide SysStep, FindValidToken, TokensOk;
    ThreadsStay(r, f, j, b);
    if m < f {
      ThreadsStay(r, m, j, a);
      ThreadsStay(r, m, m + 1, a);
      ResetSucceedsExactly(r, m + 1, a);
      NoFindAfterSuccess(r, m + 1, f, a, b, ns, token);
    }
  }

  lemma OverlappingMark(r: Interleaved, j: nat, a: int, b: int)
    requires Wellformed(r, j) && Overlap(r, j, a, b)
    ensures HasMarked(r, j, a) && HasMarked(r, j, b)
  {
    hide Finds, Marks;
  }

  /** Two resets both change a password with one token exactly when each has found it before the other marks it. */
  lemma BothSucceedExactly(r: Interleaved, j: nat, a: int, b: int, ns: string, token: string)
    requires IsInterleaving(r) && j < |r.states| && Calm(r.states[0]) && a != b
    requires ResetsIn(r.states[j], a, ns, token) && ResetsIn(r.states[j], b, ns, token)
    ensures Succeeded(r.states[j].threads[a].local) && Succeeded(r.states[j].threads[b].local) <==> Overlap(r, j, a, b)
  {
    hide SysStep, Finds, Marks, TokensOk, Overlap, Succeeded, UnderWay;
    ResetSucceedsExactly(r, j, a);
    ResetSucceedsExactly(r, j, b);
    SuccessIsUnderWay(r.states[j].threads[a].local);
    SuccessIsUnderWay(r.states[j].threads[b].local);
    if Succeeded(r.states[j].threads[a].local) && Succeeded(r.states[j].threads[b].local) {
      var fa :| 0 <= fa < j && Finds(r.states[fa], r.moves[fa], r.envs[fa], a);
      var ma :| 0 <= ma < j && Marks(r.states[ma], r.moves[ma], a);
      var fb :| 0 <= fb < j && Finds(r.states[fb], r.moves[fb], r.envs[fb], b);
      var mb :| 0 <= mb < j && Marks(r.states[mb], r.moves[mb], b);
      FindPrecedesMark(r, j, a, b, ns, token, ma, fb);
      FindPrecedesMark(r, j, b, a, ns, token, mb, fa);
      TheyOverlap(r, j, a, b, fa, ma, fb, mb);
    }
    if Overlap(r, j, a, b) { OverlappingMark(r, j, a, b); }
  }

  lemma SuccessIsUnderWay(l: Local)
    ensures Succeeded(l) ==> UnderWay(l)
  {}

  lemma TheyOverlap(r: Interleaved, j: nat, a: int, b: int, fa: nat, ma: nat, fb: nat, mb: nat)
    requires Wellformed(r, j) && fa < mb < j && fb < ma < j
    requires Finds(r.states[fa], r.moves[fa], r.envs[fa], a) && Marks(r.states[ma], r.moves[ma], a)
    requires Finds(r.states[fb], r.moves[fb], r.envs[fb], b) && Marks(r.states[mb], r.moves[mb], b)
    ensures Overlap(r, j, a, b)
  {
    hide Finds, Marks;
  }
}
