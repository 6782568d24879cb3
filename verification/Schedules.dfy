/** Building interleavings: a run can always go on, with random values nobody has drawn before. */
module Schedules {
  import opened Environment
  import opened Tables
  import opened Organizations
  import opened Requests
  import opened Steps
  import opened Interleaving
  import Accounts

  function Last(r: Interleaved): Sys
    requires |r.states| > 0
  {
    r.states[|r.states| - 1]
  }

  function JustStarted(s: Sys): Interleaved { Interleaved([s], [], []) }

  /** `r'` is `r` with more steps. */
  ghost predicate Continues(r: Interleaved,
                            r': Interleaved) { r.states <= r'.states && r.moves <= r'.moves && r.envs <= r'.envs }

  lemma {:induction false} LengthBound(known: set<string>) returns (n: nat)
    ensures forall x | x in known :: |x| < n
  {
    n := 0;
    if x :| x in known {
      n := LengthBound(known - {x});
      n := if n <= |x| then |x| + 1 else n;
    }
  }

  lemma NewText(known: set<string>) returns (x: string)
    ensures x !in known
  {
    var n := LengthBound(known);
    x := seq(n, i => 'a');
  }

  /** Any move can come next, in an environment like `e` but for the random text. */
  lemma Extend(r: Interleaved, m: Move, e: Env) returns (r': Interleaved, e': Env)
    requires IsInterleaving(r)
    ensures IsInterleaving(r') && Continues(r, r') && |r'.states| == |r.states| + 1 && r'.moves == r.moves + [m]
    ensures e' == e.(resetToken := e'.resetToken) && SysStep(Last(r), m, e', Last(r'))
  {
    hide Moved;
    var text := NewText(Last(r).resetTokens);
    e' := e.(resetToken := text);
    var s' := Moved(Last(r), m, e').(resetTokens := Last(r).resetTokens + {text});
    r' := Interleaved(r.states + [s'], r.moves + [m], r.envs + [e']);
  }

  lemma BeginOn(r: Interleaved, id: int, ns: string, act: Act, e: Env) returns (r': Interleaved)
    requires IsInterleaving(r) && id !in Last(r).threads && !act.ActResetUserPassword?
    ensures IsInterleaving(r') && Continues(r, r') && r'.moves == r.moves + [Begin(id, ns, act)]
    ensures Last(r').db == Last(r).db && Last(r').threads == Last(r).threads[id := Thread(ns, act, Start(ns, act, e))]
  {
    var e';
    r', e' := Extend(r, Begin(id, ns, act), e);
    hide Accounts.ReservedIn;
  }

  /** The transactions of a registration or a reset draw nothing. */
  predicate DrawsNothing(l: Local) {
    CreatesUser(l) || l.ReadGroups? || l.SeekResetToken? || l.WriteResetPassword? || l.MarkResetToken?
  }

  lemma NothingDrawn(t: Tables, orgs: set<int>, ns: string, l: Local, e: Env, text: string)
    requires DrawsNothing(l)
    ensures Advance(t, orgs, ns, l, e.(resetToken := text)) == Advance(t, orgs, ns, l, e)
  {
    hide FindByEmail, FindByUsername, FindGroupByName, InsertUser, InsertGroup, AssignUserToGroup, Accounts.Respond,
      UpdatePassword, MarkTokenUsed, Resolving, Counted;
  }

  /** Any such request can run its next transaction next. */
  lemma TickOn(r: Interleaved, id: int, e: Env) returns (r': Interleaved)
    requires IsInterleaving(r) && id in Last(r).threads
    requires var th := Last(r).threads[id]; th.ns in Last(r).db.schemas && DrawsNothing(th.local)
    ensures IsInterleaving(r') && Continues(r, r') && r'.moves == r.moves + [Tick(id)]
    ensures var s, th := Last(r), Last(r).threads[id];
            var (t, l) := Advance(s.db.schemas[th.ns], s.db.orgs.Keys, th.ns, th.local, e);
            Last(r').threads == s.threads[id := th.(local := l)]
              && Last(r').db == s.db.(schemas := s.db.schemas[th.ns := t])
  {
    var s, th := Last(r), Last(r).threads[id];
    var e';
    r', e' := Extend(r, Tick(id), e);
    NothingDrawn(s.db.schemas[th.ns], s.db.orgs.Keys, th.ns, th.local, e, e'.resetToken);
    hide Advance;
  }

  lemma CreationDrawsNothing(t: Tables, orgs: set<int>, ns: string, l: Local, e: Env)
    requires CreatesUser(l) || l.ReadGroups?
    ensures var l' := Advance(t, orgs, ns, l, e).1; CreatesUser(l') || l'.ReadGroups? || l'.Finished?
  {
    hide FindByEmail, FindByUsername, FindGroupByName, InsertUser, InsertGroup, AssignUserToGroup, Accounts.Respond,
      Accounts.ReservedIn, Accounts.RegistrationGroups;
  }

  /** A registration can run to its end with nothing in between. */
  lemma {:induction false} DriveOn(r: Interleaved, id: int, e: Env) returns (r': Interleaved)
    requires IsInterleaving(r) && id in Last(r).threads
    requires var th := Last(r).threads[id];
             th.ns in Last(r).db.schemas && (CreatesUser(th.local) || th.local.ReadGroups? || th.local.Finished?)
    ensures IsInterleaving(r') && Continues(r, r') && forall k | |r.moves| <= k < |r'.moves| :: r'.moves[k] == Tick(id)
    ensures var s, th := Last(r), Last(r).threads[id];
            var x := Drive(s.db.schemas[th.ns], s.db.orgs.Keys, th.ns, th.local, e);
            && Last(r').threads == s.threads[id := th.(local := Finished(x.out))]
            && Last(r').db == s.db.(schemas := s.db.schemas[th.ns := x.t])
    decreases Left(Last(r).threads[id].local)
  {
    hide Advance, Left;
    var s, th := Last(r), Last(r).threads[id];
    if th.local.Finished? {
      r' := r;
      assert s.threads[id := th] == s.threads;
      assert s.db.schemas[th.ns := s.db.schemas[th.ns]] == s.db.schemas;
    } else {
      var t, orgs := s.db.schemas[th.ns], s.db.orgs.Keys;
      AdvanceProgresses(t, orgs, th.ns, th.local, e);
      CreationDrawsNothing(t, orgs, th.ns, th.local, e);
      var r1 := TickOn(r, id, e);
      r' := DriveOn(r1, id, e);
      var (t1, l1) := Advance(t, orgs, th.ns, th.local, e);
      var x := Drive(t1, orgs, th.ns, l1, e);
      assert s.db.schemas[th.ns := t1][th.ns := x.t] == s.db.schemas[th.ns := x.t];
    }
  }
}
