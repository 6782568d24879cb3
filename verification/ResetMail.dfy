/** Whose password the reset mail of an administrator resets. */
module ResetMail {
  import opened Wrappers
  import opened Text
  import opened Environment
  import opened Tables
  import opened Constraints
  import C = Constants
  import Accounts
  import Email

  /** If the mail goes out, its token is for user `userId`. */
  predicate Addressed(t: Tables, userId: int, e: Env, q: Planner) {
    var x := Accounts.SendReset(t, userId, e.(planner := q));
    x.out.Ok? ==> t.nextToken in x.t.tokens && x.t.tokens[t.nextToken].userId == userId
  }

  /** No other row has the e-mail of `userId`, whatever the case. */
  predicate OnlyMailbox(t: Tables, userId: int)
    requires userId in t.users
  {
    forall u | u in t.users && u != userId :: Lower(t.users[u].email) != Lower(t.users[userId].email)
  }

  /** The planner `q`, except that it returns `u` when the rows are `rows`. */
  ghost function Picking(q: Planner, rows: set<int>, u: int): (p: Planner)
    requires u in rows
    ensures p.pick(rows) == u
  {
    Rows(s => if s == rows then u else q.pick(s), q.order)
  }

  /** A reset that can be sent is addressed to the selected user, whichever row its e-mail finds, exactly when no other
      row has that e-mail in some other case. */
  lemma SendResetExactly(t: Tables, userId: int, e: Env)
    requires Valid(t) && Accounts.SendReset(t, userId, e).out.Ok?
    ensures (forall q: Planner :: Addressed(t, userId, e, q)) <==> OnlyMailbox(t, userId)
  {
    hide Lower;
    var rows := EmailRows(t, t.users[userId].email);
    assert t.users[userId].userId == userId && userId in rows;
    assert forall u | u in t.users :: t.users[u].userId == u;
    hide Valid;
    if OnlyMailbox(t, userId) {
      assert rows == {userId};
      forall q: Planner ensures Addressed(t, userId, e, q) { SentTo(t, userId, e, q); }
    } else {
      var u :| u in t.users && u != userId && Lower(t.users[u].email) == Lower(t.users[userId].email);
      var q := Picking(e.planner, rows, u);
      SentTo(t, userId, e, q);
      assert !Addressed(t, userId, e, q);
    }
  }

  lemma SentTo(t: Tables, userId: int, e: Env, q: Planner)
    requires userId in t.users && forall u | u in t.users :: t.users[u].userId == u
    requires Accounts.SendReset(t, userId, e).out.Ok?
    ensures var x := Accounts.SendReset(t, userId, e.(planner := q));
            x.out.Ok? && x.t.tokens[t.nextToken].userId == First(q, EmailRows(t, t.users[userId].email)).value
  {
    hide Lower;
  }

  /** In the global schema, whose index compares lower-case e-mails, it always is. */
  lemma GlobalResetsAreAddressed(t: Tables, userId: int, e: Env)
    requires Valid(t) && t.global
    ensures Addressed(t, userId, e, e.planner)
  {
    hide Lower;
    if Accounts.SendReset(t, userId, e).out.Ok? {
      SendResetExactly(t, userId, e);
      assert OnlyMailbox(t, userId);
      hide Accounts.SendReset, Valid, EmailRows;
    }
  }

  /** A tenant's index compares e-mails as they are written, so `taker` may take the e-mail of `owner` in another
      case. */
  predicate Takes(t: Tables, owner: int, taker: int, email: string) {
    && !t.global && owner in t.users && taker in t.users && owner != taker
    && Email.IsEmail(email) && |email| <= 255 && |t.users[taker].username| <= 50
    && Lower(email) == Lower(t.users[owner].email) && forall u | u in t.users :: t.users[u].email != email
  }

  lemma TakingSucceeds(t: Tables, ns: string, owner: int, taker: int, email: string, q: Planner)
    requires Valid(t) && Takes(t, owner, taker, email)
    ensures var x := Accounts.UpdateUser(t, ns, taker, Some(email), None, None, q);
            x.out.Ok? && x.t == t.(users := t.users[taker := t.users[taker].(email := email)]) && Valid(x.t)
  {
    assert t.users[taker].userId == taker;
    UpdateProfileKeeps(t, taker, email, t.users[taker].username);
    assert ProfileFits(t, taker, email, t.users[taker].username);
    hide Email.IsEmail, Lower, Valid, Accounts.Respond, ProfileFits;
  }

  lemma SendingSucceeds(t: Tables, userId: int, e: Env)
    requires Valid(t) && userId in t.users
    requires t.nextToken <= C.MAX_I64 && forall k | k in t.tokens :: t.tokens[k].token != e.resetToken
    ensures Accounts.SendReset(t, userId, e).out.Ok?
  {
    hide Lower;
    assert userId in EmailRows(t, t.users[userId].email);
    forall u | u in t.users ensures t.users[u].userId == u {}
    hide EmailRows, Valid;
  }

  /** After that, the mail an administrator sends for the owner can carry a token for the taker. */
  lemma MailForSomebodyElse(t: Tables, ns: string, owner: int, taker: int, email: string, e: Env)
    requires Valid(t) && Takes(t, owner, taker, email)
    requires t.nextToken <= C.MAX_I64 && forall k | k in t.tokens :: t.tokens[k].token != e.resetToken
    ensures var x := Accounts.UpdateUser(t, ns, taker, Some(email), None, None, e.planner);
            && x.out.Ok? && Valid(x.t) && Accounts.SendReset(x.t, owner, e).out.Ok?
            && exists q: Planner :: !Addressed(x.t, owner, e, q)
  {
    hide Valid, Email.IsEmail, Lower, Accounts.UpdateUser, Accounts.SendReset, Addressed;
    TakingSucceeds(t, ns, owner, taker, email, e.planner);
    var x := Accounts.UpdateUser(t, ns, taker, Some(email), None, None, e.planner);
    SendingSucceeds(x.t, owner, e);
    SendResetExactly(x.t, owner, e);
    assert taker in x.t.users && Lower(x.t.users[taker].email) == Lower(x.t.users[owner].email);
    assert !OnlyMailbox(x.t, owner);
  }

  /** A tenant of two. */
  function Ann(): User { User(1, 1, "A@x.y", "ann", Argon2("password"), false) }
  function Bob(): User { User(2, 1, "b@x.y", "bob", Argon2("password"), false) }
  function Two(): Tables { Empty(false).(users := map[1 := Ann(), 2 := Bob()], nextUser := 3) }

  lemma TwoIsValid()
    ensures Valid(Two())
  {
    assert Ann().email[0] != Bob().email[0] && Ann().username[0] != Bob().username[0];
    hide Lower;
  }

  lemma MailIsEmail()
    ensures Email.IsEmail("a@x.y")
  {
    hide Email.IsEmail;
    assert Email.Reads("a@x.y", "a", "x", "y");
    Email.EmailScan("a@x.y", "a", "x", "y");
  }

  lemma LowerKeepsTail(c: char, tail: string)
    ensures Lower([c] + tail) == [AsciiLowerChar(c)] + Lower(tail)
  {}

  lemma MailInOtherCase()
    ensures Lower("a@x.y") == Lower(Ann().email)
  {
    hide Lower;
    LowerKeepsTail('a', "@x.y");
    LowerKeepsTail('A', "@x.y");
    assert "a@x.y" == ['a'] + "@x.y" && "A@x.y" == ['A'] + "@x.y";
  }

  /** It has room for such a change. */
  lemma BobTakesAnnsMail()
    ensures Valid(Two()) && Takes(Two(), 1, 2, "a@x.y")
  {
    TwoIsValid();
    MailIsEmail();
    MailInOtherCase();
    hide Email.IsEmail, Lower, Valid;
    assert "a@x.y"[0] != Ann().email[0] && "a@x.y"[0] != Bob().email[0];
  }
}
