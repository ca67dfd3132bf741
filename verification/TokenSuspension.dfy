/** Suspending a user while refresh calls and sign-ins are in flight: backend/src/users/users.service.ts
  * deletes the user's rows together with the change of status, and rotation and sign-in refuse users
  * they read as suspended. But both issue later than they read.
  */
module TokenSuspension {
  import T = Tokens
  import opened TokenRaces
  import opened Numbers

  predicate NoRows(tokens: T.Store, user: T.Id) {
    forall t :: t in tokens ==> tokens[t].user != user
  }

  /** The call has read a row of the user and may still issue from it. */
  predicate MayServe(s: Sys, c: T.Id, user: T.Id) {
    Pending(s, c) && s.calls[c].phase.row.user == user
  }

  /** The sign-in has read the user as active and has not issued yet. */
  predicate SigningIn(s: Sys, l: T.Id, user: T.Id) {
    l in s.logins && s.logins[l] == user
  }

  /** Nothing in flight can issue for the user. */
  ghost predicate NothingInFlight(s: Sys, user: T.Id) {
    (forall c :: !MayServe(s, c, user)) && (forall l :: !SigningIn(s, l, user))
  }

  ghost predicate Frozen(s: Sys, user: T.Id) {
    user in s.suspended && NoRows(s.tokens, user) && NothingInFlight(s, user)
  }

  /** No one who is refused starts again. */
  lemma NothingTakesOff(s: Sys, st: Step, user: T.Id)
    requires Frozen(s, user) && Enabled(s, st) && st != Reopen(user)
    ensures NothingInFlight(Next(s, st), user)
  {
    forall c
      ensures !MayServe(Next(s, st), c, user)
    {
      assert !MayServe(s, c, user);
    }
    forall l
      ensures !SigningIn(Next(s, st), l, user)
    {
      assert !SigningIn(s, l, user);
    }
  }

  lemma StepKeepsFrozen(s: Sys, st: Step, user: T.Id)
    requires Frozen(s, user) && Enabled(s, st) && st != Reopen(user)
    ensures Frozen(Next(s, st), user)
  {
    NothingTakesOff(s, st, user);
    if st.Claim? || st.Join? {
      assert !MayServe(s, st.c, user);
    } else if st.Open? {
      assert !SigningIn(s, st.l, user);
    }
  }

  lemma {:induction false} FrozenUsersStayOut(s: Sys, steps: seq<Step>, s': Sys, user: T.Id)
    requires Frozen(s, user) && Run(s, steps, s') && Reopen(user) !in steps
    ensures NoRows(s'.tokens, user)
    decreases |steps|
  {
    if steps != [] {
      StepKeepsFrozen(s, steps[0], user);
      FrozenUsersStayOut(Next(s, steps[0]), steps[1..], s', user);
    }
  }

  /** s' continues s, and the user is not made active again. */
  ghost predicate ReachesSuspended(s: Sys, s': Sys, user: T.Id) {
    exists steps :: Run(s, steps, s') && Reopen(user) !in steps
  }

  /** A sign-in under way can give the suspended user a live row. */
  lemma SignInsRevive(s: Sys, l: T.Id, user: T.Id) returns (s': Sys)
    requires SigningIn(s, l, user)
    ensures ReachesSuspended(s, s', user) && !NoRows(s'.tokens, user)
  {
    var token := AboveAll(s.drawn.Keys);
    var family := AboveAll(s.families.Keys);
    s' := Next(s, Open(l, token, family));
    OneStep(s, Open(l, token, family));
    assert s'.tokens[token].user == user;
  }

  /** Such a row is good for another once the user is active again. */
  lemma RevivedRowIsUsable(s: Sys, t: T.Id, minted: T.Id)
    requires t in s.tokens && s.tokens[t].usedAt.None? && s.now <= s.tokens[t].expiresAt
    ensures var s' := Next(s, Reopen(s.tokens[t].user));
            T.Rotate(s'.tokens, t, s'.suspended, s'.now, minted).1.Ok?
  {
  }

  /** A suspended user has no row in any continuation of the suspension exactly when no rotation in
    * flight has read one of the user's rows and may still issue from it, and no sign-in in flight has
    * read the user as active. */
  lemma SuspensionIsFinalIff(s: Sys, user: T.Id)
    requires user in s.suspended && NoRows(s.tokens, user)
    ensures (forall s' :: ReachesSuspended(s, s', user) ==> NoRows(s'.tokens, user)) <==> NothingInFlight(s, user)
  {
    if c :| MayServe(s, c, user) {
      var steps, s', minted := PendingCallsRevive(s, c);
      assert ReachesSuspended(s, s', user) && !NoRows(s'.tokens, user);
    } else if l :| SigningIn(s, l, user) {
      var s' := SignInsRevive(s, l, user);
    } else {
      forall s' | ReachesSuspended(s, s', user)
        ensures NoRows(s'.tokens, user)
      {
        var steps :| Run(s, steps, s') && Reopen(user) !in steps;
        FrozenUsersStayOut(s, steps, s', user);
      }
    }
  }

  /** It happens: the user is suspended between a rotation's tests and its claim. */
  lemma SuspendedMidRotation() returns (steps: seq<Step>, s: Sys)
    ensures Run(START, steps, s) && 7 in s.suspended && NoRows(s.tokens, 7) && MayServe(s, 0, 7)
  {
    var first, signedIn := SignIn(7);
    var judging, judged := ReadAndJudge(signedIn, 0, 0);
    s := Next(judged, Shut(7));
    OneStep(judged, Shut(7));
    RunJoins(signedIn, judging, judged, [Shut(7)], s);
    RunJoins(START, first, signedIn, judging + [Shut(7)], s);
    steps := first + (judging + [Shut(7)]);
  }

  /** And between a sign-in's test of the status and its issue, with no rotation in flight. */
  lemma SuspendedMidSignIn() returns (steps: seq<Step>, s: Sys)
    ensures Run(START, steps, s) && 7 in s.suspended && NoRows(s.tokens, 7) && SigningIn(s, 0, 7)
    ensures forall c :: !MayServe(s, c, 7)
  {
    var admitted := Next(START, Admit(0, 7));
    s := Next(admitted, Shut(7));
    OneStep(admitted, Shut(7));
    OneMore(START, Admit(0, 7), [Shut(7)], s);
    steps := [Admit(0, 7)] + [Shut(7)];
  }
}
