/** Refresh-token rotation taken apart: each database statement of each call is a step of its own.
  *
  * Two branches of rotate issue a sibling from the row as it was first read, without reading it
  * again. So revoking a family does not stop a call that has already read one of its rows; what
  * remains true, and exactly when a revoked family stays dead, is proved here.
  */
module TokenRaces {
  import opened Wrappers
  import opened Tokens
  import opened Numbers

  /** How far a call of rotate is. row is the row as it was read. */
  datatype Phase =
    | Reading                          // about to read the row and its user
    | Judging(row: Token)              // has read them; the tests compare with the clock
    | Claiming(row: Token)             // about to mark the row used and issue, in one transaction
    | Sibling(row: Token)              // about to issue without a claim
    | Revoking(row: Token)             // about to delete the family
    | Discarding(row: Token)           // about to delete the expired row
    | Won(minted: Id)                  // issued with the claim
    | Joined(minted: Id)               // issued as a sibling
    | Denied(reason: Refusal)
    | Failed                           // the expired row was already gone

  datatype Call = Call(token: Id, phase: Phase)

  /** logins are the sign-ins that have read their user as active and not issued yet; drawn and
    * families are history, as in Tokens. */
  datatype Sys = Sys(
    now: nat,
    tokens: Store,
    suspended: set<Id>,
    logins: map<Id, Id>,
    drawn: map<Id, Id>,
    families: map<Id, Id>,
    calls: map<Id, Call>)

  datatype Step =
    | Pass(ms: nat)
    | Admit(l: Id, user: Id)                    // a sign-in reads its user, who is active
    | Open(l: Id, token: Id, family: Id)        // and issues without reading the status again
    | End(token: Id)
    | Shut(user: Id)
    | Reopen(user: Id)
    | Start(c: Id, token: Id)
    | Read(c: Id)
    | Judge(c: Id)
    | Claim(c: Id, minted: Id)
    | Join(c: Id, minted: Id)
    | Revoke(c: Id)
    | Discard(c: Id)

  predicate Enabled(s: Sys, st: Step) {
    match st
    case Pass(_) => true
    case Admit(l, user) => l !in s.logins && user !in s.suspended
    case Open(l, token, family) => l in s.logins && token !in s.drawn && family !in s.families
    case End(_) => true
    case Shut(_) => true
    case Reopen(_) => true
    case Start(c, _) => c !in s.calls
    case Read(c) => c in s.calls && s.calls[c].phase.Reading?
    case Judge(c) => c in s.calls && s.calls[c].phase.Judging?
    case Claim(c, minted) => c in s.calls && s.calls[c].phase.Claiming? && minted !in s.drawn
    case Join(c, minted) => c in s.calls && s.calls[c].phase.Sibling? && minted !in s.drawn
    case Revoke(c) => c in s.calls && s.calls[c].phase.Revoking?
    case Discard(c) => c in s.calls && s.calls[c].phase.Discarding?
  }

  function Turn(s: Sys, c: Id, p: Phase): Sys
    requires c in s.calls
  {
    s.(calls := s.calls[c := s.calls[c].(phase := p)])
  }

  function Verdict(row: Token, now: nat): Phase {
    if row.usedAt.Some? then if InGrace(row.usedAt.value, now) then Sibling(row) else Revoking(row)
    else if row.expiresAt < now then Discarding(row)
    else Claiming(row)
  }

  function Next(s: Sys, st: Step): Sys
    requires Enabled(s, st)
  {
    match st
    case Pass(ms) => s.(now := s.now + ms)
    case Admit(l, user) => s.(logins := s.logins[l := user])
    case Open(l, token, family) =>
      var user := s.logins[l];
      s.(tokens := Issue(s.tokens, user, family, s.now, token), logins := s.logins - {l},
         drawn := s.drawn[token := family], families := s.families[family := user])
    case End(token) => s.(tokens := s.tokens - {token})
    case Shut(user) => s.(tokens := WithoutUser(s.tokens, user), suspended := s.suspended + {user})
    case Reopen(user) => s.(suspended := s.suspended - {user})
    case Start(c, token) => s.(calls := s.calls[c := Call(token, Reading)])
    case Read(c) =>
      var t := s.calls[c].token;
      Turn(s, c, if t !in s.tokens then Denied(Unknown)
                 else if s.tokens[t].user in s.suspended then Denied(Suspended)
                 else Judging(s.tokens[t]))
    case Judge(c) => Turn(s, c, Verdict(s.calls[c].phase.row, s.now))
    case Claim(c, minted) =>
      var t, row := s.calls[c].token, s.calls[c].phase.row;
      if t in s.tokens && s.tokens[t].usedAt.None?
      then Turn(s, c, Won(minted)).(
             tokens := Issue(s.tokens[t := s.tokens[t].(usedAt := Some(s.now))], row.user, row.family, s.now, minted),
             drawn := s.drawn[minted := row.family])
      else Turn(s, c, Sibling(row))
    case Join(c, minted) =>
      var row := s.calls[c].phase.row;
      Turn(s, c, Joined(minted)).(
        tokens := Issue(s.tokens, row.user, row.family, s.now, minted), drawn := s.drawn[minted := row.family])
    case Revoke(c) =>
      Turn(s, c, Denied(Reused)).(tokens := WithoutFamily(s.tokens, s.calls[c].phase.row.family))
    case Discard(c) =>
      var t := s.calls[c].token;
      if t in s.tokens then Turn(s, c, Denied(Expired)).(tokens := s.tokens - {t}) else Turn(s, c, Failed)
  }

  ghost predicate Run(s: Sys, steps: seq<Step>, s': Sys)
    decreases |steps|
  {
    if steps == [] then s' == s
    else Enabled(s, steps[0]) && Run(Next(s, steps[0]), steps[1..], s')
  }

  const START := Sys(0, map[], {}, map[], map[], map[], map[])

  // ---------- the invariant ----------

  /** The row, or a copy of it, shows the family its token was drawn in, and that family's user. */
  predicate RowOk(s: Sys, token: Id, row: Token) {
    && token in s.drawn && s.drawn[token] == row.family
    && row.family in s.families && s.families[row.family] == row.user
  }

  predicate Has(p: Phase) {
    p.Judging? || p.Claiming? || p.Sibling? || p.Revoking? || p.Discarding?
  }

  predicate Minted(p: Phase) {
    p.Won? || p.Joined?
  }

  predicate CallOk(s: Sys, call: Call) {
    && (Has(call.phase) ==> RowOk(s, call.token, call.phase.row))
    && (Minted(call.phase) ==>
          call.token in s.drawn && call.phase.minted in s.drawn
          && s.drawn[call.phase.minted] == s.drawn[call.token])
    && (call.phase.Won? && call.token in s.tokens ==> s.tokens[call.token].usedAt.Some?)
  }

  ghost predicate Ok(s: Sys) {
    && (forall t :: t in s.tokens ==> RowOk(s, t, s.tokens[t]))
    && (forall c :: c in s.calls ==> CallOk(s, s.calls[c]))
    && (forall c, d :: c in s.calls && d in s.calls && c != d && s.calls[c].phase.Won? && s.calls[d].phase.Won? ==>
          s.calls[c].token != s.calls[d].token)
  }

  lemma StepKeepsRows(s: Sys, st: Step, t: Id)
    requires Ok(s) && Enabled(s, st) && t in Next(s, st).tokens
    ensures RowOk(Next(s, st), t, Next(s, st).tokens[t])
  {
    assert t in s.tokens ==> RowOk(s, t, s.tokens[t]);
    if st.Claim? || st.Join? {
      assert CallOk(s, s.calls[st.c]);
    }
  }

  /** What was drawn stays on record. */
  lemma RecordsStay(s: Sys, st: Step)
    requires Enabled(s, st)
    ensures forall t :: t in s.drawn ==> t in Next(s, st).drawn && Next(s, st).drawn[t] == s.drawn[t]
    ensures forall f :: f in s.families ==> f in Next(s, st).families && Next(s, st).families[f] == s.families[f]
  {
  }

  /** A row that was used stays used or goes. */
  lemma UseStays(s: Sys, st: Step, t: Id)
    requires Enabled(s, st) && t in s.drawn && t in Next(s, st).tokens
    ensures t in s.tokens && (s.tokens[t].usedAt.Some? ==> Next(s, st).tokens[t].usedAt.Some?)
  {
  }

  lemma StepKeepsOtherCall(s: Sys, st: Step, c: Id)
    requires Ok(s) && Enabled(s, st) && c in s.calls
    ensures CallOk(Next(s, st), s.calls[c])
  {
    assert CallOk(s, s.calls[c]);
    RecordsStay(s, st);
    if s.calls[c].phase.Won? && s.calls[c].token in Next(s, st).tokens {
      UseStays(s, st, s.calls[c].token);
    }
  }

  predicate Issues(st: Step) {
    st.Claim? || st.Join?
  }

  lemma StepKeepsIssuingCall(s: Sys, st: Step)
    requires Ok(s) && Enabled(s, st) && Issues(st)
    ensures CallOk(Next(s, st), Next(s, st).calls[st.c])
  {
    assert CallOk(s, s.calls[st.c]);
  }

  lemma StepKeepsReadingCall(s: Sys, st: Step)
    requires Ok(s) && Enabled(s, st) && st.Read?
    ensures CallOk(Next(s, st), Next(s, st).calls[st.c])
  {
    if s.calls[st.c].token in s.tokens {
      assert RowOk(s, s.calls[st.c].token, s.tokens[s.calls[st.c].token]);
    }
  }

  lemma StepKeepsOwnCall(s: Sys, st: Step, c: Id)
    requires Ok(s) && Enabled(s, st) && c in Next(s, st).calls
    requires c in s.calls ==> Next(s, st).calls[c] != s.calls[c]
    ensures CallOk(Next(s, st), Next(s, st).calls[c])
  {
    if Issues(st) {
      StepKeepsIssuingCall(s, st);
    } else if st.Read? {
      StepKeepsReadingCall(s, st);
    } else if c in s.calls {
      assert CallOk(s, s.calls[c]);
    }
  }

  lemma StepKeepsOk(s: Sys, st: Step)
    requires Ok(s) && Enabled(s, st)
    ensures Ok(Next(s, st))
  {
    var s' := Next(s, st);
    forall t | t in s'.tokens
      ensures RowOk(s', t, s'.tokens[t])
    {
      StepKeepsRows(s, st, t);
    }
    forall c | c in s'.calls
      ensures CallOk(s', s'.calls[c])
    {
      if c in s.calls && s'.calls[c] == s.calls[c] {
        StepKeepsOtherCall(s, st, c);
      } else {
        StepKeepsOwnCall(s, st, c);
      }
    }
    WinnersStayApart(s, st);
  }

  /** A claim is won only on a row no one has used, so no earlier winner was on the same token. */
  lemma WinnersStayApart(s: Sys, st: Step)
    requires Ok(s) && Enabled(s, st)
    ensures var s' := Next(s, st);
            forall c, d :: c in s'.calls && d in s'.calls && c != d && s'.calls[c].phase.Won? && s'.calls[d].phase.Won?
              ==> s'.calls[c].token != s'.calls[d].token
  {
    var s' := Next(s, st);
    forall c, d | c in s'.calls && d in s'.calls && c != d && s'.calls[c].phase.Won? && s'.calls[d].phase.Won?
      ensures s'.calls[c].token != s'.calls[d].token
    {
      assert CallOk(s, s.calls[c]) && CallOk(s, s.calls[d]);
    }
  }

  lemma {:induction false} RunKeepsOk(s: Sys, steps: seq<Step>, s': Sys)
    requires Ok(s) && Run(s, steps, s')
    ensures Ok(s')
    decreases |steps|
  {
    if steps != [] {
      StepKeepsOk(s, steps[0]);
      RunKeepsOk(Next(s, steps[0]), steps[1..], s');
    }
  }

  // ---------- what survives any interleaving ----------

  /** However presentations of one token interleave, at most one of them wins the claim. */
  lemma ClaimsAreWonOnce(steps: seq<Step>, s: Sys, c: Id, d: Id)
    requires Run(START, steps, s) && c in s.calls && d in s.calls
    requires s.calls[c].phase.Won? && s.calls[d].phase.Won? && s.calls[c].token == s.calls[d].token
    ensures c == d
  {
    RunKeepsOk(START, steps, s);
  }

  /** A row never changes but for its first use, which is recorded once and never overwritten; a
    * deleted row never comes back. */
  lemma {:induction false} RowsAreUsedOnce(s: Sys, steps: seq<Step>, s': Sys, t: Id)
    requires Ok(s) && Run(s, steps, s') && t in s.drawn
    ensures t in s'.tokens ==> t in s.tokens && SameRow(s.tokens[t], s'.tokens[t])
    decreases |steps|
  {
    if steps != [] {
      StepKeepsOk(s, steps[0]);
      RowsAreUsedOnce(Next(s, steps[0]), steps[1..], s', t);
    }
  }

  /** Every token issued by rotation is in the family, and so of the user, of the token presented. */
  lemma RotationStaysInTheFamily(steps: seq<Step>, s: Sys, c: Id)
    requires Run(START, steps, s) && c in s.calls && Minted(s.calls[c].phase)
    requires s.calls[c].phase.minted in s.tokens
    ensures var row := s.tokens[s.calls[c].phase.minted];
            && s.calls[c].token in s.drawn && row.family == s.drawn[s.calls[c].token]
            && row.family in s.families && row.user == s.families[row.family]
  {
    RunKeepsOk(START, steps, s);
    assert CallOk(s, s.calls[c]);
  }

  // ---------- when a revoked family stays dead ----------

  /** The call has read a row and may still issue from it. */
  predicate Pending(s: Sys, c: Id) {
    c in s.calls &&
    match s.calls[c].phase
    case Judging(row) => Verdict(row, s.now).Sibling? || Verdict(row, s.now).Claiming?
    case Claiming(_) => true
    case Sibling(_) => true
    case _ => false
  }

  predicate MayIssue(s: Sys, c: Id, family: Id) {
    Pending(s, c) && s.calls[c].phase.row.family == family
  }

  /** Nothing in flight can put a row into the family. */
  ghost predicate Dead(s: Sys, family: Id) {
    family in s.families && Empty(s.tokens, family) && forall c :: !MayIssue(s, c, family)
  }

  lemma StepKeepsDead(s: Sys, st: Step, family: Id)
    requires Dead(s, family) && Enabled(s, st)
    ensures Dead(Next(s, st), family)
  {
    var s' := Next(s, st);
    forall c
      ensures !MayIssue(s', c, family)
    {
      assert !MayIssue(s, c, family);
    }
    if st.Claim? || st.Join? {
      assert !MayIssue(s, st.c, family);
    }
  }

  /** A family without rows, of which no call in flight may still issue, is dead for good. */
  lemma {:induction false} DeadFamiliesStayDead(s: Sys, steps: seq<Step>, s': Sys, family: Id)
    requires Dead(s, family) && Run(s, steps, s')
    ensures Empty(s'.tokens, family)
    decreases |steps|
  {
    if steps != [] {
      StepKeepsDead(s, steps[0], family);
      DeadFamiliesStayDead(Next(s, steps[0]), steps[1..], s', family);
    }
  }

  lemma OneStep(s: Sys, st: Step)
    requires Enabled(s, st)
    ensures Run(s, [st], Next(s, st))
  {
    assert Run(Next(s, st), [st][1..], Next(s, st));
  }

  lemma OneMore(s: Sys, st: Step, steps: seq<Step>, s': Sys)
    requires Enabled(s, st) && Run(Next(s, st), steps, s')
    ensures Run(s, [st] + steps, s')
  {
    assert ([st] + steps)[1..] == steps;
  }

  /** And only then: a call that may still issue can issue a live row of the family and user it has
    * read, whatever has become of them since. */
  lemma PendingCallsRevive(s: Sys, c: Id) returns (steps: seq<Step>, s': Sys, minted: Id)
    requires Pending(s, c)
    ensures Run(s, steps, s') && forall st :: st in steps ==> !st.Reopen?
    ensures minted in s'.tokens && s'.tokens[minted].family == s.calls[c].phase.row.family
    ensures s'.tokens[minted].user == s.calls[c].phase.row.user
    decreases if s.calls[c].phase.Judging? then 2 else if s.calls[c].phase.Claiming? then 1 else 0
  {
    minted := AboveAll(s.drawn.Keys);
    var st := if s.calls[c].phase.Judging? then Judge(c)
              else if s.calls[c].phase.Claiming? then Claim(c, minted) else Join(c, minted);
    var mid := Next(s, st);
    if !st.Judge? && minted in mid.drawn {
      OneStep(s, st);
      return [st], mid, minted;
    }
    steps, s', minted := PendingCallsRevive(mid, c);
    OneMore(s, st, steps, s');
    steps := [st] + steps;
  }

  ghost predicate Reaches(s: Sys, s': Sys) {
    exists steps :: Run(s, steps, s')
  }

  /** The family that is empty now is empty in every continuation exactly when no call in flight
    * may still issue from it. */
  lemma RevocationIsFinalIff(s: Sys, family: Id)
    requires family in s.families && Empty(s.tokens, family)
    ensures (forall s' :: Reaches(s, s') ==> Empty(s'.tokens, family)) <==> (forall c :: !MayIssue(s, c, family))
  {
    if c :| MayIssue(s, c, family) {
      var steps, s', minted := PendingCallsRevive(s, c);
      assert Reaches(s, s') && !Empty(s'.tokens, family);
    } else {
      forall s' | Reaches(s, s')
        ensures Empty(s'.tokens, family)
      {
        var steps :| Run(s, steps, s');
        DeadFamiliesStayDead(s, steps, s', family);
      }
    }
  }

  /** Both happen: a presentation just inside the grace window is judged, a second one just outside
    * it revokes the family, and the first then issues a token in the revoked family. */
  lemma RevokedFamilyIsRevived() returns (steps: seq<Step>, s: Sys)
    ensures Run(START, steps, s)
    ensures 2 in s.calls && s.calls[2].phase == Denied(Reused)
    ensures 0 in s.families && Empty(s.tokens, 0) && MayIssue(s, 1, 0)
  {
    var opening, mid := FirstUse();
    var more;
    more, s := LateReplay(mid);
    steps := opening + more;
    RunJoins(START, opening, mid, more, s);
  }

  lemma FirstUse() returns (steps: seq<Step>, s: Sys)
    ensures Run(START, steps, s)
    ensures s == Sys(0, map[0 := Token(7, 0, Some(0), REFRESH_TTL), 1 := Token(7, 0, None, REFRESH_TTL)], {}, map[],
                     map[0 := 0, 1 := 0], map[0 := 7], map[0 := Call(0, Won(1))])
  {
    var read, s2 := FirstRead();
    s := Next(s2, Claim(0, 1));
    OneStep(s2, Claim(0, 1));
    RunJoins(START, read, s2, [Claim(0, 1)], s);
    steps := read + [Claim(0, 1)];
  }

  lemma FirstRead() returns (steps: seq<Step>, s: Sys)
    ensures Run(START, steps, s)
    ensures s == Sys(0, map[0 := Token(7, 0, None, REFRESH_TTL)], {}, map[], map[0 := 0], map[0 := 7],
                     map[0 := Call(0, Claiming(Token(7, 0, None, REFRESH_TTL)))])
  {
    var first, s1 := SignIn(7);
    var more;
    more, s := ReadAndJudge(s1, 0, 0);
    RunJoins(START, first, s1, more, s);
    steps := first + more;
    assert s.calls == map[0 := Call(0, Claiming(Token(7, 0, None, REFRESH_TTL)))];
  }

  /** The first sign-in, which draws token and family 0. */
  lemma SignIn(user: Id) returns (steps: seq<Step>, s: Sys)
    ensures Run(START, steps, s)
    ensures s == START.(tokens := map[0 := Token(user, 0, None, REFRESH_TTL)], drawn := map[0 := 0],
                        families := map[0 := user])
  {
    var admitted := Next(START, Admit(0, user));
    s := Next(admitted, Open(0, 0, 0));
    OneStep(admitted, Open(0, 0, 0));
    OneMore(START, Admit(0, user), [Open(0, 0, 0)], s);
    steps := [Admit(0, user)] + [Open(0, 0, 0)];
    assert s.logins == map[];
  }

  /** One presentation a millisecond before the window closes, one when it has closed. */
  lemma LateReplay(s0: Sys) returns (steps: seq<Step>, s: Sys)
    requires s0.now == 0 && s0.suspended == {} && 1 !in s0.calls && 2 !in s0.calls && 0 in s0.families
    requires 0 in s0.tokens && s0.tokens[0] == Token(7, 0, Some(0), REFRESH_TTL)
    ensures Run(s0, steps, s)
    ensures 2 in s.calls && s.calls[2].phase == Denied(Reused)
    ensures 0 in s.families && Empty(s.tokens, 0) && MayIssue(s, 1, 0)
  {
    var s1 := Next(s0, Pass(29_999));
    var judged, s2 := ReadAndJudge(s1, 1, 0);
    var s3 := Next(s2, Pass(1));
    var replayed, s4 := ReadAndJudge(s3, 2, 0);
    s := Next(s4, Revoke(2));
    OneStep(s4, Revoke(2));
    RunJoins(s3, replayed, s4, [Revoke(2)], s);
    OneMore(s2, Pass(1), replayed + [Revoke(2)], s);
    RunJoins(s1, judged, s2, [Pass(1)] + (replayed + [Revoke(2)]), s);
    OneMore(s0, Pass(29_999), judged + ([Pass(1)] + (replayed + [Revoke(2)])), s);
    steps := [Pass(29_999)] + (judged + ([Pass(1)] + (replayed + [Revoke(2)])));
  }

  lemma ReadAndJudge(s: Sys, c: Id, token: Id) returns (steps: seq<Step>, s': Sys)
    requires c !in s.calls && token in s.tokens && s.tokens[token].user !in s.suspended
    ensures Run(s, steps, s')
    ensures s' == s.(calls := s.calls[c := Call(token, Verdict(s.tokens[token], s.now))])
  {
    steps := [Start(c, token), Read(c), Judge(c)];
    var s1 := Next(s, Start(c, token));
    var s2 := Next(s1, Read(c));
    s' := Next(s2, Judge(c));
    assert Run(s2, steps[2..], s');
    assert Run(s1, steps[1..], s');
  }

  lemma {:induction false} RunJoins(a: Sys, before: seq<Step>, b: Sys, after: seq<Step>, c: Sys)
    requires Run(a, before, b) && Run(b, after, c)
    ensures Run(a, before + after, c)
    decreases |before|
  {
    if before == [] {
      assert before + after == after;
    } else {
      RunJoins(Next(a, before[0]), before[1..], b, after, c);
      assert (before + after)[1..] == before[1..] + after;
    }
  }

  // ---------- one call alone ----------

  /** What rotate alone answers, in the machine's terms. */
  predicate AnsweredAs(p: Phase, answer: Result<Id, Refusal>) {
    match answer
    case Ok(minted) => p == Won(minted) || p == Joined(minted)
    case Err(reason) => p == Denied(reason)
  }

  /** A call whose statements run without interruption does what Tokens.Rotate says. */
  lemma AloneItIsAtomic(s: Sys, c: Id, token: Id, minted: Id) returns (steps: seq<Step>, s': Sys)
    requires c !in s.calls && minted !in s.drawn
    ensures Run(s, steps, s') && c in s'.calls
    ensures var (tokens, answer) := Rotate(s.tokens, token, s.suspended, s.now, minted);
            s'.tokens == tokens && AnsweredAs(s'.calls[c].phase, answer)
  {
    var s1 := Next(s, Start(c, token));
    var s2 := Next(s1, Read(c));
    steps, s' := FinishAlone(s2, c, minted);
    OneMore(s1, Read(c), steps, s');
    OneMore(s, Start(c, token), [Read(c)] + steps, s');
    steps := [Start(c, token)] + ([Read(c)] + steps);
  }

  lemma FinishAlone(s: Sys, c: Id, minted: Id) returns (steps: seq<Step>, s': Sys)
    requires c in s.calls && minted !in s.drawn
    requires match s.calls[c].phase
             case Judging(row) => s.calls[c].token in s.tokens && row == s.tokens[s.calls[c].token]
             case Denied(_) => true
             case _ => false
    ensures Run(s, steps, s') && c in s'.calls
    ensures s.calls[c].phase.Denied? ==> s' == s
    ensures s.calls[c].phase.Judging? ==>
              var (tokens, answer) := Rotate(s.tokens, s.calls[c].token, {}, s.now, minted);
              s'.tokens == tokens && AnsweredAs(s'.calls[c].phase, answer)
  {
    if s.calls[c].phase.Denied? {
      return [], s;
    }
    var mid := Next(s, Judge(c));
    var st := match mid.calls[c].phase
      case Claiming(_) => Claim(c, minted)
      case Sibling(_) => Join(c, minted)
      case Revoking(_) => Revoke(c)
      case _ => Discard(c);
    s' := Next(mid, st);
    OneStep(mid, st);
    OneMore(s, Judge(c), [st], s');
    steps := [Judge(c)] + [st];
  }
}
