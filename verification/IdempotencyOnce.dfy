/** When a request that has run can run again within its day. */
module IdempotencyOnce {
  import opened Ledger
  import opened Idempotency
  import opened Numbers

  /** A row about to be deleted was made, and has expired if it is still in place. */
  predicate DeleteOk(s: Sys, q: Request) {
    q.phase.Deleting? ==>
      q.phase.expired in s.owner && (Holds(s, q.name, q.phase.expired) ==> Expired(s.keys[q.name], s.now))
  }

  ghost predicate DeletesOk(s: Sys) {
    forall r :: r in s.requests ==> DeleteOk(s, s.requests[r])
  }

  lemma StepKeepsDeletes(s: Sys, st: Step)
    requires Ok(s) && DeletesOk(s) && Enabled(s, st)
    ensures DeletesOk(Next(s, st))
  {
    var s' := Next(s, st);
    forall r | r in s'.requests
      ensures DeleteOk(s', s'.requests[r])
    {
      if r in s.requests {
        assert DeleteOk(s, s.requests[r]) && KeyOk(s, s.requests[r].name);
      }
    }
  }

  lemma {:induction false} RunKeepsDeletes(s: Sys, steps: seq<Step>, s': Sys)
    requires Ok(s) && DeletesOk(s) && Run(s, steps, s')
    ensures Ok(s') && DeletesOk(s')
    decreases |steps|
  {
    if steps != [] {
      StepKeepsOk(s, steps[0]);
      StepKeepsDeletes(s, steps[0]);
      RunKeepsDeletes(Next(s, steps[0]), steps[1..], s');
    }
  }

  // ---------- nothing can run again ----------

  /** A handler is at work under the name, or the row that has run is about to be released. */
  predicate MayRunAgain(s: Sys, r: Id, name: Name, row: Id) {
    r in s.requests && s.requests[r].name == name
    && (s.requests[r].phase.Running? || s.requests[r].phase == Releasing(row))
  }

  /** The key has run under a row that is in place and not older than a day. */
  ghost predicate HasRun(s: Sys, name: Name, row: Id) {
    Holds(s, name, row) && row in s.ran && s.now <= s.keys[name].createdAt + TTL
  }

  ghost predicate Closed(s: Sys, name: Name, row: Id) {
    HasRun(s, name, row) && forall r :: !MayRunAgain(s, r, name, row)
  }

  /** Requests of the key neither delete its row nor start a handler. */
  lemma StepKeepsClosed(s: Sys, st: Step, name: Name, row: Id)
    requires Ok(s) && DeletesOk(s) && Closed(s, name, row) && Enabled(s, st)
    requires Next(s, st).now <= s.keys[name].createdAt + TTL && AnswerIsStored(st, name, s.requests)
    ensures Closed(Next(s, st), name, row) && Next(s, st).keys[name].createdAt == s.keys[name].createdAt
  {
    RowStays(s, st, name, row);
    forall r
      ensures !MayRunAgain(Next(s, st), r, name, row)
    {
      NoOneStarts(s, st, name, row, r);
    }
  }

  lemma RowStays(s: Sys, st: Step, name: Name, row: Id)
    requires Ok(s) && DeletesOk(s) && Closed(s, name, row) && Enabled(s, st)
    ensures Holds(Next(s, st), name, row) && Next(s, st).keys[name].createdAt == s.keys[name].createdAt
    ensures row in Next(s, st).ran
  {
    if !st.Tick? {
      assert !MayRunAgain(s, st.r, name, row);
      assert st.r in s.requests ==> DeleteOk(s, s.requests[st.r]);
    }
  }

  lemma NoOneStarts(s: Sys, st: Step, name: Name, row: Id, r: Id)
    requires Ok(s) && Closed(s, name, row) && Enabled(s, st) && AnswerIsStored(st, name, s.requests)
    ensures !MayRunAgain(Next(s, st), r, name, row)
  {
    assert !MayRunAgain(s, r, name, row);
  }

  lemma ClosedAddsNoRun(s: Sys, st: Step, name: Name, row: Id)
    requires Ok(s) && Closed(s, name, row) && Enabled(s, st)
    ensures RunsOf(Next(s, st), name) == RunsOf(s, name)
  {
    if st.Commit? {
      assert !MayRunAgain(s, st.r, name, row);
      CommitAddsRun(s, st.r, st.answer, name);
    } else {
      OnlyCommitsRun(s, st);
    }
  }

  lemma {:induction false} ClosedRunsNothing(s: Sys, steps: seq<Step>, s': Sys, name: Name, row: Id)
    requires Ok(s) && DeletesOk(s) && Closed(s, name, row)
    requires Run(s, steps, s') && s'.now <= s.keys[name].createdAt + TTL && AnswersAreStored(steps, name, s'.requests)
    ensures RunsOf(s', name) == RunsOf(s, name)
    decreases |steps|
  {
    if steps != [] {
      var st, mid := steps[0], Next(s, steps[0]);
      TimePasses(mid, steps[1..], s');
      NamesStay(s, steps, s');
      assert AnswerIsStored(st, name, s'.requests);
      StepKeepsClosed(s, st, name, row);
      ClosedAddsNoRun(s, st, name, row);
      StepKeepsOk(s, st);
      StepKeepsDeletes(s, st);
      forall i | 0 <= i < |steps| - 1
        ensures AnswerIsStored(steps[1..][i], name, s'.requests)
      {
        assert steps[1..][i] == steps[i + 1];
      }
      ClosedRunsNothing(mid, steps[1..], s', name, row);
    }
  }

  // ---------- something can ----------

  predicate NoRecords(steps: seq<Step>) {
    forall st :: st in steps ==> !st.Record?
  }

  /** A row that has run is about to be released: released, the key is free, and the next request
    * with it runs its handler. */
  lemma ReleasedRunsAgain(s: Sys, r: Id, name: Name, row: Id, fingerprint: Fingerprint, answer: Answer)
    returns (steps: seq<Step>, s': Sys)
    requires Ok(s) && Holds(s, name, row) && row in s.ran
    requires r in s.requests && s.requests[r].name == name && s.requests[r].phase == Releasing(row)
    ensures Run(s, steps, s') && s'.now == s.now && NoRecords(steps)
    ensures |RunsOf(s', name)| == |RunsOf(s, name)| + 1
  {
    var next := AboveAll(s.requests.Keys);
    var unused := AboveAll(s.owner.Keys);
    steps, s' := Then(s, [], s, Release(r));
    var claiming, released := [], s';
    claiming, s' := Claim(released, next, unused, name, fingerprint);
    RunJoins(s, steps, released, claiming, s');
    steps := steps + claiming;
    RunKeepsOk(s, steps, s');
    assert s'.ran == s.ran && s'.requests[next].phase == Running(unused);
    CommitAddsRun(s', next, answer, name);
    steps, s' := Then(s, steps, s', Commit(next, answer));
  }

  /** A handler at work under the key commits as well. */
  lemma RunningRunsAgain(s: Sys, r: Id, name: Name, answer: Answer) returns (steps: seq<Step>, s': Sys)
    requires Ok(s) && r in s.requests && s.requests[r].name == name && s.requests[r].phase.Running?
    ensures Run(s, steps, s') && s'.now == s.now && NoRecords(steps)
    ensures |RunsOf(s', name)| == |RunsOf(s, name)| + 1
  {
    CommitAddsRun(s, r, answer, name);
    steps, s' := Then(s, [], s, Commit(r, answer));
  }

  /** s' continues s, and every answer under the name is stored. */
  ghost predicate ContinuesStored(s: Sys, s': Sys, name: Name) {
    exists steps :: Run(s, steps, s') && AnswersAreStored(steps, name, s'.requests)
  }

  /** A key that has run is not run again by any continuation within its day whose answers are stored
    * exactly when no handler is at work under it and no request is about to release its row. */
  lemma RunsAgainIff(before: seq<Step>, s: Sys, name: Name, row: Id)
    requires Run(START, before, s) && HasRun(s, name, row)
    ensures (forall s' :: ContinuesStored(s, s', name) && s'.now <= s.keys[name].createdAt + 86_400_000 ==>
               RunsOf(s', name) == RunsOf(s, name))
       <==> (forall r :: !MayRunAgain(s, r, name, row))
  {
    RunKeepsDeletes(START, before, s);
    if r :| MayRunAgain(s, r, name, row) {
      var steps, s';
      if s.requests[r].phase.Running? {
        steps, s' := RunningRunsAgain(s, r, name, Answer(200, ""));
      } else {
        steps, s' := ReleasedRunsAgain(s, r, name, row, s.requests[r].fingerprint, Answer(200, ""));
      }
      assert ContinuesStored(s, s', name);
    } else {
      forall s' | ContinuesStored(s, s', name) && s'.now <= s.keys[name].createdAt + 86_400_000
        ensures RunsOf(s', name) == RunsOf(s, name)
      {
        var steps :| Run(s, steps, s') && AnswersAreStored(steps, name, s'.requests);
        ClosedRunsNothing(s, steps, s', name, row);
      }
    }
  }
}
