/** Idempotent requests run against the concurrent ledger.
  *
  * The protocol of Idempotency and the machine of LedgerSteps take their steps side by side. They
  * meet where a handler begins its ledger call, and where that call ends: a commit, a refusal or
  * a lost connection is what the protocol learns of the run.
  */
module IdempotentLedger {
  import opened Wrappers
  import opened Ledger
  import opened LedgerHistory
  import L = LedgerSteps
  import P = Idempotency
  import opened LedgerSerial

  /** jobs says which request a ledger call in flight is the handler of. origin and unheard are
    * history: the name each finished call of the ledger's log was made under, None without a key,
    * and the places of the calls whose handler ended in an error, committed or not. */
  datatype World = World(
    sys: P.Sys, ledger: L.State, jobs: map<L.Tid, Id>, origin: seq<Option<P.Name>>, unheard: set<nat>)

  datatype Step =
    | Protocol(st: P.Step)                        // a step of a request outside its ledger call
    | BeginUnkeyed(tid: L.Tid, call: Call)        // a call made without a key
    | BeginKeyed(r: Id, tid: L.Tid, call: Call)   // the handler of r makes its call
    // one statement; if it commits, the handler answers, or does not hear of it or fails afterwards
    | Advance(tid: L.Tid, answer: P.Answer, heard: bool)
    | Lose(tid: L.Tid, noticed: bool)             // the call is lost, with or without its process

  ghost predicate Busy(w: World, r: Id) {
    exists tid :: tid in w.jobs && w.jobs[tid] == r
  }

  predicate Serves(w: World, tid: L.Tid) {
    tid in w.jobs ==> w.jobs[tid] in w.sys.requests && w.sys.requests[w.jobs[tid]].phase.Running?
  }

  /** A handler fails or stops on its own only outside its ledger call. */
  ghost predicate Enabled(w: World, st: Step) {
    match st
    case Protocol(p) => P.Enabled(w.sys, p) && !p.Commit? && (p.Fail? || p.Stop? ==> !Busy(w, p.r))
    case BeginUnkeyed(tid, c) => L.Enabled(w.ledger, L.Begin(tid, c))
    case BeginKeyed(r, tid, c) =>
      && r in w.sys.requests && w.sys.requests[r].phase.Running? && !Busy(w, r)
      && P.Asked(c) == w.sys.requests[r].fingerprint
      && L.Enabled(w.ledger, L.Begin(tid, c))
    case Advance(tid, _, _) => L.Enabled(w.ledger, L.Advance(tid)) && Serves(w, tid)
    case Lose(tid, _) => L.Enabled(w.ledger, L.Crash(tid)) && Serves(w, tid)
  }

  /** What the protocol learns when a handler's call ends: it committed, it failed, or the process
    * died with it. */
  datatype End = Commits(answer: P.Answer) | Fails | Dies

  function Told(e: End, r: Id): P.Step {
    match e
    case Commits(answer) => P.Commit(r, answer)
    case Fails => P.Fail(r)
    case Dies => P.Stop(r)
  }

  /** The call tid has ended and left ledger'. */
  function Close(w: World, tid: L.Tid, ledger': L.State, e: End): World
    requires Serves(w, tid)
  {
    if tid !in w.jobs then w.(ledger := ledger', origin := w.origin + [None])
    else World(P.Next(w.sys, Told(e, w.jobs[tid])), ledger', w.jobs - {tid},
               w.origin + [Some(w.sys.requests[w.jobs[tid]].name)],
               if e.Commits? then w.unheard else w.unheard + {|w.ledger.log|})
  }

  /** How the next statement of tid ends its call, if it does. */
  function Ending(s: L.State, s': L.State, answer: P.Answer, heard: bool): End {
    if |s.log| < |s'.log| && s'.log[|s.log|].outcome.Committed? && heard then Commits(answer) else Fails
  }

  function Next(w: World, st: Step): World
    requires Enabled(w, st)
  {
    match st
    case Protocol(p) => w.(sys := P.Next(w.sys, p))
    case BeginUnkeyed(tid, c) => w.(ledger := L.Next(w.ledger, L.Begin(tid, c)))
    case BeginKeyed(r, tid, c) => w.(ledger := L.Next(w.ledger, L.Begin(tid, c)), jobs := w.jobs[tid := r])
    case Advance(tid, answer, heard) =>
      var ledger' := L.Next(w.ledger, L.Advance(tid));
      if tid in ledger'.active then w.(ledger := ledger')
      else Close(w, tid, ledger', Ending(w.ledger, ledger', answer, heard))
    case Lose(tid, noticed) => Close(w, tid, L.Next(w.ledger, L.Crash(tid)), if noticed then Fails else Dies)
  }

  ghost predicate Run(w: World, steps: seq<Step>, w': World)
    decreases |steps|
  {
    if steps == [] then w' == w
    else Enabled(w, steps[0]) && Run(Next(w, steps[0]), steps[1..], w')
  }

  ghost predicate Start(w: World) {
    w.sys == P.START && L.Start(w.ledger) && w.jobs == map[] && w.origin == [] && w.unheard == {}
  }

  // ---------- the invariant ----------

  /** The calls committed under a name, by their places in the ledger's log. */
  function CommitsIn(log: seq<Entry>, origin: seq<Option<P.Name>>, name: P.Name): set<nat> {
    set i: nat | i < |log| && i < |origin| && origin[i] == Some(name) && log[i].outcome.Committed?
  }

  function CommitsOf(w: World, name: P.Name): set<nat> {
    CommitsIn(w.ledger.log, w.origin, name)
  }

  /** Those of them whose handler heard of the commit. */
  function HeardOf(w: World, name: P.Name): set<nat> {
    CommitsOf(w, name) - w.unheard
  }

  /** Those of them whose handler ended in an error after the commit. */
  function UnheardOf(w: World, name: P.Name): set<nat> {
    CommitsOf(w, name) * w.unheard
  }

  lemma CommitsOfLonger(log: seq<Entry>, log': seq<Entry>, origin: seq<Option<P.Name>>, o: Option<P.Name>, name: P.Name)
    requires |log| == |origin| && |log'| == |log| + 1 && log <= log'
    ensures CommitsIn(log', origin + [o], name)
         == CommitsIn(log, origin, name) + if o == Some(name) && log'[|log|].outcome.Committed? then {|log|} else {}
  {
    forall i: nat | i < |log|
      ensures log'[i] == log[i] && (origin + [o])[i] == origin[i]
    {
    }
  }

  /** A call in flight with a key is the one its request asked for, and its request runs it alone. */
  ghost predicate JobOk(w: World, tid: L.Tid) {
    tid in w.jobs ==>
      && tid in w.ledger.active && Serves(w, tid)
      && P.Asked(w.ledger.active[tid].call) == w.sys.requests[w.jobs[tid]].fingerprint
  }

  ghost predicate JobsOk(w: World) {
    && (forall tid :: JobOk(w, tid))
    && (forall t, u :: t in w.jobs && u in w.jobs && t != u ==> w.jobs[t] != w.jobs[u])
  }

  /** The run under that key row is a commit in the ledger's log of what was asked. */
  ghost predicate Posted(w: World, row: Id)
    requires row in w.sys.ran
  {
    exists i: nat :: i in HeardOf(w, w.sys.ran[row].name)
                     && P.Asked(w.ledger.log[i].call) == w.sys.ran[row].fingerprint
  }

  ghost predicate TalliesOk(w: World) {
    && |w.origin| == |w.ledger.log| && (forall i :: i in w.unheard ==> i < |w.ledger.log|)
    && (forall name :: |HeardOf(w, name)| == |P.RunsOf(w.sys, name)|)
    && (forall row :: row in w.sys.ran ==> Posted(w, row))
  }

  ghost predicate Inv(w: World) {
    P.Ok(w.sys) && JobsOk(w) && TalliesOk(w)
  }

  lemma ExecuteKeepsCall(db: Db, l: L.Local, st: L.Stmt)
    ensures L.Execute(db, l, st).Continue? ==> L.Execute(db, l, st).local.call == l.call
  {
  }

  /** A statement either goes on with the same call or ends it, and only the ending is logged. */
  lemma AdvanceShape(s: L.State, tid: L.Tid)
    requires tid in s.active
    ensures var s' := L.AdvanceOne(s, tid);
            if tid in s'.active
            then s'.log == s.log && s'.active.Keys == s.active.Keys
                 && forall t :: t in s.active ==> s'.active[t].call == s.active[t].call
            else |s'.log| == |s.log| + 1 && s.log <= s'.log && s'.active == s.active - {tid}
                 && s'.log[|s.log|].call == s.active[tid].call
  {
    var l := s.active[tid];
    if l.pc < |L.ScriptOf(l)| {
      ExecuteKeepsCall(s.db, l, L.ScriptOf(l)[l.pc]);
    }
  }

  // ---------- steps that end no call ----------

  lemma ProtocolKeepsJobs(w: World, p: P.Step, tid: L.Tid)
    requires JobsOk(w) && Enabled(w, Protocol(p))
    ensures JobOk(Next(w, Protocol(p)), tid)
  {
    assert JobOk(w, tid);
    if tid in w.jobs {
      assert Busy(w, w.jobs[tid]);
    }
  }

  lemma ProtocolKeepsInv(w: World, p: P.Step)
    requires Inv(w) && Enabled(w, Protocol(p))
    ensures Inv(Next(w, Protocol(p)))
  {
    var w' := Next(w, Protocol(p));
    P.StepKeepsOk(w.sys, p);
    forall tid
      ensures JobOk(w', tid)
    {
      ProtocolKeepsJobs(w, p, tid);
    }
    P.OnlyCommitsRun(w.sys, p);
    SameRunsSameTallies(w, w'.sys);
  }

  lemma SameRunsSameTallies(w: World, sys': P.Sys)
    requires TalliesOk(w) && sys'.ran == w.sys.ran
    ensures TalliesOk(w.(sys := sys'))
  {
    forall name
      ensures P.RunsOf(sys', name) == P.RunsOf(w.sys, name)
    {
    }
    forall row | row in sys'.ran
      ensures Posted(w.(sys := sys'), row)
    {
      PostedStays(w, w.(sys := sys'), row);
    }
  }

  /** The ledger moves on, but logs nothing and keeps every call. */
  lemma LedgerStepKeepsInv(w: World, w': World)
    requires Inv(w) && JobsOk(w')
    requires w' == w.(ledger := w'.ledger, jobs := w'.jobs) && w'.ledger.log == w.ledger.log
    ensures Inv(w')
  {
    forall row | row in w'.sys.ran
      ensures Posted(w', row)
    {
      assert Posted(w, row);
    }
  }

  lemma BeginKeepsJobs(w: World, st: Step)
    requires Inv(w) && Enabled(w, st) && (st.BeginUnkeyed? || st.BeginKeyed?)
    ensures JobsOk(Next(w, st))
  {
    var w' := Next(w, st);
    forall tid
      ensures JobOk(w', tid)
    {
      assert JobOk(w, tid);
    }
    assert JobOk(w, st.tid);
    if st.BeginKeyed? {
      assert forall t :: t in w.jobs ==> w.jobs[t] != st.r;
    }
  }

  lemma StatementKeepsJobs(w: World, tid: L.Tid, answer: P.Answer, heard: bool)
    requires Inv(w) && Enabled(w, Advance(tid, answer, heard)) && tid in L.AdvanceOne(w.ledger, tid).active
    ensures JobsOk(Next(w, Advance(tid, answer, heard)))
  {
    AdvanceShape(w.ledger, tid);
    var w' := Next(w, Advance(tid, answer, heard));
    forall t
      ensures JobOk(w', t)
    {
      assert JobOk(w, t);
    }
  }

  // ---------- steps that end a call ----------

  /** ledger' is the ledger after the call tid has ended. */
  ghost predicate HasEnded(w: World, tid: L.Tid, ledger': L.State, e: End) {
    && tid in w.ledger.active && ledger'.active == w.ledger.active - {tid}
    && |ledger'.log| == |w.ledger.log| + 1 && w.ledger.log <= ledger'.log
    && ledger'.log[|w.ledger.log|].call == w.ledger.active[tid].call
    && (e.Commits? ==> ledger'.log[|w.ledger.log|].outcome.Committed?)
  }

  lemma CloseKeepsJobs(w: World, tid: L.Tid, ledger': L.State, e: End)
    requires Inv(w) && HasEnded(w, tid, ledger', e)
    ensures Serves(w, tid) && JobsOk(Close(w, tid, ledger', e))
  {
    assert JobOk(w, tid);
    var w' := Close(w, tid, ledger', e);
    forall t
      ensures JobOk(w', t)
    {
      assert JobOk(w, t);
    }
  }

  /** The log gains one entry, and the commits a name's handlers heard of gain its place if it is one
    * of them. */
  lemma CloseAddsCommit(w: World, tid: L.Tid, ledger': L.State, e: End, name: P.Name)
    requires |w.origin| == |w.ledger.log| && (forall i :: i in w.unheard ==> i < |w.ledger.log|)
    requires HasEnded(w, tid, ledger', e) && Serves(w, tid)
    ensures HeardOf(Close(w, tid, ledger', e), name)
         == HeardOf(w, name) + if IsMine(w, tid, e, name) then {|w.ledger.log|} else {}
  {
    var o := if tid in w.jobs then Some(w.sys.requests[w.jobs[tid]].name) else None;
    CommitsOfLonger(w.ledger.log, ledger'.log, w.origin, o, name);
  }

  /** The ending call commits, for a request of that name. */
  predicate IsMine(w: World, tid: L.Tid, e: End, name: P.Name)
    requires Serves(w, tid)
  {
    e.Commits? && tid in w.jobs && w.sys.requests[w.jobs[tid]].name == name
  }

  lemma CloseAddsRun(w: World, tid: L.Tid, ledger': L.State, e: End, name: P.Name)
    requires P.Ok(w.sys) && Serves(w, tid)
    ensures |P.RunsOf(Close(w, tid, ledger', e).sys, name)|
         == |P.RunsOf(w.sys, name)| + if IsMine(w, tid, e, name) then 1 else 0
  {
    if tid in w.jobs && e.Commits? {
      P.CommitAddsRun(w.sys, w.jobs[tid], e.answer, name);
    } else {
      assert P.RunsOf(Close(w, tid, ledger', e).sys, name) == P.RunsOf(w.sys, name);
    }
  }

  lemma PostedStays(w: World, w': World, row: Id)
    requires row in w.sys.ran && row in w'.sys.ran && w'.sys.ran[row] == w.sys.ran[row] && Posted(w, row)
    requires w.ledger.log <= w'.ledger.log
    requires HeardOf(w, w.sys.ran[row].name) <= HeardOf(w', w.sys.ran[row].name)
    ensures Posted(w', row)
  {
    var i: nat :| i in HeardOf(w, w.sys.ran[row].name)
                  && P.Asked(w.ledger.log[i].call) == w.sys.ran[row].fingerprint;
    assert i in HeardOf(w', w.sys.ran[row].name);
  }

  /** The run that has just committed is posted by the last entry. */
  lemma CommitIsPosted(w: World, tid: L.Tid, ledger': L.State, e: End)
    requires Inv(w) && HasEnded(w, tid, ledger', e) && Serves(w, tid) && tid in w.jobs && e.Commits?
    ensures var row := w.sys.requests[w.jobs[tid]].phase.row;
            row in Close(w, tid, ledger', e).sys.ran && Posted(Close(w, tid, ledger', e), row)
  {
    var q := w.sys.requests[w.jobs[tid]];
    P.CommitAddsRun(w.sys, w.jobs[tid], e.answer, q.name);
    CloseAddsCommit(w, tid, ledger', e, q.name);
    assert JobOk(w, tid);
    assert |w.ledger.log| in HeardOf(Close(w, tid, ledger', e), q.name);
  }

  /** Closing a call keeps every run, and adds at most the one of its request. */
  lemma CloseKeepsRuns(w: World, tid: L.Tid, ledger': L.State, e: End, row: Id)
    requires P.Ok(w.sys) && Serves(w, tid)
    ensures var ran' := Close(w, tid, ledger', e).sys.ran;
            && (row in w.sys.ran ==> row in ran' && ran'[row] == w.sys.ran[row])
            && (row in ran' && row !in w.sys.ran ==>
                  tid in w.jobs && e.Commits? && row == w.sys.requests[w.jobs[tid]].phase.row)
  {
    if tid in w.jobs && e.Commits? {
      P.CommitAddsRun(w.sys, w.jobs[tid], e.answer, w.sys.requests[w.jobs[tid]].name);
    }
  }

  lemma CloseKeepsPosted(w: World, tid: L.Tid, ledger': L.State, e: End, row: Id)
    requires Inv(w) && HasEnded(w, tid, ledger', e) && Serves(w, tid)
    requires row in Close(w, tid, ledger', e).sys.ran
    ensures Posted(Close(w, tid, ledger', e), row)
  {
    CloseKeepsRuns(w, tid, ledger', e, row);
    if row in w.sys.ran {
      CloseAddsCommit(w, tid, ledger', e, w.sys.ran[row].name);
      PostedStays(w, Close(w, tid, ledger', e), row);
    } else {
      CommitIsPosted(w, tid, ledger', e);
    }
  }

  lemma CloseKeepsInv(w: World, tid: L.Tid, ledger': L.State, e: End)
    requires Inv(w) && HasEnded(w, tid, ledger', e)
    ensures Serves(w, tid) && Inv(Close(w, tid, ledger', e))
  {
    CloseKeepsJobs(w, tid, ledger', e);
    var w' := Close(w, tid, ledger', e);
    if tid in w.jobs {
      P.StepKeepsOk(w.sys, Told(e, w.jobs[tid]));
    }
    forall name
      ensures |HeardOf(w', name)| == |P.RunsOf(w'.sys, name)|
    {
      CloseAddsCommit(w, tid, ledger', e, name);
      CloseAddsRun(w, tid, ledger', e, name);
    }
    forall row | row in w'.sys.ran
      ensures Posted(w', row)
    {
      CloseKeepsPosted(w, tid, ledger', e, row);
    }
  }

  lemma StepKeepsInv(w: World, st: Step)
    requires Inv(w) && Enabled(w, st)
    ensures Inv(Next(w, st))
  {
    match st
    case Protocol(p) => ProtocolKeepsInv(w, p);
    case BeginUnkeyed(_, _) =>
      BeginKeepsJobs(w, st);
      LedgerStepKeepsInv(w, Next(w, st));
    case BeginKeyed(_, _, _) =>
      BeginKeepsJobs(w, st);
      LedgerStepKeepsInv(w, Next(w, st));
    case Advance(tid, answer, heard) =>
      AdvanceShape(w.ledger, tid);
      var ledger' := L.AdvanceOne(w.ledger, tid);
      if tid in ledger'.active {
        StatementKeepsJobs(w, tid, answer, heard);
        LedgerStepKeepsInv(w, Next(w, st));
      } else {
        CloseKeepsInv(w, tid, ledger', Ending(w.ledger, ledger', answer, heard));
      }
    case Lose(tid, noticed) =>
      CloseKeepsInv(w, tid, L.Next(w.ledger, L.Crash(tid)), if noticed then Fails else Dies);
  }

  lemma StartIsOk(w: World)
    requires Start(w)
    ensures Inv(w)
  {
    forall name
      ensures HeardOf(w, name) == {} && P.RunsOf(w.sys, name) == {}
    {
    }
  }

  lemma {:induction false} RunKeepsInv(w: World, steps: seq<Step>, w': World)
    requires Inv(w) && Run(w, steps, w')
    ensures Inv(w')
    decreases |steps|
  {
    if steps != [] {
      StepKeepsInv(w, steps[0]);
      RunKeepsInv(Next(w, steps[0]), steps[1..], w');
    }
  }

  // ---------- the two runs inside a run ----------

  /** The ledger's part of a run is a run of the ledger, so all that holds of those holds of it. */
  lemma {:induction false} LedgerRuns(w: World, steps: seq<Step>, w': World) returns (moves: seq<L.Move>)
    requires Run(w, steps, w')
    ensures L.Run(w.ledger, moves, w'.ledger)
    decreases |steps|
  {
    if steps == [] {
      moves := [];
    } else {
      var rest := LedgerRuns(Next(w, steps[0]), steps[1..], w');
      match steps[0]
      case Protocol(_) => moves := rest;
      case BeginUnkeyed(tid, c) => moves := [L.Begin(tid, c)] + rest;
      case BeginKeyed(_, tid, c) => moves := [L.Begin(tid, c)] + rest;
      case Advance(tid, _, _) => moves := [L.Advance(tid)] + rest;
      case Lose(tid, _) => moves := [L.Crash(tid)] + rest;
      if !steps[0].Protocol? {
        assert moves[1..] == rest;
      }
    }
  }

  /** What one step is for the protocol: nothing, or one step of its own. */
  lemma ProtocolStep(w: World, st: Step) returns (p: seq<P.Step>)
    requires Inv(w) && Enabled(w, st)
    ensures |p| <= 1
    ensures if |p| == 0 then Next(w, st).sys == w.sys
            else P.Enabled(w.sys, p[0]) && Next(w, st).sys == P.Next(w.sys, p[0])
    ensures |p| == 1 && p[0].Record? ==> st == Protocol(p[0])
  {
    match st
    case Protocol(q) => p := [q];
    case BeginUnkeyed(_, _) => p := [];
    case BeginKeyed(_, _, _) => p := [];
    case Advance(tid, answer, heard) =>
      var ledger' := L.AdvanceOne(w.ledger, tid);
      p := if tid in ledger'.active || tid !in w.jobs then []
           else [Told(Ending(w.ledger, ledger', answer, heard), w.jobs[tid])];
    case Lose(tid, noticed) =>
      p := if tid !in w.jobs then [] else [Told(if noticed then Fails else Dies, w.jobs[tid])];
  }

  /** The protocol's part of a run is a run of the protocol. */
  lemma {:induction false} ProtocolRuns(w: World, steps: seq<Step>, w': World) returns (sts: seq<P.Step>)
    requires Inv(w) && Run(w, steps, w')
    ensures P.Run(w.sys, sts, w'.sys)
    ensures forall i :: 0 <= i < |sts| && sts[i].Record? ==> Protocol(sts[i]) in steps
    decreases |steps|
  {
    if steps == [] {
      sts := [];
    } else {
      StepKeepsInv(w, steps[0]);
      var rest := ProtocolRuns(Next(w, steps[0]), steps[1..], w');
      var p := ProtocolStep(w, steps[0]);
      sts := p + rest;
      if |p| == 0 {
        assert sts == rest;
      } else {
        assert sts[1..] == rest;
      }
    }
  }

  /** The protocol never stands in the way of a call in flight. */
  lemma CallsAreServed(w: World, steps: seq<Step>, w': World, tid: L.Tid, answer: P.Answer, heard: bool)
    requires Start(w) && Run(w, steps, w')
    ensures Enabled(w', Advance(tid, answer, heard)) <==> L.Enabled(w'.ledger, L.Advance(tid))
  {
    StartIsOk(w);
    RunKeepsInv(w, steps, w');
    assert JobOk(w', tid);
  }

  // ---------- the theorems ----------

  /** Under any interleaving of retries, ledger statements, lost calls and stopped processes, the
    * ledger commits at most one call for a key, plus one for each row of the key that was lost, plus
    * one for each commit whose handler ended in an error: its reply was lost, or it threw later. */
  lemma CommitsAreBounded(w: World, steps: seq<Step>, w': World, name: P.Name)
    requires Start(w) && Run(w, steps, w')
    ensures |CommitsOf(w', name)| <= 1 + |P.LostRows(w'.sys, name)| + |UnheardOf(w', name)|
  {
    StartIsOk(w);
    RunKeepsInv(w, steps, w');
    var sts := ProtocolRuns(w, steps, w');
    P.RunsAreBounded(sts, w'.sys, name);
    HeardOrNot(w', name);
  }

  lemma HeardOrNot(w: World, name: P.Name)
    ensures |CommitsOf(w, name)| == |HeardOf(w, name)| + |UnheardOf(w, name)|
  {
    assert HeardOf(w, name) + UnheardOf(w, name) == CommitsOf(w, name);
    assert HeardOf(w, name) * UnheardOf(w, name) == {};
  }

  /** Every write of steps that records an answer for the name succeeds. */
  predicate AnswersAreStored(steps: seq<Step>, name: P.Name, requests: map<Id, P.Request>) {
    forall st :: st in steps && st.Protocol? ==> P.AnswerIsStored(st.st, name, requests)
  }

  /** Within the day after a key is first used, as long as answers can be stored and handlers hear of
    * their commits, the ledger commits at most one call for it, however often the request is repeated. */
  lemma RetriesCommitOnce(w0: World, before: seq<Step>, w: World, steps: seq<Step>, w': World, name: P.Name)
    requires Start(w0) && Run(w0, before, w) && P.Unused(w.sys, name)
    requires Run(w, steps, w') && w'.sys.now <= w.sys.now + 86_400_000
    requires AnswersAreStored(steps, name, w'.sys.requests) && UnheardOf(w', name) == {}
    ensures P.LostRows(w'.sys, name) == {}
    ensures |CommitsOf(w', name)| <= 1
  {
    StartIsOk(w0);
    RunKeepsInv(w0, before, w);
    RunKeepsInv(w, steps, w');
    var sts := ProtocolRuns(w0, before, w);
    var sts' := ProtocolRuns(w, steps, w');
    forall i | 0 <= i < |sts'|
      ensures P.AnswerIsStored(sts'[i], name, w'.sys.requests)
    {
      if sts'[i].Record? {
        assert Protocol(sts'[i]) in steps;
      }
    }
    P.KeysRunOnceInADay(sts, w.sys, sts', w'.sys, name);
    HeardOrNot(w', name);
  }

  /** A request that was answered under a key that lost no row and had no such commit: the ledger has
    * committed exactly one call for that key, and it is what this request asked for, in every field
    * that its client supplied. */
  lemma AnsweredMeansCommittedOnce(w: World, steps: seq<Step>, w': World, r: Id) returns (i: nat)
    requires Start(w) && Run(w, steps, w')
    requires r in w'.sys.requests && P.Answered(w'.sys.requests[r])
    requires P.LostRows(w'.sys, w'.sys.requests[r].name) == {} && UnheardOf(w', w'.sys.requests[r].name) == {}
    ensures CommitsOf(w', w'.sys.requests[r].name) == {i}
    ensures i < |w'.ledger.log| && P.Asked(w'.ledger.log[i].call) == w'.sys.requests[r].fingerprint
    ensures forall asked ::
              P.Asked(asked) == w'.sys.requests[r].fingerprint ==> P.SameRequest(asked, w'.ledger.log[i].call)
  {
    var q := w'.sys.requests[r];
    StartIsOk(w);
    RunKeepsInv(w, steps, w');
    CommitsAreBounded(w, steps, w', q.name);
    assert P.RequestOk(w'.sys, q);
    var row :| row in w'.sys.ran && w'.sys.ran[row] == P.Ran(q.name, q.fingerprint, q.phase.reply.answer);
    assert Posted(w', row);
    i :| i in HeardOf(w', q.name) && P.Asked(w'.ledger.log[i].call) == w'.sys.ran[row].fingerprint;
    OnlyElement(CommitsOf(w', q.name), i);
    forall asked | P.Asked(asked) == q.fingerprint
      ensures P.SameRequest(asked, w'.ledger.log[i].call)
    {
      P.AskedAlikeIff(asked, w'.ledger.log[i].call);
    }
  }

  lemma OnlyElement(s: set<nat>, x: nat)
    requires x in s && |s| <= 1
    ensures s == {x}
  {
    assert |s - {x}| == 0;
  }

  /** The log without the calls of a name that did not commit. */
  function Thinned(log: seq<Entry>, origin: seq<Option<P.Name>>, name: P.Name): seq<Entry>
    requires |origin| == |log|
    decreases |log|
  {
    if log == [] then [] else
    var n := |log| - 1;
    Thinned(log[..n], origin[..n], name)
    + if origin[n] == Some(name) && !log[n].outcome.Committed? then [] else [log[n]]
  }

  lemma {:induction false} ThinningLeavesTables(init: Db, log: seq<Entry>, origin: seq<Option<P.Name>>, name: P.Name)
    requires |origin| == |log|
    ensures Replay(init, Thinned(log, origin, name)) == Replay(init, log)
    decreases |log|
  {
    if log != [] {
      var n := |log| - 1;
      ThinningLeavesTables(init, log[..n], origin[..n], name);
      var rest, all := Thinned(log[..n], origin[..n], name), Thinned(log, origin, name);
      if |all| == |rest| {
        assert all == rest;
      } else {
        assert all[..|all| - 1] == rest;
      }
    }
  }

  /** Exactly-once effect: the tables are those of a serial history in which, of all the requests
    * made under the key, at most one call takes part. */
  lemma RetriesActAsOne(w0: World, before: seq<Step>, w: World, steps: seq<Step>, w': World, name: P.Name)
    requires Start(w0) && Run(w0, before, w) && P.Unused(w.sys, name)
    requires Run(w, steps, w') && w'.sys.now <= w.sys.now + 86_400_000
    requires AnswersAreStored(steps, name, w'.sys.requests) && UnheardOf(w', name) == {}
    ensures |CommitsOf(w', name)| <= 1 && |w'.origin| == |w'.ledger.log|
    ensures w'.ledger.db == Replay(w0.ledger.db, Thinned(w'.ledger.log, w'.origin, name))
  {
    RetriesCommitOnce(w0, before, w, steps, w', name);
    StartIsOk(w0);
    RunKeepsInv(w0, before, w);
    RunKeepsInv(w, steps, w');
    var moves := LedgerRuns(w0, before, w);
    var moves' := LedgerRuns(w, steps, w');
    LedgerRunJoins(w0.ledger, moves, w.ledger, moves', w'.ledger);
    InterleavingIsSerial(w0.ledger, moves + moves', w'.ledger);
    ThinningLeavesTables(w0.ledger.db, w'.ledger.log, w'.origin, name);
  }

  lemma {:induction false} LedgerRunJoins(a: L.State, before: seq<L.Move>, b: L.State, after: seq<L.Move>, c: L.State)
    requires L.Run(a, before, b) && L.Run(b, after, c)
    ensures L.Run(a, before + after, c)
    decreases |before|
  {
    if before == [] {
      assert before + after == after;
    } else {
      LedgerRunJoins(L.Next(a, before[0]), before[1..], b, after, c);
      assert (before + after)[1..] == before[1..] + after;
    }
  }
}
