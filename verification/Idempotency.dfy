/** Idempotent requests around the ledger.
  *
  * backend/src/idempotency/idempotency.interceptor.ts claims a key before the handler runs, and
  * records or releases it afterwards; backend/src/idempotency/idempotency.service.ts keeps one row
  * per user and key. The machine below interleaves any number of requests step by step with each
  * other, with the clock and with stopping processes; IdempotentLedger runs it around the ledger.
  */
module Idempotency {
  import opened Wrappers
  import opened Ledger

  /** Rows live for 24 hours. */
  const TTL: nat := 24 * 60 * 60 * 1000

  datatype Name = Name(user: Id, key: string)

  /** What the handler answered: HTTP status and body. */
  datatype Answer = Answer(status: nat, body: string)

  /** The fingerprint hashes method, path and body; the hash is taken to be injective, so it is the
    * request itself: a call without what the server adds to it, the ids it will draw, the rate it
    * will be quoted and the permissions it will find. */
  type Fingerprint = Call

  function Asked(c: Call): Fingerprint {
    match c
    case CreateWallet(actor, currency, _) => CreateWallet(actor, currency, 0)
    case AddMoney(wallet, actor, amount, note, _, _) => AddMoney(wallet, actor, amount, note, 0, 0)
    case RequestWithdrawal(wallet, actor, amount, note, _) => RequestWithdrawal(wallet, actor, amount, note, 0)
    case Approve(txn, actor, _, _) => Approve(txn, actor, {}, 0)
    case Reject(txn, actor, _, note, _) => Reject(txn, actor, {}, note, 0)
    case Adjust(wallet, actor, credit, amount, note, _) => Adjust(wallet, actor, credit, amount, note, 0)
    case Transfer(from, to, actor, amount, note, _, _, _, _, _) =>
      Transfer(from, to, actor, amount, note, None, 0, 0, 0, 0)
  }

  /** The two calls are of one kind and agree on all that a client supplies. */
  predicate SameRequest(c: Call, d: Call) {
    match c
    case CreateWallet(actor, currency, _) => d.CreateWallet? && d.actor == actor && d.currency == currency
    case AddMoney(wallet, actor, amount, note, _, _) =>
      d.AddMoney? && d.wallet == wallet && d.actor == actor && d.amount == amount && d.note == note
    case RequestWithdrawal(wallet, actor, amount, note, _) =>
      d.RequestWithdrawal? && d.wallet == wallet && d.actor == actor && d.amount == amount && d.note == note
    case Approve(txn, actor, _, _) => d.Approve? && d.txn == txn && d.actor == actor
    case Reject(txn, actor, _, note, _) => d.Reject? && d.txn == txn && d.actor == actor && d.note == note
    case Adjust(wallet, actor, credit, amount, note, _) =>
      && d.Adjust? && d.wallet == wallet && d.actor == actor && d.credit == credit && d.amount == amount
      && d.note == note
    case Transfer(from, to, actor, amount, note, _, _, _, _, _) =>
      && d.Transfer? && d.from == from && d.to == to && d.actor == actor && d.amount == amount
      && d.note == note
  }

  /** Fingerprints are equal exactly when the requests are the same. */
  lemma AskedAlikeIff(c: Call, d: Call)
    ensures Asked(c) == Asked(d) <==> SameRequest(c, d)
  {
  }

  /** A stored key; answer is None while the first request is still running. */
  datatype KeyRow = KeyRow(id: Id, fingerprint: Fingerprint, answer: Option<Answer>, createdAt: nat)

  datatype Reply = Own(answer: Answer) | Replayed(answer: Answer) | Mismatch | InProgress | Failure

  /** How far a request is. */
  datatype Phase =
    | Inserting                          // about to claim the key
    | Looking                            // the key was taken, about to read its row
    | Deleting(expired: Id)              // about to delete the expired row it read
    | Running(row: Id)                   // the handler runs
    | Recording(row: Id, answer: Answer) // the handler has committed, about to store its answer
    | Releasing(row: Id)                 // about to free the key
    | Over(reply: Reply)

  datatype Request = Request(name: Name, fingerprint: Fingerprint, phase: Phase)

  datatype Ran = Ran(name: Name, fingerprint: Fingerprint, answer: Answer)

  /** owner, lost and ran are history: the name each key row was made for, the rows that were
    * deleted although a run had committed or might still commit under them, and what ran under
    * which row. */
  datatype Sys = Sys(
    now: nat,
    keys: map<Name, KeyRow>,
    requests: map<Id, Request>,
    owner: map<Id, Name>,
    lost: set<Id>,
    ran: map<Id, Ran>)

  datatype Step =
    | Tick(ms: nat)
    | Arrive(r: Id, name: Name, fingerprint: Fingerprint)
    | Insert(r: Id, row: Id)
    | Look(r: Id)
    | Delete(r: Id)
    | Commit(r: Id, answer: Answer)
    | Fail(r: Id)
    | Record(r: Id, stored: bool)
    | Release(r: Id)
    | Stop(r: Id)

  ghost predicate Enabled(s: Sys, st: Step) {
    match st
    case Tick(_) => true
    case Arrive(r, _, _) => r !in s.requests
    case Insert(r, row) => r in s.requests && s.requests[r].phase.Inserting? && row !in s.owner
    case Look(r) => r in s.requests && s.requests[r].phase.Looking?
    case Delete(r) => r in s.requests && s.requests[r].phase.Deleting?
    case Commit(r, _) => r in s.requests && s.requests[r].phase.Running?
    case Fail(r) => r in s.requests && s.requests[r].phase.Running?
    case Record(r, _) => r in s.requests && s.requests[r].phase.Recording?
    case Release(r) => r in s.requests && s.requests[r].phase.Releasing?
    case Stop(r) => r in s.requests && !s.requests[r].phase.Over?
  }

  function Turn(s: Sys, r: Id, p: Phase): Sys
    requires r in s.requests
  {
    s.(requests := s.requests[r := s.requests[r].(phase := p)])
  }

  /** The row of that name is still the one with this id. */
  predicate Holds(s: Sys, name: Name, row: Id) {
    name in s.keys && s.keys[name].id == row
  }

  predicate Expired(row: KeyRow, now: nat) {
    row.createdAt + TTL < now
  }

  /** What reserve decides from the row it reads. */
  function Verdict(row: KeyRow, fingerprint: Fingerprint, now: nat): Phase {
    if Expired(row, now) then Deleting(row.id)
    else if row.fingerprint != fingerprint then Over(Mismatch)
    else if row.answer.None? then Over(InProgress)
    else Over(Replayed(row.answer.value))
  }

  function Next(s: Sys, st: Step): Sys
    requires Enabled(s, st)
  {
    match st
    case Tick(ms) => s.(now := s.now + ms)
    case Arrive(r, name, fingerprint) => s.(requests := s.requests[r := Request(name, fingerprint, Inserting)])
    case Insert(r, row) =>
      var q := s.requests[r];
      if q.name in s.keys then Turn(s, r, Looking)
      else Turn(s, r, Running(row)).(
        keys := s.keys[q.name := KeyRow(row, q.fingerprint, None, s.now)],
        owner := s.owner[row := q.name])
    case Look(r) =>
      var q := s.requests[r];
      Turn(s, r, if q.name !in s.keys then Inserting else Verdict(s.keys[q.name], q.fingerprint, s.now))
    case Delete(r) =>
      var q := s.requests[r];
      if Holds(s, q.name, q.phase.expired)
      then Turn(s, r, Inserting).(keys := s.keys - {q.name}, lost := s.lost + {q.phase.expired})
      else Turn(s, r, Over(Failure))
    case Commit(r, answer) =>
      var q := s.requests[r];
      Turn(s, r, Recording(q.phase.row, answer)).(
        ran := s.ran[q.phase.row := Ran(q.name, q.fingerprint, answer)])
    case Fail(r) => Turn(s, r, Releasing(s.requests[r].phase.row))
    case Record(r, stored) =>
      var q := s.requests[r];
      if stored && Holds(s, q.name, q.phase.row)
      then Turn(s, r, Over(Own(q.phase.answer))).(
             keys := s.keys[q.name := s.keys[q.name].(answer := Some(q.phase.answer))])
      else Turn(s, r, Releasing(q.phase.row))
    case Release(r) =>
      var q := s.requests[r];
      var done := Turn(s, r, Over(Failure));
      if Holds(s, q.name, q.phase.row)
      then done.(keys := s.keys - {q.name}, lost := if q.phase.row in s.ran then s.lost + {q.phase.row} else s.lost)
      else done
    case Stop(r) => Turn(s, r, Over(Failure))
  }

  ghost predicate Run(s: Sys, steps: seq<Step>, s': Sys)
    decreases |steps|
  {
    if steps == [] then s' == s
    else Enabled(s, steps[0]) && Run(Next(s, steps[0]), steps[1..], s')
  }

  const START := Sys(0, map[], map[], map[], {}, map[])

  // ---------- the invariant ----------

  function HeldRow(p: Phase): Option<Id> {
    match p
    case Running(row) => Some(row)
    case Recording(row, _) => Some(row)
    case Releasing(row) => Some(row)
    case _ => None
  }

  /** A request still owns the row it inserted: the row is in place, unanswered and carries its
    * fingerprint, or it was lost. */
  ghost predicate HoldOk(s: Sys, name: Name, fingerprint: Fingerprint, row: Id) {
    && row in s.owner && s.owner[row] == name
    && (row in s.lost || Holds(s, name, row))
    && (Holds(s, name, row) ==> s.keys[name].fingerprint == fingerprint && s.keys[name].answer.None?)
  }

  ghost predicate AnswerOk(s: Sys, q: Request, answer: Answer) {
    exists row :: row in s.ran && s.ran[row] == Ran(q.name, q.fingerprint, answer)
  }

  ghost predicate RequestOk(s: Sys, q: Request) {
    match q.phase
    case Running(row) => HoldOk(s, q.name, q.fingerprint, row) && row !in s.ran
    case Recording(row, answer) =>
      HoldOk(s, q.name, q.fingerprint, row) && row in s.ran && s.ran[row] == Ran(q.name, q.fingerprint, answer)
    case Releasing(row) => HoldOk(s, q.name, q.fingerprint, row)
    case Over(Own(answer)) => AnswerOk(s, q, answer)
    case Over(Replayed(answer)) => AnswerOk(s, q, answer)
    case _ => true
  }

  ghost predicate KeyOk(s: Sys, name: Name) {
    name in s.keys ==>
      && s.keys[name].id in s.owner && s.owner[s.keys[name].id] == name && s.keys[name].id !in s.lost
      && (s.keys[name].answer.Some? ==>
            s.keys[name].id in s.ran
            && s.ran[s.keys[name].id] == Ran(name, s.keys[name].fingerprint, s.keys[name].answer.value))
  }

  ghost predicate RanOk(s: Sys, row: Id) {
    row in s.ran ==>
      row in s.owner && s.ran[row].name == s.owner[row] && (row in s.lost || Holds(s, s.owner[row], row))
  }

  ghost predicate Ok(s: Sys) {
    && (forall n :: KeyOk(s, n))
    && (forall r :: r in s.requests ==> RequestOk(s, s.requests[r]))
    && (forall row :: RanOk(s, row))
    && (forall row :: row in s.lost ==> row in s.owner)
    && (forall r, r' :: r in s.requests && r' in s.requests && r != r' && HeldRow(s.requests[r].phase).Some? ==>
          HeldRow(s.requests[r].phase) != HeldRow(s.requests[r'].phase))
  }

  lemma StepKeepsKeys(s: Sys, st: Step, n: Name)
    requires Ok(s) && Enabled(s, st)
    ensures KeyOk(Next(s, st), n)
  {
    assert KeyOk(s, n);
    if st.Record? || st.Release? || st.Delete? {
      assert RequestOk(s, s.requests[st.r]) && KeyOk(s, s.requests[st.r].name);
    }
  }

  lemma StepKeepsRan(s: Sys, st: Step, row: Id)
    requires Ok(s) && Enabled(s, st)
    ensures RanOk(Next(s, st), row)
  {
    assert RanOk(s, row);
    if st.Commit? {
      assert RequestOk(s, s.requests[st.r]);
    }
  }

  lemma StepKeepsAnswers(s: Sys, st: Step, q: Request, answer: Answer)
    requires Ok(s) && Enabled(s, st) && AnswerOk(s, q, answer)
    ensures AnswerOk(Next(s, st), q, answer)
  {
    var row :| row in s.ran && s.ran[row] == Ran(q.name, q.fingerprint, answer);
    if st.Commit? {
      assert RequestOk(s, s.requests[st.r]);
    }
    assert Next(s, st).ran[row] == s.ran[row];
  }

  /** A request's hold on its row survives the steps of every other request. */
  lemma StepKeepsHold(s: Sys, st: Step, r: Id, row: Id)
    requires Ok(s) && Enabled(s, st) && r in s.requests && HeldRow(s.requests[r].phase) == Some(row)
    requires st.Tick? || st.r != r
    ensures var q := s.requests[r]; HoldOk(Next(s, st), q.name, q.fingerprint, row)
    ensures row in Next(s, st).ran <==> row in s.ran
  {
    assert RequestOk(s, s.requests[r]) && RanOk(s, row);
    if !st.Tick? && st.r in s.requests {
      assert RequestOk(s, s.requests[st.r]) && KeyOk(s, s.requests[st.r].name);
    }
  }

  /** What is known of a request stays true while another one takes a step. */
  lemma StepKeepsOthers(s: Sys, st: Step, r: Id)
    requires Ok(s) && Enabled(s, st) && r in s.requests && (st.Tick? || st.r != r)
    ensures RequestOk(Next(s, st), s.requests[r])
  {
    var q := s.requests[r];
    assert RequestOk(s, q);
    if HeldRow(q.phase).Some? {
      StepKeepsHold(s, st, r, HeldRow(q.phase).value);
    } else if q.phase.Over? && q.phase.reply.Own? {
      StepKeepsAnswers(s, st, q, q.phase.reply.answer);
    } else if q.phase.Over? && q.phase.reply.Replayed? {
      StepKeepsAnswers(s, st, q, q.phase.reply.answer);
    }
  }

  /** A request keeps what is known of it when it takes a step itself. */
  lemma StepKeepsOwn(s: Sys, st: Step)
    requires Ok(s) && Enabled(s, st) && !st.Tick?
    ensures RequestOk(Next(s, st), Next(s, st).requests[st.r])
  {
    if !st.Arrive? {
      var q := s.requests[st.r];
      assert RequestOk(s, q) && KeyOk(s, q.name);
      if st.Insert? {
        assert RanOk(s, st.row);
      }
      if st.Record? && st.stored && Holds(s, q.name, q.phase.row) {
        assert Next(s, st).ran[q.phase.row] == Ran(q.name, q.fingerprint, q.phase.answer);
      }
    }
  }

  /** After a step a request holds the row it held before, or a new one it has just inserted. */
  lemma StepMovesRows(s: Sys, st: Step, r: Id)
    requires Enabled(s, st) && r in Next(s, st).requests
    ensures var held := HeldRow(Next(s, st).requests[r].phase);
            || held.None?
            || (r in s.requests && held == HeldRow(s.requests[r].phase))
            || (st.Insert? && st.r == r && held == Some(st.row) && st.row !in s.owner)
  {
  }

  lemma StepKeepsRowsApart(s: Sys, st: Step, r: Id, r': Id)
    requires Ok(s) && Enabled(s, st) && r in Next(s, st).requests && r' in Next(s, st).requests && r != r'
    requires HeldRow(Next(s, st).requests[r].phase).Some?
    ensures HeldRow(Next(s, st).requests[r].phase) != HeldRow(Next(s, st).requests[r'].phase)
  {
    StepMovesRows(s, st, r);
    StepMovesRows(s, st, r');
    HeldIsOwned(s, r);
    HeldIsOwned(s, r');
  }

  lemma HeldIsOwned(s: Sys, r: Id)
    requires Ok(s)
    ensures r in s.requests && HeldRow(s.requests[r].phase).Some? ==> HeldRow(s.requests[r].phase).value in s.owner
  {
    if r in s.requests {
      assert RequestOk(s, s.requests[r]);
    }
  }

  lemma StepKeepsOk(s: Sys, st: Step)
    requires Ok(s) && Enabled(s, st)
    ensures Ok(Next(s, st))
  {
    var s' := Next(s, st);
    forall n
      ensures KeyOk(s', n)
    {
      StepKeepsKeys(s, st, n);
    }
    forall row
      ensures RanOk(s', row)
    {
      StepKeepsRan(s, st, row);
    }
    forall r | r in s'.requests
      ensures RequestOk(s', s'.requests[r])
    {
      if st.Tick? || st.r != r {
        StepKeepsOthers(s, st, r);
      } else {
        StepKeepsOwn(s, st);
      }
    }
    forall r, r' | r in s'.requests && r' in s'.requests && r != r' && HeldRow(s'.requests[r].phase).Some?
      ensures HeldRow(s'.requests[r].phase) != HeldRow(s'.requests[r'].phase)
    {
      StepKeepsRowsApart(s, st, r, r');
    }
    LostStaysOwned(s, st);
  }

  lemma LostStaysOwned(s: Sys, st: Step)
    requires Ok(s) && Enabled(s, st)
    ensures forall row :: row in Next(s, st).lost ==> row in Next(s, st).owner
  {
    if st.Delete? || st.Release? {
      assert RequestOk(s, s.requests[st.r]) && KeyOk(s, s.requests[st.r].name);
    }
  }

  lemma {:induction false} RunKeepsOk(s: Sys, steps: seq<Step>, s': Sys)
    requires Ok(s) && Run(s, steps, s')
    ensures Ok(s')
    decreases |steps|
  {
    if steps != [] {
      StepKeepsOk(s, steps[0]);
      RunKeepsOk(Next(s, steps[0]), steps[1..], s');
    }
  }

  // ---------- the theorems ----------

  /** The runs made under a name, by the rows they ran under. */
  function RunsOf(s: Sys, name: Name): set<Id> {
    set row | row in s.ran && s.ran[row].name == name
  }

  /** The rows of a name that were deleted although their request had committed or still might:
    * by expiry, or because the answer could not be stored after the commit. */
  function LostRows(s: Sys, name: Name): set<Id> {
    set row | row in s.lost && row in s.owner && s.owner[row] == name
  }

  lemma OnlyCommitsRun(s: Sys, st: Step)
    requires Enabled(s, st) && !st.Commit?
    ensures Next(s, st).ran == s.ran
  {
  }

  /** A commit is one more run, under a row no run has used. */
  lemma CommitAddsRun(s: Sys, r: Id, answer: Answer, name: Name)
    requires Ok(s) && Enabled(s, Commit(r, answer))
    ensures var q, s' := s.requests[r], Next(s, Commit(r, answer));
            && q.phase.row !in s.ran
            && s'.ran == s.ran[q.phase.row := Ran(q.name, q.fingerprint, answer)]
            && RunsOf(s', name) == RunsOf(s, name) + if q.name == name then {q.phase.row} else {}
  {
    assert RequestOk(s, s.requests[r]);
  }

  /** Under any interleaving the handler commits for a key at most once, plus once for each row of
    * that key that was lost. */
  lemma RunsAreBounded(steps: seq<Step>, s: Sys, name: Name)
    requires Run(START, steps, s)
    ensures |RunsOf(s, name)| <= 1 + |LostRows(s, name)|
  {
    RunKeepsOk(START, steps, s);
    assert forall row :: row in s.ran ==> RanOk(s, row);
    var held := if name in s.keys then {s.keys[name].id} else {};
    SubsetSize(RunsOf(s, name), LostRows(s, name) + held);
    SubsetSize(held, {if name in s.keys then s.keys[name].id else 0});
  }

  lemma {:induction false} SubsetSize(a: set<Id>, b: set<Id>)
    requires a <= b
    ensures |a| <= |b|
    decreases |a|
  {
    if a != {} {
      var x :| x in a;
      SubsetSize(a - {x}, b - {x});
    }
  }

  /** Exactly-once effect of retries: while no row of a key was lost, all requests that got an
    * answer under that key and fingerprint got the status and body of one and the same run. */
  lemma AnswersAgree(steps: seq<Step>, s: Sys, r: Id, r': Id)
    requires Run(START, steps, s) && r in s.requests && r' in s.requests
    requires Answered(s.requests[r]) && Answered(s.requests[r'])
    requires s.requests[r].name == s.requests[r'].name && LostRows(s, s.requests[r].name) == {}
    ensures s.requests[r].phase.reply.answer == s.requests[r'].phase.reply.answer
    ensures s.requests[r].fingerprint == s.requests[r'].fingerprint
    ensures |RunsOf(s, s.requests[r].name)| == 1
  {
    var q, q' := s.requests[r], s.requests[r'];
    RunKeepsOk(START, steps, s);
    RunsAreBounded(steps, s, q.name);
    assert RequestOk(s, q) && RequestOk(s, q');
    var row :| row in s.ran && s.ran[row] == Ran(q.name, q.fingerprint, q.phase.reply.answer);
    var row' :| row' in s.ran && s.ran[row'] == Ran(q.name, q'.fingerprint, q'.phase.reply.answer);
    assert {row, row'} <= RunsOf(s, q.name);
    SubsetSize({row, row'}, RunsOf(s, q.name));
  }

  predicate Answered(q: Request) {
    q.phase.Over? && (q.phase.reply.Own? || q.phase.reply.Replayed?)
  }

  // ---------- when nothing is lost ----------

  /** No request, key or run has used the name yet. */
  ghost predicate Unused(s: Sys, name: Name) {
    && name !in s.keys
    && (forall r :: r in s.requests ==> s.requests[r].name != name)
    && LostRows(s, name) == {}
  }

  /** Every write that records an answer for the name succeeds. */
  predicate AnswersAreStored(steps: seq<Step>, name: Name, requests: map<Id, Request>) {
    forall i :: 0 <= i < |steps| ==> AnswerIsStored(steps[i], name, requests)
  }

  predicate AnswerIsStored(st: Step, name: Name, requests: map<Id, Request>) {
    st.Record? && st.r in requests && requests[st.r].name == name ==> st.stored
  }

  /** Since the time t0 no row of the name has been lost or is about to be. */
  ghost predicate Quiet(s: Sys, name: Name, t0: nat) {
    && LostRows(s, name) == {}
    && (name in s.keys ==> t0 <= s.keys[name].createdAt)
    && (forall r :: r in s.requests && s.requests[r].name == name ==> QuietPhase(s, s.requests[r].phase))
  }

  predicate QuietPhase(s: Sys, p: Phase) {
    !p.Deleting? && (p.Releasing? ==> p.row !in s.ran)
  }

  /** The request that takes the step stays quiet: it meets no row older than a day, and having
    * committed it finds its row in place. */
  lemma StepIsQuiet(s: Sys, st: Step, name: Name, t0: nat)
    requires Ok(s) && Enabled(s, st) && Quiet(s, name, t0) && Next(s, st).now <= t0 + TTL
    requires AnswerIsStored(st, name, s.requests)
    requires !st.Tick? && Next(s, st).requests[st.r].name == name
    ensures QuietPhase(Next(s, st), Next(s, st).requests[st.r].phase)
  {
    if st.r in s.requests {
      assert RequestOk(s, s.requests[st.r]);
      if st.Record? {
        assert s.requests[st.r].phase.row !in LostRows(s, name);
      }
    }
  }

  lemma StepLosesNothing(s: Sys, st: Step, name: Name, t0: nat)
    requires Ok(s) && Enabled(s, st) && Quiet(s, name, t0)
    ensures LostRows(Next(s, st), name) == {}
  {
    forall row | row in Next(s, st).lost && row in Next(s, st).owner
      ensures Next(s, st).owner[row] != name
    {
      if row in s.lost {
        assert row !in LostRows(s, name);
      } else {
        assert RequestOk(s, s.requests[st.r]) && KeyOk(s, s.requests[st.r].name);
      }
    }
  }

  /** The others stay quiet: no one commits under the row they release. */
  lemma OthersStayQuiet(s: Sys, st: Step, r: Id)
    requires Ok(s) && Enabled(s, st) && r in s.requests && (st.Tick? || st.r != r) && QuietPhase(s, s.requests[r].phase)
    ensures QuietPhase(Next(s, st), s.requests[r].phase)
  {
    if s.requests[r].phase.Releasing? && st.Commit? {
      assert HeldRow(s.requests[r].phase) != HeldRow(s.requests[st.r].phase);
    }
  }

  lemma KeysStayYoung(s: Sys, st: Step, name: Name, t0: nat)
    requires Enabled(s, st) && t0 <= s.now && (name in s.keys ==> t0 <= s.keys[name].createdAt)
    ensures name in Next(s, st).keys ==> t0 <= Next(s, st).keys[name].createdAt
  {
  }

  lemma StepKeepsQuiet(s: Sys, st: Step, name: Name, t0: nat)
    requires Ok(s) && Enabled(s, st) && Quiet(s, name, t0) && t0 <= s.now && Next(s, st).now <= t0 + TTL
    requires AnswerIsStored(st, name, s.requests)
    ensures Quiet(Next(s, st), name, t0)
  {
    StepLosesNothing(s, st, name, t0);
    KeysStayYoung(s, st, name, t0);
    var s' := Next(s, st);
    forall r | r in s'.requests && s'.requests[r].name == name
      ensures QuietPhase(s', s'.requests[r].phase)
    {
      if !st.Tick? && st.r == r {
        StepIsQuiet(s, st, name, t0);
      } else {
        OthersStayQuiet(s, st, r);
      }
    }
  }

  lemma {:induction false} TimePasses(s: Sys, steps: seq<Step>, s': Sys)
    requires Run(s, steps, s')
    ensures s.now <= s'.now
    decreases |steps|
  {
    if steps != [] {
      TimePasses(Next(s, steps[0]), steps[1..], s');
    }
  }

  lemma {:induction false} NamesStay(s: Sys, steps: seq<Step>, s': Sys)
    requires Run(s, steps, s')
    ensures forall r :: r in s.requests ==> r in s'.requests && s'.requests[r].name == s.requests[r].name
    decreases |steps|
  {
    if steps != [] {
      NamesStay(Next(s, steps[0]), steps[1..], s');
    }
  }

  lemma {:induction false} RunKeepsQuiet(s: Sys, steps: seq<Step>, s': Sys, name: Name, t0: nat)
    requires Ok(s) && Quiet(s, name, t0) && t0 <= s.now
    requires Run(s, steps, s') && s'.now <= t0 + TTL && AnswersAreStored(steps, name, s'.requests)
    ensures Quiet(s', name, t0)
    decreases |steps|
  {
    if steps != [] {
      var mid := Next(s, steps[0]);
      TimePasses(mid, steps[1..], s');
      NamesStay(s, steps, s');
      assert AnswerIsStored(steps[0], name, s'.requests);
      StepKeepsQuiet(s, steps[0], name, t0);
      StepKeepsOk(s, steps[0]);
      forall i | 0 <= i < |steps| - 1
        ensures AnswerIsStored(steps[1..][i], name, s'.requests)
      {
        assert steps[1..][i] == steps[i + 1];
      }
      RunKeepsQuiet(mid, steps[1..], s', name, t0);
    }
  }

  /** A key loses no row within the day after its first use, as long as answers can be stored: so
    * within that day its handler commits at most once. */
  lemma KeysRunOnceInADay(before: seq<Step>, s: Sys, steps: seq<Step>, s': Sys, name: Name)
    requires Run(START, before, s) && Unused(s, name)
    requires Run(s, steps, s') && s'.now <= s.now + 86_400_000 && AnswersAreStored(steps, name, s'.requests)
    ensures LostRows(s', name) == {}
    ensures |RunsOf(s', name)| <= 1
  {
    RunKeepsOk(START, before, s);
    RunKeepsQuiet(s, steps, s', name, s.now);
    RunJoins(START, before, s, steps, s');
    RunsAreBounded(before + steps, s', name);
  }

  lemma {:induction false} RunJoins(a: Sys, before: seq<Step>, b: Sys, after: seq<Step>, c: Sys)
    requires Run(a, before, b) && Run(b, after, c)
    ensures Run(a, before + after, c)
    decreases |before|
  {
    if before == [] {
      assert before + after == after;
    } else {
      RunJoins(Next(a, before[0]), before[1..], b, after, c);
      assert (before + after)[1..] == before[1..] + after;
    }
  }

  /** One more step at the end of a run. */
  lemma Then(s: Sys, steps: seq<Step>, mid: Sys, st: Step) returns (steps': seq<Step>, s': Sys)
    requires Run(s, steps, mid) && Enabled(mid, st)
    ensures steps' == steps + [st] && s' == Next(mid, st) && Run(s, steps', s')
  {
    steps', s' := steps + [st], Next(mid, st);
    assert Run(Next(mid, st), [st][1..], s');
    RunJoins(s, steps, mid, [st], s');
  }

  /** While a key is held, the handler runs for the request that holds it and for no other, least of
    * all one with another fingerprint: any other handler running under the name has lost its row. */
  lemma OnlyTheHolderRuns(steps: seq<Step>, s: Sys, r: Id)
    requires Run(START, steps, s) && r in s.requests && s.requests[r].phase.Running?
    requires s.requests[r].phase.row !in s.lost
    ensures var q := s.requests[r];
            && Holds(s, q.name, q.phase.row)
            && s.keys[q.name].fingerprint == q.fingerprint && s.keys[q.name].answer.None?
    ensures forall r' ::
              (r' in s.requests && r' != r && s.requests[r'].name == s.requests[r].name
               && s.requests[r'].phase.Running?)
              ==> s.requests[r'].phase.row in s.lost
  {
    RunKeepsOk(START, steps, s);
    var q := s.requests[r];
    assert RequestOk(s, q);
    forall r' | r' in s.requests && r' != r && s.requests[r'].name == q.name && s.requests[r'].phase.Running?
      ensures s.requests[r'].phase.row in s.lost
    {
      var q' := s.requests[r'];
      assert RequestOk(s, q');
      assert HeldRow(q.phase) != HeldRow(q'.phase);
    }
  }

  // ---------- when an answer cannot be stored ----------

  /** The handler commits, but the write that records its answer fails. That failure is handled
    * like a failed handler: the key is freed, and the retry runs the handler a second time within
    * the day. */
  lemma UnstoredAnswerRunsAgain(name: Name, fingerprint: Fingerprint, first: Answer, second: Answer)
    returns (steps: seq<Step>, s: Sys)
    ensures Run(START, steps, s) && s.now == 0
    ensures |RunsOf(s, name)| == 2 && |LostRows(s, name)| == 1
    ensures 0 in s.requests && s.requests[0].phase == Over(Failure)
    ensures 1 in s.requests && s.requests[1].phase == Over(Own(second))
  {
    var claimed := Sys(0, map[name := KeyRow(0, fingerprint, None, 0)],
                       map[0 := Request(name, fingerprint, Running(0))], map[0 := name], {}, map[]);
    steps, s := Claim(START, 0, 0, name, fingerprint);
    assert s == claimed;
    var more, mid := FailToStore(claimed, first);
    RunJoins(START, steps, claimed, more, mid);
    steps := steps + more;
    more, s := Claim(mid, 1, 1, name, fingerprint);
    RunJoins(START, steps, mid, more, s);
    steps, mid := steps + more, s;
    more, s := AnswerAndStore(mid, second);
    RunJoins(START, steps, mid, more, s);
    steps := steps + more;
    assert RunsOf(s, name) == {0, 1} && LostRows(s, name) == {0};
  }

  /** A request takes a free key. */
  lemma Claim(s0: Sys, r: Id, row: Id, name: Name, fingerprint: Fingerprint) returns (steps: seq<Step>, s: Sys)
    requires r !in s0.requests && row !in s0.owner && name !in s0.keys
    ensures Run(s0, steps, s) && forall st :: st in steps ==> !st.Record?
    ensures s == s0.(
        keys := s0.keys[name := KeyRow(row, fingerprint, None, s0.now)],
        requests := s0.requests[r := Request(name, fingerprint, Running(row))],
        owner := s0.owner[row := name])
  {
    steps, s := Then(s0, [], s0, Arrive(r, name, fingerprint));
    steps, s := Then(s0, steps, s, Insert(r, row));
  }

  /** Request 1 commits and its answer is stored. */
  lemma AnswerAndStore(s0: Sys, answer: Answer) returns (steps: seq<Step>, s: Sys)
    requires 1 in s0.requests && s0.requests[1].phase == Running(1) && Holds(s0, s0.requests[1].name, 1)
    ensures Run(s0, steps, s)
    ensures var q := s0.requests[1];
            s == s0.(
              keys := s0.keys[q.name := s0.keys[q.name].(answer := Some(answer))],
              requests := s0.requests[1 := q.(phase := Over(Own(answer)))],
              ran := s0.ran[1 := Ran(q.name, q.fingerprint, answer)])
  {
    steps, s := Then(s0, [], s0, Commit(1, answer));
    steps, s := Then(s0, steps, s, Record(1, true));
  }

  /** Request 0 commits, its answer is not stored, and it frees its key. */
  lemma FailToStore(s0: Sys, answer: Answer) returns (steps: seq<Step>, s: Sys)
    requires 0 in s0.requests && s0.requests[0].phase == Running(0) && Holds(s0, s0.requests[0].name, 0)
    ensures Run(s0, steps, s)
    ensures var q := s0.requests[0];
            s == s0.(
              keys := s0.keys - {q.name}, requests := s0.requests[0 := q.(phase := Over(Failure))],
              lost := s0.lost + {0}, ran := s0.ran[0 := Ran(q.name, q.fingerprint, answer)])
  {
    steps, s := Then(s0, [], s0, Commit(0, answer));
    steps, s := Then(s0, steps, s, Record(0, false));
    steps, s := Then(s0, steps, s, Release(0));
  }
}
