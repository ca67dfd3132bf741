/** The key store and the interceptor as they run, one request at a time, and the proof that each
  * request so handled is a run of the protocol in Idempotency.
  */
module IdempotencyServices {
  import opened Wrappers
  import opened Ledger
  import opened Idempotency

  datatype Reservation = New(id: Id) | Replay(answer: Answer) | OtherRequest | StillRunning

  /** What a request meets when it claims its name at the time now: the store afterwards and the
    * answer. row is the id a new key row would get. */
  function Reserved(keys: map<Name, KeyRow>, name: Name, fingerprint: Fingerprint, now: nat, row: Id)
    : (map<Name, KeyRow>, Reservation)
  {
    if name !in keys || Expired(keys[name], now) then (keys[name := KeyRow(row, fingerprint, None, now)], New(row))
    else if keys[name].fingerprint != fingerprint then (keys, OtherRequest)
    else if keys[name].answer.None? then (keys, StillRunning)
    else (keys, Replay(keys[name].answer.value))
  }

  /** Ids are unique: no two names share a row id. */
  ghost predicate UniqueIds(keys: map<Name, KeyRow>) {
    forall n, m :: n in keys && m in keys && keys[n].id == keys[m].id ==> n == m
  }

  class IdempotencyService {
    var rows: map<Name, KeyRow>

    constructor ()
      ensures rows == map[]
    {
      rows := map[];
    }

    /** Inserts first and reads only if the unique key is taken; an expired row is deleted and the
      * whole attempt made again. */
    method Reserve(name: Name, fingerprint: Fingerprint, now: nat, row: Id) returns (r: Reservation)
      modifies this
      ensures (rows, r) == Reserved(old(rows), name, fingerprint, now, row)
      decreases name in rows
    {
      if name !in rows {
        rows := rows[name := KeyRow(row, fingerprint, None, now)];
        return New(row);
      }
      var existing := rows[name];
      if existing.createdAt + TTL < now {
        rows := rows - {name};
        r := Reserve(name, fingerprint, now, row);
        assert rows == old(rows)[name := KeyRow(row, fingerprint, None, now)];
        return;
      }
      if existing.fingerprint != fingerprint {
        return OtherRequest;
      }
      if existing.answer.None? {
        return StillRunning;
      }
      return Replay(existing.answer.value);
    }

    /** An update by id: fails when the row is gone. */
    method Complete(id: Id, answer: Answer) returns (ok: bool)
      modifies this
      ensures ok <==> exists n :: n in old(rows) && old(rows)[n].id == id
      ensures rows.Keys == old(rows.Keys)
      ensures forall n :: n in rows ==>
                rows[n] == if old(rows)[n].id == id then old(rows)[n].(answer := Some(answer)) else old(rows)[n]
    {
      ok := exists n :: n in rows && rows[n].id == id;
      rows := map n | n in rows :: if rows[n].id == id then rows[n].(answer := Some(answer)) else rows[n];
    }

    /** A delete by id: does nothing when the row is gone. */
    method Release(id: Id)
      modifies this
      ensures rows == map n | n in old(rows) && old(rows)[n].id != id :: old(rows)[n]
    {
      rows := map n | n in rows && rows[n].id != id :: rows[n];
    }
  }

  // ---------- idempotency.interceptor.ts ----------

  /** What a run of the handler would come to: an answer, or an error that rolled its transaction
    * back; stored tells whether the write that records the answer then succeeds. */
  datatype Handler = Answers(answer: Answer, stored: bool) | Throws(message: string)

  datatype Response =
    | Body(answer: Answer) | KeyRequired | UserRequired | Conflict | Thrown(message: string) | StoreFailed

  class IdempotencyInterceptor {
    const service: IdempotencyService
    /** Whether the route refuses requests without a key. */
    const required: bool

    constructor (service: IdempotencyService, required: bool)
      ensures this.service == service && this.required == required
    {
      this.service, this.required := service, required;
    }

    /** key and user are None when absent; an empty key counts as absent. ran tells whether the
      * handler was run. */
    method Intercept(user: Option<Id>, key: Option<string>, fingerprint: Fingerprint, handler: Handler,
                     now: nat, row: Id)
      returns (response: Response, ran: bool)
      requires UniqueIds(service.rows) && forall n :: n in service.rows ==> service.rows[n].id != row
      modifies service
      ensures UniqueIds(service.rows)
      ensures key.GetOr("") == "" ==>
                service.rows == old(service.rows) && ran == !required
                && response == if required then KeyRequired else FromHandler(handler)
      ensures key.GetOr("") != "" && user.None? ==>
                service.rows == old(service.rows) && !ran && response == UserRequired
      ensures key.GetOr("") != "" && user.Some? ==>
                (service.rows, response, ran)
                  == Intercepted(old(service.rows), Name(user.value, key.value), fingerprint, handler, now, row)
    {
      if key.GetOr("") == "" {
        if required {
          return KeyRequired, false;
        }
        return FromHandler(handler), true;
      }
      if user.None? {
        return UserRequired, false;
      }
      var name := Name(user.value, key.value);
      var r := service.Reserve(name, fingerprint, now, row);
      match r
      case Replay(answer) => return Body(answer), false;
      case OtherRequest => return Conflict, false;
      case StillRunning => return Conflict, false;
      case New(id) =>
        ghost var claimed := service.rows;
        match handler {
          case Answers(answer, stored) =>
            if stored {
              var ok := service.Complete(id, answer);
              assert claimed[name].id == id;
              assert service.rows == old(service.rows)[name := KeyRow(id, fingerprint, Some(answer), now)];
              return Body(answer), true;
            }
            service.Release(id);
            assert service.rows == old(service.rows) - {name};
            return StoreFailed, true;
          case Throws(message) =>
            service.Release(id);
            assert service.rows == old(service.rows) - {name};
            return Thrown(message), true;
        }
    }
  }

  /** Without a key nothing is recorded and the handler's own outcome is the answer. */
  function FromHandler(handler: Handler): Response {
    match handler
    case Answers(answer, _) => Body(answer)
    case Throws(message) => Thrown(message)
  }

  /** The store after a request with a name, its response, and whether its handler ran. */
  function Intercepted(keys: map<Name, KeyRow>, name: Name, fingerprint: Fingerprint, handler: Handler,
                       now: nat, row: Id)
    : (map<Name, KeyRow>, Response, bool)
  {
    match Reserved(keys, name, fingerprint, now, row).1
    case Replay(answer) => (keys, Body(answer), false)
    case OtherRequest => (keys, Conflict, false)
    case StillRunning => (keys, Conflict, false)
    case New(_) =>
      match handler
      case Answers(answer, true) => (keys[name := KeyRow(row, fingerprint, Some(answer), now)], Body(answer), true)
      case Answers(_, false) => (keys - {name}, StoreFailed, true)
      case Throws(message) => (keys - {name}, Thrown(message), true)
  }

  /** A row counts for 24 hours. Within them it decides alone what a request under its name meets: a
    * conflict if it was made for another request or its handler still runs, and else its answer. */
  lemma ReservationIsDecided(keys: map<Name, KeyRow>, name: Name, fingerprint: Fingerprint, now: nat, row: Id)
    ensures var (keys1, r) := Reserved(keys, name, fingerprint, now, row);
            var counts := name in keys && now <= keys[name].createdAt + 86_400_000;
            && (r.New? <==> !counts) && (r.New? ==> r == New(row))
            && (r.OtherRequest? <==> counts && keys[name].fingerprint != fingerprint)
            && (r.StillRunning? <==> counts && keys[name].fingerprint == fingerprint && keys[name].answer.None?)
            && (r.Replay? <==> counts && keys[name].fingerprint == fingerprint && keys[name].answer.Some?)
            && (r.Replay? ==> keys[name].answer == Some(r.answer))
            && keys1 == if counts then keys else keys[name := KeyRow(row, fingerprint, None, now)]
  {
  }

  /** The handler runs exactly when no row counts. What it answers, if that can be stored, is kept for
    * the day; whatever else it comes to leaves the name free. No other name is touched. */
  lemma HandlingIsDecided(keys: map<Name, KeyRow>, name: Name, fingerprint: Fingerprint, handler: Handler, now: nat,
                          row: Id)
    ensures var (keys1, response, ran) := Intercepted(keys, name, fingerprint, handler, now, row);
            && (ran <==> name !in keys || keys[name].createdAt + 86_400_000 < now)
            && (!ran ==> keys1 == keys)
            && (ran && handler.Answers? && handler.stored ==>
                  && response == Body(handler.answer)
                  && keys1 == keys[name := KeyRow(row, fingerprint, Some(handler.answer), now)])
            && (ran && !(handler.Answers? && handler.stored) ==> !response.Body? && keys1 == keys - {name})
  {
  }

  /** A key that was claimed for one request refuses every other within its day, whatever differs of
    * what the client supplied, and runs nothing. */
  lemma OtherRequestsConflict(keys: map<Name, KeyRow>, name: Name, c: Call, d: Call, handler: Handler, now: nat,
                              row: Id)
    requires name in keys && keys[name].fingerprint == Asked(c) && now <= keys[name].createdAt + 86_400_000
    requires !SameRequest(c, d)
    ensures Intercepted(keys, name, Asked(d), handler, now, row) == (keys, Conflict, false)
  {
    AskedAlikeIff(c, d);
  }

  // ---------- what a client that retries can rely on ----------

  /** A request that has been answered is answered the same for a day: the handler does not run
    * again, nothing is stored, and a different request under the key is refused. */
  lemma RetryGetsTheSameAnswer(keys: map<Name, KeyRow>, name: Name, fingerprint: Fingerprint, handler: Handler,
                               now: nat, row: Id, retry: Fingerprint, handler': Handler, later: nat, row': Id)
    requires Intercepted(keys, name, fingerprint, handler, now, row).1.Body?
    requires name in keys ==> keys[name].createdAt <= now
    requires name in keys ==> now <= later <= keys[name].createdAt + 86_400_000
    requires name !in keys ==> now <= later <= now + 86_400_000
    ensures var (keys1, response, _) := Intercepted(keys, name, fingerprint, handler, now, row);
            Intercepted(keys1, name, retry, handler', later, row')
              == (keys1, if retry == fingerprint then response else Conflict, false)
  {
  }

  /** A failed handler leaves the key free: the same request, or any other, runs next time. */
  lemma FailureFreesTheKey(keys: map<Name, KeyRow>, name: Name, fingerprint: Fingerprint, message: string,
                           now: nat, row: Id, retry: Fingerprint, handler: Handler, later: nat, row': Id)
    requires Intercepted(keys, name, fingerprint, Throws(message), now, row).2
    ensures var keys1 := Intercepted(keys, name, fingerprint, Throws(message), now, row).0;
            name !in keys1 && Intercepted(keys1, name, retry, handler, later, row').2
  {
  }

  // ---------- the service is the protocol ----------

  /** Where the protocol is once the key has been claimed, or not. */
  predicate ClaimedAs(p: Phase, r: Reservation) {
    match r
    case New(id) => p == Running(id)
    case Replay(answer) => p == Over(Replayed(answer))
    case OtherRequest => p == Over(Mismatch)
    case StillRunning => p == Over(InProgress)
  }

  /** The protocol's reply that a response stands for; both conflicts look alike to the client. */
  predicate AnsweredAs(reply: Reply, response: Response, ran: bool) {
    match response
    case Body(answer) => reply == if ran then Own(answer) else Replayed(answer)
    case Conflict => reply.Mismatch? || reply.InProgress?
    case _ => reply.Failure?
  }

  /** Claiming a key alone is a run of the protocol's steps. */
  lemma ReserveIsARun(s: Sys, r: Id, name: Name, fingerprint: Fingerprint, row: Id) returns (steps: seq<Step>, s': Sys)
    requires r !in s.requests && row !in s.owner
    ensures Run(s, steps, s') && s'.now == s.now && s'.ran == s.ran
    ensures r in s'.requests && s'.requests[r].name == name && s'.requests[r].fingerprint == fingerprint
    ensures s'.keys == Reserved(s.keys, name, fingerprint, s.now, row).0
    ensures ClaimedAs(s'.requests[r].phase, Reserved(s.keys, name, fingerprint, s.now, row).1)
  {
    steps, s' := Then(s, [], s, Arrive(r, name, fingerprint));
    steps, s' := Then(s, steps, s', Insert(r, row));
    if name in s.keys {
      steps, s' := Then(s, steps, s', Look(r));
      if Expired(s.keys[name], s.now) {
        var looked, more := s', [];
        more, s' := ReplaceExpired(looked, r, row);
        RunJoins(s, steps, looked, more, s');
        steps := steps + more;
      }
    }
  }

  /** The expired row is deleted and the key taken. */
  lemma ReplaceExpired(s: Sys, r: Id, row: Id) returns (steps: seq<Step>, s': Sys)
    requires r in s.requests && s.requests[r].phase.Deleting? && row !in s.owner
    requires Holds(s, s.requests[r].name, s.requests[r].phase.expired)
    ensures Run(s, steps, s') && s'.now == s.now && s'.ran == s.ran
    ensures r in s'.requests && s'.requests[r] == s.requests[r].(phase := Running(row))
    ensures var q := s.requests[r]; s'.keys == s.keys[q.name := KeyRow(row, q.fingerprint, None, s.now)]
  {
    var q := s.requests[r];
    steps, s' := Then(s, [], s, Delete(r));
    steps, s' := Then(s, steps, s', Insert(r, row));
    assert s.keys - {q.name} + map[q.name := KeyRow(row, q.fingerprint, None, s.now)]
        == s.keys[q.name := KeyRow(row, q.fingerprint, None, s.now)];
  }

  /** Running the handler and storing or freeing the key is a run too. */
  lemma HandlingIsARun(s: Sys, r: Id, handler: Handler) returns (steps: seq<Step>, s': Sys)
    requires r in s.requests && s.requests[r].phase.Running?
    requires Holds(s, s.requests[r].name, s.requests[r].phase.row)
    ensures Run(s, steps, s') && r in s'.requests && s'.requests[r].phase.Over?
    ensures var q := s.requests[r];
            match handler
            case Answers(answer, true) =>
              && s'.keys == s.keys[q.name := s.keys[q.name].(answer := Some(answer))]
              && s'.requests[r].phase.reply == Own(answer) && q.phase.row in s'.ran
            case Answers(_, false) =>
              s'.keys == s.keys - {q.name} && s'.requests[r].phase.reply.Failure? && q.phase.row in s'.ran
            case Throws(_) =>
              s'.keys == s.keys - {q.name} && s'.requests[r].phase.reply.Failure? && s'.ran == s.ran
  {
    match handler
    case Answers(answer, stored) =>
      steps, s' := Then(s, [], s, Commit(r, answer));
      steps, s' := Then(s, steps, s', Record(r, stored));
      if !stored {
        steps, s' := Then(s, steps, s', Release(r));
      }
    case Throws(_) =>
      steps, s' := Then(s, [], s, Fail(r));
      steps, s' := Then(s, steps, s', Release(r));
  }

  /** A request handled by the interceptor alone is a run of the protocol: it leaves the same keys,
    * gives the same reply, and commits exactly when its handler ran and did not throw. */
  lemma InterceptIsARun(s: Sys, r: Id, name: Name, fingerprint: Fingerprint, handler: Handler, row: Id)
    returns (steps: seq<Step>, s': Sys)
    requires r !in s.requests && row !in s.owner && row !in s.ran
    ensures Run(s, steps, s')
    ensures r in s'.requests && s'.requests[r].phase.Over?
    ensures var (keys, response, ran) := Intercepted(s.keys, name, fingerprint, handler, s.now, row);
            && s'.keys == keys
            && AnsweredAs(s'.requests[r].phase.reply, response, ran)
            && (row in s'.ran <==> ran && handler.Answers?)
  {
    steps, s' := ReserveIsARun(s, r, name, fingerprint, row);
    if s'.requests[r].phase.Running? {
      var more, mid := [], s';
      more, s' := HandlingIsARun(mid, r, handler);
      RunJoins(s, steps, mid, more, s');
      steps := steps + more;
      assert s.keys[name := KeyRow(row, fingerprint, None, s.now)] - {name} == s.keys - {name};
    }
  }
}
