/** The services behind Delivery's steps, as they run: OutboxService, NotificationConsumer and
  * PushService. What the broker, Redis and the push provider answer is a parameter.
  */
module DeliveryServices {
  import opened Wrappers
  import opened Delivery

  // ---------- outbox.service.ts ----------

  datatype Row = Row(status: RowStatus, attempts: nat, createdAt: nat)

  const RELAY_BATCH: nat := 50

  /** The rows the relay may take: pending, and not locked by another relay. */
  function Free(rows: map<Id, Row>, locked: set<Id>): set<Id> {
    set id | id in rows && rows[id].status.Pending? && id !in locked
  }

  predicate Distinct(batch: seq<Id>) {
    forall i, j :: 0 <= i < j < |batch| ==> batch[i] != batch[j]
  }

  /** The batch runs from older to newer rows, and none of rest is older than any of it. */
  ghost predicate OldestFirst(rows: map<Id, Row>, batch: seq<Id>, rest: set<Id>) {
    && (forall i :: 0 <= i < |batch| ==> batch[i] in rows)
    && (forall i, j :: 0 <= i < j < |batch| ==> rows[batch[i]].createdAt <= rows[batch[j]].createdAt)
    && (forall i, id :: 0 <= i < |batch| && id in rest && id in rows ==> rows[batch[i]].createdAt <= rows[id].createdAt)
  }

  /** What the locking read returns: the oldest pending rows that are not locked, fifty at most, and
    * all of them if they are fewer. */
  ghost predicate IsBatch(rows: map<Id, Row>, locked: set<Id>, batch: seq<Id>) {
    && Distinct(batch) && |batch| <= 50
    && (forall id :: id in batch ==> id in rows && rows[id].status.Pending? && id !in locked)
    && (forall i, j :: 0 <= i < j < |batch| ==>
          batch[i] in rows && batch[j] in rows && rows[batch[i]].createdAt <= rows[batch[j]].createdAt)
    && forall id :: id in rows && rows[id].status.Pending? && id !in locked && id !in batch ==>
         |batch| == 50 && forall i :: 0 <= i < |batch| ==>
                            batch[i] in rows && rows[batch[i]].createdAt <= rows[id].createdAt
  }

  lemma {:induction false} SomeOldest(rows: map<Id, Row>, ids: set<Id>) returns (id: Id)
    requires ids != {} && ids <= rows.Keys
    ensures id in ids && forall other :: other in ids ==> rows[id].createdAt <= rows[other].createdAt
    decreases |ids|
  {
    id :| id in ids;
    if ids != {id} {
      var rest := SomeOldest(rows, ids - {id});
      assert forall other :: other in ids ==> other == id || other in ids - {id};
      if rows[rest].createdAt < rows[id].createdAt {
        id := rest;
      }
    }
  }

  lemma OldestIsNext(rows: map<Id, Row>, batch: seq<Id>, left: set<Id>, id: Id)
    requires OldestFirst(rows, batch, left) && id in left && id in rows
    requires forall other :: other in left && other in rows ==> rows[id].createdAt <= rows[other].createdAt
    ensures OldestFirst(rows, batch + [id], left - {id})
  {
  }

  /** Rows taken oldest first until there were fifty, or no more, are such a batch. */
  lemma FullBatch(rows: map<Id, Row>, locked: set<Id>, batch: seq<Id>, left: set<Id>)
    requires Distinct(batch) && OldestFirst(rows, batch, left) && |batch| <= RELAY_BATCH
    requires left == Free(rows, locked) - (set id | id in batch)
    requires forall id :: id in batch ==> id in Free(rows, locked)
    requires left == {} || |batch| == RELAY_BATCH
    ensures IsBatch(rows, locked, batch)
  {
    forall id | id in rows && rows[id].status.Pending? && id !in locked && id !in batch
      ensures id in left
    {
    }
  }

  /** The broker has answered for the row, or has not and the row is as pending as before. */
  ghost predicate PublishedRow(before: map<Id, Row>, after: map<Id, Row>, id: Id, answer: bool) {
    id in before ==>
      id in after
      && after[id] == if answer then before[id].(status := Published)
                      else before[id].(attempts := before[id].attempts + 1)
  }

  /** The rows of the batch have been published, and no other row has changed. */
  ghost predicate PublishedRows(before: map<Id, Row>, after: map<Id, Row>, batch: seq<Id>, answers: Id -> bool) {
    && after.Keys == before.Keys
    && forall id :: id in before ==>
         if id in batch then PublishedRow(before, after, id, answers(id)) else after[id] == before[id]
  }

  class OutboxService {
    var rows: map<Id, Row>
    var relaying: bool
    /** Every message handed to the broker so far, oldest first. */
    var published: seq<Id>

    constructor ()
      ensures rows == map[] && !relaying && published == []
    {
      rows, relaying, published := map[], false, [];
    }

    method EnqueueRow(id: Id, now: nat)
      modifies this
      ensures rows == old(rows)[id := Row(Pending, 0, now)] && relaying == old(relaying) && published == old(published)
    {
      rows := rows[id := Row(Pending, 0, now)];
    }

    /** Right after the commit. A row that is gone fails the update, which is only logged. */
    method PublishNow(id: Id, answer: bool) returns (ok: bool)
      modifies this
      ensures ok == answer && published == old(published) + [id] && relaying == old(relaying)
      ensures PublishedRows(old(rows), rows, [id], _ => answer)
      ensures id in rows && old(rows)[id].status.Pending? ==> (rows[id].status.Published? <==> answer)
      ensures id in rows && !answer ==> rows[id].attempts == old(rows)[id].attempts + 1
      ensures id in rows && old(rows)[id].status.Pending? && !answer ==> id in Free(rows, {})
    {
      published := published + [id];
      if id in rows {
        if answer {
          rows := rows[id := rows[id].(status := Published)];
        } else {
          rows := rows[id := rows[id].(attempts := rows[id].attempts + 1)];
        }
      }
      ok := answer;
    }

    /** The two-second relay: publishes the batch, then marks what the broker answered for and
      * counts an attempt for the rest; every other row is left alone. locked are the rows another
      * relay holds. If the transaction fails after publishing, the marks are undone and the same
      * rows are still pending, although the broker may hold them. */
    method RelayPending(connected: bool, locked: set<Id>, answers: Id -> bool, commits: bool)
      returns (done: nat, batch: seq<Id>)
      modifies this
      ensures relaying == old(relaying)
      ensures old(relaying) || !connected ==>
                done == 0 && batch == [] && rows == old(rows) && published == old(published)
      ensures !old(relaying) && connected ==> IsBatch(old(rows), locked, batch) && published == old(published) + batch
      ensures !commits ==> done == 0 && rows == old(rows)
      ensures !old(relaying) && connected && commits ==>
                PublishedRows(old(rows), rows, batch, answers) && done == |Accepted(batch, answers)|
      ensures forall id :: id in rows && old(rows)[id].status.Pending? ==>
                           (rows[id].status.Published? <==> id in batch && answers(id) && commits)
      ensures forall id :: id in batch && !answers(id) && commits ==>
                           id in Free(rows, {}) && rows[id].attempts == old(rows)[id].attempts + 1
    {
      if relaying || !connected {
        return 0, [];
      }
      relaying := true;
      batch := ReadPending(locked);
      var before := rows;
      var succeeded, failed := PublishBatch(batch, answers);
      rows := map id | id in rows ::
        if id in succeeded then rows[id].(status := Published)
        else if id in failed then rows[id].(attempts := rows[id].attempts + 1)
        else rows[id];
      if commits {
        done := |succeeded|;
      } else {
        rows, done := before, 0;
      }
      relaying := false;
    }

    /** SELECT ... ORDER BY "createdAt" LIMIT 50 FOR UPDATE SKIP LOCKED. */
    method ReadPending(locked: set<Id>) returns (batch: seq<Id>)
      ensures IsBatch(rows, locked, batch)
    {
      batch := [];
      var left := Free(rows, locked);
      ghost var all := left;
      while left != {} && |batch| < RELAY_BATCH
        invariant Distinct(batch) && left == all - (set id | id in batch) && all == Free(rows, locked)
        invariant forall id :: id in batch ==> id in all
        invariant OldestFirst(rows, batch, left)
        invariant |batch| + |left| == |all| && |batch| <= RELAY_BATCH
        decreases |left|
      {
        ghost var oldest := SomeOldest(rows, left);
        var id :| id in left && forall other :: other in left ==> rows[id].createdAt <= rows[other].createdAt;
        OldestIsNext(rows, batch, left, id);
        assert id !in batch;
        batch := batch + [id];
        left := left - {id};
      }
      FullBatch(rows, locked, batch, left);
    }

    /** Hands the batch to the broker and sorts its ids by the answer. */
    method PublishBatch(batch: seq<Id>, answers: Id -> bool) returns (succeeded: seq<Id>, failed: seq<Id>)
      modifies this`published
      ensures published == old(published) + batch
      ensures succeeded == Accepted(batch, answers)
      ensures forall id :: id in succeeded <==> id in batch && answers(id)
      ensures forall id :: id in failed <==> id in batch && !answers(id)
    {
      succeeded, failed := [], [];
      for k := 0 to |batch|
        invariant published == old(published) + batch[..k]
        invariant succeeded == Accepted(batch[..k], answers)
        invariant forall id :: id in succeeded <==> id in batch[..k] && answers(id)
        invariant forall id :: id in failed <==> id in batch[..k] && !answers(id)
      {
        assert batch[..k + 1][..k] == batch[..k];
        published := published + [batch[k]];
        if answers(batch[k]) {
          succeeded := succeeded + [batch[k]];
        } else {
          failed := failed + [batch[k]];
        }
      }
      assert batch[..|batch|] == batch;
    }

    /** Published rows are dropped after a week; expired tells which are that old. */
    method PurgePublished(expired: set<Id>) returns (count: nat)
      modifies this
      ensures rows.Keys
           == old(rows.Keys) - (set id | id in old(rows) && id in expired && old(rows)[id].status.Published?)
      ensures forall id :: id in rows ==> rows[id] == old(rows)[id]
      ensures forall id :: id in old(rows) && old(rows)[id].status.Pending? ==> id in rows
      ensures count == |old(rows)| - |rows| && relaying == old(relaying) && published == old(published)
    {
      var gone := set id | id in rows && id in expired && rows[id].status.Published?;
      assert |rows.Keys - gone| == |rows.Keys| - |gone|;
      rows := rows - gone;
      count := |gone|;
    }
  }

  /** The ids the broker answered for, in the order they were handed over. */
  function Accepted(batch: seq<Id>, answers: Id -> bool): seq<Id> {
    if batch == [] then [] else
    var last := |batch| - 1;
    Accepted(batch[..last], answers) + if answers(batch[last]) then [batch[last]] else []
  }

  // ---------- the outbox service is the machine ----------

  function Statuses(rows: map<Id, Row>): map<Id, RowStatus> {
    map id | id in rows :: rows[id].status
  }

  /** Every id is handed over once, as a copy of its own that the broker may hold. */
  function Publishes(batch: seq<Id>, copies: seq<CopyId>, answers: Id -> bool, held: Id -> bool): seq<Step>
    requires |copies| == |batch|
  {
    if batch == [] then [] else
    [Publish(batch[0], copies[0], answers(batch[0]), held(batch[0]))]
    + Publishes(batch[1..], copies[1..], answers, held)
  }

  function Marks(ids: seq<Id>): seq<Step> {
    if ids == [] then [] else [MarkRow(ids[0])] + Marks(ids[1..])
  }

  function Elements(ids: seq<Id>): set<Id> {
    set id | id in ids
  }

  /** The copy ids are new and differ. */
  ghost predicate NewCopies(s: Sys, copies: seq<CopyId>) {
    && (forall i :: 0 <= i < |copies| ==> copies[i] !in s.copies)
    && forall i, j :: 0 <= i < j < |copies| ==> copies[i] != copies[j]
  }

  lemma {:induction false} PublishingIsARun(s: Sys, batch: seq<Id>, copies: seq<CopyId>, answers: Id -> bool,
                                            held: Id -> bool)
    returns (s': Sys)
    requires |copies| == |batch| && NewCopies(s, copies) && forall id :: id in batch ==> id in s.committed
    ensures Run(s, Publishes(batch, copies, answers, held), s') && s'.outbox == s.outbox
    ensures s'.answered == s.answered + set id | id in batch && answers(id)
    decreases |batch|
  {
    s' := s;
    if batch != [] {
      var mid := Next(s, Publish(batch[0], copies[0], answers(batch[0]), held(batch[0])));
      forall i | 0 <= i < |copies| - 1
        ensures copies[1..][i] !in mid.copies
      {
        assert copies[1..][i] == copies[i + 1];
      }
      s' := PublishingIsARun(mid, batch[1..], copies[1..], answers, held);
      assert batch == [batch[0]] + batch[1..];
      assert Publishes(batch, copies, answers, held)[1..] == Publishes(batch[1..], copies[1..], answers, held);
    }
  }

  lemma {:induction false} MarkingIsARun(s: Sys, ids: seq<Id>) returns (s': Sys)
    requires Distinct(ids) && forall id :: id in ids ==> id in s.answered
    ensures Run(s, Marks(ids), s') && s'.answered == s.answered - Elements(ids)
    ensures s'.outbox == map id | id in s.outbox :: if id in ids then Published else s.outbox[id]
    decreases |ids|
  {
    s' := s;
    if ids != [] {
      var mid := Next(s, MarkRow(ids[0]));
      forall i, j | 0 <= i < j < |ids| - 1
        ensures ids[1..][i] != ids[1..][j]
      {
        assert ids[1..][i] == ids[i + 1] && ids[1..][j] == ids[j + 1];
      }
      s' := MarkingIsARun(mid, ids[1..]);
      assert ids == [ids[0]] + ids[1..];
      assert Marks(ids)[1..] == Marks(ids[1..]);
    }
  }

  lemma {:induction false} AcceptedAre(batch: seq<Id>, answers: Id -> bool)
    requires Distinct(batch)
    ensures Distinct(Accepted(batch, answers))
    ensures forall id :: id in Accepted(batch, answers) <==> id in batch && answers(id)
    decreases |batch|
  {
    if batch != [] {
      var last := |batch| - 1;
      AcceptedAre(batch[..last], answers);
      assert batch == batch[..last] + [batch[last]];
    }
  }

  /** How publishing a batch ends: the answered rows are marked, or the transaction has failed. */
  function Closing(accepted: seq<Id>, commits: bool): seq<Step> {
    if commits then Marks(accepted) else [Forget(Elements(accepted))]
  }

  lemma ClosingIsARun(s: Sys, accepted: seq<Id>, commits: bool) returns (s': Sys)
    requires Distinct(accepted) && forall id :: id in accepted ==> id in s.answered
    ensures Run(s, Closing(accepted, commits), s') && s'.answered == s.answered - Elements(accepted)
    ensures s'.outbox == map id | id in s.outbox :: if commits && id in accepted then Published else s.outbox[id]
  {
    if commits {
      s' := MarkingIsARun(s, accepted);
    } else {
      s' := Next(s, Forget(Elements(accepted)));
      assert Closing(accepted, commits)[1..] == [];
    }
  }

  /** A relay alone, or with a batch of one a publish right after the commit, is a run of the machine's
    * producer: it publishes the batch and marks what was answered for, or forgets it if its
    * transaction fails, and the outbox comes to the same statuses. */
  lemma RelayIsARun(s: Sys, before: map<Id, Row>, after: map<Id, Row>, batch: seq<Id>, copies: seq<CopyId>,
                    answers: Id -> bool, held: Id -> bool, commits: bool)
    returns (s': Sys)
    requires Distinct(batch) && (forall id :: id in batch ==> id in s.committed)
    requires |copies| == |batch| && NewCopies(s, copies) && Statuses(before) == s.outbox
    requires if commits then PublishedRows(before, after, batch, answers) else after == before
    ensures Run(s, Publishes(batch, copies, answers, held) + Closing(Accepted(batch, answers), commits), s')
    ensures Statuses(after) == s'.outbox
  {
    AcceptedAre(batch, answers);
    var mid := PublishingIsARun(s, batch, copies, answers, held);
    s' := ClosingIsARun(mid, Accepted(batch, answers), commits);
    RunJoins(s, Publishes(batch, copies, answers, held), mid, Closing(Accepted(batch, answers), commits), s');
  }

  // ---------- notification.consumer.ts ----------

  /** What the handler tells the broker. */
  datatype Effect = Acked | Nacked(requeue: bool) | Republished(event: Id, count: nat)

  /** A delivered message: event is None when its body does not parse. */
  datatype Message = Message(event: Option<Id>, retryCount: Option<nat>)

  /** The machine steps of one handler run on copy c, whose event has been retried attempt times:
    * found is what Redis answers, sent whether the push succeeded, stored whether the mark was
    * written, answer whether the retry was published. */
  function HandlerSteps(c: CopyId, parked: CopyId, attempt: nat, found: bool, sent: bool, stored: bool, answer: bool)
    : seq<Step>
  {
    if found then [Check(c, true), Ack(c)]
    else if sent then [Check(c, false), Send(c, true), WriteMark(c, stored), Ack(c)]
    else if attempt >= MAX_RETRIES then [Check(c, false), Send(c, false), Bury(c)]
    else if answer then [Check(c, false), Send(c, false), Park(c, parked, true, true), Ack(c)]
    else [Check(c, false), Send(c, false), Park(c, parked, false, false)]
  }

  /** What the broker is told in a step. */
  function EffectOf(s: Step, event: Id, attempt: nat): seq<Effect> {
    match s
    case Ack(_) => [Acked]
    case Bury(_) => [Nacked(false)]
    case Park(_, _, answer, _) => [Republished(event, attempt + 1)] + if answer then [] else [Nacked(true)]
    case _ => []
  }

  function EffectAt(steps: seq<Step>, i: nat, event: Id, attempt: nat): seq<Effect> {
    if i < |steps| then EffectOf(steps[i], event, attempt) else []
  }

  /** What the broker is told in a handler run, which has at most four steps. */
  function EffectsOf(steps: seq<Step>, event: Id, attempt: nat): seq<Effect>
    requires |steps| <= 4
  {
    EffectAt(steps, 0, event, attempt) + EffectAt(steps, 1, event, attempt)
    + EffectAt(steps, 2, event, attempt) + EffectAt(steps, 3, event, attempt)
  }

  /** The effects of a handler run, spelled out: the message is settled exactly once, last. */
  lemma HandlerEffects(c: CopyId, parked: CopyId, event: Id, attempt: nat, found: bool, sent: bool, stored: bool,
                       answer: bool)
    ensures EffectsOf(HandlerSteps(c, parked, attempt, found, sent, stored, answer), event, attempt)
         == if found || sent then [Acked]
            else if attempt >= 3 then [Nacked(false)]
            else [Republished(event, attempt + 1), if answer then Acked else Nacked(true)]
  {
  }

  class NotificationConsumer {
    var inFlight: int
    var marks: set<Id>
    var wire: seq<Effect>
    var pushed: seq<Id>

    constructor ()
      ensures inFlight == 0 && marks == {} && wire == [] && pushed == []
    {
      inFlight, marks, wire, pushed := 0, {}, [], [];
    }

    /** One delivery. A body that does not parse is given to the dead queue; otherwise the broker is
      * told exactly what the machine's handler steps tell it, the mark is written after a
      * successful push and only then, and the message is settled exactly once. */
    method Handle(msg: Message, readUp: bool, pushOk: bool, writeUp: bool, answer: bool,
                  ghost c: CopyId, ghost parked: CopyId)
      modifies this
      ensures inFlight == old(inFlight)
      ensures msg.event.None? ==> wire == old(wire) + [Nacked(false)] && marks == old(marks) && pushed == old(pushed)
      ensures msg.event.Some? ==>
                var event, attempt := msg.event.value, msg.retryCount.GetOr(0);
                var found := readUp && event in old(marks);
                && wire == old(wire)
                   + EffectsOf(HandlerSteps(c, parked, attempt, found, pushOk, writeUp, answer), event, attempt)
                && marks == (if !found && pushOk && writeUp then old(marks) + {event} else old(marks))
                && pushed == (if !found then old(pushed) + [event] else old(pushed))
    {
      inFlight := inFlight + 1;
      if msg.event.None? {
        wire := wire + [Nacked(false)];
        inFlight := inFlight - 1;
        return;
      }
      HandleEvent(msg.event.value, msg.retryCount.GetOr(0), readUp, pushOk, writeUp, answer);
      HandlerEffects(c, parked, msg.event.value, msg.retryCount.GetOr(0), readUp && msg.event.value in old(marks),
                     pushOk, writeUp, answer);
      inFlight := inFlight - 1;
    }

    /** The part of the handler after the body has been parsed. */
    method HandleEvent(event: Id, attempt: nat, readUp: bool, pushOk: bool, writeUp: bool, answer: bool)
      modifies this
      ensures inFlight == old(inFlight)
      ensures var found := readUp && event in old(marks);
              && wire == old(wire)
                 + (if found || pushOk then [Acked]
                    else if attempt >= MAX_RETRIES then [Nacked(false)]
                    else [Republished(event, attempt + 1), if answer then Acked else Nacked(true)])
              && marks == (if !found && pushOk && writeUp then old(marks) + {event} else old(marks))
              && pushed == (if !found then old(pushed) + [event] else old(pushed))
    {
      if readUp && event in marks {
        wire := wire + [Acked];
        return;
      }
      pushed := pushed + [event];
      if !pushOk {
        RetryOrDead(event, attempt, answer);
        return;
      }
      if writeUp {
        marks := marks + {event};
      }
      wire := wire + [Acked];
    }

    method RetryOrDead(event: Id, attempt: nat, answer: bool)
      modifies this
      ensures inFlight == old(inFlight) && marks == old(marks) && pushed == old(pushed)
      ensures wire == old(wire) + if attempt >= 3 then [Nacked(false)]
                                  else [Republished(event, attempt + 1), if answer then Acked else Nacked(true)]
    {
      if attempt >= MAX_RETRIES {
        wire := wire + [Nacked(false)];
        return;
      }
      var next := attempt + 1;
      wire := wire + [Republished(event, next)];
      if !answer {
        wire := wire + [Nacked(true)];
        return;
      }
      wire := wire + [Acked];
    }
  }

  lemma RunTwo(s: Sys, a: Step, b: Step)
    requires Enabled(s, a) && Enabled(Next(s, a), b)
    ensures Run(s, [a, b], Next(Next(s, a), b))
  {
    assert [a, b][1..] == [b];
  }

  lemma MarkedIsARun(s: Sys, c: CopyId, stored: bool) returns (s': Sys)
    requires At(s, c, Sent)
    ensures Run(s, [WriteMark(c, stored), Ack(c)], s') && At(s', c, Gone)
  {
    s' := Next(Next(s, WriteMark(c, stored)), Ack(c));
    RunTwo(s, WriteMark(c, stored), Ack(c));
  }

  lemma SentIsARun(s: Sys, c: CopyId, stored: bool) returns (s': Sys)
    requires At(s, c, Checking)
    ensures Run(s, [Check(c, false), Send(c, true), WriteMark(c, stored), Ack(c)], s') && At(s', c, Gone)
  {
    var mid := Next(Next(s, Check(c, false)), Send(c, true));
    RunTwo(s, Check(c, false), Send(c, true));
    s' := MarkedIsARun(mid, c, stored);
    RunJoins(s, [Check(c, false), Send(c, true)], mid, [WriteMark(c, stored), Ack(c)], s');
    assert [Check(c, false), Send(c, true)] + [WriteMark(c, stored), Ack(c)]
        == [Check(c, false), Send(c, true), WriteMark(c, stored), Ack(c)];
  }

  lemma FailedIsARun(s: Sys, c: CopyId, parked: CopyId, answer: bool) returns (s': Sys)
    requires At(s, c, Checking) && parked !in s.copies
    ensures Run(s, HandlerSteps(c, parked, s.copies[c].count, false, false, false, answer), s')
    ensures At(s', c, if s.copies[c].count >= MAX_RETRIES then Dead else if answer then Gone else Main)
  {
    var steps := HandlerSteps(c, parked, s.copies[c].count, false, false, false, answer);
    var mid := Next(Next(s, Check(c, false)), Send(c, false));
    RunTwo(s, Check(c, false), Send(c, false));
    s' := RetryIsARun(mid, c, parked, answer);
    RunJoins(s, [Check(c, false), Send(c, false)], mid, steps[2..], s');
    assert [Check(c, false), Send(c, false)] + steps[2..] == steps;
  }

  lemma RetryIsARun(s: Sys, c: CopyId, parked: CopyId, answer: bool) returns (s': Sys)
    requires At(s, c, Failed) && parked !in s.copies
    ensures Run(s, HandlerSteps(c, parked, s.copies[c].count, false, false, false, answer)[2..], s')
    ensures At(s', c, if s.copies[c].count >= MAX_RETRIES then Dead else if answer then Gone else Main)
  {
    if s.copies[c].count >= MAX_RETRIES {
      s' := Next(s, Bury(c));
    } else if answer {
      s' := Next(Next(s, Park(c, parked, true, true)), Ack(c));
      RunTwo(s, Park(c, parked, true, true), Ack(c));
    } else {
      s' := Next(s, Park(c, parked, false, false));
    }
  }

  /** A handler that is not interrupted is a run of the machine, and leaves its copy acknowledged,
    * in the dead queue, or back on the main queue because its retry could not be published. */
  lemma HandlerIsARun(s: Sys, c: CopyId, parked: CopyId, found: bool, sent: bool, stored: bool, answer: bool)
    returns (s': Sys)
    requires At(s, c, Checking) && parked !in s.copies && (found ==> s.copies[c].event in s.marks)
    ensures Run(s, HandlerSteps(c, parked, s.copies[c].count, found, sent, stored, answer), s')
    ensures At(s', c, if found || sent then Gone
                      else if s.copies[c].count >= MAX_RETRIES then Dead
                      else if answer then Gone else Main)
  {
    if found {
      s' := Next(Next(s, Check(c, true)), Ack(c));
      RunTwo(s, Check(c, true), Ack(c));
    } else if sent {
      s' := SentIsARun(s, c, stored);
    } else {
      s' := FailedIsARun(s, c, parked, answer);
    }
  }

  // ---------- push.service.ts ----------

  datatype PushResult = Delivered | Unsubscribed | Transient

  class PushService {
    var subscriptions: map<string, Id>

    constructor ()
      ensures subscriptions == map[]
    {
      subscriptions := map[];
    }

    /** Tries every subscription of the user and drops the ones the browser gave up. Fails if any
      * other attempt failed, or if a row could not be dropped; it is then still there. results is
      * what the provider answers per endpoint, undeletable the rows whose delete fails. */
    method SendToUser(user: Id, results: map<string, PushResult>, undeletable: set<string>)
      returns (ok: bool, tried: set<string>)
      requires subscriptions.Keys <= results.Keys
      modifies this
      ensures tried == set e | e in old(subscriptions) && old(subscriptions)[e] == user
      ensures subscriptions.Keys
           == old(subscriptions).Keys - (set e | e in tried && results[e].Unsubscribed? && e !in undeletable)
      ensures forall e :: e in subscriptions ==> subscriptions[e] == old(subscriptions)[e]
      ensures ok <==> forall e :: e in tried ==>
                        results[e].Delivered? || (results[e].Unsubscribed? && e !in undeletable)
    {
      var mine := set e | e in subscriptions && subscriptions[e] == user;
      var left := mine;
      var transient: seq<string>, thrown := [], false;
      tried := {};
      while left != {}
        invariant tried !! left && tried + left == mine
        invariant subscriptions.Keys
               == old(subscriptions).Keys - (set e | e in tried && results[e].Unsubscribed? && e !in undeletable)
        invariant forall e :: e in subscriptions ==> subscriptions[e] == old(subscriptions)[e]
        invariant transient == [] <==> forall e :: e in tried ==> !results[e].Transient?
        invariant thrown <==> exists e :: e in tried && results[e].Unsubscribed? && e in undeletable
        decreases |left|
      {
        var e :| e in left;
        left, tried := left - {e}, tried + {e};
        match results[e]
        case Delivered =>
        case Unsubscribed =>
          if e in undeletable {
            thrown := true;
          } else {
            subscriptions := subscriptions - {e};
          }
        case Transient => transient := transient + [e];
      }
      ok := transient == [] && !thrown;
    }
  }
}
