/** How a committed event reaches the user's devices: outbox, broker, consumer.
  *
  * backend/src/outbox/outbox.service.ts publishes the event after the commit and again every two
  * seconds while its row is pending; backend/src/queue/queue.service.ts says where a message goes;
  * backend/src/worker/notification.consumer.ts sends it, marks it done and acknowledges it, or
  * parks a copy in a retry queue, or gives it to the dead queue. Processes may stop and connections
  * may break between any two steps.
  */
module Delivery {
  import opened Wrappers

  type Id = nat
  type CopyId = nat

  /** RETRY_DELAYS_MS has three entries, one queue each. */
  const MAX_RETRIES: nat := 3

  datatype RowStatus = Pending | Published

  /** Where a copy of a message is. Between Checking and Parked it is delivered and unacknowledged,
    * and its handler has got that far. */
  datatype Place =
    | Main | Retry(queue: nat) | Dead | Gone
    | Checking      // about to look for the done mark
    | Duplicate     // mark found, about to acknowledge
    | Sending       // no mark, about to send
    | Sent          // sent, about to write the mark
    | Marked        // about to acknowledge
    | Failed        // the send failed, about to retry or give up
    | Parked        // the retry copy is published, about to acknowledge

  /** One copy of the message for an event; count is its x-retry-count header. */
  datatype Copy = Copy(event: Id, count: nat, place: Place)

  /** A handler whose delivery was taken from it: its connection broke, or another handler settled
    * its message. A consumer that lives on lets it finish; it then acknowledges its old delivery
    * tag on whatever channel is open, where the tag may belong to another message. */
  datatype Stray = Stray(event: Id, count: nat, place: Place)

  type StrayId = nat

  datatype Sys = Sys(
    committed: set<Id>,             // events whose business transaction committed
    outbox: map<Id, RowStatus>,     // the outbox rows not yet purged
    answered: set<Id>,              // published and answered for, row not yet marked
    copies: map<CopyId, Copy>,
    strays: map<StrayId, Stray>,
    marks: set<Id>,                 // done marks in Redis
    sends: multiset<Id>,            // successful sendToUser calls
    attempts: multiset<Id>)         // all sendToUser calls

  const EMPTY := Sys({}, map[], {}, map[], map[], {}, multiset{}, multiset{})

  datatype Step =
    // producer
    | Commit(id: Id)
    | Publish(id: Id, copy: CopyId, answer: bool, held: bool)
    | MarkRow(id: Id)
    | Forget(ids: set<Id>)
    | Purge(id: Id)
    // broker
    | Deliver(c: CopyId)
    | Expire(c: CopyId)
    | Redeliver(c: CopyId, stray: Option<StrayId>)
    // consumer
    | Check(c: CopyId, found: bool)
    | Send(c: CopyId, ok: bool)
    | WriteMark(c: CopyId, stored: bool)
    | Ack(c: CopyId)
    | Park(c: CopyId, copy: CopyId, answer: bool, held: bool)
    | Bury(c: CopyId)
    | Stop
    // a handler without its delivery; hit is the delivery its old tag now means, if any
    | StrayFind(h: StrayId)
    | StraySend(h: StrayId, ok: bool)
    | StrayMark(h: StrayId, stored: bool)
    | StrayPark(h: StrayId, copy: CopyId, held: bool)
    | StrayAck(h: StrayId, hit: Option<CopyId>)
    | StrayRequeue(h: StrayId, copy: CopyId, held: bool, hit: Option<CopyId>)
    | StrayBury(h: StrayId, hit: Option<CopyId>)
    // Redis
    | ForgetMark(id: Id)

  predicate At(s: Sys, c: CopyId, p: Place) {
    c in s.copies && s.copies[c].place == p
  }

  predicate InHandler(p: Place) {
    p.Checking? || p.Duplicate? || p.Sending? || p.Sent? || p.Marked? || p.Failed? || p.Parked?
  }

  predicate Working(s: Sys, c: CopyId) {
    c in s.copies && InHandler(s.copies[c].place)
  }

  function Put(s: Sys, c: CopyId, p: Place): Sys
    requires c in s.copies
  {
    s.(copies := s.copies[c := s.copies[c].(place := p)])
  }

  /** The copies, with one more if the broker holds it. */
  function Added(copies: map<CopyId, Copy>, held: bool, copy: CopyId, m: Copy): map<CopyId, Copy> {
    if held then copies[copy := m] else copies
  }

  /** A stray's tag means a delivery of the channel now open, or none. */
  predicate Hittable(s: Sys, hit: Option<CopyId>) {
    hit.Some? ==> Working(s, hit.value)
  }

  predicate StrayAt(s: Sys, h: StrayId, p: Place) {
    h in s.strays && s.strays[h].place == p
  }

  predicate Enabled(s: Sys, st: Step) {
    match st
    case Commit(id) => id !in s.committed
    case Publish(id, copy, _, _) => id in s.committed && copy !in s.copies
    case MarkRow(id) => id in s.answered
    case Forget(_) => true
    case Purge(id) => id in s.outbox && s.outbox[id].Published?
    case Deliver(c) => At(s, c, Main)
    case Expire(c) => c in s.copies && s.copies[c].place.Retry?
    case Redeliver(c, stray) => Working(s, c) && (stray.Some? ==> stray.value !in s.strays)
    case Check(c, found) => At(s, c, Checking) && (found ==> s.copies[c].event in s.marks)
    case Send(c, _) => At(s, c, Sending)
    case WriteMark(c, _) => At(s, c, Sent)
    case Ack(c) => At(s, c, Duplicate) || At(s, c, Marked) || At(s, c, Parked)
    case Park(c, copy, _, _) => At(s, c, Failed) && s.copies[c].count < MAX_RETRIES && copy !in s.copies
    case Bury(c) => At(s, c, Failed) && s.copies[c].count >= MAX_RETRIES
    case Stop => true
    case StrayFind(h) => StrayAt(s, h, Checking) && s.strays[h].event in s.marks
    case StraySend(h, _) => StrayAt(s, h, Checking) || StrayAt(s, h, Sending)
    case StrayMark(h, _) => StrayAt(s, h, Sent)
    case StrayPark(h, copy, _) => StrayAt(s, h, Failed) && s.strays[h].count < MAX_RETRIES && copy !in s.copies
    case StrayAck(h, hit) =>
      (StrayAt(s, h, Duplicate) || StrayAt(s, h, Marked) || StrayAt(s, h, Parked)) && Hittable(s, hit)
    case StrayRequeue(h, copy, _, hit) =>
      StrayAt(s, h, Failed) && s.strays[h].count < MAX_RETRIES && copy !in s.copies && Hittable(s, hit)
    case StrayBury(h, hit) => StrayAt(s, h, Failed) && s.strays[h].count >= MAX_RETRIES && Hittable(s, hit)
    case ForgetMark(_) => true
  }

  /** The stray has settled the delivery hit, which goes to p, and is done; the handler that had that
    * delivery has lost it and takes the stray's place. */
  function Settle(s: Sys, h: StrayId, hit: Option<CopyId>, p: Place): Sys
    requires Hittable(s, hit)
  {
    match hit
    case None => s.(strays := s.strays - {h})
    case Some(c) =>
      var m := s.copies[c];
      Put(s, c, p).(strays := s.strays[h := Stray(m.event, m.count, m.place)])
  }

  function MoveStray(s: Sys, h: StrayId, p: Place): Sys
    requires h in s.strays
  {
    s.(strays := s.strays[h := s.strays[h].(place := p)])
  }

  /** The copy with its handler gone, if it had one. */
  function Returned(m: Copy): Copy {
    if InHandler(m.place) then m.(place := Main) else m
  }

  function Next(s: Sys, st: Step): Sys
    requires Enabled(s, st)
  {
    match st
    case Commit(id) => s.(committed := s.committed + {id}, outbox := s.outbox[id := Pending])
    case Publish(id, copy, answer, held) =>
      s.(copies := Added(s.copies, held, copy, Copy(id, 0, Main)),
         answered := if answer then s.answered + {id} else s.answered)
    case MarkRow(id) =>
      s.(outbox := if id in s.outbox then s.outbox[id := Published] else s.outbox, answered := s.answered - {id})
    case Forget(ids) => s.(answered := s.answered - ids)
    case Purge(id) => s.(outbox := s.outbox - {id})
    case Deliver(c) => Put(s, c, Checking)
    case Expire(c) => Put(s, c, Main)
    case Redeliver(c, stray) =>
      var m := s.copies[c];
      Put(s, c, Main).(
        strays := if stray.Some? then s.strays[stray.value := Stray(m.event, m.count, m.place)] else s.strays)
    case Check(c, found) => Put(s, c, if found then Duplicate else Sending)
    case Send(c, ok) =>
      var e := s.copies[c].event;
      Put(s, c, if ok then Sent else Failed).(
        sends := if ok then s.sends + multiset{e} else s.sends, attempts := s.attempts + multiset{e})
    case WriteMark(c, stored) =>
      Put(s, c, Marked).(marks := if stored then s.marks + {s.copies[c].event} else s.marks)
    case Ack(c) => Put(s, c, Gone)
    case Park(c, copy, answer, held) =>
      var m := s.copies[c];
      var parked := Put(s, c, if answer then Parked else Main);
      parked.(copies := Added(parked.copies, held, copy, Copy(m.event, m.count + 1, Retry(m.count + 1))))
    case Bury(c) => Put(s, c, Dead)
    case Stop => s.(strays := map[], copies := map c | c in s.copies :: Returned(s.copies[c]))
    case StrayFind(h) => MoveStray(s, h, Duplicate)
    case StraySend(h, ok) =>
      var e := s.strays[h].event;
      MoveStray(s, h, if ok then Sent else Failed).(
        sends := if ok then s.sends + multiset{e} else s.sends, attempts := s.attempts + multiset{e})
    case StrayMark(h, stored) =>
      MoveStray(s, h, Marked).(marks := if stored then s.marks + {s.strays[h].event} else s.marks)
    case StrayPark(h, copy, held) =>
      var m := s.strays[h];
      MoveStray(s, h, Parked).(
        copies := Added(s.copies, held, copy, Copy(m.event, m.count + 1, Retry(m.count + 1))))
    case StrayAck(h, hit) => Settle(s, h, hit, Gone)
    case StrayRequeue(h, copy, held, hit) =>
      var m := s.strays[h];
      var settled := Settle(s, h, hit, Main);
      settled.(copies := Added(settled.copies, held, copy, Copy(m.event, m.count + 1, Retry(m.count + 1))))
    case StrayBury(h, hit) => Settle(s, h, hit, Dead)
    case ForgetMark(id) => s.(marks := s.marks - {id})
  }

  ghost predicate Run(s: Sys, steps: seq<Step>, s': Sys)
    decreases |steps|
  {
    if steps == [] then s' == s
    else Enabled(s, steps[0]) && Run(Next(s, steps[0]), steps[1..], s')
  }

  lemma {:induction false} RunJoins(a: Sys, before: seq<Step>, b: Sys, after: seq<Step>, c: Sys)
    requires Run(a, before, b) && Run(b, after, c)
    ensures Run(a, before + after, c)
    decreases |before|
  {
    if before == [] {
      assert before + after == after;
    } else {
      RunJoins(Next(a, before[0]), before[1..], b, after, c);
      assert (before + after)[1..] == before[1..] + after;
    }
  }

  // ---------- what every run keeps ----------

  predicate Alive(m: Copy) {
    !m.place.Gone?
  }

  predicate CopyOk(m: Copy) {
    && m.count <= MAX_RETRIES
    && (m.place.Retry? ==> m.place.queue == m.count && m.count >= 1)
    && (m.place.Parked? ==> m.count < MAX_RETRIES)
  }

  /** Where a handler is once its event was sent, by it or before. */
  predicate KnowsSent(p: Place) {
    p.Sent? || p.Marked? || p.Duplicate?
  }

  predicate CopyOrderly(s: Sys, m: Copy) {
    CopyOk(m) && m.event in s.committed && (KnowsSent(m.place) ==> m.event in s.sends)
  }

  predicate StrayOrderly(s: Sys, m: Stray) {
    && m.count <= MAX_RETRIES && m.event in s.committed && InHandler(m.place)
    && (KnowsSent(m.place) ==> m.event in s.sends)
  }

  ghost predicate Orderly(s: Sys) {
    && (forall c :: c in s.copies ==> CopyOrderly(s, s.copies[c]))
    && (forall h :: h in s.strays ==> StrayOrderly(s, s.strays[h]))
    && (forall id :: id in s.marks ==> id in s.sends)
  }

  /** Commits and sends are not taken back. */
  lemma StepGrows(s: Sys, st: Step)
    requires Enabled(s, st)
    ensures s.committed <= Next(s, st).committed
    ensures forall id :: id in s.sends ==> id in Next(s, st).sends
  {
  }

  /** The steps of handlers that have lost their delivery. */
  predicate ByStray(st: Step) {
    || st.StrayFind? || st.StraySend? || st.StrayMark? || st.StrayPark?
    || st.StrayAck? || st.StrayRequeue? || st.StrayBury?
  }

  lemma CopyStaysOrderly(s: Sys, st: Step, c: CopyId)
    requires Orderly(s) && Enabled(s, st) && c in Next(s, st).copies && !ByStray(st)
    ensures CopyOrderly(Next(s, st), Next(s, st).copies[c])
  {
    StepGrows(s, st);
    assert c in s.copies ==> CopyOrderly(s, s.copies[c]);
    if st.Park? {
      assert CopyOrderly(s, s.copies[st.c]);
    }
  }

  /** The delivery a stray's settling step falls on. */
  function HitOf(st: Step): Option<CopyId> {
    match st
    case StrayAck(_, hit) => hit
    case StrayRequeue(_, _, _, hit) => hit
    case StrayBury(_, hit) => hit
    case _ => None
  }

  /** What a stray can do to a copy: settle the delivery its tag falls on, or add a retry. */
  lemma StrayOnCopies(s: Sys, st: Step, c: CopyId)
    requires Enabled(s, st) && ByStray(st) && c in Next(s, st).copies
    ensures var m := Next(s, st).copies[c];
            if c !in s.copies then
              var h := s.strays[st.h];
              h.place.Failed? && h.count < MAX_RETRIES && m == Copy(h.event, h.count + 1, Retry(h.count + 1))
            else if HitOf(st) == Some(c) then
              m == s.copies[c].(place := if st.StrayAck? then Gone else if st.StrayBury? then Dead else Main)
            else m == s.copies[c]
  {
  }

  lemma StrayLeavesCopyOrderly(s: Sys, st: Step, c: CopyId)
    requires Orderly(s) && Enabled(s, st) && c in Next(s, st).copies && ByStray(st)
    ensures CopyOrderly(Next(s, st), Next(s, st).copies[c])
  {
    StepGrows(s, st);
    StrayOnCopies(s, st, c);
    if c in s.copies {
      assert CopyOrderly(s, s.copies[c]);
    } else {
      assert StrayOrderly(s, s.strays[st.h]);
    }
  }

  /** A stray is as it was, or has moved on, or is the handler of a copy that has just lost it. */
  lemma StrayOrigin(s: Sys, st: Step, h: StrayId)
    requires Enabled(s, st) && h in Next(s, st).strays
    ensures var m := Next(s, st).strays[h];
            || (h in s.strays && m == s.strays[h])
            || (h in s.strays && ByStray(st) && st.h == h && HitOf(st).None?
                && m == s.strays[h].(place := m.place) && InHandler(m.place)
                && (KnowsSent(m.place) ==>
                      m.event in Next(s, st).sends || m.event in s.marks || KnowsSent(s.strays[h].place)))
            || exists c :: Working(s, c) && m == Stray(s.copies[c].event, s.copies[c].count, s.copies[c].place)
  {
    if st.Redeliver? {
      assert Working(s, st.c);
    } else if ByStray(st) && HitOf(st).Some? {
      assert Working(s, HitOf(st).value);
    }
  }

  lemma StrayStaysOrderly(s: Sys, st: Step, h: StrayId)
    requires Orderly(s) && Enabled(s, st) && h in Next(s, st).strays
    ensures StrayOrderly(Next(s, st), Next(s, st).strays[h])
  {
    StepGrows(s, st);
    StrayOrigin(s, st, h);
    var m := Next(s, st).strays[h];
    if h in s.strays {
      assert StrayOrderly(s, s.strays[h]);
    }
    if c :| Working(s, c) && m == Stray(s.copies[c].event, s.copies[c].count, s.copies[c].place) {
      assert CopyOrderly(s, s.copies[c]);
    }
  }

  lemma StepKeepsOrderly(s: Sys, st: Step)
    requires Orderly(s) && Enabled(s, st)
    ensures Orderly(Next(s, st))
  {
    var s' := Next(s, st);
    forall c | c in s'.copies
      ensures CopyOrderly(s', s'.copies[c])
    {
      if ByStray(st) {
        StrayLeavesCopyOrderly(s, st, c);
      } else {
        CopyStaysOrderly(s, st, c);
      }
    }
    forall h | h in s'.strays
      ensures StrayOrderly(s', s'.strays[h])
    {
      StrayStaysOrderly(s, st, h);
    }
    MarksStaySent(s, st);
  }

  lemma MarksStaySent(s: Sys, st: Step)
    requires Orderly(s) && Enabled(s, st)
    ensures forall id :: id in Next(s, st).marks ==> id in Next(s, st).sends
  {
    StepGrows(s, st);
    if st.WriteMark? {
      assert CopyOrderly(s, s.copies[st.c]);
    } else if st.StrayMark? {
      assert StrayOrderly(s, s.strays[st.h]);
    }
  }

  lemma {:induction false} RunKeepsOrderly(s: Sys, steps: seq<Step>, s': Sys)
    requires Orderly(s) && Run(s, steps, s')
    ensures Orderly(s')
    decreases |steps|
  {
    if steps != [] {
      StepKeepsOrderly(s, steps[0]);
      RunKeepsOrderly(Next(s, steps[0]), steps[1..], s');
    }
  }

  /** The retry ladder: retry queue n only ever holds copies that were retried n times, n is 1 to
    * 3, and no copy anywhere has been retried more than three times. */
  lemma LadderIsKept(steps: seq<Step>, s: Sys, c: CopyId)
    requires Run(EMPTY, steps, s) && c in s.copies
    ensures s.copies[c].count <= 3
    ensures s.copies[c].place.Retry? ==> 1 <= s.copies[c].place.queue == s.copies[c].count
  {
    RunKeepsOrderly(EMPTY, steps, s);
    assert CopyOrderly(s, s.copies[c]);
  }
}
