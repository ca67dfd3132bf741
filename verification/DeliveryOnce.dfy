/** When an event is sent only once, however many copies of it there are. */
module DeliveryOnce {
  import opened Delivery
  import opened Numbers

  /** Some handler is at work on the event. */
  ghost predicate Busy(s: Sys, event: Id) {
    exists c :: Working(s, c) && s.copies[c].event == event
  }

  /** Redis answers truly and keeps its marks; no handler is interrupted between sending and
    * marking, or goes on without its delivery. */
  ghost predicate Steady(s: Sys, st: Step) {
    match st
    case Check(c, found) => c in s.copies && found == (s.copies[c].event in s.marks)
    case WriteMark(_, stored) => stored
    case Redeliver(c, stray) => stray.None? && !At(s, c, Sent)
    case Stop => forall c :: !At(s, c, Sent)
    case ForgetMark(_) => false
    case _ => !ByStray(st)
  }

  /** Steady, and no two handlers at work on one event at a time; other events do not matter. */
  ghost predicate Calm(s: Sys, st: Step) {
    Steady(s, st) && (st.Deliver? && st.c in s.copies ==> !Busy(s, s.copies[st.c].event))
  }

  ghost predicate CalmRun(s: Sys, steps: seq<Step>, s': Sys)
    decreases |steps|
  {
    if steps == [] then s' == s
    else Enabled(s, steps[0]) && Calm(s, steps[0]) && CalmRun(Next(s, steps[0]), steps[1..], s')
  }

  ghost predicate OneHandlerEach(s: Sys) {
    forall c, d :: Working(s, c) && Working(s, d) && s.copies[c].event == s.copies[d].event ==> c == d
  }

  /** A sent event is marked, or the handler that sent it is about to mark it. */
  ghost predicate Remembered(s: Sys, id: Id) {
    id in s.marks || exists c :: At(s, c, Sent) && s.copies[c].event == id
  }

  ghost predicate SentOnce(s: Sys) {
    && OneHandlerEach(s)
    && (forall id :: s.sends[id] <= 1)
    && (forall id :: id in s.sends ==> Remembered(s, id))
    && (forall c :: At(s, c, Sending) ==> s.copies[c].event !in s.sends)
  }

  /** A copy whose handler is at work was in it before, or has just been delivered. */
  lemma WorkingBefore(s: Sys, st: Step, c: CopyId)
    requires Enabled(s, st) && Steady(s, st) && Working(Next(s, st), c)
    ensures c in s.copies && Next(s, st).copies[c].event == s.copies[c].event
    ensures Working(s, c) || st == Deliver(c)
  {
  }

  lemma CalmKeepsOneHandlerEach(s: Sys, st: Step)
    requires OneHandlerEach(s) && Enabled(s, st) && Calm(s, st)
    ensures OneHandlerEach(Next(s, st))
  {
    var s' := Next(s, st);
    forall c, d | Working(s', c) && Working(s', d) && s'.copies[c].event == s'.copies[d].event
      ensures c == d
    {
      WorkingBefore(s, st, c);
      WorkingBefore(s, st, d);
    }
  }

  lemma SteadyKeepsRemembered(s: Sys, st: Step, id: Id)
    requires Enabled(s, st) && Steady(s, st) && Remembered(s, id)
    ensures Remembered(Next(s, st), id)
  {
    var s' := Next(s, st);
    if id !in s.marks {
      var c :| At(s, c, Sent) && s.copies[c].event == id;
      assert (st.WriteMark? && st.c == c) || At(s', c, Sent);
    }
  }

  lemma CalmStepKeepsSentOnce(s: Sys, st: Step)
    requires SentOnce(s) && Enabled(s, st) && Calm(s, st)
    ensures SentOnce(Next(s, st))
  {
    var s' := Next(s, st);
    CalmKeepsOneHandlerEach(s, st);
    forall id | id in s'.sends
      ensures Remembered(s', id)
    {
      if id in s.sends {
        SteadyKeepsRemembered(s, st, id);
      } else {
        assert At(s', st.c, Sent);
      }
    }
    forall c | At(s', c, Sending)
      ensures s'.copies[c].event !in s'.sends
    {
      SendingIsUnsent(s, st, c);
    }
    SendsStayOne(s, st);
  }

  lemma SendsStayOne(s: Sys, st: Step)
    requires SentOnce(s) && Enabled(s, st) && Calm(s, st)
    ensures forall id :: Next(s, st).sends[id] <= 1
  {
  }

  /** A handler that found no mark sends an event that was never sent, for no other handler of that
    * event is between sending and marking. */
  lemma SendingIsUnsent(s: Sys, st: Step, c: CopyId)
    requires SentOnce(s) && Enabled(s, st) && Calm(s, st) && At(Next(s, st), c, Sending)
    ensures Next(s, st).copies[c].event !in Next(s, st).sends
  {
    WorkingBefore(s, st, c);
    if At(s, c, Sending) {
      assert st.Send? ==> Working(s, st.c) && Working(s, c);
    } else {
      assert At(s, c, Checking) && Working(s, c);
      assert forall d :: At(s, d, Sent) ==> Working(s, d);
    }
  }

  lemma {:induction false} CalmRunKeepsSentOnce(s: Sys, steps: seq<Step>, s': Sys)
    requires SentOnce(s) && CalmRun(s, steps, s')
    ensures SentOnce(s')
    decreases |steps|
  {
    if steps != [] {
      CalmStepKeepsSentOnce(s, steps[0]);
      CalmRunKeepsSentOnce(Next(s, steps[0]), steps[1..], s');
    }
  }

  /** In a calm run every event is sent at most once, however many duplicates the immediate publish,
    * the relay and redelivery create, and however many events are in hand at once. */
  lemma CalmRunsSendOnce(steps: seq<Step>, s: Sys, id: Id)
    requires CalmRun(EMPTY, steps, s)
    ensures s.sends[id] <= 1
  {
    CalmRunKeepsSentOnce(EMPTY, steps, s);
  }

  // ---------- several handlers of one event ----------

  /** Any number of handlers may be at work on one event: the consumer takes ten messages at once. */
  ghost predicate BusyRun(s: Sys, steps: seq<Step>, s': Sys)
    decreases |steps|
  {
    if steps == [] then s' == s
    else Enabled(s, steps[0]) && Steady(s, steps[0]) && BusyRun(Next(s, steps[0]), steps[1..], s')
  }

  ghost predicate BusyReaches(s: Sys, s': Sys) {
    exists steps :: BusyRun(s, steps, s')
  }

  lemma {:induction false} BusyRunExtends(s: Sys, steps: seq<Step>, mid: Sys, st: Step)
    requires BusyRun(s, steps, mid) && Enabled(mid, st) && Steady(mid, st)
    ensures BusyRun(s, steps + [st], Next(mid, st))
    decreases |steps|
  {
    if steps == [] {
      assert (steps + [st])[1..] == [];
    } else {
      BusyRunExtends(Next(s, steps[0]), steps[1..], mid, st);
      assert (steps + [st])[1..] == steps[1..] + [st];
    }
  }

  lemma Take(s0: Sys, steps: seq<Step>, s: Sys, st: Step) returns (steps': seq<Step>, s': Sys)
    requires BusyRun(s0, steps, s) && Enabled(s, st) && Steady(s, st)
    ensures BusyRun(s0, steps', s') && s' == Next(s, st)
  {
    BusyRunExtends(s0, steps, s, st);
    steps', s' := steps + [st], Next(s, st);
  }

  /** A new copy of an event without a mark is delivered and about to be sent. */
  lemma TakeUp(s0: Sys, steps: seq<Step>, s: Sys, id: Id, c: CopyId) returns (steps': seq<Step>, s': Sys)
    requires BusyRun(s0, steps, s) && id in s.committed && id !in s.marks && c !in s.copies
    ensures BusyRun(s0, steps', s')
    ensures s' == s.(copies := s.copies[c := Copy(id, 0, Sending)], answered := s.answered + {id})
  {
    steps', s' := Take(s0, steps, s, Publish(id, c, true, true));
    steps', s' := Take(s0, steps', s', Deliver(c));
    steps', s' := Take(s0, steps', s', Check(c, false));
  }

  /** Two new copies of an event without a mark are sent twice, although nothing fails. */
  lemma TwoHandlersSendTwice(s: Sys, id: Id) returns (steps: seq<Step>, s': Sys)
    requires id in s.committed && id !in s.marks
    ensures BusyRun(s, steps, s') && s'.sends[id] == s.sends[id] + 2
  {
    var c := AboveAll(s.copies.Keys);
    steps, s' := TakeUp(s, [], s, id, c);
    steps, s' := TakeUp(s, steps, s', id, c + 1);
    steps, s' := SendBoth(s, steps, s', c, c + 1);
  }

  lemma SendBoth(s0: Sys, steps: seq<Step>, s: Sys, c: CopyId, d: CopyId) returns (steps': seq<Step>, s': Sys)
    requires BusyRun(s0, steps, s) && At(s, c, Sending) && At(s, d, Sending) && c != d
    requires s.copies[c].event == s.copies[d].event
    ensures BusyRun(s0, steps', s') && s'.sends[s.copies[c].event] == s.sends[s.copies[c].event] + 2
  {
    steps', s' := Take(s0, steps, s, Send(c, true));
    steps', s' := Take(s0, steps', s', Send(d, true));
  }

  /** The event is marked and no handler is about to send it. */
  ghost predicate Settled(s: Sys, id: Id) {
    id in s.marks && forall c :: At(s, c, Sending) ==> s.copies[c].event != id
  }

  lemma SteadyKeepsSettled(s: Sys, st: Step, id: Id)
    requires Settled(s, id) && Enabled(s, st) && Steady(s, st)
    ensures Settled(Next(s, st), id) && Next(s, st).sends[id] == s.sends[id]
  {
  }

  lemma {:induction false} BusyRunKeepsSettled(s: Sys, steps: seq<Step>, s': Sys, id: Id)
    requires Settled(s, id) && BusyRun(s, steps, s')
    ensures s'.sends[id] == s.sends[id]
    decreases |steps|
  {
    if steps != [] {
      SteadyKeepsSettled(s, steps[0], id);
      BusyRunKeepsSettled(Next(s, steps[0]), steps[1..], s', id);
    }
  }

  /** With any number of handlers at work, a committed event is sent at most once in every
    * continuation exactly when it has been sent at most once, its mark is written, and no handler
    * is about to send it. */
  lemma SentAtMostOnceIff(before: seq<Step>, s: Sys, id: Id)
    requires Run(EMPTY, before, s) && id in s.committed
    ensures (forall s' :: BusyReaches(s, s') ==> s'.sends[id] <= 1) <==> Settled(s, id) && s.sends[id] <= 1
  {
    RunKeepsOrderly(EMPTY, before, s);
    if Settled(s, id) && s.sends[id] <= 1 {
      forall s' | BusyReaches(s, s')
        ensures s'.sends[id] <= 1
      {
        var steps :| BusyRun(s, steps, s');
        BusyRunKeepsSettled(s, steps, s', id);
      }
    } else if id !in s.marks {
      var steps, s' := TwoHandlersSendTwice(s, id);
      assert BusyReaches(s, s');
    } else if s.sends[id] > 1 {
      assert BusyRun(s, [], s) && BusyReaches(s, s);
    } else {
      var c :| At(s, c, Sending) && s.copies[c].event == id;
      assert BusyRun(s, [], s);
      var steps, s' := Take(s, [], s, Send(c, true));
      assert BusyReaches(s, s');
    }
  }
}
