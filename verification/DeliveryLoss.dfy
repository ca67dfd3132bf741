/** When a committed event can be lost, and when it cannot.
  *
  * Two things decide it. A handler that lives on after its connection broke acknowledges its old
  * delivery tag on the channel then open, and the broker drops whatever that tag now means; a
  * worker that exits with its connection leaves no such handler, the consumer inside the API does.
  * And a publish that was answered need not be held: the channel is not a confirm channel.
  */
module DeliveryLoss {
  import opened Wrappers
  import opened Delivery
  import opened Numbers

  /** The broker holds a copy of the event: queued, parked, delivered, or in the dead queue. */
  ghost predicate Held(s: Sys, id: Id) {
    exists c :: c in s.copies && s.copies[c].event == id && Alive(s.copies[c])
  }

  ghost predicate Secured(s: Sys, id: Id) {
    id in s.sends || Held(s, id)
  }

  predicate PendingRow(s: Sys, id: Id) {
    id in s.outbox && s.outbox[id].Pending?
  }

  /** Someone further up the retry ladder still carries the event, or it has been sent. */
  ghost predicate Outranked(s: Sys, id: Id, count: nat) {
    id in s.sends
    || exists c :: c in s.copies && s.copies[c].event == id && s.copies[c].count > count && Alive(s.copies[c])
  }

  /** An answered publish is held. */
  predicate Honest(st: Step) {
    match st
    case Publish(_, _, answer, held) => answer ==> held
    case Park(_, _, answer, held) => answer ==> held
    case StrayPark(_, _, held) => held
    case _ => true
  }

  /** A stray acknowledges a delivery that is not its own. */
  predicate Steals(st: Step) {
    st.StrayAck? && st.hit.Some?
  }

  ghost predicate ParkedSafe(s: Sys, m: Copy) {
    m.place.Parked? ==> Outranked(s, m.event, m.count)
  }

  ghost predicate Safe(s: Sys) {
    && Orderly(s)
    && (forall c :: c in s.copies ==> ParkedSafe(s, s.copies[c]))
    && (forall id :: id in s.answered ==> id in s.committed && Secured(s, id))
    && (forall id :: id in s.committed ==> PendingRow(s, id) || Secured(s, id))
  }

  // ---------- nothing is lost as long as no one steals ----------

  /** A copy outlives every step but its own acknowledgement and a stolen one. */
  lemma CopyLives(s: Sys, st: Step, c: CopyId)
    requires Enabled(s, st) && c in s.copies && Alive(s.copies[c]) && st != Ack(c) && !Steals(st)
    ensures var s' := Next(s, st);
            c in s'.copies && s'.copies[c].event == s.copies[c].event && s'.copies[c].count == s.copies[c].count
            && Alive(s'.copies[c])
  {
    if ByStray(st) {
      StrayKeepsCopies(s, st);
      StrayOnCopies(s, st, c);
    }
  }

  lemma StrayKeepsCopies(s: Sys, st: Step)
    requires Enabled(s, st) && ByStray(st)
    ensures s.copies.Keys <= Next(s, st).copies.Keys
  {
  }

  lemma OutrankedStays(s: Sys, st: Step, id: Id, count: nat)
    requires Safe(s) && Enabled(s, st) && !Steals(st) && Outranked(s, id, count)
    ensures Outranked(Next(s, st), id, count)
  {
    StepGrows(s, st);
    if id !in s.sends {
      var c :| c in s.copies && s.copies[c].event == id && s.copies[c].count > count && Alive(s.copies[c]);
      if st == Ack(c) {
        assert CopyOrderly(s, s.copies[c]) && ParkedSafe(s, s.copies[c]);
        var d :| d in s.copies && s.copies[d].event == id && s.copies[d].count > s.copies[c].count
                 && Alive(s.copies[d]);
        CopyLives(s, st, d);
      } else {
        CopyLives(s, st, c);
      }
    }
  }

  lemma SecuredStays(s: Sys, st: Step, id: Id)
    requires Safe(s) && Enabled(s, st) && !Steals(st) && Secured(s, id)
    ensures Secured(Next(s, st), id)
  {
    StepGrows(s, st);
    if id !in s.sends {
      var c :| c in s.copies && s.copies[c].event == id && Alive(s.copies[c]);
      if st == Ack(c) {
        assert CopyOrderly(s, s.copies[c]) && ParkedSafe(s, s.copies[c]);
        var d :| d in s.copies && s.copies[d].event == id && s.copies[d].count > s.copies[c].count
                 && Alive(s.copies[d]);
        CopyLives(s, st, d);
      } else {
        CopyLives(s, st, c);
      }
    }
  }

  lemma AnsweredStaysSafe(s: Sys, st: Step, id: Id)
    requires Safe(s) && Enabled(s, st) && !Steals(st) && Honest(st) && id in Next(s, st).answered
    ensures id in Next(s, st).committed && Secured(Next(s, st), id)
  {
    if id in s.answered {
      StepGrows(s, st);
      SecuredStays(s, st, id);
    } else {
      assert st.copy in Next(s, st).copies && Next(s, st).copies[st.copy].event == id;
    }
  }

  lemma CommittedStaysSafe(s: Sys, st: Step, id: Id)
    requires Safe(s) && Enabled(s, st) && !Steals(st) && id in Next(s, st).committed
    ensures PendingRow(Next(s, st), id) || Secured(Next(s, st), id)
  {
    if id in s.committed && Secured(s, id) {
      SecuredStays(s, st, id);
    }
  }

  /** A copy that has just been parked leaves its retry behind. */
  lemma ParkedStaysSafe(s: Sys, st: Step, c: CopyId)
    requires Safe(s) && Enabled(s, st) && !Steals(st) && Honest(st) && c in Next(s, st).copies
    requires Next(s, st).copies[c].place.Parked?
    ensures ParkedSafe(Next(s, st), Next(s, st).copies[c])
  {
    ParkedBefore(s, st, c);
    var m := Next(s, st).copies[c];
    if At(s, c, Parked) {
      assert ParkedSafe(s, s.copies[c]);
      OutrankedStays(s, st, m.event, m.count);
    } else {
      var retry := Next(s, st).copies[st.copy];
      assert retry.event == m.event && retry.count > m.count && Alive(retry);
    }
  }

  lemma ParkedBefore(s: Sys, st: Step, c: CopyId)
    requires Enabled(s, st) && c in Next(s, st).copies && Next(s, st).copies[c].place.Parked?
    ensures (At(s, c, Parked) && s.copies[c] == Next(s, st).copies[c])
         || (st.Park? && st.c == c && st.answer && Next(s, st).copies[c] == s.copies[c].(place := Parked))
  {
    if ByStray(st) {
      StrayOnCopies(s, st, c);
    }
  }

  lemma StepKeepsSafe(s: Sys, st: Step)
    requires Safe(s) && Enabled(s, st) && !Steals(st) && Honest(st)
    ensures Safe(Next(s, st))
  {
    var s' := Next(s, st);
    StepKeepsOrderly(s, st);
    forall c | c in s'.copies
      ensures ParkedSafe(s', s'.copies[c])
    {
      if s'.copies[c].place.Parked? {
        ParkedStaysSafe(s, st, c);
      }
    }
    forall id | id in s'.answered
      ensures id in s'.committed && Secured(s', id)
    {
      AnsweredStaysSafe(s, st, id);
    }
    forall id | id in s'.committed
      ensures PendingRow(s', id) || Secured(s', id)
    {
      CommittedStaysSafe(s, st, id);
    }
  }

  predicate NoOneSteals(steps: seq<Step>) {
    forall st :: st in steps ==> !Steals(st)
  }

  predicate AllHonest(steps: seq<Step>) {
    forall st :: st in steps ==> Honest(st)
  }

  lemma {:induction false} RunKeepsSafe(s: Sys, steps: seq<Step>, s': Sys)
    requires Safe(s) && Run(s, steps, s') && NoOneSteals(steps) && AllHonest(steps)
    ensures Safe(s')
    decreases |steps|
  {
    if steps != [] {
      StepKeepsSafe(s, steps[0]);
      RunKeepsSafe(Next(s, steps[0]), steps[1..], s');
    }
  }

  /** No event is lost: whatever stops, breaks or is repeated, every committed event is still
    * pending in the outbox, or the broker holds a copy of it, or it has been sent, as long as the
    * broker holds what it answered for and no handler acknowledges a delivery that is not its own. */
  lemma NoEventIsLost(steps: seq<Step>, s: Sys, id: Id)
    requires Run(EMPTY, steps, s) && NoOneSteals(steps) && AllHonest(steps) && id in s.committed
    ensures PendingRow(s, id) || Held(s, id) || id in s.sends
  {
    RunKeepsSafe(EMPTY, steps, s);
  }

  // ---------- losing an event ----------

  ghost predicate Carried(s: Sys, id: Id) {
    exists h :: h in s.strays && s.strays[h].event == id
  }

  /** The copies of an event that are not acknowledged. */
  function Living(s: Sys, id: Id): set<CopyId> {
    set c | c in s.copies && s.copies[c].event == id && Alive(s.copies[c])
  }

  /** Nothing is left that could still send the event: no row to publish, no copy, no handler. */
  ghost predicate Lost(s: Sys, id: Id) {
    id in s.committed && !PendingRow(s, id) && !Held(s, id) && id !in s.sends && !Carried(s, id)
  }

  /** How the system is run: whether the consumer's process exits when its connection closes, and
    * whether the broker confirms what it is given. */
  datatype Setup = Setup(exits: bool, confirms: bool)

  predicate Allowed(u: Setup, st: Step) {
    && (u.exits && st.Redeliver? ==> st.stray.None?)
    && (u.confirms ==> Honest(st))
  }

  predicate AllAllowed(u: Setup, steps: seq<Step>) {
    forall st :: st in steps ==> Allowed(u, st)
  }

  ghost predicate Reaches(u: Setup, s: Sys, s': Sys) {
    exists steps :: Run(s, steps, s') && AllAllowed(u, steps)
  }

  /** The consumer inside the API, on a broker that is taken at its word. */
  const IN_PROCESS := Setup(false, true)

  lemma Then(u: Setup, s: Sys, steps: seq<Step>, mid: Sys, st: Step) returns (steps': seq<Step>, s': Sys)
    requires Run(s, steps, mid) && AllAllowed(u, steps) && Enabled(mid, st) && Allowed(u, st)
    ensures steps' == steps + [st] && s' == Next(mid, st) && Run(s, steps', s') && AllAllowed(u, steps')
  {
    steps', s' := steps + [st], Next(mid, st);
    assert Run(Next(mid, st), [st][1..], s');
    RunJoins(s, steps, mid, [st], s');
  }

  /** Event 1 is delivered to a handler, the connection breaks and reopens, and event 2 is delivered
    * on the new channel under the tag event 1 had. The first handler finishes and acknowledges that
    * tag: the broker drops event 2, whose handler has not sent it yet, and the process stops. */
  lemma StolenDelivery() returns (steps: seq<Step>, s: Sys)
    ensures Run(EMPTY, steps, s) && AllAllowed(IN_PROCESS, steps) && Lost(s, 2)
    ensures 2 in s.outbox && s.outbox[2] == Published
  {
    var first, published := OnePublished(2, 20);
    var second, thief := Thief(published, 1, 10, 0);
    var third, stolen := Steal(thief, 20, 0);
    RunJoins(published, second, thief, third, stolen);
    RunJoins(EMPTY, first, published, second + third, stolen);
    StopLoses(stolen, 2);
    steps, s := Then(IN_PROCESS, EMPTY, first + (second + third), stolen, Stop);
  }

  /** A stop takes the last handler of an event that has no row and no living copy. */
  lemma StopLoses(s: Sys, id: Id)
    requires id in s.committed && id !in s.sends && !PendingRow(s, id) && Living(s, id) == {}
    ensures Lost(Next(s, Stop), id) && Next(s, Stop).outbox == s.outbox
  {
    forall c | c in s.copies && s.copies[c].event == id
      ensures !Alive(s.copies[c])
    {
      assert c !in Living(s, id);
    }
  }

  lemma OnePublished(id: Id, c: CopyId) returns (steps: seq<Step>, s: Sys)
    ensures Run(EMPTY, steps, s) && AllAllowed(IN_PROCESS, steps)
    ensures s == Sys({id}, map[id := Published], {}, map[c := Copy(id, 0, Main)], map[], {}, multiset{}, multiset{})
  {
    steps, s := [], EMPTY;
    steps, s := Then(IN_PROCESS, EMPTY, steps, s, Commit(id));
    steps, s := Then(IN_PROCESS, EMPTY, steps, s, Publish(id, c, true, true));
    steps, s := Then(IN_PROCESS, EMPTY, steps, s, MarkRow(id));
  }

  /** Copy c is delivered, and the stray acknowledges it while its handler is about to send. */
  lemma Steal(s: Sys, c: CopyId, h: StrayId) returns (steps: seq<Step>, s': Sys)
    requires At(s, c, Main) && StrayAt(s, h, Marked)
    ensures Run(s, steps, s') && AllAllowed(IN_PROCESS, steps)
    ensures var m := s.copies[c];
            s' == s.(copies := s.copies[c := m.(place := Gone)],
                     strays := s.strays[h := Stray(m.event, m.count, Sending)])
  {
    steps, s' := [], s;
    steps, s' := Then(IN_PROCESS, s, steps, s', Deliver(c));
    steps, s' := Then(IN_PROCESS, s, steps, s', Check(c, false));
    assert s' == Put(s, c, Sending);
    steps, s' := Then(IN_PROCESS, s, steps, s', StrayAck(h, Some(c)));
  }

  /** A handler that is about to acknowledge a delivery it no longer has. */
  lemma Thief(s: Sys, e: Id, k: CopyId, h: StrayId) returns (steps: seq<Step>, s': Sys)
    requires e !in s.committed && k !in s.copies && h !in s.strays
    ensures Run(s, steps, s') && AllAllowed(IN_PROCESS, steps)
    ensures s' == Sys(s.committed + {e}, s.outbox[e := Pending], s.answered + {e},
                      s.copies[k := Copy(e, 0, Main)], s.strays[h := Stray(e, 0, Marked)], s.marks + {e},
                      s.sends + multiset{e}, s.attempts + multiset{e})
  {
    var u, more := IN_PROCESS, [];
    var published := s.(
      committed := s.committed + {e}, outbox := s.outbox[e := Pending], answered := s.answered + {e},
      copies := s.copies[k := Copy(e, 0, Main)]);
    steps, s' := [], s;
    steps, s' := Then(u, s, steps, s', Commit(e));
    steps, s' := Then(u, s, steps, s', Publish(e, k, true, true));
    assert s' == published;
    more, s' := StrayFrom(published, k, h);
    RunJoins(s, steps, published, more, s');
    steps := steps + more;
  }

  /** The copy is delivered, sent and marked, and comes back because the connection broke. */
  lemma StrayFrom(s: Sys, k: CopyId, h: StrayId) returns (steps: seq<Step>, s': Sys)
    requires At(s, k, Main) && h !in s.strays
    ensures Run(s, steps, s') && AllAllowed(IN_PROCESS, steps)
    ensures var m := s.copies[k];
            s' == s.(strays := s.strays[h := Stray(m.event, m.count, Marked)], marks := s.marks + {m.event},
                     sends := s.sends + multiset{m.event}, attempts := s.attempts + multiset{m.event})
  {
    var u, m := IN_PROCESS, s.copies[k];
    var mid := s.(strays := s.strays[h := Stray(m.event, m.count, Checking)]);
    steps, s' := [], s;
    steps, s' := Then(u, s, steps, s', Deliver(k));
    steps, s' := Then(u, s, steps, s', Redeliver(k, Some(h)));
    assert s' == mid;
    var more;
    more, s' := StrayFinishes(mid, h);
    RunJoins(s, steps, mid, more, s');
    steps := steps + more;
  }

  lemma StrayFinishes(s: Sys, h: StrayId) returns (steps: seq<Step>, s': Sys)
    requires StrayAt(s, h, Checking)
    ensures Run(s, steps, s') && AllAllowed(IN_PROCESS, steps)
    ensures var m := s.strays[h];
            s' == s.(strays := s.strays[h := m.(place := Marked)], marks := s.marks + {m.event},
                     sends := s.sends + multiset{m.event}, attempts := s.attempts + multiset{m.event})
  {
    steps, s' := [], s;
    steps, s' := Then(IN_PROCESS, s, steps, s', StraySend(h, true));
    steps, s' := Then(IN_PROCESS, s, steps, s', StrayMark(h, true));
  }

  /** The channel answers, but the broker has not taken the message. */
  lemma UnheldAnswer() returns (steps: seq<Step>, s: Sys)
    ensures Run(EMPTY, steps, s) && AllAllowed(Setup(true, false), steps) && Lost(s, 1)
  {
    var u := Setup(true, false);
    steps, s := [], EMPTY;
    steps, s := Then(u, EMPTY, steps, s, Commit(1));
    steps, s := Then(u, EMPTY, steps, s, Publish(1, 10, true, false));
    steps, s := Then(u, EMPTY, steps, s, MarkRow(1));
  }

  lemma {:induction false} ExitingLeavesNoStrays(u: Setup, s: Sys, steps: seq<Step>, s': Sys)
    requires u.exits && s.strays == map[] && Run(s, steps, s') && AllAllowed(u, steps)
    ensures NoOneSteals(steps)
    decreases |steps|
  {
    if steps != [] {
      assert Allowed(u, steps[0]);
      ExitingLeavesNoStrays(u, Next(s, steps[0]), steps[1..], s');
      assert steps == [steps[0]] + steps[1..];
    }
  }

  /** Nothing is ever lost exactly when the consumer's process exits with its connection, as the
    * worker does, and the broker holds what it answered for. */
  lemma NothingIsLostIff(u: Setup)
    ensures (forall s, id :: Reaches(u, EMPTY, s) ==> !Lost(s, id)) <==> u.exits && u.confirms
  {
    if u.exits && u.confirms {
      forall s, id | Reaches(u, EMPTY, s)
        ensures !Lost(s, id)
      {
        var steps :| Run(EMPTY, steps, s) && AllAllowed(u, steps);
        ExitingLeavesNoStrays(u, EMPTY, steps, s);
        assert AllHonest(steps) by {
          forall st | st in steps
            ensures Honest(st)
          {
            assert Allowed(u, st);
          }
        }
        if id in s.committed {
          NoEventIsLost(steps, s, id);
        }
      }
    } else if !u.confirms {
      var steps, s := UnheldAnswer();
      WiderSetup(Setup(true, false), u, steps);
      assert Reaches(u, EMPTY, s) && Lost(s, 1);
    } else {
      var steps, s := StolenDelivery();
      WiderSetup(IN_PROCESS, u, steps);
      assert Reaches(u, EMPTY, s) && Lost(s, 2);
    }
  }

  lemma WiderSetup(u: Setup, v: Setup, steps: seq<Step>)
    requires AllAllowed(u, steps) && (v.exits ==> u.exits) && (v.confirms ==> u.confirms)
    ensures AllAllowed(v, steps)
  {
    forall st | st in steps
      ensures Allowed(v, st)
    {
      assert Allowed(u, st);
    }
  }

  // ---------- an event of the consumer inside the API ----------

  predicate InDeadQueue(s: Sys, c: CopyId, id: Id) {
    At(s, c, Dead) && s.copies[c].event == id
  }

  /** What the losing steps leave alone: the event stays committed, unsent and out of the dead queue. */
  ghost predicate Exposed(s: Sys, id: Id) {
    id in s.committed && id !in s.sends && forall c :: !InDeadQueue(s, c, id)
  }

  /** Any living copy of an exposed event can be brought back to the main queue. */
  lemma BringToMain(s: Sys, id: Id, c: CopyId) returns (steps: seq<Step>, s': Sys)
    requires Exposed(s, id) && c in Living(s, id)
    ensures Run(s, steps, s') && AllAllowed(IN_PROCESS, steps)
    ensures s' == s.(copies := s.copies[c := s.copies[c].(place := Main)])
  {
    assert !InDeadQueue(s, c, id);
    steps, s' := [], s;
    if s.copies[c].place.Retry? {
      steps, s' := Then(IN_PROCESS, s, steps, s', Expire(c));
    } else if InHandler(s.copies[c].place) {
      steps, s' := Then(IN_PROCESS, s, steps, s', Redeliver(c, None));
    } else {
      assert s.copies[c := s.copies[c].(place := Main)] == s.copies;
    }
  }

  /** And there it can be stolen by a handler of another event. */
  lemma LoseOneCopy(s: Sys, id: Id, c: CopyId) returns (steps: seq<Step>, s': Sys)
    requires Exposed(s, id) && c in Living(s, id)
    ensures Run(s, steps, s') && AllAllowed(IN_PROCESS, steps)
    ensures Exposed(s', id) && Living(s', id) == Living(s, id) - {c}
    ensures PendingRow(s', id) == PendingRow(s, id)
  {
    var e := AboveAll(s.committed);
    var k := AboveAll(s.copies.Keys);
    var h := AboveAll(s.strays.Keys);
    var first, main := BringToMain(s, id, c);
    var second, thief := Thief(main, e, k, h);
    var third;
    third, s' := Steal(thief, c, h);
    RunJoins(main, second, thief, third, s');
    RunJoins(s, first, main, second + third, s');
    steps := first + (second + third);
    StolenIsGone(s, id, c, Copy(e, 0, Main), k, s');
  }

  lemma StolenIsGone(s: Sys, id: Id, c: CopyId, other: Copy, k: CopyId, s': Sys)
    requires Exposed(s, id) && c in Living(s, id) && k !in s.copies && other.event != id
    requires s.committed <= s'.committed && s'.sends[id] == s.sends[id] && PendingRow(s', id) == PendingRow(s, id)
    requires s'.copies == s.copies[k := other][c := s.copies[c].(place := Gone)]
    ensures Exposed(s', id) && Living(s', id) == Living(s, id) - {c}
  {
    forall d
      ensures !InDeadQueue(s', d, id)
    {
      assert !InDeadQueue(s, d, id);
    }
  }

  lemma {:induction false} LoseAllCopies(s: Sys, id: Id) returns (steps: seq<Step>, s': Sys)
    requires Exposed(s, id)
    ensures Run(s, steps, s') && AllAllowed(IN_PROCESS, steps)
    ensures Exposed(s', id) && Living(s', id) == {} && PendingRow(s', id) == PendingRow(s, id)
    decreases |Living(s, id)|
  {
    if Living(s, id) == {} {
      return [], s;
    }
    var c :| c in Living(s, id);
    var first, mid := LoseOneCopy(s, id, c);
    var rest;
    rest, s' := LoseAllCopies(mid, id);
    RunJoins(s, first, mid, rest, s');
    steps := first + rest;
  }

  /** The row of an event can always be published and marked. */
  lemma ClearRow(s: Sys, id: Id) returns (steps: seq<Step>, s': Sys)
    requires Exposed(s, id)
    ensures Run(s, steps, s') && AllAllowed(IN_PROCESS, steps) && Exposed(s', id) && !PendingRow(s', id)
  {
    var k := AboveAll(s.copies.Keys);
    steps, s' := [], s;
    steps, s' := Then(IN_PROCESS, s, steps, s', Publish(id, k, true, true));
    steps, s' := Then(IN_PROCESS, s, steps, s', MarkRow(id));
    forall c
      ensures !InDeadQueue(s', c, id)
    {
      assert !InDeadQueue(s, c, id);
    }
  }

  lemma ExposedCanBeLost(s: Sys, id: Id) returns (s': Sys)
    requires Exposed(s, id)
    ensures Reaches(IN_PROCESS, s, s') && Lost(s', id)
  {
    var first, published := ClearRow(s, id);
    var second, taken := LoseAllCopies(published, id);
    RunJoins(s, first, published, second, taken);
    StopLoses(taken, id);
    var steps;
    steps, s' := Then(IN_PROCESS, s, first + second, taken, Stop);
  }

  lemma {:induction false} DeadStays(s: Sys, steps: seq<Step>, s': Sys, c: CopyId)
    requires At(s, c, Dead) && Run(s, steps, s')
    ensures At(s', c, Dead) && s'.copies[c].event == s.copies[c].event
    decreases |steps|
  {
    if steps != [] {
      DeadKept(s, steps[0], c);
      DeadStays(Next(s, steps[0]), steps[1..], s', c);
    }
  }

  /** Nothing takes a copy out of the dead queue. */
  lemma DeadKept(s: Sys, st: Step, c: CopyId)
    requires At(s, c, Dead) && Enabled(s, st)
    ensures At(Next(s, st), c, Dead) && Next(s, st).copies[c].event == s.copies[c].event
  {
    if ByStray(st) {
      StrayKeepsCopies(s, st);
      StrayOnCopies(s, st, c);
    }
  }

  lemma {:induction false} SentStays(s: Sys, steps: seq<Step>, s': Sys, id: Id)
    requires id in s.sends && Run(s, steps, s')
    ensures id in s'.sends
    decreases |steps|
  {
    if steps != [] {
      StepGrows(s, steps[0]);
      SentStays(Next(s, steps[0]), steps[1..], s', id);
    }
  }

  /** With the consumer inside the API, a committed event is safe from loss in every continuation
    * exactly when it has been sent or lies in the dead queue. */
  lemma EventIsSafeIff(s: Sys, id: Id)
    requires id in s.committed
    ensures (forall s' :: Reaches(IN_PROCESS, s, s') ==> !Lost(s', id))
       <==> id in s.sends || exists c :: InDeadQueue(s, c, id)
  {
    if id !in s.sends && forall c :: !InDeadQueue(s, c, id) {
      var s' := ExposedCanBeLost(s, id);
      assert Reaches(IN_PROCESS, s, s') && Lost(s', id);
    } else {
      forall s' | Reaches(IN_PROCESS, s, s')
        ensures !Lost(s', id)
      {
        var steps :| Run(s, steps, s') && AllAllowed(IN_PROCESS, steps);
        if id in s.sends {
          SentStays(s, steps, s', id);
        } else {
          var c :| InDeadQueue(s, c, id);
          DeadStays(s, steps, s', c);
          assert Held(s', id);
        }
      }
    }
  }
}
