/** Price checks that overlap: each reads the pending alerts in one step and commits in a later one.
  *
  * backend/src/realtime/price-stream.service.ts starts a check every fifteen seconds, whether or not
  * the last one has finished, and a check does not read the alerts again in its transaction.
  */
module AlertRaces {
  import opened Wrappers
  import opened Alerts

  /** A check in flight: the alerts it found to fire, as it read them, and its prices. */
  datatype Reading = Reading(fired: map<Id, Alert>, prices: Prices)

  /** added is history: every alert id ever drawn. */
  datatype Sys = Sys(store: Store, checks: map<Id, Reading>, added: set<Id>)

  datatype Step =
    | Create(id: Id, alert: Alert)
    | Delete(id: Id)
    | Read(c: Id, prices: Prices)      // findPending and the filter
    | Commit(c: Id, now: nat)          // mark and enqueue
    | Abort(c: Id)                     // the transaction fails, or the process stops

  predicate Enabled(s: Sys, st: Step) {
    match st
    case Create(id, alert) => id !in s.added && alert.triggeredAt.None?
    case Delete(_) => true
    case Read(c, _) => c !in s.checks
    case Commit(c, _) => c in s.checks && Priced(s.checks[c])
    case Abort(c) => c in s.checks
  }

  /** Every fired alert has its price, as the filter has made sure. */
  predicate Priced(r: Reading) {
    forall id :: id in r.fired ==> r.fired[id].symbol in r.prices
  }

  function Next(s: Sys, st: Step): Sys
    requires Enabled(s, st)
  {
    match st
    case Create(id, alert) =>
      s.(store := s.store.(alerts := s.store.alerts[id := alert]), added := s.added + {id})
    case Delete(id) => s.(store := s.store.(alerts := s.store.alerts - {id}))
    case Read(c, prices) => s.(checks := s.checks[c := Reading(Fired(s.store.alerts, prices), prices)])
    case Commit(c, now) =>
      s.(store := Settle(s.store, s.checks[c].fired, s.checks[c].prices, now), checks := s.checks - {c})
    case Abort(c) => s.(checks := s.checks - {c})
  }

  ghost predicate Run(s: Sys, steps: seq<Step>, s': Sys)
    decreases |steps|
  {
    if steps == [] then s' == s
    else Enabled(s, steps[0]) && Run(Next(s, steps[0]), steps[1..], s')
  }

  ghost predicate Reaches(s: Sys, s': Sys) {
    exists steps :: Run(s, steps, s')
  }

  const START := Sys(Store(map[], map[]), map[], {})

  // ---------- the invariant ----------

  /** The check found the alert to fire and has not committed yet. */
  predicate Holds(s: Sys, c: Id, id: Id) {
    c in s.checks && id in s.checks[c].fired
  }

  predicate AlertOk(s: Sys, id: Id) {
    && (id in s.store.alerts ==> id in s.added)
    && (NotesOf(s.store, id) != [] ==> id in s.added)
    && (id in s.store.alerts ==> (NotesOf(s.store, id) != [] <==> s.store.alerts[id].triggeredAt.Some?))
  }

  predicate CheckOk(s: Sys, c: Id) {
    c in s.checks ==> Priced(s.checks[c]) && forall id :: id in s.checks[c].fired ==> id in s.added
  }

  ghost predicate Ok(s: Sys) {
    (forall id :: AlertOk(s, id)) && (forall c :: CheckOk(s, c))
  }

  /** A commit adds one event for each alert it holds, whether marked, unmarked or deleted. */
  lemma CommitNotifies(s: Sys, c: Id, now: nat, id: Id)
    requires Enabled(s, Commit(c, now))
    ensures var s' := Next(s, Commit(c, now));
            && |NotesOf(s'.store, id)| == |NotesOf(s.store, id)| + (if Holds(s, c, id) then 1 else 0)
            && (!Holds(s, c, id) ==> NotesOf(s'.store, id) == NotesOf(s.store, id))
            && (id in s'.store.alerts <==> id in s.store.alerts)
            && (id in s.store.alerts ==>
                  s'.store.alerts[id]
                    == if Holds(s, c, id) then s.store.alerts[id].(triggeredAt := Some(now)) else s.store.alerts[id])
  {
  }

  lemma StepKeepsAlert(s: Sys, st: Step, id: Id)
    requires Ok(s) && Enabled(s, st)
    ensures AlertOk(Next(s, st), id)
  {
    assert AlertOk(s, id);
    if st.Commit? {
      assert CheckOk(s, st.c);
      CommitNotifies(s, st.c, st.now, id);
    }
  }

  lemma StepKeepsOk(s: Sys, st: Step)
    requires Ok(s) && Enabled(s, st)
    ensures Ok(Next(s, st))
  {
    forall id
      ensures AlertOk(Next(s, st), id)
    {
      StepKeepsAlert(s, st, id);
    }
    forall c
      ensures CheckOk(Next(s, st), c)
    {
      assert CheckOk(s, c);
      assert forall id :: id in s.store.alerts ==> AlertOk(s, id);
    }
  }

  lemma {:induction false} RunKeepsOk(s: Sys, steps: seq<Step>, s': Sys)
    requires Ok(s) && Run(s, steps, s')
    ensures Ok(s')
    decreases |steps|
  {
    if steps != [] {
      StepKeepsOk(s, steps[0]);
      RunKeepsOk(Next(s, steps[0]), steps[1..], s');
    }
  }

  /** However checks, additions and deletions interleave: an alert is marked exactly when it has an
    * event, and no event is about an alert that never was. */
  lemma MarkedIffNotified(steps: seq<Step>, s: Sys, id: Id)
    requires Run(START, steps, s)
    ensures id in s.store.alerts ==> (NotesOf(s.store, id) != [] <==> s.store.alerts[id].triggeredAt.Some?)
    ensures NotesOf(s.store, id) != [] ==> id in s.added
  {
    RunKeepsOk(START, steps, s);
    assert AlertOk(s, id);
  }

  // ---------- when a notified alert stays quiet ----------

  /** The alert has had its event, and no check in flight still holds it. */
  ghost predicate Quiet(s: Sys, id: Id) {
    NotesOf(s.store, id) != [] && forall c :: !Holds(s, c, id)
  }

  lemma StepKeepsQuiet(s: Sys, st: Step, id: Id)
    requires Ok(s) && Quiet(s, id) && Enabled(s, st)
    ensures Quiet(Next(s, st), id) && NotesOf(Next(s, st).store, id) == NotesOf(s.store, id)
  {
    assert AlertOk(s, id);
    if st.Commit? {
      assert !Holds(s, st.c, id);
      CommitNotifies(s, st.c, st.now, id);
    }
    forall c
      ensures !Holds(Next(s, st), c, id)
    {
      assert !Holds(s, c, id);
    }
  }

  lemma {:induction false} QuietAlertsStayQuiet(s: Sys, steps: seq<Step>, s': Sys, id: Id)
    requires Ok(s) && Quiet(s, id) && Run(s, steps, s')
    ensures NotesOf(s'.store, id) == NotesOf(s.store, id)
    decreases |steps|
  {
    if steps != [] {
      StepKeepsOk(s, steps[0]);
      StepKeepsQuiet(s, steps[0], id);
      QuietAlertsStayQuiet(Next(s, steps[0]), steps[1..], s', id);
    }
  }

  lemma OneStep(s: Sys, st: Step)
    requires Enabled(s, st)
    ensures Reaches(s, Next(s, st))
  {
    assert Run(Next(s, st), [st][1..], Next(s, st));
    assert Run(s, [st], Next(s, st));
  }

  /** An alert that has had its event gets no further one in any continuation exactly when no check
    * in flight still holds it as fired. */
  lemma SecondCheckNotifiesIff(before: seq<Step>, s: Sys, id: Id)
    requires Run(START, before, s) && NotesOf(s.store, id) != []
    ensures (forall s' :: Reaches(s, s') ==> NotesOf(s'.store, id) == NotesOf(s.store, id))
       <==> (forall c :: !Holds(s, c, id))
  {
    RunKeepsOk(START, before, s);
    if c :| Holds(s, c, id) {
      assert CheckOk(s, c);
      CommitNotifies(s, c, 0, id);
      OneStep(s, Commit(c, 0));
    } else {
      forall s' | Reaches(s, s')
        ensures NotesOf(s'.store, id) == NotesOf(s.store, id)
      {
        var steps :| Run(s, steps, s');
        QuietAlertsStayQuiet(s, steps, s', id);
      }
    }
  }

  /** And a pending alert can be notified twice: two checks read it before either commits. */
  lemma OverlapNotifiesTwice(s: Sys, id: Id, prices: Prices, prices': Prices, c: Id, d: Id)
    returns (steps: seq<Step>, s': Sys)
    requires id in s.store.alerts && s.store.alerts[id].triggeredAt.None?
    requires Crosses(s.store.alerts[id], prices) && Crosses(s.store.alerts[id], prices')
    requires c !in s.checks && d !in s.checks && c != d
    ensures Run(s, steps, s') && |NotesOf(s'.store, id)| == |NotesOf(s.store, id)| + 2
  {
    steps := [Read(c, prices), Read(d, prices'), Commit(c, 0), Commit(d, 0)];
    var s1 := Next(s, steps[0]);
    var s2 := Next(s1, steps[1]);
    var s3 := Next(s2, steps[2]);
    s' := Next(s3, steps[3]);
    CommitNotifies(s2, c, 0, id);
    CommitNotifies(s3, d, 0, id);
    assert Run(s3, steps[3..], s');
    assert Run(s2, steps[2..], s');
    assert Run(s1, steps[1..], s');
  }

  // ---------- checks that do not overlap ----------

  /** A check reads only while no other is in flight. */
  predicate Alone(s: Sys, st: Step) {
    st.Read? ==> s.checks == map[]
  }

  ghost predicate AloneRun(s: Sys, steps: seq<Step>, s': Sys)
    decreases |steps|
  {
    if steps == [] then s' == s
    else Enabled(s, steps[0]) && Alone(s, steps[0]) && AloneRun(Next(s, steps[0]), steps[1..], s')
  }

  /** At most one check is in flight, and what it holds has had no event. */
  ghost predicate OneAtATime(s: Sys) {
    && (forall c, d :: c in s.checks && d in s.checks ==> c == d)
    && (forall c, id :: Holds(s, c, id) ==> NotesOf(s.store, id) == [])
    && (forall id :: |NotesOf(s.store, id)| <= 1)
  }

  lemma StepKeepsOneAtATime(s: Sys, st: Step)
    requires Ok(s) && OneAtATime(s) && Enabled(s, st) && Alone(s, st)
    ensures OneAtATime(Next(s, st))
  {
    var s' := Next(s, st);
    forall id
      ensures |NotesOf(s'.store, id)| <= 1
    {
      if st.Commit? {
        CommitNotifies(s, st.c, st.now, id);
        assert Holds(s, st.c, id) ==> NotesOf(s.store, id) == [];
      }
    }
    forall c, id | Holds(s', c, id)
      ensures NotesOf(s'.store, id) == []
    {
      assert AlertOk(s, id);
      if st.Read? && st.c == c {
        assert id in s.store.alerts && s.store.alerts[id].triggeredAt.None?;
      } else {
        assert Holds(s, c, id);
      }
    }
  }

  lemma {:induction false} AloneRunKeepsOneAtATime(s: Sys, steps: seq<Step>, s': Sys)
    requires Ok(s) && OneAtATime(s) && AloneRun(s, steps, s')
    ensures OneAtATime(s')
    decreases |steps|
  {
    if steps != [] {
      StepKeepsOk(s, steps[0]);
      StepKeepsOneAtATime(s, steps[0]);
      AloneRunKeepsOneAtATime(Next(s, steps[0]), steps[1..], s');
    }
  }

  /** As long as checks do not overlap every alert has at most one event, even if alerts are added
    * and deleted between a check's read and its commit. */
  lemma DisjointChecksNotifyOnce(steps: seq<Step>, s: Sys, id: Id)
    requires AloneRun(START, steps, s)
    ensures |NotesOf(s.store, id)| <= 1
  {
    AloneRunKeepsOneAtATime(START, steps, s);
  }

  /** A check that nothing comes between does what Alerts says of one. */
  lemma AloneItIsChecked(s: Sys, c: Id, prices: Prices, now: nat)
    requires c !in s.checks
    ensures var s1 := Next(s, Read(c, prices));
            Enabled(s1, Commit(c, now)) && Next(s1, Commit(c, now)) == s.(store := Checked(s.store, prices, now))
  {
    assert s.checks[c := Reading(Fired(s.store.alerts, prices), prices)] - {c} == s.checks;
  }
}
