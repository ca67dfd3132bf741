/** Delivery ends, and no event is sent more often than publishing and interruptions account for.
  *
  * Every copy has a distance from rest, its handler's included if the handler has lost it. Only a
  * publish and the return of a delivered message to the main queue add to it.
  */
module DeliveryLadder {
  import opened Wrappers
  import opened Delivery
  import opened Numbers
  import opened Sums

  /** The steps that move a copy or a handler on: all but the producer's, Redis's, and those that
    * return a delivered message to the main queue. */
  predicate MovesOn(st: Step) {
    || st.Deliver? || st.Expire? || st.Check? || st.Send? || st.WriteMark? || st.Ack? || st.Bury?
    || (st.Park? && st.answer)
    || (ByStray(st) && (st.StrayRequeue? ==> st.hit.None?))
  }

  predicate Concerns(event: Option<Id>, e: Id) {
    event.None? || event.value == e
  }

  /** The delivered copies of the event. */
  function InHand(s: Sys, event: Option<Id>): set<CopyId> {
    set c | c in s.copies && Working(s, c) && Concerns(event, s.copies[c].event)
  }

  function One(s: Sys, c: CopyId, event: Option<Id>): nat
    requires c in s.copies
  {
    if Concerns(event, s.copies[c].event) then 1 else 0
  }

  /** How many messages for the event a step adds to the main queue: a publish that is held, and each
    * delivered message that returns, because its connection broke, its process stopped, or its retry
    * could not be published. None stands for all events. */
  function Gains(s: Sys, st: Step, event: Option<Id>): nat
    requires Enabled(s, st)
  {
    match st
    case Publish(id, _, _, held) => if held && Concerns(event, id) then 1 else 0
    case Redeliver(c, _) => One(s, c, event)
    case Park(c, _, answer, _) => if answer then 0 else One(s, c, event)
    case StrayRequeue(_, _, _, hit) => if hit.Some? then One(s, hit.value, event) else 0
    case Stop => |InHand(s, event)|
    case _ => 0
  }

  ghost function RunGains(s: Sys, steps: seq<Step>, event: Option<Id>): nat
    decreases |steps|
  {
    if steps == [] || !Enabled(s, steps[0]) then 0
    else Gains(s, steps[0], event) + RunGains(Next(s, steps[0]), steps[1..], event)
  }

  // ---------- totals ----------

  function AsCopy(m: Stray): Copy {
    Copy(m.event, m.count, m.place)
  }

  ghost function OnStray(w: Copy -> int): Stray -> int {
    (m: Stray) => w(AsCopy(m))
  }

  /** The weight of all copies and of all handlers that have lost theirs. */
  ghost function Total(s: Sys, w: Copy -> int): int {
    Sum(s.copies, w) + Sum(s.strays, OnStray(w))
  }

  /** How far a copy is from rest: by the retries it has left, then by its place. */
  function Distance(m: Copy): int {
    var ladder := 10 * (4 - m.count);
    match m.place
    case Retry(_) => ladder + 9
    case Main => ladder + 8
    case Checking => ladder + 7
    case Sending => ladder + 6
    case Failed => ladder + 5
    case Sent => 3
    case Marked => 2
    case Duplicate => 2
    case Parked => 1
    case Dead => 0
    case Gone => 0
  }

  /** How often a copy may still be sent if it is not returned. */
  function Left(m: Copy): int {
    if m.place.Main? || m.place.Retry? || m.place.Checking? || m.place.Sending? then 4 - m.count
    else if m.place.Failed? then 3 - m.count
    else 0
  }

  ghost function SendsLeft(event: Id): Copy -> int {
    (m: Copy) => if m.event == event then Left(m) else 0
  }

  function Moved(s: Sys, c: CopyId, p: Place, w: Copy -> int): int
    requires c in s.copies
  {
    w(s.copies[c].(place := p)) - w(s.copies[c])
  }

  function StrayMoved(s: Sys, h: StrayId, p: Place, w: Copy -> int): int
    requires h in s.strays
  {
    w(AsCopy(s.strays[h].(place := p))) - w(AsCopy(s.strays[h]))
  }

  function Retried(held: bool, event: Id, count: nat, w: Copy -> int): int {
    if held then w(Copy(event, count + 1, Retry(count + 1))) else 0
  }

  /** The stray's weight goes; the delivery it settles moves, and that one's handler becomes a stray. */
  function SettleChange(s: Sys, h: StrayId, hit: Option<CopyId>, p: Place, w: Copy -> int): int
    requires h in s.strays && Hittable(s, hit)
  {
    (if hit.Some? then Moved(s, hit.value, p, w) + w(s.copies[hit.value]) else 0) - w(AsCopy(s.strays[h]))
  }

  /** What a step does to a total. */
  function Change(s: Sys, st: Step, w: Copy -> int): int
    requires Enabled(s, st)
  {
    match st
    case Publish(id, _, _, held) => if held then w(Copy(id, 0, Main)) else 0
    case Deliver(c) => Moved(s, c, Checking, w)
    case Expire(c) => Moved(s, c, Main, w)
    case Redeliver(c, stray) => Moved(s, c, Main, w) + if stray.Some? then w(s.copies[c]) else 0
    case Check(c, found) => Moved(s, c, if found then Duplicate else Sending, w)
    case Send(c, ok) => Moved(s, c, if ok then Sent else Failed, w)
    case WriteMark(c, _) => Moved(s, c, Marked, w)
    case Ack(c) => Moved(s, c, Gone, w)
    case Park(c, _, answer, held) =>
      Moved(s, c, if answer then Parked else Main, w) + Retried(held, s.copies[c].event, s.copies[c].count, w)
    case Bury(c) => Moved(s, c, Dead, w)
    case StrayFind(h) => StrayMoved(s, h, Duplicate, w)
    case StraySend(h, ok) => StrayMoved(s, h, if ok then Sent else Failed, w)
    case StrayMark(h, _) => StrayMoved(s, h, Marked, w)
    case StrayPark(h, _, held) =>
      StrayMoved(s, h, Parked, w) + Retried(held, s.strays[h].event, s.strays[h].count, w)
    case StrayAck(h, hit) => SettleChange(s, h, hit, Gone, w)
    case StrayRequeue(h, _, held, hit) =>
      SettleChange(s, h, hit, Main, w) + Retried(held, s.strays[h].event, s.strays[h].count, w)
    case StrayBury(h, hit) => SettleChange(s, h, hit, Dead, w)
    case _ => 0
  }

  lemma PutChanges(s: Sys, c: CopyId, p: Place, w: Copy -> int)
    requires c in s.copies
    ensures Total(Put(s, c, p), w) == Total(s, w) + Moved(s, c, p, w)
  {
    SumUpdate(s.copies, w, c, s.copies[c].(place := p));
  }

  lemma AddedChanges(s: Sys, held: bool, copy: CopyId, m: Copy, w: Copy -> int)
    requires copy !in s.copies
    ensures Total(s.(copies := Added(s.copies, held, copy, m)), w) == Total(s, w) + if held then w(m) else 0
  {
    SumUpdate(s.copies, w, copy, m);
  }

  lemma StrayPutChanges(s: Sys, h: StrayId, m: Stray, w: Copy -> int)
    ensures Total(s.(strays := s.strays[h := m]), w)
         == Total(s, w) + w(AsCopy(m)) - (if h in s.strays then w(AsCopy(s.strays[h])) else 0)
  {
    SumUpdate(s.strays, OnStray(w), h, m);
  }

  lemma SettleChanges(s: Sys, h: StrayId, hit: Option<CopyId>, p: Place, w: Copy -> int)
    requires h in s.strays && Hittable(s, hit)
    ensures Total(Settle(s, h, hit, p), w) == Total(s, w) + SettleChange(s, h, hit, p, w)
  {
    match hit
    case None => SumTakeOut(s.strays, OnStray(w), h);
    case Some(c) =>
      var m := s.copies[c];
      PutChanges(s, c, p, w);
      StrayPutChanges(Put(s, c, p), h, Stray(m.event, m.count, m.place), w);
  }

  /** Steps of the producer, the broker and Redis. */
  lemma OuterChanges(s: Sys, st: Step, w: Copy -> int)
    requires Enabled(s, st) && !ByStray(st) && !st.Stop? && !st.Park?
    ensures Total(Next(s, st), w) == Total(s, w) + Change(s, st, w)
  {
    match st
    case Publish(id, copy, _, held) => AddedChanges(s, held, copy, Copy(id, 0, Main), w);
    case Redeliver(c, stray) =>
      PutChanges(s, c, Main, w);
      if stray.Some? {
        var m := s.copies[c];
        StrayPutChanges(Put(s, c, Main), stray.value, Stray(m.event, m.count, m.place), w);
      }
    case Deliver(c) => PutChanges(s, c, Checking, w);
    case Expire(c) => PutChanges(s, c, Main, w);
    case Check(c, found) => PutChanges(s, c, if found then Duplicate else Sending, w);
    case Send(c, ok) => PutChanges(s, c, if ok then Sent else Failed, w);
    case WriteMark(c, _) => PutChanges(s, c, Marked, w);
    case Ack(c) => PutChanges(s, c, Gone, w);
    case Bury(c) => PutChanges(s, c, Dead, w);
    case _ =>
  }

  lemma ParkChanges(s: Sys, st: Step, w: Copy -> int)
    requires Enabled(s, st) && st.Park?
    ensures Total(Next(s, st), w) == Total(s, w) + Change(s, st, w)
  {
    var m, p := s.copies[st.c], if st.answer then Parked else Main;
    PutChanges(s, st.c, p, w);
    AddedChanges(Put(s, st.c, p), st.held, st.copy, Copy(m.event, m.count + 1, Retry(m.count + 1)), w);
  }

  lemma StrayChanges(s: Sys, st: Step, w: Copy -> int)
    requires Enabled(s, st) && ByStray(st)
    ensures Total(Next(s, st), w) == Total(s, w) + Change(s, st, w)
  {
    var m := s.strays[st.h];
    match st
    case StrayFind(h) => StrayPutChanges(s, h, m.(place := Duplicate), w);
    case StraySend(h, ok) => StrayPutChanges(s, h, m.(place := if ok then Sent else Failed), w);
    case StrayMark(h, _) => StrayPutChanges(s, h, m.(place := Marked), w);
    case StrayPark(h, copy, held) =>
      StrayPutChanges(s, h, m.(place := Parked), w);
      AddedChanges(MoveStray(s, h, Parked), held, copy, Copy(m.event, m.count + 1, Retry(m.count + 1)), w);
    case StrayAck(h, hit) => SettleChanges(s, h, hit, Gone, w);
    case StrayRequeue(h, copy, held, hit) =>
      SettleChanges(s, h, hit, Main, w);
      AddedChanges(Settle(s, h, hit, Main), held, copy, Copy(m.event, m.count + 1, Retry(m.count + 1)), w);
    case StrayBury(h, hit) => SettleChanges(s, h, hit, Dead, w);
  }

  lemma TotalChanges(s: Sys, st: Step, w: Copy -> int)
    requires Enabled(s, st) && !st.Stop?
    ensures Total(Next(s, st), w) == Total(s, w) + Change(s, st, w)
  {
    if ByStray(st) {
      StrayChanges(s, st, w);
    } else if st.Park? {
      ParkChanges(s, st, w);
    } else {
      OuterChanges(s, st, w);
    }
  }

  /** Returning a copy to the main queue adds at most k to its weight, and only if it concerns event. */
  ghost predicate ReturnsFor(m: Copy, w: Copy -> int, k: nat, event: Option<Id>) {
    w(Returned(m)) <= w(m) + if InHandler(m.place) && Concerns(event, m.event) then k else 0
  }

  function ReturnedAll(copies: map<CopyId, Copy>): map<CopyId, Copy> {
    map c | c in copies :: Returned(copies[c])
  }

  function Returning(copies: map<CopyId, Copy>, event: Option<Id>): set<CopyId> {
    set c | c in copies && InHandler(copies[c].place) && Concerns(event, copies[c].event)
  }

  lemma ReturningWithout(copies: map<CopyId, Copy>, event: Option<Id>, c: CopyId, k: nat)
    requires c in copies
    ensures k * |Returning(copies, event)|
         == k * |Returning(copies - {c}, event)|
            + if InHandler(copies[c].place) && Concerns(event, copies[c].event) then k else 0
  {
    var all, others := Returning(copies, event), Returning(copies - {c}, event);
    assert others == all - {c};
    if c in all {
      assert |all| == |others| + 1;
    } else {
      assert all == others;
    }
  }

  lemma ReturnedWithout(copies: map<CopyId, Copy>, w: Copy -> int, c: CopyId)
    requires c in copies
    ensures Sum(ReturnedAll(copies), w) == w(Returned(copies[c])) + Sum(ReturnedAll(copies - {c}), w)
  {
    SumTakeOut(ReturnedAll(copies), w, c);
    assert ReturnedAll(copies) - {c} == ReturnedAll(copies - {c});
  }

  lemma ReturnedOneMore(copies: map<CopyId, Copy>, w: Copy -> int, k: nat, event: Option<Id>, c: CopyId)
    requires c in copies && ReturnsFor(copies[c], w, k, event)
    requires Sum(ReturnedAll(copies - {c}), w) <= Sum(copies - {c}, w) + k * |Returning(copies - {c}, event)|
    ensures Sum(ReturnedAll(copies), w) <= Sum(copies, w) + k * |Returning(copies, event)|
  {
    SumTakeOut(copies, w, c);
    ReturnedWithout(copies, w, c);
    ReturningWithout(copies, event, c, k);
  }

  lemma {:induction false} ReturnedSum(copies: map<CopyId, Copy>, w: Copy -> int, k: nat, event: Option<Id>)
    requires forall c :: c in copies ==> ReturnsFor(copies[c], w, k, event)
    ensures Sum(ReturnedAll(copies), w) <= Sum(copies, w) + k * |Returning(copies, event)|
    decreases |copies|
  {
    if copies == map[] {
      assert ReturnedAll(copies) == map[];
    } else {
      var c :| c in copies;
      forall d | d in copies - {c}
        ensures ReturnsFor((copies - {c})[d], w, k, event)
      {
        assert ReturnsFor(copies[d], w, k, event);
      }
      ReturnedSum(copies - {c}, w, k, event);
      ReturnedOneMore(copies, w, k, event, c);
    }
  }

  /** A stop drops the handlers that have lost their delivery and returns the deliveries of the rest. */
  lemma StopChanges(s: Sys, w: Copy -> int, k: nat, event: Option<Id>)
    requires forall c :: c in s.copies ==> ReturnsFor(s.copies[c], w, k, event)
    requires forall h :: h in s.strays ==> OnStray(w)(s.strays[h]) >= 0
    ensures Total(Next(s, Stop), w) <= Total(s, w) + k * Gains(s, Stop, event)
  {
    ReturnedSum(s.copies, w, k, event);
    SumIsNonNegative(s.strays, OnStray(w));
    assert InHand(s, event) == Returning(s.copies, event);
    assert Next(s, Stop).copies == ReturnedAll(s.copies);
    assert Sum(Next(s, Stop).strays, OnStray(w)) == 0;
  }

  // ---------- one step ----------

  /** The distance grows by at most 48 for each message that comes to the main queue, and shrinks in
    * each step that moves a copy or a handler on. */
  lemma DistanceChanges(s: Sys, st: Step)
    requires Orderly(s) && Enabled(s, st) && !ByStray(st) && !st.Stop?
    ensures Change(s, st, Distance) + (if MovesOn(st) then 1 else 0) <= 48 * Gains(s, st, None)
  {
    if st.Expire? || st.Redeliver? || st.Check? || st.Send? || st.WriteMark? || st.Ack? || st.Park? || st.Bury? {
      assert CopyOrderly(s, s.copies[st.c]);
    }
  }

  lemma StrayDistanceChanges(s: Sys, st: Step)
    requires Orderly(s) && Enabled(s, st) && ByStray(st)
    ensures Change(s, st, Distance) + (if MovesOn(st) then 1 else 0) <= 48 * Gains(s, st, None)
  {
    assert StrayOrderly(s, s.strays[st.h]);
    if HitOf(st).Some? {
      assert CopyOrderly(s, s.copies[HitOf(st).value]);
    }
  }

  lemma StopReturnsDistance(s: Sys)
    requires Orderly(s)
    ensures Total(Next(s, Stop), Distance) <= Total(s, Distance) + 48 * Gains(s, Stop, None)
  {
    forall c | c in s.copies
      ensures ReturnsFor(s.copies[c], Distance, 48, None)
    {
      assert CopyOrderly(s, s.copies[c]);
    }
    forall h | h in s.strays
      ensures OnStray(Distance)(s.strays[h]) >= 0
    {
      assert StrayOrderly(s, s.strays[h]);
      assert Distance(AsCopy(s.strays[h])) >= 0;
    }
    StopChanges(s, Distance, 48, None);
  }

  lemma StepApproachesRest(s: Sys, st: Step)
    requires Orderly(s) && Enabled(s, st)
    ensures Total(Next(s, st), Distance) + (if MovesOn(st) then 1 else 0)
         <= Total(s, Distance) + 48 * Gains(s, st, None)
  {
    if st.Stop? {
      StopReturnsDistance(s);
    } else {
      TotalChanges(s, st, Distance);
      if ByStray(st) {
        StrayDistanceChanges(s, st);
      } else {
        DistanceChanges(s, st);
      }
    }
  }

  function Attempts(s: Sys, st: Step, event: Id): nat
    requires Enabled(s, st)
  {
    match st
    case Send(c, _) => if s.copies[c].event == event then 1 else 0
    case StraySend(h, _) => if s.strays[h].event == event then 1 else 0
    case _ => 0
  }

  lemma AttemptsAreCounted(s: Sys, st: Step, event: Id)
    requires Enabled(s, st)
    ensures Next(s, st).attempts[event] == s.attempts[event] + Attempts(s, st, event)
  {
  }

  /** The sends left grow by at most four for each message of the event that comes to the main queue,
    * and each send uses one up. */
  lemma SendsLeftChange(s: Sys, st: Step, event: Id)
    requires Orderly(s) && Enabled(s, st) && !ByStray(st) && !st.Stop?
    ensures Change(s, st, SendsLeft(event)) + Attempts(s, st, event) <= 4 * Gains(s, st, Some(event))
  {
    if st.Expire? || st.Redeliver? || st.Check? || st.Send? || st.WriteMark? || st.Ack? || st.Park? || st.Bury? {
      assert CopyOrderly(s, s.copies[st.c]);
    }
  }

  lemma StraySendsLeftChange(s: Sys, st: Step, event: Id)
    requires Orderly(s) && Enabled(s, st) && ByStray(st)
    ensures Change(s, st, SendsLeft(event)) + Attempts(s, st, event) <= 4 * Gains(s, st, Some(event))
  {
    assert StrayOrderly(s, s.strays[st.h]);
    if HitOf(st).Some? {
      assert CopyOrderly(s, s.copies[HitOf(st).value]);
    }
  }

  lemma StopReturnsSends(s: Sys, event: Id)
    requires Orderly(s)
    ensures Total(Next(s, Stop), SendsLeft(event)) <= Total(s, SendsLeft(event)) + 4 * Gains(s, Stop, Some(event))
  {
    forall c | c in s.copies
      ensures ReturnsFor(s.copies[c], SendsLeft(event), 4, Some(event))
    {
      assert CopyOrderly(s, s.copies[c]);
    }
    forall h | h in s.strays
      ensures OnStray(SendsLeft(event))(s.strays[h]) >= 0
    {
      assert StrayOrderly(s, s.strays[h]);
      assert Left(AsCopy(s.strays[h])) >= 0;
    }
    StopChanges(s, SendsLeft(event), 4, Some(event));
  }

  lemma StepUsesSends(s: Sys, st: Step, event: Id)
    requires Orderly(s) && Enabled(s, st)
    ensures Next(s, st).attempts[event] + Total(Next(s, st), SendsLeft(event))
         <= s.attempts[event] + Total(s, SendsLeft(event)) + 4 * Gains(s, st, Some(event))
  {
    AttemptsAreCounted(s, st, event);
    if st.Stop? {
      StopReturnsSends(s, event);
    } else {
      TotalChanges(s, st, SendsLeft(event));
      if ByStray(st) {
        StraySendsLeftChange(s, st, event);
      } else {
        SendsLeftChange(s, st, event);
      }
    }
  }

  // ---------- whole runs ----------

  function Moves(steps: seq<Step>): nat {
    if steps == [] then 0 else (if MovesOn(steps[0]) then 1 else 0) + Moves(steps[1..])
  }

  /** In every run, the moves made and the way left to rest are at most the way there was and 48 for
    * each message that came to the main queue. */
  lemma {:induction false} MovingOnApproachesRest(s: Sys, steps: seq<Step>, s': Sys)
    requires Orderly(s) && Run(s, steps, s')
    ensures Total(s', Distance) + Moves(steps) <= Total(s, Distance) + 48 * RunGains(s, steps, None)
    decreases |steps|
  {
    if steps != [] {
      StepApproachesRest(s, steps[0]);
      StepKeepsOrderly(s, steps[0]);
      MovingOnApproachesRest(Next(s, steps[0]), steps[1..], s');
    }
  }

  lemma {:induction false} RunUsesSends(s: Sys, steps: seq<Step>, s': Sys, event: Id)
    requires Orderly(s) && Run(s, steps, s')
    ensures s'.attempts[event] + Total(s', SendsLeft(event))
         <= s.attempts[event] + Total(s, SendsLeft(event)) + 4 * RunGains(s, steps, Some(event))
    decreases |steps|
  {
    if steps != [] {
      StepUsesSends(s, steps[0], event);
      StepKeepsOrderly(s, steps[0]);
      RunUsesSends(Next(s, steps[0]), steps[1..], s', event);
    }
  }

  lemma TotalsAreNonNegative(s: Sys, event: Id)
    requires Orderly(s)
    ensures Total(s, Distance) >= 0 && Total(s, SendsLeft(event)) >= 0
  {
    forall c | c in s.copies
      ensures Distance(s.copies[c]) >= 0 && SendsLeft(event)(s.copies[c]) >= 0
    {
      assert CopyOrderly(s, s.copies[c]);
    }
    forall h | h in s.strays
      ensures OnStray(Distance)(s.strays[h]) >= 0 && OnStray(SendsLeft(event))(s.strays[h]) >= 0
    {
      assert StrayOrderly(s, s.strays[h]);
      assert Distance(AsCopy(s.strays[h])) >= 0 && Left(AsCopy(s.strays[h])) >= 0;
    }
    SumIsNonNegative(s.copies, Distance);
    SumIsNonNegative(s.copies, SendsLeft(event));
    SumIsNonNegative(s.strays, OnStray(Distance));
    SumIsNonNegative(s.strays, OnStray(SendsLeft(event)));
  }

  /** Every copy is acknowledged or in the dead queue, and no handler is left. */
  ghost predicate AtRest(s: Sys) {
    s.strays == map[] && forall c :: c in s.copies ==> s.copies[c].place.Gone? || s.copies[c].place.Dead?
  }

  ghost predicate CanMoveOn(s: Sys) {
    exists st :: MovesOn(st) && Enabled(s, st)
  }

  lemma NoMoveAtRest(s: Sys, st: Step)
    requires AtRest(s) && Enabled(s, st)
    ensures !MovesOn(st)
  {
  }

  lemma CopyCanMoveOn(s: Sys, c: CopyId) returns (st: Step)
    requires Orderly(s) && c in s.copies && !s.copies[c].place.Gone? && !s.copies[c].place.Dead?
    ensures MovesOn(st) && Enabled(s, st)
  {
    var above := AboveAll(s.copies.Keys);
    match s.copies[c].place
    case Main => st := Deliver(c);
    case Retry(_) => st := Expire(c);
    case Checking => st := Check(c, false);
    case Sending => st := Send(c, true);
    case Sent => st := WriteMark(c, true);
    case Failed => st := if s.copies[c].count < MAX_RETRIES then Park(c, above, true, true) else Bury(c);
    case _ => st := Ack(c);
  }

  lemma StrayCanMoveOn(s: Sys, h: StrayId) returns (st: Step)
    requires Orderly(s) && h in s.strays
    ensures MovesOn(st) && Enabled(s, st)
  {
    assert StrayOrderly(s, s.strays[h]);
    var above := AboveAll(s.copies.Keys);
    match s.strays[h].place
    case Checking => st := StraySend(h, true);
    case Sending => st := StraySend(h, true);
    case Sent => st := StrayMark(h, true);
    case Failed => st := if s.strays[h].count < MAX_RETRIES then StrayPark(h, above, true) else StrayBury(h, None);
    case _ => st := StrayAck(h, None);
  }

  lemma CanMoveOnIff(s: Sys)
    requires Orderly(s)
    ensures CanMoveOn(s) <==> !AtRest(s)
  {
    if AtRest(s) {
      forall st | Enabled(s, st)
        ensures !MovesOn(st)
      {
        NoMoveAtRest(s, st);
      }
    } else if h :| h in s.strays {
      var st := StrayCanMoveOn(s, h);
    } else {
      assert s.strays == map[];
      var c :| c in s.copies && !s.copies[c].place.Gone? && !s.copies[c].place.Dead?;
      var st := CopyCanMoveOn(s, c);
    }
  }

  /** In every run from a reachable state, of any steps, the number of moves is bounded by the way to
    * rest at its start and the messages that came to the main queue meanwhile; and as long as some
    * copy is not acknowledged or dead, or some handler is left, a move is possible. */
  lemma LadderTerminates(before: seq<Step>, s: Sys, steps: seq<Step>, s': Sys)
    requires Run(EMPTY, before, s) && Run(s, steps, s')
    ensures Moves(steps) <= Total(s, Distance) + 48 * RunGains(s, steps, None)
    ensures CanMoveOn(s') <==> !AtRest(s')
  {
    RunKeepsOrderly(EMPTY, before, s);
    RunKeepsOrderly(s, steps, s');
    MovingOnApproachesRest(s, steps, s');
    TotalsAreNonNegative(s', 0);
    CanMoveOnIff(s');
  }

  /** In every run, an event is sent at most four times for each of its messages that came to the main
    * queue: held publishes, redeliveries, and retries that could not be published. */
  lemma SendsAreBounded(steps: seq<Step>, s: Sys, event: Id)
    requires Run(EMPTY, steps, s)
    ensures s.attempts[event] <= 4 * RunGains(EMPTY, steps, Some(event))
  {
    RunKeepsOrderly(EMPTY, steps, s);
    RunUsesSends(EMPTY, steps, s, event);
    TotalsAreNonNegative(s, event);
  }

  lemma {:induction false} SumIsZero<K, V>(m: map<K, V>, w: V -> int)
    requires forall k :: k in m ==> w(m[k]) == 0
    ensures Sum(m, w) == 0
    decreases |m|
  {
    if m != map[] {
      var k :| k in m;
      SumTakeOut(m, w, k);
      SumIsZero(m - {k}, w);
    }
  }

  /** The message c is fresh on the main queue, and no other of its event is underway. */
  ghost predicate OnlyCopy(s: Sys, c: CopyId) {
    && At(s, c, Main) && s.copies[c].count == 0
    && (forall d :: d in s.copies && d != c && s.copies[d].event == s.copies[c].event ==>
                      s.copies[d].place.Gone? || s.copies[d].place.Dead?)
    && forall h :: h in s.strays ==> s.strays[h].event != s.copies[c].event
  }

  lemma OnlyCopyHasFourSends(s: Sys, c: CopyId)
    requires OnlyCopy(s, c)
    ensures Total(s, SendsLeft(s.copies[c].event)) == 4
  {
    var w := SendsLeft(s.copies[c].event);
    SumTakeOut(s.copies, w, c);
    SumIsZero(s.copies - {c}, w);
    forall h | h in s.strays
      ensures OnStray(w)(s.strays[h]) == 0
    {
      assert AsCopy(s.strays[h]).event != s.copies[c].event;
    }
    SumIsZero(s.strays, OnStray(w));
  }

  /** Whatever else is done meanwhile, an event whose one message is fresh on the main queue is sent at
    * most four more times, and four for each message of it that comes to the main queue later. */
  lemma OneCopyIsSentAtMostFourTimes(before: seq<Step>, s: Sys, c: CopyId, steps: seq<Step>, s': Sys)
    requires Run(EMPTY, before, s) && Run(s, steps, s') && OnlyCopy(s, c)
    ensures var event := s.copies[c].event;
            s'.attempts[event] <= s.attempts[event] + 4 + 4 * RunGains(s, steps, Some(event))
  {
    var event := s.copies[c].event;
    RunKeepsOrderly(EMPTY, before, s);
    RunKeepsOrderly(s, steps, s');
    RunUsesSends(s, steps, s', event);
    TotalsAreNonNegative(s', event);
    OnlyCopyHasFourSends(s, c);
  }

  // ---------- four is the least bound ----------

  lemma {:induction false} GainsJoin(a: Sys, before: seq<Step>, b: Sys, after: seq<Step>, event: Option<Id>)
    requires Run(a, before, b)
    ensures RunGains(a, before + after, event) == RunGains(a, before, event) + RunGains(b, after, event)
    decreases |before|
  {
    if before == [] {
      assert before + after == after;
    } else {
      GainsJoin(Next(a, before[0]), before[1..], b, after, event);
      assert (before + after)[1..] == before[1..] + after;
    }
  }

  lemma Prepend(s: Sys, st: Step, steps: seq<Step>, s': Sys, event: Id)
    requires Enabled(s, st) && Run(Next(s, st), steps, s')
    ensures Run(s, [st] + steps, s')
    ensures RunGains(s, [st] + steps, Some(event))
         == Gains(s, st, Some(event)) + RunGains(Next(s, st), steps, Some(event))
  {
    assert ([st] + steps)[1..] == steps;
  }

  function Looking(c: CopyId): seq<Step> {
    [Deliver(c), Check(c, false)]
  }

  lemma LookingIsARun(s: Sys, c: CopyId)
    requires At(s, c, Main)
    ensures Run(s, Looking(c), Put(s, c, Sending))
    ensures RunGains(s, Looking(c), Some(s.copies[c].event)) == 0
  {
    var event := s.copies[c].event;
    var s1 := Next(s, Deliver(c));
    var s2 := Next(s1, Check(c, false));
    assert s2 == Put(s, c, Sending) by {
      assert s2.copies == Put(s, c, Sending).copies;
    }
    Prepend(s1, Check(c, false), [], s2, event);
    Prepend(s, Deliver(c), [Check(c, false)], s2, event);
    assert Looking(c) == [Deliver(c)] + [Check(c, false)];
  }

  /** The state after the message c was delivered and its send failed. */
  function AfterFailingSend(s: Sys, c: CopyId): Sys
    requires c in s.copies
  {
    Put(s, c, Failed).(attempts := s.attempts + multiset{s.copies[c].event})
  }

  lemma FailingSendIsARun(s: Sys, c: CopyId)
    requires At(s, c, Main)
    ensures Run(s, Looking(c) + [Send(c, false)], AfterFailingSend(s, c))
    ensures RunGains(s, Looking(c) + [Send(c, false)], Some(s.copies[c].event)) == 0
  {
    var event := s.copies[c].event;
    var s2 := Put(s, c, Sending);
    var s3 := Next(s2, Send(c, false));
    LookingIsARun(s, c);
    assert s3 == AfterFailingSend(s, c) by {
      assert s3.copies == Put(s, c, Failed).copies;
    }
    Prepend(s2, Send(c, false), [], s3, event);
    RunJoins(s, Looking(c), s2, [Send(c, false)], s3);
    GainsJoin(s, Looking(c), s2, [Send(c, false)], Some(event));
  }

  function Retrying(c: CopyId, copy: CopyId): seq<Step> {
    [Park(c, copy, true, true), Expire(copy)]
  }

  function AfterRetrying(s: Sys, c: CopyId, copy: CopyId): Sys
    requires c in s.copies
  {
    var parked := Put(s, c, Parked);
    parked.(copies := parked.copies[copy := Copy(s.copies[c].event, s.copies[c].count + 1, Main)])
  }

  lemma RetryingIsARun(s: Sys, c: CopyId, copy: CopyId)
    requires At(s, c, Failed) && s.copies[c].count < MAX_RETRIES && copy !in s.copies
    ensures Run(s, Retrying(c, copy), AfterRetrying(s, c, copy))
    ensures RunGains(s, Retrying(c, copy), Some(s.copies[c].event)) == 0
  {
    var event := s.copies[c].event;
    var s1 := Next(s, Park(c, copy, true, true));
    var s2 := Next(s1, Expire(copy));
    assert s2.copies == AfterRetrying(s, c, copy).copies;
    Prepend(s1, Expire(copy), [], s2, event);
    Prepend(s, Park(c, copy, true, true), [Expire(copy)], s2, event);
    assert Retrying(c, copy) == [Park(c, copy, true, true)] + [Expire(copy)];
  }

  /** A message on the main queue can be sent as often as it has sends left, without another coming. */
  lemma {:induction false} TheLadderIsUsedUp(s: Sys, c: CopyId) returns (steps: seq<Step>, s': Sys)
    requires At(s, c, Main) && s.copies[c].count <= MAX_RETRIES
    ensures var event := s.copies[c].event;
            && Run(s, steps, s') && RunGains(s, steps, Some(event)) == 0
            && s'.attempts[event] == s.attempts[event] + 4 - s.copies[c].count
    decreases 4 - s.copies[c].count
  {
    var event := s.copies[c].event;
    steps, s' := Looking(c) + [Send(c, false)], AfterFailingSend(s, c);
    FailingSendIsARun(s, c);
    if s.copies[c].count < MAX_RETRIES {
      var failed := s';
      var copy := AboveAll(failed.copies.Keys);
      var retried := AfterRetrying(failed, c, copy);
      RetryingIsARun(failed, c, copy);
      var rest, last := TheLadderIsUsedUp(retried, copy);
      RunJoins(failed, Retrying(c, copy), retried, rest, last);
      GainsJoin(failed, Retrying(c, copy), retried, rest, Some(event));
      RunJoins(s, steps, failed, Retrying(c, copy) + rest, last);
      GainsJoin(s, steps, failed, Retrying(c, copy) + rest, Some(event));
      steps, s' := steps + (Retrying(c, copy) + rest), last;
    }
  }
}
