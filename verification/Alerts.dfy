/** One-shot price alerts: backend/src/realtime/alert-check.service.ts with the trigger rule of
  * backend/src/alerts/is-triggered.ts and the queries of backend/src/alerts/alerts.service.ts.
  */
module Alerts {
  import opened Wrappers

  type Id = nat

  datatype Direction = Above | Below

  datatype Alert = Alert(user: Id, symbol: string, direction: Direction, target: real, triggeredAt: Option<nat>)

  /** The event for the user; its text shows the alert and the price. */
  datatype Note = Note(user: Id, alert: Id, symbol: string, direction: Direction, target: real, price: real)

  type Prices = map<string, real>

  /** alerts is the table; notes are the outbox events, by the alert they carry as their tag, oldest
    * first. */
  datatype Store = Store(alerts: map<Id, Alert>, notes: map<Id, seq<Note>>)

  predicate IsTriggered(direction: Direction, target: real, price: real) {
    if direction.Above? then price >= target else price <= target
  }

  predicate Crosses(a: Alert, prices: Prices) {
    a.symbol in prices && IsTriggered(a.direction, a.target, prices[a.symbol])
  }

  function Past(notes: map<Id, seq<Note>>, id: Id): seq<Note> {
    if id in notes then notes[id] else []
  }

  function NotesOf(s: Store, id: Id): seq<Note> {
    Past(s.notes, id)
  }

  function NoteFor(id: Id, a: Alert, prices: Prices): Note
    requires a.symbol in prices
  {
    Note(a.user, id, a.symbol, a.direction, a.target, prices[a.symbol])
  }

  /** The pending alerts that the prices cross, as they were read. */
  function Fired(alerts: map<Id, Alert>, prices: Prices): map<Id, Alert> {
    map id | id in alerts && alerts[id].triggeredAt.None? && Crosses(alerts[id], prices) :: alerts[id]
  }

  /** The events after one more for each fired alert. */
  function Notified(notes: map<Id, seq<Note>>, fired: map<Id, Alert>, prices: Prices): map<Id, seq<Note>>
    requires forall id :: id in fired ==> fired[id].symbol in prices
  {
    map id | id in notes.Keys + fired.Keys ::
      if id !in fired then notes[id] else Past(notes, id) + [NoteFor(id, fired[id], prices)]
  }

  /** The committed transaction of a check that found fired: those alerts still there are marked,
    * marked before or not, and each gets its event, there or not. */
  function Settle(s: Store, fired: map<Id, Alert>, prices: Prices, now: nat): Store
    requires forall id :: id in fired ==> fired[id].symbol in prices
  {
    Store(
      map id | id in s.alerts :: if id in fired then s.alerts[id].(triggeredAt := Some(now)) else s.alerts[id],
      Notified(s.notes, fired, prices))
  }

  /** A check that nothing comes between. */
  function Checked(s: Store, prices: Prices, now: nat): Store {
    Settle(s, Fired(s.alerts, prices), prices, now)
  }

  // ---------- the service ----------

  /** The last price of a symbol in the list counts. */
  function PricesOf(assets: seq<(string, real)>): Prices {
    if assets == [] then map[]
    else PricesOf(assets[..|assets| - 1])[assets[|assets| - 1].0 := assets[|assets| - 1].1]
  }

  /** The price is the one a symbol has where it occurs last. */
  lemma {:induction false} LastPriceCounts(assets: seq<(string, real)>, i: nat)
    requires OccursLast(assets, i)
    ensures assets[i].0 in PricesOf(assets) && PricesOf(assets)[assets[i].0] == assets[i].1
    decreases |assets|
  {
    var n := |assets| - 1;
    if i < n {
      LastPriceCounts(assets[..n], i);
    }
  }

  lemma {:induction false} PricesOccur(assets: seq<(string, real)>, symbol: string) returns (i: nat)
    requires symbol in PricesOf(assets)
    ensures OccursLast(assets, i) && assets[i].0 == symbol
    decreases |assets|
  {
    i := |assets| - 1;
    if assets[i].0 != symbol {
      i := PricesOccur(assets[..i], symbol);
    }
  }

  ghost predicate OccursLast(assets: seq<(string, real)>, i: nat) {
    i < |assets| && forall j :: i < j < |assets| ==> assets[j].0 != assets[i].0
  }

  class AlertCheckService {
    var alerts: map<Id, Alert>
    var notes: map<Id, seq<Note>>

    constructor ()
      ensures Contents() == Store(map[], map[])
    {
      alerts, notes := map[], map[];
    }

    function Contents(): Store
      reads this
    {
      Store(alerts, notes)
    }

    /** One tick alone. dispatched are the events handed on after the commit. */
    method Check(assets: seq<(string, real)>, now: nat) returns (dispatched: seq<Note>)
      modifies this
      ensures Contents() == Checked(old(Contents()), PricesOf(assets), now)
      ensures var fired := Fired(old(alerts), PricesOf(assets));
              && |dispatched| == |fired|
              && forall id :: id in fired ==> NoteFor(id, fired[id], PricesOf(assets)) in dispatched
    {
      var prices := PricesOf(assets);
      var fired := Fired(alerts, prices);
      if |fired| == 0 {
        NothingFired(Contents(), fired, prices, now);
        return [];
      }
      alerts := map id | id in alerts :: if id in fired then alerts[id].(triggeredAt := Some(now)) else alerts[id];
      dispatched := EnqueueAll(fired, prices);
    }

    method EnqueueAll(fired: map<Id, Alert>, prices: Prices) returns (events: seq<Note>)
      requires forall id :: id in fired ==> fired[id].symbol in prices
      modifies this`notes
      ensures notes == Notified(old(notes), fired, prices) && |events| == |fired|
      ensures forall id :: id in fired ==> NoteFor(id, fired[id], prices) in events
    {
      events := [];
      var left := fired.Keys;
      NothingNotified(notes, fired - left, prices);
      while left != {}
        invariant left <= fired.Keys && notes == Notified(old(notes), fired - left, prices)
        invariant |events| + |left| == |fired.Keys|
        invariant forall id :: id in fired - left ==> NoteFor(id, fired[id], prices) in events
        decreases |left|
      {
        var id :| id in left;
        OneMoreNote(old(notes), fired, left, id, prices);
        var note := NoteFor(id, fired[id], prices);
        Enqueue(note);
        events := events + [note];
        left := left - {id};
      }
      assert fired - left == fired;
    }

    method Enqueue(note: Note)
      modifies this`notes
      ensures notes == old(notes)[note.alert := Past(old(notes), note.alert) + [note]]
    {
      notes := notes[note.alert := Past(notes, note.alert) + [note]];
    }
  }

  lemma OneMoreNote(notes: map<Id, seq<Note>>, fired: map<Id, Alert>, left: set<Id>, id: Id, prices: Prices)
    requires left <= fired.Keys && id in left && forall i :: i in fired ==> fired[i].symbol in prices
    ensures var before := Notified(notes, fired - left, prices);
            Notified(notes, fired - (left - {id}), prices)
              == before[id := Past(before, id) + [NoteFor(id, fired[id], prices)]]
  {
    var before, after := Notified(notes, fired - left, prices), Notified(notes, fired - (left - {id}), prices);
    assert (fired - (left - {id})).Keys == (fired - left).Keys + {id};
    assert Past(before, id) == if id in notes then notes[id] else [];
  }

  lemma NothingNotified(notes: map<Id, seq<Note>>, fired: map<Id, Alert>, prices: Prices)
    requires fired.Keys == {}
    ensures Notified(notes, fired, prices) == notes
  {
  }

  lemma NothingFired(s: Store, fired: map<Id, Alert>, prices: Prices, now: nat)
    requires |fired| == 0
    ensures Settle(s, fired, prices, now) == s
  {
    assert fired.Keys == {};
    assert Settle(s, fired, prices, now).notes == s.notes;
    assert Settle(s, fired, prices, now).alerts == s.alerts;
  }

  // ---------- runs of checks ----------

  /** commits tells whether the check's transaction commits; if not, it leaves no trace. */
  datatype Event =
    | Add(id: Id, alert: Alert)
    | Remove(id: Id)
    | Check(prices: Prices, now: nat, commits: bool)

  predicate Possible(s: Store, e: Event) {
    e.Add? ==> e.id !in s.alerts && e.id !in s.notes && e.alert.triggeredAt.None?
  }

  function After(s: Store, e: Event): Store {
    match e
    case Add(id, alert) => s.(alerts := s.alerts[id := alert])
    case Remove(id) => s.(alerts := s.alerts - {id})
    case Check(prices, now, commits) => if commits then Checked(s, prices, now) else s
  }

  ghost predicate Run(s: Store, events: seq<Event>, s': Store)
    decreases |events|
  {
    if events == [] then s' == s
    else Possible(s, events[0]) && Run(After(s, events[0]), events[1..], s')
  }

  datatype Hit = Hit(now: nat, price: real)

  predicate Hits(e: Event, a: Alert) {
    e.Check? && e.commits && Crosses(a, e.prices)
  }

  /** The first committed check whose price for the alert's symbol crosses its target. */
  function FirstHit(events: seq<Event>, a: Alert): Option<Hit>
    decreases |events|
  {
    if events == [] then None
    else if Hits(events[0], a) then Some(Hit(events[0].now, events[0].prices[a.symbol]))
    else FirstHit(events[1..], a)
  }

  /** The alert as it is once it has, or has not, been hit. */
  function MarkedBy(a: Alert, hit: Option<Hit>): Alert {
    match hit
    case None => a
    case Some(h) => a.(triggeredAt := Some(h.now))
  }

  function NotesBy(id: Id, a: Alert, hit: Option<Hit>): seq<Note> {
    match hit
    case None => []
    case Some(h) => [Note(a.user, id, a.symbol, a.direction, a.target, h.price)]
  }

  lemma CheckSettles(s: Store, id: Id, prices: Prices, now: nat)
    requires id in s.alerts
    ensures var (a, s') := (s.alerts[id], Checked(s, prices, now));
            var hit := if a.triggeredAt.None? && Crosses(a, prices) then Some(Hit(now, prices[a.symbol])) else None;
            && id in s'.alerts && s'.alerts[id] == MarkedBy(a, hit)
            && NotesOf(s', id) == NotesOf(s, id) + NotesBy(id, a, hit)
  {
  }

  lemma {:induction false} TriggeredStays(s: Store, events: seq<Event>, s': Store, id: Id)
    requires Run(s, events, s') && id in s.alerts && s.alerts[id].triggeredAt.Some? && Remove(id) !in events
    ensures id in s'.alerts && s'.alerts[id] == s.alerts[id] && NotesOf(s', id) == NotesOf(s, id)
    decreases |events|
  {
    if events != [] {
      var e := events[0];
      if e.Check? {
        CheckSettles(s, id, e.prices, e.now);
      }
      assert e != Remove(id);
      TriggeredStays(After(s, e), events[1..], s', id);
    }
  }

  /** A pending alert that is not deleted fires at the first committed check that crosses its target
    * and at no other: it is marked with that check's time, and its only event shows that price. */
  lemma {:induction false} FiresAtFirstCrossing(s: Store, events: seq<Event>, s': Store, id: Id)
    requires Run(s, events, s') && id in s.alerts && s.alerts[id].triggeredAt.None? && NotesOf(s, id) == []
    requires Remove(id) !in events
    ensures var (a, hit) := (s.alerts[id], FirstHit(events, s.alerts[id]));
            && id in s'.alerts && s'.alerts[id] == MarkedBy(a, hit)
            && NotesOf(s', id) == NotesBy(id, a, hit)
    decreases |events|
  {
    if events != [] {
      var e := events[0];
      var mid := After(s, e);
      assert e != Remove(id);
      if e.Check? {
        CheckSettles(s, id, e.prices, e.now);
      }
      if Hits(e, s.alerts[id]) {
        TriggeredStays(mid, events[1..], s', id);
      } else {
        FiresAtFirstCrossing(mid, events[1..], s', id);
      }
    }
  }

  /** The event is a committed check whose price for the alert's symbol has reached its target: from
    * below for an alert above it, from above for one below it. */
  predicate Reaches(e: Event, a: Alert) {
    && e.Check? && e.commits && a.symbol in e.prices
    && match a.direction
       case Above => a.target <= e.prices[a.symbol]
       case Below => e.prices[a.symbol] <= a.target
  }

  /** No event before k reached the target. */
  ghost predicate FirstToReach(events: seq<Event>, k: nat, a: Alert) {
    k < |events| && Reaches(events[k], a) && forall i :: 0 <= i < k ==> !Reaches(events[i], a)
  }

  lemma {:induction false} FirstHitIs(events: seq<Event>, a: Alert)
    ensures FirstHit(events, a).None? <==> forall i :: 0 <= i < |events| ==> !Reaches(events[i], a)
    ensures FirstHit(events, a).Some? ==>
              exists k: nat :: FirstToReach(events, k, a)
                          && FirstHit(events, a).value == Hit(events[k].now, events[k].prices[a.symbol])
    decreases |events|
  {
    if events != [] {
      var e := events[0];
      FirstHitIs(events[1..], a);
      if Hits(e, a) {
        assert FirstToReach(events, 0, a);
      } else if FirstHit(events[1..], a).Some? {
        var k: nat :| FirstToReach(events[1..], k, a)
                 && FirstHit(events[1..], a).value == Hit(events[1..][k].now, events[1..][k].prices[a.symbol]);
        assert events[k + 1] == events[1..][k];
        assert FirstToReach(events, k + 1, a);
      }
    }
  }

  /** A pending alert that is not deleted is marked if and only if some committed check saw a price at
    * or beyond its target; then it carries the time of the first that did, and its one event tells its
    * user that alert, at that check's price. */
  lemma MarkedIffReached(s: Store, events: seq<Event>, s': Store, id: Id)
    requires Run(s, events, s') && id in s.alerts && s.alerts[id].triggeredAt.None? && NotesOf(s, id) == []
    requires Remove(id) !in events
    ensures id in s'.alerts
    ensures s'.alerts[id].triggeredAt.None? <==> forall i :: 0 <= i < |events| ==> !Reaches(events[i], s.alerts[id])
    ensures s'.alerts[id].triggeredAt.None? ==> s'.alerts[id] == s.alerts[id] && NotesOf(s', id) == []
    ensures s'.alerts[id].triggeredAt.Some? ==>
              exists k: nat :: FirstToReach(events, k, s.alerts[id])
                          && s'.alerts[id] == s.alerts[id].(triggeredAt := Some(events[k].now))
                          && NotesOf(s', id) == [Note(s.alerts[id].user, id, s.alerts[id].symbol,
                                                      s.alerts[id].direction, s.alerts[id].target,
                                                      events[k].prices[s.alerts[id].symbol])]
  {
    FiresAtFirstCrossing(s, events, s', id);
    FirstHitIs(events, s.alerts[id]);
  }

  /** An alert is marked exactly when it has one event; it never has two, even once deleted. */
  ghost predicate OneShot(s: Store) {
    && (forall id :: id in s.alerts ==> |NotesOf(s, id)| == if s.alerts[id].triggeredAt.Some? then 1 else 0)
    && (forall id :: |NotesOf(s, id)| <= 1)
  }

  lemma EventKeepsOneShot(s: Store, e: Event)
    requires OneShot(s) && Possible(s, e)
    ensures OneShot(After(s, e))
  {
    forall id
      ensures |NotesOf(After(s, e), id)| <= 1
      ensures id in After(s, e).alerts ==>
                |NotesOf(After(s, e), id)| == if After(s, e).alerts[id].triggeredAt.Some? then 1 else 0
    {
      assert |NotesOf(s, id)| <= 1;
      if id in s.alerts && e.Check? {
        CheckSettles(s, id, e.prices, e.now);
      }
    }
  }

  lemma {:induction false} OneEventIffMarked(s: Store, events: seq<Event>, s': Store)
    requires OneShot(s) && Run(s, events, s')
    ensures OneShot(s')
    decreases |events|
  {
    if events != [] {
      EventKeepsOneShot(s, events[0]);
      OneEventIffMarked(After(s, events[0]), events[1..], s');
    }
  }
}
