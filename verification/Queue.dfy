/** The broker's topology and the connection to it: backend/src/queue/queue.service.ts with the
  * names of backend/src/queue/events.ts. Names matter only for being different, so they are
  * constructors; no binding key has a wildcard, so a topic exchange routes by equality.
  */
module Queue {
  import opened Wrappers
  import D = Delivery

  datatype Exchange = Events | DeadLetters

  datatype QueueName = PushQueue | DeadQueue | RetryQueue(n: nat)

  datatype Key = PushKey | DeadKey | RetryKey(n: nat)

  const RETRY_DELAYS: seq<nat> := [5_000, 30_000, 120_000]

  datatype Target = Target(exchange: Exchange, key: Key)

  /** What is fixed when a queue is made: how long a message stays, and where it goes when it may
    * not stay or is refused. */
  datatype Args = Args(ttl: Option<nat>, deadLetter: Option<Target>)

  datatype Binding = Binding(target: Target, queue: QueueName)

  datatype Topology = Topology(queues: map<QueueName, Args>, bindings: set<Binding>)

  datatype Message = Message(event: nat, count: nat)

  // ---------- routing ----------

  /** The queues a message published to that exchange with that key reaches. */
  function Routed(t: Topology, target: Target): set<QueueName> {
    set b | b in t.bindings && b.target == target :: b.queue
  }

  /** Where a message of the queue goes when it is refused for good, or outstays its time. */
  function DeadLettered(t: Topology, queue: QueueName): set<QueueName> {
    if queue in t.queues && t.queues[queue].deadLetter.Some?
    then Routed(t, t.queues[queue].deadLetter.value) else {}
  }

  /** What open asks for. */
  function Wanted(): Topology {
    Topology(
      map[DeadQueue := Args(None, None),
          PushQueue := Args(None, Some(Target(DeadLetters, DeadKey))),
          RetryQueue(1) := RetryArgs(0), RetryQueue(2) := RetryArgs(1), RetryQueue(3) := RetryArgs(2)],
      {Binding(Target(DeadLetters, DeadKey), DeadQueue), Binding(Target(Events, PushKey), PushQueue),
       RetryBinding(1), RetryBinding(2), RetryBinding(3)})
  }

  function RetryArgs(i: nat): Args
    requires i < |RETRY_DELAYS|
  {
    Args(Some(RETRY_DELAYS[i]), Some(Target(Events, PushKey)))
  }

  function RetryBinding(n: nat): Binding {
    Binding(Target(Events, RetryKey(n)), RetryQueue(n))
  }

  /** The queue can be made, or is there with just these arguments. */
  predicate Admits(t: Topology, q: QueueName, args: Args) {
    q in t.queues ==> t.queues[q] == args
  }

  /** With the first i retry queues made and bound. */
  function WithRetries(t: Topology, i: nat): Topology
    requires i <= |RETRY_DELAYS|
  {
    if i == 0 then t else
    var rest := WithRetries(t, i - 1);
    Topology(rest.queues[RetryQueue(i) := RetryArgs(i - 1)], rest.bindings + {RetryBinding(i)})
  }

  /** With the dead queue and the main queue made and bound. */
  function WithMain(t: Topology): Topology {
    Topology(
      t.queues[DeadQueue := Args(None, None)][PushQueue := Args(None, Some(Target(DeadLetters, DeadKey)))],
      t.bindings + {Binding(Target(DeadLetters, DeadKey), DeadQueue)} + {Binding(Target(Events, PushKey), PushQueue)})
  }

  /** Made one after the other, these are all that is wanted. */
  lemma AllWanted(t: Topology)
    ensures Opened(t) == WithRetries(WithMain(t), 3)
  {
    ThreeRetries(WithMain(t));
    var o, r := Opened(t), WithRetries(WithMain(t), 3);
    assert o.bindings == r.bindings;
    assert o.queues == r.queues;
  }

  lemma AllAdmitted(t: Topology)
    requires Admits(t, DeadQueue, Args(None, None))
    requires Admits(t, PushQueue, Args(None, Some(Target(DeadLetters, DeadKey))))
    ensures Compatible(t) <==> forall n :: 1 <= n <= 3 ==> Admits(WithMain(t), RetryQueue(n), RetryArgs(n - 1))
  {
    forall n | 1 <= n <= 3
      ensures Admits(WithMain(t), RetryQueue(n), RetryArgs(n - 1))
         <==> Admits(t, RetryQueue(n), Wanted().queues[RetryQueue(n)])
    {
    }
  }

  lemma ThreeRetries(t: Topology)
    ensures WithRetries(t, 3)
         == Topology(t.queues[RetryQueue(1) := RetryArgs(0)][RetryQueue(2) := RetryArgs(1)]
                             [RetryQueue(3) := RetryArgs(2)],
                     t.bindings + {RetryBinding(1)} + {RetryBinding(2)} + {RetryBinding(3)})
  {
    assert WithRetries(t, 0) == t;
    var one := WithRetries(t, 1);
    assert one.queues == t.queues[RetryQueue(1) := RetryArgs(0)] && one.bindings == t.bindings + {RetryBinding(1)};
    var two := WithRetries(t, 2);
    assert two.queues == one.queues[RetryQueue(2) := RetryArgs(1)] && two.bindings == one.bindings + {RetryBinding(2)};
  }

  /** A queue that exists with other arguments refuses to be asserted. */
  predicate Compatible(t: Topology) {
    forall q :: q in t.queues && q in Wanted().queues ==> t.queues[q] == Wanted().queues[q]
  }

  function Opened(t: Topology): Topology {
    Topology(t.queues + Wanted().queues, t.bindings + Wanted().bindings)
  }

  /** Once opened, on a broker that has no other bindings, messages go exactly where Delivery puts
    * them: an event to the main queue, a retry copy to the queue of its count and back to the main
    * queue after its delay, what the main queue refuses to the dead queue, and from there nowhere. */
  lemma RoutesAreTheLadder(t: Topology, n: nat)
    requires Compatible(t) && t.bindings <= Wanted().bindings
    ensures var o := Opened(t);
            && Routed(o, Target(Events, PushKey)) == {PushQueue}
            && Routed(o, Target(Events, RetryKey(n))) == (if 1 <= n <= 3 then {RetryQueue(n)} else {})
            && (1 <= n <= 3 ==>
                  && RetryQueue(n) in o.queues
                  && o.queues[RetryQueue(n)].ttl == Some(if n == 1 then 5_000 else if n == 2 then 30_000 else 120_000)
                  && DeadLettered(o, RetryQueue(n)) == {PushQueue})
            && DeadLettered(o, PushQueue) == {DeadQueue} && DeadLettered(o, DeadQueue) == {}
  {
    assert Opened(t).bindings == Wanted().bindings;
    assert RetryBinding(n) in Wanted().bindings <==> 1 <= n <= D.MAX_RETRIES;
  }

  /** Opening again changes nothing. */
  lemma OpeningIsIdempotent(t: Topology)
    requires Compatible(t)
    ensures Compatible(Opened(t)) && Opened(Opened(t)) == Opened(t)
  {
  }

  // ---------- the service ----------

  const RECONNECT_STEP: nat := 500
  const RECONNECT_CAP: nat := 10_000

  class QueueService {
    /** The broker, as the connection reaches it. */
    var queues: map<QueueName, Args>
    var bindings: set<Binding>
    var held: map<QueueName, seq<Message>>

    var connected: bool
    var closing: bool
    var attempt: nat
    var timer: bool
    var lastWarned: Option<string>

    constructor (queues: map<QueueName, Args>, bindings: set<Binding>)
      ensures Broker() == Topology(queues, bindings) && held == map[]
      ensures !connected && !closing && attempt == 0 && !timer
    {
      this.queues, this.bindings, held := queues, bindings, map[];
      connected, closing, attempt, timer, lastWarned := false, false, 0, false, None;
    }

    function Broker(): Topology
      reads this
    {
      Topology(queues, bindings)
    }

    function Held(q: QueueName): seq<Message>
      reads this
    {
      if q in held then held[q] else []
    }

    method Warn(message: string)
      modifies this`lastWarned
      ensures lastWarned == Some(message)
    {
      if lastWarned != Some(message) {
        lastWarned := Some(message);
      }
    }

    method AssertQueue(q: QueueName, args: Args) returns (ok: bool)
      modifies this`queues
      ensures ok <==> (q in old(queues) ==> old(queues)[q] == args)
      ensures queues == if ok then old(queues)[q := args] else old(queues)
    {
      ok := q !in queues || queues[q] == args;
      if ok {
        queues := queues[q := args];
      }
    }

    /** Asserts the topology, stopping at the first refusal. Connected only if all of it is there;
      * otherwise another attempt is scheduled. */
    method Open(reachable: bool)
      requires !connected
      modifies this
      ensures connected <==> reachable && Compatible(old(Broker()))
      ensures connected ==> Broker() == Opened(old(Broker())) && attempt == 0 && lastWarned.None?
      ensures !connected ==> attempt == if old(closing) || old(timer) then old(attempt) else old(attempt) + 1
      ensures held == old(held) && closing == old(closing)
    {
      var ok := false;
      if reachable {
        ok := AssertTopology();
      }
      if ok {
        connected, attempt, lastWarned := true, 0, None;
      } else {
        Warn("cannot open");
        var delay := ScheduleReconnect();
      }
    }

    method AssertTopology() returns (ok: bool)
      modifies this`queues, this`bindings
      ensures ok <==> Compatible(old(Broker()))
      ensures ok ==> Broker() == Opened(old(Broker()))
    {
      ok := AssertQueue(DeadQueue, Args(None, None));
      if !ok {
        return;
      }
      bindings := bindings + {Binding(Target(DeadLetters, DeadKey), DeadQueue)};
      ok := AssertQueue(PushQueue, Args(None, Some(Target(DeadLetters, DeadKey))));
      if !ok {
        return;
      }
      bindings := bindings + {Binding(Target(Events, PushKey), PushQueue)};
      ghost var before := Broker();
      assert before == WithMain(old(Broker()));
      ok := AssertRetryQueues();
      AllAdmitted(old(Broker()));
      AllWanted(old(Broker()));
    }

    method AssertRetryQueues() returns (ok: bool)
      modifies this`queues, this`bindings
      ensures ok <==> forall n :: 1 <= n <= 3 ==> Admits(old(Broker()), RetryQueue(n), RetryArgs(n - 1))
      ensures ok ==> Broker() == WithRetries(old(Broker()), 3)
    {
      ok := true;
      var i := 0;
      while i < |RETRY_DELAYS|
        invariant i <= |RETRY_DELAYS| == 3 && ok
        invariant forall n :: 1 <= n <= i ==> Admits(old(Broker()), RetryQueue(n), RetryArgs(n - 1))
        invariant Broker() == WithRetries(old(Broker()), i)
        invariant forall n :: n > i ==> (RetryQueue(n) in queues <==> RetryQueue(n) in old(queues))
        invariant forall n :: n > i && RetryQueue(n) in queues ==> queues[RetryQueue(n)] == old(queues)[RetryQueue(n)]
      {
        var n := i + 1;
        ok := AssertQueue(RetryQueue(n), Args(Some(RETRY_DELAYS[i]), Some(Target(Events, PushKey))));
        if !ok {
          assert !Admits(old(Broker()), RetryQueue(n), RetryArgs(n - 1));
          return;
        }
        bindings := bindings + {Binding(Target(Events, RetryKey(n)), RetryQueue(n))};
        i := i + 1;
      }
    }

    /** full is the channel's backpressure: the answer is then false although the message is on its
      * way; throws, that the channel has just broken. */
    method Publish(key: Key, message: Message, full: bool, throws: bool) returns (answer: bool)
      modifies this`held, this`lastWarned
      ensures answer <==> connected && !throws && !full
      ensures var reached := if connected && !throws then Routed(Broker(), Target(Events, key)) else {};
              forall q :: Held(q) == old(Held(q)) + if q in reached then [message] else []
    {
      if !connected {
        Warn("not connected");
        return false;
      }
      if throws {
        Warn("channel closed");
        return false;
      }
      var reached := Routed(Broker(), Target(Events, key));
      held := map q | q in held.Keys + reached :: Held(q) + if q in reached then [message] else [];
      return !full;
    }

    method OnConnectionClosed()
      modifies this
      ensures !connected && held == old(held) && Broker() == old(Broker()) && closing == old(closing)
      ensures attempt == if old(closing) || old(timer) then old(attempt) else old(attempt) + 1
    {
      connected := false;
      if closing {
        return;
      }
      Warn("connection closed");
      var delay := ScheduleReconnect();
    }

    /** One timer at a time; each further failure waits longer, up to ten seconds. */
    method ScheduleReconnect() returns (delay: Option<nat>)
      modifies this`attempt, this`timer
      ensures delay.None? <==> old(closing) || old(timer)
      ensures delay.None? ==> attempt == old(attempt) && timer == old(timer)
      ensures delay.Some? ==> attempt == old(attempt) + 1 && timer
      ensures delay.Some? ==> delay.value <= 10_000 && delay.value <= attempt * 500
      ensures delay.Some? ==> delay.value == 10_000 || delay.value == attempt * 500
    {
      if closing || timer {
        return None;
      }
      attempt := attempt + 1;
      timer := true;
      var wait := attempt * RECONNECT_STEP;
      return Some(if wait < RECONNECT_CAP then wait else RECONNECT_CAP);
    }
  }
}
