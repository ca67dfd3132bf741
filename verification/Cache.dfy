/** Cache-aside over Redis: backend/src/cache/cache.service.ts and its use in
  * backend/src/markets/markets.service.ts.
  *
  * CacheService is the service one call at a time; the machine below it lets any number of wrap
  * calls, failing reads and writes, evictions and the clock interleave.
  */
module Cache {
  import opened Wrappers

  /** What a source can produce, told apart as far as the cache does; a stored value is taken to
    * come back from its JSON form as it was. */
  datatype Value = Null | List(items: seq<string>) | Other(text: string)

  /** What cacheable answers: false, true, or a lifetime of its own in seconds. */
  datatype Decision = Never | Usual | For(seconds: nat)

  function Lifetime(d: Decision, ttl: nat): Option<nat> {
    match d
    case Never => None
    case Usual => Some(ttl)
    case For(seconds) => Some(seconds)
  }

  function DefaultCacheable(v: Value): Decision {
    if v == Null || v == List([]) then Never else Usual
  }

  /** In seconds. */
  const NEGATIVE_TTL: nat := 8

  /** Tickers and candles: an outage is kept for a few seconds only. */
  function MarketsCacheable(v: Value): Decision {
    if v.List? && v.items != [] then Usual else For(NEGATIVE_TTL)
  }

  /** A list with something in it is kept for the lifetime asked for by either judgement; an empty one
    * for eight seconds by the markets', and by default not at all, like no value. */
  lemma ListsAreJudged(items: seq<string>)
    ensures MarketsCacheable(List(items)).Usual? <==> items != []
    ensures MarketsCacheable(List(items)) == For(8) <==> items == []
    ensures DefaultCacheable(List(items)).Usual? <==> items != []
    ensures DefaultCacheable(List([])).Never? && DefaultCacheable(Null).Never?
    ensures forall text :: DefaultCacheable(Other(text)).Usual?
  {
  }

  datatype Entry = Entry(value: Value, until: nat)

  // ---------- the service ----------

  /** Redis answers with a value, and in time. */
  predicate Answers(redis: map<string, Entry>, key: string, now: nat, failure: Option<string>) {
    failure.None? && key in redis && now < redis[key].until && redis[key].value != Null
  }

  class CacheService {
    var redis: map<string, Entry>
    var lastWarned: Option<string>
    /** Every warning logged so far. */
    var warnings: seq<string>

    constructor ()
      ensures Valid() && redis == map[] && warnings == []
    {
      redis, lastWarned, warnings := map[], None, [];
    }

    /** The last warning is remembered, and no warning repeats the one before it. */
    ghost predicate Valid()
      reads this
    {
      && lastWarned == (if warnings == [] then None else Some(warnings[|warnings| - 1]))
      && forall i :: 0 < i < |warnings| ==> warnings[i] != warnings[i - 1]
    }

    method Warn(message: string)
      requires Valid()
      modifies this`lastWarned, this`warnings
      ensures Valid() && old(warnings) <= warnings && lastWarned == Some(message)
      ensures |warnings| <= |old(warnings)| + 1
    {
      if lastWarned == Some(message) {
        return;
      }
      lastWarned := Some(message);
      warnings := warnings + [message];
    }

    /** failure is the error Redis answers with, if it does. */
    method Get(key: string, now: nat, failure: Option<string>) returns (v: Value)
      requires Valid()
      modifies this`lastWarned, this`warnings
      ensures Valid() && (failure.None? ==> warnings == old(warnings))
      ensures v == Cached(redis, key, now, failure)
      ensures v == if failure.None? && key in redis && now < redis[key].until then redis[key].value else Null
    {
      if failure.Some? {
        Warn(failure.value);
        return Null;
      }
      v := if key in redis && now < redis[key].until then redis[key].value else Null;
    }

    /** Redis refuses a lifetime of zero. */
    method Set(key: string, value: Value, seconds: nat, now: nat, failure: Option<string>)
      requires Valid()
      modifies this
      ensures Valid()
      ensures redis
           == if failure.None? && seconds > 0 then old(redis)[key := Entry(value, now + seconds)] else old(redis)
    {
      if failure.Some? {
        Warn(failure.value);
      } else if seconds == 0 {
        Warn("invalid expire time");
      } else {
        redis := redis[key := Entry(value, now + seconds)];
      }
    }

    method Del(key: string, failure: Option<string>)
      requires Valid()
      modifies this
      ensures Valid() && redis == if failure.None? then old(redis) - {key} else old(redis)
    {
      if failure.Some? {
        Warn(failure.value);
      } else {
        redis := redis - {key};
      }
    }

    /** produced is what the source answers if it is asked, or its error, which goes to the caller.
      * Whatever Redis does, the caller gets a live entry's value or the source's own. */
    method Wrap(key: string, ttl: nat, produced: Result<Value, string>, cacheable: Value -> Decision,
                now: nat, readFailure: Option<string>, writeFailure: Option<string>)
      returns (r: Result<Value, string>)
      requires Valid()
      modifies this
      ensures Valid()
      ensures r == if Cached(old(redis), key, now, readFailure) != Null
                   then Ok(Cached(old(redis), key, now, readFailure)) else produced
      ensures redis == if Cached(old(redis), key, now, readFailure) == Null && produced.Ok?
                       then Stored(old(redis), key, produced.value, Lifetime(cacheable(produced.value), ttl), now,
                                   writeFailure)
                       else old(redis)
      ensures Answers(old(redis), key, now, readFailure) ==> r == Ok(old(redis)[key].value) && redis == old(redis)
      ensures !Answers(old(redis), key, now, readFailure) ==> r == produced
      ensures !Answers(old(redis), key, now, readFailure) && produced.Ok? ==>
                var v := produced.value;
                var seconds := if cacheable(v).Never? then 0 else if cacheable(v).Usual? then ttl
                               else cacheable(v).seconds;
                redis == if writeFailure.None? && seconds > 0 then old(redis)[key := Entry(v, now + seconds)]
                         else old(redis)
    {
      var hit := Get(key, now, readFailure);
      if hit != Null {
        return Ok(hit);
      }
      if produced.Err? {
        return produced;
      }
      var decision := cacheable(produced.value);
      if decision != Never {
        Set(key, produced.value, if decision.For? then decision.seconds else ttl, now, writeFailure);
      }
      return produced;
    }
  }

  /** What a read answers: Null for a miss, for an expired entry and for a failing Redis. */
  function Cached(redis: map<string, Entry>, key: string, now: nat, failure: Option<string>): Value {
    if failure.None? && key in redis && now < redis[key].until then redis[key].value else Null
  }

  function Stored(redis: map<string, Entry>, key: string, v: Value, lifetime: Option<nat>, now: nat,
                  failure: Option<string>): map<string, Entry>
  {
    if failure.None? && lifetime.Some? && lifetime.value > 0
    then redis[key := Entry(v, now + lifetime.value)]
    else redis
  }

  // ---------- many calls at once ----------

  type Id = nat

  /** maker is the call whose source produced the value, stored the moment it was written. */
  datatype Copy = Copy(value: Value, maker: Id, stored: nat, seconds: nat)

  datatype Phase =
    | Asking                                     // about to read the cache
    | Fetching                                   // missed; the source is running
    | Storing(value: Value, seconds: nat)        // about to write the cache
    | Served(copy: Copy, at: nat)                // answered from the cache
    | Answered(value: Value)                     // answered with the source's own result
    | Broken                                     // the source failed

  /** A call of wrap and, once its source has answered, what it answered. */
  datatype Call = Call(key: string, ttl: nat, cacheable: Value -> Decision, phase: Phase, produced: Option<Value>)

  datatype Sys = Sys(now: nat, redis: map<string, Copy>, calls: map<Id, Call>)

  datatype Step =
    | Wait(seconds: nat)
    | Evict(key: string)                           // Redis may forget any key at any time
    | Begin(c: Id, key: string, ttl: nat, cacheable: Value -> Decision)
    | Read(c: Id, works: bool)
    | Produce(c: Id, value: Value)
    | Fail(c: Id)
    | Write(c: Id, works: bool)

  predicate Enabled(s: Sys, st: Step) {
    match st
    case Wait(_) => true
    case Evict(_) => true
    case Begin(c, _, _, _) => c !in s.calls
    case Read(c, _) => c in s.calls && s.calls[c].phase.Asking?
    case Produce(c, _) => c in s.calls && s.calls[c].phase.Fetching?
    case Fail(c) => c in s.calls && s.calls[c].phase.Fetching?
    case Write(c, _) => c in s.calls && s.calls[c].phase.Storing?
  }

  predicate Live(s: Sys, key: string) {
    key in s.redis && s.now < s.redis[key].stored + s.redis[key].seconds
  }

  function Turn(s: Sys, c: Id, p: Phase): Sys
    requires c in s.calls
  {
    s.(calls := s.calls[c := s.calls[c].(phase := p)])
  }

  function Next(s: Sys, st: Step): Sys
    requires Enabled(s, st)
  {
    match st
    case Wait(seconds) => s.(now := s.now + seconds)
    case Evict(key) => s.(redis := s.redis - {key})
    case Begin(c, key, ttl, cacheable) => s.(calls := s.calls[c := Call(key, ttl, cacheable, Asking, None)])
    case Read(c, works) =>
      var key := s.calls[c].key;
      Turn(s, c, if works && Live(s, key) && s.redis[key].value != Null then Served(s.redis[key], s.now) else Fetching)
    case Produce(c, value) =>
      var call := s.calls[c];
      var lifetime := Lifetime(call.cacheable(value), call.ttl);
      var p := if lifetime.Some? then Storing(value, lifetime.value) else Answered(value);
      s.(calls := s.calls[c := call.(phase := p, produced := Some(value))])
    case Fail(c) => Turn(s, c, Broken)
    case Write(c, works) =>
      var call := s.calls[c];
      var done := Turn(s, c, Answered(call.phase.value));
      if works && call.phase.seconds > 0
      then done.(redis := s.redis[call.key := Copy(call.phase.value, c, s.now, call.phase.seconds)])
      else done
  }

  ghost predicate Run(s: Sys, steps: seq<Step>, s': Sys)
    decreases |steps|
  {
    if steps == [] then s' == s
    else Enabled(s, steps[0]) && Run(Next(s, steps[0]), steps[1..], s')
  }

  const COLD := Sys(0, map[], map[])

  /** The copy was produced by the source of a call for that key, which judged it worth keeping for
    * just that long. */
  predicate Genuine(s: Sys, key: string, copy: Copy) {
    && copy.maker in s.calls && s.calls[copy.maker].key == key
    && s.calls[copy.maker].produced == Some(copy.value)
    && Lifetime(s.calls[copy.maker].cacheable(copy.value), s.calls[copy.maker].ttl) == Some(copy.seconds)
    && copy.stored <= s.now
  }

  predicate CallOk(s: Sys, call: Call) {
    match call.phase
    case Asking => call.produced.None?
    case Fetching => call.produced.None?
    case Storing(value, seconds) =>
      call.produced == Some(value) && Lifetime(call.cacheable(value), call.ttl) == Some(seconds)
    case Served(copy, at) =>
      call.produced.None? && Genuine(s, call.key, copy) && copy.value != Null
      && copy.stored <= at < copy.stored + copy.seconds
    case Answered(value) => call.produced == Some(value)
    case Broken => call.produced.None?
  }

  ghost predicate Ok(s: Sys) {
    && (forall key :: key in s.redis ==> Genuine(s, key, s.redis[key]))
    && (forall c :: c in s.calls ==> CallOk(s, s.calls[c]))
  }

  /** A source answers once: what a call has produced stays on record. */
  lemma GenuineStays(s: Sys, st: Step, key: string, copy: Copy)
    requires Ok(s) && Enabled(s, st) && Genuine(s, key, copy)
    ensures Genuine(Next(s, st), key, copy)
  {
    assert CallOk(s, s.calls[copy.maker]);
  }

  lemma CallStays(s: Sys, st: Step, c: Id)
    requires Ok(s) && Enabled(s, st) && c in Next(s, st).calls
    ensures CallOk(Next(s, st), Next(s, st).calls[c])
  {
    var s' := Next(s, st);
    if c in s.calls {
      assert CallOk(s, s.calls[c]);
      if s'.calls[c].phase.Served? {
        var copy := s'.calls[c].phase.copy;
        assert Genuine(s, s.calls[c].key, copy);
        GenuineStays(s, st, s.calls[c].key, copy);
      }
    }
  }

  lemma StepKeepsOk(s: Sys, st: Step)
    requires Ok(s) && Enabled(s, st)
    ensures Ok(Next(s, st))
  {
    var s' := Next(s, st);
    forall key | key in s'.redis
      ensures Genuine(s', key, s'.redis[key])
    {
      if key in s.redis && s'.redis[key] == s.redis[key] {
        GenuineStays(s, st, key, s.redis[key]);
      } else {
        assert CallOk(s, s.calls[st.c]);
      }
    }
    forall c | c in s'.calls
      ensures CallOk(s', s'.calls[c])
    {
      CallStays(s, st, c);
    }
  }

  lemma {:induction false} RunKeepsOk(s: Sys, steps: seq<Step>, s': Sys)
    requires Ok(s) && Run(s, steps, s')
    ensures Ok(s')
    decreases |steps|
  {
    if steps != [] {
      StepKeepsOk(s, steps[0]);
      RunKeepsOk(Next(s, steps[0]), steps[1..], s');
    }
  }

  /** Whatever Redis does, every answer comes from the source: the call's own, or one that another
    * call for the same key produced, judged cacheable and stored less than the lifetime it chose
    * before the answer was given. */
  lemma AnswersAreGenuine(steps: seq<Step>, s: Sys, c: Id)
    requires Run(COLD, steps, s) && c in s.calls
    ensures var call := s.calls[c];
            && (call.phase.Answered? ==> call.produced == Some(call.phase.value))
            && (call.phase.Served? ==>
                  var copy, maker := call.phase.copy, call.phase.copy.maker;
                  && maker in s.calls && maker != c && s.calls[maker].key == call.key
                  && s.calls[maker].produced == Some(copy.value)
                  && copy.stored <= call.phase.at < copy.stored + copy.seconds
                  && match s.calls[maker].cacheable(copy.value)
                     case Never => false
                     case Usual => copy.seconds == s.calls[maker].ttl
                     case For(seconds) => copy.seconds == seconds)
  {
    RunKeepsOk(COLD, steps, s);
    assert CallOk(s, s.calls[c]);
  }

  /** Market lists: when every call for a key judges as MarketsService does, an empty list is served
    * for less than eight seconds after it was stored. */
  lemma OutagesAreBrief(steps: seq<Step>, s: Sys, c: Id)
    requires Run(COLD, steps, s) && c in s.calls && s.calls[c].phase.Served?
    requires s.calls[c].phase.copy.value == List([])
    requires forall d :: d in s.calls && s.calls[d].key == s.calls[c].key ==> s.calls[d].cacheable == MarketsCacheable
    ensures s.calls[c].phase.at < s.calls[c].phase.copy.stored + 8
  {
    AnswersAreGenuine(steps, s, c);
    assert MarketsCacheable(List([])) == For(NEGATIVE_TTL);
  }

  /** Exchange rates and everything else that judges by default: a missing or empty result is never
    * served from the cache. */
  lemma EmptyResultsAreNotServed(steps: seq<Step>, s: Sys, c: Id)
    requires Run(COLD, steps, s) && c in s.calls && s.calls[c].phase.Served?
    requires forall d :: d in s.calls && s.calls[d].key == s.calls[c].key ==> s.calls[d].cacheable == DefaultCacheable
    ensures s.calls[c].phase.copy.value != Null && s.calls[c].phase.copy.value != List([])
  {
    AnswersAreGenuine(steps, s, c);
  }

  /** Both judgements, on what is not empty: it is served for the whole lifetime its call asked for, and
    * no longer. */
  lemma FullResultsLast(steps: seq<Step>, s: Sys, c: Id, d: Id)
    requires Run(COLD, steps, s) && c in s.calls && s.calls[c].phase.Served? && d == s.calls[c].phase.copy.maker
    requires d in s.calls && s.calls[d].cacheable in {MarketsCacheable, DefaultCacheable}
    requires s.calls[c].phase.copy.value.List? && s.calls[c].phase.copy.value.items != []
    ensures s.calls[c].phase.at < s.calls[c].phase.copy.stored + s.calls[d].ttl
    ensures s.calls[c].phase.copy.seconds == s.calls[d].ttl
  {
    AnswersAreGenuine(steps, s, c);
  }

  // ---------- the service is the machine ----------

  /** What Redis holds, as the service sees it. */
  function Entries(redis: map<string, Copy>): map<string, Entry> {
    map key | key in redis :: Entry(redis[key].value, redis[key].stored + redis[key].seconds)
  }

  lemma {:induction false} RunJoins(a: Sys, before: seq<Step>, b: Sys, after: seq<Step>, c: Sys)
    requires Run(a, before, b) && Run(b, after, c)
    ensures Run(a, before + after, c)
    decreases |before|
  {
    if before == [] {
      assert before + after == after;
    } else {
      RunJoins(Next(a, before[0]), before[1..], b, after, c);
      assert (before + after)[1..] == before[1..] + after;
    }
  }

  lemma Then(s: Sys, steps: seq<Step>, mid: Sys, st: Step) returns (steps': seq<Step>, s': Sys)
    requires Run(s, steps, mid) && Enabled(mid, st)
    ensures steps' == steps + [st] && s' == Next(mid, st) && Run(s, steps', s')
  {
    steps', s' := steps + [st], Next(mid, st);
    assert Run(Next(mid, st), [st][1..], s');
    RunJoins(s, steps, mid, [st], s');
  }

  /** One call of wrap run alone is a run of the machine with the same answer and the same store. */
  lemma WrapIsARun(s: Sys, c: Id, key: string, ttl: nat, produced: Result<Value, string>, cacheable: Value -> Decision,
                   readFailure: Option<string>, writeFailure: Option<string>)
    returns (steps: seq<Step>, s': Sys)
    requires c !in s.calls
    ensures Run(s, steps, s') && c in s'.calls
    ensures var hit := Cached(Entries(s.redis), key, s.now, readFailure);
            var p := s'.calls[c].phase;
            if hit != Null then p.Served? && p.copy.value == hit && s'.redis == s.redis
            else if produced.Err? then p.Broken? && s'.redis == s.redis
            else p == Answered(produced.value)
                 && Entries(s'.redis) == Stored(Entries(s.redis), key, produced.value,
                                                Lifetime(cacheable(produced.value), ttl), s.now, writeFailure)
  {
    steps, s' := [], s;
    steps, s' := Then(s, steps, s', Begin(c, key, ttl, cacheable));
    steps, s' := Then(s, steps, s', Read(c, readFailure.None?));
    if s'.calls[c].phase.Fetching? {
      if produced.Err? {
        steps, s' := Then(s, steps, s', Fail(c));
      } else {
        steps, s' := Then(s, steps, s', Produce(c, produced.value));
        if s'.calls[c].phase.Storing? {
          steps, s' := Then(s, steps, s', Write(c, writeFailure.None?));
        }
      }
    }
  }
}
