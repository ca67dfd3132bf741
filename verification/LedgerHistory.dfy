/** Histories of the ledger: calls run one at a time, each with its outcome.
  *
  * LedgerSerial proves that every interleaving of concurrent calls leaves the tables of such a
  * history, so everything proved here about histories holds of every concurrent run.
  */
module LedgerHistory {
  import opened Wrappers
  import opened Ledger
  import opened LedgerLaws

  /** How a call ended: committed, refused for a reason, or lost with its connection and rolled back. */
  datatype Outcome = Committed | Refused(reason: Refusal) | Lost

  datatype Entry = Entry(call: Call, outcome: Outcome)

  function Effect(db: Db, e: Entry): Db {
    if e.outcome.Committed? && PlanIn(e.call, db).Ok? then After(db, e.call) else db
  }

  /** The tables after the calls of log have run one after the other. */
  function Replay(init: Db, log: seq<Entry>): Db
    decreases |log|
  {
    if log == [] then init else Effect(Replay(init, log[..|log| - 1]), log[|log| - 1])
  }

  /** The outcome is what the call, run alone on db, would meet. */
  ghost predicate Explained(db: Db, e: Entry) {
    match e.outcome
    case Committed => CanCommit(db, e.call)
    case Refused(r) => PlanIn(e.call, db) == Err(r) || (ShortOfFunds(e.call, db.wallets) && r == InsufficientFunds)
    case Lost => true
  }

  /** Every outcome in the log is explained by the tables at its moment. */
  ghost predicate Faithful(init: Db, log: seq<Entry>)
    decreases |log|
  {
    log == []
    || (Faithful(init, log[..|log| - 1]) && Explained(Replay(init, log[..|log| - 1]), log[|log| - 1]))
  }

  ghost predicate Sound(db: Db) {
    Books(db) && Paired(db.txns)
  }

  /** Every history keeps the books balanced and chained, and transfer rows paired. */
  lemma {:induction false} HistoryIsSound(init: Db, log: seq<Entry>)
    requires Sound(init) && Faithful(init, log)
    ensures Sound(Replay(init, log))
    decreases |log|
  {
    if log != [] {
      var rest, last := log[..|log| - 1], log[|log| - 1];
      HistoryIsSound(init, rest);
      if last.outcome.Committed? {
        CommitKeepsBooks(Replay(init, rest), last.call);
        CommitKeepsPairs(Replay(init, rest), last.call);
      }
    }
  }

  // ---------- conservation ----------

  /** What the committed calls of a history brought into a currency from outside it. */
  ghost function NetInflow(init: Db, log: seq<Entry>, currency: string): int
    decreases |log|
  {
    if log == [] then 0 else
    var rest, last := log[..|log| - 1], log[|log| - 1];
    NetInflow(init, rest, currency)
    + if last.outcome.Committed? then Inflow(Replay(init, rest), last.call, currency) else 0
  }

  /** Money is conserved: all balances in a currency together change by exactly what came in. */
  lemma {:induction false} MoneyIsConserved(init: Db, log: seq<Entry>, currency: string)
    requires Sound(init) && Faithful(init, log)
    ensures Total(Replay(init, log), currency) == Total(init, currency) + NetInflow(init, log, currency)
    decreases |log|
  {
    if log != [] {
      var rest, last := log[..|log| - 1], log[|log| - 1];
      MoneyIsConserved(init, rest, currency);
      HistoryIsSound(init, rest);
      if last.outcome.Committed? {
        CommitMovesTotal(Replay(init, rest), last.call, currency);
      }
    }
  }

  // ---------- the life of a row ----------

  lemma ForwardIsTransitive(a: Db, b: Db, c: Db)
    requires Forward(a, b) && Forward(b, c)
    ensures Forward(a, c)
  {
    forall id | id in a.txns
      ensures id in c.txns && Evolves(a.txns[id], c.txns[id])
    {
      assert Evolves(a.txns[id], b.txns[id]) && Evolves(b.txns[id], c.txns[id]);
    }
    assert a.settled == c.settled[..|a.settled|];
  }

  /** From any moment of a history to its end a row either stays as it was or leaves pending once,
    * and a row that has left pending never changes again. */
  lemma {:induction false} RowsMoveForwardOnly(init: Db, log: seq<Entry>, k: nat)
    requires Sound(init) && Faithful(init, log) && k <= |log|
    ensures Forward(Replay(init, log[..k]), Replay(init, log))
    decreases |log|
  {
    if k == |log| {
      assert log[..k] == log;
    } else {
      var rest, last := log[..|log| - 1], log[|log| - 1];
      assert rest[..k] == log[..k];
      RowsMoveForwardOnly(init, rest, k);
      HistoryIsSound(init, rest);
      if last.outcome.Committed? {
        CommitMovesRowsForward(Replay(init, rest), last.call);
        ForwardIsTransitive(Replay(init, log[..k]), Replay(init, rest), Replay(init, log));
      }
    }
  }

  /** A row moves money exactly once if it is approved and never otherwise. */
  lemma ApprovedRowsSettleOnce(db: Db, id: Id)
    requires Books(db)
    ensures multiset(db.settled)[id] == if id in db.txns && db.txns[id].status.Approved? then 1 else 0
  {
    CountInDistinct(db.settled, id);
  }

  lemma {:induction false} CountInDistinct(log: seq<Id>, id: Id)
    requires Distinct(log)
    ensures multiset(log)[id] == if id in log then 1 else 0
    decreases |log|
  {
    if log != [] {
      CountInDistinct(log[1..], id);
      assert log == [log[0]] + log[1..];
    }
  }

  // ---------- reading the chain ----------

  ghost function SumSigned(txns: map<Id, Txn>, log: seq<Id>, wallet: Id): int
    decreases |log|
  {
    if log == [] then 0 else
    var last, rest := log[|log| - 1], log[..|log| - 1];
    SumSigned(txns, rest, wallet)
    + if last in txns && txns[last].wallet == wallet && Settled(txns[last]) then Signed(txns[last]) else 0
  }

  /** A wallet's balance is the sum of the signed amounts of its settled rows. */
  lemma {:induction false} BalanceIsSumOfRows(txns: map<Id, Txn>, log: seq<Id>, wallet: Id, balance: int)
    requires Chain(txns, log, wallet, balance)
    ensures balance == SumSigned(txns, log, wallet)
    decreases |log|
  {
    if log != [] {
      var last, rest := log[|log| - 1], log[..|log| - 1];
      BalanceIsSumOfRows(txns, rest, wallet, if txns[last].wallet != wallet then balance else txns[last].before.value);
    }
  }

  /** The rows of one wallet among the settled ones, in the order they were approved. */
  function Statement(txns: map<Id, Txn>, log: seq<Id>, wallet: Id): seq<Txn>
    decreases |log|
  {
    if log == [] then [] else
    var last, rest := log[|log| - 1], log[..|log| - 1];
    Statement(txns, rest, wallet)
    + if last in txns && txns[last].wallet == wallet then [txns[last]] else []
  }

  /** Where row i must open: at zero if it is the first, else where the row before it closed. */
  predicate OpensAfter(rows: seq<Txn>, i: nat)
    requires i < |rows|
  {
    Settled(rows[i])
    && if i == 0 then rows[i].before.value == 0 else rows[i - 1].after == rows[i].before
  }

  /** The chain read forwards: the first row opens at zero, each row opens where the one before it
    * closed and closes its signed amount later, and the last one closes at the balance. */
  ghost predicate Unbroken(rows: seq<Txn>, balance: int) {
    && (forall i: nat :: i < |rows| ==> OpensAfter(rows, i))
    && if |rows| == 0 then balance == 0 else rows[|rows| - 1].after == Some(balance)
  }

  lemma UnbrokenExtends(rows: seq<Txn>, t: Txn)
    requires Settled(t) && Unbroken(rows, t.before.value)
    ensures Unbroken(rows + [t], t.after.value)
  {
    forall i: nat | i < |rows|
      ensures OpensAfter(rows + [t], i)
    {
      assert OpensAfter(rows, i);
    }
  }

  lemma {:induction false} StatementIsUnbroken(txns: map<Id, Txn>, log: seq<Id>, wallet: Id, balance: int)
    requires Chain(txns, log, wallet, balance)
    ensures Unbroken(Statement(txns, log, wallet), balance)
    decreases |log|
  {
    if log != [] {
      var last, rest := log[|log| - 1], log[..|log| - 1];
      if txns[last].wallet != wallet {
        StatementIsUnbroken(txns, rest, wallet, balance);
        assert Statement(txns, log, wallet) == Statement(txns, rest, wallet);
      } else {
        var rows := Statement(txns, rest, wallet);
        StatementIsUnbroken(txns, rest, wallet, txns[last].before.value);
        UnbrokenExtends(rows, txns[last]);
      }
    }
  }

  // ---------- audit and outbox ----------

  /** The audit entries a history owes, one per committed settlement, rejection or adjustment. */
  function AuditOwed(init: Db, log: seq<Entry>): seq<Trace>
    decreases |log|
  {
    if log == [] then [] else
    var rest, last := log[..|log| - 1], log[|log| - 1];
    AuditOwed(init, rest) + if last.outcome.Committed? then Owed(Replay(init, rest), last.call) else []
  }

  /** The events a history announces. */
  function EventsOf(log: seq<Entry>): set<Id>
    decreases |log|
  {
    if log == [] then {} else
    var rest, last := log[..|log| - 1], log[|log| - 1];
    EventsOf(rest) + if last.outcome.Committed? then Announced(last.call) else {}
  }

  /** How many committed calls of the history announce an event. */
  function Announcements(log: seq<Entry>): nat
    decreases |log|
  {
    if log == [] then 0 else
    var rest, last := log[..|log| - 1], log[|log| - 1];
    Announcements(rest) + if last.outcome.Committed? then |Announced(last.call)| else 0
  }

  /** The audit trail is exactly what the committed calls owe, in order; calls that were refused
    * or lost left no trace in it. */
  lemma {:induction false} HistoryIsAudited(init: Db, log: seq<Entry>)
    requires Faithful(init, log)
    ensures Traces(Replay(init, log).audit) == Traces(init.audit) + AuditOwed(init, log)
    decreases |log|
  {
    if log != [] {
      var rest, last := log[..|log| - 1], log[|log| - 1];
      HistoryIsAudited(init, rest);
      if last.outcome.Committed? {
        CommitIsAudited(Replay(init, rest), last.call);
      }
    }
  }

  /** The outbox gained the announced events and no others. */
  lemma {:induction false} HistoryIsAnnounced(init: Db, log: seq<Entry>)
    requires Sound(init) && Faithful(init, log)
    ensures Replay(init, log).outbox.Keys == init.outbox.Keys + EventsOf(log)
    decreases |log|
  {
    if log != [] {
      var rest, last := log[..|log| - 1], log[|log| - 1];
      HistoryIsAnnounced(init, rest);
      var more := if last.outcome.Committed? then Announced(last.call) else {};
      if last.outcome.Committed? {
        OneMoreCommitAnnounces(init, rest, last.call);
      }
      UnionAssociates(init.outbox.Keys, EventsOf(rest), more);
    }
  }

  lemma UnionAssociates(a: set<Id>, b: set<Id>, c: set<Id>)
    ensures a + (b + c) == a + b + c
  {
  }

  /** One event for each announcing commit: no two commits share one. */
  lemma {:induction false} OneEventPerAnnouncement(init: Db, log: seq<Entry>)
    requires Sound(init) && Faithful(init, log)
    ensures |Replay(init, log).outbox| == |init.outbox| + Announcements(log)
    decreases |log|
  {
    if log != [] {
      var rest, last := log[..|log| - 1], log[|log| - 1];
      OneEventPerAnnouncement(init, rest);
      if last.outcome.Committed? {
        OneMoreCommitAnnounces(init, rest, last.call);
      }
    }
  }

  lemma OneMoreCommitAnnounces(init: Db, log: seq<Entry>, c: Call)
    requires Sound(init) && Faithful(init, log) && CanCommit(Replay(init, log), c)
    ensures After(Replay(init, log), c).outbox.Keys == Replay(init, log).outbox.Keys + Announced(c)
    ensures |After(Replay(init, log), c).outbox| == |Replay(init, log).outbox| + |Announced(c)|
  {
    var db := Replay(init, log);
    HistoryIsSound(init, log);
    CommitIsAnnounced(db, c);
    assert |After(db, c).outbox.Keys| == |db.outbox.Keys| + |Announced(c)|;
  }
}
