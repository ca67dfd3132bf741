/** What users are told: in every concurrent run, each event added to the outbox tells of one row that
  * was decided in the run, and each row decided in the run is told of by one event.
  */
module LedgerNews {
  import opened Ledger
  import opened LedgerLaws
  import opened LedgerHistory
  import opened LedgerSteps
  import opened LedgerSerial

  /** The notice fits what became of the row; its tag is the row's id or, for a transfer, the transfer's. */
  predicate Fits(e: OutboxRow, id: Id, t: Txn) {
    match e.notice
    case MoneyAdded => t.kind.Deposit? && t.status.Approved? && e.tag == id
    case DepositApproved => t.kind.Deposit? && t.status.Approved? && e.tag == id
    case WithdrawalSent => t.kind.Withdrawal? && t.status.Approved? && e.tag == id
    case DepositDeclined => t.kind.Deposit? && t.status.Rejected? && e.tag == id
    case WithdrawalDeclined => t.kind.Withdrawal? && t.status.Rejected? && e.tag == id
    case MoneyReceived =>
      t.kind.TransferIn? && t.status.Approved? && t.link.Some? && t.link.value.transferId == e.tag
  }

  /** The event tells the owner of the row's wallet the row's amount, its wallet's currency, and what
    * became of it. */
  predicate Tells(db: Db, e: OutboxRow, id: Id) {
    && id in db.txns && db.txns[id].wallet in db.wallets
    && var t := db.txns[id];
       var w := db.wallets[t.wallet];
       e.user == w.owner && e.amount == t.amount && e.currency == w.currency && Fits(e, id, t)
  }

  /** The rows users are told of: deposits and withdrawals once reviewed, and the receiver's half of a
    * transfer. */
  predicate Decided(db: Db, id: Id) {
    && id in db.txns && !db.txns[id].status.Pending?
    && (db.txns[id].kind.Deposit? || db.txns[id].kind.Withdrawal? || db.txns[id].kind.TransferIn?)
  }

  predicate NewEvent(init: Db, db: Db, e: Id) {
    e in db.outbox && e !in init.outbox
  }

  predicate NewlyDecided(init: Db, db: Db, id: Id) {
    Decided(db, id) && !Decided(init, id)
  }

  predicate TellsOf(init: Db, db: Db, e: Id, id: Id) {
    NewEvent(init, db, e) && NewlyDecided(init, db, id) && Tells(db, db.outbox[e], id)
  }

  /** New events and newly decided rows correspond one to one. */
  ghost predicate Correspond(init: Db, db: Db) {
    && (forall e :: NewEvent(init, db, e) ==> exists id :: TellsOf(init, db, e, id))
    && (forall id :: NewlyDecided(init, db, id) ==> exists e :: TellsOf(init, db, e, id))
    && (forall e, id, id' :: TellsOf(init, db, e, id) && TellsOf(init, db, e, id') ==> id == id')
    && (forall e, e', id :: TellsOf(init, db, e, id) && TellsOf(init, db, e', id) ==> e == e')
  }

  // ---------- one commit ----------

  predicate Reviews(c: Call) {
    c.Approve? || c.Reject?
  }

  lemma ReviewKeepsEvents(db: Db, c: Call, e: Id)
    requires Books(db) && CanCommit(db, c) && Reviews(c) && e in db.outbox
    ensures e in After(db, c).outbox && After(db, c).outbox[e] == db.outbox[e]
  {
    Unroll(db, PlanIn(c, db).value);
    assert c.event in Drawn(c);
  }

  lemma OtherCallKeepsEvents(db: Db, c: Call, e: Id)
    requires Books(db) && CanCommit(db, c) && !Reviews(c) && e in db.outbox
    ensures e in After(db, c).outbox && After(db, c).outbox[e] == db.outbox[e]
  {
    Unroll(db, PlanIn(c, db).value);
    if c.AddMoney? || c.Transfer? {
      assert c.event in Drawn(c);
    }
  }

  lemma EventsStay(db: Db, c: Call)
    requires Books(db) && CanCommit(db, c)
    ensures forall e :: e in db.outbox ==> e in After(db, c).outbox && After(db, c).outbox[e] == db.outbox[e]
  {
    forall e | e in db.outbox
      ensures e in After(db, c).outbox && After(db, c).outbox[e] == db.outbox[e]
    {
      if Reviews(c) {
        ReviewKeepsEvents(db, c, e);
      } else {
        OtherCallKeepsEvents(db, c, e);
      }
    }
  }

  /** What a call's event says fits the row it is about, which the call has just decided. */
  ghost predicate EventFits(db: Db, c: Call)
    requires PlanIn(c, db).Ok? && Announced(c) != {}
  {
    var db' := After(db, c);
    && c.event in db'.outbox && RowOf(c) in db'.txns
    && Fits(db'.outbox[c.event], RowOf(c), db'.txns[RowOf(c)])
    && !Decided(db, RowOf(c)) && Decided(db', RowOf(c))
  }

  lemma ReviewFits(db: Db, c: Call)
    requires Books(db) && CanCommit(db, c) && Reviews(c)
    ensures EventFits(db, c)
  {
    assert RowOk(db.wallets, db.txns[c.txn]);
    Unroll(db, PlanIn(c, db).value);
  }

  lemma DepositFits(db: Db, c: Call)
    requires Books(db) && CanCommit(db, c) && c.AddMoney?
    ensures EventFits(db, c)
  {
    assert RowOf(c) in Drawn(c);
    Unroll(db, PlanIn(c, db).value);
  }

  lemma TransferFits(db: Db, c: Call)
    requires Books(db) && CanCommit(db, c) && c.Transfer?
    ensures EventFits(db, c)
  {
    assert RowOf(c) in Drawn(c);
    Unroll(db, PlanIn(c, db).value);
  }

  lemma CommitTells(db: Db, c: Call)
    requires Books(db) && CanCommit(db, c) && Announced(c) != {}
    ensures var db' := After(db, c);
            c.event in db'.outbox && Tells(db', db'.outbox[c.event], RowOf(c))
    ensures !Decided(db, RowOf(c)) && Decided(After(db, c), RowOf(c))
  {
    if Reviews(c) {
      ReviewFits(db, c);
      assert RowOk(db.wallets, db.txns[c.txn]);
    } else if c.AddMoney? {
      DepositFits(db, c);
    } else {
      TransferFits(db, c);
    }
    EventMatchesRow(db, c);
  }

  /** Only the row its event tells of is decided by a call. */
  lemma CommitDecidesOneRow(db: Db, c: Call, id: Id)
    requires Books(db) && CanCommit(db, c) && Decided(After(db, c), id) && !Decided(db, id)
    ensures Announced(c) != {} && id == RowOf(c)
  {
    match c
    case CreateWallet(_, _, _) => Unroll(db, PlanIn(c, db).value);
    case AddMoney(_, _, _, _, _, _) => var t := AddMoneyEffect(db, c);
    case RequestWithdrawal(_, _, _, _, _) => var t := RequestEffect(db, c);
    case Approve(_, _, _, _) => var t := ApproveEffect(db, c);
    case Reject(_, _, _, _, _) => var t := RejectEffect(db, c);
    case Adjust(_, _, _, _, _, _) => var t := AdjustEffect(db, c);
    case Transfer(_, _, _, _, _, _, _, _, _, _) => var o, i := TransferEffect(db, c);
  }

  // ---------- whole histories ----------

  /** Nothing a user was told is untold: owners, currencies, amounts and decided rows never change. */
  lemma TellingStays(db: Db, db': Db, e: OutboxRow, id: Id)
    requires Forward(db, db') && Decided(db, id) && Tells(db, e, id)
    ensures Decided(db', id) && Tells(db', e, id)
  {
    assert Evolves(db.txns[id], db'.txns[id]);
  }

  /** An event tells of one row: the one with its tag, or the incoming row of its transfer. */
  lemma OneRowPerEvent(db: Db, e: OutboxRow, id: Id, id': Id)
    requires Paired(db.txns) && Tells(db, e, id) && Tells(db, e, id')
    ensures id == id'
  {
    if e.notice.MoneyReceived? {
      assert SameHalf(db.txns[id], db.txns[id']);
    }
  }

  /** What was told of before still is. */
  lemma OldNewsStays(init: Db, db: Db, c: Call, e: Id, id: Id)
    requires Sound(db) && CanCommit(db, c) && TellsOf(init, db, e, id)
    ensures TellsOf(init, After(db, c), e, id)
  {
    CommitMovesRowsForward(db, c);
    EventsStay(db, c);
    TellingStays(db, After(db, c), db.outbox[e], id);
  }

  lemma NewNews(init: Db, db: Db, c: Call)
    requires Sound(db) && CanCommit(db, c) && Announced(c) != {} && Forward(init, db) && c.event !in init.outbox
    ensures TellsOf(init, After(db, c), c.event, RowOf(c))
  {
    CommitTells(db, c);
  }

  /** An event tells of a row after a commit if it did before, or is the commit's and tells of its row. */
  lemma NewsIsOldOrNew(init: Db, db: Db, c: Call, e: Id, id: Id)
    requires Sound(db) && CanCommit(db, c) && Correspond(init, db) && Forward(init, db)
    requires TellsOf(init, After(db, c), e, id)
    ensures TellsOf(init, db, e, id) || (Announced(c) == {e} && id == RowOf(c) && !Decided(db, id))
  {
    var db' := After(db, c);
    CommitKeepsPairs(db, c);
    CommitIsAnnounced(db, c);
    EventsStay(db, c);
    if e in db.outbox {
      assert NewEvent(init, db, e);
      var id' :| TellsOf(init, db, e, id');
      OldNewsStays(init, db, c, e, id');
      OneRowPerEvent(db', db'.outbox[e], id, id');
    } else {
      CommitTells(db, c);
      OneRowPerEvent(db', db'.outbox[e], id, RowOf(c));
    }
  }

  lemma EventsTell(init: Db, db: Db, c: Call, e: Id)
    requires Sound(db) && CanCommit(db, c) && Correspond(init, db) && Forward(init, db)
    requires NewEvent(init, After(db, c), e)
    ensures exists id :: TellsOf(init, After(db, c), e, id)
  {
    CommitIsAnnounced(db, c);
    if e in db.outbox {
      assert NewEvent(init, db, e);
      var id :| TellsOf(init, db, e, id);
      OldNewsStays(init, db, c, e, id);
    } else {
      NewNews(init, db, c);
    }
  }

  lemma DecisionsAreTold(init: Db, db: Db, c: Call, id: Id)
    requires Sound(db) && CanCommit(db, c) && Correspond(init, db) && Forward(init, db)
    requires init.outbox.Keys <= db.outbox.Keys && NewlyDecided(init, After(db, c), id)
    ensures exists e :: TellsOf(init, After(db, c), e, id)
  {
    if Decided(db, id) {
      assert NewlyDecided(init, db, id);
      var e :| TellsOf(init, db, e, id);
      OldNewsStays(init, db, c, e, id);
    } else {
      CommitDecidesOneRow(db, c, id);
      CommitIsAnnounced(db, c);
      NewNews(init, db, c);
    }
  }

  lemma OneEventPerRow(init: Db, db: Db, c: Call, e: Id, e': Id, id: Id)
    requires Sound(db) && CanCommit(db, c) && Correspond(init, db) && Forward(init, db)
    requires TellsOf(init, After(db, c), e, id) && TellsOf(init, After(db, c), e', id)
    ensures e == e'
  {
    NewsIsOldOrNew(init, db, c, e, id);
    NewsIsOldOrNew(init, db, c, e', id);
    assert {e} == {e'} ==> e in {e'};
  }

  lemma CommitKeepsCorrespondence(init: Db, db: Db, c: Call)
    requires Sound(db) && CanCommit(db, c) && Correspond(init, db) && Forward(init, db)
    requires init.outbox.Keys <= db.outbox.Keys
    ensures Correspond(init, After(db, c))
  {
    var db' := After(db, c);
    forall e | NewEvent(init, db', e)
      ensures exists id :: TellsOf(init, db', e, id)
    {
      EventsTell(init, db, c, e);
    }
    forall id | NewlyDecided(init, db', id)
      ensures exists e :: TellsOf(init, db', e, id)
    {
      DecisionsAreTold(init, db, c, id);
    }
    CommitKeepsPairs(db, c);
    forall e: Id, id: Id, id': Id | TellsOf(init, db', e, id) && TellsOf(init, db', e, id')
      ensures id == id'
    {
      OneRowPerEvent(db', db'.outbox[e], id, id');
    }
    forall e: Id, e': Id, id: Id | TellsOf(init, db', e, id) && TellsOf(init, db', e', id)
      ensures e == e'
    {
      OneEventPerRow(init, db, c, e, e', id);
    }
  }

  lemma {:induction false} HistoryIsTold(init: Db, log: seq<Entry>)
    requires Sound(init) && Faithful(init, log)
    ensures Correspond(init, Replay(init, log))
    decreases |log|
  {
    if log != [] {
      var rest, last := log[..|log| - 1], log[|log| - 1];
      HistoryIsTold(init, rest);
      if last.outcome.Committed? {
        HistoryIsSound(init, rest);
        HistoryIsAnnounced(init, rest);
        RowsMoveForwardOnly(init, rest, 0);
        CommitKeepsCorrespondence(init, Replay(init, rest), last.call);
      }
    }
  }

  /** In every concurrent run, the events added to the outbox and the rows decided correspond one to
    * one: each event tells the owner of a decided row's wallet that row's amount, currency and outcome,
    * and no decided row goes untold or is told of twice. */
  lemma RunTellsOwners(s: State, moves: seq<Move>, s': State)
    requires Start(s) && Run(s, moves, s')
    ensures Correspond(s.db, s'.db)
  {
    InterleavingIsSerial(s, moves, s');
    HistoryIsTold(s.db, s'.log);
  }
}
