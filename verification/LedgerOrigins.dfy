/** Where rows come from: in every concurrent run each new row and wallet was asked for by a committed
  * call, as it stands, and each row that left pending was reviewed by one with the permission to.
  */
module LedgerOrigins {
  import opened Wrappers
  import opened Ledger
  import opened LedgerLaws
  import opened LedgerHistory
  import opened LedgerOutcomes
  import opened LedgerSteps
  import opened LedgerSerial

  /** The row is the call's: in the wallet, of the kind and amount asked for, by the wallet's owner. A
    * rejection may have replaced the note of a withdrawal. */
  predicate Posts(c: Call, id: Id, t: Txn) {
    match c
    case AddMoney(wallet, actor, amount, note, row, _) =>
      && id == row && t.wallet == wallet && t.kind.Deposit? && t.amount == amount && t.note == note
      && t.requestedBy == actor && t.reviewedBy == Some(actor) && t.status.Approved?
    case RequestWithdrawal(wallet, actor, amount, note, row) =>
      && id == row && t.wallet == wallet && t.kind.Withdrawal? && t.amount == amount
      && t.requestedBy == actor && (t.note == note || t.status.Rejected?)
    case Adjust(wallet, actor, credit, amount, note, row) =>
      && id == row && t.wallet == wallet && t.kind.Adjustment? && t.amount == amount && t.note == note
      && t.requestedBy == actor && t.reviewedBy == Some(actor) && Settled(t)
      && t.after.value - t.before.value == (if credit then amount else 0 - amount)
    case _ => false
  }

  predicate SendsRow(c: Call, id: Id, t: Txn) {
    && c.Transfer? && id == c.outRow && t.wallet == c.from && t.kind.TransferOut? && t.amount == c.amount
    && t.note == c.note && t.requestedBy == c.actor && t.status.Approved?
    && t.link.Some? && t.link.value.transferId == c.transferId && t.link.value.counterparty == c.to
  }

  /** What the row credits is the amount sent, or in another currency that amount at the quoted rate,
    * which the row records. */
  ghost predicate ReceivesRow(c: Call, id: Id, t: Txn, wallets: map<Id, Wallet>) {
    && c.Transfer? && id == c.inRow && t.wallet == c.to && t.kind.TransferIn?
    && t.note == c.note && t.requestedBy == c.actor && t.status.Approved?
    && t.link.Some? && t.link.value.transferId == c.transferId && t.link.value.counterparty == c.from
    && c.from in wallets && c.to in wallets
    && if wallets[c.from].currency == wallets[c.to].currency
       then t.amount == c.amount && t.link.value.rate.None?
       else c.quote.Some? && t.link.value.rate == c.quote && CreditsNearest(t.amount, c.amount, c.quote.value)
  }

  /** Only staff adjust a wallet that is not theirs. */
  predicate ByOwner(c: Call, wallets: map<Id, Wallet>) {
    match c
    case AddMoney(wallet, actor, _, _, _, _) => wallet in wallets && wallets[wallet].owner == actor
    case RequestWithdrawal(wallet, actor, _, _, _) => wallet in wallets && wallets[wallet].owner == actor
    case Transfer(from, _, actor, _, _, _, _, _, _, _) => from in wallets && wallets[from].owner == actor
    case _ => true
  }

  ghost predicate Made(c: Call, id: Id, t: Txn, wallets: map<Id, Wallet>) {
    (Posts(c, id, t) || SendsRow(c, id, t) || ReceivesRow(c, id, t, wallets)) && ByOwner(c, wallets)
  }

  /** The row was decided by that call, whose actor held the permission for its kind. */
  predicate Reviewed(c: Call, id: Id, t: Txn) {
    && (c.Approve? || c.Reject?) && c.txn == id && t.reviewedBy == Some(c.actor)
    && (t.status.Approved? <==> c.Approve?) && (t.status.Rejected? <==> c.Reject?)
    && (if t.kind.Withdrawal? then ApproveWithdrawals in c.held else ApproveDeposits in c.held)
    && (c.Reject? && c.note.Some? ==> t.note == c.note)
  }

  predicate Opened(c: Call, id: Id, w: Wallet) {
    c.CreateWallet? && c.newWallet == id && w.owner == c.actor && w.currency == c.currency
  }

  // ---------- one commit ----------

  /** A row after a commit: made by the call, decided by it, or left alone. */
  ghost predicate Explains(db: Db, c: Call, id: Id)
    requires PlanIn(c, db).Ok? && id in After(db, c).txns
  {
    var t := After(db, c).txns[id];
    if id !in db.txns then Made(c, id, t, After(db, c).wallets) && (t.kind.Withdrawal? ==> t.status.Pending?)
    else t == db.txns[id] || (Moves(db.txns[id], t) && Reviewed(c, id, t))
  }

  lemma ApprovalExplains(db: Db, c: Call, id: Id)
    requires Books(db) && CanCommit(db, c) && c.Approve? && id in After(db, c).txns
    ensures Explains(db, c, id)
  {
    Unroll(db, PlanIn(c, db).value);
    ReviewOutcome(db, c);
  }

  lemma RejectionExplains(db: Db, c: Call, id: Id)
    requires Books(db) && CanCommit(db, c) && c.Reject? && id in After(db, c).txns
    ensures Explains(db, c, id)
  {
    Unroll(db, PlanIn(c, db).value);
    ReviewOutcome(db, c);
  }

  lemma PostingExplains(db: Db, c: Call, id: Id)
    requires Books(db) && CanCommit(db, c) && id in After(db, c).txns
    requires c.AddMoney? || c.Adjust?
    ensures Explains(db, c, id)
  {
    Unroll(db, PlanIn(c, db).value);
    assert c.row in Drawn(c);
  }

  lemma RequestExplains(db: Db, c: Call, id: Id)
    requires Books(db) && CanCommit(db, c) && id in After(db, c).txns
    requires c.RequestWithdrawal? || c.CreateWallet?
    ensures Explains(db, c, id)
  {
    Unroll(db, PlanIn(c, db).value);
    if c.RequestWithdrawal? {
      assert c.row in Drawn(c);
    }
  }

  /** The two rows of a transfer, but for what is credited. */
  lemma TransferPosts(db: Db, c: Call)
    requires Books(db) && CanCommit(db, c) && c.Transfer?
    ensures var db' := After(db, c);
            && c.outRow in db'.txns && c.inRow in db'.txns
            && db'.txns == db.txns[c.outRow := db'.txns[c.outRow]][c.inRow := db'.txns[c.inRow]]
            && SendsRow(c, c.outRow, db'.txns[c.outRow])
    ensures var i := After(db, c).txns[c.inRow];
            && i.wallet == c.to && i.kind.TransferIn? && i.note == c.note && i.requestedBy == c.actor
            && i.status.Approved? && i.link.Some?
            && i.link.value == Link(c.transferId, c.from, RateFor(c, db.wallets[c.from], db.wallets[c.to]))
  {
    Unroll(db, PlanIn(c, db).value);
  }

  lemma TransferExplains(db: Db, c: Call, id: Id)
    requires Books(db) && CanCommit(db, c) && c.Transfer? && id in After(db, c).txns
    ensures Explains(db, c, id)
  {
    TransferPosts(db, c);
    TransferMoves(db, c);
    TransferCreditsNearest(db, c);
    assert c.outRow in Drawn(c) && c.inRow in Drawn(c);
  }

  lemma CommitExplains(db: Db, c: Call, id: Id)
    requires Books(db) && CanCommit(db, c) && id in After(db, c).txns
    ensures Explains(db, c, id)
  {
    if c.Approve? {
      ApprovalExplains(db, c, id);
    } else if c.Reject? {
      RejectionExplains(db, c, id);
    } else if c.Transfer? {
      TransferExplains(db, c, id);
    } else if c.AddMoney? || c.Adjust? {
      PostingExplains(db, c, id);
    } else {
      RequestExplains(db, c, id);
    }
  }

  lemma CommitOpens(db: Db, c: Call, w: Id)
    requires Books(db) && CanCommit(db, c) && w in After(db, c).wallets && w !in db.wallets
    ensures Opened(c, w, After(db, c).wallets[w])
  {
    match c
    case CreateWallet(_, _, _) => OpeningOutcome(db, c);
    case AddMoney(_, _, _, _, _, _) => var t := AddMoneyEffect(db, c);
    case RequestWithdrawal(_, _, _, _, _) => var t := RequestEffect(db, c);
    case Approve(_, _, _, _) => var t := ApproveEffect(db, c);
    case Reject(_, _, _, _, _) => var t := RejectEffect(db, c);
    case Adjust(_, _, _, _, _, _) => var t := AdjustEffect(db, c);
    case Transfer(_, _, _, _, _, _, _, _, _, _) => var o, i := TransferEffect(db, c);
  }

  // ---------- whole histories ----------

  ghost predicate MadeIn(log: seq<Entry>, id: Id, t: Txn, wallets: map<Id, Wallet>) {
    exists k :: 0 <= k < |log| && log[k].outcome.Committed? && Made(log[k].call, id, t, wallets)
  }

  ghost predicate ReviewedIn(log: seq<Entry>, id: Id, t: Txn) {
    exists k :: 0 <= k < |log| && log[k].outcome.Committed? && Reviewed(log[k].call, id, t)
  }

  ghost predicate OpenedIn(log: seq<Entry>, id: Id, w: Wallet) {
    exists k :: 0 <= k < |log| && log[k].outcome.Committed? && Opened(log[k].call, id, w)
  }

  /** The row was there and pending, or was made pending: a review has decided it. */
  predicate NeedsReview(init: Db, id: Id, t: Txn) {
    && !t.status.Pending?
    && if id in init.txns then init.txns[id].status.Pending? else t.kind.Withdrawal?
  }

  ghost predicate RowHasOrigin(init: Db, log: seq<Entry>, db: Db, id: Id) {
    id in db.txns ==>
      && (id !in init.txns ==> MadeIn(log, id, db.txns[id], db.wallets))
      && (NeedsReview(init, id, db.txns[id]) ==> ReviewedIn(log, id, db.txns[id]))
  }

  ghost predicate WalletHasOrigin(init: Db, log: seq<Entry>, db: Db, w: Id) {
    w in db.wallets && w !in init.wallets ==> OpenedIn(log, w, db.wallets[w])
  }

  /** What made a row still accounts for it as it is now. */
  lemma MadeStays(db: Db, db': Db, c: Call, id: Id)
    requires Forward(db, db') && id in db.txns && Made(c, id, db.txns[id], db.wallets)
    ensures Made(c, id, db'.txns[id], db'.wallets)
  {
    assert Evolves(db.txns[id], db'.txns[id]);
  }

  lemma MadeInStays(db: Db, db': Db, log: seq<Entry>, e: Entry, id: Id)
    requires Forward(db, db') && id in db.txns && MadeIn(log, id, db.txns[id], db.wallets)
    ensures id in db'.txns && MadeIn(log + [e], id, db'.txns[id], db'.wallets)
  {
    var k :| 0 <= k < |log| && log[k].outcome.Committed? && Made(log[k].call, id, db.txns[id], db.wallets);
    MadeStays(db, db', log[k].call, id);
    assert (log + [e])[k] == log[k];
  }

  lemma ReviewedInStays(log: seq<Entry>, e: Entry, id: Id, t: Txn)
    requires ReviewedIn(log, id, t)
    ensures ReviewedIn(log + [e], id, t)
  {
    var k :| 0 <= k < |log| && log[k].outcome.Committed? && Reviewed(log[k].call, id, t);
    assert (log + [e])[k] == log[k];
  }

  lemma CommitKeepsOrigin(init: Db, db: Db, log: seq<Entry>, c: Call, id: Id)
    requires Books(db) && CanCommit(db, c) && Forward(init, db) && RowHasOrigin(init, log, db, id)
    ensures RowHasOrigin(init, log + [Entry(c, Committed)], After(db, c), id)
  {
    var db', e := After(db, c), Entry(c, Committed);
    assert (log + [e])[|log|] == e;
    CommitMovesRowsForward(db, c);
    if id in db'.txns {
      CommitExplains(db, c, id);
      if id in db.txns {
        if id !in init.txns {
          MadeInStays(db, db', log, e, id);
        }
        if NeedsReview(init, id, db.txns[id]) {
          ReviewedInStays(log, e, id, db.txns[id]);
        }
      }
    }
  }

  lemma CommitKeepsWalletOrigin(init: Db, db: Db, log: seq<Entry>, c: Call, w: Id)
    requires Books(db) && CanCommit(db, c) && WalletHasOrigin(init, log, db, w)
    ensures WalletHasOrigin(init, log + [Entry(c, Committed)], After(db, c), w)
  {
    var db', e := After(db, c), Entry(c, Committed);
    assert (log + [e])[|log|] == e;
    if w in db'.wallets && w !in init.wallets {
      if w in db.wallets {
        CommitMovesRowsForward(db, c);
        var k :| 0 <= k < |log| && log[k].outcome.Committed? && Opened(log[k].call, w, db.wallets[w]);
        assert (log + [e])[k] == log[k];
        assert Opened(log[k].call, w, db'.wallets[w]);
      } else {
        CommitOpens(db, c, w);
      }
    }
  }

  lemma NothingKeepsOrigin(init: Db, db: Db, log: seq<Entry>, e: Entry, id: Id)
    requires RowHasOrigin(init, log, db, id) && WalletHasOrigin(init, log, db, id)
    ensures RowHasOrigin(init, log + [e], db, id) && WalletHasOrigin(init, log + [e], db, id)
  {
    assert forall k :: 0 <= k < |log| ==> (log + [e])[k] == log[k];
  }

  lemma {:induction false} HistoryHasOrigins(init: Db, log: seq<Entry>, id: Id)
    requires Sound(init) && Faithful(init, log)
    ensures RowHasOrigin(init, log, Replay(init, log), id) && WalletHasOrigin(init, log, Replay(init, log), id)
    decreases |log|
  {
    if log != [] {
      var rest, last := log[..|log| - 1], log[|log| - 1];
      HistoryHasOrigins(init, rest, id);
      assert log == rest + [last];
      if last.outcome.Committed? {
        HistoryIsSound(init, rest);
        RowsMoveForwardOnly(init, rest, 0);
        CommitKeepsOrigin(init, Replay(init, rest), rest, last.call, id);
        CommitKeepsWalletOrigin(init, Replay(init, rest), rest, last.call, id);
      } else {
        NothingKeepsOrigin(init, Replay(init, rest), rest, last, id);
      }
    }
  }

  /** In every concurrent run a row that was added was asked for, as it stands, by a committed call of
    * the wallet's owner, or of staff for an adjustment; a transfer credits the amount sent, converted
    * at the quoted rate to the nearest unit between currencies. A row that has left pending was
    * reviewed by a committed call whose actor held the permission for rows of its kind. A wallet that
    * was added was opened by its owner. */
  lemma RunRowsHaveOrigins(s: State, moves: seq<Move>, s': State, id: Id)
    requires Start(s) && Run(s, moves, s')
    ensures id in s'.db.txns && id !in s.db.txns ==> MadeIn(s'.log, id, s'.db.txns[id], s'.db.wallets)
    ensures id in s'.db.txns && NeedsReview(s.db, id, s'.db.txns[id]) ==> ReviewedIn(s'.log, id, s'.db.txns[id])
    ensures id in s'.db.wallets && id !in s.db.wallets ==> OpenedIn(s'.log, id, s'.db.wallets[id])
  {
    InterleavingIsSerial(s, moves, s');
    HistoryHasOrigins(s.db, s'.log, id);
  }
}
