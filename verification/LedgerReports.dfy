/** What auditors read: in every concurrent run each entry added to the audit trail reports one row as
  * the ledger holds it, and goes on doing so.
  */
module LedgerReports {
  import opened Wrappers
  import opened Ledger
  import opened LedgerLaws
  import opened LedgerHistory
  import opened LedgerSteps
  import opened LedgerSerial

  /** The kind and outcome of row an action stands for. */
  predicate Performs(action: Action, t: Txn) {
    match action
    case DepositSettle => t.kind.Deposit? && Settled(t)
    case DepositApprove => t.kind.Deposit? && Settled(t)
    case DepositReject => t.kind.Deposit? && t.status.Rejected?
    case WithdrawalApprove => t.kind.Withdrawal? && Settled(t)
    case WithdrawalReject => t.kind.Withdrawal? && t.status.Rejected?
    case WalletAdjust => t.kind.Adjustment? && Settled(t)
    case WalletTransfer => t.kind.TransferOut? && Settled(t)
  }

  /** The entry's action was done to the row by its actor, its balances are the row's, and its entity is
    * the row or, for adjustments and transfers, the row's wallet. A review records no opening balance. */
  predicate Reports(txns: map<Id, Txn>, a: AuditRow, id: Id) {
    && id in txns
    && var t := txns[id];
       Performs(a.action, t) && t.reviewedBy == Some(a.actor)
       && a.after == t.after && (a.before == t.before || a.before.None?)
       && a.entity == if a.action.WalletAdjust? || a.action.WalletTransfer? then t.wallet else id
  }

  ghost predicate Reported(txns: map<Id, Txn>, a: AuditRow) {
    exists id :: Reports(txns, a, id)
  }

  lemma ReportStays(db: Db, db': Db, a: AuditRow)
    requires Forward(db, db') && Reported(db.txns, a)
    ensures Reported(db'.txns, a)
  {
    var id :| Reports(db.txns, a, id);
    assert Evolves(db.txns[id], db'.txns[id]);
    assert Reports(db'.txns, a, id);
  }

  /** The row a committed call's audit entry reports: for a transfer, the sender's. */
  function Reviewed(c: Call): Id
    requires !c.CreateWallet? && !c.RequestWithdrawal?
  {
    if c.Transfer? then c.outRow else RowOf(c)
  }

  ghost predicate AddsReport(db: Db, c: Call)
    requires PlanIn(c, db).Ok? && !c.CreateWallet? && !c.RequestWithdrawal?
  {
    var db' := After(db, c);
    && |db'.audit| == |db.audit| + 1 && db'.audit[..|db.audit|] == db.audit
    && Reports(db'.txns, db'.audit[|db.audit|], Reviewed(c))
  }

  lemma ApprovalReports(db: Db, c: Call)
    requires Books(db) && CanCommit(db, c) && c.Approve?
    ensures AddsReport(db, c)
  {
    assert RowOk(db.wallets, db.txns[c.txn]);
    Unroll(db, PlanIn(c, db).value);
  }

  lemma RejectionReports(db: Db, c: Call)
    requires Books(db) && CanCommit(db, c) && c.Reject?
    ensures AddsReport(db, c)
  {
    assert RowOk(db.wallets, db.txns[c.txn]);
    Unroll(db, PlanIn(c, db).value);
  }

  lemma WalletCallReports(db: Db, c: Call)
    requires Books(db) && CanCommit(db, c) && (c.AddMoney? || c.Adjust?)
    ensures AddsReport(db, c)
  {
    Unroll(db, PlanIn(c, db).value);
  }

  lemma TransferReports(db: Db, c: Call)
    requires Books(db) && CanCommit(db, c) && c.Transfer?
    ensures AddsReport(db, c)
  {
    Unroll(db, PlanIn(c, db).value);
  }

  lemma CommitReports(db: Db, c: Call)
    requires Books(db) && CanCommit(db, c)
    ensures if c.CreateWallet? || c.RequestWithdrawal? then After(db, c).audit == db.audit else AddsReport(db, c)
  {
    if c.CreateWallet? || c.RequestWithdrawal? {
      Unroll(db, PlanIn(c, db).value);
    } else if c.Approve? {
      ApprovalReports(db, c);
    } else if c.Reject? {
      RejectionReports(db, c);
    } else if c.Transfer? {
      TransferReports(db, c);
    } else {
      WalletCallReports(db, c);
    }
  }

  /** The trail has only grown since init, and every entry added reports a row. */
  ghost predicate Audited(init: Db, db: Db) {
    && init.audit <= db.audit
    && forall i :: |init.audit| <= i < |db.audit| ==> Reported(db.txns, db.audit[i])
  }

  lemma CommitKeepsReports(init: Db, db: Db, c: Call)
    requires Books(db) && CanCommit(db, c) && Audited(init, db)
    ensures Audited(init, After(db, c))
  {
    var db' := After(db, c);
    CommitReports(db, c);
    CommitMovesRowsForward(db, c);
    assert init.audit <= db'.audit;
    forall i | |init.audit| <= i < |db'.audit|
      ensures Reported(db'.txns, db'.audit[i])
    {
      if i < |db.audit| {
        assert db'.audit[i] == db.audit[i];
        ReportStays(db, db', db.audit[i]);
      }
    }
  }

  lemma {:induction false} HistoryIsReported(init: Db, log: seq<Entry>)
    requires Sound(init) && Faithful(init, log)
    ensures Audited(init, Replay(init, log))
    decreases |log|
  {
    if log != [] {
      var rest, last := log[..|log| - 1], log[|log| - 1];
      HistoryIsReported(init, rest);
      HistoryIsSound(init, rest);
      if last.outcome.Committed? {
        CommitKeepsReports(init, Replay(init, rest), last.call);
      }
    }
  }

  /** In every concurrent run each entry added to the audit trail names an actor who did just that to a
    * row the ledger holds, with the row's own balances; and no entry is ever taken out or rewritten. */
  lemma RunReportsRows(s: State, moves: seq<Move>, s': State)
    requires Start(s) && Run(s, moves, s')
    ensures Audited(s.db, s'.db)
  {
    InterleavingIsSerial(s, moves, s');
    HistoryIsReported(s.db, s'.log);
  }
}
