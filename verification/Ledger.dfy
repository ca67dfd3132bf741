/** The wallet ledger: its tables, its calls, and what one call writes.
  *
  * backend/src/wallets/wallets.service.ts runs each call as one database transaction. PlanOf says
  * what that transaction writes, in statement order, given the rows it has read, or why it is
  * refused. The order of the tests in each plan is the order of the code.
  */
module Ledger {
  import opened Wrappers
  import opened Rates

  /** Row ids. The code draws them with randomUUID and compares them only for equality and, to
    * order two locks, by sorting; numbers have both. */
  type Id = nat

  // ---------- tables ----------

  datatype Wallet = Wallet(owner: Id, currency: string, balance: int)

  datatype Kind = Deposit | Withdrawal | Adjustment | TransferOut | TransferIn

  datatype Status = Pending | Approved | Rejected

  /** The three columns only the two rows of a transfer fill in. */
  datatype Link = Link(transferId: Id, counterparty: Id, rate: Option<Decimal>)

  datatype Txn = Txn(
    wallet: Id,
    kind: Kind,
    amount: int,
    before: Option<int>,
    after: Option<int>,
    status: Status,
    requestedBy: Id,
    reviewedBy: Option<Id>,
    note: Option<string>,
    link: Option<Link>)

  datatype Action =
    | DepositSettle | DepositApprove | DepositReject | WithdrawalApprove | WithdrawalReject
    | WalletAdjust | WalletTransfer

  datatype AuditRow = AuditRow(actor: Id, action: Action, entity: Id, before: Option<int>, after: Option<int>)

  datatype Notice =
    | MoneyAdded | DepositApproved | WithdrawalSent | DepositDeclined | WithdrawalDeclined | MoneyReceived

  datatype OutboxRow = OutboxRow(user: Id, notice: Notice, amount: int, currency: string, tag: Id)

  /** The committed tables. settled is a history variable, not a column: the ids of the approved
    * rows in the order in which they were approved. */
  datatype Db = Db(
    wallets: map<Id, Wallet>,
    txns: map<Id, Txn>,
    settled: seq<Id>,
    audit: seq<AuditRow>,
    outbox: map<Id, OutboxRow>)

  /** Balances and amounts are 32-bit integer columns. */
  const INT4_MAX: int := 0x7FFF_FFFF

  predicate InRange(n: int) {
    -INT4_MAX - 1 <= n <= INT4_MAX
  }

  // ---------- calls ----------

  datatype Permission = ApproveDeposits | ApproveWithdrawals

  /** One API call. held is the reviewer's permission set as the call reads it; quote is what the
    * rate provider answers, None when it fails; the ids after the arguments are the random ids
    * the call draws. */
  datatype Call =
    | CreateWallet(actor: Id, currency: string, newWallet: Id)
    | AddMoney(wallet: Id, actor: Id, amount: nat, note: Option<string>, row: Id, event: Id)
    | RequestWithdrawal(wallet: Id, actor: Id, amount: nat, note: Option<string>, row: Id)
    | Approve(txn: Id, actor: Id, held: set<Permission>, event: Id)
    | Reject(txn: Id, actor: Id, held: set<Permission>, note: Option<string>, event: Id)
    | Adjust(wallet: Id, actor: Id, credit: bool, amount: nat, note: Option<string>, row: Id)
    | Transfer(from: Id, to: Id, actor: Id, amount: nat, note: Option<string>, quote: Option<Decimal>,
               transferId: Id, outRow: Id, inRow: Id, event: Id)

  datatype Refusal =
    | NotFound | Forbidden | AlreadyReviewed | InsufficientFunds | NegativeBalance | SameWallet
    | RateUnavailable | OutOfRange

  /** What the request validators guarantee (amounts are integers of at least 1), and that the
    * random ids of one call differ. */
  predicate WellFormed(c: Call) {
    match c
    case CreateWallet(_, _, _) => true
    case Approve(_, _, _, _) => true
    case Reject(_, _, _, _, _) => true
    case AddMoney(_, _, amount, _, row, event) => amount >= 1 && row != event
    case RequestWithdrawal(_, _, amount, _, _) => amount >= 1
    case Adjust(_, _, _, amount, _, _) => amount >= 1
    case Transfer(_, _, _, amount, _, _, transferId, outRow, inRow, event) =>
      amount >= 1 && outRow != inRow && transferId !in {outRow, inRow, event} && event !in {outRow, inRow}
  }

  /** The random ids the call draws. */
  function Drawn(c: Call): set<Id> {
    match c
    case CreateWallet(_, _, id) => {id}
    case AddMoney(_, _, _, _, row, event) => {row, event}
    case RequestWithdrawal(_, _, _, _, row) => {row}
    case Approve(_, _, _, event) => {event}
    case Reject(_, _, _, _, event) => {event}
    case Adjust(_, _, _, _, _, row) => {row}
    case Transfer(_, _, _, _, _, _, transferId, outRow, inRow, event) => {transferId, outRow, inRow, event}
  }

  // ---------- writes ----------

  datatype Write =
    | InsertWallet(id: Id, wallet: Wallet)
    | SetBalance(id: Id, balance: int)
    | PutTxn(id: Id, txn: Txn)
    | LogAudit(audit: AuditRow)
    | Enqueue(id: Id, event: OutboxRow)

  function ApplyWrite(db: Db, w: Write): Db {
    match w
    case InsertWallet(id, wallet) => db.(wallets := db.wallets[id := wallet])
    case SetBalance(id, balance) =>
      if id in db.wallets
      then db.(wallets := db.wallets[id := db.wallets[id].(balance := balance)])
      else db
    case PutTxn(id, txn) =>
      db.(txns := db.txns[id := txn],
          settled := if txn.status.Approved? then db.settled + [id] else db.settled)
    case LogAudit(row) => db.(audit := db.audit + [row])
    case Enqueue(id, event) => db.(outbox := db.outbox[id := event])
  }

  function Apply(db: Db, ws: seq<Write>): Db
    decreases |ws|
  {
    if ws == [] then db else Apply(ApplyWrite(db, ws[0]), ws[1..])
  }

  /** Every integer the write stores fits its column. */
  predicate Storable(w: Write) {
    match w
    case InsertWallet(_, wallet) => InRange(wallet.balance)
    case SetBalance(_, balance) => InRange(balance)
    case PutTxn(_, txn) =>
      && InRange(txn.amount)
      && (txn.before.Some? ==> InRange(txn.before.value))
      && (txn.after.Some? ==> InRange(txn.after.value))
    case LogAudit(_) => true
    case Enqueue(_, _) => true
  }

  /** A statement that does not fit its column fails, and the whole transaction with it. */
  function Stored(ws: seq<Write>): Result<seq<Write>, Refusal> {
    if forall i :: 0 <= i < |ws| ==> Storable(ws[i]) then Ok(ws) else Err(OutOfRange)
  }

  // ---------- what each call writes ----------

  type Plan = Result<seq<Write>, Refusal>

  function OwnedBy(wallets: map<Id, Wallet>, wallet: Id, actor: Id): Option<Refusal> {
    if wallet !in wallets then Some(NotFound)
    else if wallets[wallet].owner != actor then Some(Forbidden)
    else None
  }

  predicate MayReview(t: Txn, held: set<Permission>) {
    (if t.kind.Withdrawal? then ApproveWithdrawals else ApproveDeposits) in held
  }

  function PlanAddMoney(c: Call, wallets: map<Id, Wallet>): Plan
    requires c.AddMoney?
  {
    var owned := OwnedBy(wallets, c.wallet, c.actor);
    if owned.Some? then Err(owned.value) else
    var w := wallets[c.wallet];
    var after := w.balance + c.amount;
    Stored([
      SetBalance(c.wallet, after),
      PutTxn(c.row, Txn(c.wallet, Deposit, c.amount, Some(w.balance), Some(after), Approved,
                        c.actor, Some(c.actor), c.note, None)),
      LogAudit(AuditRow(c.actor, DepositSettle, c.row, Some(w.balance), Some(after))),
      Enqueue(c.event, OutboxRow(w.owner, MoneyAdded, c.amount, w.currency, c.row))])
  }

  /** The early test of the balance is advisory and belongs to the call, not to the plan. */
  function PlanRequestWithdrawal(c: Call, wallets: map<Id, Wallet>): Plan
    requires c.RequestWithdrawal?
  {
    var owned := OwnedBy(wallets, c.wallet, c.actor);
    if owned.Some? then Err(owned.value) else
    Stored([PutTxn(c.row, Txn(c.wallet, Withdrawal, c.amount, None, None, Pending,
                              c.actor, None, c.note, None))])
  }

  function PlanApprove(c: Call, wallets: map<Id, Wallet>, txns: map<Id, Txn>): Plan
    requires c.Approve?
  {
    if c.txn !in txns then Err(NotFound) else
    var t := txns[c.txn];
    if !MayReview(t, c.held) then Err(Forbidden)
    else if t.status != Pending then Err(AlreadyReviewed)
    else if t.wallet !in wallets then Err(NotFound) else
    var w := wallets[t.wallet];
    if t.kind.Withdrawal? && w.balance < t.amount then Err(InsufficientFunds) else
    var after := if t.kind.Withdrawal? then w.balance - t.amount else w.balance + t.amount;
    Stored([
      SetBalance(t.wallet, after),
      PutTxn(c.txn, t.(status := Approved, reviewedBy := Some(c.actor),
                       before := Some(w.balance), after := Some(after))),
      LogAudit(AuditRow(c.actor, if t.kind.Withdrawal? then WithdrawalApprove else DepositApprove,
                        c.txn, None, Some(after))),
      Enqueue(c.event, OutboxRow(w.owner, if t.kind.Withdrawal? then WithdrawalSent else DepositApproved,
                                 t.amount, w.currency, c.txn))])
  }

  function PlanReject(c: Call, wallets: map<Id, Wallet>, txns: map<Id, Txn>): Plan
    requires c.Reject?
  {
    if c.txn !in txns then Err(NotFound) else
    var t := txns[c.txn];
    if !MayReview(t, c.held) then Err(Forbidden)
    else if t.status != Pending then Err(AlreadyReviewed) else
    Stored([
      PutTxn(c.txn, t.(status := Rejected, reviewedBy := Some(c.actor),
                       note := if c.note.Some? then c.note else t.note)),
      LogAudit(AuditRow(c.actor, if t.kind.Withdrawal? then WithdrawalReject else DepositReject,
                        c.txn, None, None))]
      + if t.wallet !in wallets then [] else
        [Enqueue(c.event, OutboxRow(wallets[t.wallet].owner,
                                    if t.kind.Withdrawal? then WithdrawalDeclined else DepositDeclined,
                                    t.amount, wallets[t.wallet].currency, c.txn))])
  }

  function PlanAdjust(c: Call, wallets: map<Id, Wallet>): Plan
    requires c.Adjust?
  {
    if c.wallet !in wallets then Err(NotFound) else
    var before := wallets[c.wallet].balance;
    var after := if c.credit then before + c.amount else before - c.amount;
    if after < 0 then Err(NegativeBalance) else
    Stored([
      SetBalance(c.wallet, after),
      PutTxn(c.row, Txn(c.wallet, Adjustment, c.amount, Some(before), Some(after), Approved,
                        c.actor, Some(c.actor), c.note, None)),
      LogAudit(AuditRow(c.actor, WalletAdjust, c.wallet, Some(before), Some(after)))])
  }

  /** The rate a transfer between two currencies records: none when they are the same. */
  function RateFor(c: Call, from: Wallet, to: Wallet): Option<Decimal>
    requires c.Transfer?
  {
    if from.currency == to.currency then None else c.quote
  }

  /** What the receiver is credited, in the receiver's currency. */
  function CreditOf(amount: nat, rate: Option<Decimal>): nat {
    match rate
    case None => amount
    case Some(r) => ConvertMinor(amount, r)
  }

  function PlanTransfer(c: Call, wallets: map<Id, Wallet>): Plan
    requires c.Transfer?
  {
    if c.to == c.from then Err(SameWallet) else
    var owned := OwnedBy(wallets, c.from, c.actor);
    if owned.Some? then Err(owned.value)
    else if c.to !in wallets then Err(NotFound) else
    var from, to := wallets[c.from], wallets[c.to];
    if from.currency != to.currency && c.quote.None? then Err(RateUnavailable)
    else if from.balance < c.amount then Err(InsufficientFunds) else
    var rate := RateFor(c, from, to);
    Stored(TransferWrites(c, from, to, rate, CreditOf(c.amount, rate)))
  }

  /** The writes of a transfer once its rate and credit are known. */
  function TransferWrites(c: Call, from: Wallet, to: Wallet, rate: Option<Decimal>, credit: nat): seq<Write>
    requires c.Transfer?
  {
    var fromAfter, toAfter := from.balance - c.amount, to.balance + credit;
    [
      SetBalance(c.from, fromAfter),
      SetBalance(c.to, toAfter),
      PutTxn(c.outRow, Txn(c.from, TransferOut, c.amount, Some(from.balance), Some(fromAfter), Approved,
                           c.actor, Some(c.actor), c.note, Some(Link(c.transferId, c.to, rate)))),
      PutTxn(c.inRow, Txn(c.to, TransferIn, credit, Some(to.balance), Some(toAfter), Approved,
                          c.actor, Some(c.actor), c.note, Some(Link(c.transferId, c.from, rate)))),
      LogAudit(AuditRow(c.actor, WalletTransfer, c.from, Some(from.balance), Some(fromAfter))),
      Enqueue(c.event, OutboxRow(to.owner, MoneyReceived, credit, to.currency, c.transferId))]
  }

  function PlanOf(c: Call, wallets: map<Id, Wallet>, txns: map<Id, Txn>): Plan {
    match c
    case CreateWallet(actor, currency, id) => Ok([InsertWallet(id, Wallet(actor, currency, 0))])
    case AddMoney(_, _, _, _, _, _) => PlanAddMoney(c, wallets)
    case RequestWithdrawal(_, _, _, _, _) => PlanRequestWithdrawal(c, wallets)
    case Approve(_, _, _, _) => PlanApprove(c, wallets, txns)
    case Reject(_, _, _, _, _) => PlanReject(c, wallets, txns)
    case Adjust(_, _, _, _, _, _) => PlanAdjust(c, wallets)
    case Transfer(_, _, _, _, _, _, _, _, _, _) => PlanTransfer(c, wallets)
  }

  // ---------- one call at a time ----------

  /** The refusal a withdrawal request may also meet: at some earlier moment the balance was short. */
  predicate ShortOfFunds(c: Call, wallets: map<Id, Wallet>) {
    c.RequestWithdrawal? && c.wallet in wallets && wallets[c.wallet].owner == c.actor
    && wallets[c.wallet].balance < c.amount
  }

  /** The call run alone on db: the new tables, or the same tables and the reason. */
  function Atomic(db: Db, c: Call): (Db, Option<Refusal>) {
    if ShortOfFunds(c, db.wallets) then (db, Some(InsufficientFunds))
    else match PlanOf(c, db.wallets, db.txns)
      case Ok(ws) => (Apply(db, ws), None)
      case Err(e) => (db, Some(e))
  }

  /** None of the random ids of the call occurs in the tables. */
  ghost predicate Fresh(c: Call, db: Db) {
    && (forall i :: i in Drawn(c) ==> i !in db.wallets && i !in db.txns && i !in db.outbox)
    && (c.Transfer? ==>
          forall t :: t in db.txns && db.txns[t].link.Some? ==> db.txns[t].link.value.transferId != c.transferId)
  }
}
