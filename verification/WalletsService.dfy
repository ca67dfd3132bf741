/** The service itself, statement by statement, one call at a time.
  *
  * Each method does what the body of the corresponding transaction does, in the same order, on
  * tables held in fields, and is proved to compute what Ledger.Atomic says of the whole call. A
  * statement that fails rolls every earlier one back. Row locks do nothing when calls come one
  * at a time; LedgerSteps puts them back.
  */
module WalletsServices {
  import opened Wrappers
  import opened Rates
  import opened Ledger
  import opened LedgerLaws
  import opened LedgerOutcomes

  lemma OkIsStorable(plan: Plan)
    requires plan.Ok? ==> exists ws :: plan == Stored(ws)
    ensures plan.Ok? && |plan.value| > 1 ==> Storable(plan.value[0]) && Storable(plan.value[1])
    ensures plan.Ok? && |plan.value| > 3 ==> Storable(plan.value[2]) && Storable(plan.value[3])
  {
  }

  class WalletsService {
    var wallets: map<Id, Wallet>
    var txns: map<Id, Txn>
    ghost var settled: seq<Id>
    var audit: seq<AuditRow>
    var outbox: map<Id, OutboxRow>

    constructor ()
      ensures Contents() == Db(map[], map[], [], [], map[])
    {
      wallets, txns, settled, audit, outbox := map[], map[], [], [], map[];
    }

    ghost function Contents(): Db
      reads this
    {
      Db(wallets, txns, settled, audit, outbox)
    }

    // ---------- statements ----------

    method UpdateBalance(id: Id, balance: int) returns (ok: bool)
      modifies this
      ensures ok == Storable(SetBalance(id, balance))
      ensures Contents() == if ok then ApplyWrite(old(Contents()), SetBalance(id, balance)) else old(Contents())
    {
      ok := InRange(balance);
      if ok && id in wallets {
        wallets := wallets[id := wallets[id].(balance := balance)];
      }
    }

    method WriteTxn(id: Id, t: Txn) returns (ok: bool)
      modifies this
      ensures ok == Storable(PutTxn(id, t))
      ensures Contents() == if ok then ApplyWrite(old(Contents()), PutTxn(id, t)) else old(Contents())
    {
      ok := && InRange(t.amount)
            && (t.before.Some? ==> InRange(t.before.value))
            && (t.after.Some? ==> InRange(t.after.value));
      if ok {
        txns := txns[id := t];
        settled := if t.status.Approved? then settled + [id] else settled;
      }
    }

    method Log(row: AuditRow)
      modifies this
      ensures Contents() == ApplyWrite(old(Contents()), LogAudit(row))
    {
      audit := audit + [row];
    }

    method Notify(id: Id, event: OutboxRow)
      modifies this
      ensures Contents() == ApplyWrite(old(Contents()), Enqueue(id, event))
    {
      outbox := outbox[id := event];
    }

    /** Back to the tables as they were when the transaction began. */
    method Rollback(ws: map<Id, Wallet>, ts: map<Id, Txn>, ghost log: seq<Id>, rows: seq<AuditRow>,
                    events: map<Id, OutboxRow>)
      modifies this
      ensures Contents() == Db(ws, ts, log, rows, events)
    {
      wallets, txns, settled, audit, outbox := ws, ts, log, rows, events;
    }

    method GetOwnedWallet(id: Id, actor: Id) returns (refusal: Option<Refusal>)
      ensures refusal == Some(NotFound) <==> id !in wallets
      ensures refusal == Some(Forbidden) <==> id in wallets && wallets[id].owner != actor
      ensures refusal.None? <==> id in wallets && wallets[id].owner == actor
    {
      if id !in wallets {
        return Some(NotFound);
      }
      if wallets[id].owner != actor {
        return Some(Forbidden);
      }
      return None;
    }

    // ---------- calls ----------

    method OpenWallet(actor: Id, currency: string, newWallet: Id)
      modifies this
      ensures Contents() == Atomic(old(Contents()), CreateWallet(actor, currency, newWallet)).0
    {
      wallets := wallets[newWallet := Wallet(actor, currency, 0)];
      Unroll(old(Contents()), [InsertWallet(newWallet, Wallet(actor, currency, 0))]);
    }

    method Deposit(wallet: Id, actor: Id, amount: nat, note: Option<string>, row: Id, event: Id)
      returns (refusal: Option<Refusal>)
      modifies this
      ensures (Contents(), refusal) == Atomic(old(Contents()), AddMoney(wallet, actor, amount, note, row, event))
    {
      ghost var c, db := AddMoney(wallet, actor, amount, note, row, event), Contents();
      refusal := GetOwnedWallet(wallet, actor);
      if refusal.Some? {
        return;
      }
      var ws, ts, rows, events := wallets, txns, audit, outbox;
      ghost var log := settled;
      var w := wallets[wallet];
      var before, after := w.balance, w.balance + amount;
      var ok := UpdateBalance(wallet, after);
      if ok {
        ok := WriteTxn(row, Txn(wallet, Kind.Deposit, amount, Some(before), Some(after), Approved,
                                actor, Some(actor), note, None));
      }
      if !ok {
        Rollback(ws, ts, log, rows, events);
        OkIsStorable(PlanIn(c, db));
        return Some(OutOfRange);
      }
      Log(AuditRow(actor, DepositSettle, row, Some(before), Some(after)));
      Notify(event, OutboxRow(w.owner, MoneyAdded, amount, w.currency, row));
      Unroll(db, PlanIn(c, db).value);
    }

    method RequestWithdrawal(wallet: Id, actor: Id, amount: nat, note: Option<string>, row: Id)
      returns (refusal: Option<Refusal>)
      modifies this
      ensures (Contents(), refusal)
           == Atomic(old(Contents()), Call.RequestWithdrawal(wallet, actor, amount, note, row))
    {
      ghost var c, db := Call.RequestWithdrawal(wallet, actor, amount, note, row), Contents();
      refusal := GetOwnedWallet(wallet, actor);
      if refusal.Some? {
        return;
      }
      if wallets[wallet].balance < amount {
        return Some(InsufficientFunds);
      }
      var ok := WriteTxn(row, Txn(wallet, Withdrawal, amount, None, None, Pending, actor, None, note, None));
      if !ok {
        return Some(OutOfRange);
      }
      Unroll(db, PlanIn(c, db).value);
    }

    method Approve(txn: Id, actor: Id, held: set<Permission>, event: Id) returns (refusal: Option<Refusal>)
      modifies this
      ensures (Contents(), refusal) == Atomic(old(Contents()), Call.Approve(txn, actor, held, event))
      ensures refusal == Some(Forbidden)
         <==> txn in old(txns)
              && if old(txns)[txn].kind.Withdrawal? then ApproveWithdrawals !in held else ApproveDeposits !in held
    {
      ghost var c, db := Call.Approve(txn, actor, held, event), Contents();
      ReviewOutcome(db, c);
      if txn !in txns {
        return Some(NotFound);
      }
      var t := txns[txn];
      if !MayReview(t, held) {
        return Some(Forbidden);
      }
      if t.status != Pending {
        return Some(AlreadyReviewed);
      }
      if t.wallet !in wallets {
        return Some(NotFound);
      }
      var ws, ts, rows, events := wallets, txns, audit, outbox;
      ghost var log := settled;
      var w := wallets[t.wallet];
      var before, after := w.balance, 0;
      if t.kind == Withdrawal {
        if before < t.amount {
          return Some(InsufficientFunds);
        }
        after := before - t.amount;
      } else {
        after := before + t.amount;
      }
      var ok := UpdateBalance(t.wallet, after);
      if ok {
        ok := WriteTxn(txn, t.(status := Approved, reviewedBy := Some(actor),
                               before := Some(before), after := Some(after)));
      }
      if !ok {
        Rollback(ws, ts, log, rows, events);
        OkIsStorable(PlanIn(c, db));
        return Some(OutOfRange);
      }
      Log(AuditRow(actor, if t.kind == Withdrawal then WithdrawalApprove else DepositApprove, txn, None, Some(after)));
      Notify(event, OutboxRow(w.owner, if t.kind == Withdrawal then WithdrawalSent else DepositApproved,
                              t.amount, w.currency, txn));
      Unroll(db, PlanIn(c, db).value);
      return None;
    }

    method Reject(txn: Id, actor: Id, held: set<Permission>, note: Option<string>, event: Id)
      returns (refusal: Option<Refusal>)
      modifies this
      ensures (Contents(), refusal) == Atomic(old(Contents()), Call.Reject(txn, actor, held, note, event))
      ensures refusal == Some(Forbidden)
         <==> txn in old(txns)
              && if old(txns)[txn].kind.Withdrawal? then ApproveWithdrawals !in held else ApproveDeposits !in held
    {
      ghost var c, db := Call.Reject(txn, actor, held, note, event), Contents();
      ReviewOutcome(db, c);
      if txn !in txns {
        return Some(NotFound);
      }
      var t := txns[txn];
      if !MayReview(t, held) {
        return Some(Forbidden);
      }
      if t.status != Pending {
        return Some(AlreadyReviewed);
      }
      var note' := if note.Some? then note else t.note;
      var ok := WriteTxn(txn, t.(status := Rejected, reviewedBy := Some(actor), note := note'));
      if !ok {
        return Some(OutOfRange);
      }
      Log(AuditRow(actor, if t.kind == Withdrawal then WithdrawalReject else DepositReject, txn, None, None));
      if t.wallet in wallets {
        var w := wallets[t.wallet];
        Notify(event, OutboxRow(w.owner, if t.kind == Withdrawal then WithdrawalDeclined else DepositDeclined,
                                t.amount, w.currency, txn));
      }
      Unroll(db, PlanIn(c, db).value);
      return None;
    }

    method Adjust(wallet: Id, actor: Id, credit: bool, amount: nat, note: Option<string>, row: Id)
      returns (refusal: Option<Refusal>)
      modifies this
      ensures (Contents(), refusal) == Atomic(old(Contents()), Call.Adjust(wallet, actor, credit, amount, note, row))
    {
      ghost var c, db := Call.Adjust(wallet, actor, credit, amount, note, row), Contents();
      if wallet !in wallets {
        return Some(NotFound);
      }
      var before := wallets[wallet].balance;
      var after := if credit then before + amount else before - amount;
      if after < 0 {
        return Some(NegativeBalance);
      }
      var ws, ts, rows, events := wallets, txns, audit, outbox;
      ghost var log := settled;
      var ok := UpdateBalance(wallet, after);
      if ok {
        ok := WriteTxn(row, Txn(wallet, Adjustment, amount, Some(before), Some(after), Approved,
                                actor, Some(actor), note, None));
      }
      if !ok {
        Rollback(ws, ts, log, rows, events);
        OkIsStorable(PlanIn(c, db));
        return Some(OutOfRange);
      }
      Log(AuditRow(actor, WalletAdjust, wallet, Some(before), Some(after)));
      Unroll(db, PlanIn(c, db).value);
      return None;
    }

    method Transfer(from: Id, to: Id, actor: Id, amount: nat, note: Option<string>, quote: Option<Decimal>,
                    transferId: Id, outRow: Id, inRow: Id, event: Id)
      returns (refusal: Option<Refusal>)
      modifies this
      ensures (Contents(), refusal)
           == Atomic(old(Contents()),
                     Call.Transfer(from, to, actor, amount, note, quote, transferId, outRow, inRow, event))
      ensures refusal.None? ==>
                && from in old(wallets) && to in old(wallets) && to != from && inRow in txns
                && wallets.Keys == old(wallets).Keys
                && wallets[from].balance == old(wallets)[from].balance - amount
                && wallets[to].balance == old(wallets)[to].balance + txns[inRow].amount
                && if old(wallets)[from].currency == old(wallets)[to].currency then txns[inRow].amount == amount
                   else quote.Some? && CreditsNearest(txns[inRow].amount, amount, quote.value)
    {
      var c := Call.Transfer(from, to, actor, amount, note, quote, transferId, outRow, inRow, event);
      ghost var db := Contents();
      if to == from {
        return Some(SameWallet);
      }
      refusal := GetOwnedWallet(from, actor);
      if refusal.Some? {
        return;
      }
      if to !in wallets {
        return Some(NotFound);
      }
      var source, dest := wallets[from], wallets[to];
      var rate: Option<Decimal>, credit := None, amount;
      if source.currency != dest.currency {
        if quote.None? {
          return Some(RateUnavailable);
        }
        rate, credit := quote, ConvertMinor(amount, quote.value);
      }
      if source.balance < amount {
        return Some(InsufficientFunds);
      }
      var ok := MoveBetween(c, source, dest, rate, credit);
      OkIsStorable(PlanIn(c, db));
      if ok {
        TransferMoves(db, c);
        TransferCreditsNearest(db, c);
      }
      return if ok then None else Some(OutOfRange);
    }

    /** Both balances of a transfer; after a failure the caller rolls back. */
    method UpdateBothBalances(c: Call, source: Wallet, dest: Wallet, rate: Option<Decimal>, credit: nat)
      returns (ok: bool)
      requires c.Transfer?
      modifies this
      ensures var ws := TransferWrites(c, source, dest, rate, credit);
              && ok == (Storable(ws[0]) && Storable(ws[1]))
              && (ok ==> Contents() == ApplyWrite(ApplyWrite(old(Contents()), ws[0]), ws[1]))
    {
      ok := UpdateBalance(c.from, source.balance - c.amount);
      if ok {
        ok := UpdateBalance(c.to, dest.balance + credit);
      }
    }

    /** The two rows of a transfer; after a failure the caller rolls back. */
    method WriteBothRows(c: Call, source: Wallet, dest: Wallet, rate: Option<Decimal>, credit: nat) returns (ok: bool)
      requires c.Transfer?
      modifies this
      ensures var ws := TransferWrites(c, source, dest, rate, credit);
              && ok == (Storable(ws[2]) && Storable(ws[3]))
              && (ok ==> Contents() == ApplyWrite(ApplyWrite(old(Contents()), ws[2]), ws[3]))
    {
      var fromAfter, toAfter := source.balance - c.amount, dest.balance + credit;
      ok := WriteTxn(c.outRow, Txn(c.from, TransferOut, c.amount, Some(source.balance), Some(fromAfter), Approved,
                                   c.actor, Some(c.actor), c.note, Some(Link(c.transferId, c.to, rate))));
      if ok {
        ok := WriteTxn(c.inRow, Txn(c.to, TransferIn, credit, Some(dest.balance), Some(toAfter), Approved,
                                    c.actor, Some(c.actor), c.note, Some(Link(c.transferId, c.from, rate))));
      }
    }

    /** The transaction of a transfer, all its statements or none. */
    method MoveBetween(c: Call, source: Wallet, dest: Wallet, rate: Option<Decimal>, credit: nat) returns (ok: bool)
      requires c.Transfer?
      modifies this
      ensures ok == Stored(TransferWrites(c, source, dest, rate, credit)).Ok?
      ensures Contents() == if ok then Apply(old(Contents()), TransferWrites(c, source, dest, rate, credit))
                            else old(Contents())
    {
      ghost var db := Contents();
      var ws, ts, rows, events := wallets, txns, audit, outbox;
      ghost var log := settled;
      ok := UpdateBothBalances(c, source, dest, rate, credit);
      if ok {
        ok := WriteBothRows(c, source, dest, rate, credit);
      }
      OkIsStorable(Stored(TransferWrites(c, source, dest, rate, credit)));
      if !ok {
        Rollback(ws, ts, log, rows, events);
        return;
      }
      Log(AuditRow(c.actor, WalletTransfer, c.from, Some(source.balance), Some(source.balance - c.amount)));
      Notify(c.event, OutboxRow(dest.owner, MoneyReceived, credit, dest.currency, c.transferId));
      Unroll(db, TransferWrites(c, source, dest, rate, credit));
    }
  }
}
