/** What each call comes to, in terms of the tables and of what was asked: when it is refused and for
  * which reason, and what a transfer credits. A call is refused for one reason, the first that applies.
  */
module LedgerOutcomes {
  import opened Wrappers
  import opened Numbers
  import opened Rounding
  import opened Rates
  import opened Ledger
  import opened LedgerLaws

  /** Why the call, run alone, is refused, if it is. */
  function RefusalOf(db: Db, c: Call): Option<Refusal> {
    Atomic(db, c).1
  }

  predicate Owns(db: Db, actor: Id, wallet: Id) {
    wallet in db.wallets && db.wallets[wallet].owner == actor
  }

  /** A new wallet is the actor's, in the currency asked for, and empty. */
  lemma OpeningOutcome(db: Db, c: Call)
    requires c.CreateWallet?
    ensures RefusalOf(db, c).None?
    ensures Atomic(db, c).0 == db.(wallets := db.wallets[c.newWallet := Wallet(c.actor, c.currency, 0)])
  {
    Unroll(db, PlanIn(c, db).value);
  }

  lemma DepositOutcome(db: Db, c: Call)
    requires c.AddMoney?
    ensures RefusalOf(db, c) == Some(NotFound) <==> c.wallet !in db.wallets
    ensures RefusalOf(db, c) == Some(Forbidden) <==> c.wallet in db.wallets && db.wallets[c.wallet].owner != c.actor
    ensures Books(db) ==>
              (RefusalOf(db, c) == Some(OutOfRange)
               <==> Owns(db, c.actor, c.wallet) && db.wallets[c.wallet].balance + c.amount > 0x7FFF_FFFF)
    ensures RefusalOf(db, c).Some? ==> RefusalOf(db, c).value in {NotFound, Forbidden, OutOfRange}
  {
    assert Books(db) && c.wallet in db.wallets ==> 0 <= db.wallets[c.wallet].balance;
  }

  /** The balance is tested when the request is made; nothing is held back. */
  lemma WithdrawalOutcome(db: Db, c: Call)
    requires c.RequestWithdrawal?
    ensures RefusalOf(db, c) == Some(NotFound) <==> c.wallet !in db.wallets
    ensures RefusalOf(db, c) == Some(Forbidden) <==> c.wallet in db.wallets && db.wallets[c.wallet].owner != c.actor
    ensures RefusalOf(db, c) == Some(InsufficientFunds)
       <==> Owns(db, c.actor, c.wallet) && db.wallets[c.wallet].balance < c.amount
    ensures Books(db) && RefusalOf(db, c).Some? ==>
              RefusalOf(db, c).value in {NotFound, Forbidden, InsufficientFunds}
  {
    assert Books(db) && c.wallet in db.wallets ==> db.wallets[c.wallet].balance <= INT4_MAX;
  }

  /** The row is there, and the reviewer holds the permission for rows of its kind. */
  predicate Permitted(db: Db, c: Call)
    requires c.Approve? || c.Reject?
  {
    && c.txn in db.txns
    && if db.txns[c.txn].kind.Withdrawal? then ApproveWithdrawals in c.held else ApproveDeposits in c.held
  }

  /** A review of an existing row is forbidden exactly when the permission for its kind is missing, and
    * one that is permitted is refused as already reviewed exactly when the row is not pending. */
  lemma ReviewOutcome(db: Db, c: Call)
    requires c.Approve? || c.Reject?
    ensures c.txn !in db.txns ==> RefusalOf(db, c) == Some(NotFound)
    ensures RefusalOf(db, c) == Some(Forbidden)
       <==> c.txn in db.txns
            && ((db.txns[c.txn].kind.Withdrawal? && ApproveWithdrawals !in c.held)
                || (!db.txns[c.txn].kind.Withdrawal? && ApproveDeposits !in c.held))
    ensures RefusalOf(db, c) == Some(AlreadyReviewed) <==> Permitted(db, c) && !db.txns[c.txn].status.Pending?
    ensures Books(db) ==> (RefusalOf(db, c) == Some(NotFound) <==> c.txn !in db.txns)
  {
    assert Books(db) && c.txn in db.txns ==> RowOk(db.wallets, db.txns[c.txn]);
  }

  lemma ApprovalOutcome(db: Db, c: Call)
    requires c.Approve? && Books(db) && Permitted(db, c) && db.txns[c.txn].status.Pending?
    ensures db.txns[c.txn].wallet in db.wallets
    ensures var t := db.txns[c.txn];
            var balance := db.wallets[t.wallet].balance;
            && (RefusalOf(db, c) == Some(InsufficientFunds) <==> t.kind.Withdrawal? && balance < t.amount)
            && (RefusalOf(db, c) == Some(OutOfRange) <==> !t.kind.Withdrawal? && balance + t.amount > 0x7FFF_FFFF)
            && (RefusalOf(db, c).Some? ==> RefusalOf(db, c).value in {InsufficientFunds, OutOfRange})
  {
    assert RowOk(db.wallets, db.txns[c.txn]);
    var balance := db.wallets[db.txns[c.txn].wallet].balance;
    assert 0 <= balance <= INT4_MAX;
  }

  lemma RejectionOutcome(db: Db, c: Call)
    requires c.Reject? && Books(db) && Permitted(db, c) && db.txns[c.txn].status.Pending?
    ensures RefusalOf(db, c).None? <==> db.txns[c.txn].amount <= 0x7FFF_FFFF
  {
    assert RowOk(db.wallets, db.txns[c.txn]);
  }

  lemma AdjustmentOutcome(db: Db, c: Call)
    requires c.Adjust? && Books(db)
    ensures RefusalOf(db, c) == Some(NotFound) <==> c.wallet !in db.wallets
    ensures RefusalOf(db, c) == Some(NegativeBalance)
       <==> c.wallet in db.wallets && !c.credit && db.wallets[c.wallet].balance < c.amount
    ensures RefusalOf(db, c) == Some(OutOfRange)
       <==> c.wallet in db.wallets && c.credit && db.wallets[c.wallet].balance + c.amount > 0x7FFF_FFFF
    ensures RefusalOf(db, c).Some? ==> RefusalOf(db, c).value in {NotFound, NegativeBalance, OutOfRange}
  {
    assert c.wallet in db.wallets ==> 0 <= db.wallets[c.wallet].balance <= INT4_MAX;
  }

  // ---------- transfers ----------

  /** Two wallets, the first one the sender's. */
  predicate Ready(db: Db, c: Call)
    requires c.Transfer?
  {
    c.to != c.from && Owns(db, c.actor, c.from) && c.to in db.wallets
  }

  predicate NeedsRate(db: Db, c: Call)
    requires c.Transfer? && Ready(db, c)
  {
    db.wallets[c.from].currency != db.wallets[c.to].currency
  }

  lemma TransferOutcome(db: Db, c: Call)
    requires c.Transfer?
    ensures RefusalOf(db, c) == Some(SameWallet) <==> c.to == c.from
    ensures RefusalOf(db, c) == Some(Forbidden)
       <==> c.to != c.from && c.from in db.wallets && db.wallets[c.from].owner != c.actor
    ensures RefusalOf(db, c) == Some(NotFound)
       <==> c.to != c.from && (c.from !in db.wallets || (Owns(db, c.actor, c.from) && c.to !in db.wallets))
    ensures RefusalOf(db, c) == Some(RateUnavailable) <==> Ready(db, c) && NeedsRate(db, c) && c.quote.None?
    ensures RefusalOf(db, c) == Some(InsufficientFunds)
       <==> Ready(db, c) && !(NeedsRate(db, c) && c.quote.None?) && db.wallets[c.from].balance < c.amount
    ensures RefusalOf(db, c).Some? ==>
              RefusalOf(db, c).value
                in {SameWallet, Forbidden, NotFound, RateUnavailable, InsufficientFunds, OutOfRange}
  {
  }

  /** The amount of the incoming row of a transfer that went through. */
  function Credited(db: Db, c: Call): int
    requires c.Transfer? && c.inRow in db.txns
  {
    db.txns[c.inRow].amount
  }

  /** A transfer takes its amount from the sender, gives the receiver what its incoming row says, and
    * changes no other wallet. */
  lemma TransferMoves(db: Db, c: Call)
    requires c.Transfer? && RefusalOf(db, c).None?
    ensures var db' := Atomic(db, c).0;
            && Ready(db, c) && c.inRow in db'.txns
            && db'.wallets
               == db.wallets[c.from := db.wallets[c.from].(balance := db.wallets[c.from].balance - c.amount)]
                            [c.to := db.wallets[c.to].(balance := db.wallets[c.to].balance + Credited(db', c))]
  {
    Unroll(db, PlanIn(c, db).value);
  }

  lemma CreditIsConverted(db: Db, c: Call)
    requires c.Transfer? && RefusalOf(db, c).None?
    ensures c.inRow in Atomic(db, c).0.txns
    ensures var credit := Credited(Atomic(db, c).0, c);
            && Ready(db, c) && credit <= INT4_MAX
            && if NeedsRate(db, c) then c.quote.Some? && credit == ConvertMinor(c.amount, c.quote.value)
               else credit == c.amount
  {
    var ws := PlanIn(c, db).value;
    assert Storable(ws[3]);
    Unroll(db, ws);
  }

  /** What is credited between two currencies is the amount times the rate, rounded once to the nearest
    * minor unit with ties to even, if and only if cutting the product to twenty digits made no tie; so
    * for every product of at most twenty digits. In one currency it is the amount. */
  lemma TransferCreditsNearest(db: Db, c: Call)
    requires c.Transfer? && RefusalOf(db, c).None?
    ensures c.inRow in Atomic(db, c).0.txns
    ensures var credit := Credited(Atomic(db, c).0, c);
            && Ready(db, c)
            && (!NeedsRate(db, c) ==> credit == c.amount)
            && (NeedsRate(db, c) ==> c.quote.Some? && CreditsNearest(credit, c.amount, c.quote.value))
  {
    CreditIsConverted(db, c);
    if NeedsRate(db, c) {
      CreditedIsNearest(c.amount, c.quote.value);
    }
  }

  ghost predicate CreditsNearest(credit: int, amount: nat, rate: Decimal) {
    var product, unit := amount * rate.coef, Pow10(rate.scale);
    && (NearestTiesEven(credit, product, unit) <==> !Tipped(amount, rate))
    && (product < Pow10(20) ==> NearestTiesEven(credit, product, unit))
  }

  lemma StorableIsSmall(amount: nat, rate: Decimal)
    requires ConvertMinor(amount, rate) <= INT4_MAX
    ensures amount * rate.coef < Pow10(19 + rate.scale)
  {
    if amount * rate.coef >= Pow10(19 + rate.scale) {
      LargeConvertsLarge(amount, rate);
      Pow10Grows(10, 19);
    }
  }

  lemma CreditedIsNearest(amount: nat, rate: Decimal)
    requires ConvertMinor(amount, rate) <= INT4_MAX
    ensures CreditsNearest(ConvertMinor(amount, rate), amount, rate)
  {
    StorableIsSmall(amount, rate);
    ConvertIsNearestIffNotTipped(amount, rate);
    if amount * rate.coef < Pow10(20) {
      DigitsBound(amount * rate.coef, 20);
      ConvertIsNearest(amount, rate, ConvertMinor(amount, rate));
    }
  }
}
