/** What every committed call keeps true of the books, and what whole histories of calls add up to. */
module LedgerLaws {
  import opened Wrappers
  import opened Ledger
  import opened Sums

  // ---------- the books ----------

  /** The signed amount a settled row moves. An adjustment row does not store its direction: only
    * its two balances tell a credit from a debit. */
  function Signed(t: Txn): int
    requires t.before.Some? && t.after.Some?
  {
    match t.kind
    case Deposit => t.amount
    case TransferIn => t.amount
    case Withdrawal => -t.amount
    case TransferOut => -t.amount
    case Adjustment => if t.before.value <= t.after.value then t.amount else -t.amount
  }

  predicate Settled(t: Txn) {
    t.status.Approved? && t.before.Some? && t.after.Some? && t.after.value == t.before.value + Signed(t)
  }

  /** Read backwards from balance, the settled rows of one wallet form an unbroken chain that
    * starts at zero: each row ends where the next one begins. */
  ghost predicate Chain(txns: map<Id, Txn>, log: seq<Id>, wallet: Id, balance: int)
    decreases |log|
  {
    if log == [] then balance == 0 else
    var last, rest := log[|log| - 1], log[..|log| - 1];
    last in txns && Settled(txns[last]) &&
    if txns[last].wallet != wallet then Chain(txns, rest, wallet, balance)
    else txns[last].after.value == balance && Chain(txns, rest, wallet, txns[last].before.value)
  }

  ghost predicate RowOk(wallets: map<Id, Wallet>, t: Txn) {
    && t.wallet in wallets
    && t.amount >= 0
    && (t.status.Approved? ==> Settled(t))
    && (!t.status.Approved? ==> (t.kind.Deposit? || t.kind.Withdrawal?) && t.before.None? && t.after.None?)
    && (t.link.Some? <==> t.kind.TransferOut? || t.kind.TransferIn?)
  }

  ghost predicate Distinct(log: seq<Id>) {
    forall i, j :: 0 <= i < j < |log| ==> log[i] != log[j]
  }

  ghost predicate Books(db: Db) {
    && (forall w :: w in db.wallets ==>
          0 <= db.wallets[w].balance <= INT4_MAX && Chain(db.txns, db.settled, w, db.wallets[w].balance))
    && Distinct(db.settled)
    && (forall id :: id in db.settled <==> id in db.txns && db.txns[id].status.Approved?)
    && (forall id :: id in db.txns ==> RowOk(db.wallets, db.txns[id]))
    && (forall w :: w !in db.wallets ==> Chain(db.txns, db.settled, w, 0))
  }

  lemma {:induction false} ChainFrame(txns: map<Id, Txn>, txns': map<Id, Txn>, log: seq<Id>, wallet: Id, balance: int)
    requires Chain(txns, log, wallet, balance)
    requires forall id :: id in log && id in txns ==> id in txns' && txns'[id] == txns[id]
    ensures Chain(txns', log, wallet, balance)
    decreases |log|
  {
    if log != [] {
      var last, rest := log[|log| - 1], log[..|log| - 1];
      assert last in log;
      assert forall id :: id in rest ==> id in log;
      ChainFrame(txns, txns', rest, wallet,
                 if txns[last].wallet != wallet then balance else txns[last].before.value);
    }
  }

  // ---------- postings ----------

  /** The effect of settling one row: the balance moves to the row's closing balance. */
  function Posted(db: Db, id: Id, t: Txn): Db
    requires t.wallet in db.wallets && t.after.Some?
  {
    db.(wallets := db.wallets[t.wallet := db.wallets[t.wallet].(balance := t.after.value)],
        txns := db.txns[id := t],
        settled := db.settled + [id])
  }

  ghost predicate CanPost(db: Db, id: Id, t: Txn) {
    && t.wallet in db.wallets
    && Settled(t) && t.before.value == db.wallets[t.wallet].balance && 0 <= t.after.value <= INT4_MAX
    && t.amount >= 0
    && (t.link.Some? <==> t.kind.TransferOut? || t.kind.TransferIn?)
    && (id in db.txns ==> !db.txns[id].status.Approved?)
  }

  /** Each wallet's chain goes on: through the new row if it is the row's wallet, past it if not. */
  lemma PostingKeepsChain(db: Db, id: Id, t: Txn, w: Id)
    requires Books(db) && CanPost(db, id, t)
    ensures var db' := Posted(db, id, t);
            Chain(db'.txns, db'.settled, w, if w in db'.wallets then db'.wallets[w].balance else 0)
  {
    var db' := Posted(db, id, t);
    assert db'.settled[..|db.settled|] == db.settled;
    assert id !in db.settled;
    ChainFrame(db.txns, db'.txns, db.settled, w, if w in db.wallets then db.wallets[w].balance else 0);
  }

  lemma PostingKeepsBooks(db: Db, id: Id, t: Txn)
    requires Books(db) && CanPost(db, id, t)
    ensures Books(Posted(db, id, t))
  {
    var db' := Posted(db, id, t);
    assert id !in db.settled;
    forall w
      ensures Chain(db'.txns, db'.settled, w, if w in db'.wallets then db'.wallets[w].balance else 0)
    {
      PostingKeepsChain(db, id, t, w);
    }
  }

  /** A row that is not approved, in place of none or of one not approved, leaves the books alone. */
  lemma PuttingUnsettledKeepsBooks(db: Db, id: Id, t: Txn)
    requires Books(db) && RowOk(db.wallets, t) && !t.status.Approved?
    requires id in db.txns ==> !db.txns[id].status.Approved?
    ensures Books(db.(txns := db.txns[id := t]))
  {
    var db' := db.(txns := db.txns[id := t]);
    forall w
      ensures w in db.wallets ==> Chain(db'.txns, db'.settled, w, db.wallets[w].balance)
      ensures w !in db.wallets ==> Chain(db'.txns, db'.settled, w, 0)
    {
      ChainFrame(db.txns, db'.txns, db.settled, w, if w in db.wallets then db.wallets[w].balance else 0);
    }
  }

  lemma NewWalletKeepsBooks(db: Db, id: Id, w: Wallet)
    requires Books(db) && id !in db.wallets && w.balance == 0
    ensures Books(db.(wallets := db.wallets[id := w]))
  {
  }

  // ---------- the effect of each call, as postings ----------

  function PlanIn(c: Call, db: Db): Plan {
    PlanOf(c, db.wallets, db.txns)
  }

  /** The tables after a call whose plan succeeded. */
  function After(db: Db, c: Call): Db
    requires PlanIn(c, db).Ok?
  {
    Apply(db, PlanIn(c, db).value)
  }

  predicate SameBooks(db: Db, db': Db) {
    db.wallets == db'.wallets && db.txns == db'.txns && db.settled == db'.settled
  }

  /** The write at index i, if there is one. */
  function Nth(db: Db, ws: seq<Write>, i: nat): Db {
    if i < |ws| then ApplyWrite(db, ws[i]) else db
  }

  lemma {:induction false} Unroll(db: Db, ws: seq<Write>)
    requires |ws| <= 6
    ensures Apply(db, ws) == Nth(Nth(Nth(Nth(Nth(Nth(db, ws, 0), ws, 1), ws, 2), ws, 3), ws, 4), ws, 5)
    decreases |ws|
  {
    if ws != [] {
      Unroll(ApplyWrite(db, ws[0]), ws[1..]);
    }
  }

  lemma AddMoneyEffect(db: Db, c: Call) returns (t: Txn)
    requires c.AddMoney? && PlanIn(c, db).Ok? && Books(db) && Fresh(c, db)
    ensures t.wallet == c.wallet && t.kind == Deposit && t.amount == c.amount && CanPost(db, c.row, t)
    ensures SameBooks(After(db, c), Posted(db, c.row, t))
  {
    var ws := PlanIn(c, db).value;
    assert Storable(ws[0]);
    Unroll(db, ws);
    t := ws[1].txn;
  }

  lemma RequestEffect(db: Db, c: Call) returns (t: Txn)
    requires c.RequestWithdrawal? && PlanIn(c, db).Ok?
    ensures t.wallet == c.wallet && t.kind == Withdrawal && t.amount == c.amount && t.status == Pending
    ensures c.wallet in db.wallets && (Books(db) ==> RowOk(db.wallets, t))
    ensures SameBooks(After(db, c), db.(txns := db.txns[c.row := t]))
  {
    Unroll(db, PlanIn(c, db).value);
    t := PlanIn(c, db).value[0].txn;
  }

  lemma ApproveEffect(db: Db, c: Call) returns (t: Txn)
    requires c.Approve? && PlanIn(c, db).Ok? && Books(db)
    ensures c.txn in db.txns && CanPost(db, c.txn, t) && Moves(db.txns[c.txn], t)
    ensures SameBooks(After(db, c), Posted(db, c.txn, t))
  {
    var ws := PlanIn(c, db).value;
    assert Storable(ws[0]);
    Unroll(db, ws);
    t := ws[1].txn;
  }

  lemma RejectEffect(db: Db, c: Call) returns (t: Txn)
    requires c.Reject? && PlanIn(c, db).Ok? && Books(db)
    ensures c.txn in db.txns && t.status == Rejected && RowOk(db.wallets, t) && Moves(db.txns[c.txn], t)
    ensures SameBooks(After(db, c), db.(txns := db.txns[c.txn := t]))
  {
    Unroll(db, PlanIn(c, db).value);
    t := PlanIn(c, db).value[0].txn;
  }

  lemma AdjustEffect(db: Db, c: Call) returns (t: Txn)
    requires c.Adjust? && PlanIn(c, db).Ok? && Books(db) && Fresh(c, db) && WellFormed(c)
    ensures t.wallet == c.wallet && t.kind == Adjustment && t.amount == c.amount && CanPost(db, c.row, t)
    ensures t.after.value - t.before.value == if c.credit then c.amount else 0 - c.amount
    ensures SameBooks(After(db, c), Posted(db, c.row, t))
  {
    var ws := PlanIn(c, db).value;
    assert Storable(ws[0]);
    Unroll(db, ws);
    t := ws[1].txn;
  }

  /** The two rows of one transfer: same id and rate, each naming the other's wallet, and the
    * credit is the debit converted at that rate. */
  ghost predicate Mates(o: Txn, i: Txn) {
    && o.kind.TransferOut? && i.kind.TransferIn? && o.link.Some? && i.link.Some?
    && o.link.value.transferId == i.link.value.transferId
    && o.link.value.rate == i.link.value.rate
    && o.link.value.counterparty == i.wallet && i.link.value.counterparty == o.wallet
    && o.wallet != i.wallet
    && o.amount >= 0 && i.amount == CreditOf(o.amount, o.link.value.rate)
  }

  lemma TransferRows(db: Db, c: Call) returns (o: Txn, i: Txn)
    requires c.Transfer? && PlanIn(c, db).Ok? && Books(db) && Fresh(c, db) && WellFormed(c)
    ensures c.from in db.wallets && c.to in db.wallets && c.from != c.to
    ensures var ws := PlanIn(c, db).value;
            |ws| == 6 && ws[2] == PutTxn(c.outRow, o) && ws[3] == PutTxn(c.inRow, i)
    ensures Mates(o, i) && o.wallet == c.from && i.wallet == c.to && o.amount == c.amount
    ensures o.link.value.transferId == c.transferId
    ensures o.link.value.rate == RateFor(c, db.wallets[c.from], db.wallets[c.to])
    ensures CanPost(db, c.outRow, o) && CanPost(Posted(db, c.outRow, o), c.inRow, i)
  {
    var ws := PlanIn(c, db).value;
    assert Storable(ws[0]) && Storable(ws[1]);
    o, i := ws[2].txn, ws[3].txn;
  }

  /** The tables after the writes of a transfer whose rows are o and i. */
  lemma TransferApplies(db: Db, c: Call, o: Txn, i: Txn)
    requires c.Transfer? && PlanIn(c, db).Ok? && c.from in db.wallets && c.to in db.wallets && c.from != c.to
    requires var ws := PlanIn(c, db).value; |ws| == 6 && ws[2] == PutTxn(c.outRow, o) && ws[3] == PutTxn(c.inRow, i)
    ensures var from, to := db.wallets[c.from], db.wallets[c.to];
            && o.after.Some? && i.after.Some? && o.status.Approved? && i.status.Approved?
            && SameBooks(
                 After(db, c),
                 db.(wallets := db.wallets[c.from := from.(balance := o.after.value)]
                                          [c.to := to.(balance := i.after.value)],
                     txns := db.txns[c.outRow := o][c.inRow := i],
                     settled := db.settled + [c.outRow] + [c.inRow]))
  {
    Unroll(db, PlanIn(c, db).value);
  }

  lemma TransferEffect(db: Db, c: Call) returns (o: Txn, i: Txn)
    requires c.Transfer? && PlanIn(c, db).Ok? && Books(db) && Fresh(c, db) && WellFormed(c)
    ensures c.from in db.wallets && c.to in db.wallets && c.from != c.to && c.outRow != c.inRow
    ensures Mates(o, i) && o.wallet == c.from && i.wallet == c.to && o.amount == c.amount
    ensures o.link.value.transferId == c.transferId
    ensures o.link.value.rate == RateFor(c, db.wallets[c.from], db.wallets[c.to])
    ensures CanPost(db, c.outRow, o) && CanPost(Posted(db, c.outRow, o), c.inRow, i)
    ensures SameBooks(After(db, c), Posted(Posted(db, c.outRow, o), c.inRow, i))
  {
    o, i := TransferRows(db, c);
    TransferApplies(db, c, o, i);
  }

  /** The one way a row changes: it leaves pending and keeps everything that was asked for. */
  predicate Moves(t: Txn, t': Txn) {
    && t.status.Pending? && !t'.status.Pending?
    && t'.wallet == t.wallet && t'.kind == t.kind && t'.amount == t.amount
    && t'.requestedBy == t.requestedBy && t'.link == t.link
    && (t'.status.Approved? ==> t'.note == t.note)
  }

  predicate Evolves(t: Txn, t': Txn) {
    t' == t || Moves(t, t')
  }

  // ---------- one commit ----------

  ghost predicate CanCommit(db: Db, c: Call) {
    WellFormed(c) && Fresh(c, db) && PlanIn(c, db).Ok?
  }

  /** The four ways a committed call changes the books. */
  datatype Change =
    | Opens(id: Id, wallet: Wallet)
    | Puts(id: Id, txn: Txn)
    | Settles(id: Id, txn: Txn)
    | SettlesPair(id: Id, txn: Txn, inRow: Id, mate: Txn)

  ghost predicate Lawful(db: Db, ch: Change) {
    match ch
    case Opens(id, w) => id !in db.wallets && w.balance == 0
    case Puts(id, t) =>
      RowOk(db.wallets, t) && !t.status.Approved? && (id in db.txns ==> Moves(db.txns[id], t))
    case Settles(id, t) =>
      CanPost(db, id, t) && t.link.None? && (id in db.txns ==> Moves(db.txns[id], t))
    case SettlesPair(id, o, inRow, i) =>
      && id != inRow && id !in db.txns && inRow !in db.txns && Mates(o, i)
      && CanPost(db, id, o) && CanPost(Posted(db, id, o), inRow, i)
      && (forall t :: t in db.txns && db.txns[t].link.Some?
            ==> db.txns[t].link.value.transferId != o.link.value.transferId)
  }

  function Changed(db: Db, ch: Change): Db
    requires Lawful(db, ch)
  {
    match ch
    case Opens(id, w) => db.(wallets := db.wallets[id := w])
    case Puts(id, t) => db.(txns := db.txns[id := t])
    case Settles(id, t) => Posted(db, id, t)
    case SettlesPair(id, o, inRow, i) => Posted(Posted(db, id, o), inRow, i)
  }

  lemma CommitIsChange(db: Db, c: Call) returns (ch: Change)
    requires Books(db) && CanCommit(db, c)
    ensures Lawful(db, ch) && SameBooks(After(db, c), Changed(db, ch))
  {
    match c
    case CreateWallet(_, _, _) =>
      Unroll(db, PlanIn(c, db).value);
      ch := Opens(c.newWallet, Wallet(c.actor, c.currency, 0));
    case AddMoney(_, _, _, _, _, _) =>
      var t := AddMoneyEffect(db, c);
      ch := Settles(c.row, t);
    case RequestWithdrawal(_, _, _, _, _) =>
      var t := RequestEffect(db, c);
      ch := Puts(c.row, t);
    case Approve(_, _, _, _) =>
      var t := ApproveEffect(db, c);
      ch := Settles(c.txn, t);
    case Reject(_, _, _, _, _) =>
      var t := RejectEffect(db, c);
      ch := Puts(c.txn, t);
    case Adjust(_, _, _, _, _, _) =>
      var t := AdjustEffect(db, c);
      ch := Settles(c.row, t);
    case Transfer(_, _, _, _, _, _, _, _, _, _) =>
      var o, i := TransferEffect(db, c);
      ch := SettlesPair(c.outRow, o, c.inRow, i);
  }

  lemma CommitKeepsBooks(db: Db, c: Call)
    requires Books(db) && CanCommit(db, c)
    ensures Books(After(db, c))
  {
    var ch := CommitIsChange(db, c);
    match ch
    case Opens(id, w) => NewWalletKeepsBooks(db, id, w);
    case Puts(id, t) => PuttingUnsettledKeepsBooks(db, id, t);
    case Settles(id, t) => PostingKeepsBooks(db, id, t);
    case SettlesPair(id, o, inRow, i) =>
      PostingKeepsBooks(db, id, o);
      PostingKeepsBooks(Posted(db, id, o), inRow, i);
  }

  // ---------- transfer rows come in pairs ----------

  predicate OutAt(txns: map<Id, Txn>, a: Id) {
    a in txns && txns[a].kind.TransferOut?
  }

  predicate InAt(txns: map<Id, Txn>, b: Id) {
    b in txns && txns[b].kind.TransferIn?
  }

  predicate Half(t: Txn) {
    t.kind.TransferOut? || t.kind.TransferIn? || t.link.Some?
  }

  predicate SameHalf(t: Txn, u: Txn) {
    t.kind == u.kind && t.link.Some? && u.link.Some? && t.link.value.transferId == u.link.value.transferId
  }

  /** Every outgoing row has its incoming row, every incoming row its outgoing one, and no two rows
    * of one kind share a transfer: the rows of the two kinds correspond one to one. */
  ghost predicate Paired(txns: map<Id, Txn>) {
    && (forall a {:trigger OutAt(txns, a)} :: OutAt(txns, a) ==> exists b :: b in txns && Mates(txns[a], txns[b]))
    && (forall b {:trigger InAt(txns, b)} :: InAt(txns, b) ==> exists a :: a in txns && Mates(txns[a], txns[b]))
    && (forall a, b :: a in txns && b in txns && SameHalf(txns[a], txns[b]) ==> a == b)
  }

  lemma PlainRowKeepsPairs(txns: map<Id, Txn>, id: Id, t: Txn)
    requires Paired(txns) && !Half(t) && (id in txns ==> !Half(txns[id]))
    ensures Paired(txns[id := t])
  {
    var txns' := txns[id := t];
    forall a | OutAt(txns', a)
      ensures exists b :: b in txns' && Mates(txns'[a], txns'[b])
    {
      assert OutAt(txns, a);
      var b :| b in txns && Mates(txns[a], txns[b]);
      assert Mates(txns'[a], txns'[b]);
    }
    forall b | InAt(txns', b)
      ensures exists a :: a in txns' && Mates(txns'[a], txns'[b])
    {
      assert InAt(txns, b);
      var a :| a in txns && Mates(txns[a], txns[b]);
      assert Mates(txns'[a], txns'[b]);
    }
  }

  lemma TransferRowsKeepPairs(txns: map<Id, Txn>, outRow: Id, o: Txn, inRow: Id, i: Txn)
    requires Paired(txns) && Mates(o, i) && outRow != inRow && outRow !in txns && inRow !in txns
    requires forall t :: t in txns && txns[t].link.Some? ==> txns[t].link.value.transferId != o.link.value.transferId
    ensures Paired(txns[outRow := o][inRow := i])
  {
    var txns' := txns[outRow := o][inRow := i];
    assert Mates(txns'[outRow], txns'[inRow]);
    forall a | OutAt(txns', a)
      ensures exists b :: b in txns' && Mates(txns'[a], txns'[b])
    {
      if a != outRow {
        assert OutAt(txns, a);
        var b :| b in txns && Mates(txns[a], txns[b]);
        assert Mates(txns'[a], txns'[b]);
      }
    }
    forall b | InAt(txns', b)
      ensures exists a :: a in txns' && Mates(txns'[a], txns'[b])
    {
      if b != inRow {
        assert InAt(txns, b);
        var a :| a in txns && Mates(txns[a], txns[b]);
        assert Mates(txns'[a], txns'[b]);
      }
    }
  }

  lemma CommitKeepsPairs(db: Db, c: Call)
    requires Books(db) && Paired(db.txns) && CanCommit(db, c)
    ensures Paired(After(db, c).txns)
  {
    var ch := CommitIsChange(db, c);
    match ch
    case Opens(_, _) =>
    case Puts(id, t) => PlainRowKeepsPairs(db.txns, id, t);
    case Settles(id, t) => PlainRowKeepsPairs(db.txns, id, t);
    case SettlesPair(id, o, inRow, i) => TransferRowsKeepPairs(db.txns, id, o, inRow, i);
  }

  // ---------- money per currency ----------

  ghost function Weight(currency: string): Wallet -> int {
    (w: Wallet) => if w.currency == currency then w.balance else 0
  }

  /** All the money held in one currency. */
  ghost function Total(db: Db, currency: string): int {
    Sum(db.wallets, Weight(currency))
  }

  /** What the call brings into a currency from outside: deposits and credits count for their
    * wallet's currency, withdrawals and debits against it, and of transfers only those that
    * change currency. */
  ghost function Inflow(db: Db, c: Call, currency: string): int {
    match c
    case AddMoney(wallet, _, amount, _, _, _) =>
      if Held(db, wallet, currency) then amount else 0
    case Adjust(wallet, _, credit, amount, _, _) =>
      if !Held(db, wallet, currency) then 0 else if credit then amount else 0 - amount
    case Approve(txn, _, _, _) =>
      if txn !in db.txns || !Held(db, db.txns[txn].wallet, currency) then 0
      else if db.txns[txn].kind.Withdrawal? then -db.txns[txn].amount else db.txns[txn].amount
    case Transfer(from, to, _, amount, _, quote, _, _, _, _) =>
      if Held(db, from, currency) == Held(db, to, currency) then 0
      else if Held(db, to, currency) then CreditOf(amount, quote) else 0 - amount
    case _ => 0
  }

  ghost predicate Held(db: Db, wallet: Id, currency: string) {
    wallet in db.wallets && db.wallets[wallet].currency == currency
  }

  lemma PostingMovesTotal(db: Db, id: Id, t: Txn, currency: string)
    requires CanPost(db, id, t)
    ensures Total(Posted(db, id, t), currency)
         == Total(db, currency) + if Held(db, t.wallet, currency) then Signed(t) else 0
  {
    SumUpdate(db.wallets, Weight(currency), t.wallet, db.wallets[t.wallet].(balance := t.after.value));
  }

  lemma TransferMovesTotal(db: Db, c: Call, currency: string)
    requires c.Transfer? && Books(db) && CanCommit(db, c)
    ensures Total(After(db, c), currency) == Total(db, currency) + Inflow(db, c, currency)
  {
    var o, i := TransferEffect(db, c);
    PostingMovesTotal(db, c.outRow, o, currency);
    PostingMovesTotal(Posted(db, c.outRow, o), c.inRow, i, currency);
  }

  lemma CommitMovesTotal(db: Db, c: Call, currency: string)
    requires Books(db) && CanCommit(db, c)
    ensures Total(After(db, c), currency) == Total(db, currency) + Inflow(db, c, currency)
  {
    match c
    case CreateWallet(_, _, _) =>
      Unroll(db, PlanIn(c, db).value);
      SumUpdate(db.wallets, Weight(currency), c.newWallet, Wallet(c.actor, c.currency, 0));
    case AddMoney(_, _, _, _, _, _) =>
      var t := AddMoneyEffect(db, c);
      PostingMovesTotal(db, c.row, t, currency);
    case RequestWithdrawal(_, _, _, _, _) =>
      var t := RequestEffect(db, c);
    case Approve(_, _, _, _) =>
      var t := ApproveEffect(db, c);
      PostingMovesTotal(db, c.txn, t, currency);
    case Reject(_, _, _, _, _) =>
      var t := RejectEffect(db, c);
    case Adjust(_, _, _, _, _, _) =>
      var t := AdjustEffect(db, c);
      PostingMovesTotal(db, c.row, t, currency);
    case Transfer(_, _, _, _, _, _, _, _, _, _) =>
      TransferMovesTotal(db, c, currency);
  }

  // ---------- rows only move forward ----------

  /** Wallets keep owner and currency, rows evolve, and the settled log only grows. */
  ghost predicate Forward(db: Db, db': Db) {
    && (forall w :: w in db.wallets ==>
          w in db'.wallets && db'.wallets[w].owner == db.wallets[w].owner
          && db'.wallets[w].currency == db.wallets[w].currency)
    && (forall id :: id in db.txns ==> id in db'.txns && Evolves(db.txns[id], db'.txns[id]))
    && db.settled <= db'.settled
  }

  lemma ChangeMovesRowsForward(db: Db, ch: Change)
    requires Lawful(db, ch)
    ensures Forward(db, Changed(db, ch))
  {
  }

  lemma CommitMovesRowsForward(db: Db, c: Call)
    requires Books(db) && CanCommit(db, c)
    ensures Forward(db, After(db, c))
  {
    var ch := CommitIsChange(db, c);
    ChangeMovesRowsForward(db, ch);
  }

  // ---------- audit and outbox ----------

  /** Who did what to which entity. */
  datatype Trace = Trace(actor: Id, action: Action, entity: Id)

  function Traces(rows: seq<AuditRow>): seq<Trace> {
    seq(|rows|, i requires 0 <= i < |rows| => Trace(rows[i].actor, rows[i].action, rows[i].entity))
  }

  /** The audit entries a committed call owes: one for everything but a new wallet and a request. */
  function Owed(db: Db, c: Call): seq<Trace> {
    match c
    case AddMoney(_, actor, _, _, row, _) => [Trace(actor, DepositSettle, row)]
    case Approve(txn, actor, _, _) =>
      var out := txn in db.txns && db.txns[txn].kind.Withdrawal?;
      [Trace(actor, if out then WithdrawalApprove else DepositApprove, txn)]
    case Reject(txn, actor, _, _, _) =>
      var out := txn in db.txns && db.txns[txn].kind.Withdrawal?;
      [Trace(actor, if out then WithdrawalReject else DepositReject, txn)]
    case Adjust(wallet, actor, _, _, _, _) => [Trace(actor, WalletAdjust, wallet)]
    case Transfer(from, _, actor, _, _, _, _, _, _, _) => [Trace(actor, WalletTransfer, from)]
    case _ => []
  }

  /** The outbox events a committed call announces. */
  function Announced(c: Call): set<Id> {
    match c
    case AddMoney(_, _, _, _, _, event) => {event}
    case Approve(_, _, _, event) => {event}
    case Reject(_, _, _, _, event) => {event}
    case Transfer(_, _, _, _, _, _, _, _, _, event) => {event}
    case _ => {}
  }

  lemma CommitIsAudited(db: Db, c: Call)
    requires PlanIn(c, db).Ok?
    ensures Traces(After(db, c).audit) == Traces(db.audit) + Owed(db, c)
  {
    Unroll(db, PlanIn(c, db).value);
  }

  lemma PlanAnnounces(db: Db, c: Call)
    requires PlanIn(c, db).Ok?
    requires c.Reject? ==> db.txns[c.txn].wallet in db.wallets
    ensures After(db, c).outbox.Keys == db.outbox.Keys + Announced(c)
  {
    Unroll(db, PlanIn(c, db).value);
  }

  lemma CommitIsAnnounced(db: Db, c: Call)
    requires Books(db) && CanCommit(db, c)
    ensures After(db, c).outbox.Keys == db.outbox.Keys + Announced(c)
    ensures db.outbox.Keys !! Announced(c)
  {
    PlanAnnounces(db, c);
    assert Announced(c) <= Drawn(c);
  }

  /** The ledger row a committed call's event and audit entry are about. */
  function RowOf(c: Call): Id
    requires !c.CreateWallet? && !c.RequestWithdrawal?
  {
    match c
    case AddMoney(_, _, _, _, row, _) => row
    case Adjust(_, _, _, _, _, row) => row
    case Approve(txn, _, _, _) => txn
    case Reject(txn, _, _, _, _) => txn
    case Transfer(_, _, _, _, _, _, _, _, inRow, _) => inRow
  }

  /** The event tells the owner of the row's wallet the row's own amount, in that wallet's currency. */
  lemma EventMatchesRow(db: Db, c: Call)
    requires WellFormed(c) && PlanIn(c, db).Ok? && Announced(c) != {}
    requires c.Reject? ==> db.txns[c.txn].wallet in db.wallets
    ensures var db' := After(db, c);
            && RowOf(c) in db'.txns && c.event in db'.outbox && db'.txns[RowOf(c)].wallet in db'.wallets
            && var t, e := db'.txns[RowOf(c)], db'.outbox[c.event];
            && e.user == db'.wallets[t.wallet].owner && e.amount == t.amount
            && e.currency == db'.wallets[t.wallet].currency
  {
    Unroll(db, PlanIn(c, db).value);
  }

  /** The balance an audit entry reports is the closing balance of the wallet it is about: the
    * sender's for a transfer, and none for a rejection, which moves nothing. */
  lemma AuditMatchesBalance(db: Db, c: Call)
    requires WellFormed(c) && PlanIn(c, db).Ok? && Owed(db, c) != []
    requires c.Reject? ==> db.txns[c.txn].wallet in db.wallets
    ensures var db' := After(db, c);
            && |db'.audit| == |db.audit| + 1 && RowOf(c) in db'.txns
            && var w := if c.Transfer? then c.from else db'.txns[RowOf(c)].wallet;
            && w in db'.wallets
            && db'.audit[|db.audit|].after == (if c.Reject? then None else Some(db'.wallets[w].balance))
  {
    Unroll(db, PlanIn(c, db).value);
  }
}
