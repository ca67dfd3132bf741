/** Concurrent runs of the ledger are histories: locking makes every interleaving serial, and the
  * lock order makes deadlock impossible.
  */
module LedgerSerial {
  import opened Wrappers
  import opened Ledger
  import opened LedgerLaws
  import opened LedgerHistory
  import opened LedgerSteps
  import opened Sums

  // ---------- the scripts ----------

  /** Reading more rows only makes a script longer. */
  lemma ScriptGrows(c: Call, txns: map<Id, Txn>, t: Id, row: Txn)
    requires t in txns ==> txns[t] == row
    ensures Script(c, txns) <= Script(c, txns[t := row])
  {
  }

  /** The shape the lock discipline relies on: reads come after every lock, a row is read only
    * under its lock, and a transaction row only after the test that it exists. */
  lemma ScriptShape(c: Call, txns: map<Id, Txn>, k: nat)
    requires k < |Script(c, txns)|
    ensures var s := Script(c, txns);
            && (s[k].CheckFunds? || s[k].ReadWallet? || s[k].PeekWallet? ==>
                  forall j :: k < j < |s| ==> !s[j].Acquire? && !s[j].ReadTxn?)
            && (s[k].ReadWallet? ==> exists j :: 0 <= j < k && s[j] == Acquire(WalletLock(s[k].wallet)))
            && (s[k].ReadTxn? ==> k == 2 && s[1] == Acquire(TxnLock(s[k].txn)) && s[0] == CheckReviewable(s[k].txn))
            && (s[k].PeekWallet? ==> c.Reject? && k == 3 && c.txn in txns && s[k].wallet == txns[c.txn].wallet)
  {
    var s := Script(c, txns);
    match c
    case AddMoney(_, _, _, _, _, _) => assert k == 2 ==> s[1] == Acquire(WalletLock(s[k].wallet));
    case Adjust(_, _, _, _, _, _) => assert k == 1 ==> s[0] == Acquire(WalletLock(s[k].wallet));
    case Approve(_, _, _, _) => assert k == 4 ==> s[3] == Acquire(WalletLock(s[k].wallet));
    case Transfer(_, _, _, _, _, _, _, _, _, _) =>
      assert k >= 6 ==> s[4] == Acquire(WalletLock(s[k].wallet)) || s[5] == Acquire(WalletLock(s[k].wallet));
    case _ =>
  }

  /** Where the locks are, and what was tested before them. */
  lemma ScriptLocks(c: Call, txns: map<Id, Txn>, k: nat)
    requires k < |Script(c, txns)| && Script(c, txns)[k].Acquire?
    ensures var s, lock := Script(c, txns), Script(c, txns)[k].lock;
            || (k == 1 && lock.TxnLock? && s[0] == CheckReviewable(lock.id))
            || (k == 1 && c.AddMoney? && s[0] == CheckOwned(lock.id))
            || (k == 3 && c.Approve? && c.txn in txns && lock == WalletLock(txns[c.txn].wallet)
                && s[1] == Acquire(TxnLock(c.txn)))
            || (k == 0 && c.Adjust? && lock == WalletLock(c.wallet))
            || (k in {4, 5} && c.Transfer? && lock.WalletLock? && lock.id in {c.from, c.to}
                && s[1] == CheckOwned(c.from) && s[2] == CheckExists(c.to))
  {
  }

  // ---------- one statement of one call ----------

  /** Only a wallet the caller named can be missing when its lock is taken. */
  lemma MissingRowIsNamed(db: Db, l: Local)
    requires Books(db) && LocalOk(db, l) && AtLock(l) && !RowExists(db, Wanted(l))
    ensures Wanted(l).id in Named(l.call)
  {
    ScriptLocks(l.call, l.txns, l.pc);
    assert l.pc > 0 ==> Done(db, l, ScriptOf(l)[0]);
  }

  /** What a statement that goes on leaves behind. */
  lemma StatementIsDone(db: Db, l: Local, st: Stmt, l': Local)
    requires Execute(db, l, st) == Continue(l')
    requires st.ReadWallet? ==> WalletLock(st.wallet) in l.held
    requires st.PeekWallet? ==> st.wallet in db.wallets
    requires st.Acquire? && !RowExists(db, st.lock) ==> st.lock.id in Named(l.call)
    ensures Done(db, l', st)
  {
  }

  lemma StatementAgrees(db: Db, l: Local, st: Stmt, l': Local)
    requires Execute(db, l, st) == Continue(l') && Agrees(db, l)
    requires st.ReadTxn? ==> TxnLock(st.txn) in l.held
    requires st.Acquire? ==> l.wallets == map[]
    ensures Agrees(db, l')
  {
  }

  lemma StillDone(db: Db, l: Local, l': Local, st: Stmt)
    requires Done(db, l, st) && l'.call == l.call
    requires l.held <= l'.held && l.wallets.Keys <= l'.wallets.Keys && l.txns.Keys <= l'.txns.Keys
    ensures Done(db, l', st)
  {
  }

  lemma StatementOnlyAdds(db: Db, l: Local, st: Stmt, l': Local)
    requires Execute(db, l, st) == Continue(l')
    ensures l'.call == l.call && l'.pc == l.pc + 1 && l'.buffer == l.buffer
    ensures l.held <= l'.held && l.wallets.Keys <= l'.wallets.Keys && l.txns.Keys <= l'.txns.Keys
    ensures forall lock :: lock in l'.held && lock !in l.held ==> st == Acquire(lock) && RowExists(db, lock)
    ensures l'.txns == if st.ReadTxn? then l.txns[st.txn := db.txns[st.txn]] else l.txns
    ensures l'.wallets != l.wallets ==> st.CheckFunds? || st.ReadWallet? || st.PeekWallet?
  {
  }

  /** A statement that goes on keeps what is known of its call. */
  lemma FollowsOn(db: Db, l: Local, script: seq<Stmt>, l': Local, script': seq<Stmt>)
    requires Follows(db, l, script) && l.pc < |script| && script <= script'
    requires Execute(db, l, script[l.pc]) == Continue(l')
    requires Done(db, l', script[l.pc]) && Agrees(db, l') && LocksComeFirst(l', script')
    ensures Follows(db, l', script')
  {
    StatementOnlyAdds(db, l, script[l.pc], l');
    forall k | 0 <= k < l'.pc
      ensures Done(db, l', script'[k])
    {
      if k < l.pc {
        StillDone(db, l, l', script[k]);
      }
    }
    forall lock | lock in l'.held
      ensures exists k :: 0 <= k < l'.pc && script'[k] == Acquire(lock)
    {
      if lock in l.held {
        var k :| 0 <= k < l.pc && script[k] == Acquire(lock);
        assert script'[k] == Acquire(lock);
      } else {
        assert script'[l.pc] == Acquire(lock);
      }
    }
  }

  /** The lock a read relies on is held. */
  lemma ReadIsLocked(db: Db, l: Local)
    requires Books(db) && LocalOk(db, l) && l.pc < |ScriptOf(l)|
    ensures var st := ScriptOf(l)[l.pc];
            && (st.ReadTxn? ==> TxnLock(st.txn) in l.held)
            && (st.ReadWallet? && st.wallet in db.wallets ==> WalletLock(st.wallet) in l.held)
            && (st.PeekWallet? ==> st.wallet in db.wallets)
  {
    var script, st := ScriptOf(l), ScriptOf(l)[l.pc];
    ScriptShape(l.call, l.txns, l.pc);
    if st.ReadTxn? {
      assert Done(db, l, script[0]) && Done(db, l, script[1]);
    } else if st.ReadWallet? {
      var k :| 0 <= k < l.pc && script[k] == Acquire(WalletLock(st.wallet));
      assert Done(db, l, script[k]);
    }
  }

  /** The script of the call still begins the same way, and still takes no lock after a read. */
  lemma ScriptGoesOn(db: Db, l: Local, l': Local)
    requires l.pc < |ScriptOf(l)| && LocksComeFirst(l, ScriptOf(l)) && Agrees(db, l)
    requires Execute(db, l, ScriptOf(l)[l.pc]) == Continue(l')
    ensures ScriptOf(l) <= ScriptOf(l') && LocksComeFirst(l', ScriptOf(l'))
  {
    var st := ScriptOf(l)[l.pc];
    ScriptShape(l.call, l.txns, l.pc);
    StatementOnlyAdds(db, l, st, l');
    if st.ReadTxn? {
      ScriptGrows(l.call, l.txns, st.txn, db.txns[st.txn]);
    }
  }

  lemma StatementKeepsLocal(db: Db, l: Local, l': Local)
    requires Books(db) && LocalOk(db, l) && l.pc < |ScriptOf(l)|
    requires Execute(db, l, ScriptOf(l)[l.pc]) == Continue(l')
    ensures LocalOk(db, l')
  {
    var st := ScriptOf(l)[l.pc];
    ReadIsLocked(db, l);
    if st.Acquire? && !RowExists(db, st.lock) {
      MissingRowIsNamed(db, l);
    }
    ScriptGoesOn(db, l, l');
    StatementIsDone(db, l, st, l');
    StatementAgrees(db, l, st, l');
    StatementOnlyAdds(db, l, st, l');
    FollowsOn(db, l, ScriptOf(l), l', ScriptOf(l'));
  }

  // ---------- refusals and plans ----------

  lemma TransferStopIsExplained(db: Db, l: Local)
    requires LocalOk(db, l) && l.pc < |ScriptOf(l)| && l.call.Transfer?
    requires Execute(db, l, ScriptOf(l)[l.pc]).Stop?
    requires ScriptOf(l)[l.pc].ReadWallet? ==> ScriptOf(l)[l.pc].wallet in db.wallets
    ensures PlanIn(l.call, db) == Err(Execute(db, l, ScriptOf(l)[l.pc]).reason)
  {
    assert l.pc > 0 ==> Done(db, l, ScriptOf(l)[0]);
    assert l.pc > 1 ==> Done(db, l, ScriptOf(l)[1]);
    assert l.pc > 2 ==> Done(db, l, ScriptOf(l)[2]);
  }

  lemma ReviewStopIsExplained(db: Db, l: Local)
    requires LocalOk(db, l) && l.pc < |ScriptOf(l)| && (l.call.Approve? || l.call.Reject?)
    requires Execute(db, l, ScriptOf(l)[l.pc]).Stop?
    requires ScriptOf(l)[l.pc].ReadWallet? ==> ScriptOf(l)[l.pc].wallet in db.wallets
    ensures PlanIn(l.call, db) == Err(Execute(db, l, ScriptOf(l)[l.pc]).reason)
  {
    assert l.pc > 0 ==> Done(db, l, ScriptOf(l)[0]);
  }

  lemma WalletStopIsExplained(db: Db, l: Local)
    requires LocalOk(db, l) && l.pc < |ScriptOf(l)|
    requires l.call.AddMoney? || l.call.RequestWithdrawal? || l.call.Adjust?
    requires Execute(db, l, ScriptOf(l)[l.pc]).Stop?
    ensures Explained(db, Entry(l.call, Refused(Execute(db, l, ScriptOf(l)[l.pc]).reason)))
  {
    assert l.pc > 0 ==> Done(db, l, ScriptOf(l)[0]);
  }

  /** Every wallet a transfer or a review reads is there. */
  lemma ReadWalletExists(db: Db, l: Local)
    requires Books(db) && LocalOk(db, l) && l.pc < |ScriptOf(l)| && ScriptOf(l)[l.pc].ReadWallet?
    ensures l.call.Transfer? || l.call.Approve? ==> ScriptOf(l)[l.pc].wallet in db.wallets
  {
    if l.call.Transfer? {
      assert Done(db, l, ScriptOf(l)[1]) && Done(db, l, ScriptOf(l)[2]);
    }
  }

  /** A statement that stops the call gives the reason the call, run alone now, would be given. */
  lemma StopIsExplained(db: Db, l: Local)
    requires Books(db) && LocalOk(db, l) && l.pc < |ScriptOf(l)|
    requires Execute(db, l, ScriptOf(l)[l.pc]).Stop?
    ensures Explained(db, Entry(l.call, Refused(Execute(db, l, ScriptOf(l)[l.pc]).reason)))
  {
    if ScriptOf(l)[l.pc].ReadWallet? {
      ReadWalletExists(db, l);
    }
    if l.call.Transfer? {
      TransferStopIsExplained(db, l);
    } else if l.call.Approve? || l.call.Reject? {
      ReviewStopIsExplained(db, l);
    } else {
      WalletStopIsExplained(db, l);
    }
  }

  predicate SameOwner(w: Wallet, w': Wallet) {
    w.owner == w'.owner && w.currency == w'.currency
  }

  /** The two sets of rows agree on everything the plan of c depends on. */
  ghost predicate SameInputs(c: Call, ws: map<Id, Wallet>, ts: map<Id, Txn>, ws': map<Id, Wallet>, ts': map<Id, Txn>) {
    match c
    case CreateWallet(_, _, _) => true
    case AddMoney(w, _, _, _, _, _) => w in ws && w in ws' && ws[w] == ws'[w]
    case RequestWithdrawal(w, _, _, _, _) => w in ws && w in ws' && SameOwner(ws[w], ws'[w])
    case Approve(t, _, _, _) =>
      && t in ts && t in ts' && ts[t] == ts'[t]
      && ts[t].wallet in ws && ts[t].wallet in ws' && ws[ts[t].wallet] == ws'[ts[t].wallet]
    case Reject(t, _, _, _, _) =>
      && t in ts && t in ts' && ts[t] == ts'[t]
      && ts[t].wallet in ws && ts[t].wallet in ws' && SameOwner(ws[ts[t].wallet], ws'[ts[t].wallet])
    case Adjust(w, _, _, _, _, _) => w in ws && w in ws' && ws[w] == ws'[w]
    case Transfer(from, to, _, _, _, _, _, _, _, _) =>
      from in ws && from in ws' && ws[from] == ws'[from] && to in ws && to in ws' && ws[to] == ws'[to]
  }

  lemma SameInputsSamePlan(c: Call, ws: map<Id, Wallet>, ts: map<Id, Txn>, ws': map<Id, Wallet>, ts': map<Id, Txn>)
    requires SameInputs(c, ws, ts, ws', ts')
    ensures PlanOf(c, ws, ts) == PlanOf(c, ws', ts')
  {
  }

  /** When all statements are done, the rows read are the rows there are, as far as they matter. */
  lemma InputsAreCurrent(db: Db, l: Local)
    requires LocalOk(db, l) && l.pc == |ScriptOf(l)|
    ensures SameInputs(l.call, l.wallets, l.txns, db.wallets, db.txns)
  {
    match l.call
    case Approve(_, _, _, _) => ReviewInputsAreCurrent(db, l);
    case Reject(_, _, _, _, _) => ReviewInputsAreCurrent(db, l);
    case Transfer(_, _, _, _, _, _, _, _, _, _) => TransferInputsAreCurrent(db, l);
    case _ => WalletInputsAreCurrent(db, l);
  }

  lemma StatementWasDone(db: Db, l: Local, k: nat)
    requires LocalOk(db, l) && k < l.pc && l.pc == |ScriptOf(l)|
    ensures Done(db, l, ScriptOf(l)[k])
  {
  }

  lemma WalletInputsAreCurrent(db: Db, l: Local)
    requires LocalOk(db, l) && l.pc == |ScriptOf(l)|
    requires l.call.CreateWallet? || l.call.AddMoney? || l.call.RequestWithdrawal? || l.call.Adjust?
    ensures SameInputs(l.call, l.wallets, l.txns, db.wallets, db.txns)
  {
    if !l.call.CreateWallet? {
      StatementWasDone(db, l, |ScriptOf(l)| - 1);
    }
  }

  lemma ReviewInputsAreCurrent(db: Db, l: Local)
    requires LocalOk(db, l) && l.pc == |ScriptOf(l)| && (l.call.Approve? || l.call.Reject?)
    ensures SameInputs(l.call, l.wallets, l.txns, db.wallets, db.txns)
  {
    StatementWasDone(db, l, 2);
    StatementWasDone(db, l, |ScriptOf(l)| - 1);
  }

  lemma TransferInputsAreCurrent(db: Db, l: Local)
    requires LocalOk(db, l) && l.pc == |ScriptOf(l)| && l.call.Transfer?
    ensures SameInputs(l.call, l.wallets, l.txns, db.wallets, db.txns)
  {
    StatementWasDone(db, l, 6);
    StatementWasDone(db, l, 7);
  }

  /** The plan made from what was read is the plan the call, run alone now, would make. */
  lemma PlanIsCurrent(db: Db, l: Local)
    requires LocalOk(db, l) && l.pc == |ScriptOf(l)|
    ensures PlanAt(l) == PlanIn(l.call, db)
  {
    InputsAreCurrent(db, l);
    SameInputsSamePlan(l.call, l.wallets, l.txns, db.wallets, db.txns);
  }

  // ---------- what a commit may touch ----------

  /** Rows outside the held locks are unchanged, and rows that are new have an id the call drew. */
  ghost predicate Touches(db: Db, db': Db, held: set<Lock>, drawn: set<Id>) {
    && (forall w :: w in db.wallets ==>
          w in db'.wallets && SameOwner(db.wallets[w], db'.wallets[w])
          && (WalletLock(w) !in held ==> db'.wallets[w] == db.wallets[w]))
    && (forall w :: w in db'.wallets && w !in db.wallets ==> w in drawn)
    && (forall t :: t in db.txns ==>
          t in db'.txns && db'.txns[t].kind == db.txns[t].kind
          && (TxnLock(t) !in held ==> db'.txns[t] == db.txns[t]))
    && (forall t :: t in db'.txns && t !in db.txns ==> t in drawn)
    && (forall t :: t in db'.txns && db'.txns[t].link.Some? ==>
          (t in db.txns && db.txns[t].link == db'.txns[t].link) || db'.txns[t].link.value.transferId in drawn)
    && (forall e :: e in db'.outbox && e !in db.outbox ==> e in drawn)
  }

  /** The locks a committed call needed for what it changes. */
  ghost predicate HoldsWhatItChanges(c: Call, db: Db, held: set<Lock>) {
    match c
    case AddMoney(w, _, _, _, _, _) => WalletLock(w) in held
    case Adjust(w, _, _, _, _, _) => WalletLock(w) in held
    case Approve(t, _, _, _) => TxnLock(t) in held && t in db.txns && WalletLock(db.txns[t].wallet) in held
    case Reject(t, _, _, _, _) => TxnLock(t) in held
    case Transfer(from, to, _, _, _, _, _, _, _, _) => WalletLock(from) in held && WalletLock(to) in held
    case _ => true
  }

  lemma LocksAreHeld(db: Db, l: Local)
    requires LocalOk(db, l) && l.pc == |ScriptOf(l)|
    ensures HoldsWhatItChanges(l.call, db, l.held)
  {
    var script := ScriptOf(l);
    match l.call
    case AddMoney(_, _, _, _, _, _) => assert Done(db, l, script[2]);
    case Approve(_, _, _, _) => assert Done(db, l, script[2]) && Done(db, l, script[4]);
    case Reject(_, _, _, _, _) => assert Done(db, l, script[2]);
    case Adjust(_, _, _, _, _, _) => assert Done(db, l, script[1]);
    case Transfer(_, _, _, _, _, _, _, _, _, _) => assert Done(db, l, script[6]) && Done(db, l, script[7]);
    case _ =>
  }

  /** A write stays within the held locks and the drawn ids. */
  ghost predicate Covered(db: Db, w: Write, held: set<Lock>, drawn: set<Id>) {
    match w
    case InsertWallet(id, _) => id in drawn && id !in db.wallets
    case SetBalance(id, _) => WalletLock(id) in held
    case PutTxn(id, t) =>
      if id in db.txns then TxnLock(id) in held && t.kind == db.txns[id].kind && t.link == db.txns[id].link
      else id in drawn && (t.link.Some? ==> t.link.value.transferId in drawn)
    case LogAudit(_) => true
    case Enqueue(id, _) => id in drawn
  }

  lemma CoveredWriteTouches(db: Db, db': Db, w: Write, held: set<Lock>, drawn: set<Id>)
    requires Touches(db, db', held, drawn) && Covered(db, w, held, drawn)
    ensures Touches(db, ApplyWrite(db', w), held, drawn)
  {
  }

  lemma {:induction false} CoveredWritesTouch(db: Db, db': Db, ws: seq<Write>, held: set<Lock>, drawn: set<Id>)
    requires Touches(db, db', held, drawn) && forall i :: 0 <= i < |ws| ==> Covered(db, ws[i], held, drawn)
    ensures Touches(db, Apply(db', ws), held, drawn)
    decreases |ws|
  {
    if ws != [] {
      CoveredWriteTouches(db, db', ws[0], held, drawn);
      CoveredWritesTouch(db, ApplyWrite(db', ws[0]), ws[1..], held, drawn);
    }
  }

  lemma PlanIsCovered(db: Db, c: Call, held: set<Lock>)
    requires PlanIn(c, db).Ok? && Fresh(c, db) && HoldsWhatItChanges(c, db, held)
    ensures forall i :: 0 <= i < |PlanIn(c, db).value| ==> Covered(db, PlanIn(c, db).value[i], held, Drawn(c))
  {
  }

  lemma CommitTouches(db: Db, c: Call, held: set<Lock>)
    requires PlanIn(c, db).Ok? && Fresh(c, db) && HoldsWhatItChanges(c, db, held)
    ensures Touches(db, After(db, c), held, Drawn(c))
  {
    PlanIsCovered(db, c, held);
    CoveredWritesTouch(db, db, PlanIn(c, db).value, held, Drawn(c));
  }

  /** A commit that touches neither the rows another call has locked nor ids it knows leaves
    * everything known of that call true. */
  lemma OthersAreUnaffected(db: Db, db': Db, held: set<Lock>, drawn: set<Id>, l: Local)
    requires Touches(db, db', held, drawn) && Follows(db, l, ScriptOf(l))
    requires held !! l.held && drawn !! Named(l.call)
    ensures Follows(db', l, ScriptOf(l))
  {
    var script := ScriptOf(l);
    forall k | 0 <= k < l.pc
      ensures Done(db', l, script[k])
    {
      DoneStays(db, db', held, drawn, l, script[k]);
    }
  }

  lemma DoneStays(db: Db, db': Db, held: set<Lock>, drawn: set<Id>, l: Local, st: Stmt)
    requires Touches(db, db', held, drawn) && Done(db, l, st) && drawn !! Named(l.call)
    ensures Done(db', l, st)
  {
  }

  // ---------- the machine's invariant ----------

  /** Ids are drawn once: those of calls in flight are in no table, not drawn twice, and named by
    * nobody. */
  ghost predicate IdsOk(s: State) {
    && Covers(s.used, s.db)
    && (forall t :: t in s.active ==>
          Drawn(s.active[t].call) <= s.used && Named(s.active[t].call) <= s.used && Fresh(s.active[t].call, s.db))
    && (forall t, u :: t in s.active && u in s.active && t != u ==>
          Drawn(s.active[t].call) !! Drawn(s.active[u].call)
          && Drawn(s.active[t].call) !! Named(s.active[u].call))
  }

  ghost predicate LocksOk(s: State) {
    forall t, u :: t in s.active && u in s.active && t != u ==> s.active[t].held !! s.active[u].held
  }

  /** The tables are those of the history so far, which explains every outcome. */
  ghost predicate Serial(init: Db, s: State) {
    Faithful(init, s.log) && s.db == Replay(init, s.log)
  }

  ghost predicate LocalsOk(db: Db, active: map<Tid, Local>) {
    forall t :: t in active ==> LocalOk(db, active[t])
  }

  ghost predicate Inv(init: Db, s: State) {
    Sound(init) && Serial(init, s) && IdsOk(s) && LocksOk(s) && LocalsOk(s.db, s.active)
  }

  lemma OneLocalChanges(db: Db, active: map<Tid, Local>, tid: Tid, l': Local)
    requires LocalsOk(db, active) && LocalOk(db, l')
    ensures LocalsOk(db, active[tid := l'])
  {
  }

  lemma EndIsSerial(init: Db, s: State, tid: Tid, outcome: Outcome)
    requires Serial(init, s) && tid in s.active && Explained(s.db, Entry(s.active[tid].call, outcome))
    ensures var s' := Ended(s, tid, outcome);
            Faithful(init, s'.log) && Replay(init, s'.log) == Effect(s.db, Entry(s.active[tid].call, outcome))
  {
    var s' := Ended(s, tid, outcome);
    assert s'.log[..|s.log|] == s.log;
  }

  /** A call that ends without committing leaves everything but the log as it was. */
  lemma EndKeepsInv(init: Db, s: State, tid: Tid, outcome: Outcome)
    requires Inv(init, s) && tid in s.active && !outcome.Committed?
    requires Explained(s.db, Entry(s.active[tid].call, outcome))
    ensures Inv(init, Ended(s, tid, outcome))
  {
    EndIsSerial(init, s, tid, outcome);
  }

  lemma BeginKeepsIds(s: State, tid: Tid, c: Call)
    requires IdsOk(s) && LocksOk(s) && Enabled(s, Begin(tid, c))
    ensures IdsOk(Next(s, Begin(tid, c))) && LocksOk(Next(s, Begin(tid, c)))
  {
  }

  lemma BeginIsOk(db: Db, c: Call)
    requires WellFormed(c)
    ensures LocalOk(db, Local(c, 0, {}, map[], map[], []))
  {
  }

  lemma BeginKeepsInv(init: Db, s: State, tid: Tid, c: Call)
    requires Inv(init, s) && Enabled(s, Begin(tid, c))
    ensures Inv(init, Next(s, Begin(tid, c)))
  {
    BeginKeepsIds(s, tid, c);
    BeginIsOk(s.db, c);
    OneLocalChanges(s.db, s.active, tid, Local(c, 0, {}, map[], map[], []));
  }

  /** A statement may take one free lock; it changes neither the call nor its ids. */
  lemma LocalChangeKeepsIds(s: State, tid: Tid, l': Local)
    requires IdsOk(s) && LocksOk(s) && tid in s.active && l'.call == s.active[tid].call
    requires forall lock :: lock in l'.held ==>
               lock in s.active[tid].held
               || forall u :: u in s.active && u != tid ==> lock !in s.active[u].held
    ensures var s' := s.(active := s.active[tid := l']);
            IdsOk(s') && LocksOk(s')
  {
  }

  lemma StatementTakesFreeLock(s: State, tid: Tid, l': Local)
    requires tid in s.active && !Blocked(s, tid)
    requires var l := s.active[tid]; l.pc < |ScriptOf(l)| && Execute(s.db, l, ScriptOf(l)[l.pc]) == Continue(l')
    ensures l'.call == s.active[tid].call
    ensures forall lock :: lock in l'.held ==>
               lock in s.active[tid].held
               || forall u :: u in s.active && u != tid ==> lock !in s.active[u].held
  {
    StatementOnlyAdds(s.db, s.active[tid], ScriptOf(s.active[tid])[s.active[tid].pc], l');
  }

  lemma StatementKeepsInv(init: Db, s: State, tid: Tid, l': Local)
    requires Inv(init, s) && tid in s.active && !Blocked(s, tid)
    requires var l := s.active[tid]; l.pc < |ScriptOf(l)| && Execute(s.db, l, ScriptOf(l)[l.pc]) == Continue(l')
    ensures Inv(init, s.(active := s.active[tid := l']))
  {
    HistoryIsSound(init, s.log);
    StatementTakesFreeLock(s, tid, l');
    LocalChangeKeepsIds(s, tid, l');
    StatementKeepsLocal(s.db, s.active[tid], l');
    OneLocalChanges(s.db, s.active, tid, l');
  }

  /** The call with its next write issued. */
  function Issued(l: Local): Local
    requires PlanAt(l).Ok? && |l.buffer| < |PlanAt(l).value|
  {
    l.(buffer := l.buffer + [PlanAt(l).value[|l.buffer|]])
  }

  lemma WriteKeepsLocal(db: Db, l: Local)
    requires LocalOk(db, l) && l.pc == |ScriptOf(l)| && PlanAt(l).Ok? && |l.buffer| < |PlanAt(l).value|
    ensures LocalOk(db, Issued(l))
  {
    var l' := Issued(l);
    assert PlanAt(l') == PlanAt(l) && ScriptOf(l') == ScriptOf(l);
    forall k | 0 <= k < l.pc
      ensures Done(db, l', ScriptOf(l)[k])
    {
      StillDone(db, l, l', ScriptOf(l)[k]);
    }
  }

  lemma WriteKeepsInv(init: Db, s: State, tid: Tid)
    requires Inv(init, s) && tid in s.active
    requires var l := s.active[tid]; l.pc == |ScriptOf(l)| && PlanAt(l).Ok? && |l.buffer| < |PlanAt(l).value|
    ensures Inv(init, s.(active := s.active[tid := Issued(s.active[tid])]))
  {
    var l := s.active[tid];
    WriteKeepsLocal(s.db, l);
    LocalChangeKeepsIds(s, tid, Issued(l));
    OneLocalChanges(s.db, s.active, tid, Issued(l));
  }

  lemma CommitKeepsOthers(s: State, tid: Tid, db': Db)
    requires LocalsOk(s.db, s.active) && LocksOk(s) && IdsOk(s) && tid in s.active
    requires Touches(s.db, db', s.active[tid].held, Drawn(s.active[tid].call))
    ensures LocalsOk(db', s.active - {tid})
  {
    forall t | t in s.active && t != tid
      ensures LocalOk(db', s.active[t])
    {
      OthersAreUnaffected(s.db, db', s.active[tid].held, Drawn(s.active[tid].call), s.active[t]);
    }
  }

  lemma CommitKeepsCovers(used: set<Id>, db: Db, db': Db, held: set<Lock>, drawn: set<Id>)
    requires Covers(used, db) && Touches(db, db', held, drawn) && drawn <= used
    ensures Covers(used, db')
  {
  }

  lemma CommitKeepsFresh(c: Call, db: Db, db': Db, held: set<Lock>, drawn: set<Id>)
    requires Fresh(c, db) && Touches(db, db', held, drawn) && drawn !! Drawn(c)
    ensures Fresh(c, db')
  {
  }

  lemma CommitKeepsIds(s: State, tid: Tid, db': Db)
    requires IdsOk(s) && LocksOk(s) && tid in s.active
    requires Touches(s.db, db', s.active[tid].held, Drawn(s.active[tid].call))
    ensures var s' := Ended(s, tid, Committed).(db := db');
            IdsOk(s') && LocksOk(s')
  {
    var held, drawn := s.active[tid].held, Drawn(s.active[tid].call);
    CommitKeepsCovers(s.used, s.db, db', held, drawn);
    forall t | t in s.active && t != tid
      ensures Fresh(s.active[t].call, db')
    {
      CommitKeepsFresh(s.active[t].call, s.db, db', held, drawn);
    }
  }

  lemma CommitKeepsInv(init: Db, s: State, tid: Tid)
    requires Inv(init, s) && tid in s.active
    requires var l := s.active[tid]; l.pc == |ScriptOf(l)| && PlanAt(l).Ok? && |l.buffer| == |PlanAt(l).value|
    ensures Inv(init, Ended(s, tid, Committed).(db := Apply(s.db, s.active[tid].buffer)))
  {
    var l := s.active[tid];
    PlanIsCurrent(s.db, l);
    assert l.buffer == PlanAt(l).value;
    EndIsSerial(init, s, tid, Committed);
    LocksAreHeld(s.db, l);
    CommitTouches(s.db, l.call, l.held);
    CommitKeepsOthers(s, tid, After(s.db, l.call));
    CommitKeepsIds(s, tid, After(s.db, l.call));
  }

  lemma MoveKeepsInv(init: Db, s: State, m: Move)
    requires Inv(init, s) && Enabled(s, m)
    ensures Inv(init, Next(s, m))
  {
    match m
    case Begin(tid, c) => BeginKeepsInv(init, s, tid, c);
    case Crash(tid) => EndKeepsInv(init, s, tid, Lost);
    case Advance(tid) => AdvanceKeepsInv(init, s, tid);
  }

  lemma AdvanceKeepsInv(init: Db, s: State, tid: Tid)
    requires Inv(init, s) && Enabled(s, Advance(tid))
    ensures Inv(init, AdvanceOne(s, tid))
  {
    if s.active[tid].pc < |ScriptOf(s.active[tid])| {
      ExecutingKeepsInv(init, s, tid);
    } else {
      WritingKeepsInv(init, s, tid);
    }
  }

  lemma ExecutingKeepsInv(init: Db, s: State, tid: Tid)
    requires Inv(init, s) && Enabled(s, Advance(tid)) && s.active[tid].pc < |ScriptOf(s.active[tid])|
    ensures Inv(init, AdvanceOne(s, tid))
  {
    var l := s.active[tid];
    match Execute(s.db, l, ScriptOf(l)[l.pc])
    case Continue(l') => StatementKeepsInv(init, s, tid, l');
    case Stop(r) =>
      HistoryIsSound(init, s.log);
      StopIsExplained(s.db, l);
      EndKeepsInv(init, s, tid, Refused(r));
  }

  lemma WritingKeepsInv(init: Db, s: State, tid: Tid)
    requires Inv(init, s) && Enabled(s, Advance(tid)) && s.active[tid].pc >= |ScriptOf(s.active[tid])|
    ensures Inv(init, AdvanceOne(s, tid))
  {
    var l := s.active[tid];
    PlanIsCurrent(s.db, l);
    match PlanAt(l)
    case Err(r) => EndKeepsInv(init, s, tid, Refused(r));
    case Ok(ws) =>
      if |l.buffer| < |ws| {
        WriteKeepsInv(init, s, tid);
      } else {
        CommitKeepsInv(init, s, tid);
      }
  }

  lemma {:induction false} RunKeepsInv(init: Db, s: State, moves: seq<Move>, s': State)
    requires Inv(init, s) && Run(s, moves, s')
    ensures Inv(init, s')
    decreases |moves|
  {
    if moves != [] {
      MoveKeepsInv(init, s, moves[0]);
      RunKeepsInv(init, Next(s, moves[0]), moves[1..], s');
    }
  }

  // ---------- the theorems ----------

  /** Every interleaving is serial: the tables any concurrent run has committed are those of its
    * finished calls run one at a time in the order they ended, each with the outcome it would then
    * have had; refused and lost calls leave no trace. */
  lemma InterleavingIsSerial(s: State, moves: seq<Move>, s': State)
    requires Start(s) && Run(s, moves, s')
    ensures Faithful(s.db, s'.log) && s'.db == Replay(s.db, s'.log)
    ensures Sound(s'.db)
  {
    RunKeepsInv(s.db, s, moves, s');
    HistoryIsSound(s.db, s'.log);
  }

  lemma {:induction false} LogGrows(s: State, moves: seq<Move>, s': State)
    requires Run(s, moves, s')
    ensures s.log <= s'.log
    decreases |moves|
  {
    if moves != [] {
      LogGrows(Next(s, moves[0]), moves[1..], s');
    }
  }

  /** At every moment of every concurrent run each balance is between zero and the column's limit,
    * is the sum of the signed amounts of the wallet's settled rows, and closes their chain. */
  lemma RunKeepsBalances(s: State, moves: seq<Move>, s': State, w: Id)
    requires Start(s) && Run(s, moves, s') && w in s'.db.wallets
    ensures var balance := s'.db.wallets[w].balance;
            && 0 <= balance <= 0x7FFF_FFFF
            && balance == SumSigned(s'.db.txns, s'.db.settled, w)
            && Unbroken(Statement(s'.db.txns, s'.db.settled, w), balance)
  {
    InterleavingIsSerial(s, moves, s');
    BalanceIsSumOfRows(s'.db.txns, s'.db.settled, w, s'.db.wallets[w].balance);
    StatementIsUnbroken(s'.db.txns, s'.db.settled, w, s'.db.wallets[w].balance);
  }

  /** In every concurrent run the money in a currency changes by what came in from outside it. */
  lemma RunConservesMoney(s: State, moves: seq<Move>, s': State, currency: string)
    requires Start(s) && Run(s, moves, s')
    ensures Total(s'.db, currency) == Total(s.db, currency) + NetInflow(s.db, s'.log, currency)
  {
    InterleavingIsSerial(s, moves, s');
    MoneyIsConserved(s.db, s'.log, currency);
  }

  lemma RunMovesForward(s: State, before: seq<Move>, mid: State, after: seq<Move>, s': State)
    requires Start(s) && Run(s, before, mid) && Run(mid, after, s')
    ensures Forward(mid.db, s'.db) && Books(s'.db)
  {
    RunKeepsInv(s.db, s, before, mid);
    RunKeepsInv(s.db, mid, after, s');
    LogGrows(mid, after, s');
    RowsMoveForwardOnly(s.db, s'.log, |mid.log|);
    assert s'.log[..|mid.log|] == mid.log;
    HistoryIsSound(s.db, s'.log);
  }

  /** Between any two moments of a concurrent run rows only move forward: a row leaves pending at
    * most once, and once it has, it never changes; it has moved money once if it is approved,
    * and not at all otherwise. */
  lemma RunSettlesRowsOnce(s: State, before: seq<Move>, mid: State, after: seq<Move>, s': State, id: Id)
    requires Start(s) && Run(s, before, mid) && Run(mid, after, s') && id in mid.db.txns
    ensures id in s'.db.txns && Evolves(mid.db.txns[id], s'.db.txns[id])
    ensures !mid.db.txns[id].status.Pending? ==> s'.db.txns[id] == mid.db.txns[id]
    ensures multiset(s'.db.settled)[id] == if s'.db.txns[id].status.Approved? then 1 else 0
  {
    RunMovesForward(s, before, mid, after, s');
    ApprovedRowsSettleOnce(s'.db, id);
  }

  /** In every concurrent run the audit trail and the outbox hold exactly what the committed calls
    * owe: one entry and one event each, in commit order, and nothing from any other call. */
  lemma RunRecordsCommits(s: State, moves: seq<Move>, s': State)
    requires Start(s) && Run(s, moves, s')
    ensures Traces(s'.db.audit) == Traces(s.db.audit) + AuditOwed(s.db, s'.log)
    ensures s'.db.outbox.Keys == s.db.outbox.Keys + EventsOf(s'.log)
    ensures |s'.db.outbox| == |s.db.outbox| + Announcements(s'.log)
  {
    InterleavingIsSerial(s, moves, s');
    HistoryIsAudited(s.db, s'.log);
    HistoryIsAnnounced(s.db, s'.log);
    OneEventPerAnnouncement(s.db, s'.log);
  }

  // ---------- deadlock ----------

  /** The order all locks are taken in: transaction rows before wallets, each by id. */
  predicate Before(a: Lock, b: Lock) {
    (a.TxnLock? && b.WalletLock?) || (a.TxnLock? == b.TxnLock? && a.id < b.id)
  }

  lemma ScriptLocksInOrder(c: Call, txns: map<Id, Txn>, j: nat, k: nat)
    requires j < k < |Script(c, txns)| && Script(c, txns)[j].Acquire? && Script(c, txns)[k].Acquire?
    requires c.Transfer? ==> c.from != c.to
    ensures Before(Script(c, txns)[j].lock, Script(c, txns)[k].lock)
  {
  }

  lemma HeldBeforeWanted(db: Db, l: Local, lock: Lock)
    requires LocalOk(db, l) && AtLock(l) && lock in l.held
    ensures Before(lock, Wanted(l))
  {
    var script := ScriptOf(l);
    var j :| 0 <= j < l.pc && script[j] == Acquire(lock);
    assert Done(db, l, script[0]);
    ScriptLocksInOrder(l.call, l.txns, j, l.pc);
  }

  /** Of any calls waiting for locks, one waits for a lock none of the others' comes after. */
  lemma {:induction false} LastWaiter(s: State, waiting: set<Tid>) returns (t: Tid)
    requires waiting != {} && waiting <= s.active.Keys && forall u :: u in waiting ==> AtLock(s.active[u])
    ensures t in waiting && forall u :: u in waiting ==> !Before(Wanted(s.active[t]), Wanted(s.active[u]))
    decreases |waiting|
  {
    t :| t in waiting;
    if waiting != {t} {
      var other := LastWaiter(s, waiting - {t});
      if Before(Wanted(s.active[t]), Wanted(s.active[other])) {
        t := other;
      }
    }
  }

  /** No deadlock: in every reachable state with calls in flight, one of them can go on. */
  lemma SomeCallCanAdvance(s: State) returns (t: Tid)
    requires LocalsOk(s.db, s.active) && s.active != map[]
    ensures t in s.active && Enabled(s, Advance(t))
  {
    if free :| free in s.active && !AtLock(s.active[free]) {
      t := free;
    } else {
      var some :| some in s.active;
      t := LastWaiter(s, s.active.Keys);
      HolderIsNotWaiting(s, t);
    }
  }

  lemma HolderIsNotWaiting(s: State, t: Tid)
    requires LocalsOk(s.db, s.active) && t in s.active
    requires forall u :: u in s.active ==> AtLock(s.active[u])
    requires forall u :: u in s.active ==> !Before(Wanted(s.active[t]), Wanted(s.active[u]))
    ensures forall u :: u in s.active ==> Wanted(s.active[t]) !in s.active[u].held
  {
    forall u | u in s.active
      ensures Wanted(s.active[t]) !in s.active[u].held
    {
      if Wanted(s.active[t]) in s.active[u].held {
        HeldBeforeWanted(s.db, s.active[u], Wanted(s.active[t]));
      }
    }
  }

  /** What a call still has to do before it ends, at most. */
  ghost function Remaining(l: Local): int {
    15 - l.pc - |l.buffer|
  }

  ghost function Work(s: State): int {
    Sum(s.active, Remaining)
  }

  lemma ScriptsAreShort(c: Call, txns: map<Id, Txn>)
    ensures |Script(c, txns)| <= 8
  {
  }

  lemma PlansAreShort(c: Call, ws: map<Id, Wallet>, ts: map<Id, Txn>)
    ensures PlanOf(c, ws, ts).Ok? ==> |PlanOf(c, ws, ts).value| <= 6
  {
  }

  lemma SomeWorkRemains(db: Db, l: Local)
    requires LocalOk(db, l)
    ensures Remaining(l) >= 1
  {
    ScriptsAreShort(l.call, l.txns);
    PlansAreShort(l.call, l.wallets, l.txns);
  }

  lemma WorkIsNonNegative(s: State)
    requires LocalsOk(s.db, s.active)
    ensures Work(s) >= 0
  {
    forall t | t in s.active
      ensures Remaining(s.active[t]) >= 0
    {
      SomeWorkRemains(s.db, s.active[t]);
    }
    SumIsNonNegative(s.active, Remaining);
  }

  lemma AdvanceDoesWork(s: State, t: Tid)
    requires LocalsOk(s.db, s.active) && t in s.active
    ensures Work(AdvanceOne(s, t)) < Work(s)
  {
    var l, s' := s.active[t], AdvanceOne(s, t);
    SomeWorkRemains(s.db, l);
    if t in s'.active {
      if l.pc < |ScriptOf(l)| {
        StatementOnlyAdds(s.db, l, ScriptOf(l)[l.pc], s'.active[t]);
      }
      SumUpdate(s.active, Remaining, t, s'.active[t]);
    } else {
      SumTakeOut(s.active, Remaining, t);
    }
  }

  predicate OnlyAdvances(moves: seq<Move>) {
    forall i :: 0 <= i < |moves| ==> moves[i].Advance?
  }

  lemma AdvanceSomeCall(init: Db, s: State) returns (t: Tid)
    requires Inv(init, s) && s.active != map[]
    ensures Enabled(s, Advance(t)) && Inv(init, Next(s, Advance(t)))
    ensures 0 <= Work(Next(s, Advance(t))) < Work(s)
  {
    t := SomeCallCanAdvance(s);
    MoveKeepsInv(init, s, Advance(t));
    AdvanceDoesWork(s, t);
    WorkIsNonNegative(Next(s, Advance(t)));
  }

  lemma RunOneMore(s: State, t: Tid, moves: seq<Move>, s': State)
    requires Enabled(s, Advance(t)) && Run(Next(s, Advance(t)), moves, s') && OnlyAdvances(moves)
    ensures Run(s, [Advance(t)] + moves, s') && OnlyAdvances([Advance(t)] + moves)
  {
    assert ([Advance(t)] + moves)[1..] == moves;
  }

  /** From every reachable state the calls in flight can all be brought to their end: no lock is
    * ever waited for in vain. */
  lemma EveryCallCanFinish(init: Db, s: State, n: nat) returns (moves: seq<Move>, s': State)
    requires Inv(init, s) && Work(s) <= n
    ensures Run(s, moves, s') && OnlyAdvances(moves) && s'.active == map[]
    decreases n
  {
    if s.active == map[] {
      moves, s' := [], s;
    } else {
      var t := AdvanceSomeCall(init, s);
      moves, s' := EveryCallCanFinish(init, Next(s, Advance(t)), n - 1);
      RunOneMore(s, t, moves, s');
      moves := [Advance(t)] + moves;
    }
  }

  /** Deadlock freedom over whole runs: however a concurrent run has gone, it can go on until no
    * call is in flight. */
  lemma RunsCanDrain(s: State, moves: seq<Move>, mid: State) returns (more: seq<Move>, s': State)
    requires Start(s) && Run(s, moves, mid)
    ensures Run(mid, more, s') && OnlyAdvances(more) && s'.active == map[]
  {
    RunKeepsInv(s.db, s, moves, mid);
    WorkIsNonNegative(mid);
    more, s' := EveryCallCanFinish(s.db, mid, Work(mid));
  }
}
