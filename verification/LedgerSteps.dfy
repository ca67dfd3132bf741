/** The ledger under concurrency: any number of calls at once, one statement at a time.
  *
  * A call first runs the tests it makes outside its transaction, then takes row locks with
  * SELECT ... FOR UPDATE, reads rows, issues its writes one by one, and commits. Until then its
  * writes are visible to no one else; a plain read sees the last committed row. Any call may be
  * lost at any point, which rolls it back.
  */
module LedgerSteps {
  import opened Wrappers
  import opened Ledger
  import opened LedgerHistory

  // ---------- statements ----------

  datatype Lock = TxnLock(id: Id) | WalletLock(id: Id)

  /** What a call executes before its writes. */
  datatype Stmt =
    | CheckDistinct                 // a transfer needs two wallets
    | CheckOwned(wallet: Id)        // getOwnedWallet
    | CheckFunds(wallet: Id)        // the same read, and the advisory test of its balance
    | CheckExists(wallet: Id)       // the destination's currency
    | CheckRate                     // the provider's answer
    | CheckReviewable(txn: Id)      // getSettleableType and assertApprovePermission
    | Acquire(lock: Lock)           // SELECT id ... FOR UPDATE
    | ReadTxn(txn: Id)              // re-read under the lock, still pending?
    | ReadWallet(wallet: Id)        // re-read under the lock
    | PeekWallet(wallet: Id)        // owner and currency only, no lock

  /** A call in flight: how far it is, the locks it holds, the rows it has read, the writes it has
    * issued. */
  datatype Local = Local(
    call: Call,
    pc: nat,
    held: set<Lock>,
    wallets: map<Id, Wallet>,
    txns: map<Id, Txn>,
    buffer: seq<Write>)

  /** The statements of a call. Approving and rejecting learn the wallet from the row they read. */
  function Script(c: Call, txns: map<Id, Txn>): seq<Stmt> {
    match c
    case CreateWallet(_, _, _) => []
    case AddMoney(w, _, _, _, _, _) => [CheckOwned(w), Acquire(WalletLock(w)), ReadWallet(w)]
    case RequestWithdrawal(w, _, _, _, _) => [CheckFunds(w)]
    case Approve(t, _, _, _) =>
      [CheckReviewable(t), Acquire(TxnLock(t)), ReadTxn(t)]
      + if t in txns then [Acquire(WalletLock(txns[t].wallet)), ReadWallet(txns[t].wallet)] else []
    case Reject(t, _, _, _, _) =>
      [CheckReviewable(t), Acquire(TxnLock(t)), ReadTxn(t)]
      + if t in txns then [PeekWallet(txns[t].wallet)] else []
    case Adjust(w, _, _, _, _, _) => [Acquire(WalletLock(w)), ReadWallet(w)]
    case Transfer(from, to, _, _, _, _, _, _, _, _) =>
      var lower, higher := if from < to then from else to, if from < to then to else from;
      [CheckDistinct, CheckOwned(from), CheckExists(to), CheckRate,
       Acquire(WalletLock(lower)), Acquire(WalletLock(higher)), ReadWallet(from), ReadWallet(to)]
  }

  function ScriptOf(l: Local): seq<Stmt> {
    Script(l.call, l.txns)
  }

  predicate RowExists(db: Db, lock: Lock) {
    match lock
    case TxnLock(t) => t in db.txns
    case WalletLock(w) => w in db.wallets
  }

  datatype Progress = Continue(local: Local) | Stop(reason: Refusal)

  function Test(l: Local, failure: Option<Refusal>): Progress {
    if failure.Some? then Stop(failure.value) else Continue(l.(pc := l.pc + 1))
  }

  predicate RateMissing(c: Call, wallets: map<Id, Wallet>) {
    c.Transfer? && c.from in wallets && c.to in wallets
    && wallets[c.from].currency != wallets[c.to].currency && c.quote.None?
  }

  /** One statement before the writes. */
  function Execute(db: Db, l: Local, st: Stmt): Progress {
    match st
    case CheckDistinct => Test(l, if l.call.Transfer? && l.call.to == l.call.from then Some(SameWallet) else None)
    case CheckOwned(w) => Test(l, OwnedBy(db.wallets, w, ActorOf(l.call)))
    case CheckFunds(w) =>
      var owned := OwnedBy(db.wallets, w, ActorOf(l.call));
      if owned.Some? then Stop(owned.value)
      else if ShortOfFunds(l.call, db.wallets) then Stop(InsufficientFunds)
      else Continue(l.(pc := l.pc + 1, wallets := l.wallets[w := db.wallets[w]]))
    case CheckExists(w) => Test(l, if w in db.wallets then None else Some(NotFound))
    case CheckRate => Test(l, if RateMissing(l.call, db.wallets) then Some(RateUnavailable) else None)
    case CheckReviewable(t) =>
      Test(l, if t !in db.txns then Some(NotFound)
              else if MayReview(db.txns[t], HeldPermissions(l.call)) then None else Some(Forbidden))
    case Acquire(lock) =>
      Continue(l.(pc := l.pc + 1, held := l.held + if RowExists(db, lock) then {lock} else {}))
    case ReadTxn(t) =>
      if t !in db.txns then Stop(NotFound)
      else if db.txns[t].status != Pending then Stop(AlreadyReviewed)
      else Continue(l.(pc := l.pc + 1, txns := l.txns[t := db.txns[t]]))
    case ReadWallet(w) =>
      if w !in db.wallets then Stop(NotFound)
      else Continue(l.(pc := l.pc + 1, wallets := l.wallets[w := db.wallets[w]]))
    case PeekWallet(w) =>
      Continue(l.(pc := l.pc + 1, wallets := if w in db.wallets then l.wallets[w := db.wallets[w]] else l.wallets))
  }

  function ActorOf(c: Call): Id {
    c.actor
  }

  function HeldPermissions(c: Call): set<Permission> {
    match c
    case Approve(_, _, held, _) => held
    case Reject(_, _, held, _, _) => held
    case _ => {}
  }

  function PlanAt(l: Local): Plan {
    PlanOf(l.call, l.wallets, l.txns)
  }

  // ---------- the machine ----------

  type Tid = nat

  /** used holds every id that was ever drawn or named: random ids are fresh against all of them. */
  datatype State = State(db: Db, active: map<Tid, Local>, log: seq<Entry>, used: set<Id>)

  datatype Move = Begin(tid: Tid, call: Call) | Advance(tid: Tid) | Crash(tid: Tid)

  /** The ids the call is given by its caller. */
  function Named(c: Call): set<Id> {
    match c
    case CreateWallet(_, _, _) => {}
    case AddMoney(w, _, _, _, _, _) => {w}
    case RequestWithdrawal(w, _, _, _, _) => {w}
    case Approve(t, _, _, _) => {t}
    case Reject(t, _, _, _, _) => {t}
    case Adjust(w, _, _, _, _, _) => {w}
    case Transfer(from, to, _, _, _, _, _, _, _, _) => {from, to}
  }

  /** A caller cannot name an id that a call still in flight has drawn. */
  ghost predicate Unborn(s: State, c: Call) {
    forall t :: t in s.active ==> Named(c) !! Drawn(s.active[t].call)
  }

  predicate AtLock(l: Local) {
    l.pc < |ScriptOf(l)| && ScriptOf(l)[l.pc].Acquire?
  }

  function Wanted(l: Local): Lock
    requires AtLock(l)
  {
    ScriptOf(l)[l.pc].lock
  }

  /** FOR UPDATE waits while another call holds the row; on a row that is not there it waits for
    * no one and locks nothing. */
  ghost predicate Blocked(s: State, tid: Tid)
    requires tid in s.active
  {
    AtLock(s.active[tid]) && RowExists(s.db, Wanted(s.active[tid]))
    && exists u :: u in s.active && u != tid && Wanted(s.active[tid]) in s.active[u].held
  }

  ghost predicate Enabled(s: State, m: Move) {
    match m
    case Begin(tid, c) => tid !in s.active && WellFormed(c) && Drawn(c) !! s.used && Unborn(s, c)
    case Advance(tid) => tid in s.active && !Blocked(s, tid)
    case Crash(tid) => tid in s.active
  }

  function Ended(s: State, tid: Tid, outcome: Outcome): State
    requires tid in s.active
  {
    s.(active := s.active - {tid}, log := s.log + [Entry(s.active[tid].call, outcome)])
  }

  function AdvanceOne(s: State, tid: Tid): State
    requires tid in s.active
  {
    var l := s.active[tid];
    if l.pc < |ScriptOf(l)| then
      match Execute(s.db, l, ScriptOf(l)[l.pc])
      case Continue(l') => s.(active := s.active[tid := l'])
      case Stop(r) => Ended(s, tid, Refused(r))
    else
      match PlanAt(l)
      case Err(r) => Ended(s, tid, Refused(r))
      case Ok(ws) =>
        if |l.buffer| < |ws|
        then s.(active := s.active[tid := l.(buffer := l.buffer + [ws[|l.buffer|]])])
        else Ended(s, tid, Committed).(db := Apply(s.db, l.buffer))
  }

  function Next(s: State, m: Move): State
    requires m.Advance? || m.Crash? ==> m.tid in s.active
  {
    match m
    case Begin(tid, c) =>
      s.(active := s.active[tid := Local(c, 0, {}, map[], map[], [])], used := s.used + Drawn(c) + Named(c))
    case Advance(tid) => AdvanceOne(s, tid)
    case Crash(tid) => Ended(s, tid, Lost)
  }

  /** s' is reached from s by the moves, each enabled in its turn. */
  ghost predicate Run(s: State, moves: seq<Move>, s': State)
    decreases |moves|
  {
    if moves == [] then s' == s
    else Enabled(s, moves[0]) && Run(Next(s, moves[0]), moves[1..], s')
  }

  /** Every id in the tables is used. */
  ghost predicate Covers(used: set<Id>, db: Db) {
    && (forall i :: i in db.wallets ==> i in used)
    && (forall i :: i in db.txns ==> i in used)
    && (forall i :: i in db.outbox ==> i in used)
    && (forall i :: i in db.txns && db.txns[i].link.Some? ==> db.txns[i].link.value.transferId in used)
  }

  ghost predicate Start(s: State) {
    Sound(s.db) && s.active == map[] && s.log == [] && Covers(s.used, s.db)
  }

  // ---------- what holds of a call in flight ----------

  /** What the call has read is still true: owners, currencies and locked rows do not change. */
  ghost predicate Agrees(db: Db, l: Local) {
    && (forall w :: w in l.wallets ==>
          w in db.wallets && db.wallets[w].owner == l.wallets[w].owner
          && db.wallets[w].currency == l.wallets[w].currency
          && (WalletLock(w) in l.held ==> db.wallets[w] == l.wallets[w]))
    && (forall t :: t in l.txns ==>
          t in db.txns && db.txns[t] == l.txns[t] && TxnLock(t) in l.held && l.txns[t].status.Pending?)
  }

  /** What a statement that has been executed still guarantees. */
  ghost predicate Done(db: Db, l: Local, st: Stmt) {
    match st
    case CheckDistinct => l.call.Transfer? ==> l.call.to != l.call.from
    case CheckOwned(w) => OwnedBy(db.wallets, w, ActorOf(l.call)).None?
    case CheckFunds(w) => OwnedBy(db.wallets, w, ActorOf(l.call)).None? && w in l.wallets
    case CheckExists(w) => w in db.wallets
    case CheckRate => !RateMissing(l.call, db.wallets)
    case CheckReviewable(t) => t in db.txns && MayReview(db.txns[t], HeldPermissions(l.call))
    case Acquire(lock) => lock in l.held || (!RowExists(db, lock) && lock.id in Named(l.call))
    case ReadTxn(t) => t in l.txns
    case ReadWallet(w) => w in l.wallets && WalletLock(w) in l.held
    case PeekWallet(w) => w in l.wallets
  }

  /** Once a wallet has been read no more locks are taken, nor rows that lead to locks read. */
  predicate LocksComeFirst(l: Local, script: seq<Stmt>) {
    l.wallets != map[] ==> forall k :: l.pc <= k < |script| ==> !script[k].Acquire? && !script[k].ReadTxn?
  }

  /** The call has done the statements of the script up to pc, and holds only locks it took there. */
  ghost predicate Follows(db: Db, l: Local, script: seq<Stmt>) {
    && l.pc <= |script|
    && Agrees(db, l)
    && (forall k :: 0 <= k < l.pc ==> Done(db, l, script[k]))
    && (forall lock :: lock in l.held ==> exists k :: 0 <= k < l.pc && script[k] == Acquire(lock))
    && LocksComeFirst(l, script)
    && (l.pc < |script| ==> l.buffer == [])
  }

  ghost predicate LocalOk(db: Db, l: Local) {
    && WellFormed(l.call)
    && Follows(db, l, ScriptOf(l))
    && (l.buffer != [] ==> PlanAt(l).Ok? && l.buffer <= PlanAt(l).value)
  }
}
