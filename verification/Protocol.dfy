/** The service over its unit of work as a step machine: any number of
    processes, each with its own mutex table, any number of calls in flight, one
    shared database. A step is one line of wallet/service.go that touches shared
    state; faults, crashes and lost replies are steps too. */
module Protocol {
  import opened Int64
  import opened Money
  import opened Ledger

  type CallId = nat
  type ProcId = nat
  type MutexId = nat

  datatype Failure =
    | SameWallet | SameOwner | OwnerNotFound | WalletNotFound | WalletSuspended | InvalidAmount | CurrencyMismatch
    | InsufficientBalance | DuplicateKey | OptimisticLock | AlreadyExists | StorageError

  /** UpdateBalance(wallet, expected, next). */
  datatype Update = Update(wallet: WalletId, expected: int, next: int)

  /** What a validated call goes on to write: its AppendLedger and UpdateBalance calls, in order. */
  datatype Plan = Plan(entries: seq<Entry>, updates: seq<Update>)

  /** An open transaction: the rows it has locked and the writes nobody else sees yet. */
  datatype Tx = Tx(rows: set<WalletId>, pending: seq<Entry>, writes: map<WalletId, int>)

  const NO_TX := Tx({}, [], map[])
  const NO_PLAN := Plan([], [])

  datatype Pc =
    | Lookup            // FindByIdempotencyKey
    | Replay(id: WalletId) // wallets.Get of a replayed topup or payment
    | CheckNew          // CreateWallet: GetByOwnerAndCurrency
    | InsertNew         // CreateWallet: wallets.Create
    | GetMutex(i: nat)  // lockFor, in ascending wallet order
    | Acquire(i: nat)   // Lock on the mutexes, in the same order
    | ReadWallet        // applyDelta: wallets.Get outside any transaction, then its checks
    | Begin             // uow.Begin
    | LockRow(i: nat)   // Transfer: SELECT ... FOR UPDATE of GetWalletAndLock
    | Validate          // Transfer: its checks
    | Append(i: nat)    // tx.AppendLedger
    | Compare(i: nat)   // UpdateBalance: SELECT ... FOR UPDATE and the comparison
    | Write(i: nat)     // UpdateBalance: UPDATE
    | Commit            // tx.Commit
    | SetStatus         // SuspendWallet: UpdateStatus
    | Undo              // the deferred Rollback on an error path
    | Unlock            // the deferred mutex unlocks, last taken first
    | Done

  datatype Outcome = Running | Success | Replayed | Failed(why: Failure)

  /** One service call. `held` counts how many of `mutexes` it holds; `read`
      keeps the rows it has read. A call whose process crashed or whose
      connection broke is not alive, but its transaction stays open until the
      server notices, and its last statement may still take effect. */
  datatype Call = Call(proc: ProcId, req: Request, pc: Pc, alive: bool,
                       mutexes: seq<MutexId>, held: nat, read: seq<Wallet>,
                       plan: Plan, tx: Tx, outcome: Outcome)

  /** The walletLocks maps of all processes: one mutex per process and wallet, once looked up. */
  type Tables = map<(ProcId, WalletId), MutexId>

  datatype State = State(db: Db, calls: map<CallId, Call>,
                         tables: Tables, nextMutex: MutexId,
                         crashed: set<ProcId>)

  const INIT := State(EMPTY_DB, map[], map[], 0, {})

  datatype Event =
    | Start(c: CallId, proc: ProcId, req: Request)
    | Do(c: CallId)                             // the call's next line runs
    | Fault(c: CallId)                          // ... and returns a storage error instead
    | LostReply(c: CallId)                      // ... takes effect, but the caller sees an error
    | Insert(c: CallId, id: WalletId, heard: bool) // INSERT INTO wallets, with its generated id
    | Disconnect(c: CallId)                     // the call loses its connection and returns an error
    | Crash(p: ProcId)
    | Reap(c: CallId)                           // the server rolls back a dead call's transaction
    | Land(c: CallId)                           // a dead call's last statement still takes effect

  // ---- the calls' local computations --------------------------------------

  /** The wallets whose mutexes a call takes: always ascending. */
  function LockOrder(req: Request): seq<WalletId> {
    match req
    case Delta(w, _, _, _) => [w]
    case Transfer(from, to, _, _) => if to < from then [to, from] else [from, to]
    case Suspend(w) => [w]
    case Create(_, _) => []
  }

  /** applyDelta's amount, overdraft check and planned writes. */
  function DeltaPlan(w: WalletId, c: Currency, balance: int, amount: string, direction: Direction, key: Key)
    : Result<Plan, Failure>
  {
    match ParseAmount(amount, c)
    case None => Err(InvalidAmount)
    case Some(cents) =>
      var next := Wrap64(balance + Signed(direction, cents));
      if next < 0 then Err(InsufficientBalance)
      else Ok(Plan([DeltaEntry(w, c, direction, cents, key)], [Update(w, balance, next)]))
  }

  /** Transfer's checks, in its order, and its planned writes. */
  function TransferPlan(from: WalletId, to: WalletId, fromRow: Wallet, toRow: Wallet, amount: string, key: Key)
    : Result<Plan, Failure>
  {
    match ParseAmount(amount, fromRow.currency)
    case None => Err(InvalidAmount)
    case Some(cents) =>
      if fromRow.status == Suspended || toRow.status == Suspended then Err(WalletSuspended)
      else if fromRow.currency != toRow.currency then Err(CurrencyMismatch)
      else if fromRow.owner == toRow.owner then Err(SameOwner)
      else
        var newFrom := Wrap64(fromRow.balance - cents);
        if newFrom < 0 then Err(InsufficientBalance)
        else
          Ok(Plan([DebitLeg(from, to, fromRow.currency, cents, key), CreditLeg(from, to, toRow.currency, cents, key)],
                  [Update(from, fromRow.balance, newFrom), Update(to, toRow.balance, Wrap64(toRow.balance + cents))]))
  }

  // ---- error paths --------------------------------------------------------

  function Finish(call: Call, outcome: Outcome): Call {
    call.(pc := Done, outcome := outcome)
  }

  /** An error once a transaction is open: roll back, then unlock. */
  function Abort(call: Call, why: Failure): Call {
    call.(pc := Undo, outcome := Failed(why))
  }

  /** An error before one is open: only unlock. */
  function Refuse(call: Call, why: Failure): Call {
    call.(pc := Unlock, outcome := Failed(why))
  }

  // ---- single lines -------------------------------------------------------

  function StartCall(proc: ProcId, req: Request): Call {
    var call := Call(proc, req, Done, true, [], 0, [], NO_PLAN, NO_TX, Running);
    match req
    case Delta(_, _, _, key) => call.(pc := if key != "" then Lookup else GetMutex(0))
    case Transfer(from, to, _, key) =>
      if from == to then Finish(call, Failed(SameWallet))
      else call.(pc := if key != "" then Lookup else GetMutex(0))
    case Suspend(_) => call.(pc := GetMutex(0))
    case Create(_, _) => call.(pc := CheckNew)
  }

  function KeyOf(req: Request): Key {
    match req
    case Delta(_, _, _, key) => key
    case Transfer(_, _, _, key) => key
    case _ => ""
  }

  /** The wallet of the entry with this key. */
  function WalletOfKey(ledger: seq<Entry>, key: Key): WalletId
    requires HasKey(ledger, key)
  {
    if ledger[|ledger| - 1].key == key then ledger[|ledger| - 1].wallet
    else
      assert HasKey(ledger[..|ledger| - 1], key) by {
        var i :| 0 <= i < |ledger| && ledger[i].key == key;
        assert ledger[..|ledger| - 1][i].key == key;
      }
      WalletOfKey(ledger[..|ledger| - 1], key)
  }

  function LookupLine(db: Db, call: Call): Call {
    if !HasKey(db.ledger, KeyOf(call.req)) then call.(pc := GetMutex(0))
    else if call.req.Delta? then call.(pc := Replay(WalletOfKey(db.ledger, KeyOf(call.req))))
    else Finish(call, Replayed)
  }

  function ReplayLine(db: Db, call: Call, w: WalletId): Call {
    Finish(call, if w in db.wallets then Replayed else Failed(WalletNotFound))
  }

  function CheckNewLine(db: Db, call: Call): Call
    requires call.req.Create?
  {
    if OwnsCurrency(db.wallets, call.req.owner, call.req.currency)
    then Finish(call, Failed(AlreadyExists)) else call.(pc := InsertNew)
  }

  /** After the last mutex. */
  function FirstLine(req: Request): Pc {
    match req
    case Delta(_, _, _, _) => ReadWallet
    case Transfer(_, _, _, _) => Begin
    case _ => SetStatus
  }

  function AcquireLine(call: Call, i: nat): Call {
    call.(held := i + 1, pc := if i + 1 < |call.mutexes| then Acquire(i + 1) else FirstLine(call.req))
  }

  function ReadWalletLine(db: Db, call: Call): Call
    requires call.req.Delta?
  {
    var Delta(w, amount, direction, key) := call.req;
    if w !in db.wallets then Refuse(call, WalletNotFound)
    else
      var row := db.wallets[w];
      if row.status == Suspended then Refuse(call, WalletSuspended)
      else
        match DeltaPlan(w, row.currency, row.balance, amount, direction, key)
        case Err(why) => Refuse(call, why)
        case Ok(plan) => call.(pc := Begin, read := [row], plan := plan)
  }

  function BeginLine(call: Call): Call {
    call.(pc := if call.req.Transfer? then LockRow(0) else Append(0))
  }

  function LockRowLine(db: Db, call: Call, i: nat): Call
    requires i < |LockOrder(call.req)|
  {
    var w := LockOrder(call.req)[i];
    if w !in db.wallets then Abort(call, WalletNotFound)
    else
      call.(pc := if i + 1 < |LockOrder(call.req)| then LockRow(i + 1) else Validate,
            read := call.read + [db.wallets[w]], tx := call.tx.(rows := call.tx.rows + {w}))
  }

  function ValidateLine(call: Call): Call
    requires call.req.Transfer? && |call.read| == 2
  {
    var Transfer(from, to, amount, key) := call.req;
    var swapped := to < from;
    var fromRow := if swapped then call.read[1] else call.read[0];
    var toRow := if swapped then call.read[0] else call.read[1];
    match TransferPlan(from, to, fromRow, toRow, amount, key)
    case Err(why) => Abort(call, why)
    case Ok(plan) => call.(pc := Append(0), plan := plan)
  }

  function AppendLine(db: Db, call: Call, i: nat): Call
    requires i < |call.plan.entries|
  {
    var e := call.plan.entries[i];
    if |e.key| > MAX_KEY then Abort(call, StorageError)
    else if HasKey(db.ledger, e.key) || HasKey(call.tx.pending, e.key) then Abort(call, DuplicateKey)
    else
      call.(pc := if i + 1 < |call.plan.entries| then Append(i + 1) else Compare(0),
            tx := call.tx.(pending := call.tx.pending + [e]))
  }

  /** The balance a transaction sees: its own write, or the committed one. */
  function Visible(db: Db, tx: Tx, w: WalletId): int
    requires w in db.wallets
  {
    if w in tx.writes then tx.writes[w] else db.wallets[w].balance
  }

  function CompareLine(db: Db, call: Call, i: nat): Call
    requires i < |call.plan.updates|
  {
    var u := call.plan.updates[i];
    if u.wallet !in db.wallets then Abort(call, WalletNotFound)
    else
      var locked := call.(tx := call.tx.(rows := call.tx.rows + {u.wallet}));
      if Visible(db, call.tx, u.wallet) != u.expected then Abort(locked, OptimisticLock)
      else locked.(pc := Write(i))
  }

  function WriteLine(call: Call, i: nat): Call
    requires i < |call.plan.updates|
  {
    var u := call.plan.updates[i];
    call.(pc := if i + 1 < |call.plan.updates| then Compare(i + 1) else Commit,
          tx := call.tx.(writes := call.tx.writes[u.wallet := u.next]))
  }

  /** COMMIT publishes a transaction's writes: only the balance column changes. */
  function Publish(db: Db, tx: Tx): Db {
    Db(map w | w in db.wallets ::
         if w in tx.writes then db.wallets[w].(balance := tx.writes[w]) else db.wallets[w],
       db.ledger + tx.pending)
  }

  /** UPDATE wallets SET status; no row, no effect. */
  function StatusSet(db: Db, req: Request): Db {
    if req.Suspend? && req.wallet in db.wallets then SetSuspended(db, req.wallet) else db
  }

  function SetStatusLine(db: Db, call: Call): Call
    requires call.req.Suspend?
  {
    if call.req.wallet in db.wallets then call.(pc := Unlock, outcome := Success)
    else Refuse(call, WalletNotFound)
  }

  function UndoLine(call: Call): Call {
    call.(pc := Unlock, tx := NO_TX)
  }

  function UnlockLine(call: Call): Call {
    if call.held <= 1 then call.(held := 0, pc := Done) else call.(held := call.held - 1)
  }

  /** What is left of a dead call once the server is done with it. */
  function Gone(call: Call): Call {
    call.(pc := Done, held := 0, tx := NO_TX, outcome := Failed(StorageError))
  }

  // ---- waiting ------------------------------------------------------------

  predicate AmongFirst(mutexes: seq<MutexId>, held: nat, m: MutexId) {
    exists i | 0 <= i < |mutexes| :: i < held && mutexes[i] == m
  }

  predicate HoldsMutex(call: Call, m: MutexId) {
    AmongFirst(call.mutexes, call.held, m)
  }

  /** The row a call's next statement locks. */
  function WantedRow(call: Call): Option<WalletId> {
    match call.pc
    case LockRow(i) => if i < |LockOrder(call.req)| then Some(LockOrder(call.req)[i]) else None
    case Compare(i) => if i < |call.plan.updates| then Some(call.plan.updates[i].wallet) else None
    case SetStatus => if call.req.Suspend? then Some(call.req.wallet) else None
    case _ => None
  }

  function WantedMutex(call: Call): Option<MutexId> {
    if call.pc.Acquire? && call.pc.i < |call.mutexes| then Some(call.mutexes[call.pc.i]) else None
  }

  function WantedKey(call: Call): Option<Key> {
    if call.pc.Append? && call.pc.i < |call.plan.entries| then Some(call.plan.entries[call.pc.i].key) else None
  }

  /** Does the call have to wait for something the other one holds: a mutex, a
      row lock, or a unique key its open transaction has inserted? */
  predicate WaitsFor(call: Call, other: Call) {
    || (WantedMutex(call).Some? && HoldsMutex(other, WantedMutex(call).value))
    || (WantedRow(call).Some? && WantedRow(call).value in other.tx.rows)
    || (WantedKey(call).Some? && HasKey(other.tx.pending, WantedKey(call).value))
  }

  predicate Blocked(s: State, c: CallId)
    requires c in s.calls
  {
    exists c' | c' in s.calls :: c' != c && WaitsFor(s.calls[c], s.calls[c'])
  }

  // ---- the machine --------------------------------------------------------

  function With(s: State, c: CallId, call: Call): State {
    s.(calls := s.calls[c := call])
  }

  /** lockFor: the wallet's mutex in the process's table, created on first use. */
  function GetMutexStep(s: State, c: CallId, i: nat): State
    requires c in s.calls && i < |LockOrder(s.calls[c].req)|
  {
    var call := s.calls[c];
    var w := LockOrder(call.req)[i];
    var slot := (call.proc, w);
    var m := if slot in s.tables then s.tables[slot] else s.nextMutex;
    var next := call.(mutexes := call.mutexes + [m],
                      pc := if i + 1 < |LockOrder(call.req)| then GetMutex(i + 1) else Acquire(0));
    if slot in s.tables then With(s, c, next)
    else State(s.db, s.calls[c := next], s.tables[slot := m], s.nextMutex + 1, s.crashed)
  }

  /** The line a live call runs when it changes nothing but the call and takes nothing. */
  function QuietLine(db: Db, call: Call): Option<Call> {
    match call.pc
    case Lookup => Some(LookupLine(db, call))
    case Replay(w) => Some(ReplayLine(db, call, w))
    case CheckNew => if call.req.Create? then Some(CheckNewLine(db, call)) else None
    case ReadWallet => if call.req.Delta? then Some(ReadWalletLine(db, call)) else None
    case Begin => Some(BeginLine(call))
    case Validate => if call.req.Transfer? && |call.read| == 2 then Some(ValidateLine(call)) else None
    case Write(i) => if i < |call.plan.updates| then Some(WriteLine(call, i)) else None
    case Undo => Some(UndoLine(call))
    case Unlock => Some(UnlockLine(call))
    case _ => None
  }

  /** The next line of a live call that is not blocked. */
  function DoStep(s: State, c: CallId): Option<State>
    requires c in s.calls
  {
    var call := s.calls[c];
    match call.pc
    case GetMutex(i) => if i < |LockOrder(call.req)| then Some(GetMutexStep(s, c, i)) else None
    case Acquire(i) => Some(With(s, c, AcquireLine(call, i)))
    case LockRow(i) => if i < |LockOrder(call.req)| then Some(With(s, c, LockRowLine(s.db, call, i))) else None
    case Append(i) => if i < |call.plan.entries| then Some(With(s, c, AppendLine(s.db, call, i))) else None
    case Compare(i) => if i < |call.plan.updates| then Some(With(s, c, CompareLine(s.db, call, i))) else None
    case Commit =>
      Some(With(s, c, call.(pc := Unlock, outcome := Success, tx := NO_TX)).(db := Publish(s.db, call.tx)))
    case SetStatus =>
      if call.req.Suspend?
      then Some(With(s, c, SetStatusLine(s.db, call)).(db := StatusSet(s.db, call.req))) else None
    case _ =>
      match QuietLine(s.db, call)
      case None => None
      case Some(next) => Some(With(s, c, next))
  }

  /** The line fails in storage. A failed key lookup counts as "not found". */
  function FaultLine(call: Call): Option<Call> {
    match call.pc
    case Lookup => Some(call.(pc := GetMutex(0)))
    case Replay(_) | CheckNew | InsertNew => Some(Finish(call, Failed(StorageError)))
    case ReadWallet | Begin | SetStatus => Some(Refuse(call, StorageError))
    case LockRow(_) | Validate | Append(_) | Compare(_) | Write(_) | Commit => Some(Abort(call, StorageError))
    case _ => None
  }

  /** The database after a call's COMMIT or status update. */
  function Landed(s: State, call: Call): Db {
    if call.pc == Commit then Publish(s.db, call.tx) else StatusSet(s.db, call.req)
  }

  function InsertStep(s: State, c: CallId, id: WalletId, heard: bool): Option<State>
    requires c in s.calls
  {
    var call := s.calls[c];
    if call.pc != InsertNew || !call.req.Create? || id in s.db.wallets then None
    else if OwnsCurrency(s.db.wallets, call.req.owner, call.req.currency)
    then Some(With(s, c, Finish(call, Failed(if call.alive then AlreadyExists else StorageError))))
    else
      Some(With(s, c, Finish(call, if heard && call.alive then Success else Failed(StorageError)))
           .(db := OpenWallet(s.db, id, call.req.owner, call.req.currency)))
  }

  /** Lines that talk to the server in a transaction, or change something by themselves. */
  predicate OnTheWire(pc: Pc) {
    match pc
    case LockRow(_) | Validate | Append(_) | Compare(_) | Write(_) | Commit | Undo | SetStatus | InsertNew => true
    case _ => false
  }

  /** The service has given the call up: its mutexes are free again and a
      Rollback does nothing, but the server may still hold its transaction. */
  function CutOff(call: Call): Call {
    call.(alive := false, held := 0)
  }

  function CrashCall(call: Call, p: ProcId): Call {
    if call.proc == p then call.(alive := false) else call
  }

  /** The process's calls stop; what they have open in the database stays open. */
  function CrashStep(s: State, p: ProcId): State {
    s.(calls := map c | c in s.calls :: CrashCall(s.calls[c], p), crashed := s.crashed + {p})
  }

  predicate Alive(s: State, c: CallId) {
    c in s.calls && s.calls[c].alive
  }

  /** One step; None when the event cannot happen now. */
  function Step(s: State, ev: Event): Option<State> {
    match ev
    case Start(c, proc, req) =>
      if c in s.calls || proc in s.crashed then None else Some(With(s, c, StartCall(proc, req)))
    case Do(c) => if Alive(s, c) && !Blocked(s, c) then DoStep(s, c) else None
    case Fault(c) =>
      if Alive(s, c) && FaultLine(s.calls[c]).Some? then Some(With(s, c, FaultLine(s.calls[c]).value)) else None
    case LostReply(c) =>
      if Alive(s, c) && !Blocked(s, c) && s.calls[c].pc in {Commit, SetStatus}
      then Some(With(s, c, s.calls[c].(pc := Unlock, outcome := Failed(StorageError), tx := NO_TX))
                .(db := Landed(s, s.calls[c])))
      else None
    case Insert(c, id, heard) => if c in s.calls then InsertStep(s, c, id, heard) else None
    case Disconnect(c) =>
      if Alive(s, c) && OnTheWire(s.calls[c].pc) then Some(With(s, c, CutOff(s.calls[c]))) else None
    case Crash(p) => Some(CrashStep(s, p))
    case Reap(c) =>
      if c in s.calls && !s.calls[c].alive && s.calls[c].pc != Done then Some(With(s, c, Gone(s.calls[c]))) else None
    case Land(c) =>
      if c in s.calls && !s.calls[c].alive && !Blocked(s, c) && s.calls[c].pc in {Commit, SetStatus}
      then Some(With(s, c, Gone(s.calls[c])).(db := Landed(s, s.calls[c])))
      else None
  }

  /** A run: the events happen in order. */
  function Run(s: State, evs: seq<Event>): Option<State> {
    if evs == [] then Some(s)
    else
      match Run(s, evs[..|evs| - 1])
      case None => None
      case Some(t) => Step(t, evs[|evs| - 1])
  }

  // ---- what takes effect, and when ----------------------------------------

  function CallEffect(s: State, c: CallId): Option<Action> {
    if c !in s.calls then None
    else if s.calls[c].pc == Commit then Some(Perform(s.calls[c].req))
    else if s.calls[c].pc == SetStatus && s.calls[c].req.Suspend? && s.calls[c].req.wallet in s.db.wallets
    then Some(Perform(s.calls[c].req))
    else None
  }

  /** The action a step makes take effect on the database. */
  function EffectOf(s: State, ev: Event): Option<Action> {
    match ev
    case Do(c) => CallEffect(s, c)
    case LostReply(c) => CallEffect(s, c)
    case Land(c) => CallEffect(s, c)
    case Insert(c, id, _) =>
      if c in s.calls && s.calls[c].req.Create?
         && !OwnsCurrency(s.db.wallets, s.calls[c].req.owner, s.calls[c].req.currency)
      then Some(Open(id, s.calls[c].req.owner, s.calls[c].req.currency)) else None
    case _ => None
  }

  /** The effects of a run, in order. */
  function Effects(s: State, evs: seq<Event>): seq<Action>
    requires Run(s, evs).Some?
  {
    if evs == [] then []
    else
      var front := evs[..|evs| - 1];
      Effects(s, front)
      + match EffectOf(Run(s, front).value, evs[|evs| - 1])
        case None => []
        case Some(a) => [a]
  }

  /** The calls those effects belong to. */
  function Doers(s: State, evs: seq<Event>): (doers: seq<CallId>)
    requires Run(s, evs).Some?
    ensures |doers| == |Effects(s, evs)|
  {
    if evs == [] then []
    else
      var front, ev := evs[..|evs| - 1], evs[|evs| - 1];
      Doers(s, front) + if EffectOf(Run(s, front).value, ev).Some? then [ev.c] else []
  }
}
