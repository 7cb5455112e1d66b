/** The invariant of the concurrent machine, and what other calls' steps leave
    of it intact. */
module Invariant {
  import opened Int64
  import opened Ledger
  import opened Protocol

  // ---- one call -----------------------------------------------------------

  predicate MovesMoney(req: Request) {
    req.Delta? || req.Transfer?
  }

  /** From uow.Begin up to and including the commit. */
  predicate InTransaction(pc: Pc) {
    match pc
    case Begin | LockRow(_) | Validate | Append(_) | Compare(_) | Write(_) | Commit => true
    case _ => false
  }

  /** Which lines belong to which kind of request. */
  predicate PcFits(call: Call) {
    var req := call.req;
    && (req.Transfer? && call.pc != Done ==> req.from != req.to)
    && match call.pc
       case Lookup => MovesMoney(req)
       case Replay(_) => req.Delta?
       case CheckNew | InsertNew => req.Create?
       case GetMutex(i) => i < |LockOrder(req)|
       case Acquire(i) => i < |LockOrder(req)|
       case ReadWallet => req.Delta?
       case LockRow(i) => req.Transfer? && i < 2
       case Validate => req.Transfer?
       case Begin | Append(_) | Compare(_) | Write(_) | Commit | Undo => MovesMoney(req)
       case SetStatus => req.Suspend?
       case Unlock => !req.Create?
       case Done => true
  }

  /** How many mutexes a call has looked up and holds at each line. */
  predicate MutexCount(call: Call) {
    var n := |LockOrder(call.req)|;
    match call.pc
    case Lookup | Replay(_) | CheckNew | InsertNew => |call.mutexes| == 0 && call.held == 0
    case GetMutex(i) => |call.mutexes| == i && call.held == 0
    case Acquire(i) => |call.mutexes| == n && call.held == i
    case Unlock => |call.mutexes| == n && call.held <= n
    case Done => |call.mutexes| <= n && call.held == 0
    case _ => |call.mutexes| == n && (call.held == n || (call.held == 0 && !call.alive))
  }

  /** The i-th mutex looked up is the table's mutex for the i-th wallet. */
  predicate LinkedAt(tables: Tables, proc: ProcId,
                     order: seq<WalletId>, mutexes: seq<MutexId>, i: int)
    requires 0 <= i < |mutexes| <= |order|
  {
    (proc, order[i]) in tables && tables[(proc, order[i])] == mutexes[i]
  }

  predicate Linked(tables: Tables, proc: ProcId,
                   order: seq<WalletId>, mutexes: seq<MutexId>)
  {
    |mutexes| <= |order| && forall i | 0 <= i < |mutexes| :: LinkedAt(tables, proc, order, mutexes, i)
  }

  predicate MutexFits(tables: Tables, call: Call) {
    MutexCount(call) && Linked(tables, call.proc, LockOrder(call.req), call.mutexes)
  }

  function WritesOf(updates: seq<Update>): map<WalletId, int> {
    if updates == [] then map[]
    else
      var u := updates[|updates| - 1];
      WritesOf(updates[..|updates| - 1])[u.wallet := u.next]
  }

  /** How much of the plan the transaction has carried out. */
  predicate Progress(call: Call) {
    var plan, tx := call.plan, call.tx;
    match call.pc
    case Append(i) => i < |plan.entries| && tx.pending == plan.entries[..i] && tx.writes == map[]
    case Compare(i) => i < |plan.updates| && tx.pending == plan.entries && tx.writes == WritesOf(plan.updates[..i])
    case Write(i) => i < |plan.updates| && tx.pending == plan.entries && tx.writes == WritesOf(plan.updates[..i])
    case Commit => tx.pending == plan.entries && tx.writes == WritesOf(plan.updates)
    case _ => true
  }

  /** How many rows GetWalletAndLock has locked and read. */
  function RowsRead(pc: Pc): nat {
    if pc.LockRow? then pc.i else 2
  }

  predicate ReadRowsFit(db: Db, call: Call) {
    var order, k := LockOrder(call.req), RowsRead(call.pc);
    && |order| == 2 && k <= 2 && |call.read| == k
    && call.tx == NO_TX.(rows := set i | 0 <= i < k :: order[i])
    && forall i | 0 <= i < k :: order[i] in db.wallets && db.wallets[order[i]] == call.read[i]
  }

  /** A transfer's plan is the plan for the rows as they are: it has had them
      locked since it read them. */
  predicate TransferPlanFits(db: Db, call: Call) {
    && call.req.Transfer?
    && var Transfer(from, to, amount, key) := call.req;
       && from in db.wallets && to in db.wallets
       && call.tx.rows == {from, to}
       && TransferPlan(from, to, db.wallets[from], db.wallets[to], amount, key) == Ok(call.plan)
  }

  /** What a topup or payment has read is its wallet, but for a balance and a
      status that may have changed since. */
  predicate ReadFits(read: seq<Wallet>, row: Wallet) {
    |read| == 1 && read[0].owner == row.owner && read[0].currency == row.currency && read[0].status == Active
  }

  /** A topup's or payment's plan is the plan for the balance it once read ... */
  predicate StalePlanFits(db: Db, call: Call) {
    && call.req.Delta?
    && var Delta(w, amount, direction, key) := call.req;
       && w in db.wallets && ReadFits(call.read, db.wallets[w])
       && call.tx.rows == {}
       && DeltaPlan(w, db.wallets[w].currency, call.read[0].balance, amount, direction, key) == Ok(call.plan)
  }

  /** ... and, once it holds the row and the comparison passed, for the row as it is. */
  predicate FreshPlanFits(db: Db, call: Call) {
    && call.req.Delta?
    && var Delta(w, amount, direction, key) := call.req;
       && w in db.wallets && ReadFits(call.read, db.wallets[w])
       && call.tx.rows == {w}
       && DeltaPlan(w, db.wallets[w].currency, db.wallets[w].balance, amount, direction, key) == Ok(call.plan)
  }

  predicate TxFits(db: Db, call: Call) {
    && Progress(call)
    && (forall w | w in call.tx.rows :: w in LockOrder(call.req))
    && (forall i | 0 <= i < |call.tx.pending| :: KeyFree(db.ledger, call.tx.pending[i].key))
    && match call.pc
       case Lookup | GetMutex(_) | Acquire(_) => call.tx == NO_TX && call.read == []
       case Begin => call.tx == NO_TX && if call.req.Delta? then StalePlanFits(db, call) else call.read == []
       case LockRow(_) | Validate => ReadRowsFit(db, call)
       case Append(_) | Compare(_) => if call.req.Delta? then StalePlanFits(db, call) else TransferPlanFits(db, call)
       case Write(_) | Commit => if call.req.Delta? then FreshPlanFits(db, call) else TransferPlanFits(db, call)
       case Undo => true
       case _ => call.tx == NO_TX
  }

  /** An entry of wallet w has the key. */
  predicate RecordedFor(ledger: seq<Entry>, key: Key, w: WalletId) {
    exists i | 0 <= i < |ledger| :: ledger[i].key == key && ledger[i].wallet == w
  }

  /** What a call's outcome says about the database. */
  predicate OutcomeFits(db: Db, call: Call) {
    && (call.pc in {Undo, Unlock, Done} <==> call.outcome != Running)
    && (call.pc.Replay? ==> RecordedFor(db.ledger, KeyOf(call.req), call.pc.id) && call.pc.id in db.wallets)
    && (call.req.Transfer? ==> call.outcome != Failed(OptimisticLock))
    && (MovesMoney(call.req) && call.outcome in {Success, Replayed} ==> HasKey(db.ledger, KeyOf(call.req)))
    && (call.req.Suspend? && call.outcome == Success ==>
          call.req.wallet in db.wallets && db.wallets[call.req.wallet].status == Suspended)
  }

  predicate CallInv(db: Db, tables: Tables, call: Call) {
    PcFits(call) && MutexFits(tables, call) && TxFits(db, call) && OutcomeFits(db, call)
  }

  // ---- two calls ----------------------------------------------------------

  /** No mutex, row or pending key belongs to two calls. */
  ghost predicate Exclusive(a: Call, b: Call) {
    && (forall m :: !HoldsMutex(a, m) || !HoldsMutex(b, m))
    && a.tx.rows !! b.tx.rows
    && (forall k :: !HasKey(a.tx.pending, k) || !HasKey(b.tx.pending, k))
  }

  // ---- the whole state ----------------------------------------------------

  /** Distinct wallets, and distinct processes, have distinct mutexes. */
  predicate TablesInv(tables: Tables, nextMutex: MutexId) {
    && (forall slot | slot in tables :: tables[slot] < nextMutex)
    && (forall slot, slot' | slot in tables && slot' in tables && slot != slot' :: tables[slot] != tables[slot'])
  }

  ghost predicate Inv(s: State) {
    && DbInv(s.db)
    && TablesInv(s.tables, s.nextMutex)
    && (forall c | c in s.calls :: CallInv(s.db, s.tables, s.calls[c]))
    && (forall c | c in s.calls && s.calls[c].alive :: s.calls[c].proc !in s.crashed)
    && (forall c, c' | c in s.calls && c' in s.calls && c != c' :: Exclusive(s.calls[c], s.calls[c']))
  }

  // ---- interference -------------------------------------------------------

  /** The database changed without touching what the call relies on. */
  predicate Respects(db: Db, db': Db, call: Call) {
    && (forall w | w in db.wallets ::
          && w in db'.wallets && db'.wallets[w].currency == db.wallets[w].currency
          && db'.wallets[w].owner == db.wallets[w].owner
          && (db.wallets[w].status == Suspended ==> db'.wallets[w].status == Suspended)
          && (w in call.tx.rows ==> db'.wallets[w] == db.wallets[w]))
    && db.ledger <= db'.ledger
    && (forall i | 0 <= i < |call.tx.pending| :: KeyFree(db'.ledger, call.tx.pending[i].key))
  }

  lemma HasKeyGrows(l: seq<Entry>, l': seq<Entry>, key: Key)
    requires l <= l' && HasKey(l, key)
    ensures HasKey(l', key)
  {
    var i :| 0 <= i < |l| && l[i].key == key;
    assert l'[i].key == key;
  }

  lemma TxStable(db: Db, db': Db, call: Call)
    requires TxFits(db, call) && Respects(db, db', call)
    ensures TxFits(db', call)
  {
    match call.pc {
      case LockRow(_) =>
        assert forall i | 0 <= i < RowsRead(call.pc) :: LockOrder(call.req)[i] in call.tx.rows;
      case Validate =>
        assert forall i | 0 <= i < RowsRead(call.pc) :: LockOrder(call.req)[i] in call.tx.rows;
      case _ =>
    }
  }

  lemma OutcomeStable(db: Db, db': Db, call: Call)
    requires OutcomeFits(db, call) && Respects(db, db', call)
    ensures OutcomeFits(db', call)
  {
    if HasKey(db.ledger, KeyOf(call.req)) {
      HasKeyGrows(db.ledger, db'.ledger, KeyOf(call.req));
    }
    if call.pc.Replay? {
      var i :| 0 <= i < |db.ledger| && db.ledger[i].key == KeyOf(call.req) && db.ledger[i].wallet == call.pc.id;
      assert db'.ledger[i] == db.ledger[i];
    }
  }

  /** lockFor never replaces a mutex. */
  predicate TablesGrow(tables: Tables, tables': Tables) {
    forall slot | slot in tables :: slot in tables' && tables'[slot] == tables[slot]
  }

  lemma MutexStable(tables: Tables, tables': Tables, call: Call)
    requires MutexFits(tables, call) && TablesGrow(tables, tables')
    ensures MutexFits(tables', call)
  {
    var order := LockOrder(call.req);
    forall i | 0 <= i < |call.mutexes|
      ensures LinkedAt(tables', call.proc, order, call.mutexes, i)
    {
      assert LinkedAt(tables, call.proc, order, call.mutexes, i);
    }
  }

  lemma CallStable(s: State, s': State, call: Call)
    requires CallInv(s.db, s.tables, call) && Respects(s.db, s'.db, call) && TablesGrow(s.tables, s'.tables)
    ensures CallInv(s'.db, s'.tables, call)
  {
    TxStable(s.db, s'.db, call);
    OutcomeStable(s.db, s'.db, call);
    MutexStable(s.tables, s'.tables, call);
  }

  /** The call's resources are among those it held before. */
  ghost predicate HoldsNoMore(call: Call, call': Call) {
    && (forall m | HoldsMutex(call', m) :: HoldsMutex(call, m))
    && call'.tx.rows <= call.tx.rows
    && (forall k | HasKey(call'.tx.pending, k) :: HasKey(call.tx.pending, k))
  }

  lemma StillExclusive(call: Call, call': Call, other: Call)
    requires Exclusive(call, other) && HoldsNoMore(call, call')
    ensures Exclusive(call', other) && Exclusive(other, call')
  {
  }

  lemma ExclusiveSymmetric(a: Call, b: Call)
    requires Exclusive(a, b)
    ensures Exclusive(b, a)
  {
  }

  /** One call changed, the database changed respecting all others, the
      mutex tables only grew: the invariant still holds if it holds of that call. */
  lemma UpdateKeeps(s: State, s': State, c: CallId, call': Call)
    requires Inv(s)
    requires s'.calls == s.calls[c := call'] && s'.crashed == s.crashed
    requires DbInv(s'.db) && TablesInv(s'.tables, s'.nextMutex)
    requires TablesGrow(s.tables, s'.tables)
    requires CallInv(s'.db, s'.tables, call') && (call'.alive ==> call'.proc !in s.crashed)
    requires forall d | d in s.calls && d != c :: Respects(s.db, s'.db, s.calls[d])
    requires forall d | d in s.calls && d != c :: Exclusive(call', s.calls[d])
    ensures Inv(s')
  {
    forall d | d in s'.calls
      ensures CallInv(s'.db, s'.tables, s'.calls[d])
    {
      if d != c {
        CallStable(s, s', s.calls[d]);
      }
    }
    forall d, d' | d in s'.calls && d' in s'.calls && d != d'
      ensures Exclusive(s'.calls[d], s'.calls[d'])
    {
      if d' == c {
        ExclusiveSymmetric(call', s.calls[d]);
      }
    }
  }

  lemma RespectsItself(db: Db, tables: Tables, call: Call)
    requires CallInv(db, tables, call)
    ensures Respects(db, db, call)
  {
  }
}
