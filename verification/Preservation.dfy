/** Every step of the concurrent machine keeps its invariant, and its effect on
    the database is exactly one whole action or nothing. */
module Preservation {
  import opened Int64
  import opened Money
  import opened Ledger
  import opened AtomicProofs
  import opened Protocol
  import opened Invariant
  import opened Refinement

  /** A step that only changes the call itself. */
  lemma LocalKeeps(s: State, c: CallId, call': Call)
    requires Inv(s)
    requires CallInv(s.db, s.tables, call') && (call'.alive ==> call'.proc !in s.crashed)
    requires forall d | d in s.calls && d != c :: Exclusive(call', s.calls[d])
    ensures Inv(With(s, c, call'))
  {
    forall d | d in s.calls && d != c
      ensures Respects(s.db, s.db, s.calls[d])
    {
      RespectsItself(s.db, s.tables, s.calls[d]);
    }
    UpdateKeeps(s, With(s, c, call'), c, call');
  }

  /** ... and takes no new resource. */
  lemma QuietKeeps(s: State, c: CallId, call': Call)
    requires Inv(s) && c in s.calls
    requires CallInv(s.db, s.tables, call') && HoldsNoMore(s.calls[c], call')
    requires call'.proc == s.calls[c].proc && (call'.alive ==> s.calls[c].alive)
    ensures Inv(With(s, c, call'))
  {
    forall d | d in s.calls && d != c
      ensures Exclusive(call', s.calls[d])
    {
      StillExclusive(s.calls[c], call', s.calls[d]);
    }
    LocalKeeps(s, c, call');
  }

  // ---- lines that take nothing --------------------------------------------

  lemma LookupKeeps(db: Db, tables: Tables, call: Call)
    requires CallInv(db, tables, call) && call.pc.Lookup? && EntriesKnown(db)
    ensures CallInv(db, tables, LookupLine(db, call)) && HoldsNoMore(call, LookupLine(db, call))
  {
    if HasKey(db.ledger, KeyOf(call.req)) {
      FoundWalletKnown(db, db.ledger, KeyOf(call.req));
    }
  }

  /** The wallet a lookup finds exists, and an entry of it has the key. */
  lemma {:induction false} FoundWalletKnown(db: Db, l: seq<Entry>, key: Key)
    requires HasKey(l, key) && forall i | 0 <= i < |l| :: l[i].wallet in db.wallets
    ensures WalletOfKey(l, key) in db.wallets && RecordedFor(l, key, WalletOfKey(l, key))
  {
    if l[|l| - 1].key != key {
      var i :| 0 <= i < |l| && l[i].key == key;
      var front := l[..|l| - 1];
      assert front[i].key == key;
      FoundWalletKnown(db, front, key);
      var j :| 0 <= j < |front| && front[j].key == key && front[j].wallet == WalletOfKey(front, key);
      assert l[j] == front[j];
    }
  }

  lemma ReplayKeeps(db: Db, tables: Tables, call: Call)
    requires CallInv(db, tables, call) && call.pc.Replay?
    ensures CallInv(db, tables, ReplayLine(db, call, call.pc.id)) && HoldsNoMore(call, ReplayLine(db, call, call.pc.id))
  {
  }

  lemma CheckNewKeeps(db: Db, tables: Tables, call: Call)
    requires CallInv(db, tables, call) && call.pc.CheckNew?
    ensures CallInv(db, tables, CheckNewLine(db, call)) && HoldsNoMore(call, CheckNewLine(db, call))
  {
  }

  lemma BeginKeeps(db: Db, tables: Tables, call: Call)
    requires CallInv(db, tables, call) && call.pc.Begin?
    ensures CallInv(db, tables, BeginLine(call)) && HoldsNoMore(call, BeginLine(call))
  {
    if call.req.Delta? {
      assert call.plan.entries[..0] == [];
    }
  }

  lemma UndoKeeps(db: Db, tables: Tables, call: Call)
    requires CallInv(db, tables, call) && call.pc.Undo?
    ensures CallInv(db, tables, UndoLine(call)) && HoldsNoMore(call, UndoLine(call))
  {
  }

  lemma ReadWalletKeeps(db: Db, tables: Tables, call: Call)
    requires CallInv(db, tables, call) && call.pc.ReadWallet?
    ensures CallInv(db, tables, ReadWalletLine(db, call)) && HoldsNoMore(call, ReadWalletLine(db, call))
  {
  }

  /** The two rows a transfer has locked and read are its two wallets, as they are. */
  lemma RowsAreCurrent(db: Db, call: Call)
    requires PcFits(call) && TxFits(db, call) && call.pc.Validate? && call.req.Transfer?
    ensures |call.read| == 2 && call.req.from in db.wallets && call.req.to in db.wallets
    ensures call.tx == NO_TX.(rows := {call.req.from, call.req.to})
    ensures call.read == if call.req.to < call.req.from
                         then [db.wallets[call.req.to], db.wallets[call.req.from]]
                         else [db.wallets[call.req.from], db.wallets[call.req.to]]
  {
    var Transfer(from, to, amount, key) := call.req;
    var order := LockOrder(call.req);
    assert order[0] in db.wallets && order[1] in db.wallets;
    assert (set i | 0 <= i < 2 :: order[i]) == {from, to} by {
      assert order[0] in {from, to} && order[1] in {from, to};
      assert from == order[0] || from == order[1];
      assert to == order[0] || to == order[1];
    }
  }

  lemma ValidateKeeps(db: Db, tables: Tables, call: Call)
    requires CallInv(db, tables, call) && call.pc.Validate?
    ensures |call.read| == 2
    ensures CallInv(db, tables, ValidateLine(call)) && HoldsNoMore(call, ValidateLine(call))
  {
    RowsAreCurrent(db, call);
  }

  lemma PlanShape(db: Db, call: Call)
    requires call.pc.Append? || call.pc.Compare? || call.pc.Write?
    requires PcFits(call) && TxFits(db, call)
    ensures call.req.Delta? ==>
              && |call.plan.entries| == 1 && |call.plan.updates| == 1
              && call.plan.entries[0].key == call.req.key && call.plan.updates[0].wallet == call.req.wallet
    ensures call.req.Transfer? ==>
              && |call.plan.entries| == 2 && |call.plan.updates| == 2
              && call.plan.entries[0].key == call.req.key
              && call.plan.entries[1].key == call.req.key + CREDIT_SUFFIX
              && call.plan.updates[0].wallet == call.req.from && call.plan.updates[1].wallet == call.req.to
  {
  }

  lemma WriteKeeps(db: Db, tables: Tables, call: Call)
    requires CallInv(db, tables, call) && call.pc.Write?
    ensures CallInv(db, tables, WriteLine(call, call.pc.i)) && HoldsNoMore(call, WriteLine(call, call.pc.i))
  {
    PlanShape(db, call);
    var us, i := call.plan.updates, call.pc.i;
    assert us[..i + 1][..i] == us[..i];
    assert us[..|us|] == us;
  }

  lemma UnlockKeeps(db: Db, tables: Tables, call: Call)
    requires CallInv(db, tables, call) && call.pc.Unlock?
    ensures CallInv(db, tables, UnlockLine(call)) && HoldsNoMore(call, UnlockLine(call))
  {
  }

  // ---- lines that take a mutex, a row or a key ----------------------------

  lemma AcquireKeeps(db: Db, tables: Tables, call: Call)
    requires CallInv(db, tables, call) && call.pc.Acquire?
    ensures CallInv(db, tables, AcquireLine(call, call.pc.i))
  {
  }

  lemma AcquireExclusive(call: Call, other: Call)
    requires call.pc.Acquire? && call.held == call.pc.i < |call.mutexes|
    requires Exclusive(call, other) && !WaitsFor(call, other)
    ensures Exclusive(AcquireLine(call, call.pc.i), other)
  {
    var call' := AcquireLine(call, call.pc.i);
    forall m
      ensures !HoldsMutex(call', m) || !HoldsMutex(other, m)
    {
      if HoldsMutex(call', m) && m != call.mutexes[call.pc.i] {
        assert HoldsMutex(call, m);
      }
    }
  }

  lemma LockRowKeeps(db: Db, tables: Tables, call: Call)
    requires CallInv(db, tables, call) && call.pc.LockRow?
    ensures CallInv(db, tables, LockRowLine(db, call, call.pc.i))
  {
    var i, order := call.pc.i, LockOrder(call.req);
    assert (set j | 0 <= j < i + 1 :: order[j]) == (set j | 0 <= j < i :: order[j]) + {order[i]};
  }

  lemma LockRowExclusive(db: Db, call: Call, other: Call)
    requires call.pc.LockRow? && call.pc.i < |LockOrder(call.req)|
    requires Exclusive(call, other) && !WaitsFor(call, other)
    ensures Exclusive(LockRowLine(db, call, call.pc.i), other)
  {
  }

  lemma HasKeySnoc(l: seq<Entry>, e: Entry, key: Key)
    ensures HasKey(l + [e], key) <==> HasKey(l, key) || e.key == key
  {
    assert (l + [e])[|l|] == e;
    if HasKey(l, key) {
      HasKeyGrows(l, l + [e], key);
    }
  }

  /** Until the insert succeeds nothing but the outcome changes. */
  lemma AbortKeeps(db: Db, tables: Tables, call: Call, why: Failure)
    requires CallInv(db, tables, call) && MovesMoney(call.req) && why != OptimisticLock
    requires InTransaction(call.pc)
    ensures CallInv(db, tables, Abort(call, why))
  {
  }

  lemma PendingFree(db: Db, pending: seq<Entry>, e: Entry)
    requires forall i | 0 <= i < |pending| :: KeyFree(db.ledger, pending[i].key)
    requires KeyFree(db.ledger, e.key)
    ensures forall i | 0 <= i < |pending + [e]| :: KeyFree(db.ledger, (pending + [e])[i].key)
  {
  }

  lemma PlanParts(plan: Plan, i: nat)
    requires i < |plan.entries|
    ensures plan.entries[..i] + [plan.entries[i]] == plan.entries[..i + 1]
    ensures plan.entries[..|plan.entries|] == plan.entries
    ensures plan.updates[..0] == []
  {
  }

  lemma InsertedProgress(db: Db, tables: Tables, call: Call)
    requires CallInv(db, tables, call) && call.pc.Append?
    requires call.pc.i < |call.plan.entries| && KeyFree(db.ledger, call.plan.entries[call.pc.i].key)
    requires !HasKey(call.tx.pending, call.plan.entries[call.pc.i].key)
    ensures CallInv(db, tables, AppendLine(db, call, call.pc.i))
  {
    PlanShape(db, call);
    PlanParts(call.plan, call.pc.i);
    PendingFree(db, call.tx.pending, call.plan.entries[call.pc.i]);
  }

  lemma AppendProgress(db: Db, tables: Tables, call: Call)
    requires CallInv(db, tables, call) && call.pc.Append?
    ensures CallInv(db, tables, AppendLine(db, call, call.pc.i))
  {
    var e := call.plan.entries[call.pc.i];
    if |e.key| > MAX_KEY {
      AbortKeeps(db, tables, call, StorageError);
    } else if HasKey(db.ledger, e.key) || HasKey(call.tx.pending, e.key) {
      AbortKeeps(db, tables, call, DuplicateKey);
    } else {
      InsertedProgress(db, tables, call);
    }
  }

  lemma AppendExclusive(db: Db, call: Call, other: Call)
    requires call.pc.Append? && call.pc.i < |call.plan.entries|
    requires Exclusive(call, other) && !WaitsFor(call, other)
    ensures Exclusive(AppendLine(db, call, call.pc.i), other)
  {
    var e := call.plan.entries[call.pc.i];
    forall k
      ensures HasKey(call.tx.pending + [e], k) <==> HasKey(call.tx.pending, k) || e.key == k
    {
      HasKeySnoc(call.tx.pending, e, k);
    }
  }

  lemma DeltaCompareKeeps(db: Db, tables: Tables, call: Call)
    requires CallInv(db, tables, call) && call.pc.Compare? && call.req.Delta?
    ensures CallInv(db, tables, CompareLine(db, call, call.pc.i))
  {
    PlanShape(db, call);
    assert call.plan.updates[..0] == [];
  }

  /** A transfer's comparison never fails: it compares locked rows with themselves. */
  lemma TransferCompareKeeps(db: Db, tables: Tables, call: Call)
    requires CallInv(db, tables, call) && call.pc.Compare? && call.req.Transfer?
    ensures CompareLine(db, call, call.pc.i).pc.Write?
    ensures CallInv(db, tables, CompareLine(db, call, call.pc.i))
  {
    PlanShape(db, call);
    var us := call.plan.updates;
    assert us[..0] == [] && us[..1] == [us[0]];
    WritesOfOne(us[0]);
    assert call.tx.rows + {us[call.pc.i].wallet} == call.tx.rows;
  }

  lemma CompareKeeps(db: Db, tables: Tables, call: Call)
    requires CallInv(db, tables, call) && call.pc.Compare?
    ensures var call' := CompareLine(db, call, call.pc.i);
            CallInv(db, tables, call') && call'.proc == call.proc && call'.alive == call.alive
  {
    if call.req.Delta? {
      DeltaCompareKeeps(db, tables, call);
    } else {
      TransferCompareKeeps(db, tables, call);
    }
  }

  lemma CompareExclusive(db: Db, call: Call, other: Call)
    requires call.pc.Compare? && call.pc.i < |call.plan.updates|
    requires Exclusive(call, other) && !WaitsFor(call, other)
    ensures Exclusive(CompareLine(db, call, call.pc.i), other)
  {
  }

  // ---- one line of a live call --------------------------------------------

  lemma NotWaiting(s: State, c: CallId, d: CallId)
    requires c in s.calls && d in s.calls && c != d && !Blocked(s, c)
    ensures !WaitsFor(s.calls[c], s.calls[d])
  {
  }

  lemma QuietLineKeeps(db: Db, tables: Tables, call: Call)
    requires CallInv(db, tables, call) && QuietLine(db, call).Some? && EntriesKnown(db)
    ensures CallInv(db, tables, QuietLine(db, call).value) && HoldsNoMore(call, QuietLine(db, call).value)
  {
    match call.pc
    case Lookup => LookupKeeps(db, tables, call);
    case Replay(_) => ReplayKeeps(db, tables, call);
    case CheckNew => CheckNewKeeps(db, tables, call);
    case ReadWallet => ReadWalletKeeps(db, tables, call);
    case Begin => BeginKeeps(db, tables, call);
    case Validate => ValidateKeeps(db, tables, call);
    case Write(_) => WriteKeeps(db, tables, call);
    case Undo => UndoKeeps(db, tables, call);
    case Unlock => UnlockKeeps(db, tables, call);
  }

  lemma QuietStep(s: State, c: CallId)
    requires Inv(s) && Alive(s, c) && QuietLine(s.db, s.calls[c]).Some?
    ensures Inv(With(s, c, QuietLine(s.db, s.calls[c]).value))
  {
    var call := s.calls[c];
    QuietLineKeeps(s.db, s.tables, call);
    QuietLineSame(s.db, call);
    QuietKeeps(s, c, QuietLine(s.db, call).value);
  }

  lemma QuietLineSame(db: Db, call: Call)
    requires QuietLine(db, call).Some?
    ensures QuietLine(db, call).value.proc == call.proc && QuietLine(db, call).value.alive == call.alive
  {
  }

  lemma AcquireStep(s: State, c: CallId)
    requires Inv(s) && Alive(s, c) && !Blocked(s, c) && s.calls[c].pc.Acquire?
    ensures Inv(With(s, c, AcquireLine(s.calls[c], s.calls[c].pc.i)))
  {
    var call := s.calls[c];
    var call' := AcquireLine(call, call.pc.i);
    AcquireKeeps(s.db, s.tables, call);
    forall d | d in s.calls && d != c
      ensures Exclusive(call', s.calls[d])
    {
      NotWaiting(s, c, d);
      AcquireExclusive(call, s.calls[d]);
    }
    LocalKeeps(s, c, call');
  }

  lemma LockRowStep(s: State, c: CallId)
    requires Inv(s) && Alive(s, c) && !Blocked(s, c) && s.calls[c].pc.LockRow?
    ensures Inv(With(s, c, LockRowLine(s.db, s.calls[c], s.calls[c].pc.i)))
  {
    var call := s.calls[c];
    var call' := LockRowLine(s.db, call, call.pc.i);
    LockRowKeeps(s.db, s.tables, call);
    forall d | d in s.calls && d != c
      ensures Exclusive(call', s.calls[d])
    {
      NotWaiting(s, c, d);
      LockRowExclusive(s.db, call, s.calls[d]);
    }
    LocalKeeps(s, c, call');
  }

  lemma AppendStep(s: State, c: CallId)
    requires Inv(s) && Alive(s, c) && !Blocked(s, c) && s.calls[c].pc.Append?
    ensures Inv(With(s, c, AppendLine(s.db, s.calls[c], s.calls[c].pc.i)))
  {
    var call := s.calls[c];
    var call' := AppendLine(s.db, call, call.pc.i);
    AppendProgress(s.db, s.tables, call);
    forall d | d in s.calls && d != c
      ensures Exclusive(call', s.calls[d])
    {
      NotWaiting(s, c, d);
      AppendExclusive(s.db, call, s.calls[d]);
    }
    LocalKeeps(s, c, call');
  }

  lemma CompareStep(s: State, c: CallId)
    requires Inv(s) && Alive(s, c) && !Blocked(s, c) && s.calls[c].pc.Compare?
    ensures Inv(With(s, c, CompareLine(s.db, s.calls[c], s.calls[c].pc.i)))
  {
    var call := s.calls[c];
    var call' := CompareLine(s.db, call, call.pc.i);
    CompareKeeps(s.db, s.tables, call);
    forall d | d in s.calls && d != c
      ensures Exclusive(call', s.calls[d])
    {
      NotWaiting(s, c, d);
      CompareExclusive(s.db, call, s.calls[d]);
    }
    LocalKeeps(s, c, call');
  }

  // ---- lockFor ------------------------------------------------------------

  lemma NewSlot(tables: Tables, next: MutexId, slot: (ProcId, WalletId))
    requires TablesInv(tables, next) && slot !in tables
    ensures TablesInv(tables[slot := next], next + 1) && TablesGrow(tables, tables[slot := next])
  {
  }

  lemma LinkedSnoc(tables: Tables, proc: ProcId, order: seq<WalletId>, mutexes: seq<MutexId>, m: MutexId)
    requires Linked(tables, proc, order, mutexes) && |mutexes| < |order|
    requires (proc, order[|mutexes|]) in tables && tables[(proc, order[|mutexes|])] == m
    ensures Linked(tables, proc, order, mutexes + [m])
  {
    forall i | 0 <= i < |mutexes + [m]|
      ensures LinkedAt(tables, proc, order, mutexes + [m], i)
    {
      assert i < |mutexes| ==> LinkedAt(tables, proc, order, mutexes, i);
    }
  }

  lemma GetMutexOwn(s: State, c: CallId)
    requires Inv(s) && Alive(s, c) && s.calls[c].pc.GetMutex?
    ensures var s' := GetMutexStep(s, c, s.calls[c].pc.i);
            && TablesInv(s'.tables, s'.nextMutex) && TablesGrow(s.tables, s'.tables)
            && MutexFits(s'.tables, s'.calls[c])
  {
    var call := s.calls[c];
    var slot := (call.proc, LockOrder(call.req)[call.pc.i]);
    if slot !in s.tables {
      NewSlot(s.tables, s.nextMutex, slot);
    }
    var s' := GetMutexStep(s, c, call.pc.i);
    MutexStable(s.tables, s'.tables, call);
    LinkedSnoc(s'.tables, call.proc, LockOrder(call.req), call.mutexes, s'.tables[slot]);
  }

  lemma GetMutexKeeps(s: State, c: CallId)
    requires Inv(s) && Alive(s, c) && s.calls[c].pc.GetMutex?
    ensures Inv(GetMutexStep(s, c, s.calls[c].pc.i))
  {
    var call := s.calls[c];
    var s' := GetMutexStep(s, c, call.pc.i);
    var call' := s'.calls[c];
    GetMutexOwn(s, c);
    forall d | d in s.calls && d != c
      ensures Exclusive(call', s.calls[d]) && Respects(s.db, s'.db, s.calls[d])
    {
      StillExclusive(call, call', s.calls[d]);
      RespectsItself(s.db, s.tables, s.calls[d]);
    }
    UpdateKeeps(s, s', c, call');
  }

  // ---- steps that change the database -------------------------------------

  lemma CommitKeeps(s: State, s': State, c: CallId, call': Call)
    requires Inv(s) && c in s.calls && s.calls[c].pc == Commit
    requires s' == With(s, c, call').(db := Publish(s.db, s.calls[c].tx))
    requires HoldsNoMore(s.calls[c], call') && call'.proc == s.calls[c].proc && (call'.alive ==> s.calls[c].alive)
    requires CallInv(s'.db, s.tables, call')
    ensures Inv(s')
    ensures Applies(s.db, Perform(s.calls[c].req)) && s'.db == Apply(s.db, Perform(s.calls[c].req))
  {
    CommitIsAtomic(s.db, s.calls[c]);
    ApplyKeeps(s.db, Perform(s.calls[c].req));
    forall d | d in s.calls && d != c
      ensures Exclusive(call', s.calls[d]) && Respects(s.db, s'.db, s.calls[d])
    {
      StillExclusive(s.calls[c], call', s.calls[d]);
      CommitRespects(s.db, s.tables, s.calls[c], s.calls[d]);
    }
    UpdateKeeps(s, s', c, call');
  }

  lemma SuspendRespects(db: Db, tables: Tables, req: Request, other: Call)
    requires req.Suspend? && CallInv(db, tables, other) && req.wallet !in other.tx.rows
    ensures Respects(db, StatusSet(db, req), other)
  {
  }

  lemma StatusDb(db: Db, req: Request)
    requires DbInv(db) && req.Suspend?
    ensures DbInv(StatusSet(db, req))
    ensures StatusSet(db, req) == if req.wallet in db.wallets then Apply(db, Perform(req)) else db
  {
    if req.wallet in db.wallets {
      ApplyKeeps(db, Perform(req));
    }
  }

  lemma StatusKeeps(s: State, s': State, c: CallId, call': Call)
    requires Inv(s) && c in s.calls && s.calls[c].pc == SetStatus && !Blocked(s, c)
    requires s' == With(s, c, call').(db := StatusSet(s.db, s.calls[c].req))
    requires HoldsNoMore(s.calls[c], call') && call'.proc == s.calls[c].proc && (call'.alive ==> s.calls[c].alive)
    requires CallInv(s'.db, s.tables, call')
    ensures Inv(s')
    ensures if s.calls[c].req.wallet in s.db.wallets
            then s'.db == Apply(s.db, Perform(s.calls[c].req)) else s'.db == s.db
  {
    var req := s.calls[c].req;
    assert CallInv(s.db, s.tables, s.calls[c]);
    StatusDb(s.db, req);
    forall d | d in s.calls && d != c
      ensures Exclusive(call', s.calls[d]) && Respects(s.db, s'.db, s.calls[d])
    {
      NotWaiting(s, c, d);
      StillExclusive(s.calls[c], call', s.calls[d]);
      SuspendRespects(s.db, s.tables, req, s.calls[d]);
    }
    UpdateKeeps(s, s', c, call');
  }

  lemma OpenRespects(db: Db, tables: Tables, id: WalletId, owner: OwnerId, c: Currency, other: Call)
    requires id !in db.wallets && CallInv(db, tables, other)
    ensures Respects(db, OpenWallet(db, id, owner, c), other)
  {
  }

  lemma OpenStep(s: State, s': State, c: CallId, id: WalletId, call': Call)
    requires Inv(s) && c in s.calls && s.calls[c].req.Create?
    requires OpenApplies(s.db, id, s.calls[c].req.owner, s.calls[c].req.currency)
    requires s' == With(s, c, call').(db := OpenWallet(s.db, id, s.calls[c].req.owner, s.calls[c].req.currency))
    requires HoldsNoMore(s.calls[c], call') && call'.proc == s.calls[c].proc && (call'.alive ==> s.calls[c].alive)
    requires CallInv(s'.db, s.tables, call')
    ensures Inv(s')
  {
    var req := s.calls[c].req;
    ApplyKeeps(s.db, Open(id, req.owner, req.currency));
    forall d | d in s.calls && d != c
      ensures Exclusive(call', s.calls[d]) && Respects(s.db, s'.db, s.calls[d])
    {
      StillExclusive(s.calls[c], call', s.calls[d]);
      OpenRespects(s.db, s.tables, id, req.owner, req.currency, s.calls[d]);
    }
    UpdateKeeps(s, s', c, call');
  }

  lemma FinishCreate(db: Db, db': Db, tables: Tables, call: Call, outcome: Outcome)
    requires CallInv(db, tables, call) && call.pc.InsertNew? && outcome != Running
    ensures CallInv(db', tables, Finish(call, outcome)) && HoldsNoMore(call, Finish(call, outcome))
  {
  }

  lemma InsertKeeps(s: State, s': State, c: CallId, id: WalletId, heard: bool)
    requires Inv(s) && c in s.calls && InsertStep(s, c, id, heard) == Some(s')
    ensures Inv(s')
  {
    var call, call' := s.calls[c], s'.calls[c];
    FinishCreate(s.db, s'.db, s.tables, call, call'.outcome);
    if OwnsCurrency(s.db.wallets, call.req.owner, call.req.currency) {
      QuietKeeps(s, c, call');
    } else {
      OpenStep(s, s', c, id, call');
    }
  }

  // ---- every step ---------------------------------------------------------

  /** A call that just committed, whether or not it hears about it. */
  lemma CommittedCall(db: Db, tables: Tables, call: Call, heard: bool)
    requires CallInv(db, tables, call) && call.pc == Commit
    ensures var call' := call.(pc := Unlock, outcome := if heard then Success else Failed(StorageError), tx := NO_TX);
            CallInv(Publish(db, call.tx), tables, call') && HoldsNoMore(call, call')
  {
    CommittedKey(db, call);
  }

  lemma SuspendedCall(db: Db, tables: Tables, call: Call)
    requires CallInv(db, tables, call) && call.pc == SetStatus
    ensures var call' := SetStatusLine(db, call);
            CallInv(StatusSet(db, call.req), tables, call') && HoldsNoMore(call, call')
    ensures var call' := call.(pc := Unlock, outcome := Failed(StorageError), tx := NO_TX);
            CallInv(StatusSet(db, call.req), tables, call') && HoldsNoMore(call, call')
  {
  }

  lemma GoneCall(db: Db, db': Db, tables: Tables, call: Call)
    requires CallInv(db, tables, call)
    ensures CallInv(db', tables, Gone(call)) && HoldsNoMore(call, Gone(call))
  {
  }

  /** What a step does to the database: one whole action, or nothing. */
  ghost predicate RefinedStep(s: State, ev: Event, s': State) {
    match EffectOf(s, ev)
    case None => s'.db == s.db
    case Some(a) => Applies(s.db, a) && s'.db == Apply(s.db, a)
  }

  lemma PlainKeeps(s: State, c: CallId, s': State)
    requires Inv(s) && Alive(s, c) && !Blocked(s, c) && DoStep(s, c) == Some(s')
    requires s.calls[c].pc !in {Commit, SetStatus}
    ensures Inv(s') && s'.db == s.db
  {
    match s.calls[c].pc {
      case GetMutex(_) => GetMutexKeeps(s, c);
      case Acquire(_) => AcquireStep(s, c);
      case LockRow(_) => LockRowStep(s, c);
      case Append(_) => AppendStep(s, c);
      case Compare(_) => CompareStep(s, c);
      case _ => QuietStep(s, c);
    }
  }

  lemma CommitDone(s: State, c: CallId, s': State)
    requires c in s.calls && s.calls[c].pc == Commit && DoStep(s, c) == Some(s')
    ensures s' == With(s, c, s.calls[c].(pc := Unlock, outcome := Success, tx := NO_TX))
                  .(db := Publish(s.db, s.calls[c].tx))
    ensures EffectOf(s, Do(c)) == Some(Perform(s.calls[c].req))
  {
  }

  lemma CommitStep(s: State, c: CallId, s': State)
    requires Inv(s) && c in s.calls && s.calls[c].pc == Commit
    requires s' == With(s, c, s.calls[c].(pc := Unlock, outcome := Success, tx := NO_TX))
                   .(db := Publish(s.db, s.calls[c].tx))
    ensures Inv(s') && Applies(s.db, Perform(s.calls[c].req)) && s'.db == Apply(s.db, Perform(s.calls[c].req))
  {
    assert CallInv(s.db, s.tables, s.calls[c]);
    CommittedCall(s.db, s.tables, s.calls[c], true);
    CommitKeeps(s, s', c, s.calls[c].(pc := Unlock, outcome := Success, tx := NO_TX));
  }

  lemma StatusDone(s: State, c: CallId, s': State)
    requires c in s.calls && s.calls[c].pc == SetStatus && s.calls[c].req.Suspend? && DoStep(s, c) == Some(s')
    ensures s' == With(s, c, SetStatusLine(s.db, s.calls[c])).(db := StatusSet(s.db, s.calls[c].req))
    ensures EffectOf(s, Do(c))
            == if s.calls[c].req.wallet in s.db.wallets then Some(Perform(s.calls[c].req)) else None
  {
  }

  lemma StatusStep(s: State, c: CallId, s': State)
    requires Inv(s) && Alive(s, c) && !Blocked(s, c) && s.calls[c].pc == SetStatus && s.calls[c].req.Suspend?
    requires s' == With(s, c, SetStatusLine(s.db, s.calls[c])).(db := StatusSet(s.db, s.calls[c].req))
    ensures Inv(s')
    ensures if s.calls[c].req.wallet in s.db.wallets
            then s'.db == Apply(s.db, Perform(s.calls[c].req)) else s'.db == s.db
  {
    assert CallInv(s.db, s.tables, s.calls[c]);
    SuspendedCall(s.db, s.tables, s.calls[c]);
    StatusKeeps(s, s', c, SetStatusLine(s.db, s.calls[c]));
  }

  lemma DoKeeps(s: State, c: CallId, s': State)
    requires Inv(s) && Alive(s, c) && !Blocked(s, c) && DoStep(s, c) == Some(s')
    ensures Inv(s') && RefinedStep(s, Do(c), s')
  {
    if s.calls[c].pc == Commit {
      CommitDone(s, c, s');
      CommitStep(s, c, s');
    } else if s.calls[c].pc == SetStatus {
      assert CallInv(s.db, s.tables, s.calls[c]);
      StatusDone(s, c, s');
      StatusStep(s, c, s');
    } else {
      PlainKeeps(s, c, s');
    }
  }

  lemma FinishKeeps(db: Db, tables: Tables, call: Call, outcome: Outcome)
    requires CallInv(db, tables, call) && (call.pc.CheckNew? || call.pc.InsertNew? || call.pc.Replay?)
    requires outcome == Failed(StorageError)
    ensures CallInv(db, tables, Finish(call, outcome)) && HoldsNoMore(call, Finish(call, outcome))
  {
  }

  lemma RefuseKeeps(db: Db, tables: Tables, call: Call)
    requires CallInv(db, tables, call) && call.pc in {ReadWallet, Begin, SetStatus}
    ensures CallInv(db, tables, Refuse(call, StorageError)) && HoldsNoMore(call, Refuse(call, StorageError))
  {
  }

  lemma MissedLookup(db: Db, tables: Tables, call: Call)
    requires CallInv(db, tables, call) && call.pc.Lookup?
    ensures CallInv(db, tables, call.(pc := GetMutex(0))) && HoldsNoMore(call, call.(pc := GetMutex(0)))
  {
  }

  lemma AbortHolds(call: Call, why: Failure)
    ensures HoldsNoMore(call, Abort(call, why))
  {
  }

  lemma FaultHolds(call: Call)
    requires FaultLine(call).Some?
    ensures HoldsNoMore(call, FaultLine(call).value)
    ensures FaultLine(call).value.proc == call.proc && FaultLine(call).value.alive == call.alive
  {
    AbortHolds(call, StorageError);
  }

  lemma FaultedCall(db: Db, tables: Tables, call: Call)
    requires CallInv(db, tables, call) && FaultLine(call).Some?
    ensures CallInv(db, tables, FaultLine(call).value)
  {
    match call.pc
    case Lookup => MissedLookup(db, tables, call);
    case Replay(_) | CheckNew | InsertNew => FinishKeeps(db, tables, call, Failed(StorageError));
    case ReadWallet | Begin | SetStatus => RefuseKeeps(db, tables, call);
    case _ => AbortKeeps(db, tables, call, StorageError);
  }

  /** A statement that takes effect without its caller learning of it. */
  lemma UnheardKeeps(s: State, c: CallId, call': Call, s': State)
    requires Inv(s) && c in s.calls && !Blocked(s, c) && s.calls[c].pc in {Commit, SetStatus}
    requires s' == With(s, c, call').(db := Landed(s, s.calls[c]))
    requires (call' == Gone(s.calls[c]) && !call'.alive)
             || call' == s.calls[c].(pc := Unlock, outcome := Failed(StorageError), tx := NO_TX)
    ensures Inv(s')
    ensures match CallEffect(s, c)
            case None => s'.db == s.db
            case Some(a) => Applies(s.db, a) && s'.db == Apply(s.db, a)
  {
    var call := s.calls[c];
    GoneCall(s.db, s'.db, s.tables, call);
    if call.pc == Commit {
      CommittedCall(s.db, s.tables, call, false);
      CommitKeeps(s, s', c, call');
    } else {
      SuspendedCall(s.db, s.tables, call);
      StatusKeeps(s, s', c, call');
    }
  }

  lemma StartedCall(db: Db, tables: Tables, proc: ProcId, req: Request)
    ensures CallInv(db, tables, StartCall(proc, req))
    ensures StartCall(proc, req).tx == NO_TX && StartCall(proc, req).held == 0
  {
  }

  lemma StartKeeps(s: State, c: CallId, proc: ProcId, req: Request)
    requires Inv(s) && c !in s.calls && proc !in s.crashed
    ensures Inv(With(s, c, StartCall(proc, req)))
  {
    StartedCall(s.db, s.tables, proc, req);
    LocalKeeps(s, c, StartCall(proc, req));
  }

  lemma CrashKeeps(s: State, p: ProcId)
    requires Inv(s)
    ensures Inv(CrashStep(s, p))
  {
    CrashedCalls(s, p);
    CrashedExclusive(s, p);
  }

  lemma CrashedCalls(s: State, p: ProcId)
    requires forall c | c in s.calls :: CallInv(s.db, s.tables, s.calls[c])
    requires forall c | c in s.calls && s.calls[c].alive :: s.calls[c].proc !in s.crashed
    ensures var s' := CrashStep(s, p);
            && (forall c | c in s'.calls :: CallInv(s'.db, s'.tables, s'.calls[c]))
            && (forall c | c in s'.calls && s'.calls[c].alive :: s'.calls[c].proc !in s'.crashed)
  {
    var s' := CrashStep(s, p);
    forall c | c in s'.calls
      ensures CallInv(s'.db, s'.tables, s'.calls[c])
    {
      CrashedCall(s.db, s.tables, s.calls[c], p);
    }
  }

  lemma CrashedExclusive(s: State, p: ProcId)
    requires forall c, c' | c in s.calls && c' in s.calls && c != c' :: Exclusive(s.calls[c], s.calls[c'])
    ensures var s' := CrashStep(s, p);
            forall c, c' | c in s'.calls && c' in s'.calls && c != c' :: Exclusive(s'.calls[c], s'.calls[c'])
  {
    var s' := CrashStep(s, p);
    forall c, c' | c in s'.calls && c' in s'.calls && c != c'
      ensures Exclusive(s'.calls[c], s'.calls[c'])
    {
      CrashExclusive(s.calls[c], s.calls[c'], p);
    }
  }

  lemma CrashExclusive(a: Call, b: Call, p: ProcId)
    requires Exclusive(a, b)
    ensures Exclusive(CrashCall(a, p), CrashCall(b, p))
  {
    StillExclusive(a, CrashCall(a, p), b);
    StillExclusive(b, CrashCall(b, p), CrashCall(a, p));
  }

  lemma CrashedCall(db: Db, tables: Tables, call: Call, p: ProcId)
    requires CallInv(db, tables, call)
    ensures CallInv(db, tables, CrashCall(call, p))
  {
  }

  lemma CutOffKeeps(db: Db, tables: Tables, call: Call)
    requires CallInv(db, tables, call) && OnTheWire(call.pc)
    ensures CallInv(db, tables, CutOff(call)) && HoldsNoMore(call, CutOff(call))
  {
  }

  lemma FaultStep(s: State, c: CallId)
    requires Inv(s) && Alive(s, c) && FaultLine(s.calls[c]).Some?
    ensures Inv(With(s, c, FaultLine(s.calls[c]).value))
  {
    FaultedCall(s.db, s.tables, s.calls[c]);
    FaultHolds(s.calls[c]);
    QuietKeeps(s, c, FaultLine(s.calls[c]).value);
  }

  lemma DisconnectStep(s: State, c: CallId)
    requires Inv(s) && c in s.calls && OnTheWire(s.calls[c].pc)
    ensures Inv(With(s, c, CutOff(s.calls[c])))
  {
    CutOffKeeps(s.db, s.tables, s.calls[c]);
    QuietKeeps(s, c, CutOff(s.calls[c]));
  }

  lemma ReapStep(s: State, c: CallId)
    requires Inv(s) && c in s.calls
    ensures Inv(With(s, c, Gone(s.calls[c])))
  {
    GoneCall(s.db, s.db, s.tables, s.calls[c]);
    QuietKeeps(s, c, Gone(s.calls[c]));
  }

  /** Steps nobody is told of. */
  lemma SilentRefines(s: State, ev: Event, s': State)
    requires Inv(s) && Step(s, ev) == Some(s') && (ev.LostReply? || ev.Land?)
    ensures Inv(s') && RefinedStep(s, ev, s')
  {
    match ev
    case LostReply(c) =>
      UnheardKeeps(s, c, s.calls[c].(pc := Unlock, outcome := Failed(StorageError), tx := NO_TX), s');
    case Land(c) => UnheardKeeps(s, c, Gone(s.calls[c]), s');
  }

  /** Steps that change nothing in the database. */
  lemma FailureRefines(s: State, ev: Event, s': State)
    requires Inv(s) && Step(s, ev) == Some(s')
    requires ev.Fault? || ev.Disconnect? || ev.Crash? || ev.Reap?
    ensures Inv(s') && RefinedStep(s, ev, s')
  {
    match ev
    case Fault(c) => FaultStep(s, c);
    case Disconnect(c) => DisconnectStep(s, c);
    case Crash(p) => CrashKeeps(s, p);
    case Reap(c) => ReapStep(s, c);
  }

  /** The main theorem about one step: the invariant is kept, and the database
      changes by exactly one whole action or not at all. */
  lemma StepRefines(s: State, ev: Event, s': State)
    requires Inv(s) && Step(s, ev) == Some(s')
    ensures Inv(s') && RefinedStep(s, ev, s')
  {
    match ev
    case Start(c, proc, req) => StartKeeps(s, c, proc, req);
    case Do(c) => DoKeeps(s, c, s');
    case Insert(c, id, heard) => InsertKeeps(s, s', c, id, heard);
    case LostReply(_) => SilentRefines(s, ev, s');
    case Land(_) => SilentRefines(s, ev, s');
    case _ => FailureRefines(s, ev, s');
  }
}
