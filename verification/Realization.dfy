/** The converse of the refinement: whatever the atomic machine can do, some run
    of the concurrent machine does. Calls are driven line by line here, each in
    a process of its own. */
module Realization {
  import opened Int64
  import opened Money
  import opened Ledger
  import opened Protocol
  import opened Invariant
  import opened Refinement
  import opened Guarantees
  import opened Completion

  // ---- runs by their end points -------------------------------------------

  ghost predicate Leads(s: State, t: State) {
    exists evs :: Run(s, evs) == Some(t)
  }

  lemma LeadsNowhere(s: State)
    ensures Leads(s, s)
  {
    assert Run(s, []) == Some(s);
  }

  lemma LeadsOn(s: State, t: State, ev: Event, t': State)
    requires Leads(s, t) && Step(t, ev) == Some(t')
    ensures Leads(s, t')
  {
    var evs :| Run(s, evs) == Some(t);
    RunSnoc(s, evs, t, ev, t');
    assert Run(s, evs + [ev]) == Some(t');
  }

  lemma LeadsKeeps(s: State, t: State)
    requires Inv(s) && Leads(s, t)
    ensures Inv(t)
  {
    var evs :| Run(s, evs) == Some(t);
    RunRefines(s, evs);
  }

  // ---- single lines -------------------------------------------------------

  lemma QuietDo(s: State, t: State, c: CallId, call: Call, call': Call)
    requires Leads(s, With(t, c, call)) && call.alive && QuietLine(t.db, call) == Some(call')
    ensures Leads(s, With(t, c, call'))
  {
    var t1 := With(t, c, call);
    assert !Blocked(t1, c);
    assert With(t1, c, call') == With(t, c, call');
    LeadsOn(s, t1, Do(c), With(t, c, call'));
  }

  predicate Unhindered(t: State, c: CallId, call: Call) {
    forall d | d in t.calls && d != c :: !WaitsFor(call, t.calls[d])
  }

  /** A line that takes a mutex, a row or a key nobody else has. */
  lemma TakingDo(s: State, t: State, c: CallId, call: Call, call': Call)
    requires Leads(s, With(t, c, call)) && call.alive && Unhindered(t, c, call)
    requires DoStep(With(t, c, call), c) == Some(With(With(t, c, call), c, call'))
    ensures Leads(s, With(t, c, call'))
  {
    var t1 := With(t, c, call);
    forall d | d in t1.calls && d != c
      ensures !WaitsFor(t1.calls[c], t1.calls[d])
    {
      assert !WaitsFor(call, t.calls[d]);
    }
    assert With(t1, c, call') == With(t, c, call');
    LeadsOn(s, t1, Do(c), With(t, c, call'));
  }

  /** The tables after a first lockFor of w in process p. */
  function WithMutex(t: State, p: ProcId, w: WalletId): State {
    t.(tables := t.tables[(p, w) := t.nextMutex], nextMutex := t.nextMutex + 1)
  }

  lemma MutexDo(s: State, t: State, c: CallId, call: Call, i: nat, w: WalletId)
    requires Leads(s, With(t, c, call)) && call.alive && call.pc == GetMutex(i)
    requires i < |LockOrder(call.req)| && LockOrder(call.req)[i] == w && (call.proc, w) !in t.tables
    ensures Leads(s, With(WithMutex(t, call.proc, w), c,
                          call.(mutexes := call.mutexes + [t.nextMutex],
                                pc := if i + 1 < |LockOrder(call.req)| then GetMutex(i + 1) else Acquire(0))))
  {
    var t1 := With(t, c, call);
    assert !Blocked(t1, c);
    var next := call.(mutexes := call.mutexes + [t.nextMutex],
                      pc := if i + 1 < |LockOrder(call.req)| then GetMutex(i + 1) else Acquire(0));
    assert t1.calls[c := next] == t.calls[c := next];
    LeadsOn(s, t1, Do(c), With(WithMutex(t, call.proc, w), c, next));
  }

  /** No call holds a mutex that has not been created yet. */
  ghost predicate MutexesOld(s: State) {
    forall d, m: MutexId | d in s.calls && HoldsMutex(s.calls[d], m) :: m < s.nextMutex
  }

  lemma NewMutexFree(s: State)
    requires Inv(s)
    ensures MutexesOld(s)
  {
    forall d, m: MutexId | d in s.calls && HoldsMutex(s.calls[d], m)
      ensures m < s.nextMutex
    {
      var call := s.calls[d];
      assert CallInv(s.db, s.tables, call);
      var i :| 0 <= i < |call.mutexes| && i < call.held && call.mutexes[i] == m;
      assert LinkedAt(s.tables, call.proc, LockOrder(call.req), call.mutexes, i);
    }
  }

  lemma NewMutexUnhindered(s: State, t: State, c: CallId, call: Call)
    requires MutexesOld(s) && t.calls == s.calls && call.pc.Acquire?
    requires WantedMutex(call).Some? && WantedMutex(call).value >= s.nextMutex
    ensures Unhindered(t, c, call)
  {
  }

  // ---- a newcomer ---------------------------------------------------------

  /** Neither the call nor its process has been seen before. */
  predicate Newcomer(s: State, c: CallId, p: ProcId) {
    c !in s.calls && p !in s.crashed && forall slot | slot in s.tables :: slot.0 != p
  }

  lemma FindNewcomer(s: State) returns (c: CallId, p: ProcId)
    ensures Newcomer(s, c, p)
  {
    c := FreshId(s.calls.Keys);
    var procs := s.crashed + set slot | slot in s.tables :: slot.0;
    p := FreshId(procs);
    assert forall slot | slot in s.tables :: slot.0 in procs;
  }

  /** No other call holds a row or a key. */
  predicate Idle(s: State, c: CallId) {
    forall d | d in s.calls && d != c :: s.calls[d].tx == NO_TX
  }

  // ---- topups and payments ------------------------------------------------

  /** The call at uow.Begin, after its checks. */
  function DeltaReady(t: State, p: ProcId, w: WalletId, amount: string, direction: Direction, key: Key,
                      plan: Plan): Call
    requires w in t.db.wallets
  {
    Call(p, Delta(w, amount, direction, key), Begin, true, [t.nextMutex], 1, [t.db.wallets[w]], plan, NO_TX, Running)
  }

  /** The call, past its key lookup, is about to look up its mutexes. */
  function PastLookup(p: ProcId, req: Request): Call {
    Call(p, req, GetMutex(0), true, [], 0, [], NO_PLAN, NO_TX, Running)
  }

  ghost predicate AtGate(s: State, c: CallId, p: ProcId, req: Request) {
    Leads(s, With(s, c, PastLookup(p, req)))
  }

  /** A lookup that finds nothing lets the call pass. */
  lemma Gate(s: State, c: CallId, p: ProcId, req: Request)
    requires Newcomer(s, c, p) && MovesMoney(req) && (req.Transfer? ==> req.from != req.to)
    requires !HasKey(s.db.ledger, req.key)
    ensures AtGate(s, c, p, req)
  {
    var start := StartCall(p, req);
    LeadsNowhere(s);
    LeadsOn(s, s, Start(c, p, req), With(s, c, start));
    if req.key != "" {
      QuietDo(s, s, c, start, PastLookup(p, req));
    }
  }

  lemma DeltaToLock(s: State, c: CallId, p: ProcId, req: Request)
    requires Newcomer(s, c, p) && req.Delta? && AtGate(s, c, p, req)
    ensures Leads(s, With(WithMutex(s, p, req.wallet), c,
                          Call(p, req, Acquire(0), true, [s.nextMutex], 0, [], NO_PLAN, NO_TX, Running)))
  {
    MutexDo(s, s, c, PastLookup(p, req), 0, req.wallet);
    assert [] + [s.nextMutex] == [s.nextMutex];
  }

  /** The call with its mutex taken, about to read its wallet. */
  function DeltaReading(s: State, p: ProcId, req: Request): Call {
    Call(p, req, ReadWallet, true, [s.nextMutex], 1, [], NO_PLAN, NO_TX, Running)
  }

  lemma DeltaToRead(s: State, c: CallId, p: ProcId, req: Request)
    requires MutexesOld(s) && Newcomer(s, c, p) && req.Delta? && AtGate(s, c, p, req)
    ensures Leads(s, With(WithMutex(s, p, req.wallet), c, DeltaReading(s, p, req)))
  {
    DeltaToLock(s, c, p, req);
    var t := WithMutex(s, p, req.wallet);
    var call := Call(p, req, Acquire(0), true, [s.nextMutex], 0, [], NO_PLAN, NO_TX, Running);
    NewMutexUnhindered(s, t, c, call);
    TakingDo(s, t, c, call, DeltaReading(s, p, req));
  }

  /** Its checks passed. */
  lemma DeltaPlanned(s: State, c: CallId, p: ProcId, w: WalletId, amount: string, direction: Direction, key: Key,
                     plan: Plan)
    requires MutexesOld(s) && Newcomer(s, c, p) && AtGate(s, c, p, Delta(w, amount, direction, key))
    requires w in s.db.wallets && s.db.wallets[w].status == Active
    requires DeltaPlan(w, s.db.wallets[w].currency, s.db.wallets[w].balance, amount, direction, key) == Ok(plan)
    ensures Leads(s, With(WithMutex(s, p, w), c, DeltaReady(s, p, w, amount, direction, key, plan)))
  {
    var req := Delta(w, amount, direction, key);
    DeltaToRead(s, c, p, req);
    QuietDo(s, WithMutex(s, p, w), c, DeltaReading(s, p, req), DeltaReady(s, p, w, amount, direction, key, plan));
  }

  /** From the start to uow.Begin: the wallet is read here, before any transaction. */
  lemma DeltaToBegin(s: State, c: CallId, p: ProcId, w: WalletId, amount: string, direction: Direction, key: Key,
                     plan: Plan)
    requires MutexesOld(s) && Newcomer(s, c, p) && !HasKey(s.db.ledger, key)
    requires w in s.db.wallets && s.db.wallets[w].status == Active
    requires DeltaPlan(w, s.db.wallets[w].currency, s.db.wallets[w].balance, amount, direction, key) == Ok(plan)
    ensures Leads(s, With(WithMutex(s, p, w), c, DeltaReady(s, p, w, amount, direction, key, plan)))
  {
    Gate(s, c, p, Delta(w, amount, direction, key));
    DeltaPlanned(s, c, p, w, amount, direction, key, plan);
  }

  /** Its key inserted, its row not yet locked. */
  function DeltaInserted(call: Call): Call
    requires |call.plan.entries| == 1
  {
    call.(pc := Compare(0), tx := NO_TX.(pending := call.plan.entries))
  }

  lemma DeltaToCompare(s: State, t: State, c: CallId, call: Call)
    requires Leads(s, With(t, c, call)) && call.alive && call.pc == Begin && call.req.Delta? && call.tx == NO_TX
    requires |call.plan.entries| == 1 && KeyFree(t.db.ledger, call.plan.entries[0].key)
    requires forall d | d in t.calls && d != c :: !HasKey(t.calls[d].tx.pending, call.plan.entries[0].key)
    ensures Leads(s, With(t, c, DeltaInserted(call)))
  {
    var begun := call.(pc := Append(0));
    QuietDo(s, t, c, call, begun);
    assert [] + [call.plan.entries[0]] == call.plan.entries;
    TakingDo(s, t, c, begun, DeltaInserted(call));
  }

  /** The call after its commit. */
  function Committed(call: Call): Call {
    call.(pc := Done, held := 0, tx := NO_TX, outcome := Success)
  }

  lemma CommitDo(s: State, t: State, c: CallId, call: Call)
    requires Leads(s, With(t, c, call)) && call.alive && call.pc == Commit
    ensures Leads(s, With(t, c, call.(pc := Unlock, outcome := Success, tx := NO_TX)).(db := Publish(t.db, call.tx)))
  {
    var t1 := With(t, c, call);
    assert !Blocked(t1, c);
    var next := call.(pc := Unlock, outcome := Success, tx := NO_TX);
    assert With(t1, c, next) == With(t, c, next);
    LeadsOn(s, t1, Do(c), With(t, c, next).(db := Publish(t.db, call.tx)));
  }

  lemma DeltaToCommit(s: State, t: State, c: CallId, call: Call)
    requires Leads(s, With(t, c, call)) && call.alive && call.pc == Compare(0) && call.req.Delta?
    requires |call.plan.updates| == 1 && call.tx.writes == map[]
    requires var u := call.plan.updates[0];
             && u.wallet in t.db.wallets && t.db.wallets[u.wallet].balance == u.expected
             && forall d | d in t.calls && d != c :: u.wallet !in t.calls[d].tx.rows
    ensures var u := call.plan.updates[0];
            Leads(s, With(t, c, call.(pc := Commit,
                                      tx := Tx(call.tx.rows + {u.wallet}, call.tx.pending, map[u.wallet := u.next]))))
  {
    var u := call.plan.updates[0];
    var locked := call.(pc := Write(0), tx := call.tx.(rows := call.tx.rows + {u.wallet}));
    TakingDo(s, t, c, call, locked);
    assert map[][u.wallet := u.next] == map[u.wallet := u.next];
    QuietDo(s, t, c, locked, call.(pc := Commit,
                                   tx := Tx(call.tx.rows + {u.wallet}, call.tx.pending, map[u.wallet := u.next])));
  }

  /** The deferred unlocks. */
  lemma UnlockToDone(s: State, t: State, c: CallId, call: Call)
    requires Leads(s, With(t, c, call)) && call.alive && call.pc == Unlock && call.held <= 2
    ensures Leads(s, With(t, c, call.(held := 0, pc := Done)))
  {
    if call.held == 2 {
      QuietDo(s, t, c, call, call.(held := 1));
      QuietDo(s, t, c, call.(held := 1), call.(held := 0, pc := Done));
    } else {
      QuietDo(s, t, c, call, call.(held := 0, pc := Done));
    }
  }

  /** Commit and the deferred unlocks. */
  lemma CommitToDone(s: State, t: State, c: CallId, call: Call)
    requires Leads(s, With(t, c, call)) && call.alive && call.pc == Commit && call.held <= 2
    ensures Leads(s, With(t.(db := Publish(t.db, call.tx)), c, Committed(call)))
  {
    CommitDo(s, t, c, call);
    var t' := t.(db := Publish(t.db, call.tx));
    var next := call.(pc := Unlock, outcome := Success, tx := NO_TX);
    assert With(t', c, next) == With(t, c, next).(db := Publish(t.db, call.tx));
    UnlockToDone(s, t', c, next);
  }

  /** t is s after one more call ran to its end, in a process of its own. */
  predicate RanAlone(s: State, t: State, c: CallId) {
    && t.calls.Keys == s.calls.Keys + {c}
    && (forall d | d in s.calls :: t.calls[d] == s.calls[d])
    && t.calls[c].tx == NO_TX && t.calls[c].outcome == Success && t.calls[c].pc == Done
  }

  lemma DeltaToLast(s: State, c: CallId, p: ProcId, w: WalletId, amount: string, direction: Direction, key: Key,
                    plan: Plan)
    requires MutexesOld(s) && Newcomer(s, c, p) && Idle(s, c)
    requires w in s.db.wallets && s.db.wallets[w].status == Active && KeyFree(s.db.ledger, key)
    requires DeltaPlan(w, s.db.wallets[w].currency, s.db.wallets[w].balance, amount, direction, key) == Ok(plan)
    ensures |plan.updates| == 1
    ensures Leads(s, With(WithMutex(s, p, w), c,
                          DeltaReady(s, p, w, amount, direction, key, plan)
                          .(pc := Commit, tx := Tx({w}, plan.entries, map[w := plan.updates[0].next]))))
  {
    DeltaToBegin(s, c, p, w, amount, direction, key, plan);
    var t0, call := WithMutex(s, p, w), DeltaReady(s, p, w, amount, direction, key, plan);
    DeltaToCompare(s, t0, c, call);
    DeltaToCommit(s, t0, c, DeltaInserted(call));
    assert {} + {w} == {w};
  }

  /** The plan of a topup or payment that applies. */
  lemma DeltaPlanApplies(d: Db, w: WalletId, amount: string, direction: Direction, key: Key) returns (plan: Plan)
    requires Applies(d, Perform(Delta(w, amount, direction, key)))
    ensures DeltaPlan(w, d.wallets[w].currency, d.wallets[w].balance, amount, direction, key) == Ok(plan)
    ensures |plan.updates| == 1
            && Publish(d, Tx({w}, plan.entries, map[w := plan.updates[0].next]))
               == Apply(d, Perform(Delta(w, amount, direction, key)))
  {
    var row, cents := d.wallets[w], CentsFor(d, w, amount).value;
    plan := DeltaPlan(w, row.currency, row.balance, amount, direction, key).value;
    PublishDelta(d, Tx({w}, plan.entries, map[w := plan.updates[0].next]), w, direction, cents, key);
  }

  /** A topup or payment on an active wallet, run in a process of its own while
      nobody holds a row or a key, is committed whole. */
  lemma DeltaRealized(s: State, c: CallId, p: ProcId, w: WalletId, amount: string, direction: Direction, key: Key)
    returns (t: State)
    requires MutexesOld(s) && Newcomer(s, c, p) && Idle(s, c)
    requires Applies(s.db, Perform(Delta(w, amount, direction, key))) && s.db.wallets[w].status == Active
    ensures Leads(s, t) && RanAlone(s, t, c)
    ensures t.db == Apply(s.db, Perform(Delta(w, amount, direction, key)))
  {
    var plan := DeltaPlanApplies(s.db, w, amount, direction, key);
    DeltaToLast(s, c, p, w, amount, direction, key, plan);
    var tx := Tx({w}, plan.entries, map[w := plan.updates[0].next]);
    var last := DeltaReady(s, p, w, amount, direction, key, plan).(pc := Commit, tx := tx);
    CommitToDone(s, WithMutex(s, p, w), c, last);
    t := With(WithMutex(s, p, w).(db := Publish(s.db, tx)), c, Committed(last));
  }

  // ---- transfers ----------------------------------------------------------

  function TwoMutexes(s: State, p: ProcId, order: seq<WalletId>): State
    requires |order| == 2
  {
    WithMutex(WithMutex(s, p, order[0]), p, order[1])
  }

  /** A transfer with both its mutexes looked up, at the given line. */
  function TransferAt(s: State, p: ProcId, req: Request, pc: Pc, held: nat, read: seq<Wallet>, tx: Tx): Call {
    Call(p, req, pc, true, [s.nextMutex, s.nextMutex + 1], held, read, NO_PLAN, tx, Running)
  }

  lemma TransferToLocks(s: State, c: CallId, p: ProcId, req: Request)
    requires Newcomer(s, c, p) && req.Transfer? && req.from != req.to && AtGate(s, c, p, req)
    ensures Leads(s, With(TwoMutexes(s, p, LockOrder(req)), c, TransferAt(s, p, req, Acquire(0), 0, [], NO_TX)))
  {
    var call := PastLookup(p, req);
    var order := LockOrder(req);
    MutexDo(s, s, c, call, 0, order[0]);
    var next := call.(mutexes := [] + [s.nextMutex], pc := GetMutex(1));
    MutexDo(s, WithMutex(s, p, order[0]), c, next, 1, order[1]);
    assert [] + [s.nextMutex] + [s.nextMutex + 1] == [s.nextMutex, s.nextMutex + 1];
  }

  lemma TransferToBegin(s: State, c: CallId, p: ProcId, req: Request)
    requires MutexesOld(s) && Newcomer(s, c, p)
    requires req.Transfer? && req.from != req.to && AtGate(s, c, p, req)
    ensures Leads(s, With(TwoMutexes(s, p, LockOrder(req)), c, TransferAt(s, p, req, Begin, 2, [], NO_TX)))
  {
    TransferToLocks(s, c, p, req);
    var t := TwoMutexes(s, p, LockOrder(req));
    var first := TransferAt(s, p, req, Acquire(0), 0, [], NO_TX);
    var second := TransferAt(s, p, req, Acquire(1), 1, [], NO_TX);
    NewMutexUnhindered(s, t, c, first);
    TakingDo(s, t, c, first, second);
    NewMutexUnhindered(s, t, c, second);
    TakingDo(s, t, c, second, TransferAt(s, p, req, Begin, 2, [], NO_TX));
  }

  /** The transfer after its checks: both rows locked, nothing inserted yet. */
  function TransferReady(s: State, p: ProcId, req: Request, plan: Plan): Call
    requires req.Transfer? && req.from in s.db.wallets && req.to in s.db.wallets
  {
    var order := LockOrder(req);
    TransferAt(s, p, req, Append(0), 2, [s.db.wallets[order[0]], s.db.wallets[order[1]]],
               NO_TX.(rows := {req.from, req.to}))
    .(plan := plan)
  }

  /** Nobody else has the transfer's rows. */
  predicate RowsFree(s: State, c: CallId, req: Request)
    requires req.Transfer?
  {
    forall d | d in s.calls && d != c :: req.from !in s.calls[d].tx.rows && req.to !in s.calls[d].tx.rows
  }

  lemma RowsUnhindered(t: State, c: CallId, call: Call)
    requires call.req.Transfer? && RowsFree(t, c, call.req) && call.pc.LockRow? && call.pc.i < 2
    ensures Unhindered(t, c, call)
  {
  }

  lemma TransferLocksRows(s: State, t: State, c: CallId, call: Call)
    requires Leads(s, With(t, c, call)) && call.alive && call.pc == LockRow(0) && call.tx == NO_TX && call.read == []
    requires call.req.Transfer? && call.req.from != call.req.to && RowsFree(t, c, call.req)
    requires call.req.from in t.db.wallets && call.req.to in t.db.wallets
    ensures var order := LockOrder(call.req);
            Leads(s, With(t, c, call.(pc := Validate, read := [t.db.wallets[order[0]], t.db.wallets[order[1]]],
                                      tx := NO_TX.(rows := {call.req.from, call.req.to}))))
  {
    var order := LockOrder(call.req);
    var row0, row1 := t.db.wallets[order[0]], t.db.wallets[order[1]];
    var l1 := call.(pc := LockRow(1), read := [row0], tx := NO_TX.(rows := {order[0]}));
    assert [] + [row0] == [row0] && {} + {order[0]} == {order[0]};
    RowsUnhindered(t, c, call);
    TakingDo(s, t, c, call, l1);
    assert [row0] + [row1] == [row0, row1] && {order[0]} + {order[1]} == {call.req.from, call.req.to};
    RowsUnhindered(t, c, l1);
    TakingDo(s, t, c, l1, call.(pc := Validate, read := [row0, row1],
                                tx := NO_TX.(rows := {call.req.from, call.req.to})));
  }

  lemma TransferToRows(s: State, c: CallId, p: ProcId, req: Request)
    requires MutexesOld(s) && Newcomer(s, c, p)
    requires req.Transfer? && req.from != req.to && AtGate(s, c, p, req)
    requires req.from in s.db.wallets && req.to in s.db.wallets && RowsFree(s, c, req)
    ensures Leads(s, With(TwoMutexes(s, p, LockOrder(req)), c, TransferReady(s, p, req, NO_PLAN).(pc := Validate)))
  {
    TransferToBegin(s, c, p, req);
    var t := TwoMutexes(s, p, LockOrder(req));
    var l0 := TransferAt(s, p, req, LockRow(0), 2, [], NO_TX);
    QuietDo(s, t, c, TransferAt(s, p, req, Begin, 2, [], NO_TX), l0);
    TransferLocksRows(s, t, c, l0);
  }

  lemma TransferToAppend(s: State, c: CallId, p: ProcId, req: Request, plan: Plan)
    requires MutexesOld(s) && Newcomer(s, c, p)
    requires req.Transfer? && req.from != req.to && AtGate(s, c, p, req)
    requires req.from in s.db.wallets && req.to in s.db.wallets && RowsFree(s, c, req)
    requires TransferPlan(req.from, req.to, s.db.wallets[req.from], s.db.wallets[req.to], req.amount, req.key)
             == Ok(plan)
    ensures Leads(s, With(TwoMutexes(s, p, LockOrder(req)), c, TransferReady(s, p, req, plan)))
  {
    TransferToRows(s, c, p, req);
    QuietDo(s, TwoMutexes(s, p, LockOrder(req)), c,
            TransferReady(s, p, req, NO_PLAN).(pc := Validate), TransferReady(s, p, req, plan));
  }

  /** Both inserts, while nobody holds a key. */
  lemma TransferToCompare(s: State, t: State, c: CallId, call: Call)
    requires Leads(s, With(t, c, call)) && call.alive && call.pc == Append(0) && Idle(t, c)
    requires |call.plan.entries| == 2 && call.tx.pending == []
    requires KeyFree(t.db.ledger, call.plan.entries[0].key) && KeyFree(t.db.ledger, call.plan.entries[1].key)
    requires call.plan.entries[0].key != call.plan.entries[1].key
    ensures Leads(s, With(t, c, call.(pc := Compare(0), tx := call.tx.(pending := call.plan.entries))))
  {
    var es := call.plan.entries;
    var half := call.(pc := Append(1), tx := call.tx.(pending := [es[0]]));
    assert [] + [es[0]] == [es[0]];
    TakingDo(s, t, c, call, half);
    assert [es[0]] + [es[1]] == es;
    assert !HasKey([es[0]], es[1].key);
    TakingDo(s, t, c, half, call.(pc := Compare(0), tx := call.tx.(pending := es)));
  }

  /** One UpdateBalance of a transfer, on a row it has locked. */
  lemma TransferUpdates(s: State, t: State, c: CallId, call: Call, i: nat)
    requires Leads(s, With(t, c, call)) && call.alive && call.pc == Compare(i) && Idle(t, c)
    requires |call.plan.updates| == 2 && i < 2
    requires var u := call.plan.updates[i];
             && u.wallet in t.db.wallets && u.wallet in call.tx.rows && u.wallet !in call.tx.writes
             && t.db.wallets[u.wallet].balance == u.expected
    ensures var u := call.plan.updates[i];
            Leads(s, With(t, c, call.(pc := if i == 0 then Compare(1) else Commit,
                                      tx := call.tx.(writes := call.tx.writes[u.wallet := u.next]))))
  {
    var u := call.plan.updates[i];
    assert call.tx.rows + {u.wallet} == call.tx.rows;
    TakingDo(s, t, c, call, call.(pc := Write(i)));
    QuietDo(s, t, c, call.(pc := Write(i)),
            call.(pc := if i == 0 then Compare(1) else Commit,
                  tx := call.tx.(writes := call.tx.writes[u.wallet := u.next])));
  }

  lemma TransferToLast(s: State, t: State, c: CallId, call: Call)
    requires Leads(s, With(t, c, call)) && call.alive && call.pc == Append(0) && Idle(t, c) && call.req.Transfer?
    requires call.tx == NO_TX.(rows := {call.req.from, call.req.to}) && call.req.from != call.req.to
    requires KeyFree(t.db.ledger, call.req.key) && KeyFree(t.db.ledger, call.req.key + CREDIT_SUFFIX)
    requires call.req.from in t.db.wallets && call.req.to in t.db.wallets
    requires TransferPlan(call.req.from, call.req.to, t.db.wallets[call.req.from], t.db.wallets[call.req.to],
                          call.req.amount, call.req.key) == Ok(call.plan)
    ensures |call.plan.updates| == 2
    ensures var us := call.plan.updates;
            Leads(s, With(t, c, call.(pc := Commit,
                                      tx := Tx({call.req.from, call.req.to}, call.plan.entries,
                                               map[us[0].wallet := us[0].next][us[1].wallet := us[1].next]))))
  {
    assert |call.req.key| < |call.req.key + CREDIT_SUFFIX|;
    var us := call.plan.updates;
    TransferToCompare(s, t, c, call);
    var c0 := call.(pc := Compare(0), tx := call.tx.(pending := call.plan.entries));
    TransferUpdates(s, t, c, c0, 0);
    assert map[][us[0].wallet := us[0].next] == map[us[0].wallet := us[0].next];
    var c1 := c0.(pc := Compare(1), tx := c0.tx.(writes := map[us[0].wallet := us[0].next]));
    TransferUpdates(s, t, c, c1, 1);
  }

  /** The transaction of a transfer with the given plan, all written. */
  function TransferTx(req: Request, plan: Plan): Tx
    requires req.Transfer? && |plan.updates| == 2
  {
    var us := plan.updates;
    Tx({req.from, req.to}, plan.entries, map[us[0].wallet := us[0].next][us[1].wallet := us[1].next])
  }

  lemma TransferToCommit(s: State, c: CallId, p: ProcId, req: Request, plan: Plan)
    requires MutexesOld(s) && Newcomer(s, c, p) && Idle(s, c) && req.Transfer? && req.from != req.to
    requires req.from in s.db.wallets && req.to in s.db.wallets
    requires KeyFree(s.db.ledger, req.key) && KeyFree(s.db.ledger, req.key + CREDIT_SUFFIX)
    requires TransferPlan(req.from, req.to, s.db.wallets[req.from], s.db.wallets[req.to], req.amount, req.key)
             == Ok(plan)
    ensures |plan.updates| == 2
    ensures Leads(s, With(TwoMutexes(s, p, LockOrder(req)), c,
                          TransferReady(s, p, req, plan).(pc := Commit, tx := TransferTx(req, plan))))
  {
    Gate(s, c, p, req);
    TransferToAppend(s, c, p, req, plan);
    TransferToLast(s, TwoMutexes(s, p, LockOrder(req)), c, TransferReady(s, p, req, plan));
  }

  /** The plan of a transfer that applies. */
  lemma PlanApplies(d: Db, req: Request) returns (cents: int, plan: Plan)
    requires req.Transfer? && Applies(d, Perform(req))
    ensures CentsFor(d, req.from, req.amount) == Some(cents)
    ensures Apply(d, Perform(req)) == AfterTransfer(d, req.from, req.to, cents, req.key)
    ensures TransferPlan(req.from, req.to, d.wallets[req.from], d.wallets[req.to], req.amount, req.key) == Ok(plan)
    ensures |plan.updates| == 2
            && Publish(d, TransferTx(req, plan)) == AfterTransfer(d, req.from, req.to, cents, req.key)
  {
    cents := CentsFor(d, req.from, req.amount).value;
    plan := TransferPlan(req.from, req.to, d.wallets[req.from], d.wallets[req.to], req.amount, req.key).value;
    PublishTransfer(d, TransferTx(req, plan), req.from, req.to, cents, req.key);
  }

  /** A transfer that applies, run in a process of its own while nobody holds a
      row or a key, is committed whole. */
  lemma TransferRealized(s: State, c: CallId, p: ProcId, req: Request) returns (t: State)
    requires MutexesOld(s) && Newcomer(s, c, p) && Idle(s, c)
    requires req.Transfer? && Applies(s.db, Perform(req))
    ensures Leads(s, t) && RanAlone(s, t, c) && t.db == Apply(s.db, Perform(req))
  {
    var cents, plan := PlanApplies(s.db, req);
    TransferToCommit(s, c, p, req, plan);
    var tx := TransferTx(req, plan);
    var t0, last := TwoMutexes(s, p, LockOrder(req)), TransferReady(s, p, req, plan).(pc := Commit, tx := tx);
    CommitToDone(s, t0, c, last);
    t := With(t0.(db := Publish(s.db, tx)), c, Committed(last));
  }

  // ---- suspensions and new wallets ----------------------------------------

  lemma SuspendToStatus(s: State, c: CallId, p: ProcId, w: WalletId)
    requires MutexesOld(s) && Newcomer(s, c, p)
    ensures Leads(s, With(WithMutex(s, p, w), c,
                          Call(p, Suspend(w), SetStatus, true, [s.nextMutex], 1, [], NO_PLAN, NO_TX, Running)))
  {
    var start := StartCall(p, Suspend(w));
    LeadsNowhere(s);
    LeadsOn(s, s, Start(c, p, Suspend(w)), With(s, c, start));
    MutexDo(s, s, c, start, 0, w);
    assert [] + [s.nextMutex] == [s.nextMutex];
    var call := start.(mutexes := [s.nextMutex], pc := Acquire(0));
    NewMutexUnhindered(s, WithMutex(s, p, w), c, call);
    TakingDo(s, WithMutex(s, p, w), c, call, call.(held := 1, pc := SetStatus));
  }

  lemma StatusDo(s: State, t: State, c: CallId, call: Call)
    requires Leads(s, With(t, c, call)) && call.alive && call.pc == SetStatus && call.held == 1 && call.req.Suspend?
    requires call.req.wallet in t.db.wallets
    requires forall d | d in t.calls && d != c :: call.req.wallet !in t.calls[d].tx.rows
    ensures Leads(s, With(t.(db := SetSuspended(t.db, call.req.wallet)), c,
                          call.(held := 0, pc := Done, outcome := Success)))
  {
    var t1 := With(t, c, call);
    forall d | d in t1.calls && d != c
      ensures !WaitsFor(call, t1.calls[d])
    {
      assert t1.calls[d] == t.calls[d];
    }
    var unlocking := call.(pc := Unlock, outcome := Success);
    var t2 := t.(db := SetSuspended(t.db, call.req.wallet));
    assert With(t1, c, unlocking).(db := t2.db) == With(t2, c, unlocking);
    LeadsOn(s, t1, Do(c), With(t2, c, unlocking));
    QuietDo(s, t2, c, unlocking, unlocking.(held := 0, pc := Done));
  }

  lemma SuspendRealized(s: State, c: CallId, p: ProcId, w: WalletId) returns (t: State)
    requires MutexesOld(s) && Newcomer(s, c, p) && w in s.db.wallets
    requires forall d | d in s.calls && d != c :: w !in s.calls[d].tx.rows
    ensures Leads(s, t) && RanAlone(s, t, c) && t.db == Apply(s.db, Perform(Suspend(w)))
  {
    SuspendToStatus(s, c, p, w);
    var call := Call(p, Suspend(w), SetStatus, true, [s.nextMutex], 1, [], NO_PLAN, NO_TX, Running);
    StatusDo(s, WithMutex(s, p, w), c, call);
    t := With(WithMutex(s, p, w).(db := SetSuspended(s.db, w)), c, call.(held := 0, pc := Done, outcome := Success));
  }

  lemma OpenRealized(s: State, c: CallId, p: ProcId, id: WalletId, owner: OwnerId, cur: Currency) returns (t: State)
    requires Newcomer(s, c, p) && Applies(s.db, Open(id, owner, cur))
    ensures Leads(s, t) && RanAlone(s, t, c) && t.db == Apply(s.db, Open(id, owner, cur))
  {
    var start := StartCall(p, Create(owner, cur));
    LeadsNowhere(s);
    LeadsOn(s, s, Start(c, p, Create(owner, cur)), With(s, c, start));
    var ready := start.(pc := InsertNew);
    QuietDo(s, s, c, start, ready);
    t := With(s.(db := OpenWallet(s.db, id, owner, cur)), c, Finish(ready, Success));
    assert With(With(s, c, ready), c, Finish(ready, Success)).(db := OpenWallet(s.db, id, owner, cur)) == t;
    LeadsOn(s, With(s, c, ready), Insert(c, id, true), t);
  }

  // ---- completeness -------------------------------------------------------

  /** Nobody has a transaction open. */
  predicate AllIdle(s: State) {
    forall d | d in s.calls :: s.calls[d].tx == NO_TX
  }

  /** The action is one a single process would also allow: no topup or payment
      on a suspended wallet. */
  predicate Orderly(d: Db, a: Action) {
    Applies(d, a) && (a.Perform? && a.req.Delta? ==> d.wallets[a.req.wallet].status == Active)
  }

  lemma ActionAlone(s: State, c: CallId, p: ProcId, a: Action) returns (t: State)
    requires MutexesOld(s) && Newcomer(s, c, p) && AllIdle(s) && Orderly(s.db, a)
    ensures Leads(s, t) && RanAlone(s, t, c) && t.db == Apply(s.db, a)
  {
    match a
    case Perform(Delta(w, amount, direction, key)) => t := DeltaRealized(s, c, p, w, amount, direction, key);
    case Perform(Transfer(from, to, amount, key)) => t := TransferRealized(s, c, p, Transfer(from, to, amount, key));
    case Perform(Suspend(w)) => t := SuspendRealized(s, c, p, w);
    case Open(id, owner, cur) => t := OpenRealized(s, c, p, id, owner, cur);
  }

  /** The calls of s are where they were; what has joined them is done. */
  predicate OnlyNewDone(s: State, t: State) {
    && s.calls.Keys <= t.calls.Keys
    && (forall d | d in s.calls :: t.calls[d] == s.calls[d])
    && forall d | d in t.calls && d !in s.calls :: t.calls[d].tx == NO_TX && t.calls[d].pc == Done
  }

  lemma StillIdle(s: State, t: State, c: CallId)
    requires AllIdle(s) && RanAlone(s, t, c)
    ensures AllIdle(t) && OnlyNewDone(s, t)
  {
  }

  /** Every action the atomic machine may take can be taken, while the other calls stand still. */
  lemma ActionRealized(s: State, a: Action) returns (t: State)
    requires Inv(s) && AllIdle(s) && Orderly(s.db, a)
    ensures Leads(s, t) && t.db == Apply(s.db, a) && AllIdle(t) && Inv(t)
    ensures OnlyNewDone(s, t)
  {
    var c, p := FindNewcomer(s);
    NewMutexFree(s);
    t := ActionAlone(s, c, p, a);
    StillIdle(s, t, c);
    LeadsKeeps(s, t);
  }

  /** Every action of the run is orderly where it stands. */
  predicate OrderlyRun(d: Db, actions: seq<Action>)
  {
    if actions == [] then true
    else
      var front := actions[..|actions| - 1];
      OrderlyRun(d, front) && AtomicRun(d, front).Some? && Orderly(AtomicRun(d, front).value, actions[|actions| - 1])
  }

  lemma LeadsTogether(s: State, t: State, u: State, evs: seq<Event>)
    requires Leads(s, t) && Run(t, evs) == Some(u)
    ensures Leads(s, u)
    decreases |evs|
  {
    if evs != [] {
      var front := evs[..|evs| - 1];
      LeadsTogether(s, t, Run(t, front).value, front);
      LeadsOn(s, Run(t, front).value, evs[|evs| - 1], u);
    }
  }

  /** Completeness: from any state with no open transaction, every run of the
      atomic machine that an ordered service would allow is what some run of
      the concurrent machine does to the database. */
  lemma {:induction false} AtomicRunRealized(s: State, actions: seq<Action>) returns (t: State)
    requires Inv(s) && AllIdle(s) && OrderlyRun(s.db, actions)
    ensures Leads(s, t) && AllIdle(t) && Inv(t)
    ensures AtomicRun(s.db, actions) == Some(t.db)
    decreases |actions|
  {
    if actions == [] {
      t := s;
      LeadsNowhere(s);
    } else {
      var t0 := AtomicRunRealized(s, actions[..|actions| - 1]);
      t := ActionRealized(t0, actions[|actions| - 1]);
      var evs :| Run(t0, evs) == Some(t);
      LeadsTogether(s, t0, t, evs);
    }
  }
}
