/** What the per-wallet mutexes of one process add: mutual exclusion. */
module SingleProcess {
  import opened Ledger
  import opened Protocol
  import opened Invariant
  import opened Guarantees

  // ---- mutual exclusion ---------------------------------------------------

  /** The call has all its mutexes: it is between its last Lock and its first Unlock. */
  predicate InSection(call: Call) {
    |call.mutexes| == call.held == |LockOrder(call.req)|
  }

  /** Two calls of one process are never both inside their critical sections
      with a wallet in common; the mutex table gives distinct wallets distinct
      mutexes and one wallet always the same. */
  lemma MutualExclusion(s: State, c: CallId, d: CallId, w: WalletId)
    requires Inv(s) && c in s.calls && d in s.calls && c != d
    requires s.calls[c].proc == s.calls[d].proc && InSection(s.calls[c]) && InSection(s.calls[d])
    ensures w !in LockOrder(s.calls[c].req) || w !in LockOrder(s.calls[d].req)
  {
    assert Exclusive(s.calls[c], s.calls[d]);
    if w in LockOrder(s.calls[c].req) && w in LockOrder(s.calls[d].req) {
      HoldsItsMutex(s, c, w);
      HoldsItsMutex(s, d, w);
    }
  }

  lemma HoldsItsMutex(s: State, c: CallId, w: WalletId)
    requires Inv(s) && c in s.calls && InSection(s.calls[c]) && w in LockOrder(s.calls[c].req)
    ensures (s.calls[c].proc, w) in s.tables && HoldsMutex(s.calls[c], s.tables[(s.calls[c].proc, w)])
  {
    var call := s.calls[c];
    assert CallInv(s.db, s.tables, call);
    var i :| 0 <= i < |LockOrder(call.req)| && LockOrder(call.req)[i] == w;
    assert LinkedAt(s.tables, call.proc, LockOrder(call.req), call.mutexes, i);
  }

  /** From a call's first look at a wallet to the end of its commit or rollback. */
  predicate AtWork(call: Call) {
    call.alive && (call.pc == ReadWallet || InTransaction(call.pc) || call.pc == Undo || call.pc == SetStatus)
  }

  lemma ActsInSection(s: State, c: CallId)
    requires Inv(s) && c in s.calls && AtWork(s.calls[c])
    ensures InSection(s.calls[c])
  {
    assert CallInv(s.db, s.tables, s.calls[c]);
  }

  /** The wallets a request names. */
  predicate Involves(req: Request, w: WalletId) {
    match req
    case Delta(v, _, _, _) => w == v
    case Transfer(from, to, _, _) => w == from || w == to
    case Suspend(v) => w == v
    case Create(_, _) => false
  }

  /** A call takes the mutexes of exactly the wallets its request names, each
      once, lower ones first. */
  lemma LockOrderIs(req: Request)
    ensures forall w :: w in LockOrder(req) <==> Involves(req, w)
    ensures req.Transfer? && req.from != req.to ==> |LockOrder(req)| == 2 && LockOrder(req)[0] < LockOrder(req)[1]
    ensures req.Delta? || req.Suspend? ==> |LockOrder(req)| == 1
  {
  }

  /** An unlock frees exactly the mutex taken last of those still held. */
  lemma UnlockFreesLast(s: State, c: CallId, m: MutexId)
    requires Inv(s) && Alive(s, c) && s.calls[c].pc == Unlock && s.calls[c].held > 0
    ensures s.calls[c].held <= |s.calls[c].mutexes|
    ensures var s' := Step(s, Do(c));
            && s'.Some? && c in s'.value.calls
            && (HoldsMutex(s'.value.calls[c], m)
                <==> HoldsMutex(s.calls[c], m) && m != s.calls[c].mutexes[s.calls[c].held - 1])
  {
    var call := s.calls[c];
    assert CallInv(s.db, s.tables, call);
    assert !Blocked(s, c);
    UnlockLast(s.tables, s.nextMutex, call, m);
  }

  lemma UnlockLast(tables: Tables, next: MutexId, call: Call, m: MutexId)
    requires PcFits(call) && MutexFits(tables, call) && TablesInv(tables, next) && call.pc == Unlock && call.held > 0
    ensures call.held <= |call.mutexes|
    ensures HoldsMutex(UnlockLine(call), m) <==> HoldsMutex(call, m) && m != call.mutexes[call.held - 1]
  {
    var order, last := LockOrder(call.req), call.held - 1;
    forall i | 0 <= i < last
      ensures call.mutexes[i] != call.mutexes[last]
    {
      assert LinkedAt(tables, call.proc, order, call.mutexes, i);
      assert LinkedAt(tables, call.proc, order, call.mutexes, last);
    }
    if HoldsMutex(call, m) && m != call.mutexes[last] {
      var i :| 0 <= i < |call.mutexes| && i < call.held && call.mutexes[i] == m;
      assert i < UnlockLine(call).held;
    }
  }

  /** A call whose connection breaks frees all its mutexes at once and leaves its
      transaction to the server. */
  lemma DisconnectFrees(s: State, c: CallId, m: MutexId)
    requires Alive(s, c) && Step(s, Disconnect(c)).Some?
    ensures var s' := Step(s, Disconnect(c)).value;
            && s'.db == s.db && c in s'.calls && !HoldsMutex(s'.calls[c], m)
            && !s'.calls[c].alive && s'.calls[c].tx == s.calls[c].tx && s'.calls[c].pc == s.calls[c].pc
  {
  }

  /** Two calls of one process are never at work on the same wallet. */
  lemma OneAtWork(s: State, c: CallId, d: CallId, w: WalletId)
    requires Inv(s) && c in s.calls && d in s.calls && c != d && s.calls[c].proc == s.calls[d].proc
    requires AtWork(s.calls[c]) && AtWork(s.calls[d])
    ensures w !in LockOrder(s.calls[c].req) || w !in LockOrder(s.calls[d].req)
  {
    ActsInSection(s, c);
    ActsInSection(s, d);
    MutualExclusion(s, c, d, w);
  }

  /** The same in every run, whatever its crashes, faults and broken connections. */
  lemma {:induction false} OneAtWorkInEveryRun(evs: seq<Event>, c: CallId, d: CallId, w: WalletId)
    requires Run(INIT, evs).Some? && c != d
    requires var t := Run(INIT, evs).value;
             && c in t.calls && d in t.calls && t.calls[c].proc == t.calls[d].proc
             && AtWork(t.calls[c]) && AtWork(t.calls[d])
    ensures var t := Run(INIT, evs).value;
            !Involves(t.calls[c].req, w) || !Involves(t.calls[d].req, w)
  {
    InitHolds();
    RunRefines(INIT, evs);
    OneAtWork(Run(INIT, evs).value, c, d, w);
    LockOrderIs(Run(INIT, evs).value.calls[c].req);
    LockOrderIs(Run(INIT, evs).value.calls[d].req);
  }

  // ---- one process at a time ----------------------------------------------

  /** The call is running, or waiting, in a process that has not crashed. */
  predicate Live(call: Call) {
    call.alive && call.pc != Done
  }

  /** All live calls belong to p. What crashed processes have left behind does not count. */
  predicate OneLive(s: State, p: ProcId) {
    forall c | c in s.calls && Live(s.calls[c]) :: s.calls[c].proc == p
  }

  ghost predicate SingleInstance(s: State) {
    exists p :: OneLive(s, p)
  }

  /** At every point of the run at most one process is live: a single instance,
      restarted after a crash as often as it takes. */
  ghost predicate OneAtATime(s: State, evs: seq<Event>)
    requires Run(s, evs).Some?
  {
    && SingleInstance(Run(s, evs).value)
    && (evs != [] ==> OneAtATime(s, evs[..|evs| - 1]))
  }
}
