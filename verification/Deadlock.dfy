/** Who can wait for whom, and why somebody can always move. A connection is
    assumed to be available whenever a call needs one. */
module Deadlock {
  import opened Int64
  import opened Ledger
  import opened Protocol
  import opened Invariant
  import opened Evolution
  import opened Preservation
  import opened Guarantees
  import opened SingleProcess

  predicate Unfinished(s: State, c: CallId) {
    c in s.calls && s.calls[c].pc != Done
  }

  /** The call can move: its next line does not wait, or its process is dead and
      the server rolls its transaction back. */
  predicate Free(s: State, c: CallId) {
    Unfinished(s, c) && (s.calls[c].alive ==> !Blocked(s, c))
  }

  // ---- the order of waiting -----------------------------------------------

  /** First mutexes in wallet order, then rows in wallet order, then keys by length. */
  function Rank(call: Call): (int, int) {
    if WantedKey(call).Some? then (2, |WantedKey(call).value|)
    else if WantedRow(call).Some? then (1, WantedRow(call).value)
    else if call.pc.Acquire? && call.pc.i < |LockOrder(call.req)| then (0, LockOrder(call.req)[call.pc.i])
    else (3, 0)
  }

  predicate Below(a: (int, int), b: (int, int)) {
    a.0 < b.0 || (a.0 == b.0 && a.1 < b.1)
  }

  /** A topup or payment waits for its row while its key is already inserted. */
  predicate DeltaWaitsForRow(s: State, c: CallId) {
    && c in s.calls && s.calls[c].req.Delta? && s.calls[c].pc.Compare?
    && exists d | d in s.calls :: d != c && s.calls[c].req.wallet in s.calls[d].tx.rows
  }

  lemma HolderUnfinished(db: Db, tables: Tables, call: Call, other: Call)
    requires CallInv(db, tables, other) && WaitsFor(call, other)
    ensures other.pc != Done
  {
  }

  /** A transfer about to compare already has both rows, so it waits for no one. */
  lemma TransferComparesFreely(db: Db, tables: Tables, call: Call, other: Call)
    requires CallInv(db, tables, call) && call.pc.Compare? && call.req.Transfer? && Exclusive(call, other)
    ensures !WaitsFor(call, other)
  {
    PlanShape(db, call);
  }

  /** Lines that wait, other than a comparison. */
  predicate WaitingLine(pc: Pc) {
    pc.Acquire? || pc.LockRow? || pc == SetStatus || pc.Append?
  }

  /** What a blocked call is waiting at, unless it is a topup or payment waiting for its row. */
  lemma BlockedAt(s: State, c: CallId)
    requires Inv(s) && c in s.calls && Blocked(s, c) && !DeltaWaitsForRow(s, c)
    ensures WaitingLine(s.calls[c].pc)
  {
    var call := s.calls[c];
    assert CallInv(s.db, s.tables, call);
    if call.pc.Compare? {
      if call.req.Transfer? {
        forall d | d in s.calls && d != c
          ensures !WaitsFor(call, s.calls[d])
        {
          TransferComparesFreely(s.db, s.tables, call, s.calls[d]);
        }
      } else {
        PlanShape(s.db, call);
      }
    }
  }

  lemma KeyHolder(db: Db, tables: Tables, call: Call, other: Call)
    requires CallInv(db, tables, call) && CallInv(db, tables, other)
    requires WantedKey(call).Some? && HasKey(other.tx.pending, WantedKey(call).value)
    requires WaitingLine(other.pc)
    ensures other.req.Transfer? && other.pc == Append(1)
    ensures WantedKey(other) == Some(WantedKey(call).value + CREDIT_SUFFIX)
  {
    PlanShape(db, other);
    var i :| 0 <= i < |other.tx.pending| && other.tx.pending[i].key == WantedKey(call).value;
  }

  lemma RowHolder(db: Db, tables: Tables, call: Call, other: Call)
    requires CallInv(db, tables, call) && CallInv(db, tables, other)
    requires WantedRow(call).Some? && WantedRow(call).value in other.tx.rows
    requires WaitingLine(other.pc)
    ensures other.pc.Append?
            || (other.pc == LockRow(1) && WantedRow(other).Some? && WantedRow(call).value < WantedRow(other).value)
  {
    if other.pc.LockRow? {
      assert other.pc.i == 1;
      assert WantedRow(call).value == LockOrder(other.req)[0];
    }
  }

  lemma MutexHolder(s: State, c: CallId, d: CallId)
    requires Inv(s) && c in s.calls && d in s.calls
    requires WantedMutex(s.calls[c]).Some? && HoldsMutex(s.calls[d], WantedMutex(s.calls[c]).value)
    requires s.calls[d].pc.Acquire?
    ensures s.calls[d].pc.i == 1 && |LockOrder(s.calls[d].req)| == 2 && s.calls[c].pc.i < |LockOrder(s.calls[c].req)|
    ensures LockOrder(s.calls[c].req)[s.calls[c].pc.i] < LockOrder(s.calls[d].req)[1]
  {
    var call, other := s.calls[c], s.calls[d];
    assert CallInv(s.db, s.tables, call) && CallInv(s.db, s.tables, other);
    var j :| 0 <= j < |other.mutexes| && j < other.held && other.mutexes[j] == WantedMutex(call).value;
    assert LinkedAt(s.tables, call.proc, LockOrder(call.req), call.mutexes, call.pc.i);
    assert LinkedAt(s.tables, other.proc, LockOrder(other.req), other.mutexes, j);
    assert j == 0;
  }

  lemma KeyWaitGoesUp(db: Db, tables: Tables, call: Call, other: Call)
    requires CallInv(db, tables, call) && CallInv(db, tables, other)
    requires WantedKey(call).Some? && HasKey(other.tx.pending, WantedKey(call).value)
    requires WaitingLine(other.pc)
    ensures Below(Rank(call), Rank(other))
  {
    KeyHolder(db, tables, call, other);
  }

  lemma RowWaitGoesUp(db: Db, tables: Tables, call: Call, other: Call)
    requires CallInv(db, tables, call) && CallInv(db, tables, other)
    requires WantedRow(call).Some? && WantedRow(call).value in other.tx.rows
    requires WaitingLine(other.pc)
    ensures Below(Rank(call), Rank(other))
  {
    RowHolder(db, tables, call, other);
    if other.pc.Append? {
      PlanShape(db, other);
    }
  }

  lemma MutexWaitGoesUp(s: State, c: CallId, d: CallId)
    requires Inv(s) && c in s.calls && d in s.calls
    requires WantedMutex(s.calls[c]).Some? && HoldsMutex(s.calls[d], WantedMutex(s.calls[c]).value)
    requires WaitingLine(s.calls[d].pc)
    ensures Below(Rank(s.calls[c]), Rank(s.calls[d]))
  {
    assert CallInv(s.db, s.tables, s.calls[c]) && CallInv(s.db, s.tables, s.calls[d]);
    if s.calls[d].pc.Acquire? {
      MutexHolder(s, c, d);
    } else if s.calls[d].pc.Append? {
      PlanShape(s.db, s.calls[d]);
    }
  }

  /** Waiting always points upward in rank. */
  lemma WaitGoesUp(s: State, c: CallId, d: CallId)
    requires Inv(s) && c in s.calls && d in s.calls && WaitsFor(s.calls[c], s.calls[d])
    requires Blocked(s, d) && !DeltaWaitsForRow(s, d)
    ensures Below(Rank(s.calls[c]), Rank(s.calls[d]))
  {
    BlockedAt(s, d);
    assert CallInv(s.db, s.tables, s.calls[c]) && CallInv(s.db, s.tables, s.calls[d]);
    if WantedKey(s.calls[c]).Some? {
      KeyWaitGoesUp(s.db, s.tables, s.calls[c], s.calls[d]);
    } else if WantedRow(s.calls[c]).Some? {
      RowWaitGoesUp(s.db, s.tables, s.calls[c], s.calls[d]);
    } else {
      MutexWaitGoesUp(s, c, d);
    }
  }

  // ---- somebody can always move -------------------------------------------

  function Above(s: State, c: CallId): set<CallId>
    requires c in s.calls
  {
    set d | d in s.calls && Below(Rank(s.calls[c]), Rank(s.calls[d]))
  }

  lemma AboveShrinks(s: State, c: CallId, d: CallId)
    requires c in s.calls && d in s.calls && Below(Rank(s.calls[c]), Rank(s.calls[d]))
    ensures Above(s, d) < Above(s, c)
  {
    assert d in Above(s, c) && d !in Above(s, d);
  }

  /** c waits for something d has. */
  predicate InWayOf(s: State, d: CallId, c: CallId) {
    c in s.calls && d in s.calls && d != c && WaitsFor(s.calls[c], s.calls[d])
  }

  lemma InWayBlocks(s: State, d: CallId, c: CallId)
    requires InWayOf(s, d, c)
    ensures c in s.calls && Blocked(s, c)
  {
  }

  /** Some other call is in the way of a blocked one, and is itself in flight. */
  lemma InTheWay(s: State, c: CallId) returns (d: CallId)
    requires Inv(s) && c in s.calls && Blocked(s, c)
    ensures Unfinished(s, d) && InWayOf(s, d, c)
  {
    d :| d in s.calls && d != c && WaitsFor(s.calls[c], s.calls[d]);
    assert CallInv(s.db, s.tables, s.calls[d]);
    HolderUnfinished(s.db, s.tables, s.calls[c], s.calls[d]);
  }

  /** Fewer calls are above the one in the way. */
  lemma Climb(s: State, d: CallId, c: CallId)
    requires Inv(s) && InWayOf(s, d, c) && Blocked(s, d) && !DeltaWaitsForRow(s, d)
    ensures Above(s, d) < Above(s, c)
  {
    WaitGoesUp(s, c, d);
    AboveShrinks(s, c, d);
  }

  /** Each call of the path waits for the next. */
  predicate WaitPath(s: State, path: seq<CallId>) {
    path != [] && forall i | 0 < i < |path| :: InWayOf(s, path[i], path[i - 1])
  }

  /** The end of the waits: a call that can move, or a topup or payment that
      waits for its row with its key inserted. */
  predicate EndsWaits(s: State, f: CallId) {
    Unfinished(s, f) && (Free(s, f) || DeltaWaitsForRow(s, f))
  }

  /** Following the waits from any call in flight leads to such an end. */
  lemma FollowWaits(s: State, c: CallId) returns (path: seq<CallId>)
    requires Inv(s) && Unfinished(s, c)
    ensures WaitPath(s, path) && path[0] == c && EndsWaits(s, path[|path| - 1])
    decreases Above(s, c)
  {
    if EndsWaits(s, c) {
      path := [c];
    } else {
      var d := InTheWay(s, c);
      if EndsWaits(s, d) {
        path := [c, d];
      } else {
        Climb(s, d, c);
        path := FollowWaits(s, d);
        path := [c] + path;
      }
    }
  }

  /** No unfinished call is a topup or payment. */
  predicate NoDeltasInFlight(s: State) {
    forall d | d in s.calls && Unfinished(s, d) :: !s.calls[d].req.Delta?
  }

  lemma FreeWithoutDeltas(s: State, c: CallId) returns (f: CallId)
    requires Inv(s) && Unfinished(s, c) && NoDeltasInFlight(s)
    ensures Free(s, f)
  {
    var path := FollowWaits(s, c);
    f := path[|path| - 1];
  }

  // ---- calls that wait for each other -------------------------------------

  predicate WaitsWithin(s: State, jam: set<CallId>, c: CallId) {
    exists d | d in jam :: InWayOf(s, d, c)
  }

  /** Every one of these calls waits for another of them: whatever the rest of
      the system does, none of them can move before one of them gives up. */
  predicate Jammed(s: State, jam: set<CallId>) {
    && jam != {} && jam <= s.calls.Keys
    && forall c {:trigger WaitsWithin(s, jam, c)} | c in jam :: WaitsWithin(s, jam, c)
  }

  /** f is a topup or payment that has inserted its key and waits for its row,
      which d has locked. */
  predicate HoldsRowOf(s: State, d: CallId, f: CallId) {
    && f in s.calls && d in s.calls && d != f && s.calls[f].req.Delta? && s.calls[f].pc.Compare?
    && s.calls[f].req.wallet in s.calls[d].tx.rows
  }

  /** What a topup or payment at its comparison waits for is its row. */
  lemma ComparingWaitsForRow(s: State, d: CallId, f: CallId)
    requires Inv(s) && InWayOf(s, d, f) && s.calls[f].req.Delta? && s.calls[f].pc.Compare?
    ensures HoldsRowOf(s, d, f)
  {
    assert CallInv(s.db, s.tables, s.calls[f]);
    PlanShape(s.db, s.calls[f]);
  }

  lemma NextInJam(s: State, jam: set<CallId>, c: CallId) returns (d: CallId)
    requires Jammed(s, jam) && c in jam
    ensures d in jam && InWayOf(s, d, c)
  {
    assert WaitsWithin(s, jam, c);
    d :| d in jam && InWayOf(s, d, c);
  }

  /** Climbing the waits inside a jam ends at such a topup or payment. */
  lemma JamNeedsDelta(s: State, jam: set<CallId>, c: CallId) returns (f: CallId, d: CallId)
    requires Inv(s) && Jammed(s, jam) && c in jam
    ensures f in jam && d in jam && HoldsRowOf(s, d, f)
    decreases Above(s, c)
  {
    d := NextInJam(s, jam, c);
    if s.calls[c].req.Delta? && s.calls[c].pc.Compare? {
      f := c;
      ComparingWaitsForRow(s, d, f);
    } else {
      var e := NextInJam(s, jam, d);
      InWayBlocks(s, e, d);
      if DeltaWaitsForRow(s, d) {
        f, d := d, e;
        ComparingWaitsForRow(s, d, f);
      } else {
        Climb(s, d, c);
        f, d := JamNeedsDelta(s, jam, d);
      }
    }
  }

  /** Whoever has the row a topup or payment waits for is a live call of another
      process, or belongs to a dead one and the server takes it back. */
  lemma RowHolderOutside(s: State, c: CallId, d: CallId)
    requires Inv(s) && Alive(s, c) && HoldsRowOf(s, d, c)
    ensures if s.calls[d].alive then s.calls[d].proc != s.calls[c].proc && Live(s.calls[d]) else Free(s, d)
  {
    assert CallInv(s.db, s.tables, s.calls[d]);
    if s.calls[d].alive && s.calls[d].proc == s.calls[c].proc {
      OneAtWork(s, c, d, s.calls[c].req.wallet);
    }
  }

  lemma JamOutside(s: State, jam: set<CallId>) returns (f: CallId, d: CallId)
    requires Inv(s) && Jammed(s, jam)
    ensures f in jam && d in jam && HoldsRowOf(s, d, f)
    ensures Alive(s, f) && Alive(s, d) ==> s.calls[d].proc != s.calls[f].proc
  {
    var c :| c in jam;
    f, d := JamNeedsDelta(s, jam, c);
    if Alive(s, f) {
      RowHolderOutside(s, f, d);
    }
  }

  lemma FreeInOneProcess(s: State, p: ProcId, c: CallId) returns (f: CallId)
    requires Inv(s) && OneLive(s, p) && Unfinished(s, c)
    ensures Free(s, f)
  {
    var path := FollowWaits(s, c);
    f := path[|path| - 1];
    if !Free(s, f) {
      var d :| d in s.calls && d != f && s.calls[f].req.wallet in s.calls[d].tx.rows;
      RowHolderOutside(s, f, d);
      f := d;
    }
  }

  // ---- in every run -------------------------------------------------------

  /** With any number of processes, and whatever else is running: calls that wait
      for each other include a topup or payment that has inserted its key and
      waits for its row, which another of them has locked; and if both are
      alive, they are of different processes. */
  lemma {:induction false} JamInEveryRun(evs: seq<Event>, jam: set<CallId>) returns (f: CallId, d: CallId)
    requires Run(INIT, evs).Some? && Jammed(Run(INIT, evs).value, jam)
    ensures var t := Run(INIT, evs).value;
            && f in jam && d in jam && HoldsRowOf(t, d, f)
            && (Alive(t, f) && Alive(t, d) ==> t.calls[d].proc != t.calls[f].proc)
  {
    InitHolds();
    RunRefines(INIT, evs);
    f, d := JamOutside(Run(INIT, evs).value, jam);
  }

  function InFlight(s: State): set<CallId> {
    set c | c in s.calls && Unfinished(s, c)
  }

  lemma StuckWaits(s: State, c: CallId)
    requires Inv(s) && Unfinished(s, c) && !Free(s, c)
    ensures Alive(s, c) && WaitsWithin(s, InFlight(s), c)
  {
    var d := InTheWay(s, c);
    assert d in InFlight(s);
  }

  lemma StuckIsJammed(s: State, c: CallId)
    requires Inv(s) && Unfinished(s, c) && forall e :: !Free(s, e)
    ensures Jammed(s, InFlight(s)) && forall e | e in InFlight(s) :: Alive(s, e)
  {
    assert c in InFlight(s);
    forall e | e in InFlight(s)
      ensures Alive(s, e) && WaitsWithin(s, InFlight(s), e)
    {
      StuckWaits(s, e);
    }
  }

  /** In particular where nobody at all can move. */
  lemma {:induction false} DeadlockNeedsDelta(evs: seq<Event>, c: CallId) returns (f: CallId, d: CallId)
    requires Run(INIT, evs).Some? && Unfinished(Run(INIT, evs).value, c)
    requires forall e :: !Free(Run(INIT, evs).value, e)
    ensures var t := Run(INIT, evs).value;
            && HoldsRowOf(t, d, f) && Alive(t, f) && Alive(t, d)
            && t.calls[d].proc != t.calls[f].proc
  {
    InitHolds();
    RunRefines(INIT, evs);
    StuckIsJammed(Run(INIT, evs).value, c);
    f, d := JamInEveryRun(evs, InFlight(Run(INIT, evs).value));
  }

  /** So transfers, suspensions and wallet creations never wait in a cycle, in
      any number of processes, beside any other calls. */
  lemma {:induction false} NoJamWithoutDeltas(evs: seq<Event>, jam: set<CallId>)
    requires Run(INIT, evs).Some?
    requires forall c | c in jam && c in Run(INIT, evs).value.calls :: !Run(INIT, evs).value.calls[c].req.Delta?
    ensures !Jammed(Run(INIT, evs).value, jam)
  {
    if Jammed(Run(INIT, evs).value, jam) {
      var f, d := JamInEveryRun(evs, jam);
    }
  }

  /** Nor do live calls of one process, whatever they are and whatever other
      processes do: mutexes, row locks and uncommitted keys together never
      close a cycle among them. */
  lemma {:induction false} NoJamInOneProcess(evs: seq<Event>, jam: set<CallId>, p: ProcId)
    requires Run(INIT, evs).Some?
    requires forall c | c in jam && c in Run(INIT, evs).value.calls ::
               Run(INIT, evs).value.calls[c].alive && Run(INIT, evs).value.calls[c].proc == p
    ensures !Jammed(Run(INIT, evs).value, jam)
  {
    if Jammed(Run(INIT, evs).value, jam) {
      var f, d := JamInEveryRun(evs, jam);
    }
  }

  /** Deadlock freedom for any number of processes while all calls in flight are
      transfers, suspensions and wallet creations, whatever came before. */
  lemma {:induction false} NoDeadlockWithoutDeltas(evs: seq<Event>, c: CallId) returns (f: CallId)
    requires Run(INIT, evs).Some? && Unfinished(Run(INIT, evs).value, c)
    requires NoDeltasInFlight(Run(INIT, evs).value)
    ensures Free(Run(INIT, evs).value, f)
  {
    InitHolds();
    RunRefines(INIT, evs);
    f := FreeWithoutDeltas(Run(INIT, evs).value, c);
  }

  /** Deadlock freedom wherever the live calls are of one process, for every mix
      of calls and whatever earlier processes left open when they crashed. */
  lemma {:induction false} NoDeadlockInOneProcess(evs: seq<Event>, p: ProcId, c: CallId) returns (f: CallId)
    requires Run(INIT, evs).Some? && OneLive(Run(INIT, evs).value, p) && Unfinished(Run(INIT, evs).value, c)
    ensures Free(Run(INIT, evs).value, f)
  {
    InitHolds();
    RunRefines(INIT, evs);
    f := FreeInOneProcess(Run(INIT, evs).value, p, c);
  }

  /** A call that can move does have a step. */
  lemma FreeMeansStep(s: State, c: CallId, id: WalletId) returns (ev: Event)
    requires Inv(s) && Free(s, c) && id !in s.db.wallets
    ensures ActorOf(ev) == Some(c) && Step(s, ev).Some? && (ev.Do? || ev.Reap? || ev.Insert?)
  {
    var call := s.calls[c];
    assert CallInv(s.db, s.tables, call);
    if !call.alive {
      ev := Reap(c);
    } else if call.pc == InsertNew {
      ev := Insert(c, id, true);
    } else {
      ev := Do(c);
      LineExists(s, c);
    }
  }

  lemma LineExists(s: State, c: CallId)
    requires c in s.calls && CallInv(s.db, s.tables, s.calls[c]) && s.calls[c].pc !in {InsertNew, Done}
    ensures DoStep(s, c).Some?
  {
    if s.calls[c].pc.Append? || s.calls[c].pc.Compare? || s.calls[c].pc.Write? {
      PlanShape(s.db, s.calls[c]);
    }
  }
}
