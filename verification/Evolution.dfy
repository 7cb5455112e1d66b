/** How a single call can change in one step, whoever takes it. */
module Evolution {
  import opened Int64
  import opened Ledger
  import opened Protocol
  import opened Invariant

  /** Where a call stands once its request has taken effect. */
  predicate Settled(call: Call) {
    call.pc in {Unlock, Done} && call.outcome in {Success, Failed(StorageError)}
  }

  predicate WalletActive(db: Db, w: WalletId) {
    w in db.wallets && db.wallets[w].status == Active
  }

  /** Where a topup or payment has read its wallet for good. */
  predicate PastRead(pc: Pc) {
    (InTransaction(pc) && !pc.LockRow?) || pc in {Undo, Unlock, Done}
  }

  /** call becomes call'; `acts` says that this step made its request take effect. */
  predicate Follows(db: Db, call: Call, call': Call, acts: bool) {
    && call'.req == call.req && call'.proc == call.proc
    && (call'.alive ==> call.alive)
    && (Settled(call) ==> Settled(call'))
    && (acts ==> Settled(call'))
    && (call'.outcome == Success ==> call.outcome == Success || acts)
    && (call.req.Delta? && InTransaction(call'.pc) && !InTransaction(call.pc) ==> WalletActive(db, call.req.wallet))
    && (call.req.Delta? && PastRead(call.pc) ==>
          call'.plan == call.plan && call'.read == call.read)
    && (!call.alive ==> call'.pc in {call.pc, Done} && call'.outcome in {call.outcome, Failed(StorageError)})
    && (call.pc == Done ==> call'.pc == Done)
  }

  lemma QuietFollows(db: Db, call: Call)
    requires call.alive && QuietLine(db, call).Some?
    ensures Follows(db, call, QuietLine(db, call).value, false)
  {
  }

  lemma FaultFollows(db: Db, call: Call)
    requires call.alive && FaultLine(call).Some?
    ensures Follows(db, call, FaultLine(call).value, false)
  {
  }

  lemma AcquireFollows(db: Db, call: Call)
    requires call.alive && call.pc.Acquire?
    ensures Follows(db, call, AcquireLine(call, call.pc.i), false)
  {
  }

  lemma AppendFollows(db: Db, call: Call, i: nat)
    requires call.alive && call.pc == Append(i) && i < |call.plan.entries|
    ensures Follows(db, call, AppendLine(db, call, i), false)
  {
  }

  lemma CompareFollows(db: Db, call: Call, i: nat)
    requires call.alive && call.pc == Compare(i) && i < |call.plan.updates|
    ensures Follows(db, call, CompareLine(db, call, i), false)
  {
  }

  lemma LockRowFollows(db: Db, call: Call, i: nat)
    requires call.alive && call.pc == LockRow(i) && i < |LockOrder(call.req)|
    ensures Follows(db, call, LockRowLine(db, call, i), false)
  {
  }

  lemma GetMutexFollows(s: State, c: CallId, i: nat)
    requires Alive(s, c) && s.calls[c].pc == GetMutex(i) && i < |LockOrder(s.calls[c].req)|
    ensures Follows(s.db, s.calls[c], GetMutexStep(s, c, i).calls[c], false)
  {
  }

  /** A commit or status update, heard of or not. */
  lemma EffectFollows(s: State, c: CallId, call': Call)
    requires c in s.calls && s.calls[c].pc in {Commit, SetStatus}
    requires call'.req == s.calls[c].req && call'.proc == s.calls[c].proc && call'.alive == s.calls[c].alive
    requires call'.plan == s.calls[c].plan && call'.read == s.calls[c].read
    requires call'.pc == Done || (call'.pc == Unlock && call'.alive)
    requires call'.outcome in {Success, Failed(StorageError), Failed(WalletNotFound)}
    requires !call'.alive ==> call'.outcome == Failed(StorageError)
    requires call'.outcome == Success ==> CallEffect(s, c).Some?
    requires call'.outcome == Failed(WalletNotFound) ==> CallEffect(s, c).None?
    ensures Follows(s.db, s.calls[c], call', CallEffect(s, c).Some?)
  {
  }

  lemma DoFollows(s: State, c: CallId, s': State)
    requires Alive(s, c) && DoStep(s, c) == Some(s')
    ensures c in s'.calls && Follows(s.db, s.calls[c], s'.calls[c], CallEffect(s, c).Some?)
  {
    var call := s.calls[c];
    match call.pc {
      case Acquire(_) => AcquireFollows(s.db, call);
      case LockRow(i) => LockRowFollows(s.db, call, i);
      case Append(i) => AppendFollows(s.db, call, i);
      case Compare(i) => CompareFollows(s.db, call, i);
      case GetMutex(i) => GetMutexFollows(s, c, i);
      case Commit => EffectFollows(s, c, s'.calls[c]);
      case SetStatus => EffectFollows(s, c, s'.calls[c]);
      case _ => QuietFollows(s.db, call);
    }
  }

  /** The call an event belongs to. */
  function ActorOf(ev: Event): Option<CallId> {
    match ev
    case Start(c, _, _) => Some(c)
    case Do(c) => Some(c)
    case Fault(c) => Some(c)
    case LostReply(c) => Some(c)
    case Insert(c, _, _) => Some(c)
    case Disconnect(c) => Some(c)
    case Crash(_) => None
    case Reap(c) => Some(c)
    case Land(c) => Some(c)
  }

  lemma InsertFollows(s: State, c: CallId, id: WalletId, heard: bool, s': State)
    requires c in s.calls && InsertStep(s, c, id, heard) == Some(s')
    ensures c in s'.calls && Follows(s.db, s.calls[c], s'.calls[c], EffectOf(s, Insert(c, id, heard)).Some?)
  {
  }

  lemma ActorFollows(s: State, ev: Event, s': State, c: CallId)
    requires Step(s, ev) == Some(s') && ActorOf(ev) == Some(c) && c in s.calls
    ensures c in s'.calls && Follows(s.db, s.calls[c], s'.calls[c], EffectOf(s, ev).Some?)
  {
    match ev
    case Do(_) => DoFollows(s, c, s');
    case Fault(_) => FaultFollows(s.db, s.calls[c]);
    case Insert(_, id, heard) => InsertFollows(s, c, id, heard, s');
    case LostReply(_) => EffectFollows(s, c, s'.calls[c]);
    case Land(_) => EffectFollows(s, c, s'.calls[c]);
    case Disconnect(_) =>
    case Reap(_) =>
  }

  lemma OthersFollow(s: State, ev: Event, s': State, c: CallId)
    requires Step(s, ev) == Some(s') && ActorOf(ev) != Some(c)
    ensures c in s.calls <==> c in s'.calls
    ensures c in s.calls ==>
              s'.calls[c] == s.calls[c] || (ev.Crash? && s'.calls[c] == s.calls[c].(alive := false))
  {
  }

  /** Every call evolves step by step; only the acting call can take effect or
      first report success. */
  lemma StepFollows(s: State, ev: Event, s': State, c: CallId)
    requires Step(s, ev) == Some(s') && c in s.calls
    ensures c in s'.calls
    ensures Follows(s.db, s.calls[c], s'.calls[c], ActorOf(ev) == Some(c) && EffectOf(s, ev).Some?)
  {
    if ActorOf(ev) == Some(c) {
      ActorFollows(s, ev, s', c);
    } else {
      OthersFollow(s, ev, s', c);
    }
  }

  /** A call appears by starting. */
  lemma NewCall(s: State, ev: Event, s': State, c: CallId)
    requires Step(s, ev) == Some(s') && c !in s.calls && c in s'.calls
    ensures ev.Start? && ev.c == c && s'.calls[c] == StartCall(ev.proc, ev.req)
  {
    if ActorOf(ev) != Some(c) {
      OthersFollow(s, ev, s', c);
    }
  }

  lemma DoTables(s: State, c: CallId, s': State)
    requires Alive(s, c) && DoStep(s, c) == Some(s')
    ensures TablesGrow(s.tables, s'.tables)
  {
  }

  /** lockFor only ever adds to a process's table. */
  lemma StepTables(s: State, ev: Event, s': State)
    requires Step(s, ev) == Some(s')
    ensures TablesGrow(s.tables, s'.tables)
  {
    if ev.Do? {
      DoTables(s, ev.c, s');
    }
  }

  /** What takes effect is the acting call's own request. */
  lemma EffectIsRequest(s: State, ev: Event)
    requires EffectOf(s, ev).Some?
    requires forall c | c in s.calls :: PcFits(s.calls[c])
    requires ev.Insert? && ev.c in s.calls ==> s.calls[ev.c].pc == InsertNew
    ensures ActorOf(ev) == Some(ev.c) && ev.c in s.calls && !Settled(s.calls[ev.c])
    ensures EffectOfRequest(EffectOf(s, ev).value, s.calls[ev.c].req)
    ensures EffectOf(s, ev).value.Perform? ==> s.calls[ev.c].pc in {Commit, SetStatus}
    ensures s.calls[ev.c].pc == SetStatus ==> s.calls[ev.c].req.Suspend?
  {
  }

  /** The effect of a call is its own request. */
  predicate EffectOfRequest(a: Action, req: Request) {
    match a
    case Perform(r) => r == req && !req.Create?
    case Open(_, owner, c) => req == Create(owner, c)
  }
}
