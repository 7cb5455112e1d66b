/** Every reason for a refusal is given: a request that the database refuses,
    sent by itself, ends with exactly that business error. */
module Refusals {
  import opened Int64
  import opened Money
  import opened Ledger
  import opened Protocol
  import opened Meaning
  import opened Invariant
  import opened Answers
  import opened Realization

  /** t is s after one more call ran to its end by itself, failed and changed nothing. */
  predicate FailedAlone(s: State, t: State, c: CallId, req: Request, why: Failure) {
    && t.db == s.db && t.calls.Keys == s.calls.Keys + {c}
    && (forall d | d in s.calls :: t.calls[d] == s.calls[d])
    && t.calls[c].req == req && t.calls[c].pc == Done && t.calls[c].outcome == Failed(why)
    && t.calls[c].tx == NO_TX && t.calls[c].held == 0
  }

  lemma RefusedToDone(s: State, t: State, c: CallId, call: Call, why: Failure)
    requires Leads(s, With(t, c, Refuse(call, why))) && call.alive && call.held <= 2
    ensures Leads(s, With(t, c, call.(pc := Done, held := 0, outcome := Failed(why))))
  {
    UnlockToDone(s, t, c, Refuse(call, why));
  }

  /** Rollback, then the unlocks. */
  lemma AbortedToDone(s: State, t: State, c: CallId, call: Call, why: Failure)
    requires Leads(s, With(t, c, Abort(call, why))) && call.alive && call.held <= 2
    ensures Leads(s, With(t, c, call.(pc := Done, held := 0, tx := NO_TX, outcome := Failed(why))))
  {
    var undone := UndoLine(Abort(call, why));
    QuietDo(s, t, c, Abort(call, why), undone);
    UnlockToDone(s, t, c, undone);
  }

  // ---- topups and payments ------------------------------------------------

  lemma ReadRefuses(db: Db, call: Call, why: Failure)
    requires call.req.Delta? && call.req.wallet in db.wallets ==> InRange(db.wallets[call.req.wallet].balance)
    requires call.req.Delta? && DeltaReason(db, call.req.wallet, call.req.amount, call.req.direction, why)
    ensures ReadWalletLine(db, call) == Refuse(call, why)
  {
    DeltaReasons(db, call.req.wallet, call.req.amount, call.req.direction, call.req.key, why);
  }

  lemma DeltaRefused(s: State, c: CallId, p: ProcId, req: Request, why: Failure) returns (t: State)
    requires MutexesOld(s) && Newcomer(s, c, p) && req.Delta? && !HasKey(s.db.ledger, req.key)
    requires req.wallet in s.db.wallets ==> InRange(s.db.wallets[req.wallet].balance)
    requires DeltaReason(s.db, req.wallet, req.amount, req.direction, why)
    ensures Leads(s, t) && FailedAlone(s, t, c, req, why)
  {
    Gate(s, c, p, req);
    DeltaToRead(s, c, p, req);
    var u, call := WithMutex(s, p, req.wallet), DeltaReading(s, p, req);
    ReadRefuses(u.db, call, why);
    QuietDo(s, u, c, call, Refuse(call, why));
    RefusedToDone(s, u, c, call, why);
    t := With(u, c, call.(pc := Done, held := 0, outcome := Failed(why)));
  }

  // ---- transfers ----------------------------------------------------------

  lemma SameWalletRefused(s: State, c: CallId, p: ProcId, req: Request) returns (t: State)
    requires Newcomer(s, c, p) && req.Transfer? && req.from == req.to
    ensures Leads(s, t) && FailedAlone(s, t, c, req, SameWallet)
  {
    t := With(s, c, StartCall(p, req));
    LeadsNowhere(s);
    LeadsOn(s, s, Start(c, p, req), t);
  }

  lemma TransferAtLock(s: State, c: CallId, p: ProcId, req: Request)
    requires MutexesOld(s) && Newcomer(s, c, p) && req.Transfer? && req.from != req.to && AtGate(s, c, p, req)
    ensures Leads(s, With(TwoMutexes(s, p, LockOrder(req)), c, TransferAt(s, p, req, LockRow(0), 2, [], NO_TX)))
  {
    TransferToBegin(s, c, p, req);
    QuietDo(s, TwoMutexes(s, p, LockOrder(req)), c, TransferAt(s, p, req, Begin, 2, [], NO_TX),
            TransferAt(s, p, req, LockRow(0), 2, [], NO_TX));
  }

  lemma MissingRow(s: State, t: State, c: CallId, call: Call, i: nat)
    requires Leads(s, With(t, c, call)) && call.alive && call.pc == LockRow(i) && call.req.Transfer? && call.held <= 2
    requires i < |LockOrder(call.req)| && LockOrder(call.req)[i] !in t.db.wallets && Unhindered(t, c, call)
    ensures Leads(s, With(t, c, call.(pc := Done, held := 0, tx := NO_TX, outcome := Failed(WalletNotFound))))
  {
    TakingDo(s, t, c, call, Abort(call, WalletNotFound));
    AbortedToDone(s, t, c, call, WalletNotFound);
  }

  lemma MissingWallet(s: State, c: CallId, p: ProcId, req: Request) returns (t: State)
    requires MutexesOld(s) && Newcomer(s, c, p) && RowsFreeOf(s, c, req) && AtGate(s, c, p, req)
    requires req.from != req.to && (req.from !in s.db.wallets || req.to !in s.db.wallets)
    ensures Leads(s, t) && FailedAlone(s, t, c, req, WalletNotFound)
  {
    TransferAtLock(s, c, p, req);
    var u, order := TwoMutexes(s, p, LockOrder(req)), LockOrder(req);
    var call := TransferAt(s, p, req, LockRow(0), 2, [], NO_TX);
    RowsUnhindered(u, c, call);
    if order[0] in s.db.wallets {
      var next := call.(pc := LockRow(1), read := [] + [s.db.wallets[order[0]]], tx := NO_TX.(rows := {} + {order[0]}));
      TakingDo(s, u, c, call, next);
      call := next;
      RowsUnhindered(u, c, call);
      MissingRow(s, u, c, call, 1);
    } else {
      MissingRow(s, u, c, call, 0);
    }
    t := With(u, c, call.(pc := Done, held := 0, tx := NO_TX, outcome := Failed(WalletNotFound)));
  }

  predicate RowsFreeOf(s: State, c: CallId, req: Request) {
    req.Transfer? && RowsFree(s, c, req)
  }

  lemma ValidateRefuses(db: Db, call: Call, why: Failure)
    requires call.req.Transfer? && call.req.from in db.wallets && call.req.to in db.wallets
    requires call.req.from != call.req.to && InRange(db.wallets[call.req.from].balance)
    requires call.read == [db.wallets[LockOrder(call.req)[0]], db.wallets[LockOrder(call.req)[1]]]
    requires TransferReason(db, call.req.from, call.req.to, call.req.amount, why)
    ensures ValidateLine(call) == Abort(call, why)
  {
    TransferReasons(db, call.req.from, call.req.to, call.req.amount, call.req.key, why);
  }

  lemma ChecksRefused(s: State, c: CallId, p: ProcId, req: Request, why: Failure) returns (t: State)
    requires MutexesOld(s) && Newcomer(s, c, p) && RowsFreeOf(s, c, req) && AtGate(s, c, p, req)
    requires req.from != req.to && req.from in s.db.wallets && req.to in s.db.wallets
    requires InRange(s.db.wallets[req.from].balance) && TransferReason(s.db, req.from, req.to, req.amount, why)
    ensures Leads(s, t) && FailedAlone(s, t, c, req, why)
  {
    TransferToRows(s, c, p, req);
    var u, call := TwoMutexes(s, p, LockOrder(req)), TransferReady(s, p, req, NO_PLAN).(pc := Validate);
    ValidateRefuses(s.db, call, why);
    QuietDo(s, u, c, call, Abort(call, why));
    AbortedToDone(s, u, c, call, why);
    t := With(u, c, call.(pc := Done, held := 0, tx := NO_TX, outcome := Failed(why)));
  }

  lemma TransferRefused(s: State, c: CallId, p: ProcId, req: Request, why: Failure) returns (t: State)
    requires MutexesOld(s) && Newcomer(s, c, p) && RowsFreeOf(s, c, req)
    requires req.from != req.to ==> !HasKey(s.db.ledger, req.key)
    requires req.from in s.db.wallets ==> InRange(s.db.wallets[req.from].balance)
    requires TransferReason(s.db, req.from, req.to, req.amount, why)
    ensures Leads(s, t) && FailedAlone(s, t, c, req, why)
  {
    if req.from == req.to {
      t := SameWalletRefused(s, c, p, req);
    } else {
      Gate(s, c, p, req);
      if req.from in s.db.wallets && req.to in s.db.wallets {
        t := ChecksRefused(s, c, p, req, why);
      } else {
        t := MissingWallet(s, c, p, req);
      }
    }
  }

  // ---- suspensions and new wallets ----------------------------------------

  lemma SuspendRefused(s: State, c: CallId, p: ProcId, w: WalletId) returns (t: State)
    requires MutexesOld(s) && Newcomer(s, c, p) && w !in s.db.wallets
    requires forall d | d in s.calls && d != c :: w !in s.calls[d].tx.rows
    ensures Leads(s, t) && FailedAlone(s, t, c, Suspend(w), WalletNotFound)
  {
    SuspendToStatus(s, c, p, w);
    var u := WithMutex(s, p, w);
    var call := Call(p, Suspend(w), SetStatus, true, [s.nextMutex], 1, [], NO_PLAN, NO_TX, Running);
    TakingDo(s, u, c, call, Refuse(call, WalletNotFound));
    RefusedToDone(s, u, c, call, WalletNotFound);
    t := With(u, c, call.(pc := Done, held := 0, outcome := Failed(WalletNotFound)));
  }

  lemma CreateRefused(s: State, c: CallId, p: ProcId, owner: OwnerId, cur: Currency) returns (t: State)
    requires Newcomer(s, c, p) && OwnsCurrency(s.db.wallets, owner, cur)
    ensures Leads(s, t) && FailedAlone(s, t, c, Create(owner, cur), AlreadyExists)
  {
    var start := StartCall(p, Create(owner, cur));
    LeadsNowhere(s);
    LeadsOn(s, s, Start(c, p, Create(owner, cur)), With(s, c, start));
    QuietDo(s, s, c, start, Finish(start, Failed(AlreadyExists)));
    t := With(s, c, Finish(start, Failed(AlreadyExists)));
  }

  // ---- keys already used --------------------------------------------------

  /** A lookup that fails counts as one that finds nothing: the call goes on,
      whatever is recorded. So it does without a key. */
  lemma GateAnyway(s: State, c: CallId, p: ProcId, req: Request)
    requires Newcomer(s, c, p) && MovesMoney(req) && (req.Transfer? ==> req.from != req.to)
    ensures AtGate(s, c, p, req)
  {
    var start := StartCall(p, req);
    LeadsNowhere(s);
    LeadsOn(s, s, Start(c, p, req), With(s, c, start));
    if req.key != "" {
      assert With(With(s, c, start), c, PastLookup(p, req)) == With(s, c, PastLookup(p, req));
      LeadsOn(s, With(s, c, start), Fault(c), With(s, c, PastLookup(p, req)));
    }
  }

  lemma InsertRefused(s: State, t: State, c: CallId, call: Call, i: nat)
    requires Leads(s, With(t, c, call)) && call.alive && call.pc == Append(i) && call.held <= 2 && Idle(t, c)
    requires i < |call.plan.entries| && |call.plan.entries[i].key| <= 100
    requires HasKey(t.db.ledger, call.plan.entries[i].key)
    ensures Leads(s, With(t, c, call.(pc := Done, held := 0, tx := NO_TX, outcome := Failed(DuplicateKey))))
  {
    TakingDo(s, t, c, call, Abort(call, DuplicateKey));
    AbortedToDone(s, t, c, call, DuplicateKey);
  }

  /** A topup or payment that passes its checks but not the unique key. */
  lemma DeltaDuplicate(s: State, c: CallId, p: ProcId, req: Request, plan: Plan) returns (t: State)
    requires MutexesOld(s) && Newcomer(s, c, p) && Idle(s, c) && req.Delta?
    requires req.wallet in s.db.wallets && s.db.wallets[req.wallet].status == Active
    requires var row := s.db.wallets[req.wallet];
             DeltaPlan(req.wallet, row.currency, row.balance, req.amount, req.direction, req.key) == Ok(plan)
    requires |req.key| <= 100 && HasKey(s.db.ledger, req.key)
    ensures Leads(s, t) && FailedAlone(s, t, c, req, DuplicateKey)
  {
    GateAnyway(s, c, p, req);
    DeltaPlanned(s, c, p, req.wallet, req.amount, req.direction, req.key, plan);
    var u := WithMutex(s, p, req.wallet);
    var call := DeltaReady(s, p, req.wallet, req.amount, req.direction, req.key, plan);
    QuietDo(s, u, c, call, call.(pc := Append(0)));
    InsertRefused(s, u, c, call.(pc := Append(0)), 0);
    t := With(u, c, call.(pc := Done, held := 0, tx := NO_TX, outcome := Failed(DuplicateKey)));
  }

  lemma DebitKeyFree(s: State, t: State, c: CallId, call: Call) returns (next: Call)
    requires Leads(s, With(t, c, call)) && call.alive && call.pc == Append(0) && Idle(t, c) && call.tx.pending == []
    requires |call.plan.entries| == 2 && KeyFree(t.db.ledger, call.plan.entries[0].key)
    ensures Leads(s, With(t, c, next)) && next == call.(pc := Append(1), tx := next.tx)
  {
    next := call.(pc := Append(1), tx := call.tx.(pending := [] + [call.plan.entries[0]]));
    TakingDo(s, t, c, call, next);
  }

  /** A transfer that passes its checks but not the unique key of one of its legs. */
  lemma TransferDuplicate(s: State, c: CallId, p: ProcId, req: Request, plan: Plan) returns (t: State)
    requires MutexesOld(s) && Newcomer(s, c, p) && Idle(s, c) && req.Transfer? && req.from != req.to
    requires req.from in s.db.wallets && req.to in s.db.wallets
    requires TransferPlan(req.from, req.to, s.db.wallets[req.from], s.db.wallets[req.to], req.amount, req.key)
             == Ok(plan)
    requires |req.key + "-credit"| <= 100 && (HasKey(s.db.ledger, req.key) || HasKey(s.db.ledger, req.key + "-credit"))
    ensures Leads(s, t) && FailedAlone(s, t, c, req, DuplicateKey)
  {
    GateAnyway(s, c, p, req);
    TransferToAppend(s, c, p, req, plan);
    var u, call := TwoMutexes(s, p, LockOrder(req)), TransferReady(s, p, req, plan);
    if HasKey(s.db.ledger, req.key) {
      InsertRefused(s, u, c, call, 0);
    } else {
      call := DebitKeyFree(s, u, c, call);
      InsertRefused(s, u, c, call, 1);
    }
    t := With(u, c, call.(pc := Done, held := 0, tx := NO_TX, outcome := Failed(DuplicateKey)));
  }

  // ---- together -----------------------------------------------------------

  /** The partner of RefusalJustified: whatever reason the database gives, a
      request sent by itself ends with it, unless it is answered as a replay. */
  lemma RefusalRealized(s: State, req: Request, why: Failure) returns (t: State, c: CallId)
    requires Inv(s) && AllIdle(s) && Refused(s.db, req, why) && why != DuplicateKey
    requires MovesMoney(req) && why != SameWallet ==> forall e | e in s.db.ledger :: e.key != req.key
    ensures Leads(s, t) && FailedAlone(s, t, c, req, why)
  {
    var p;
    c, p := FindNewcomer(s);
    NewMutexFree(s);
    match req
    case Delta(_, _, _, key) =>
      RecordedIsUsed(s.db.ledger, key);
      t := DeltaRefused(s, c, p, req, why);
    case Transfer(_, _, _, key) =>
      RecordedIsUsed(s.db.ledger, key);
      t := TransferRefused(s, c, p, req, why);
    case Suspend(w) => t := SuspendRefused(s, c, p, w);
    case Create(owner, cur) =>
      OwnedIsOwned(s.db.wallets, owner, cur);
      t := CreateRefused(s, c, p, owner, cur);
  }

  /** And where no check refuses it but a key it would write is used, a request
      whose lookup fails ends with the duplicate key. */
  lemma DuplicateRealized(s: State, req: Request) returns (t: State, c: CallId)
    requires Inv(s) && AllIdle(s) && MovesMoney(req) && |req.key + "-credit"| <= 100
    requires Refused(s.db, req, DuplicateKey) && forall why | why != DuplicateKey :: !Refused(s.db, req, why)
    ensures Leads(s, t) && FailedAlone(s, t, c, req, DuplicateKey)
  {
    var p;
    c, p := FindNewcomer(s);
    NewMutexFree(s);
    RecordedIsUsed(s.db.ledger, req.key);
    RecordedIsUsed(s.db.ledger, req.key + "-credit");
    if req.Delta? {
      var plan := PlanOfDelta(s.db, req);
      t := DeltaDuplicate(s, c, p, req, plan);
    } else {
      var plan := PlanOfTransfer(s.db, req);
      t := TransferDuplicate(s, c, p, req, plan);
    }
  }

  lemma PlanOfDelta(d: Db, req: Request) returns (plan: Plan)
    requires req.Delta? && Reconciled(d) && forall why | why != DuplicateKey :: !Refused(d, req, why)
    ensures req.wallet in d.wallets && d.wallets[req.wallet].status == Active
    ensures var row := d.wallets[req.wallet];
            DeltaPlan(req.wallet, row.currency, row.balance, req.amount, req.direction, req.key) == Ok(plan)
  {
    var Delta(w, amount, direction, key) := req;
    assert !Refused(d, req, WalletNotFound) && !Refused(d, req, WalletSuspended) && !Refused(d, req, InvalidAmount)
           && !Refused(d, req, InsufficientBalance);
    DeltaReasons(d, w, amount, direction, key, InsufficientBalance);
    plan := DeltaPlan(w, d.wallets[w].currency, d.wallets[w].balance, amount, direction, key).value;
  }

  lemma PlanOfTransfer(d: Db, req: Request) returns (plan: Plan)
    requires req.Transfer? && Reconciled(d) && forall why | why != DuplicateKey :: !Refused(d, req, why)
    ensures req.from != req.to && req.from in d.wallets && req.to in d.wallets
    ensures TransferPlan(req.from, req.to, d.wallets[req.from], d.wallets[req.to], req.amount, req.key) == Ok(plan)
  {
    var Transfer(from, to, amount, key) := req;
    assert !Refused(d, req, SameWallet) && !Refused(d, req, WalletNotFound) && !Refused(d, req, InvalidAmount)
           && !Refused(d, req, WalletSuspended);
    assert !Refused(d, req, CurrencyMismatch) && !Refused(d, req, SameOwner) && !Refused(d, req, InsufficientBalance);
    TransferReasons(d, from, to, amount, key, InsufficientBalance);
    plan := TransferPlan(from, to, d.wallets[from], d.wallets[to], amount, key).value;
  }
}
