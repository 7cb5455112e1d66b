/** What calls answer: every refusal is one the database justified at some point
    of the call, and a topup or payment returns the row its commit left. */
module Answers {
  import opened Int64
  import opened Money
  import opened Ledger
  import opened Protocol
  import opened Meaning
  import opened Invariant
  import opened Refinement
  import opened Evolution
  import opened Preservation
  import opened Guarantees

  // ---- the checks ---------------------------------------------------------

  /** With a free key, a topup or payment that passes its checks is one that
      applies to an active wallet. */
  lemma DeltaChecked(d: Db, w: WalletId, amount: string, direction: Direction, key: Key)
    ensures Applies(d, Perform(Delta(w, amount, direction, key))) && d.wallets[w].status == Active
            <==> DeltaRefusal(d, w, amount, direction, key) == Running && KeyFree(d.ledger, key)
  {
  }

  /** With free keys, a transfer that passes its checks is one that applies. */
  lemma TransferChecked(d: Db, from: WalletId, to: WalletId, amount: string, key: Key)
    requires from != to
    ensures Applies(d, Perform(Request.Transfer(from, to, amount, key)))
            <==> TransferRefusal(d, from, to, amount, key) == Running
                 && KeyFree(d.ledger, key) && KeyFree(d.ledger, key + CREDIT_SUFFIX)
    ensures TransferRefusal(d, from, to, amount, key) == Running
            ==> from in d.wallets && to in d.wallets && d.wallets[from].currency == d.wallets[to].currency
                && CentsFor(d, from, amount).Some?
  {
  }

  // ---- refusals -----------------------------------------------------------

  /** Failures that are the request's own fault, not the storage's or a lost race. */
  predicate IsRefusal(why: Failure) {
    why != StorageError && why != OptimisticLock
  }

  /** The database d gives this reason to refuse the request. */
  predicate Refused(d: Db, req: Request, why: Failure) {
    match req
    case Delta(w, amount, direction, key) =>
      if why == DuplicateKey then (exists e | e in d.ledger :: e.key == key)
      else DeltaReason(d, w, amount, direction, why)
    case Transfer(from, to, amount, key) =>
      if why == DuplicateKey then (exists e | e in d.ledger :: e.key == key || e.key == key + "-credit")
      else TransferReason(d, from, to, amount, why)
    case Suspend(w) => why == WalletNotFound && w !in d.wallets
    case Create(owner, c) =>
      why == AlreadyExists && exists row | row in d.wallets.Values :: row.owner == owner && row.currency == c
  }

  /** A request that is refused is one the atomic machine could not apply to an
      active wallet there and then. */
  lemma RefusedCannotApply(d: Db, req: Request, why: Failure)
    requires Refused(d, req, why) && forall w | w in d.wallets :: InRange(d.wallets[w].balance)
    ensures !Applies(d, Perform(req)) || (req.Delta? && d.wallets[req.wallet].status == Suspended)
    ensures req.Create? ==> forall id :: !Applies(d, Open(id, req.owner, req.currency))
  {
    match req
    case Delta(w, amount, direction, key) =>
      DeltaReasons(d, w, amount, direction, key, why);
      DeltaChecked(d, w, amount, direction, key);
      RecordedIsUsed(d.ledger, key);
    case Transfer(from, to, amount, key) =>
      if from != to {
        TransferReasons(d, from, to, amount, key, why);
        TransferChecked(d, from, to, amount, key);
        RecordedIsUsed(d.ledger, key);
        RecordedIsUsed(d.ledger, key + "-credit");
      }
    case Suspend(_) =>
    case Create(owner, c) =>
      OwnedIsOwned(d.wallets, owner, c);
  }

  lemma RecordedIsUsed(ledger: seq<Entry>, key: Key)
    ensures HasKey(ledger, key) <==> exists e | e in ledger :: e.key == key
  {
    if e :| e in ledger && e.key == key {
      var i :| 0 <= i < |ledger| && ledger[i] == e;
    }
  }

  lemma OwnedIsOwned(wallets: map<WalletId, Wallet>, owner: OwnerId, c: Currency)
    ensures OwnsCurrency(wallets, owner, c)
            <==> exists row | row in wallets.Values :: row.owner == owner && row.currency == c
  {
    if w :| w in wallets && wallets[w].owner == owner && wallets[w].currency == c {
      assert wallets[w] in wallets.Values;
    }
  }

  lemma ReadRefusal(db: Db, call: Call, why: Failure)
    requires call.req.Delta? && Reconciled(db) && call.outcome != Failed(why)
    requires ReadWalletLine(db, call).outcome == Failed(why)
    ensures Refused(db, call.req, why)
  {
    var Delta(w, amount, direction, key) := call.req;
    DeltaReasons(db, w, amount, direction, key, why);
  }

  lemma ValidateRefusal(db: Db, call: Call, why: Failure)
    requires PcFits(call) && TxFits(db, call) && call.pc == Validate && |call.read| == 2 && Reconciled(db)
    requires call.outcome != Failed(why) && ValidateLine(call).outcome == Failed(why)
    ensures Refused(db, call.req, why)
  {
    var Transfer(from, to, amount, key) := call.req;
    RowsAreCurrent(db, call);
    TransferReasons(db, from, to, amount, key, why);
  }

  lemma QuietRefusal(db: Db, tables: Tables, call: Call, why: Failure)
    requires CallInv(db, tables, call) && QuietLine(db, call).Some? && IsRefusal(why) && Reconciled(db)
    requires call.outcome != Failed(why) && QuietLine(db, call).value.outcome == Failed(why)
    ensures Refused(db, call.req, why)
  {
    if call.pc == Validate {
      ValidateRefusal(db, call, why);
    } else if call.pc == ReadWallet {
      ReadRefusal(db, call, why);
    } else if call.pc == CheckNew {
      OwnedIsOwned(db.wallets, call.req.owner, call.req.currency);
    }
  }

  lemma AppendRefusal(db: Db, tables: Tables, call: Call, why: Failure)
    requires CallInv(db, tables, call) && call.pc.Append? && call.pc.i < |call.plan.entries| && IsRefusal(why)
    requires call.outcome != Failed(why) && AppendLine(db, call, call.pc.i).outcome == Failed(why)
    ensures Refused(db, call.req, why)
  {
    PlanShape(db, call);
    var key := call.plan.entries[call.pc.i].key;
    assert !HasKey(call.tx.pending, key);
    RecordedIsUsed(db.ledger, key);
  }

  lemma CompareRefusal(db: Db, tables: Tables, call: Call, why: Failure)
    requires CallInv(db, tables, call) && call.pc.Compare? && call.pc.i < |call.plan.updates| && IsRefusal(why)
    requires call.outcome != Failed(why)
    ensures CompareLine(db, call, call.pc.i).outcome != Failed(why)
  {
    PlanShape(db, call);
  }

  lemma TakingRefusal(s: State, c: CallId, s': State, why: Failure)
    requires c in s.calls && CallInv(s.db, s.tables, s.calls[c]) && DoStep(s, c) == Some(s') && IsRefusal(why)
    requires QuietLine(s.db, s.calls[c]).None?
    requires s.calls[c].outcome != Failed(why) && c in s'.calls && s'.calls[c].outcome == Failed(why)
    ensures Refused(s.db, s.calls[c].req, why)
  {
    var call := s.calls[c];
    match call.pc
    case Append(_) => AppendRefusal(s.db, s.tables, call, why);
    case Compare(_) => CompareRefusal(s.db, s.tables, call, why);
    case _ =>
  }

  lemma DoRefusal(s: State, c: CallId, s': State, why: Failure)
    requires c in s.calls && CallInv(s.db, s.tables, s.calls[c]) && DoStep(s, c) == Some(s')
    requires IsRefusal(why) && Reconciled(s.db)
    requires s.calls[c].outcome != Failed(why) && c in s'.calls && s'.calls[c].outcome == Failed(why)
    ensures Refused(s.db, s.calls[c].req, why)
  {
    if QuietLine(s.db, s.calls[c]).Some? {
      QuietRefusal(s.db, s.tables, s.calls[c], why);
    } else {
      TakingRefusal(s, c, s', why);
    }
  }

  lemma FaultIsNoRefusal(call: Call, why: Failure)
    requires FaultLine(call).Some? && IsRefusal(why) && call.outcome != Failed(why)
    ensures FaultLine(call).value.outcome != Failed(why)
  {
  }

  lemma InsertRefusal(s: State, c: CallId, id: WalletId, heard: bool, s': State, why: Failure)
    requires c in s.calls && InsertStep(s, c, id, heard) == Some(s') && IsRefusal(why)
    requires c in s'.calls && s'.calls[c].outcome == Failed(why)
    ensures Refused(s.db, s.calls[c].req, why)
  {
    OwnedIsOwned(s.db.wallets, s.calls[c].req.owner, s.calls[c].req.currency);
  }

  /** A call that runs no line of its own is refused only by the insert of a wallet. */
  lemma OtherRefusal(s: State, ev: Event, s': State, c: CallId, why: Failure)
    requires Step(s, ev) == Some(s') && ActorOf(ev) == Some(c) && c in s.calls && c in s'.calls && !ev.Do?
    requires IsRefusal(why) && s'.calls[c].outcome == Failed(why) && s.calls[c].outcome != Failed(why)
    ensures Refused(s.db, s.calls[c].req, why)
  {
    if ev.Fault? {
      FaultIsNoRefusal(s.calls[c], why);
    } else if ev.Insert? {
      InsertRefusal(s, c, ev.id, ev.heard, s', why);
    }
  }

  lemma StartRefusal(s: State, ev: Event, s': State, c: CallId, why: Failure)
    requires Step(s, ev) == Some(s') && c !in s.calls && c in s'.calls
    requires IsRefusal(why) && s'.calls[c].outcome == Failed(why)
    ensures ActorOf(ev) == Some(c) && Refused(s.db, s'.calls[c].req, why)
  {
    NewCall(s, ev, s', c);
  }

  /** The step that first gives a call its reason is its own, and the reason
      holds in the database it is taken on. */
  lemma NewRefusal(s: State, ev: Event, s': State, c: CallId, why: Failure)
    requires Inv(s) && Step(s, ev) == Some(s') && c in s'.calls && IsRefusal(why)
    requires s'.calls[c].outcome == Failed(why) && (c !in s.calls || s.calls[c].outcome != Failed(why))
    ensures ActorOf(ev) == Some(c) && Refused(s.db, s'.calls[c].req, why)
  {
    if c !in s.calls {
      StartRefusal(s, ev, s', c, why);
    } else {
      StepFollows(s, ev, s', c);
      if ActorOf(ev) != Some(c) {
        OthersFollow(s, ev, s', c);
      } else if ev.Do? {
        assert CallInv(s.db, s.tables, s.calls[c]);
        DoRefusal(s, c, s', why);
      } else {
        OtherRefusal(s, ev, s', c, why);
      }
    }
  }

  lemma ReachableInv(evs: seq<Event>)
    requires Run(INIT, evs).Some?
    ensures Inv(Run(INIT, evs).value)
  {
    InitHolds();
    RunRefines(INIT, evs);
  }

  /** The n-th step is c's own and is taken on a database that gives the reason. */
  ghost predicate RefusedAt(evs: seq<Event>, n: nat, c: CallId, req: Request, why: Failure) {
    && n < |evs| && Run(INIT, evs[..n]).Some?
    && ActorOf(evs[n]) == Some(c) && Refused(Run(INIT, evs[..n]).value.db, req, why)
  }

  /** No refusal without a reason: in every run with any number of processes, a
      call that ends with a business error was given it by one of its own steps,
      on a committed database to which its request could not be applied. */
  lemma {:induction false} RefusalJustified(evs: seq<Event>, c: CallId, why: Failure) returns (n: nat)
    requires Run(INIT, evs).Some? && c in Run(INIT, evs).value.calls
    requires Run(INIT, evs).value.calls[c].outcome == Failed(why) && IsRefusal(why)
    ensures RefusedAt(evs, n, c, Run(INIT, evs).value.calls[c].req, why)
  {
    var last := |evs| - 1;
    var front := evs[..last];
    var s := Run(INIT, front).value;
    if c in s.calls && s.calls[c].outcome == Failed(why) {
      StepFollows(s, evs[last], Run(INIT, evs).value, c);
      n := RefusalJustified(front, c, why);
      assert front[..n] == evs[..n];
    } else {
      ReachableInv(front);
      NewRefusal(s, evs[last], Run(INIT, evs).value, c, why);
      n := last;
    }
  }

  // ---- returned rows ------------------------------------------------------

  /** The wallet a successful topup or payment answers with: the row it read,
      with the balance it wrote. */
  function Returned(call: Call): Option<Wallet> {
    if call.req.Delta? && call.outcome == Success && |call.read| == 1 && |call.plan.updates| == 1
    then Some(call.read[0].(balance := call.plan.updates[0].next)) else None
  }

  lemma CommittedRow(db: Db, call: Call)
    requires PcFits(call) && TxFits(db, call) && call.pc == Commit && call.req.Delta?
    ensures |call.read| == 1 && |call.plan.updates| == 1 && call.req.wallet in db.wallets
    ensures call.read[0].(balance := call.plan.updates[0].next)
            == Publish(db, call.tx).wallets[call.req.wallet].(status := Active)
  {
    WritesOfOne(call.plan.updates[0]);
  }

  lemma NewAnswer(s: State, ev: Event, s': State, c: CallId)
    requires Inv(s) && Step(s, ev) == Some(s') && c in s'.calls && s'.calls[c].req.Delta?
    requires s'.calls[c].outcome == Success && (c !in s.calls || s.calls[c].outcome != Success)
    ensures ev == Do(c) && c in s.calls && s'.calls[c].req.wallet in s'.db.wallets
    ensures Returned(s'.calls[c]) == Some(s'.db.wallets[s'.calls[c].req.wallet].(status := Active))
  {
    if c !in s.calls {
      NewCall(s, ev, s', c);
    } else {
      StepFollows(s, ev, s', c);
      assert CallInv(s.db, s.tables, s.calls[c]);
      CommitDone(s, c, s');
      CommittedRow(s.db, s.calls[c]);
    }
  }

  lemma AnswerStays(s: State, ev: Event, s': State, c: CallId)
    requires Inv(s) && Step(s, ev) == Some(s') && c in s.calls && c in s'.calls
    requires s.calls[c].outcome == Success && s'.calls[c].outcome == Success
    ensures Returned(s'.calls[c]) == Returned(s.calls[c]) && s'.calls[c].req == s.calls[c].req
  {
    assert CallInv(s.db, s.tables, s.calls[c]);
    StepFollows(s, ev, s', c);
  }

  /** Step n is c's commit, and w's row right after it, but for its status, is `row`. */
  ghost predicate AnsweredAt(evs: seq<Event>, n: nat, c: CallId, w: WalletId, row: Wallet) {
    && n < |evs| && evs[n] == Do(c) && Run(INIT, evs[..n + 1]).Some?
    && w in Run(INIT, evs[..n + 1]).value.db.wallets
    && row == Run(INIT, evs[..n + 1]).value.db.wallets[w].(status := Active)
  }

  /** In every run with any number of processes: a successful topup or payment
      answers with its wallet's committed row as its own commit left it. Only the
      status may be stale: it is the one the call read, active. */
  lemma {:induction false} AnswerIsCommitted(evs: seq<Event>, c: CallId) returns (n: nat)
    requires Run(INIT, evs).Some? && c in Run(INIT, evs).value.calls
    requires Run(INIT, evs).value.calls[c].req.Delta? && Run(INIT, evs).value.calls[c].outcome == Success
    ensures var call := Run(INIT, evs).value.calls[c];
            Returned(call).Some? && AnsweredAt(evs, n, c, call.req.wallet, Returned(call).value)
  {
    var last := |evs| - 1;
    var front := evs[..last];
    var s := Run(INIT, front).value;
    ReachableInv(front);
    if c in s.calls && s.calls[c].outcome == Success {
      AnswerStays(s, evs[last], Run(INIT, evs).value, c);
      n := AnswerIsCommitted(front, c);
      assert front[..n + 1] == evs[..n + 1];
    } else {
      NewAnswer(s, evs[last], Run(INIT, evs).value, c);
      n := last;
      assert evs[..n + 1] == evs;
    }
  }
}
