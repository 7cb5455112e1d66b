/** What the service does not promise: reachable states that mark the exact
    limits of the theorems. */
module Limits {
  import opened Int64
  import opened Money
  import opened MoneyProofs
  import opened Ledger
  import opened LedgerProofs
  import opened Protocol
  import opened Invariant
  import opened Guarantees
  import opened Deadlock
  import opened Completion
  import opened Refinement
  import opened SingleProcess
  import opened Realization

  /** Some run of the whole system, from the empty deployment, ends in t. */
  ghost predicate Reachable(t: State) {
    Leads(INIT, t)
  }

  lemma ReachableKeeps(s: State)
    requires Reachable(s)
    ensures Inv(s)
  {
    InitHolds();
    LeadsKeeps(INIT, s);
  }

  lemma OldMutexes(s: State)
    requires Reachable(s)
    ensures MutexesOld(s)
  {
    ReachableKeeps(s);
    NewMutexFree(s);
  }

  lemma Onward(s: State, t: State)
    requires Reachable(s) && Leads(s, t)
    ensures Reachable(t)
  {
    var evs :| Run(s, evs) == Some(t);
    LeadsTogether(INIT, s, t, evs);
  }

  /** One more orderly action from a reachable state where nobody is in a transaction. */
  lemma Extend(s: State, a: Action) returns (t: State)
    requires Reachable(s) && AllIdle(s) && Orderly(s.db, a)
    ensures Reachable(t) && AllIdle(t) && t.db == Apply(s.db, a)
    ensures OnlyNewDone(s, t)
  {
    ReachableKeeps(s);
    t := ActionRealized(s, a);
    Onward(s, t);
  }

  lemma AtStart() returns (s: State)
    ensures Reachable(s) && AllIdle(s) && s.db == EMPTY_DB && AllDone(s)
  {
    s := INIT;
    LeadsNowhere(INIT);
  }

  /** Two rupiah wallets of different owners. */
  lemma TwoWallets() returns (s: State)
    ensures Reachable(s) && AllIdle(s) && AllDone(s)
    ensures s.db.wallets == map[0 := Wallet(0, IDR, 0, Active), 1 := Wallet(1, IDR, 0, Active)]
    ensures s.db.ledger == []
  {
    var s0 := AtStart();
    var s1 := Extend(s0, Open(0, 0, IDR));
    s := Extend(s1, Open(1, 1, IDR));
  }

  // ---- overflow -----------------------------------------------------------

  lemma TopUpApplies(d: Db, w: WalletId, amount: string, n: nat, key: Key)
    requires w in d.wallets && d.wallets[w].currency == IDR && ParseAmount(amount, IDR) == Some(n)
    requires 0 <= d.wallets[w].balance <= d.wallets[w].balance + n <= MAX64 && KeyFree(d.ledger, key)
    ensures Applies(d, Perform(Delta(w, amount, Credit, key)))
    ensures Apply(d, Perform(Delta(w, amount, Credit, key))) == AfterDelta(d, w, Credit, n, key)
  {
  }

  /** A topup of n rupiah. */
  lemma TopUp(s: State, w: WalletId, n: nat, key: Key) returns (t: State)
    requires Reachable(s) && AllIdle(s)
    requires w in s.db.wallets && s.db.wallets[w].currency == IDR && s.db.wallets[w].status == Active
    requires 0 <= s.db.wallets[w].balance <= s.db.wallets[w].balance + n <= MAX64 && KeyFree(s.db.ledger, key)
    ensures Reachable(t) && AllIdle(t)
    ensures t.db == AfterDelta(s.db, w, Credit, n, key) && OnlyNewDone(s, t)
  {
    RoundTrip(n, IDR);
    TopUpApplies(s.db, w, FormatCents(n, IDR), n, key);
    t := Extend(s, Perform(Delta(w, FormatCents(n, IDR), Credit, key)));
  }

  /** One rupiah on wallet 0. */
  predicate Started(d: Db) {
    && d.wallets == map[0 := Wallet(0, IDR, 1, Active), 1 := Wallet(1, IDR, 0, Active)]
    && d.ledger == [] + [DeltaEntry(0, IDR, Credit, 1, "a")]
  }

  lemma StartDb(d: Db)
    requires d.wallets == map[0 := Wallet(0, IDR, 0, Active), 1 := Wallet(1, IDR, 0, Active)] && d.ledger == []
    ensures KeyFree(d.ledger, "a") && Started(AfterDelta(d, 0, Credit, 1, "a"))
  {
  }

  lemma OneTopUp() returns (s: State)
    ensures Reachable(s) && AllIdle(s) && AllDone(s) && Started(s.db)
  {
    var s0 := TwoWallets();
    StartDb(s0.db);
    s := TopUp(s0, 0, 1, "a");
  }

  /** ... and a full int64 on wallet 1. */
  predicate Filled(d: Db) {
    && d.wallets == map[0 := Wallet(0, IDR, 1, Active), 1 := Wallet(1, IDR, MAX64, Active)]
    && d.ledger == [] + [DeltaEntry(0, IDR, Credit, 1, "a")] + [DeltaEntry(1, IDR, Credit, MAX64, "b")]
  }

  lemma FillDb(d: Db)
    requires Started(d)
    ensures KeyFree(d.ledger, "b") && Filled(AfterDelta(d, 1, Credit, MAX64, "b"))
  {
  }

  lemma Fill() returns (s: State)
    ensures Reachable(s) && AllIdle(s) && Filled(s.db)
  {
    var s1 := OneTopUp();
    FillDb(s1.db);
    s := TopUp(s1, 1, MAX64, "b");
  }

  /** The ledger after one more rupiah goes from wallet 0 to wallet 1. */
  lemma FilledSum(l: seq<Entry>, d: Db)
    requires Filled(d) && l == d.ledger + [DebitLeg(0, 1, IDR, 1, "c"), CreditLeg(0, 1, IDR, 1, "c")]
    ensures WalletSum(l, 1) == MAX64 + 1
  {
    SumBySnoc([], DeltaEntry(0, IDR, Credit, 1, "a"), OfWallet(1));
    SumBySnoc([] + [DeltaEntry(0, IDR, Credit, 1, "a")], DeltaEntry(1, IDR, Credit, MAX64, "b"), OfWallet(1));
    SumByTwo(d.ledger, DebitLeg(0, 1, IDR, 1, "c"), CreditLeg(0, 1, IDR, 1, "c"), OfWallet(1));
  }

  lemma OneRupiah(d: Db, amount: string)
    requires Filled(d) && ParseAmount(amount, IDR) == Some(1)
    ensures Applies(d, Perform(Transfer(0, 1, amount, "c")))
    ensures Apply(d, Perform(Transfer(0, 1, amount, "c"))) == AfterTransfer(d, 0, 1, 1, "c")
    ensures AfterTransfer(d, 0, 1, 1, "c").wallets
            == map[0 := Wallet(0, IDR, 0, Active), 1 := Wallet(1, IDR, MIN64, Active)]
  {
    assert KeyFree(d.ledger, "c") && KeyFree(d.ledger, "c" + CREDIT_SUFFIX);
    assert Wrap64(MAX64 + 1) == MIN64;
  }

  /** Without the bound on topups the unchecked credit of a transfer does wrap:
      a reachable state in which a committed balance is negative and is not the
      sum of the wallet's entries. */
  lemma CreditCanWrap() returns (t: State)
    ensures Reachable(t) && 1 in t.db.wallets
    ensures t.db.wallets[1].balance == MIN64 && WalletSum(t.db.ledger, 1) == MAX64 + 1
  {
    var s := Fill();
    RoundTrip(1, IDR);
    var amount := FormatCents(1, IDR);
    OneRupiah(s.db, amount);
    t := Extend(s, Perform(Transfer(0, 1, amount, "c")));
    FilledSum(t.db.ledger, s.db);
  }

  // ---- several processes --------------------------------------------------

  function OneRupiahText(): string {
    FormatCents(1, IDR)
  }

  /** The topup of one rupiah that the following runs leave half done. */
  function SlowTopUp(): Request {
    Delta(0, OneRupiahText(), Credit, "k")
  }

  lemma SlowPlan(d: Db)
    requires Started(d)
    ensures DeltaPlan(0, IDR, 1, OneRupiahText(), Credit, "k")
            == Ok(Plan([DeltaEntry(0, IDR, Credit, 1, "k")], [Update(0, 1, 2)]))
    ensures KeyFree(d.ledger, "k") && KeyFree(d.ledger, "k" + CREDIT_SUFFIX)
  {
    RoundTrip(1, IDR);
  }

  /** Between its read of the wallet and its transaction. */
  predicate Paused(call: Call) {
    && call.req == SlowTopUp() && call.pc == Begin && call.alive && call.held == 1 && call.tx == NO_TX
    && call.plan == Plan([DeltaEntry(0, IDR, Credit, 1, "k")], [Update(0, 1, 2)])
  }

  lemma PauseTopUp() returns (s: State, c: CallId)
    ensures Reachable(s) && AllIdle(s) && Started(s.db)
    ensures c in s.calls && Paused(s.calls[c]) && forall d | d in s.calls && d != c :: s.calls[d].pc == Done
  {
    var s0 := OneTopUp();
    var p;
    c, p := FindNewcomer(s0);
    OldMutexes(s0);
    SlowPlan(s0.db);
    var plan := Plan([DeltaEntry(0, IDR, Credit, 1, "k")], [Update(0, 1, 2)]);
    DeltaToBegin(s0, c, p, 0, OneRupiahText(), Credit, "k", plan);
    s := With(WithMutex(s0, p, 0), c, DeltaReady(s0, p, 0, OneRupiahText(), Credit, "k", plan));
    Onward(s0, s);
  }

  lemma PausedCompares(s: State, t: State, c: CallId)
    requires Leads(s, t) && AllIdle(t) && c in t.calls && Paused(t.calls[c]) && KeyFree(t.db.ledger, "k")
    ensures Leads(s, With(t, c, DeltaInserted(t.calls[c])))
  {
    assert With(t, c, t.calls[c]) == t;
    DeltaToCompare(s, t, c, t.calls[c]);
  }

  /** The topup has its key, the transfer has its rows. */
  predicate Crossed(first: Call, second: Call) {
    && first.req == SlowTopUp() && first.alive && first.pc == Compare(0) && WantedRow(first) == Some(0)
    && HasKey(first.tx.pending, "k")
    && second.req == SlowTransfer() && second.alive && second.pc == Append(0) && WantedKey(second) == Some("k")
    && 0 in second.tx.rows
  }

  lemma CrossedIsStuck(s: State, a: CallId, b: CallId)
    requires a in s.calls && b in s.calls && a != b && Crossed(s.calls[a], s.calls[b])
    requires forall d | d in s.calls && d != a && d != b :: s.calls[d].pc == Done
    ensures forall d :: !Free(s, d)
  {
    assert WaitsFor(s.calls[a], s.calls[b]) && WaitsFor(s.calls[b], s.calls[a]);
  }

  function SlowTransfer(): Request {
    Transfer(0, 1, OneRupiahText(), "k")
  }

  lemma SlowTransferPlan(d: Db) returns (plan: Plan)
    requires Started(d)
    ensures TransferPlan(0, 1, d.wallets[0], d.wallets[1], OneRupiahText(), "k") == Ok(plan)
    ensures plan.entries == [DebitLeg(0, 1, IDR, 1, "k"), CreditLeg(0, 1, IDR, 1, "k")]
  {
    RoundTrip(1, IDR);
    plan := TransferPlan(0, 1, d.wallets[0], d.wallets[1], OneRupiahText(), "k").value;
  }

  /** The transfer gets as far as its first insert. */
  lemma JoinTransfer(s: State) returns (t: State, b: CallId, second: Call)
    requires Reachable(s) && Started(s.db) && forall d | d in s.calls :: s.calls[d].tx.rows == {}
    ensures Leads(s, t) && b !in s.calls && t.calls == s.calls[b := second]
    ensures second.req == SlowTransfer() && second.alive && second.pc == Append(0)
    ensures WantedKey(second) == Some("k") && 0 in second.tx.rows
  {
    var p;
    b, p := FindNewcomer(s);
    OldMutexes(s);
    SlowPlan(s.db);
    var plan := SlowTransferPlan(s.db);
    Gate(s, b, p, SlowTransfer());
    TransferToAppend(s, b, p, SlowTransfer(), plan);
    second := TransferReady(s, p, SlowTransfer(), plan);
    t := With(TwoMutexes(s, p, LockOrder(SlowTransfer())), b, second);
  }

  /** The topup gets as far as its row. */
  lemma HalfTopUp() returns (s: State, a: CallId)
    ensures Reachable(s) && Started(s.db) && a in s.calls
    ensures s.calls[a].req == SlowTopUp() && s.calls[a].alive && s.calls[a].pc == Compare(0)
    ensures WantedRow(s.calls[a]) == Some(0) && HasKey(s.calls[a].tx.pending, "k")
    ensures forall d | d in s.calls :: s.calls[d].tx.rows == {} && (d != a ==> s.calls[d].pc == Done)
  {
    var s0;
    s0, a := PauseTopUp();
    SlowPlan(s0.db);
    LeadsNowhere(s0);
    PausedCompares(s0, s0, a);
    var call := DeltaInserted(s0.calls[a]);
    s := With(s0, a, call);
    Onward(s0, s);
    assert call.tx.pending[0].key == "k";
  }

  /** With two processes, a topup that has inserted its key and a transfer of the
      same key that has locked its rows wait for each other forever. */
  lemma CrossProcessDeadlock() returns (s: State, a: CallId, b: CallId)
    ensures Reachable(s) && a in s.calls && b in s.calls
    ensures s.calls[a].req.Delta? && s.calls[b].req.Transfer? && Unfinished(s, a) && Unfinished(s, b)
    ensures forall d :: !Free(s, d)
  {
    var s1, second;
    s1, a := HalfTopUp();
    s, b, second := JoinTransfer(s1);
    Onward(s1, s);
    assert s.calls[a] == s1.calls[a] && s.calls[b] == second;
    CrossedIsStuck(s, a, b);
  }

  lemma LoseTheRace(s: State, c: CallId) returns (t: State)
    requires AllIdle(s) && c in s.calls && Paused(s.calls[c]) && KeyFree(s.db.ledger, "k")
    requires 0 in s.db.wallets && s.db.wallets[0].balance == 2
    ensures Leads(s, t) && c in t.calls && t.calls[c].req == SlowTopUp() && t.calls[c].outcome == Failed(OptimisticLock)
  {
    LeadsNowhere(s);
    PausedCompares(s, s, c);
    var call := DeltaInserted(s.calls[c]);
    var lost := Abort(call.(tx := call.tx.(rows := {0})), OptimisticLock);
    assert {} + {0} == {0};
    TakingDo(s, s, c, call, lost);
    t := With(s, c, lost);
  }

  lemma SecondTopUp(d: Db)
    requires Started(d)
    ensures KeyFree(d.ledger, "m")
    ensures var d' := AfterDelta(d, 0, Credit, 1, "m");
            d'.wallets[0].balance == 2 && KeyFree(d'.ledger, "k")
  {
  }

  /** With two processes, a topup can lose the race for its row. */
  lemma TopUpCanLoseTheRace() returns (s: State, c: CallId)
    ensures Reachable(s) && c in s.calls
    ensures s.calls[c].req.Delta? && s.calls[c].outcome == Failed(OptimisticLock)
  {
    var s0;
    s0, c := PauseTopUp();
    SecondTopUp(s0.db);
    var s1 := TopUp(s0, 0, 1, "m");
    s := LoseTheRace(s1, c);
    Onward(s1, s);
  }

  /** With two processes, a topup that read the wallet before its suspension
      commits after it. */
  lemma TopUpCanComeLate() returns (s: State, t: State)
    ensures Reachable(s) && Leads(s, t) && 0 in s.db.wallets && s.db.wallets[0].status == Suspended
    ensures 0 in t.db.wallets && t.db.wallets[0].balance != s.db.wallets[0].balance && s.db.ledger < t.db.ledger
  {
    var s0, c := PauseTopUp();
    s := Extend(s0, Perform(Suspend(0)));
    SlowPlan(s0.db);
    LeadsNowhere(s);
    PausedCompares(s, s, c);
    var call := DeltaInserted(s.calls[c]);
    DeltaToCommit(s, s, c, call);
    var last := call.(pc := Commit, tx := Tx({} + {0}, call.tx.pending, map[0 := 2]));
    CommitToDone(s, s, c, last);
    t := With(s.(db := Publish(s.db, last.tx)), c, Committed(last));
  }

  // ---- a restart ----------------------------------------------------------

  function FirstTopUp(): Request {
    Delta(0, OneRupiahText(), Credit, "m")
  }

  /** The first topup, its COMMIT sent and its process gone. */
  predicate Orphaned(call: Call) {
    && call.req == FirstTopUp() && call.pc == Commit && !call.alive
    && call.tx == Tx({0}, [DeltaEntry(0, IDR, Credit, 1, "m")], map[0 := 2])
  }

  lemma FirstPlan(d: Db)
    requires Started(d)
    ensures DeltaPlan(0, IDR, 1, OneRupiahText(), Credit, "m")
            == Ok(Plan([DeltaEntry(0, IDR, Credit, 1, "m")], [Update(0, 1, 2)]))
    ensures KeyFree(d.ledger, "m")
  {
    RoundTrip(1, IDR);
  }

  /** A topup of one rupiah at its commit, in a process of its own. */
  lemma FirstAtCommit() returns (s: State, c: CallId, p: ProcId)
    ensures Reachable(s) && Started(s.db) && c in s.calls && s.calls[c].proc == p
    ensures s.calls[c].req == FirstTopUp() && s.calls[c].pc == Commit
    ensures s.calls[c].tx == Tx({0}, [DeltaEntry(0, IDR, Credit, 1, "m")], map[0 := 2])
    ensures forall d | d in s.calls && d != c :: s.calls[d].pc == Done && s.calls[d].tx == NO_TX
  {
    var s0 := OneTopUp();
    c, p := FindNewcomer(s0);
    OldMutexes(s0);
    FirstPlan(s0.db);
    var plan := Plan([DeltaEntry(0, IDR, Credit, 1, "m")], [Update(0, 1, 2)]);
    DeltaToLast(s0, c, p, 0, OneRupiahText(), Credit, "m", plan);
    s := With(WithMutex(s0, p, 0), c,
              DeltaReady(s0, p, 0, OneRupiahText(), Credit, "m", plan)
              .(pc := Commit, tx := Tx({0}, plan.entries, map[0 := 2])));
    Onward(s0, s);
  }

  lemma OrphanTopUp() returns (s: State, d: CallId)
    ensures Reachable(s) && Started(s.db) && d in s.calls && Orphaned(s.calls[d])
    ensures forall e | e in s.calls && e != d :: s.calls[e].pc == Done && s.calls[e].tx == NO_TX
  {
    var s0, p;
    s0, d, p := FirstAtCommit();
    s := CrashStep(s0, p);
    LeadsNowhere(s0);
    LeadsOn(s0, s0, Crash(p), s);
    Onward(s0, s);
  }

  /** After the restart a second topup reads the wallet. */
  lemma RestartAndRead() returns (s: State, c: CallId, d: CallId, p: ProcId)
    ensures Reachable(s) && Started(s.db) && OneLive(s, p)
    ensures c in s.calls && Paused(s.calls[c]) && s.calls[c].proc == p
    ensures d in s.calls && d != c && Orphaned(s.calls[d])
    ensures forall e | e in s.calls && e != d :: s.calls[e].tx == NO_TX
  {
    var s0;
    s0, d := OrphanTopUp();
    c, p := FindNewcomer(s0);
    OldMutexes(s0);
    SlowPlan(s0.db);
    var plan := Plan([DeltaEntry(0, IDR, Credit, 1, "k")], [Update(0, 1, 2)]);
    DeltaToBegin(s0, c, p, 0, OneRupiahText(), Credit, "k", plan);
    s := With(WithMutex(s0, p, 0), c, DeltaReady(s0, p, 0, OneRupiahText(), Credit, "k", plan));
    Onward(s0, s);
  }

  lemma OrphanLands(s: State, d: CallId) returns (t: State)
    requires Started(s.db) && d in s.calls && Orphaned(s.calls[d])
    requires forall e | e in s.calls && e != d :: s.calls[e].tx == NO_TX
    ensures Leads(s, t) && AllIdle(t) && t.db == AfterDelta(s.db, 0, Credit, 1, "m")
    ensures forall e | e in s.calls && e != d :: e in t.calls && t.calls[e] == s.calls[e]
  {
    var tx := s.calls[d].tx;
    assert !Blocked(s, d);
    t := With(s, d, Gone(s.calls[d])).(db := Publish(s.db, tx));
    LeadsNowhere(s);
    LeadsOn(s, s, Land(d), t);
    PublishDelta(s.db, tx, 0, Credit, 1, "m");
  }

  /** A restart is enough to lose the race: the only live process is p, yet the
      topup it has just begun fails, because a COMMIT its predecessor had sent
      lands after the read. */
  lemma RestartCanLoseTheRace() returns (s: State, t: State, c: CallId, p: ProcId)
    ensures Reachable(s) && OneLive(s, p) && Leads(s, t)
    ensures c in s.calls && s.calls[c].proc == p && Live(s.calls[c])
    ensures c in t.calls && t.calls[c].req.Delta? && t.calls[c].outcome == Failed(OptimisticLock)
  {
    var d;
    s, c, d, p := RestartAndRead();
    SecondTopUp(s.db);
    var s1 := OrphanLands(s, d);
    t := LoseTheRace(s1, c);
    var evs :| Run(s1, evs) == Some(t);
    LeadsTogether(s, s1, t, evs);
  }

  // ---- replays ------------------------------------------------------------

  /** A key that belongs to another request is enough for a replay: a topup of
      wallet 1 is answered as done although only wallet 0 was ever topped up. */
  lemma ReplayOfAnotherRequest() returns (s: State, c: CallId)
    ensures Reachable(s) && c in s.calls
    ensures s.calls[c].req.Delta? && s.calls[c].req.wallet == 1 && s.calls[c].outcome == Replayed
    ensures EntriesOf(s.db.ledger, 1) == [] && 1 in s.db.wallets && s.db.wallets[1].balance == 0
  {
    var s0 := OneTopUp();
    var p;
    c, p := FindNewcomer(s0);
    var req := Delta(1, OneRupiahText(), Credit, "a");
    var call := StartCall(p, req);
    LeadsNowhere(s0);
    LeadsOn(s0, s0, Start(c, p, req), With(s0, c, call));
    assert s0.db.ledger[0].key == "a" && HasKey(s0.db.ledger, "a");
    QuietDo(s0, s0, c, call, call.(pc := Replay(0)));
    s := With(s0, c, Finish(call, Replayed));
    QuietDo(s0, s0, c, call.(pc := Replay(0)), Finish(call, Replayed));
    Onward(s0, s);
    assert s.db.ledger[..0] == [];
  }
}
