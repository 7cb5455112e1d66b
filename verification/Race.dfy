/** When a topup or payment loses the race for its row: exactly when the balance
    it read is no longer the committed one, and only to a call the mutexes of its
    process cannot hold back. */
module Race {
  import opened Int64
  import opened Ledger
  import opened Protocol
  import opened Invariant
  import opened Evolution
  import opened Preservation
  import opened Guarantees
  import opened SingleProcess
  import opened Suspension

  // ---- at the comparison --------------------------------------------------

  /** A topup's or payment's comparison fails if and only if the committed
      balance is not the one it read before its transaction. */
  lemma DeltaComparison(db: Db, call: Call)
    requires PcFits(call) && TxFits(db, call) && call.req.Delta? && call.pc.Compare?
    requires call.outcome != Failed(OptimisticLock)
    ensures |call.read| == 1 && call.req.wallet in db.wallets
    ensures CompareLine(db, call, call.pc.i).pc.Write? <==> db.wallets[call.req.wallet].balance == call.read[0].balance
    ensures CompareLine(db, call, call.pc.i).outcome == Failed(OptimisticLock)
            <==> db.wallets[call.req.wallet].balance != call.read[0].balance
  {
    PlanShape(db, call);
    assert call.plan.updates[..0] == [];
  }

  lemma ComparisonStep(t: State, c: CallId)
    requires Alive(t, c) && !Blocked(t, c) && t.calls[c].req.Delta? && t.calls[c].pc.Compare?
    requires t.calls[c].pc.i < |t.calls[c].plan.updates|
    ensures Step(t, Do(c)) == Some(With(t, c, CompareLine(t.db, t.calls[c], t.calls[c].pc.i)))
  {
  }

  lemma ComparisonReady(s: State, c: CallId)
    requires Inv(s) && c in s.calls && s.calls[c].req.Delta? && s.calls[c].pc.Compare?
    ensures PcFits(s.calls[c]) && TxFits(s.db, s.calls[c]) && s.calls[c].outcome == Running
    ensures s.calls[c].pc.i < |s.calls[c].plan.updates|
  {
    assert CallInv(s.db, s.tables, s.calls[c]);
    PlanShape(s.db, s.calls[c]);
  }

  /** The same for every run of the system. */
  lemma {:induction false} ComparisonInEveryRun(evs: seq<Event>, c: CallId)
    requires Run(INIT, evs).Some? && Alive(Run(INIT, evs).value, c) && !Blocked(Run(INIT, evs).value, c)
    requires Run(INIT, evs).value.calls[c].req.Delta? && Run(INIT, evs).value.calls[c].pc.Compare?
    ensures var t := Run(INIT, evs).value;
            var call, after := t.calls[c], Step(t, Do(c));
            && |call.read| == 1 && call.req.wallet in t.db.wallets && after.Some? && c in after.value.calls
            && (after.value.calls[c].outcome == Failed(OptimisticLock)
                <==> t.db.wallets[call.req.wallet].balance != call.read[0].balance)
  {
    InitHolds();
    RunRefines(INIT, evs);
    var t := Run(INIT, evs).value;
    ComparisonReady(t, c);
    ComparisonStep(t, c);
    DeltaComparison(t.db, t.calls[c]);
  }

  // ---- between the read and the comparison --------------------------------

  /** The balance the call read is the committed one. */
  predicate ReadIsCurrent(db: Db, call: Call) {
    call.req.Delta? && |call.read| == 1 && call.req.wallet in db.wallets
    && db.wallets[call.req.wallet].balance == call.read[0].balance
  }

  /** The call has not lost the race, and will not if nothing changes any more. */
  predicate Calm(db: Db, call: Call) {
    call.req.Delta? ==>
      && call.outcome != Failed(OptimisticLock)
      && (call.alive && InTransaction(call.pc) ==> ReadIsCurrent(db, call))
  }

  /** This step commits a change of c's wallet, while c is between its read and
      its end, and it does so for a call of another process or for one whose
      process or connection is gone. */
  predicate Overtakes(s: State, ev: Event, c: CallId) {
    && Alive(s, c) && s.calls[c].req.Delta? && InTransaction(s.calls[c].pc)
    && EffectOf(s, ev).Some? && Touches(EffectOf(s, ev).value, s.calls[c].req.wallet)
    && ActorOf(ev) == Some(ev.c) && ev.c != c && ev.c in s.calls
    && (s.calls[ev.c].proc != s.calls[c].proc || !s.calls[ev.c].alive)
  }

  lemma QuietCalm(db: Db, call: Call)
    requires PcFits(call) && Calm(db, call) && QuietLine(db, call).Some?
    ensures Calm(db, QuietLine(db, call).value)
  {
  }

  lemma CompareCalm(db: Db, call: Call)
    requires PcFits(call) && TxFits(db, call) && Calm(db, call) && call.alive && call.pc.Compare?
    requires call.pc.i < |call.plan.updates|
    ensures Calm(db, CompareLine(db, call, call.pc.i))
  {
    if call.req.Delta? {
      DeltaComparison(db, call);
    }
  }

  lemma AppendCalm(db: Db, call: Call, i: nat)
    requires Calm(db, call) && call.pc == Append(i) && i < |call.plan.entries|
    ensures Calm(db, AppendLine(db, call, i))
  {
  }

  lemma TakingCalm(s: State, c: CallId, s': State)
    requires Alive(s, c) && Calm(s.db, s.calls[c]) && DoStep(s, c) == Some(s')
    requires PcFits(s.calls[c]) && TxFits(s.db, s.calls[c])
    requires s.calls[c].pc !in {Commit, SetStatus} && QuietLine(s.db, s.calls[c]).None?
    ensures s'.db == s.db && c in s'.calls && Calm(s.db, s'.calls[c])
  {
    match s.calls[c].pc
    case Append(i) => AppendCalm(s.db, s.calls[c], i);
    case Compare(_) => CompareCalm(s.db, s.calls[c]);
    case _ =>
  }

  lemma FaultCalm(db: Db, call: Call)
    requires PcFits(call) && Calm(db, call) && FaultLine(call).Some?
    ensures Calm(db, FaultLine(call).value)
  {
  }

  /** A call's own steps never make its read stale. */
  lemma ActorCalm(s: State, ev: Event, s': State, c: CallId)
    requires Step(s, ev) == Some(s') && ActorOf(ev) == Some(c) && c in s.calls && Calm(s.db, s.calls[c])
    requires PcFits(s.calls[c]) && TxFits(s.db, s.calls[c])
    ensures c in s'.calls && Calm(s'.db, s'.calls[c])
  {
    if ev.Do? && QuietLine(s.db, s.calls[c]).Some? {
      QuietCalm(s.db, s.calls[c]);
    } else if ev.Do? && s.calls[c].pc !in {Commit, SetStatus} {
      TakingCalm(s, c, s');
    } else if ev.Fault? {
      FaultCalm(s.db, s.calls[c]);
    }
  }

  lemma ApplyKeepsBalance(d: Db, a: Action, w: WalletId)
    requires Applies(d, a) && w in d.wallets && !Touches(a, w)
    ensures w in Apply(d, a).wallets && Apply(d, a).wallets[w].balance == d.wallets[w].balance
  {
  }

  /** What changes a wallet is a call at work on it. */
  lemma TouchesAtWork(s: State, ev: Event, w: WalletId)
    requires Inv(s) && Step(s, ev).Some? && EffectOf(s, ev).Some? && Touches(EffectOf(s, ev).value, w)
    ensures ActorOf(ev) == Some(ev.c) && ev.c in s.calls && w in LockOrder(s.calls[ev.c].req)
    ensures s.calls[ev.c].alive ==> AtWork(s.calls[ev.c])
  {
    EffectIsRequest(s, ev);
  }

  /** A live call of the same process cannot commit a change of the wallet meanwhile. */
  lemma NotFromInside(s: State, ev: Event, c: CallId)
    requires Inv(s) && Step(s, ev).Some? && ActorOf(ev) != Some(c) && !Overtakes(s, ev, c)
    requires Alive(s, c) && s.calls[c].req.Delta? && InTransaction(s.calls[c].pc) && EffectOf(s, ev).Some?
    ensures !Touches(EffectOf(s, ev).value, s.calls[c].req.wallet)
  {
    var w := s.calls[c].req.wallet;
    if Touches(EffectOf(s, ev).value, w) {
      TouchesAtWork(s, ev, w);
      OneAtWork(s, c, ev.c, w);
    }
  }

  lemma OthersCalm(s: State, ev: Event, s': State, c: CallId)
    requires Inv(s) && Step(s, ev) == Some(s') && ActorOf(ev) != Some(c) && c in s.calls
    requires Calm(s.db, s.calls[c]) && !Overtakes(s, ev, c)
    ensures c in s'.calls && Calm(s'.db, s'.calls[c])
  {
    StepRefines(s, ev, s');
    OthersFollow(s, ev, s', c);
    var call := s.calls[c];
    if call.req.Delta? && call.alive && InTransaction(call.pc) && EffectOf(s, ev).Some? {
      NotFromInside(s, ev, c);
      ApplyKeepsBalance(s.db, EffectOf(s, ev).value, call.req.wallet);
    }
  }

  lemma CalmStep(s: State, ev: Event, s': State, c: CallId)
    requires Inv(s) && Step(s, ev) == Some(s') && c in s'.calls
    requires c in s.calls ==> Calm(s.db, s.calls[c])
    requires !Overtakes(s, ev, c)
    ensures Calm(s'.db, s'.calls[c])
  {
    if c !in s.calls {
      NewCall(s, ev, s', c);
    } else if ActorOf(ev) == Some(c) {
      assert CallInv(s.db, s.tables, s.calls[c]);
      ActorCalm(s, ev, s', c);
    } else {
      OthersCalm(s, ev, s', c);
    }
  }

  /** The n-th step of the run overtakes c. */
  ghost predicate OvertakenAt(s: State, evs: seq<Event>, n: nat, c: CallId) {
    && n < |evs| && Run(s, evs[..n]).Some?
    && Overtakes(Run(s, evs[..n]).value, evs[n], c)
  }

  /** Over any run c stays calm, or some step overtakes it. */
  lemma {:induction false} CalmRun(s: State, evs: seq<Event>, c: CallId)
    requires Inv(s) && Run(s, evs).Some? && (c in s.calls ==> Calm(s.db, s.calls[c]))
    requires forall n: nat :: !OvertakenAt(s, evs, n, c)
    ensures c in Run(s, evs).value.calls ==> Calm(Run(s, evs).value.db, Run(s, evs).value.calls[c])
  {
    if evs != [] {
      var last := |evs| - 1;
      var front := evs[..last];
      forall n: nat
        ensures !OvertakenAt(s, front, n, c)
      {
        if OvertakenAt(s, front, n, c) {
          assert front[..n] == evs[..n];
          assert OvertakenAt(s, evs, n, c);
        }
      }
      RunRefines(s, front);
      CalmRun(s, front, c);
      assert !OvertakenAt(s, evs, last, c);
      if c in Run(s, evs).value.calls {
        CalmStep(Run(s, front).value, evs[last], Run(s, evs).value, c);
      }
    }
  }

  /** In every run with any number of processes: a topup or payment fails with
      ErrOptimisticLock only if, after its read, a call of another process or one
      whose process or connection was gone committed a change of its wallet. */
  lemma {:induction false} RaceLostToOutsider(evs: seq<Event>, c: CallId) returns (n: nat)
    requires Run(INIT, evs).Some? && c in Run(INIT, evs).value.calls && Run(INIT, evs).value.calls[c].req.Delta?
    requires Run(INIT, evs).value.calls[c].outcome == Failed(OptimisticLock)
    ensures OvertakenAt(INIT, evs, n, c)
  {
    InitHolds();
    if forall m: nat :: !OvertakenAt(INIT, evs, m, c) {
      CalmRun(INIT, evs, c);
    }
    n :| OvertakenAt(INIT, evs, n, c);
  }

  // ---- one process --------------------------------------------------------

  /** Without broken connections only crashes leave dead calls. */
  lemma {:induction false} DeadByCrash(evs: seq<Event>, d: CallId)
    requires Run(INIT, evs).Some? && d in Run(INIT, evs).value.calls && !Run(INIT, evs).value.calls[d].alive
    requires forall i | 0 <= i < |evs| :: !evs[i].Disconnect?
    ensures Run(INIT, evs).value.calls[d].proc in Run(INIT, evs).value.crashed
  {
    var last := |evs| - 1;
    var front, t := evs[..last], Run(INIT, evs).value;
    var s := Run(INIT, front).value;
    if d !in s.calls {
      NewCall(s, evs[last], t, d);
    } else {
      StepFollows(s, evs[last], t, d);
      DeathCause(s, evs[last], t, d);
      if !s.calls[d].alive {
        DeadByCrash(front, d);
      }
    }
  }

  lemma DoLives(s: State, d: CallId, t: State)
    requires d in s.calls && DoStep(s, d) == Some(t)
    ensures d in t.calls && t.calls[d].alive == s.calls[d].alive && t.crashed == s.crashed
  {
    if QuietLine(s.db, s.calls[d]).Some? {
      QuietLineSame(s.db, s.calls[d]);
    } else {
      TakingLives(s, d, t);
    }
  }

  lemma TakingLives(s: State, d: CallId, t: State)
    requires d in s.calls && DoStep(s, d) == Some(t) && QuietLine(s.db, s.calls[d]).None?
    ensures d in t.calls && t.calls[d].alive == s.calls[d].alive && t.crashed == s.crashed
  {
  }

  lemma CrashesStay(s: State, ev: Event, t: State)
    requires Step(s, ev) == Some(t)
    ensures s.crashed <= t.crashed
  {
    if ev.Do? {
      DoLives(s, ev.c, t);
    }
  }

  lemma DeathCause(s: State, ev: Event, t: State, d: CallId)
    requires Step(s, ev) == Some(t) && d in s.calls && d in t.calls && !ev.Disconnect?
    ensures s.crashed <= t.crashed
    ensures s.calls[d].alive && !t.calls[d].alive ==> s.calls[d].proc in t.crashed
  {
    CrashesStay(s, ev, t);
    if ActorOf(ev) != Some(d) {
      OthersFollow(s, ev, t, d);
    } else if ev.Do? {
      DoLives(s, d, t);
    }
  }

  /** In every run of one process without a broken connection no topup, payment
      or transfer fails with ErrOptimisticLock. */
  lemma {:induction false} NobodyLosesTheRace(evs: seq<Event>, p: ProcId, c: CallId)
    requires Run(INIT, evs).Some? && c in Run(INIT, evs).value.calls && MovesMoney(Run(INIT, evs).value.calls[c].req)
    requires forall d | d in Run(INIT, evs).value.calls :: Run(INIT, evs).value.calls[d].proc == p
    requires forall i | 0 <= i < |evs| :: !evs[i].Disconnect?
    ensures Run(INIT, evs).value.calls[c].outcome != Failed(OptimisticLock)
  {
    if Run(INIT, evs).value.calls[c].req.Transfer? {
      TransferNeverLosesTheRace(evs, c);
    } else if Run(INIT, evs).value.calls[c].outcome == Failed(OptimisticLock) {
      var n := RaceLostToOutsider(evs, c);
      NoOutsider(evs, n, p, c);
    }
  }

  lemma {:induction false} NoOutsider(evs: seq<Event>, n: nat, p: ProcId, c: CallId)
    requires Run(INIT, evs).Some? && n < |evs|
    requires forall d | d in Run(INIT, evs).value.calls :: Run(INIT, evs).value.calls[d].proc == p
    requires forall i | 0 <= i < |evs| :: !evs[i].Disconnect?
    ensures !OvertakenAt(INIT, evs, n, c)
  {
    if OvertakenAt(INIT, evs, n, c) {
      var u, d := Run(INIT, evs[..n]).value, evs[n].c;
      assert evs == evs[..n] + evs[n..];
      RunSplit(INIT, evs[..n], evs[n..]);
      CallStays(u, evs[n..], c);
      CallStays(u, evs[n..], d);
      InitHolds();
      RunRefines(INIT, evs[..n]);
      DeadByCrash(evs[..n], d);
    }
  }
}
