/** What a suspension stops: every later transfer, with any number of processes;
    and, with one process at a time, everything else. */
module Suspension {
  import opened Int64
  import opened Ledger
  import opened LedgerProofs
  import opened Protocol
  import opened Invariant
  import opened Evolution
  import opened Preservation
  import opened Guarantees
  import opened SingleProcess

  // ---- suspension, any number of processes --------------------------------

  predicate Touches(a: Action, w: WalletId) {
    match a
    case Perform(Delta(v, _, _, _)) => v == w
    case Perform(Transfer(from, to, _, _)) => from == w || to == w
    case _ => false
  }

  predicate IsSuspended(s: State, w: WalletId) {
    w in s.db.wallets && s.db.wallets[w].status == Suspended
  }

  /** A topup or payment on w that has passed its status check. */
  predicate PastCheck(s: State, c: CallId, w: WalletId) {
    && c in s.calls && s.calls[c].req.Delta? && s.calls[c].req.wallet == w
    && InTransaction(s.calls[c].pc)
  }

  lemma CheckStopsIt(s: State, ev: Event, s': State, c: CallId, w: WalletId)
    requires Inv(s) && Step(s, ev) == Some(s') && IsSuspended(s, w) && !PastCheck(s, c, w)
    ensures !PastCheck(s', c, w)
  {
    if c in s.calls {
      StepFollows(s, ev, s', c);
    } else if c in s'.calls {
      NewCall(s, ev, s', c);
    }
  }

  lemma {:induction false} OnlyLateDeltas(s: State, evs: seq<Event>, c: CallId, w: WalletId)
    requires Inv(s) && Run(s, evs).Some? && IsSuspended(s, w) && !PastCheck(s, c, w)
    ensures !PastCheck(Run(s, evs).value, c, w)
  {
    if evs != [] {
      var front, ev := evs[..|evs| - 1], evs[|evs| - 1];
      OnlyLateDeltas(s, front, c, w);
      RunRefines(s, front);
      RunExtends(s, front);
      CheckStopsIt(Run(s, front).value, ev, Run(s, evs).value, c, w);
    }
  }

  /** On a suspended wallet only a topup or payment past its check can still take effect. */
  lemma SuspendedEffect(t: State, ev: Event, t': State, w: WalletId)
    requires Inv(t) && Step(t, ev) == Some(t') && IsSuspended(t, w)
    requires EffectOf(t, ev).Some? && Touches(EffectOf(t, ev).value, w)
    ensures EffectOf(t, ev).value.Perform? && EffectOf(t, ev).value.req.Delta?
    ensures ActorOf(ev) == Some(ev.c) && PastCheck(t, ev.c, w)
  {
    StepRefines(t, ev, t');
    EffectIsRequest(t, ev);
  }

  lemma LastEffectLate(s: State, front: seq<Event>, ev: Event, w: WalletId)
    requires Inv(s) && IsSuspended(s, w) && Run(s, front).Some? && Step(Run(s, front).value, ev).Some?
    requires EffectOf(Run(s, front).value, ev).Some? && Touches(EffectOf(Run(s, front).value, ev).value, w)
    ensures EffectOf(Run(s, front).value, ev).value.Perform? && EffectOf(Run(s, front).value, ev).value.req.Delta?
    ensures ActorOf(ev) == Some(ev.c) && PastCheck(s, ev.c, w)
  {
    var t := Run(s, front).value;
    RunRefines(s, front);
    RunExtends(s, front);
    SuspendedEffect(t, ev, Step(t, ev).value, w);
    if !PastCheck(s, ev.c, w) {
      OnlyLateDeltas(s, front, ev.c, w);
    }
  }

  /** After a wallet is suspended no transfer touching it ever commits, in any
      process; and the only topups or payments that still can are those of calls
      that had already passed their status check when it was suspended. */
  lemma {:induction false} AfterSuspension(s: State, evs: seq<Event>, w: WalletId, i: nat)
    requires Inv(s) && Run(s, evs).Some? && IsSuspended(s, w)
    requires i < |Effects(s, evs)| && Touches(Effects(s, evs)[i], w)
    ensures Effects(s, evs)[i].Perform? && Effects(s, evs)[i].req.Delta?
    ensures PastCheck(s, Doers(s, evs)[i], w)
  {
    var front, ev := evs[..|evs| - 1], evs[|evs| - 1];
    if i < |Effects(s, front)| {
      AfterSuspension(s, front, w, i);
    } else {
      LastEffectLate(s, front, ev, w);
    }
  }

  /** The same for every run of the system in which the wallet is suspended at some point. */
  lemma {:induction false} AfterSuspensionInEveryRun(evs: seq<Event>, rest: seq<Event>, w: WalletId, i: nat)
    requires Run(INIT, evs).Some? && IsSuspended(Run(INIT, evs).value, w)
    requires Run(Run(INIT, evs).value, rest).Some? && i < |Effects(Run(INIT, evs).value, rest)|
    requires Touches(Effects(Run(INIT, evs).value, rest)[i], w)
    ensures var s := Run(INIT, evs).value;
            && Effects(s, rest)[i].Perform? && Effects(s, rest)[i].req.Delta?
            && PastCheck(s, Doers(s, rest)[i], w)
  {
    InitHolds();
    RunRefines(INIT, evs);
    AfterSuspension(Run(INIT, evs).value, rest, w, i);
  }

  // ---- nobody left to come late -------------------------------------------

  /** The wallet is suspended and no call that has passed its check can still commit. */
  predicate Quieted(s: State, w: WalletId) {
    && IsSuspended(s, w)
    && forall c | c in s.calls && PastCheck(s, c, w) :: !s.calls[c].alive && s.calls[c].pc != Commit
  }

  lemma StaysSuspended(s: State, ev: Event, s': State, w: WalletId)
    requires Inv(s) && Step(s, ev) == Some(s') && IsSuspended(s, w)
    ensures IsSuspended(s', w)
  {
    StepRefines(s, ev, s');
    if EffectOf(s, ev).Some? {
      ApplyExtends(s.db, EffectOf(s, ev).value);
    }
  }

  lemma QuietedStep(s: State, ev: Event, s': State, w: WalletId)
    requires Inv(s) && Step(s, ev) == Some(s') && Quieted(s, w)
    ensures Quieted(s', w)
  {
    StaysSuspended(s, ev, s', w);
    forall c | c in s'.calls && PastCheck(s', c, w)
      ensures !s'.calls[c].alive && s'.calls[c].pc != Commit
    {
      if !PastCheck(s, c, w) {
        CheckStopsIt(s, ev, s', c, w);
      } else {
        StepFollows(s, ev, s', c);
      }
    }
  }

  /** Wallet w and its ledger are the same in both databases. */
  predicate SameWalletHistory(d: Db, d': Db, w: WalletId) {
    && w in d.wallets && w in d'.wallets && d'.wallets[w] == d.wallets[w]
    && d.ledger <= d'.ledger
    && forall i | |d.ledger| <= i < |d'.ledger| :: d'.ledger[i].wallet != w
  }

  lemma ApplyElsewhere(d: Db, a: Action, w: WalletId)
    requires Applies(d, a) && w in d.wallets && d.wallets[w].status == Suspended && !Touches(a, w)
    ensures SameWalletHistory(d, Apply(d, a), w)
  {
  }

  lemma FrozenStep(s: State, ev: Event, s': State, w: WalletId)
    requires Inv(s) && Step(s, ev) == Some(s') && Quieted(s, w)
    ensures SameWalletHistory(s.db, s'.db, w)
  {
    StepRefines(s, ev, s');
    if EffectOf(s, ev).Some? {
      if Touches(EffectOf(s, ev).value, w) {
        EffectIsRequest(s, ev);
        SuspendedEffect(s, ev, s', w);
      } else {
        ApplyElsewhere(s.db, EffectOf(s, ev).value, w);
      }
    }
  }

  /** From a state in which nobody can come late any more, the wallet's row, its
      ledger entries and their sum never change again, in any number of processes. */
  lemma {:induction false} SuspensionFreezes(s: State, evs: seq<Event>, w: WalletId)
    requires Inv(s) && Quieted(s, w) && Run(s, evs).Some?
    ensures Quieted(Run(s, evs).value, w)
    ensures SameWalletHistory(s.db, Run(s, evs).value.db, w)
    ensures WalletSum(Run(s, evs).value.db.ledger, w) == WalletSum(s.db.ledger, w)
  {
    if evs != [] {
      var front, ev := evs[..|evs| - 1], evs[|evs| - 1];
      var t := Run(s, front).value;
      RunRefines(s, front);
      SuspensionFreezes(s, front, w);
      QuietedStep(t, ev, Run(s, evs).value, w);
      FrozenStep(t, ev, Run(s, evs).value, w);
    }
    SameSum(s.db, Run(s, evs).value.db, w);
  }

  lemma SameSum(d: Db, d': Db, w: WalletId)
    requires SameWalletHistory(d, d', w)
    ensures WalletSum(d'.ledger, w) == WalletSum(d.ledger, w)
  {
    var added := d'.ledger[|d.ledger|..];
    assert d'.ledger == d.ledger + added;
    SumByConcat(d.ledger, added, OfWallet(w));
    SumByNone(added, OfWallet(w));
  }

  // ---- one process at a time ----------------------------------------------

  /** A live topup or payment past its check is in its section; a dead one that
      is about to commit has the row. Neither lets a suspension through. */
  lemma NoSuspensionPast(s: State, c: CallId, d: CallId, w: WalletId, p: ProcId)
    requires Inv(s) && OneLive(s, p) && Alive(s, c) && !Blocked(s, c)
    requires s.calls[c].pc == SetStatus && s.calls[c].req == Suspend(w)
    requires PastCheck(s, d, w)
    ensures !s.calls[d].alive && s.calls[d].pc != Commit
  {
    var call := s.calls[d];
    assert CallInv(s.db, s.tables, call);
    if call.pc == Commit {
      NotWaiting(s, c, d);
    } else if call.alive {
      OneAtWork(s, c, d, w);
    }
  }

  /** A SuspendWallet call that takes effect while one process is live leaves
      nobody to come late. */
  lemma SuspendQuiets(s: State, s': State, c: CallId, w: WalletId)
    requires Inv(s) && SingleInstance(s) && Alive(s, c) && Step(s, Do(c)) == Some(s')
    requires s.calls[c].pc == SetStatus && s.calls[c].req == Suspend(w) && w in s.db.wallets
    ensures Quieted(s', w)
  {
    var p :| OneLive(s, p);
    forall d | d in s'.calls && PastCheck(s', d, w)
      ensures !s'.calls[d].alive && s'.calls[d].pc != Commit
    {
      OthersFollow(s, Do(c), s', d);
      NoSuspensionPast(s, c, d, w, p);
    }
  }

  lemma NewSuccess(s: State, ev: Event, s': State, c: CallId)
    requires Inv(s) && Step(s, ev) == Some(s') && c in s'.calls
    requires s'.calls[c].req.Suspend? && s'.calls[c].outcome == Success
    requires c !in s.calls || s.calls[c].outcome != Success
    ensures ev == Do(c) && Alive(s, c) && s.calls[c].pc == SetStatus && s.calls[c].req == s'.calls[c].req
    ensures s.calls[c].req.wallet in s.db.wallets
  {
    if c !in s.calls {
      NewCall(s, ev, s', c);
    } else {
      StepFollows(s, ev, s', c);
      assert CallInv(s.db, s.tables, s.calls[c]);
    }
  }

  /** With one process at a time, a SuspendWallet call that has returned success
      leaves nobody to come late. */
  lemma {:induction false} SuccessQuiets(evs: seq<Event>, c: CallId)
    requires Run(INIT, evs).Some? && OneAtATime(INIT, evs) && c in Run(INIT, evs).value.calls
    requires Run(INIT, evs).value.calls[c].req.Suspend? && Run(INIT, evs).value.calls[c].outcome == Success
    ensures Quieted(Run(INIT, evs).value, Run(INIT, evs).value.calls[c].req.wallet)
  {
    var front, ev, t := evs[..|evs| - 1], evs[|evs| - 1], Run(INIT, evs).value;
    var s := Run(INIT, front).value;
    InitHolds();
    RunRefines(INIT, front);
    if c in s.calls && s.calls[c].outcome == Success {
      StepFollows(s, ev, t, c);
      SuccessQuiets(front, c);
      QuietedStep(s, ev, t, s.calls[c].req.wallet);
    } else {
      NewSuccess(s, ev, t, c);
      SuspendQuiets(s, t, c, s.calls[c].req.wallet);
    }
  }

  /** In every run of a single instance, with crashes and restarts: once a
      SuspendWallet call has returned success, whatever runs, fails, crashes or
      starts after it, the wallet's row and its ledger stay as they are. */
  lemma {:induction false} FrozenAfterSuspend(evs: seq<Event>, rest: seq<Event>, c: CallId)
    requires Run(INIT, evs).Some? && OneAtATime(INIT, evs) && c in Run(INIT, evs).value.calls
    requires Run(INIT, evs).value.calls[c].req.Suspend? && Run(INIT, evs).value.calls[c].outcome == Success
    requires Run(INIT, evs + rest).Some?
    ensures SameWalletHistory(Run(INIT, evs).value.db, Run(INIT, evs + rest).value.db,
                              Run(INIT, evs).value.calls[c].req.wallet)
  {
    InitHolds();
    RunRefines(INIT, evs);
    RunSplit(INIT, evs, rest);
    SuccessQuiets(evs, c);
    SuspensionFreezes(Run(INIT, evs).value, rest, Run(INIT, evs).value.calls[c].req.wallet);
  }

  /** A SuspendWallet call that reported success did suspend its wallet. */
  lemma {:induction false} SuspendSucceeded(evs: seq<Event>, c: CallId)
    requires Run(INIT, evs).Some? && c in Run(INIT, evs).value.calls
    requires Run(INIT, evs).value.calls[c].req.Suspend? && Run(INIT, evs).value.calls[c].outcome == Success
    ensures IsSuspended(Run(INIT, evs).value, Run(INIT, evs).value.calls[c].req.wallet)
  {
    InitHolds();
    RunRefines(INIT, evs);
  }
}
