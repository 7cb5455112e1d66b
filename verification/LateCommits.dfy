/** Exactly which calls can still move money on a wallet after its suspension. */
module LateCommits {
  import opened Int64
  import opened Ledger
  import opened Protocol
  import opened Invariant
  import opened Evolution
  import opened Preservation
  import opened Guarantees
  import opened Suspension
  import opened Realization

  /** Topup or payment c has passed its check on w, is running or has sent its
      COMMIT, its key is unused, and its plan is made for the balance w has now. */
  predicate CanStillCommit(s: State, c: CallId, w: WalletId) {
    && PastCheck(s, c, w) && w in s.db.wallets
    && var call := s.calls[c];
       && (call.alive || call.pc == Commit)
       && KeyFree(s.db.ledger, call.req.key)
       && DeltaPlan(w, s.db.wallets[w].currency, s.db.wallets[w].balance,
                    call.req.amount, call.req.direction, call.req.key)
          == Ok(call.plan)
  }

  /** Some continuation changes the wallet's balance or ledger. */
  predicate Changes(s: State, evs: seq<Event>, w: WalletId) {
    Run(s, evs).Some? && exists i | 0 <= i < |Effects(s, evs)| :: Touches(Effects(s, evs)[i], w)
  }

  ghost predicate CanChange(s: State, w: WalletId) {
    exists evs :: Changes(s, evs, w)
  }

  // ---- only such a call can -----------------------------------------------

  /** A call past its check after a run was past it before, with the same plan;
      and a dead one has not got as far as its commit since. */
  lemma {:induction false} PlanStays(s: State, evs: seq<Event>, c: CallId, w: WalletId)
    requires Inv(s) && IsSuspended(s, w) && Run(s, evs).Some? && PastCheck(Run(s, evs).value, c, w)
    ensures PastCheck(s, c, w)
    ensures var call, call' := s.calls[c], Run(s, evs).value.calls[c];
            && call'.plan == call.plan && call'.req == call.req
            && (call'.pc == Commit ==> call.alive || call.pc == Commit)
            && (!call.alive && call.pc != Commit ==> !call'.alive)
  {
    if evs != [] {
      var front, ev := evs[..|evs| - 1], evs[|evs| - 1];
      var t := Run(s, front).value;
      RunRefines(s, front);
      RunExtends(s, front);
      if !PastCheck(t, c, w) {
        CheckStopsIt(t, ev, Run(s, evs).value, c, w);
      }
      PlanStays(s, front, c, w);
      PlanStep(t, ev, Run(s, evs).value, c, w);
    }
  }

  lemma PlanStep(t: State, ev: Event, t': State, c: CallId, w: WalletId)
    requires Inv(t) && Step(t, ev) == Some(t') && PastCheck(t, c, w) && PastCheck(t', c, w)
    ensures t'.calls[c].plan == t.calls[c].plan && t'.calls[c].req == t.calls[c].req
    ensures !t.calls[c].alive ==> !t'.calls[c].alive && t'.calls[c].pc == t.calls[c].pc
  {
    assert CallInv(t.db, t.tables, t.calls[c]);
    StepFollows(t, ev, t', c);
  }

  predicate Untouched(s: State, evs: seq<Event>, w: WalletId)
    requires Run(s, evs).Some?
  {
    forall i | 0 <= i < |Effects(s, evs)| :: !Touches(Effects(s, evs)[i], w)
  }

  lemma UntouchedFront(s: State, evs: seq<Event>, w: WalletId)
    requires evs != [] && Run(s, evs).Some? && Untouched(s, evs, w)
    ensures Untouched(s, evs[..|evs| - 1], w)
    ensures var a := EffectOf(Run(s, evs[..|evs| - 1]).value, evs[|evs| - 1]);
            a.Some? ==> !Touches(a.value, w)
  {
    var front := evs[..|evs| - 1];
    var effects := Effects(s, front);
    forall i | 0 <= i < |effects|
      ensures !Touches(effects[i], w)
    {
      assert Effects(s, evs)[i] == effects[i];
    }
    if EffectOf(Run(s, front).value, evs[|evs| - 1]).Some? {
      assert Effects(s, evs)[|effects|] == EffectOf(Run(s, front).value, evs[|evs| - 1]).value;
    }
  }

  /** Nothing touched the wallet, so it is the same. */
  lemma {:induction false} UntouchedSame(s: State, evs: seq<Event>, w: WalletId)
    requires Inv(s) && IsSuspended(s, w) && Run(s, evs).Some? && Untouched(s, evs, w)
    ensures SameWalletHistory(s.db, Run(s, evs).value.db, w)
  {
    if evs != [] {
      var front, ev := evs[..|evs| - 1], evs[|evs| - 1];
      var t := Run(s, front).value;
      UntouchedFront(s, evs, w);
      UntouchedSame(s, front, w);
      RunRefines(s, front);
      StepRefines(t, ev, Run(s, evs).value);
      if EffectOf(t, ev).Some? {
        ApplyElsewhere(t.db, EffectOf(t, ev).value, w);
      }
    }
  }

  /** What a call that is committing on w says about the state. */
  lemma AtCommit(t: State, ev: Event, w: WalletId)
    requires Inv(t) && Step(t, ev).Some? && IsSuspended(t, w)
    requires EffectOf(t, ev).Some? && Touches(EffectOf(t, ev).value, w)
    ensures PastCheck(t, ev.c, w) && t.calls[ev.c].pc == Commit && CanStillCommit(t, ev.c, w)
  {
    EffectIsRequest(t, ev);
    SuspendedEffect(t, ev, Step(t, ev).value, w);
    CommitReady(t.db, t.tables, t.calls[ev.c]);
  }

  lemma CommitReady(db: Db, tables: Tables, call: Call)
    requires CallInv(db, tables, call) && call.pc == Commit && call.req.Delta?
    ensures FreshPlanFits(db, call) && KeyFree(db.ledger, call.req.key)
  {
    assert call.tx.pending[0].key == call.req.key;
  }

  lemma KeyFreeBefore(l: seq<Entry>, l': seq<Entry>, key: Key)
    requires l <= l' && KeyFree(l', key)
    ensures KeyFree(l, key)
  {
    if HasKey(l, key) {
      HasKeyGrows(l, l', key);
    }
  }

  /** The first later change of the wallet is made by a call that could already commit. */
  lemma {:induction false} FirstChange(s: State, evs: seq<Event>, w: WalletId) returns (c: CallId)
    requires Inv(s) && IsSuspended(s, w) && Changes(s, evs, w)
    ensures CanStillCommit(s, c, w)
    decreases |evs|
  {
    var front, ev := evs[..|evs| - 1], evs[|evs| - 1];
    var t := Run(s, front).value;
    if Changes(s, front, w) {
      c := FirstChange(s, front, w);
    } else {
      assert Untouched(s, front, w);
      LastTouches(s, evs, w);
      c := ev.c;
      RunRefines(s, front);
      RunExtends(s, front);
      UntouchedSame(s, front, w);
      AtCommit(t, ev, w);
      PlanStays(s, front, c, w);
      KeyFreeBefore(s.db.ledger, t.db.ledger, t.calls[c].req.key);
    }
  }

  lemma LastTouches(s: State, evs: seq<Event>, w: WalletId)
    requires evs != [] && Changes(s, evs, w) && Untouched(s, evs[..|evs| - 1], w)
    ensures var a := EffectOf(Run(s, evs[..|evs| - 1]).value, evs[|evs| - 1]);
            a.Some? && Touches(a.value, w)
  {
    var effects := Effects(s, evs[..|evs| - 1]);
    assert forall i | 0 <= i < |effects| :: Effects(s, evs)[i] == effects[i] && !Touches(effects[i], w);
  }

  // ---- and every such call can --------------------------------------------

  function Busy(s: State, c: CallId): set<CallId> {
    set d | d in s.calls && d != c && s.calls[d].tx != NO_TX
  }

  /** A call with an open transaction is in it or about to undo it. */
  lemma OpenTransaction(db: Db, tables: Tables, call: Call)
    requires CallInv(db, tables, call) && call.tx != NO_TX
    ensures call.pc == Undo || (InTransaction(call.pc) && FaultLine(call) == Some(Abort(call, StorageError)))
  {
  }

  lemma RollBack(s: State, d: CallId, call: Call) returns (after: Call)
    requires d in s.calls && s.calls[d] == call && call.alive
    requires call.pc == Undo || FaultLine(call) == Some(Abort(call, StorageError))
    ensures after.tx == NO_TX && Leads(s, With(s, d, after))
  {
    LeadsNowhere(s);
    assert With(s, d, call) == s;
    var undoing := call;
    if call.pc != Undo {
      undoing := Abort(call, StorageError);
      LeadsOn(s, s, Fault(d), With(s, d, undoing));
    }
    after := UndoLine(undoing);
    QuietDo(s, s, d, undoing, after);
  }

  /** Any open transaction can be rolled back, by its own call or by the server. */
  lemma ClearOne(s: State, d: CallId) returns (call: Call)
    requires Inv(s) && d in s.calls && s.calls[d].tx != NO_TX
    ensures call.tx == NO_TX && Leads(s, With(s, d, call))
  {
    assert CallInv(s.db, s.tables, s.calls[d]);
    OpenTransaction(s.db, s.tables, s.calls[d]);
    if s.calls[d].alive {
      call := RollBack(s, d, s.calls[d]);
    } else {
      call := Gone(s.calls[d]);
      LeadsNowhere(s);
      LeadsOn(s, s, Reap(d), With(s, d, call));
    }
  }

  lemma BusyShrinks(s: State, c: CallId, d: CallId, call: Call)
    requires d in Busy(s, c) && call.tx == NO_TX
    ensures Busy(With(s, d, call), c) == Busy(s, c) - {d}
  {
  }

  lemma NobodyBusy(s: State, c: CallId)
    requires Busy(s, c) == {}
    ensures Idle(s, c)
  {
    assert forall d | d in s.calls && d != c :: d !in Busy(s, c);
  }

  lemma LeadsVia(s: State, t: State, u: State)
    requires Leads(s, t) && Leads(t, u)
    ensures Leads(s, u)
  {
    var evs :| Run(t, evs) == Some(u);
    LeadsTogether(s, t, u, evs);
  }

  lemma ClearStep(s: State, c: CallId) returns (s1: State)
    requires Inv(s) && c in s.calls && Busy(s, c) != {}
    ensures Leads(s, s1) && Inv(s1) && s1.db == s.db && c in s1.calls && s1.calls[c] == s.calls[c]
    ensures Busy(s1, c) < Busy(s, c)
  {
    var d :| d in Busy(s, c);
    var call := ClearOne(s, d);
    s1 := With(s, d, call);
    LeadsKeeps(s, s1);
    BusyShrinks(s, c, d, call);
  }

  /** All other transactions rolled back; nothing else has changed. */
  lemma {:induction false} ClearOthers(s: State, c: CallId) returns (t: State)
    requires Inv(s) && c in s.calls
    ensures Leads(s, t) && Inv(t) && t.db == s.db && c in t.calls && t.calls[c] == s.calls[c] && Idle(t, c)
    decreases Busy(s, c)
  {
    if Busy(s, c) == {} {
      t := s;
      LeadsNowhere(s);
      NobodyBusy(s, c);
    } else {
      var s1 := ClearStep(s, c);
      t := ClearOthers(s1, c);
      LeadsVia(s, s1, t);
    }
  }

  /** What a call that can still commit has to write. */
  lemma PlanExpects(s: State, c: CallId, w: WalletId)
    requires CanStillCommit(s, c, w)
    ensures var call := s.calls[c];
            && |call.plan.entries| == 1 && |call.plan.updates| == 1
            && KeyFree(s.db.ledger, call.plan.entries[0].key)
            && call.plan.updates[0].wallet == w && call.plan.updates[0].expected == s.db.wallets[w].balance
  {
  }

  lemma LinesOf(t: State, c: CallId, w: WalletId)
    requires Inv(t) && CanStillCommit(t, c, w)
    ensures var call := t.calls[c];
            && call.pc in {Begin, Append(0), Compare(0), Write(0), Commit}
            && (call.pc in {Begin, Append(0)} ==> call.tx == NO_TX)
            && (call.pc == Compare(0) ==> call.tx.writes == map[])
  {
    assert CallInv(t.db, t.tables, t.calls[c]);
    DeltaLines(t.db, t.tables, t.calls[c]);
  }

  lemma Here(t: State, c: CallId)
    requires c in t.calls
    ensures Leads(t, With(t, c, t.calls[c]))
  {
    assert With(t, c, t.calls[c]) == t;
    LeadsNowhere(t);
  }

  lemma DriveToCommit(t: State, c: CallId, w: WalletId, call: Call) returns (last: Call)
    requires Idle(t, c) && Leads(t, With(t, c, call)) && call.req.Delta? && call.req.wallet == w && w in t.db.wallets
    requires call.pc in {Begin, Append(0), Compare(0), Write(0), Commit} && (call.alive || call.pc == Commit)
    requires call.pc in {Begin, Append(0)} ==> call.tx == NO_TX
    requires call.pc == Compare(0) ==> call.tx.writes == map[]
    requires |call.plan.entries| == 1 && KeyFree(t.db.ledger, call.plan.entries[0].key) && |call.plan.updates| == 1
    requires call.plan.updates[0].wallet == w && call.plan.updates[0].expected == t.db.wallets[w].balance
    ensures Leads(t, With(t, c, last)) && last.pc == Commit && last.req == call.req
  {
    last := DriveToCompare(t, c, call);
    last := DriveFromCompare(t, c, w, last);
  }

  /** With the rows and keys free the call gets to its commit. */
  lemma CommitAlone(t: State, c: CallId, w: WalletId) returns (call: Call)
    requires Inv(t) && Idle(t, c) && CanStillCommit(t, c, w)
    ensures Leads(t, With(t, c, call)) && call.pc == Commit && call.req == t.calls[c].req
  {
    LinesOf(t, c, w);
    PlanExpects(t, c, w);
    Here(t, c);
    call := DriveToCommit(t, c, w, t.calls[c]);
  }

  lemma DriveToCompare(t: State, c: CallId, call: Call) returns (next: Call)
    requires Idle(t, c) && Leads(t, With(t, c, call)) && call.req.Delta? && (call.alive || call.pc == Commit)
    requires call.pc in {Begin, Append(0), Compare(0), Write(0), Commit}
    requires |call.plan.entries| == 1 && KeyFree(t.db.ledger, call.plan.entries[0].key)
    requires call.pc in {Begin, Append(0)} ==> call.tx == NO_TX
    requires call.pc == Compare(0) ==> call.tx.writes == map[]
    ensures Leads(t, With(t, c, next)) && next.pc in {Compare(0), Write(0), Commit}
    ensures next.req == call.req && next.plan == call.plan && (next.alive || next.pc == Commit)
    ensures next.pc == Compare(0) ==> next.tx.writes == map[]
  {
    next := call;
    if call.pc == Append(0) {
      AppendAlone(t, c, call);
      next := DeltaInserted(call);
    } else if call.pc == Begin {
      DeltaToCompare(t, t, c, call);
      next := DeltaInserted(call);
    }
  }

  /** The lines of a topup or payment past its check, and what it has done before them. */
  lemma DeltaLines(db: Db, tables: Tables, call: Call)
    requires CallInv(db, tables, call) && call.req.Delta? && InTransaction(call.pc)
    ensures call.pc in {Begin, Append(0), Compare(0), Write(0), Commit}
    ensures call.pc in {Begin, Append(0)} ==> call.tx == NO_TX
    ensures call.pc == Compare(0) ==> call.tx.writes == map[]
  {
  }

  lemma AppendAlone(t: State, c: CallId, call: Call)
    requires Leads(t, With(t, c, call)) && call.alive && call.pc == Append(0) && call.tx == NO_TX && Idle(t, c)
    requires |call.plan.entries| == 1 && KeyFree(t.db.ledger, call.plan.entries[0].key)
    ensures Leads(t, With(t, c, DeltaInserted(call)))
  {
    assert [] + [call.plan.entries[0]] == call.plan.entries;
    TakingDo(t, t, c, call, DeltaInserted(call));
  }

  lemma DriveFromCompare(t: State, c: CallId, w: WalletId, call: Call) returns (last: Call)
    requires Idle(t, c) && Leads(t, With(t, c, call)) && call.req.Delta? && call.req.wallet == w && w in t.db.wallets
    requires call.pc in {Compare(0), Write(0), Commit} && (call.alive || call.pc == Commit)
    requires |call.plan.updates| == 1 && (call.pc == Compare(0) ==> call.tx.writes == map[])
    requires call.plan.updates[0].wallet == w && call.plan.updates[0].expected == t.db.wallets[w].balance
    ensures Leads(t, With(t, c, last)) && last.pc == Commit && last.req == call.req
  {
    last := call;
    if call.pc == Compare(0) {
      var u := call.plan.updates[0];
      DeltaToCommit(t, t, c, call);
      last := call.(pc := Commit, tx := Tx(call.tx.rows + {u.wallet}, call.tx.pending, map[u.wallet := u.next]));
    } else if call.pc == Write(0) {
      last := WriteLine(call, 0);
      QuietDo(t, t, c, call, last);
    }
  }

  lemma EffectsSnoc(s: State, evs: seq<Event>, ev: Event)
    requires Run(s, evs).Some? && Step(Run(s, evs).value, ev).Some?
    requires EffectOf(Run(s, evs).value, ev).Some?
    ensures Run(s, evs + [ev]).Some?
    ensures Effects(s, evs + [ev]) == Effects(s, evs) + [EffectOf(Run(s, evs).value, ev).value]
  {
    assert (evs + [ev])[..|evs + [ev]| - 1] == evs;
  }

  /** The commit itself, by the call or behind its back. */
  lemma FinalCommit(u: State, c: CallId) returns (ev: Event)
    requires c in u.calls && u.calls[c].pc == Commit
    ensures Step(u, ev).Some? && EffectOf(u, ev) == Some(Perform(u.calls[c].req))
  {
    assert !Blocked(u, c);
    ev := if u.calls[c].alive then Do(c) else Land(c);
  }

  /** A call that can still commit does so in some continuation. */
  lemma CommitsLater(s: State, c: CallId, w: WalletId) returns (evs: seq<Event>)
    requires Inv(s) && CanStillCommit(s, c, w)
    ensures Changes(s, evs, w)
  {
    var t := ClearOthers(s, c);
    var call := CommitAlone(t, c, w);
    var u := With(t, c, call);
    LeadsVia(s, t, u);
    var front :| Run(s, front) == Some(u);
    var ev := FinalCommit(u, c);
    EffectsSnoc(s, front, ev);
    evs := front + [ev];
    assert Effects(s, evs)[|Effects(s, front)|] == Perform(call.req);
  }

  /** Exactly when a suspended wallet can still change, with any number of
      processes: some topup or payment on it has passed its check, is running or
      has sent its COMMIT, carries an unused key, and planned for the balance the
      wallet has now. */
  lemma {:induction false} SuspendedCanChange(s: State, w: WalletId)
    requires Inv(s) && IsSuspended(s, w)
    ensures CanChange(s, w) <==> exists c :: CanStillCommit(s, c, w)
  {
    if CanChange(s, w) {
      var evs :| Changes(s, evs, w);
      var c := FirstChange(s, evs, w);
    }
    if c :| CanStillCommit(s, c, w) {
      var evs := CommitsLater(s, c, w);
    }
  }

  /** The same in every reachable state. */
  lemma {:induction false} SuspendedCanChangeInEveryRun(evs: seq<Event>, w: WalletId)
    requires Run(INIT, evs).Some? && IsSuspended(Run(INIT, evs).value, w)
    ensures CanChange(Run(INIT, evs).value, w) <==> exists c :: CanStillCommit(Run(INIT, evs).value, c, w)
  {
    InitHolds();
    RunRefines(INIT, evs);
    SuspendedCanChange(Run(INIT, evs).value, w);
  }
}
