/** Theorems about whole runs of the concurrent machine, with any number of
    processes, crashes, faults and lost replies. */
module Guarantees {
  import opened Int64
  import opened Money
  import opened Ledger
  import opened LedgerProofs
  import opened AtomicProofs
  import opened Protocol
  import opened Invariant
  import opened Evolution
  import opened Preservation

  // ---- refinement ---------------------------------------------------------

  lemma InitHolds()
    ensures Inv(INIT)
  {
    assert DbInv(EMPTY_DB);
  }

  /** Refinement: every run of the interleaved system does to the database what
      a run of the atomic machine does, one whole request after another, in
      the order of the commits. */
  lemma {:induction false} RunRefines(s: State, evs: seq<Event>)
    requires Inv(s) && Run(s, evs).Some?
    ensures Inv(Run(s, evs).value)
    ensures AtomicRun(s.db, Effects(s, evs)) == Some(Run(s, evs).value.db)
  {
    if evs != [] {
      var front, ev := evs[..|evs| - 1], evs[|evs| - 1];
      var t := Run(s, front).value;
      RunRefines(s, front);
      StepRefines(t, ev, Run(s, evs).value);
      if EffectOf(t, ev).Some? {
        assert Effects(s, evs)[..|Effects(s, evs)| - 1] == Effects(s, front);
      } else {
        assert Effects(s, evs) == Effects(s, front);
      }
    }
  }

  /** The same from the empty deployment on. */
  lemma {:induction false} EveryRunIsAtomic(evs: seq<Event>)
    requires Run(INIT, evs).Some?
    ensures AtomicRun(EMPTY_DB, Effects(INIT, evs)) == Some(Run(INIT, evs).value.db)
  {
    InitHolds();
    RunRefines(INIT, evs);
  }

  lemma RunSnoc(s: State, evs: seq<Event>, t: State, ev: Event, t': State)
    requires Run(s, evs) == Some(t) && Step(t, ev) == Some(t')
    ensures Run(s, evs + [ev]) == Some(t')
  {
    assert (evs + [ev])[..|evs + [ev]| - 1] == evs;
  }

  lemma {:induction false} RunSplit(s: State, evs: seq<Event>, rest: seq<Event>)
    requires Run(s, evs + rest).Some?
    ensures Run(s, evs).Some? && Run(Run(s, evs).value, rest) == Run(s, evs + rest)
    decreases |rest|
  {
    if rest == [] {
      assert evs + rest == evs;
    } else {
      var front := rest[..|rest| - 1];
      assert (evs + rest)[..|evs + rest| - 1] == evs + front;
      RunSplit(s, evs, front);
    }
  }

  /** A call keeps its process and its request for good. */
  lemma {:induction false} CallStays(s: State, evs: seq<Event>, c: CallId)
    requires Run(s, evs).Some? && c in s.calls
    ensures var t := Run(s, evs).value;
            c in t.calls && t.calls[c].proc == s.calls[c].proc && t.calls[c].req == s.calls[c].req
  {
    if evs != [] {
      var front := evs[..|evs| - 1];
      CallStays(s, front, c);
      StepFollows(Run(s, front).value, evs[|evs| - 1], Run(s, evs).value, c);
    }
  }

  // ---- the committed database, in every run -------------------------------

  /** Reconciliation and overflow, in every reachable state: a wallet's ledger
      sum is never negative and never more than was topped up in its currency, and
      the cached balance is that sum if and only if the sum fits int64. */
  lemma {:induction false} BalancesInEveryRun(evs: seq<Event>, w: WalletId)
    requires Run(INIT, evs).Some? && w in Run(INIT, evs).value.db.wallets
    ensures var d := Run(INIT, evs).value.db;
            && 0 <= WalletSum(d.ledger, w) <= SumBy(d.ledger, TopupsIn(d.wallets[w].currency))
            && (d.wallets[w].balance == WalletSum(d.ledger, w) <==> WalletSum(d.ledger, w) <= MAX64)
  {
    InitHolds();
    RunRefines(INIT, evs);
    BalanceExact(Run(INIT, evs).value.db, w);
  }

  /** Conservation in every reachable state: all balances of a currency together
      are its topups minus its payments, in int64 arithmetic always and exactly
      while the topups fit int64; its ledger sums are always. */
  lemma {:induction false} ConservationInEveryRun(evs: seq<Event>, c: Currency)
    requires Run(INIT, evs).Some?
    ensures Conserved(Run(INIT, evs).value.db, c)
  {
    InitHolds();
    RunRefines(INIT, evs);
    Conservation(Run(INIT, evs).value.db, c);
  }

  /** At every point of the run all balances are exact and not negative. */
  predicate AlwaysExact(s: State, evs: seq<Event>)
    requires Run(s, evs).Some?
  {
    Exact(Run(s, evs).value.db) && (evs != [] ==> AlwaysExact(s, evs[..|evs| - 1]))
  }

  /** Every transfer the run committed credited a balance that fits int64. */
  predicate CreditsFit(s: State, evs: seq<Event>)
    requires Run(s, evs).Some?
  {
    evs != [] ==>
      var front := evs[..|evs| - 1];
      var t := Run(s, front).value;
      var effect := EffectOf(t, evs[|evs| - 1]);
      CreditsFit(s, front) && (effect.Some? ==> CreditFits(t.db, effect.value))
  }

  /** In every run: no balance is ever wrong or negative if and only if no
      committed transfer was one the missing overflow check would have refused. */
  lemma {:induction false} ExactInEveryRun(evs: seq<Event>)
    requires Run(INIT, evs).Some?
    ensures AlwaysExact(INIT, evs) <==> CreditsFit(INIT, evs)
  {
    if evs != [] {
      var front, ev := evs[..|evs| - 1], evs[|evs| - 1];
      var t := Run(INIT, front).value;
      ExactInEveryRun(front);
      InitHolds();
      RunRefines(INIT, front);
      StepRefines(t, ev, Run(INIT, evs).value);
      if EffectOf(t, ev).Some? && Exact(t.db) {
        ActionExact(t.db, EffectOf(t, ev).value);
      }
      assert AlwaysExact(INIT, front) ==> Exact(t.db);
    }
  }

  /** No momentary overdraft: in commit order, no prefix of the ledger leaves any
      wallet below zero, even in runs whose balances have wrapped. */
  lemma {:induction false} NoOverdraftInEveryRun(evs: seq<Event>, w: WalletId, n: nat)
    requires Run(INIT, evs).Some? && n <= |Run(INIT, evs).value.db.ledger|
    ensures WalletSum(Run(INIT, evs).value.db.ledger[..n], w) >= 0
  {
    InitHolds();
    RunRefines(INIT, evs);
  }

  /** In every reachable ledger the debit and credit legs of transfers match one to one. */
  lemma {:induction false} TransfersPairInEveryRun(evs: seq<Event>, i: nat) returns (j: nat)
    requires Run(INIT, evs).Some?
    requires i < |Run(INIT, evs).value.db.ledger|
    requires Run(INIT, evs).value.db.ledger[i].op in {TransferOut, TransferIn}
    ensures var d := Run(INIT, evs).value.db;
            && EntriesKnown(d) && j < |d.ledger|
            && (d.ledger[i].op == TransferOut ==>
                  && LegsOfOne(d, i, j)
                  && forall k | 0 <= k < |d.ledger| && d.ledger[k].key == d.ledger[i].key + CREDIT_SUFFIX :: k == j)
            && (d.ledger[i].op == TransferIn ==>
                  && LegsOfOne(d, j, i)
                  && forall k | 0 <= k < |d.ledger| && d.ledger[i].key == d.ledger[k].key + CREDIT_SUFFIX :: k == j)
  {
    InitHolds();
    RunRefines(INIT, evs);
    var d := Run(INIT, evs).value.db;
    if d.ledger[i].op == TransferOut {
      j := DebitHasOneCredit(d, i);
    } else {
      j := CreditHasOneDebit(d, i);
    }
  }

  // ---- history ------------------------------------------------------------

  /** What no step ever takes back. */
  predicate Extends(s: State, s': State) {
    && s.db.ledger <= s'.db.ledger
    && TablesGrow(s.tables, s'.tables)
    && (forall w | w in s.db.wallets ::
          && w in s'.db.wallets
          && s'.db.wallets[w].owner == s.db.wallets[w].owner
          && s'.db.wallets[w].currency == s.db.wallets[w].currency
          && (s.db.wallets[w].status == Suspended ==> s'.db.wallets[w].status == Suspended))
  }

  lemma ApplyExtends(d: Db, a: Action)
    requires Applies(d, a)
    ensures d.ledger <= Apply(d, a).ledger
    ensures forall w | w in d.wallets ::
              && w in Apply(d, a).wallets
              && Apply(d, a).wallets[w].owner == d.wallets[w].owner
              && Apply(d, a).wallets[w].currency == d.wallets[w].currency
              && (d.wallets[w].status == Suspended ==> Apply(d, a).wallets[w].status == Suspended)
  {
  }

  /** The ledger only grows at its end, suspended wallets stay suspended, and a
      mutex once handed out by lockFor is never replaced, over any run. */
  lemma {:induction false} RunExtends(s: State, evs: seq<Event>)
    requires Inv(s) && Run(s, evs).Some?
    ensures Extends(s, Run(s, evs).value)
  {
    if evs != [] {
      var front, ev := evs[..|evs| - 1], evs[|evs| - 1];
      var t, s' := Run(s, front).value, Run(s, evs).value;
      RunExtends(s, front);
      RunRefines(s, front);
      StepRefines(t, ev, s');
      StepTables(t, ev, s');
      if EffectOf(t, ev).Some? {
        ApplyExtends(t.db, EffectOf(t, ev).value);
      }
    }
  }

  /** A wallet's listed history is only ever extended, over any run. */
  lemma {:induction false} HistoryInEveryRun(s: State, evs: seq<Event>, w: WalletId)
    requires Inv(s) && Run(s, evs).Some?
    ensures EntriesOf(s.db.ledger, w) <= EntriesOf(Run(s, evs).value.db.ledger, w)
  {
    RunExtends(s, evs);
    HistoryGrows(s.db.ledger, Run(s, evs).value.db.ledger, w);
  }

  /** The entries a run added to the ledger. */
  function Added(l: seq<Entry>, l': seq<Entry>): seq<Entry>
    requires |l| <= |l'|
  {
    l'[|l|..]
  }

  lemma SameMultiset(l: seq<Entry>, m: seq<Entry>, m': seq<Entry>)
    requires l <= m && l <= m' && multiset(Added(l, m)) == multiset(Added(l, m'))
    ensures multiset(m) == multiset(m')
  {
    assert m == l + Added(l, m) && m' == l + Added(l, m');
  }

  /** Order independence: two runs from one state that commit the same entries,
      in whatever order and interleaving, end with the same balances. */
  lemma {:induction false} RunsOrderIndependent(s: State, evs: seq<Event>, evs': seq<Event>, w: WalletId)
    requires Inv(s) && Run(s, evs).Some? && Run(s, evs').Some?
    requires var d, d' := Run(s, evs).value.db, Run(s, evs').value.db;
             && w in d.wallets && w in d'.wallets
             && |s.db.ledger| <= |d.ledger| && |s.db.ledger| <= |d'.ledger|
             && multiset(Added(s.db.ledger, d.ledger)) == multiset(Added(s.db.ledger, d'.ledger))
    ensures Run(s, evs).value.db.wallets[w].balance == Run(s, evs').value.db.wallets[w].balance
  {
    RunRefines(s, evs);
    RunRefines(s, evs');
    RunExtends(s, evs);
    RunExtends(s, evs');
    SameMultiset(s.db.ledger, Run(s, evs).value.db.ledger, Run(s, evs').value.db.ledger);
    OrderIndependent(Run(s, evs).value.db, Run(s, evs').value.db, w);
  }

  // ---- exactly once -------------------------------------------------------

  /** Each effect belongs to one call, is that call's own request, and leaves the call settled. */
  predicate Attributed(t: State, doers: seq<CallId>, effects: seq<Action>)
    requires |doers| == |effects|
  {
    forall i | 0 <= i < |doers| :: AttributedAt(t, doers[i], effects[i])
  }

  predicate AttributedAt(t: State, c: CallId, a: Action) {
    c in t.calls && Settled(t.calls[c]) && EffectOfRequest(a, t.calls[c].req)
  }

  predicate NoRepeats(doers: seq<CallId>) {
    forall i, j | 0 <= i < j < |doers| :: doers[i] != doers[j]
  }

  predicate SuccessesActed(t: State, doers: seq<CallId>) {
    forall c | c in t.calls && t.calls[c].outcome == Success :: c in doers
  }

  lemma StillAttributed(t: State, ev: Event, t': State, c: CallId, a: Action)
    requires Step(t, ev) == Some(t') && AttributedAt(t, c, a)
    ensures AttributedAt(t', c, a)
  {
    StepFollows(t, ev, t', c);
  }

  lemma NewlyAttributed(t: State, ev: Event, t': State)
    requires forall c | c in t.calls :: PcFits(t.calls[c])
    requires Step(t, ev) == Some(t') && EffectOf(t, ev).Some?
    ensures ActorOf(ev) == Some(ev.c) && ev.c in t.calls && !Settled(t.calls[ev.c])
    ensures AttributedAt(t', ev.c, EffectOf(t, ev).value)
  {
    EffectIsRequest(t, ev);
    StepFollows(t, ev, t', ev.c);
  }

  lemma SuccessesStillActed(t: State, ev: Event, t': State, doers: seq<CallId>, doers': seq<CallId>)
    requires Step(t, ev) == Some(t') && SuccessesActed(t, doers)
    requires doers' == doers + if EffectOf(t, ev).Some? then [ev.c] else []
    ensures SuccessesActed(t', doers')
  {
    forall c | c in t'.calls && t'.calls[c].outcome == Success
      ensures c in doers'
    {
      if c in t.calls {
        StepFollows(t, ev, t', c);
      } else {
        NewCall(t, ev, t', c);
      }
    }
  }

  lemma AllPcsFit(s: State, evs: seq<Event>)
    requires Inv(s) && Run(s, evs).Some?
    ensures forall c | c in Run(s, evs).value.calls :: PcFits(Run(s, evs).value.calls[c])
  {
    RunRefines(s, evs);
  }

  /** Accounting: in every run each effect belongs to one call and is that call's
      own request, no call takes effect twice, a call that succeeded did take
      effect, and one that took effect either succeeded or reports a storage
      error. So a business rejection or a replay never moved any money. */
  lemma {:induction false} Accounting(s: State, evs: seq<Event>)
    requires Inv(s) && s.calls == map[] && Run(s, evs).Some?
    ensures Attributed(Run(s, evs).value, Doers(s, evs), Effects(s, evs))
    ensures NoRepeats(Doers(s, evs))
    ensures SuccessesActed(Run(s, evs).value, Doers(s, evs))
  {
    if evs != [] {
      var front, ev := evs[..|evs| - 1], evs[|evs| - 1];
      var t, t' := Run(s, front).value, Run(s, evs).value;
      Accounting(s, front);
      AllPcsFit(s, front);
      var doers, effects := Doers(s, front), Effects(s, front);
      forall i | 0 <= i < |doers|
        ensures AttributedAt(t', doers[i], effects[i])
      {
        StillAttributed(t, ev, t', doers[i], effects[i]);
      }
      if EffectOf(t, ev).Some? {
        NewlyAttributed(t, ev, t');
        assert forall i | 0 <= i < |doers| :: AttributedAt(t, doers[i], effects[i]);
      }
      SuccessesStillActed(t, ev, t', doers, Doers(s, evs));
    }
  }

  /** The calls that reported success, first hand or as a replay. */
  predicate ReportsSuccess(t: State, c: CallId) {
    c in t.calls && MovesMoney(t.calls[c].req) && t.calls[c].outcome in {Success, Replayed}
  }

  /** At most once: in every run, however often, wherever and through whatever
      faults a key is retried, no two committed applications share a key. */
  lemma {:induction false} AtMostOnce(evs: seq<Event>)
    requires Run(INIT, evs).Some?
    ensures forall i, j | 0 <= i < j < |Effects(INIT, evs)| ::
              KeysOf(Effects(INIT, evs)[i]) !! KeysOf(Effects(INIT, evs)[j])
    ensures KeysUnique(Run(INIT, evs).value.db.ledger)
  {
    InitHolds();
    RunRefines(INIT, evs);
    forall i, j | 0 <= i < j < |Effects(INIT, evs)|
      ensures KeysOf(Effects(INIT, evs)[i]) !! KeysOf(Effects(INIT, evs)[j])
    {
      KeysAppliedOnce(EMPTY_DB, Effects(INIT, evs), i, j);
    }
  }

  /** Exactly once: when a call reports success, one and only one committed
      application carries its key, and the key is in the ledger. */
  lemma {:induction false} ExactlyOnce(evs: seq<Event>, c: CallId) returns (i: nat)
    requires Run(INIT, evs).Some? && ReportsSuccess(Run(INIT, evs).value, c)
    ensures var key, effects := KeyOf(Run(INIT, evs).value.calls[c].req), Effects(INIT, evs);
            && i < |effects| && key in KeysOf(effects[i])
            && (forall j | 0 <= j < |effects| && key in KeysOf(effects[j]) :: j == i)
            && HasKey(Run(INIT, evs).value.db.ledger, key)
  {
    InitHolds();
    RunRefines(INIT, evs);
    var key, effects := KeyOf(Run(INIT, evs).value.calls[c].req), Effects(INIT, evs);
    assert CallInv(Run(INIT, evs).value.db, Run(INIT, evs).value.tables, Run(INIT, evs).value.calls[c]);
    i := KeysComeFromActions(effects, key);
    forall j | 0 <= j < |effects| && key in KeysOf(effects[j])
      ensures j == i
    {
      if j < i {
        KeysAppliedOnce(EMPTY_DB, effects, j, i);
      } else if i < j {
        KeysAppliedOnce(EMPTY_DB, effects, i, j);
      }
    }
  }

  /** Every call that would write the key makes the same request. */
  predicate KeyIsFor(t: State, key: Key, req: Request) {
    forall d | d in t.calls && key in KeysOf(Perform(t.calls[d].req)) :: t.calls[d].req == req
  }

  lemma DoersRequest(t: State, doers: seq<CallId>, effects: seq<Action>, i: nat, key: Key)
    requires |doers| == |effects| && i < |effects| && Attributed(t, doers, effects) && key in KeysOf(effects[i])
    ensures doers[i] in t.calls && effects[i] == Perform(t.calls[doers[i]].req)
  {
    assert AttributedAt(t, doers[i], effects[i]);
  }

  /** Idempotency as a client sees it: if a key is only ever used for one
      request, then a success or a replay means that this very request has been
      applied once and only once. */
  lemma {:induction false} OwnRequestOnce(evs: seq<Event>, c: CallId) returns (i: nat)
    requires Run(INIT, evs).Some? && ReportsSuccess(Run(INIT, evs).value, c)
    requires var t := Run(INIT, evs).value;
             KeyIsFor(t, KeyOf(t.calls[c].req), t.calls[c].req)
    ensures var req, effects := Run(INIT, evs).value.calls[c].req, Effects(INIT, evs);
            && i < |effects| && effects[i] == Perform(req)
            && forall j | 0 <= j < |effects| && effects[j] == Perform(req) :: j == i
  {
    InitHolds();
    var t, effects := Run(INIT, evs).value, Effects(INIT, evs);
    var req := t.calls[c].req;
    i := ExactlyOnce(evs, c);
    Accounting(INIT, evs);
    DoersRequest(t, Doers(INIT, evs), effects, i, KeyOf(req));
    assert KeyOf(req) in KeysOf(Perform(req));
  }

  // ---- one wallet per owner and currency ----------------------------------

  lemma {:induction false} OpenedIsOwned(d: Db, actions: seq<Action>, i: nat)
    requires AtomicRun(d, actions).Some? && i < |actions| && actions[i].Open?
    ensures OwnsCurrency(AtomicRun(d, actions).value.wallets, actions[i].owner, actions[i].currency)
  {
    var n := |actions| - 1;
    var d1 := AtomicRun(d, actions[..n]).value;
    ApplyExtends(d1, actions[n]);
    if i < n {
      OpenedIsOwned(d, actions[..n], i);
      var w :| w in d1.wallets
               && d1.wallets[w].owner == actions[i].owner && d1.wallets[w].currency == actions[i].currency;
      assert w in AtomicRun(d, actions).value.wallets;
    } else {
      assert actions[i].id in AtomicRun(d, actions).value.wallets;
    }
  }

  lemma OpensOnce(d: Db, actions: seq<Action>, i: nat, j: nat)
    requires AtomicRun(d, actions).Some? && i < j < |actions| && actions[i].Open? && actions[j].Open?
    ensures actions[i].owner != actions[j].owner || actions[i].currency != actions[j].currency
    decreases |actions|
  {
    var n := |actions| - 1;
    if j < n {
      OpensOnce(d, actions[..n], i, j);
    } else {
      OpenedIsOwned(d, actions[..n], i);
    }
  }

  lemma TwoOpens(t: State, doers: seq<CallId>, effects: seq<Action>, i: nat, j: nat)
    requires |doers| == |effects| && i < |doers| && j < |doers| && Attributed(t, doers, effects)
    requires doers[i] in t.calls && doers[j] in t.calls
    requires t.calls[doers[i]].req.Create? && t.calls[doers[i]].req == t.calls[doers[j]].req
    ensures effects[i].Open? && effects[j].Open?
    ensures effects[i].owner == effects[j].owner && effects[i].currency == effects[j].currency
  {
    assert AttributedAt(t, doers[i], effects[i]) && AttributedAt(t, doers[j], effects[j]);
  }

  lemma CreatesActOnce(t: State, doers: seq<CallId>, effects: seq<Action>, i: nat, j: nat)
    requires |doers| == |effects| && i < |doers| && j < |doers| && i != j
    requires Attributed(t, doers, effects) && AtomicRun(EMPTY_DB, effects).Some?
    requires doers[i] in t.calls && doers[j] in t.calls && t.calls[doers[i]].req.Create?
    ensures t.calls[doers[i]].req != t.calls[doers[j]].req
  {
    if t.calls[doers[i]].req == t.calls[doers[j]].req {
      TwoOpens(t, doers, effects, i, j);
      OpensOnce(EMPTY_DB, effects, if i < j then i else j, if i < j then j else i);
    }
  }

  /** The check-then-insert race of CreateWallet is closed: of all the calls
      that ask for a wallet of one owner in one currency at most one succeeds. */
  lemma {:induction false} OneCreateSucceeds(evs: seq<Event>, c: CallId, c': CallId)
    requires Run(INIT, evs).Some?
    requires var t := Run(INIT, evs).value;
             && c in t.calls && c' in t.calls && c != c'
             && t.calls[c].req.Create? && t.calls[c'].req == t.calls[c].req
             && t.calls[c].outcome == Success
    ensures Run(INIT, evs).value.calls[c'].outcome != Success
  {
    InitHolds();
    RunRefines(INIT, evs);
    Accounting(INIT, evs);
    var t, doers := Run(INIT, evs).value, Doers(INIT, evs);
    var i :| 0 <= i < |doers| && doers[i] == c;
    if t.calls[c'].outcome == Success {
      var j :| 0 <= j < |doers| && doers[j] == c';
      CreatesActOnce(t, doers, Effects(INIT, evs), i, j);
    }
  }

  // ---- optimistic lock ----------------------------------------------------

  /** With any number of processes a transfer never fails the balance comparison. */
  lemma {:induction false} TransferNeverLosesTheRace(evs: seq<Event>, c: CallId)
    requires Run(INIT, evs).Some? && c in Run(INIT, evs).value.calls
    requires Run(INIT, evs).value.calls[c].req.Transfer?
    ensures Run(INIT, evs).value.calls[c].outcome != Failed(OptimisticLock)
  {
    InitHolds();
    RunRefines(INIT, evs);
  }
}
