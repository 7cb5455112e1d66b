/** What becomes of a request sent again after its key was recorded: it is
    answered as done, takes nothing and changes nothing. */
module Retries {
  import opened Int64
  import opened Ledger
  import opened Protocol
  import opened Invariant
  import opened Evolution
  import opened Preservation
  import opened Guarantees

  /** A request whose key some entry already has. */
  predicate IsRetry(db: Db, req: Request) {
    && (req.Delta? || (req.Transfer? && req.from != req.to))
    && req.key != "" && exists e | e in db.ledger :: e.key == req.key
  }

  /** Its call: at most looking things up, empty-handed throughout. */
  predicate Retrying(db: Db, call: Call, req: Request) {
    && IsRetry(db, req) && call.req == req
    && call.tx == NO_TX && call.held == 0 && call.mutexes == []
    && match call.pc
       case Lookup => call.outcome == Running
       case Replay(id) =>
         && call.outcome == Running && req.Delta?
         && id in db.wallets && exists e | e in db.ledger :: e.key == req.key && e.wallet == id
       case Done => call.outcome in {Replayed, Failed(StorageError)}
       case _ => false
  }

  lemma RecordedKey(db: Db, req: Request)
    requires IsRetry(db, req)
    ensures HasKey(db.ledger, req.key) && KeyOf(req) == req.key
  {
    var e :| e in db.ledger && e.key == req.key;
    var i :| 0 <= i < |db.ledger| && db.ledger[i] == e;
  }

  lemma RetryGrows(db: Db, db': Db, call: Call, req: Request)
    requires Retrying(db, call, req) && db.ledger <= db'.ledger && db.wallets.Keys <= db'.wallets.Keys
    ensures Retrying(db', call, req)
  {
  }

  lemma RetryStarts(s: State, c: CallId, proc: ProcId, req: Request, s1: State)
    requires IsRetry(s.db, req) && Step(s, Start(c, proc, req)) == Some(s1)
    ensures c in s1.calls && Retrying(s1.db, s1.calls[c], req) && s1.calls[c].pc == Lookup && s1.calls[c].alive
  {
  }

  lemma LookupReplays(db: Db, call: Call, req: Request)
    requires Retrying(db, call, req) && call.pc == Lookup && EntriesKnown(db)
    ensures Retrying(db, LookupLine(db, call), req)
    ensures LookupLine(db, call).outcome != Failed(StorageError)
    ensures LookupLine(db, call).pc.Replay? || LookupLine(db, call).outcome == Replayed
  {
    RecordedKey(db, req);
    FoundWalletKnown(db, db.ledger, req.key);
    var w := WalletOfKey(db.ledger, req.key);
    var i :| 0 <= i < |db.ledger| && db.ledger[i].key == req.key && db.ledger[i].wallet == w;
    assert db.ledger[i] in db.ledger;
  }

  /** Only a storage error, a crash or a broken connection keeps a retry from its answer. */
  lemma RetryStep(s: State, ev: Event, s': State, c: CallId, req: Request)
    requires Inv(s) && Step(s, ev) == Some(s') && c in s.calls && Retrying(s.db, s.calls[c], req)
    requires ev == Fault(c) ==> s.calls[c].pc != Lookup
    ensures c in s'.calls && Retrying(s'.db, s'.calls[c], req)
    ensures s'.calls[c].outcome == Failed(StorageError) ==>
              s.calls[c].outcome == Failed(StorageError) || ev == Fault(c) || !s'.calls[c].alive
    ensures ActorOf(ev) == Some(c) ==> EffectOf(s, ev).None?
  {
    if ActorOf(ev) == Some(c) {
      RetryActs(s, ev, s', c, req);
    } else {
      RetryWaits(s, ev, s', c, req);
    }
  }

  lemma RetryActs(s: State, ev: Event, s': State, c: CallId, req: Request)
    requires EntriesKnown(s.db) && Step(s, ev) == Some(s') && c in s.calls && Retrying(s.db, s.calls[c], req)
    requires ActorOf(ev) == Some(c) && (ev == Fault(c) ==> s.calls[c].pc != Lookup)
    ensures c in s'.calls && Retrying(s'.db, s'.calls[c], req) && EffectOf(s, ev).None?
    ensures s'.calls[c].outcome == Failed(StorageError) ==>
              s.calls[c].outcome == Failed(StorageError) || ev == Fault(c) || !s'.calls[c].alive
  {
    StepFollows(s, ev, s', c);
    if s.calls[c].pc == Lookup && ev.Do? {
      LookupReplays(s.db, s.calls[c], req);
    }
  }

  lemma RetryWaits(s: State, ev: Event, s': State, c: CallId, req: Request)
    requires Inv(s) && Step(s, ev) == Some(s') && c in s.calls && Retrying(s.db, s.calls[c], req)
    requires ActorOf(ev) != Some(c)
    ensures c in s'.calls && Retrying(s'.db, s'.calls[c], req)
    ensures s'.calls[c].outcome == s.calls[c].outcome
  {
    OthersFollow(s, ev, s', c);
    StepRefines(s, ev, s');
    if EffectOf(s, ev).Some? {
      ApplyExtends(s.db, EffectOf(s, ev).value);
    }
    RetryGrows(s.db, s'.db, s.calls[c], req);
  }

  /** The run has a storage error at c's key lookup. */
  ghost predicate LookupFaulted(s: State, evs: seq<Event>, c: CallId) {
    exists n: nat :: n < |evs| && LookupFaultAt(s, evs, n, c)
  }

  predicate LookupFaultAt(s: State, evs: seq<Event>, n: nat, c: CallId)
    requires n < |evs|
  {
    && evs[n] == Fault(c) && Run(s, evs[..n]).Some?
    && c in Run(s, evs[..n]).value.calls && Run(s, evs[..n]).value.calls[c].pc == Lookup
  }

  predicate Lost(t: State, evs: seq<Event>, c: CallId) {
    c in t.calls && (!t.calls[c].alive || Fault(c) in evs)
  }

  lemma LastDoer(s: State, evs: seq<Event>, c: CallId)
    requires evs != [] && Run(s, evs).Some? && c !in Doers(s, evs[..|evs| - 1])
    requires var ev := evs[|evs| - 1];
             ActorOf(ev) == Some(c) ==> EffectOf(Run(s, evs[..|evs| - 1]).value, ev).None?
    ensures c !in Doers(s, evs)
  {
    var t, ev := Run(s, evs[..|evs| - 1]).value, evs[|evs| - 1];
    if EffectOf(t, ev).Some? {
      DoerIsActor(t, ev);
    }
  }

  /** One more step of a run in which c is a retry. */
  lemma RetryOn(t: State, ev: Event, t': State, front: seq<Event>, c: CallId, req: Request)
    requires Inv(t) && Step(t, ev) == Some(t') && c in t.calls && Retrying(t.db, t.calls[c], req)
    requires ev == Fault(c) ==> t.calls[c].pc != Lookup
    requires t.calls[c].outcome == Failed(StorageError) ==> Lost(t, front, c)
    ensures c in t'.calls && Retrying(t'.db, t'.calls[c], req)
    ensures t'.calls[c].outcome == Failed(StorageError) ==> Lost(t', front + [ev], c)
    ensures ActorOf(ev) == Some(c) ==> EffectOf(t, ev).None?
  {
    RetryStep(t, ev, t', c, req);
    StepFollows(t, ev, t', c);
  }

  lemma {:induction false} RetryRun(s: State, evs: seq<Event>, c: CallId, req: Request)
    requires Inv(s) && Run(s, evs).Some? && c in s.calls && Retrying(s.db, s.calls[c], req)
    requires s.calls[c].outcome == Running && !LookupFaulted(s, evs, c)
    ensures var t := Run(s, evs).value;
            && c in t.calls && Retrying(t.db, t.calls[c], req)
            && (t.calls[c].outcome == Failed(StorageError) ==> Lost(t, evs, c))
    ensures c !in Doers(s, evs)
  {
    if evs != [] {
      NoEarlierFault(s, evs, c);
      RetryRun(s, evs[..|evs| - 1], c, req);
      RunRefines(s, evs[..|evs| - 1]);
      RetryLast(s, evs, c, req);
      LastDoer(s, evs, c);
    }
  }

  lemma RetryLast(s: State, evs: seq<Event>, c: CallId, req: Request)
    requires evs != [] && Run(s, evs).Some? && !LookupFaulted(s, evs, c)
    requires var front := evs[..|evs| - 1];
             var t := Run(s, front).value;
             && Inv(t) && c in t.calls && Retrying(t.db, t.calls[c], req)
             && (t.calls[c].outcome == Failed(StorageError) ==> Lost(t, front, c))
    ensures var t := Run(s, evs).value;
            && c in t.calls && Retrying(t.db, t.calls[c], req)
            && (t.calls[c].outcome == Failed(StorageError) ==> Lost(t, evs, c))
    ensures var t, ev := Run(s, evs[..|evs| - 1]).value, evs[|evs| - 1];
            ActorOf(ev) == Some(c) ==> EffectOf(t, ev).None?
  {
    var last := |evs| - 1;
    assert !LookupFaultAt(s, evs, last, c) && evs == evs[..last] + [evs[last]];
    RetryOn(Run(s, evs[..last]).value, evs[last], Run(s, evs).value, evs[..last], c, req);
  }

  lemma NoEarlierFault(s: State, evs: seq<Event>, c: CallId)
    requires evs != [] && !LookupFaulted(s, evs, c)
    ensures !LookupFaulted(s, evs[..|evs| - 1], c)
  {
    var front := evs[..|evs| - 1];
    forall n: nat | n < |front|
      ensures !LookupFaultAt(s, front, n, c)
    {
      assert front[..n] == evs[..n];
      assert !LookupFaultAt(s, evs, n, c);
    }
  }

  lemma DoerIsActor(s: State, ev: Event)
    requires EffectOf(s, ev).Some?
    ensures ActorOf(ev) == Some(ev.c)
  {
  }

  /** Retries are replays: in every run with any number of processes, a topup,
      payment or transfer sent when its key is recorded takes no mutex, row or
      key, commits nothing, and once it is done has answered as done, unless it
      was lost to a storage error, a crash or a broken connection. */
  lemma {:induction false} RetryIsReplayed(evs: seq<Event>, rest: seq<Event>, c: CallId, proc: ProcId, req: Request,
                                           s1: State)
    requires Run(INIT, evs).Some? && IsRetry(Run(INIT, evs).value.db, req)
    requires Step(Run(INIT, evs).value, Start(c, proc, req)) == Some(s1)
    requires Run(s1, rest).Some? && !LookupFaulted(s1, rest, c)
    ensures var t := Run(s1, rest).value;
            && c in t.calls && t.calls[c].req == req
            && (t.calls[c].pc == Done <==> t.calls[c].outcome != Running)
            && (t.calls[c].pc == Done ==> t.calls[c].outcome == Replayed || Lost(t, rest, c))
            && t.calls[c].outcome in {Running, Replayed, Failed(StorageError)}
            && t.calls[c].tx == NO_TX && t.calls[c].held == 0
    ensures c !in Doers(s1, rest)
  {
    var s := Run(INIT, evs).value;
    InitHolds();
    RunRefines(INIT, evs);
    StepRefines(s, Start(c, proc, req), s1);
    RetryStarts(s, c, proc, req, s1);
    RetryRun(s1, rest, c, req);
  }

  // ---- on its own ---------------------------------------------------------

  lemma RetryMoves(t: State, c: CallId, req: Request) returns (u: State)
    requires EntriesKnown(t.db) && Alive(t, c) && Retrying(t.db, t.calls[c], req) && t.calls[c].pc != Done
    ensures Step(t, Do(c)) == Some(u) && u.db == t.db && c in u.calls && u.calls[c].alive
    ensures Retrying(u.db, u.calls[c], req)
    ensures u.calls[c].outcome == Replayed || (t.calls[c].pc == Lookup && u.calls[c].pc.Replay?)
  {
    assert !Blocked(t, c);
    if t.calls[c].pc == Lookup {
      LookupReplays(t.db, t.calls[c], req);
    }
    u := Step(t, Do(c)).value;
  }

  /** Nothing can hold a retry up: at any point of any run one or two lines of
      its own lead to its answer. */
  lemma {:induction false} RetryGetsThere(evs: seq<Event>, rest: seq<Event>, c: CallId, proc: ProcId, req: Request,
                                          s1: State) returns (lines: seq<Event>)
    requires Run(INIT, evs).Some? && IsRetry(Run(INIT, evs).value.db, req)
    requires Step(Run(INIT, evs).value, Start(c, proc, req)) == Some(s1)
    requires Run(s1, rest).Some? && !LookupFaulted(s1, rest, c)
    requires Alive(Run(s1, rest).value, c) && Run(s1, rest).value.calls[c].pc != Done
    ensures lines in {[Do(c)], [Do(c), Do(c)]}
    ensures var t := Run(s1, rest).value;
            && Run(t, lines).Some? && Run(t, lines).value.db == t.db
            && c in Run(t, lines).value.calls && Run(t, lines).value.calls[c].outcome == Replayed
  {
    InitHolds();
    RunRefines(INIT, evs);
    StepRefines(Run(INIT, evs).value, Start(c, proc, req), s1);
    RetryStarts(Run(INIT, evs).value, c, proc, req, s1);
    RetryRun(s1, rest, c, req);
    RunRefines(s1, rest);
    lines := RetryLines(Run(s1, rest).value, c, req);
  }

  lemma RetryLines(t: State, c: CallId, req: Request) returns (lines: seq<Event>)
    requires EntriesKnown(t.db) && Alive(t, c) && Retrying(t.db, t.calls[c], req) && t.calls[c].pc != Done
    ensures lines in {[Do(c)], [Do(c), Do(c)]}
    ensures Run(t, lines).Some? && Run(t, lines).value.db == t.db
    ensures c in Run(t, lines).value.calls && Run(t, lines).value.calls[c].outcome == Replayed
  {
    var u := RetryMoves(t, c, req);
    lines := OneLine(t, c, u);
    if u.calls[c].outcome != Replayed {
      var v := RetryMoves(u, c, req);
      RunSnoc(t, lines, u, Do(c), v);
      lines := lines + [Do(c)];
      assert lines == [Do(c), Do(c)];
    }
  }

  lemma OneLine(t: State, c: CallId, u: State) returns (lines: seq<Event>)
    requires Step(t, Do(c)) == Some(u)
    ensures lines == [Do(c)] && Run(t, lines) == Some(u)
  {
    RunSnoc(t, [], t, Do(c), u);
    lines := [] + [Do(c)];
  }
}
