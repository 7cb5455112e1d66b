/** Whose request a replay answers for: a key is looked up by itself, so that
    what is recorded under it decides. */
module Replays {
  import opened Money
  import opened Ledger
  import opened AtomicProofs
  import opened Protocol
  import opened Invariant
  import opened Guarantees

  /** The entries a request writes when it is applied. */
  function OwnEntries(d: Db, req: Request): seq<Entry> {
    match req
    case Delta(w, amount, direction, key) =>
      if CentsFor(d, w, amount).None? then []
      else [DeltaEntry(w, d.wallets[w].currency, direction, CentsFor(d, w, amount).value, key)]
    case Transfer(from, to, amount, key) =>
      if CentsFor(d, from, amount).None? then []
      else
        var c, cents := d.wallets[from].currency, CentsFor(d, from, amount).value;
        [DebitLeg(from, to, c, cents, key), CreditLeg(from, to, c, cents, key)]
    case _ => []
  }

  /** All of the request's entries are in the ledger. */
  predicate Recorded(d: Db, req: Request) {
    OwnEntries(d, req) != [] && forall e | e in OwnEntries(d, req) :: e in d.ledger
  }

  /** The request's amount means something and e is the first entry it writes. */
  predicate IsOwn(d: Db, req: Request, e: Entry) {
    OwnEntries(d, req) != [] && e == OwnEntries(d, req)[0]
  }

  lemma OnePerKey(l: seq<Entry>, a: Entry, b: Entry)
    requires KeysUnique(l) && a in l && b in l && a.key == b.key
    ensures a == b
  {
  }

  /** A debit leg in the ledger brings its credit leg with it. */
  lemma OtherLeg(d: Db, from: WalletId, to: WalletId, c: Currency, cents: int, key: Key)
    requires DbInv(d) && DebitLeg(from, to, c, cents, key) in d.ledger
    ensures CreditLeg(from, to, c, cents, key) in d.ledger
  {
    var i :| 0 <= i < |d.ledger| && d.ledger[i] == DebitLeg(from, to, c, cents, key);
    assert PairedAt(d, i);
    assert d.ledger[i + 1] == CreditLeg(from, to, c, cents, key);
  }

  /** What is recorded under the key decides for the whole request. */
  lemma RecordedIffOwn(d: Db, req: Request, e: Entry)
    requires DbInv(d) && MovesMoney(req) && e in d.ledger && e.key == KeyOf(req)
    ensures Recorded(d, req) <==> IsOwn(d, req, e)
  {
    if Recorded(d, req) {
      OnePerKey(d.ledger, e, OwnEntries(d, req)[0]);
    }
    if IsOwn(d, req, e) && req.Transfer? {
      OtherLeg(d, req.from, req.to, d.wallets[req.from].currency, CentsFor(d, req.from, req.amount).value, req.key);
    }
  }

  // ---- applied requests ---------------------------------------------------

  lemma OwnEntriesStay(d: Db, a: Action, req: Request)
    requires Applies(d, a) && OwnEntries(d, req) != []
    ensures OwnEntries(Apply(d, a), req) == OwnEntries(d, req)
  {
    ApplyExtends(d, a);
  }

  lemma AppliedIsRecorded(d: Db, req: Request)
    requires Applies(d, Perform(req)) && MovesMoney(req)
    ensures Recorded(Apply(d, Perform(req)), req)
  {
    var d' := Apply(d, Perform(req));
    OwnEntriesStay(d, Perform(req), req);
    assert d'.ledger == d.ledger + OwnEntries(d, req);
  }

  lemma RecordedStays(d: Db, a: Action, req: Request)
    requires Applies(d, a) && Recorded(d, req)
    ensures Recorded(Apply(d, a), req)
  {
    OwnEntriesStay(d, a, req);
    ApplyExtends(d, a);
  }

  /** An applied request has all its entries in the ledger for good. */
  lemma {:induction false} EntriesWritten(actions: seq<Action>, i: nat)
    requires AtomicRun(EMPTY_DB, actions).Some? && i < |actions|
    requires actions[i].Perform? && MovesMoney(actions[i].req)
    ensures Recorded(AtomicRun(EMPTY_DB, actions).value, actions[i].req)
  {
    var last := |actions| - 1;
    var d := AtomicRun(EMPTY_DB, actions[..last]).value;
    if i < last {
      EntriesWritten(actions[..last], i);
      RecordedStays(d, actions[last], actions[i].req);
    } else {
      AppliedIsRecorded(d, actions[i].req);
    }
  }

  /** Two requests with the same first entry write the same. */
  lemma SameFirstEntry(d: Db, req: Request, req': Request)
    requires OwnEntries(d, req) != [] && OwnEntries(d, req') != [] && OwnEntries(d, req)[0] == OwnEntries(d, req')[0]
    ensures OwnEntries(d, req) == OwnEntries(d, req')
  {
  }

  /** Some applied action writes exactly what the request would write. */
  predicate Applied(d: Db, actions: seq<Action>, req: Request) {
    exists i | 0 <= i < |actions| ::
      actions[i].Perform? && MovesMoney(actions[i].req) && OwnEntries(d, actions[i].req) == OwnEntries(d, req)
  }

  lemma WriterOfKey(d: Db, req: Request, req': Request)
    requires KeysUnique(d.ledger) && Recorded(d, req) && Recorded(d, req') && MovesMoney(req) && MovesMoney(req')
    requires KeyOf(req) in KeysOf(Perform(req'))
    ensures OwnEntries(d, req') == OwnEntries(d, req)
  {
    var e := OwnEntries(d, req)[0];
    if KeyOf(req') == KeyOf(req) {
      OnePerKey(d.ledger, e, OwnEntries(d, req')[0]);
      SameFirstEntry(d, req, req');
    } else {
      OnePerKey(d.ledger, e, OwnEntries(d, req')[1]);
    }
  }

  /** The request's entries are in the ledger if and only if an action that
      writes just these was applied. */
  lemma RecordedIffApplied(actions: seq<Action>, req: Request)
    requires AtomicRun(EMPTY_DB, actions).Some? && MovesMoney(req)
    requires KeysUnique(AtomicRun(EMPTY_DB, actions).value.ledger)
    ensures var d := AtomicRun(EMPTY_DB, actions).value;
            Recorded(d, req) <==> Applied(d, actions, req)
  {
    var d := AtomicRun(EMPTY_DB, actions).value;
    if Recorded(d, req) {
      var e := OwnEntries(d, req)[0];
      assert e in OwnEntries(d, req);
      var j :| 0 <= j < |d.ledger| && d.ledger[j] == e;
      assert HasKey(d.ledger, KeyOf(req));
      var i := KeysComeFromActions(actions, KeyOf(req));
      EntriesWritten(actions, i);
      WriterOfKey(d, req, actions[i].req);
    }
    if Applied(d, actions, req) {
      var i :| 0 <= i < |actions| && actions[i].Perform? && MovesMoney(actions[i].req)
               && OwnEntries(d, actions[i].req) == OwnEntries(d, req);
      EntriesWritten(actions, i);
    }
  }

  /** When a success or a replay is right: in every run, the call's own entries
      are in the ledger, and its own request, as far as its entries tell, was
      applied, if and only if the entry recorded under its key is the one it
      would write itself. */
  lemma {:induction false} ReplayIsOwn(evs: seq<Event>, c: CallId, e: Entry)
    requires Run(INIT, evs).Some? && ReportsSuccess(Run(INIT, evs).value, c)
    requires e in Run(INIT, evs).value.db.ledger && e.key == KeyOf(Run(INIT, evs).value.calls[c].req)
    ensures var d, req := Run(INIT, evs).value.db, Run(INIT, evs).value.calls[c].req;
            && (Recorded(d, req) <==> IsOwn(d, req, e))
            && (Applied(d, Effects(INIT, evs), req) <==> IsOwn(d, req, e))
  {
    InitHolds();
    RunRefines(INIT, evs);
    var d, req := Run(INIT, evs).value.db, Run(INIT, evs).value.calls[c].req;
    RecordedIffOwn(d, req, e);
    RecordedIffApplied(Effects(INIT, evs), req);
  }

  lemma EarlierEntry(d: Db, d': Db, e: Entry, e': Entry)
    requires KeysUnique(d'.ledger) && d.ledger <= d'.ledger && e in d.ledger && e' in d'.ledger && e.key == e'.key
    ensures e == e'
  {
    OnePerKey(d'.ledger, e, e');
  }

  /** What a lookup finds stays what is recorded under the key, over any run. */
  lemma {:induction false} LookupIsFinal(s: State, evs: seq<Event>, e: Entry, e': Entry)
    requires Inv(s) && Run(s, evs).Some?
    requires e in s.db.ledger && e' in Run(s, evs).value.db.ledger && e.key == e'.key
    ensures e == e'
  {
    RunRefines(s, evs);
    RunExtends(s, evs);
    EarlierEntry(s.db, Run(s, evs).value.db, e, e');
  }
}
