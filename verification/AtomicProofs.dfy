/** Every action of the atomic machine keeps the database invariant. */
module AtomicProofs {
  import opened Int64
  import opened Money
  import opened Ledger
  import opened LedgerProofs

  // ---- one delta ----------------------------------------------------------

  lemma DeltaReconciled(d: Db, w: WalletId, direction: Direction, cents: int, key: Key)
    requires Reconciled(d) && w in d.wallets
    ensures Reconciled(AfterDelta(d, w, direction, cents, key))
  {
    var d' := AfterDelta(d, w, direction, cents, key);
    var e := DeltaEntry(w, d.wallets[w].currency, direction, cents, key);
    forall v | v in d'.wallets
      ensures d'.wallets[v].balance == Wrap64(WalletSum(d'.ledger, v))
    {
      SumBySnoc(d.ledger, e, OfWallet(v));
      WrapAdd(WalletSum(d.ledger, v), e.amount);
    }
  }

  lemma DeltaLegs(d: Db, w: WalletId, direction: Direction, cents: int, key: Key)
    requires LegsCancel(d.ledger) && w in d.wallets
    ensures LegsCancel(AfterDelta(d, w, direction, cents, key).ledger)
  {
    var e := DeltaEntry(w, d.wallets[w].currency, direction, cents, key);
    forall c
      ensures SumBy(d.ledger + [e], LegsIn(c)) == 0
    {
      SumBySnoc(d.ledger, e, LegsIn(c));
    }
  }

  lemma DeltaOverdrawsNobody(d: Db, w: WalletId, direction: Direction, cents: int, key: Key)
    requires DbInv(d) && DeltaApplies(d, w, direction, cents, key)
    ensures NeverOverdrawn(AfterDelta(d, w, direction, cents, key).ledger)
  {
    var e := DeltaEntry(w, d.wallets[w].currency, direction, cents, key);
    forall v, n | 0 <= n <= |d.ledger + [e]|
      ensures WalletSum((d.ledger + [e])[..n], v) >= 0
    {
      PrefixOfOne(d.ledger, e, n);
      if n > |d.ledger| {
        OneMoreCovered(d, e, v);
      }
    }
  }

  /** An entry that the wrapped balance can bear keeps every sum above zero. */
  lemma OneMoreCovered(d: Db, e: Entry, v: WalletId)
    requires DbInv(d) && e.wallet in d.wallets && -MAX64 <= e.amount
    requires e.amount < 0 ==> Wrap64(d.wallets[e.wallet].balance + e.amount) >= 0
    ensures WalletSum(d.ledger + [e], v) >= 0
  {
    SumBySnoc(d.ledger, e, OfWallet(v));
    assert d.ledger[..|d.ledger|] == d.ledger;
    assert WalletSum(d.ledger[..|d.ledger|], v) >= 0;
    if e.amount < 0 && v == e.wallet {
      WrappedDebitIsCovered(WalletSum(d.ledger, v), -e.amount);
    }
  }

  lemma DeltaPairs(d: Db, w: WalletId, direction: Direction, cents: int, key: Key)
    requires DbInv(d) && DeltaApplies(d, w, direction, cents, key)
    ensures var d' := AfterDelta(d, w, direction, cents, key);
            EntriesKnown(d') && Paired(d') && KeysUnique(d'.ledger)
  {
    var d' := AfterDelta(d, w, direction, cents, key);
    forall i | 0 <= i < |d'.ledger|
      ensures PairedAt(d', i)
    {
      if i < |d.ledger| {
        assert PairedAt(d, i);
      }
    }
  }

  lemma DeltaKeeps(d: Db, w: WalletId, direction: Direction, cents: int, key: Key)
    requires DbInv(d) && DeltaApplies(d, w, direction, cents, key)
    ensures DbInv(AfterDelta(d, w, direction, cents, key))
  {
    DeltaReconciled(d, w, direction, cents, key);
    DeltaLegs(d, w, direction, cents, key);
    DeltaPairs(d, w, direction, cents, key);
    DeltaOverdrawsNobody(d, w, direction, cents, key);
  }

  // ---- one transfer -------------------------------------------------------

  lemma TransferSums(d: Db, from: WalletId, to: WalletId, cents: int, key: Key)
    requires DbInv(d) && TransferApplies(d, from, to, cents, key)
    ensures var d' := AfterTransfer(d, from, to, cents, key);
            Reconciled(d') && LegsCancel(d'.ledger)
  {
    var d' := AfterTransfer(d, from, to, cents, key);
    var a, b := d'.ledger[|d.ledger|], d'.ledger[|d.ledger| + 1];
    assert d'.ledger == d.ledger + [a, b];
    forall v | v in d'.wallets
      ensures d'.wallets[v].balance == Wrap64(WalletSum(d'.ledger, v))
    {
      SumByTwo(d.ledger, a, b, OfWallet(v));
      WrapAdd(WalletSum(d.ledger, v), a.amount);
      WrapAdd(WalletSum(d.ledger, v), b.amount);
    }
    forall c
      ensures SumBy(d'.ledger, LegsIn(c)) == 0
    {
      SumByTwo(d.ledger, a, b, LegsIn(c));
    }
  }

  lemma TransferOverdrawsNobody(d: Db, from: WalletId, to: WalletId, cents: int, key: Key)
    requires DbInv(d) && TransferApplies(d, from, to, cents, key)
    ensures NeverOverdrawn(AfterTransfer(d, from, to, cents, key).ledger)
  {
    var c := d.wallets[from].currency;
    var a, b := DebitLeg(from, to, c, cents, key), CreditLeg(from, to, c, cents, key);
    forall v, n | 0 <= n <= |d.ledger + [a, b]|
      ensures WalletSum((d.ledger + [a, b])[..n], v) >= 0
    {
      PrefixOfTwo(d.ledger, a, b, n);
      if n > |d.ledger| {
        OneMoreCovered(d, a, v);
        SumBySnoc(d.ledger + [a], b, OfWallet(v));
        assert d.ledger + [a] + [b] == d.ledger + [a, b];
      } else {
        assert WalletSum(d.ledger[..n], v) >= 0;
      }
    }
  }

  lemma TransferPairs(d: Db, from: WalletId, to: WalletId, cents: int, key: Key)
    requires DbInv(d) && TransferApplies(d, from, to, cents, key)
    ensures var d' := AfterTransfer(d, from, to, cents, key);
            EntriesKnown(d') && Paired(d') && KeysUnique(d'.ledger)
  {
    var d' := AfterTransfer(d, from, to, cents, key);
    assert |key| < |key + CREDIT_SUFFIX|;
    forall i | 0 <= i < |d'.ledger|
      ensures PairedAt(d', i)
    {
      if i < |d.ledger| {
        assert PairedAt(d, i);
      }
    }
  }

  lemma TransferKeeps(d: Db, from: WalletId, to: WalletId, cents: int, key: Key)
    requires DbInv(d) && TransferApplies(d, from, to, cents, key)
    ensures DbInv(AfterTransfer(d, from, to, cents, key))
  {
    TransferSums(d, from, to, cents, key);
    TransferPairs(d, from, to, cents, key);
    TransferOverdrawsNobody(d, from, to, cents, key);
  }

  // ---- wallets ------------------------------------------------------------

  lemma SuspendKeeps(d: Db, w: WalletId)
    requires DbInv(d) && w in d.wallets
    ensures DbInv(SetSuspended(d, w))
  {
    var d' := SetSuspended(d, w);
    forall i | 0 <= i < |d'.ledger|
      ensures PairedAt(d', i)
    {
      assert PairedAt(d, i);
    }
  }

  lemma OpenKeeps(d: Db, id: WalletId, owner: OwnerId, c: Currency)
    requires DbInv(d) && OpenApplies(d, id, owner, c)
    ensures DbInv(OpenWallet(d, id, owner, c))
  {
    var d' := OpenWallet(d, id, owner, c);
    forall i | 0 <= i < |d'.ledger|
      ensures PairedAt(d', i)
    {
      assert PairedAt(d, i);
    }
    SumByNone(d.ledger, OfWallet(id));
  }

  /** Every action keeps the whole database invariant. */
  lemma ApplyKeeps(d: Db, a: Action)
    requires DbInv(d) && Applies(d, a)
    ensures DbInv(Apply(d, a))
  {
    match a
    case Perform(Delta(w, amount, direction, key)) => DeltaKeeps(d, w, direction, CentsFor(d, w, amount).value, key);
    case Perform(Transfer(from, to, amount, key)) => TransferKeeps(d, from, to, CentsFor(d, from, amount).value, key);
    case Perform(Suspend(w)) => SuspendKeeps(d, w);
    case Open(id, owner, c) => OpenKeeps(d, id, owner, c);
  }

  // ---- one application per key --------------------------------------------

  /** The keys an action writes to the ledger. */
  function KeysOf(a: Action): set<Key> {
    match a
    case Perform(Delta(_, _, _, key)) => {key}
    case Perform(Transfer(_, _, _, key)) => {key, key + CREDIT_SUFFIX}
    case _ => {}
  }

  lemma {:induction false} KeysAreWritten(d: Db, actions: seq<Action>, i: nat, key: Key)
    requires AtomicRun(d, actions).Some? && i < |actions| && key in KeysOf(actions[i])
    ensures HasKey(AtomicRun(d, actions).value.ledger, key)
  {
    var n := |actions| - 1;
    var d1 := AtomicRun(d, actions[..n]).value;
    var d2 := AtomicRun(d, actions).value;
    assert d2 == Apply(d1, actions[n]);
    if i < n {
      KeysAreWritten(d, actions[..n], i, key);
      var j :| 0 <= j < |d1.ledger| && d1.ledger[j].key == key;
      assert d2.ledger[j].key == key;
    } else {
      match actions[n]
      case Perform(Delta(_, _, _, k)) =>
        assert d2.ledger[|d1.ledger|].key == k;
      case Perform(Transfer(_, _, _, k)) =>
        assert d2.ledger[|d1.ledger|].key == k;
        assert d2.ledger[|d1.ledger| + 1].key == k + CREDIT_SUFFIX;
      case _ =>
    }
  }

  lemma NewKeyOfAction(d: Db, a: Action, key: Key)
    requires Applies(d, a) && HasKey(Apply(d, a).ledger, key) && !HasKey(d.ledger, key)
    ensures key in KeysOf(a)
  {
    assert forall j | 0 <= j < |d.ledger| :: Apply(d, a).ledger[j] == d.ledger[j] && d.ledger[j].key != key;
  }

  /** Conversely every key in the ledger comes from some action. */
  lemma {:induction false} KeysComeFromActions(actions: seq<Action>, key: Key) returns (i: nat)
    requires AtomicRun(EMPTY_DB, actions).Some? && HasKey(AtomicRun(EMPTY_DB, actions).value.ledger, key)
    ensures i < |actions| && key in KeysOf(actions[i])
  {
    var front := actions[..|actions| - 1];
    if HasKey(AtomicRun(EMPTY_DB, front).value.ledger, key) {
      i := KeysComeFromActions(front, key);
    } else {
      i := |actions| - 1;
      NewKeyOfAction(AtomicRun(EMPTY_DB, front).value, actions[i], key);
    }
  }

  /** In a run of the atomic machine no key is applied twice. */
  lemma KeysAppliedOnce(d: Db, actions: seq<Action>, i: nat, j: nat)
    requires AtomicRun(d, actions).Some? && i < j < |actions|
    ensures KeysOf(actions[i]) !! KeysOf(actions[j])
    decreases |actions|
  {
    var n := |actions| - 1;
    if j < n {
      KeysAppliedOnce(d, actions[..n], i, j);
    } else {
      forall key | key in KeysOf(actions[i])
        ensures key !in KeysOf(actions[j])
      {
        KeysAreWritten(d, actions[..n], i, key);
      }
    }
  }
}
