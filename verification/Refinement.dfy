/** A COMMIT applies one whole request to the database as it is at that
    instant: the heart of the refinement of the atomic machine. */
module Refinement {
  import opened Int64
  import opened Ledger
  import opened Protocol
  import opened Invariant

  lemma PublishDelta(db: Db, tx: Tx, w: WalletId, direction: Direction, cents: int, key: Key)
    requires w in db.wallets
    requires tx.pending == [DeltaEntry(w, db.wallets[w].currency, direction, cents, key)]
    requires tx.writes == map[w := Wrap64(db.wallets[w].balance + Signed(direction, cents))]
    ensures Publish(db, tx) == AfterDelta(db, w, direction, cents, key)
  {
    assert Publish(db, tx).wallets == AfterDelta(db, w, direction, cents, key).wallets;
  }

  lemma PublishTransfer(db: Db, tx: Tx, from: WalletId, to: WalletId, cents: int, key: Key)
    requires from != to && from in db.wallets && to in db.wallets
    requires db.wallets[from].currency == db.wallets[to].currency
    requires var c := db.wallets[from].currency;
             tx.pending == [DebitLeg(from, to, c, cents, key), CreditLeg(from, to, c, cents, key)]
    requires tx.writes
             == map[from := Wrap64(db.wallets[from].balance - cents), to := Wrap64(db.wallets[to].balance + cents)]
    ensures Publish(db, tx) == AfterTransfer(db, from, to, cents, key)
  {
    assert Publish(db, tx).wallets == AfterTransfer(db, from, to, cents, key).wallets;
  }

  lemma WritesOfOne(u: Update)
    ensures WritesOf([u]) == map[u.wallet := u.next]
  {
    assert [u][..0] == [];
    assert WritesOf([u][..0]) == map[];
  }

  lemma WritesOfTwo(u: Update, v: Update)
    ensures WritesOf([u, v]) == map[u.wallet := u.next][v.wallet := v.next]
  {
    assert [u, v][..1] == [u];
    WritesOfOne(u);
  }

  lemma CommitDelta(db: Db, call: Call)
    requires call.pc == Commit && call.req.Delta? && PcFits(call) && TxFits(db, call)
    ensures Applies(db, Perform(call.req)) && Publish(db, call.tx) == Apply(db, Perform(call.req))
  {
    var Delta(w, amount, direction, key) := call.req;
    var cents := CentsFor(db, w, amount).value;
    WritesOfOne(call.plan.updates[0]);
    assert KeyFree(db.ledger, call.tx.pending[0].key);
    PublishDelta(db, call.tx, w, direction, cents, key);
  }

  lemma CommitTransfer(db: Db, call: Call)
    requires call.pc == Commit && call.req.Transfer? && PcFits(call) && TxFits(db, call)
    ensures Applies(db, Perform(call.req)) && Publish(db, call.tx) == Apply(db, Perform(call.req))
  {
    var Transfer(from, to, amount, key) := call.req;
    var cents := CentsFor(db, from, amount).value;
    WritesOfTwo(call.plan.updates[0], call.plan.updates[1]);
    assert KeyFree(db.ledger, call.tx.pending[0].key) && KeyFree(db.ledger, call.tx.pending[1].key);
    PublishTransfer(db, call.tx, from, to, cents, key);
  }

  /** A committing call publishes exactly its request, applied whole to the
      current rows, even where it read its balance before its transaction began. */
  lemma CommitIsAtomic(db: Db, call: Call)
    requires call.pc == Commit && PcFits(call) && TxFits(db, call)
    ensures Applies(db, Perform(call.req)) && Publish(db, call.tx) == Apply(db, Perform(call.req))
  {
    if call.req.Delta? {
      CommitDelta(db, call);
    } else {
      CommitTransfer(db, call);
    }
  }

  /** A commit touches only rows the transaction has locked, and adds only its
      own keys, so it respects every call that shares neither. */
  lemma CommitRespects(db: Db, tables: Tables, call: Call, other: Call)
    requires call.pc == Commit && PcFits(call) && TxFits(db, call)
    requires CallInv(db, tables, other) && Exclusive(call, other)
    ensures Respects(db, Publish(db, call.tx), other)
  {
    WrittenRowsLocked(db, call);
    var db' := Publish(db, call.tx);
    forall i | 0 <= i < |other.tx.pending|
      ensures KeyFree(db'.ledger, other.tx.pending[i].key)
    {
      var key := other.tx.pending[i].key;
      assert HasKey(other.tx.pending, key);
      NewKeys(db.ledger, call.tx.pending, key);
    }
  }

  lemma NewKeys(l: seq<Entry>, m: seq<Entry>, key: Key)
    requires !HasKey(l, key) && !HasKey(m, key)
    ensures !HasKey(l + m, key)
  {
    forall i | 0 <= i < |l + m|
      ensures (l + m)[i].key != key
    {
      if i < |l| {
        assert l[i].key != key;
      } else {
        assert m[i - |l|].key != key;
      }
    }
  }

  lemma WrittenRowsLocked(db: Db, call: Call)
    requires call.pc == Commit && PcFits(call) && TxFits(db, call)
    ensures call.tx.writes.Keys <= call.tx.rows
  {
    if call.req.Delta? {
      WritesOfOne(call.plan.updates[0]);
    } else {
      WritesOfTwo(call.plan.updates[0], call.plan.updates[1]);
    }
  }

  /** After its commit a call's key is in the ledger. */
  lemma CommittedKey(db: Db, call: Call)
    requires call.pc == Commit && PcFits(call) && TxFits(db, call)
    ensures HasKey(Publish(db, call.tx).ledger, KeyOf(call.req))
  {
    assert Publish(db, call.tx).ledger[|db.ledger|].key == KeyOf(call.req);
  }
}
