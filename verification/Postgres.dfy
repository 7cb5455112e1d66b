/** The store of storage/postgres/postgres.go: tables, open transactions, row
    locks and the unique key. A statement that would have to wait for another
    transaction is cancelled here with a storage error; the waiting itself is
    the subject of the Protocol module. */
module Postgres {
  import opened Int64
  import opened Money
  import opened Ledger
  import opened Protocol

  type TxId = nat

  predicate RowLocked(txs: map<TxId, Tx>, w: WalletId) {
    exists u | u in txs :: w in txs[u].rows
  }

  predicate KeyInserted(txs: map<TxId, Tx>, key: Key) {
    exists u | u in txs :: HasKey(txs[u].pending, key)
  }

  /** What locking two rows, one after the other, answers where it has to wait or a row is missing. */
  function LockAnswer(wallets: map<WalletId, Wallet>, txs: map<TxId, Tx>, first: WalletId, second: WalletId)
    : Option<Failure>
  {
    if first !in wallets then Some(WalletNotFound)
    else if RowLocked(txs, first) then Some(StorageError)
    else if second !in wallets then Some(WalletNotFound)
    else if RowLocked(txs, second) then Some(StorageError)
    else None
  }

  class Store {
    var owners: set<OwnerId>
    var wallets: map<WalletId, Wallet>
    var ledger: seq<Entry>
    var txs: map<TxId, Tx>
    var nextTx: TxId

    ghost predicate Valid()
      reads this
    {
      forall t | t in txs :: t < nextTx
    }

    /** What is committed. */
    ghost function View(): Db
      reads this
    {
      Db(wallets, ledger)
    }

    constructor ()
      ensures Valid() && View() == EMPTY_DB && txs == map[] && owners == {}
    {
      owners, wallets, ledger, txs, nextTx := {}, map[], [], map[], 0;
    }

    /** The open transactions other than t. */
    function Others(t: TxId): map<TxId, Tx>
      reads this
    {
      txs - {t}
    }

    /** Another open transaction has the row locked. */
    predicate RowHeld(t: TxId, w: WalletId)
      reads this
    {
      RowLocked(Others(t), w)
    }

    /** Another open transaction has inserted the key. */
    predicate KeyHeld(t: TxId, key: Key)
      reads this
    {
      KeyInserted(Others(t), key)
    }

    // ---- outside transactions ---------------------------------------------

    /** OwnerRepo.Get, as far as the service looks at it. */
    method FindOwner(owner: OwnerId) returns (err: Option<Failure>)
      ensures err == if owner in owners then None else Some(OwnerNotFound)
    {
      err := if owner in owners then None else Some(OwnerNotFound);
    }

    method Get(w: WalletId) returns (row: Result<Wallet, Failure>)
      ensures row == if w in wallets then Ok(wallets[w]) else Err(WalletNotFound)
    {
      row := if w in wallets then Ok(wallets[w]) else Err(WalletNotFound);
    }

    method GetByOwnerAndCurrency(owner: OwnerId, c: Currency) returns (row: Result<Wallet, Failure>)
      ensures row.Ok? <==> OwnsCurrency(wallets, owner, c)
      ensures row.Ok? ==> row.value in wallets.Values && row.value.owner == owner && row.value.currency == c
      ensures row.Err? ==> row.error == WalletNotFound
    {
      if w :| w in wallets && wallets[w].owner == owner && wallets[w].currency == c {
        row := Ok(wallets[w]);
      } else {
        row := Err(WalletNotFound);
      }
    }

    method FindByIdempotencyKey(key: Key) returns (found: Option<Entry>)
      ensures found.Some? <==> HasKey(ledger, key)
      ensures found.Some? ==> found.value in ledger && found.value.key == key
    {
      for i := 0 to |ledger|
        invariant !HasKey(ledger[..i], key)
      {
        if ledger[i].key == key {
          return Some(ledger[i]);
        }
        assert ledger[..i + 1] == ledger[..i] + [ledger[i]];
      }
      assert ledger[..|ledger|] == ledger;
      return None;
    }

    /** SUM(amount), read into an int64. Where it is known, it is the cached balance. */
    method SumByWallet(w: WalletId) returns (found: Result<int, Failure>)
      ensures found == if InRange(WalletSum(ledger, w)) then Ok(WalletSum(ledger, w)) else Err(StorageError)
      ensures Reconciled(View()) && w in wallets && found.Ok? ==> found.value == wallets[w].balance
    {
      var sum := 0;
      for i := 0 to |ledger|
        invariant sum == WalletSum(ledger[..i], w)
      {
        assert ledger[..i + 1][..i] == ledger[..i];
        if ledger[i].wallet == w {
          sum := sum + ledger[i].amount;
        }
      }
      assert ledger[..|ledger|] == ledger;
      found := if InRange(sum) then Ok(sum) else Err(StorageError);
    }

    /** The entries of one wallet, in commit order. */
    method ListByWallet(w: WalletId) returns (entries: seq<Entry>)
      ensures entries == EntriesOf(ledger, w)
    {
      entries := [];
      for i := 0 to |ledger|
        invariant entries == EntriesOf(ledger[..i], w)
      {
        assert ledger[..i + 1][..i] == ledger[..i];
        if ledger[i].wallet == w {
          entries := entries + [ledger[i]];
        }
      }
      assert ledger[..|ledger|] == ledger;
    }

    method UpdateStatus(w: WalletId) returns (err: Option<Failure>)
      modifies this`wallets
      ensures err.None? <==> w in old(wallets) && !RowLocked(txs, w)
      ensures err.None? ==> View() == SetSuspended(old(View()), w)
      ensures err.Some? ==> View() == old(View()) && err.value in {WalletNotFound, StorageError}
      ensures err == Some(WalletNotFound) <==> w !in old(wallets)
    {
      if w !in wallets {
        return Some(WalletNotFound);
      }
      if RowLocked(txs, w) {
        return Some(StorageError);
      }
      wallets := wallets[w := wallets[w].(status := Suspended)];
      return None;
    }

    method Create(id: WalletId, owner: OwnerId, c: Currency) returns (err: Option<Failure>)
      requires id !in wallets
      modifies this`wallets
      ensures err.None? <==> owner in owners && OpenApplies(old(View()), id, owner, c)
      ensures err.None? ==> View() == OpenWallet(old(View()), id, owner, c)
      ensures err.Some? ==> View() == old(View())
      ensures err.Some? ==> err.value == if owner in owners then AlreadyExists else StorageError
    {
      if owner !in owners {
        return Some(StorageError);
      }
      if OwnsCurrency(wallets, owner, c) {
        return Some(AlreadyExists);
      }
      wallets := wallets[id := Wallet(owner, c, 0, Active)];
      return None;
    }

    // ---- the unit of work -------------------------------------------------

    method Begin() returns (t: TxId)
      requires Valid()
      modifies this`txs, this`nextTx
      ensures Valid() && t == old(nextTx) && t !in old(txs) && txs == old(txs)[t := NO_TX]
      ensures Others(t) == old(Others(t)) == old(txs)
    {
      t := nextTx;
      txs := txs[t := NO_TX];
      nextTx := nextTx + 1;
      assert Others(t) == old(txs);
    }

    /** SELECT ... FOR UPDATE of one row. */
    method GetAndLock(t: TxId, w: WalletId) returns (row: Result<Wallet, Failure>)
      requires Valid() && t in txs
      modifies this`txs
      ensures Valid()
      ensures row.Ok? <==> w in wallets && !old(RowHeld(t, w))
      ensures row.Ok? ==> row.value == wallets[w]
      ensures row.Ok? ==> txs == old(txs)[t := old(txs[t]).(rows := old(txs[t].rows) + {w})]
      ensures Others(t) == old(Others(t))
      ensures row.Err? ==> txs == old(txs) && row.error == if w in wallets then StorageError else WalletNotFound
    {
      if w !in wallets {
        return Err(WalletNotFound);
      }
      if RowHeld(t, w) {
        return Err(StorageError);
      }
      txs := txs[t := txs[t].(rows := txs[t].rows + {w})];
      return Ok(wallets[w]);
    }

    /** Both rows of a transfer, locked in ascending order, returned in the order asked. */
    method GetWalletAndLock(t: TxId, w: WalletId, related: WalletId) returns (rows: Result<(Wallet, Wallet), Failure>)
      requires Valid() && t in txs && txs[t] == NO_TX
      modifies this`txs
      ensures Valid()
      ensures rows.Ok? <==> w in wallets && related in wallets && !old(RowHeld(t, w)) && !old(RowHeld(t, related))
      ensures rows.Ok? ==> rows.value == (wallets[w], wallets[related])
      ensures var answer := LockAnswer(wallets, old(Others(t)), if related < w then related else w,
                                       if related < w then w else related);
              && (rows.Ok? <==> answer.None?) && (rows.Err? ==> Some(rows.error) == answer)
      ensures rows.Ok? ==> txs == old(txs)[t := NO_TX.(rows := {w, related})]
      ensures t in txs && Others(t) == old(Others(t))
    {
      var first, second := w, related;
      if second < first {
        first, second := second, first;
      }
      var w1 := GetAndLock(t, first);
      if w1.Err? {
        return Err(w1.error);
      }
      var w2 := GetAndLock(t, second);
      if w2.Err? {
        return Err(w2.error);
      }
      assert NO_TX.rows + {first} + {second} == {w, related};
      if first == w {
        return Ok((w1.value, w2.value));
      }
      return Ok((w2.value, w1.value));
    }

    method AppendLedger(t: TxId, e: Entry) returns (err: Option<Failure>)
      requires Valid() && t in txs
      modifies this`txs
      ensures Valid()
      ensures err.None? <==> KeyFree(ledger, e.key) && !HasKey(old(txs[t].pending), e.key) && !old(KeyHeld(t, e.key))
      ensures err.None? ==> txs == old(txs)[t := old(txs[t]).(pending := old(txs[t].pending) + [e])]
      ensures err == Some(DuplicateKey) <==>
                && |e.key| <= MAX_KEY && !old(KeyHeld(t, e.key))
                && (HasKey(ledger, e.key) || HasKey(old(txs[t].pending), e.key))
      ensures err.Some? ==> txs == old(txs) && err.value in {DuplicateKey, StorageError}
      ensures Others(t) == old(Others(t))
    {
      if |e.key| > MAX_KEY || KeyHeld(t, e.key) {
        return Some(StorageError);
      }
      if HasKey(ledger, e.key) || HasKey(txs[t].pending, e.key) {
        return Some(DuplicateKey);
      }
      txs := txs[t := txs[t].(pending := txs[t].pending + [e])];
      return None;
    }

    /** Lock, compare, write. */
    method UpdateBalance(t: TxId, w: WalletId, expected: int, next: int) returns (err: Option<Failure>)
      requires Valid() && t in txs
      modifies this`txs
      ensures Valid()
      ensures err.None? <==> w in wallets && !old(RowHeld(t, w)) && Visible(View(), old(txs[t]), w) == expected
      ensures err == Some(OptimisticLock) <==>
                w in wallets && !old(RowHeld(t, w)) && Visible(View(), old(txs[t]), w) != expected
      ensures err == Some(WalletNotFound) <==> w !in wallets
      ensures err.Some? ==> err.value in {WalletNotFound, OptimisticLock, StorageError}
      ensures err.None? ==>
                txs == old(txs)[t := old(txs[t]).(rows := old(txs[t].rows) + {w},
                                                  writes := old(txs[t].writes)[w := next])]
      ensures err == Some(OptimisticLock) ==>
                txs == old(txs)[t := old(txs[t]).(rows := old(txs[t].rows) + {w})]
      ensures err in {Some(WalletNotFound), Some(StorageError)} ==> txs == old(txs)
      ensures t in txs
      ensures Others(t) == old(Others(t))
    {
      var row := GetAndLock(t, w);
      if row.Err? {
        return Some(row.error);
      }
      var current := if w in txs[t].writes then txs[t].writes[w] else row.value.balance;
      if current != expected {
        return Some(OptimisticLock);
      }
      txs := txs[t := txs[t].(writes := txs[t].writes[w := next])];
      return None;
    }

    method Commit(t: TxId)
      requires Valid() && t in txs
      modifies this`wallets, this`ledger, this`txs
      ensures Valid() && txs == old(txs) - {t}
      ensures View() == Publish(old(View()), old(txs[t]))
    {
      var tx := txs[t];
      wallets := map w | w in wallets :: if w in tx.writes then wallets[w].(balance := tx.writes[w]) else wallets[w];
      ledger := ledger + tx.pending;
      txs := txs - {t};
    }

    /** Safe to call after Commit, when the transaction is no longer open. */
    method Rollback(t: TxId)
      requires Valid()
      modifies this`txs
      ensures Valid() && txs == old(txs) - {t}
    {
      txs := txs - {t};
    }
  }
}
