/** The service methods of wallet/service.go, run without interference from
    their first line to their last. Other calls may have transactions open and
    mutexes taken; where this call would have to wait for one of them it gives
    up instead and leaves everything as it was. */
module Service {
  import opened Int64
  import opened Money
  import opened Ledger
  import opened Protocol
  import opened Refinement
  import opened Meaning
  import opened Answers
  import opened Postgres
  import LockTable

  /** What an insert with this key answers; Running if it goes through. */
  function InsertAnswer(ledger: seq<Entry>, txs: map<Postgres.TxId, Tx>, key: Key): Outcome {
    if |key| > 100 || Postgres.KeyInserted(txs, key) then Failed(StorageError)
    else if HasKey(ledger, key) then Failed(DuplicateKey)
    else Running
  }

  /** What applyDelta answers with its mutex taken, while other transactions hold
      rows and keys: the refusal, or the first statement that cannot be run. */
  function DeltaAnswer(d: Db, txs: map<Postgres.TxId, Tx>, w: WalletId, amount: string, direction: Direction, key: Key)
    : Outcome
  {
    var refusal, insert := DeltaRefusal(d, w, amount, direction, key), InsertAnswer(d.ledger, txs, key);
    if refusal != Running then refusal
    else if insert != Running then insert
    else if Postgres.RowLocked(txs, w) then Failed(StorageError)
    else Success
  }

  /** Likewise for a transfer between two wallets. */
  function TransferAnswer(d: Db, txs: map<Postgres.TxId, Tx>, from: WalletId, to: WalletId, amount: string, key: Key)
    : Outcome
  {
    var first, second := if to < from then to else from, if to < from then from else to;
    var locks := Postgres.LockAnswer(d.wallets, txs, first, second);
    var refusal := TransferRefusal(d, from, to, amount, key);
    var debit, credit := InsertAnswer(d.ledger, txs, key), InsertAnswer(d.ledger, txs, key + CREDIT_SUFFIX);
    if locks.Some? then Failed(locks.value)
    else if refusal != Running then refusal
    else if debit != Running then debit
    else if credit != Running then credit
    else Success
  }

  /** Success is for exactly the topups and payments that apply to an active
      wallet and have nothing to wait for. */
  lemma DeltaSucceeds(d: Db, txs: map<Postgres.TxId, Tx>, w: WalletId, amount: string, direction: Direction, key: Key)
    ensures DeltaAnswer(d, txs, w, amount, direction, key) == Success
            <==> Applies(d, Perform(Delta(w, amount, direction, key))) && d.wallets[w].status == Active
                 && !Postgres.RowLocked(txs, w) && !Postgres.KeyInserted(txs, key)
  {
    DeltaChecked(d, w, amount, direction, key);
  }

  /** And for exactly such transfers. */
  lemma TransferSucceeds(d: Db, txs: map<Postgres.TxId, Tx>, from: WalletId, to: WalletId, amount: string, key: Key)
    requires from != to
    ensures TransferAnswer(d, txs, from, to, amount, key) == Success
            <==> Applies(d, Perform(Request.Transfer(from, to, amount, key)))
                 && !Postgres.RowLocked(txs, from) && !Postgres.RowLocked(txs, to)
                 && !Postgres.KeyInserted(txs, key) && !Postgres.KeyInserted(txs, key + CREDIT_SUFFIX)
  {
    TransferChecked(d, from, to, amount, key);
  }

  class WalletService {
    const locks: LockTable.WalletLocks
    const db: Postgres.Store

    constructor (db: Postgres.Store)
      ensures this.db == db && fresh(locks) && locks.Valid() && locks.walletLocks == map[]
    {
      this.db := db;
      this.locks := new LockTable.WalletLocks();
    }

    ghost predicate Valid()
      reads this, locks, db
    {
      locks.Valid() && db.Valid()
    }

    /** Somebody in this process holds the wallet's mutex. */
    ghost predicate MutexTaken(w: WalletId)
      reads locks, locks.walletLocks.Values
    {
      locks.Taken(w)
    }

    // ---- Topup and Pay ----------------------------------------------------

    /** What applyDelta writes once its checks have passed, from Begin to the deferred Rollback. */
    method WriteDelta(w: WalletId, row: Wallet, direction: Direction, cents: int, key: Key)
      returns (err: Option<Failure>)
      requires db.Valid() && w in db.wallets && db.wallets[w] == row && 0 <= cents <= MAX64
      requires Wrap64(row.balance + Signed(direction, cents)) >= 0
      modifies db`wallets, db`ledger, db`txs, db`nextTx
      ensures db.Valid() && db.txs == old(db.txs)
      ensures err.None? <==>
                && KeyFree(old(db.ledger), key)
                && !old(Postgres.KeyInserted(db.txs, key)) && !old(Postgres.RowLocked(db.txs, w))
      ensures err.None? ==> db.View() == AfterDelta(old(db.View()), w, direction, cents, key)
      ensures err.Some? ==> db.View() == old(db.View()) && err.value in {DuplicateKey, StorageError}
      ensures err.Some? ==>
                var insert := InsertAnswer(old(db.ledger), old(db.txs), key);
                Failed(err.value) == if insert != Running then insert else Failed(StorageError)
    {
      var next := Wrap64(row.balance + Signed(direction, cents));
      var e := DeltaEntry(w, row.currency, direction, cents, key);
      var t := db.Begin();
      err := db.AppendLedger(t, e);
      if err.Some? {
        db.Rollback(t);
        return;
      }
      err := db.UpdateBalance(t, w, row.balance, next);
      if err.Some? {
        db.Rollback(t);
        return;
      }
      PublishDelta(db.View(), db.txs[t], w, direction, cents, key);
      db.Commit(t);
      db.Rollback(t);
    }

    /** applyDelta. A replay answers with the recorded wallet as it is now. */
    method ApplyDelta(w: WalletId, amount: string, key: Key, direction: Direction)
      returns (r: Outcome, row: Option<Wallet>)
      requires Valid()
      modifies locks, locks.walletLocks.Values, db`wallets, db`ledger, db`txs, db`nextTx
      ensures Valid() && db.txs == old(db.txs)
      ensures key != "" && HasKey(old(db.ledger), key) ==>
                exists e | e in old(db.ledger) :: e.key == key
                  && r == (if e.wallet in db.wallets then Replayed else Failed(WalletNotFound))
                  && row == (if e.wallet in db.wallets then Some(db.wallets[e.wallet]) else None)
      ensures r == Replayed ==> key != "" && HasKey(old(db.ledger), key)
      ensures r == Success <==>
                && !(key != "" && HasKey(old(db.ledger), key))
                && Applies(old(db.View()), Perform(Delta(w, amount, direction, key)))
                && old(db.wallets[w]).status == Active
                && !old(MutexTaken(w)) && !old(Postgres.RowLocked(db.txs, w)) && !old(Postgres.KeyInserted(db.txs, key))
      ensures r == Success ==>
                && db.View() == Apply(old(db.View()), Perform(Delta(w, amount, direction, key)))
                && row == Some(db.wallets[w])
      ensures r != Success ==> db.View() == old(db.View())
      ensures !(key != "" && HasKey(old(db.ledger), key)) ==>
                && r == (if old(MutexTaken(w)) then Running
                         else DeltaAnswer(old(db.View()), old(db.txs), w, amount, direction, key))
                && (r != Success ==> row == None)
      ensures forall v :: MutexTaken(v) == old(MutexTaken(v))
    {
      if key != "" {
        var existing := db.FindByIdempotencyKey(key);
        if existing.Some? {
          var found := db.Get(existing.value.wallet);
          if found.Err? {
            return Failed(found.error), None;
          }
          return Replayed, Some(found.value);
        }
      }
      var _ := locks.LockFor(w);
      var taken := locks.TryLock(w);
      if !taken {
        return Running, None;
      }
      r, row := DeltaSection(w, amount, key, direction);
      locks.Unlock(w);
    }

    /** applyDelta's checks, in order, on the row it read. */
    method CheckDelta(w: WalletId, row: Wallet, amount: string, direction: Direction, ghost d: Db, ghost key: Key)
      returns (cents: Result<int, Failure>)
      requires w in d.wallets && d.wallets[w] == row
      ensures cents.Ok? <==> DeltaRefusal(d, w, amount, direction, key) == Running
      ensures cents.Err? ==> DeltaRefusal(d, w, amount, direction, key) == Failed(cents.error)
      ensures cents.Ok? ==> ParseAmount(amount, row.currency) == Some(cents.value)
    {
      if row.status == Suspended {
        return Err(WalletSuspended);
      }
      var parsed := ParseAmountToCents(amount, row.currency);
      if parsed.None? {
        return Err(InvalidAmount);
      }
      if Wrap64(row.balance + Signed(direction, parsed.value)) < 0 {
        return Err(InsufficientBalance);
      }
      return Ok(parsed.value);
    }

    /** Between the Lock and the deferred Unlock. */
    method DeltaSection(w: WalletId, amount: string, key: Key, direction: Direction)
      returns (r: Outcome, row: Option<Wallet>)
      requires db.Valid()
      modifies db`wallets, db`ledger, db`txs, db`nextTx
      ensures db.Valid() && db.txs == old(db.txs)
      ensures r == Success || r.Failed?
      ensures r == Success <==>
                && Applies(old(db.View()), Perform(Delta(w, amount, direction, key)))
                && old(db.wallets[w]).status == Active
                && !old(Postgres.RowLocked(db.txs, w)) && !old(Postgres.KeyInserted(db.txs, key))
      ensures r == Success ==>
                && db.View() == Apply(old(db.View()), Perform(Delta(w, amount, direction, key)))
                && row == Some(db.wallets[w])
      ensures r != Success ==> db.View() == old(db.View()) && row == None
      ensures r == DeltaAnswer(old(db.View()), old(db.txs), w, amount, direction, key)
    {
      DeltaChecked(db.View(), w, amount, direction, key);
      var found := db.Get(w);
      if found.Err? {
        return Failed(found.error), None;
      }
      var cents := CheckDelta(w, found.value, amount, direction, db.View(), key);
      if cents.Err? {
        return Failed(cents.error), None;
      }
      var err := WriteDelta(w, found.value, direction, cents.value, key);
      if err.Some? {
        return Failed(err.value), None;
      }
      return Success, Some(AddTo(found.value, Signed(direction, cents.value)));
    }

    // ---- Transfer ---------------------------------------------------------

    /** The four writes of a transfer and its commit, on rows already locked. */
    method WriteTransfer(t: TxId, from: WalletId, to: WalletId, cents: int, key: Key) returns (err: Option<Failure>)
      requires db.Valid() && t in db.txs && db.txs[t] == NO_TX.(rows := {from, to})
      requires from != to && from in db.wallets && to in db.wallets
      requires db.wallets[from].currency == db.wallets[to].currency
      requires !db.RowHeld(t, from) && !db.RowHeld(t, to)
      modifies db`wallets, db`ledger, db`txs, db`nextTx
      ensures db.Valid() && db.Others(t) == old(db.Others(t))
      ensures err.None? <==>
                && KeyFree(old(db.ledger), key) && KeyFree(old(db.ledger), key + CREDIT_SUFFIX)
                && !old(db.KeyHeld(t, key)) && !old(db.KeyHeld(t, key + CREDIT_SUFFIX))
      ensures err.None? ==> db.View() == AfterTransfer(old(db.View()), from, to, cents, key)
      ensures err.Some? ==> db.View() == old(db.View()) && err.value in {DuplicateKey, StorageError}
      ensures err.Some? ==>
                var debit := InsertAnswer(old(db.ledger), old(db.Others(t)), key);
                var credit := InsertAnswer(old(db.ledger), old(db.Others(t)), key + CREDIT_SUFFIX);
                Failed(err.value) == if debit != Running then debit else credit
    {
      var fromRow, toRow := db.wallets[from], db.wallets[to];
      var debit := DebitLeg(from, to, fromRow.currency, cents, key);
      var credit := CreditLeg(from, to, toRow.currency, cents, key);
      err := db.AppendLedger(t, debit);
      if err.Some? {
        return;
      }
      SuffixedKeyDiffers(debit, key);
      err := db.AppendLedger(t, credit);
      if err.Some? {
        return;
      }
      err := db.UpdateBalance(t, from, fromRow.balance, Wrap64(fromRow.balance - cents));
      assert err.None?;
      err := db.UpdateBalance(t, to, toRow.balance, Wrap64(toRow.balance + cents));
      assert err.None?;
      PublishTransfer(db.View(), db.txs[t], from, to, cents, key);
      db.Commit(t);
    }

    /** The debit leg's key is never the credit leg's. */
    static lemma SuffixedKeyDiffers(debit: Entry, key: Key)
      requires debit.key == key
      ensures !HasKey([debit], key + CREDIT_SUFFIX)
    {
      assert |key| < |key + CREDIT_SUFFIX|;
    }

    /** Transfer's checks, in order, on the locked rows. */
    method CheckTransfer(from: WalletId, to: WalletId, fromRow: Wallet, toRow: Wallet, amount: string, ghost key: Key)
      returns (cents: Result<int, Failure>)
      ensures cents.Ok? <==>
                && ParseAmount(amount, fromRow.currency).Some?
                && fromRow.status == Active && toRow.status == Active
                && fromRow.currency == toRow.currency && fromRow.owner != toRow.owner
                && Wrap64(fromRow.balance - ParseAmount(amount, fromRow.currency).value) >= 0
      ensures cents.Ok? ==> Some(cents.value) == ParseAmount(amount, fromRow.currency)
      ensures TransferPlan(from, to, fromRow, toRow, amount, key).Ok? <==> cents.Ok?
      ensures cents.Err? ==> TransferPlan(from, to, fromRow, toRow, amount, key) == Err(cents.error)
      ensures cents.Err? ==>
                cents.error in {InvalidAmount, WalletSuspended, CurrencyMismatch, SameOwner, InsufficientBalance}
    {
      var parsed := ParseAmountToCents(amount, fromRow.currency);
      if parsed.None? {
        return Err(InvalidAmount);
      }
      if fromRow.status == Suspended || toRow.status == Suspended {
        return Err(WalletSuspended);
      }
      if fromRow.currency != toRow.currency {
        return Err(CurrencyMismatch);
      }
      if fromRow.owner == toRow.owner {
        return Err(SameOwner);
      }
      if Wrap64(fromRow.balance - parsed.value) < 0 {
        return Err(InsufficientBalance);
      }
      return Ok(parsed.value);
    }

    /** The locked reads and the checks of a transfer. */
    method LockAndCheck(t: TxId, from: WalletId, to: WalletId, amount: string, ghost key: Key)
      returns (cents: Result<int, Failure>)
      requires db.Valid() && t in db.txs && db.txs[t] == NO_TX && from != to
      modifies db`txs
      ensures db.Valid() && t in db.txs && db.Others(t) == old(db.Others(t))
      ensures cents.Ok? <==>
                && from in db.wallets && to in db.wallets && !old(db.RowHeld(t, from)) && !old(db.RowHeld(t, to))
                && TransferRefusal(db.View(), from, to, amount, key) == Running
      ensures cents.Ok? ==>
                && db.txs[t] == NO_TX.(rows := {from, to})
                && CentsFor(db.View(), from, amount) == Some(cents.value)
      ensures cents.Err? ==>
                var locks := Postgres.LockAnswer(db.wallets, old(db.Others(t)), if to < from then to else from,
                                                 if to < from then from else to);
                Failed(cents.error)
                == if locks.Some? then Failed(locks.value) else TransferRefusal(db.View(), from, to, amount, key)
      ensures cents != Err(OptimisticLock)
    {
      var rows := db.GetWalletAndLock(t, from, to);
      if rows.Err? {
        return Err(rows.error);
      }
      var (fromRow, toRow) := rows.value;
      cents := CheckTransfer(from, to, fromRow, toRow, amount, key);
    }

    /** From Begin to the deferred Rollback. */
    method TransferSection(from: WalletId, to: WalletId, amount: string, key: Key) returns (r: Outcome)
      requires db.Valid() && from != to
      modifies db`wallets, db`ledger, db`txs, db`nextTx
      ensures db.Valid() && db.txs == old(db.txs)
      ensures r == Success || r.Failed?
      ensures r == Success <==>
                && Applies(old(db.View()), Perform(Request.Transfer(from, to, amount, key)))
                && !old(Postgres.RowLocked(db.txs, from)) && !old(Postgres.RowLocked(db.txs, to))
                && !old(Postgres.KeyInserted(db.txs, key)) && !old(Postgres.KeyInserted(db.txs, key + CREDIT_SUFFIX))
      ensures r == Success ==> db.View() == Apply(old(db.View()), Perform(Request.Transfer(from, to, amount, key)))
      ensures r != Success ==> db.View() == old(db.View())
      ensures r != Failed(OptimisticLock)
      ensures r == TransferAnswer(old(db.View()), old(db.txs), from, to, amount, key)
    {
      TransferChecked(db.View(), from, to, amount, key);
      var t := db.Begin();
      var cents := LockAndCheck(t, from, to, amount, key);
      if cents.Err? {
        db.Rollback(t);
        return Failed(cents.error);
      }
      var err := WriteTransfer(t, from, to, cents.value, key);
      db.Rollback(t);
      r := if err.None? then Success else Failed(err.value);
    }

    /** Both mutexes looked up, in ascending order. */
    method FindBoth(first: WalletId, second: WalletId)
      requires locks.Valid()
      modifies locks
      ensures locks.Valid() && first in locks.walletLocks && second in locks.walletLocks
      ensures forall w | w in locks.walletLocks ::
                fresh(locks.walletLocks[w]) || locks.walletLocks[w] in old(locks.walletLocks.Values)
      ensures forall w :: MutexTaken(w) == old(MutexTaken(w))
    {
      var _ := locks.LockFor(first);
      var _ := locks.LockFor(second);
    }

    /** Both mutexes taken, in ascending order. */
    method TakeBoth(first: WalletId, second: WalletId) returns (taken: bool)
      requires locks.Valid() && first != second && first in locks.walletLocks && second in locks.walletLocks
      modifies locks.walletLocks.Values
      ensures taken <==> !old(MutexTaken(first)) && !old(MutexTaken(second))
      ensures forall w :: MutexTaken(w) == (old(MutexTaken(w)) || (taken && w in {first, second}))
    {
      taken := locks.TryLock(first);
      if taken {
        taken := locks.TryLock(second);
        if !taken {
          locks.Unlock(first);
        }
      }
    }

    /** The deferred unlocks, last taken first. */
    method ReleaseBoth(first: WalletId, second: WalletId)
      requires locks.Valid() && first in locks.walletLocks && second in locks.walletLocks
      modifies locks.walletLocks.Values
      ensures forall w :: MutexTaken(w) == (old(MutexTaken(w)) && w !in {first, second})
    {
      locks.Unlock(second);
      locks.Unlock(first);
    }

    /** Transfer. */
    method Transfer(from: WalletId, to: WalletId, amount: string, key: Key) returns (r: Outcome)
      requires Valid()
      modifies locks, locks.walletLocks.Values, db`wallets, db`ledger, db`txs, db`nextTx
      ensures Valid() && db.txs == old(db.txs)
      ensures r == Replayed <==> from != to && key != "" && HasKey(old(db.ledger), key)
      ensures r == Success <==>
                && !(key != "" && HasKey(old(db.ledger), key))
                && Applies(old(db.View()), Perform(Request.Transfer(from, to, amount, key)))
                && !old(MutexTaken(from)) && !old(MutexTaken(to))
                && !old(Postgres.RowLocked(db.txs, from)) && !old(Postgres.RowLocked(db.txs, to))
                && !old(Postgres.KeyInserted(db.txs, key)) && !old(Postgres.KeyInserted(db.txs, key + CREDIT_SUFFIX))
      ensures r == Success ==> db.View() == Apply(old(db.View()), Perform(Request.Transfer(from, to, amount, key)))
      ensures r != Success ==> db.View() == old(db.View())
      ensures r != Failed(OptimisticLock)
      ensures from == to ==> r == Failed(SameWallet)
      ensures from != to && !(key != "" && HasKey(old(db.ledger), key)) ==>
                r == if old(MutexTaken(from)) || old(MutexTaken(to)) then Running
                     else TransferAnswer(old(db.View()), old(db.txs), from, to, amount, key)
      ensures forall w :: MutexTaken(w) == old(MutexTaken(w))
    {
      if from == to {
        return Failed(SameWallet);
      }
      if key != "" {
        var existing := db.FindByIdempotencyKey(key);
        if existing.Some? {
          return Replayed;
        }
      }
      var first, second := from, to;
      if second < first {
        first, second := second, first;
      }
      FindBoth(first, second);
      var taken := TakeBoth(first, second);
      if !taken {
        return Running;
      }
      r := TransferSection(from, to, amount, key);
      ReleaseBoth(first, second);
    }

    // ---- SuspendWallet and CreateWallet -----------------------------------

    method SuspendWallet(w: WalletId) returns (r: Outcome)
      requires Valid()
      modifies locks, locks.walletLocks.Values, db`wallets, db`ledger, db`txs, db`nextTx
      ensures Valid() && db.txs == old(db.txs)
      ensures r == Success <==> w in old(db.wallets) && !old(MutexTaken(w)) && !old(Postgres.RowLocked(db.txs, w))
      ensures r == Success ==> db.View() == Apply(old(db.View()), Perform(Suspend(w)))
      ensures r != Success ==> db.View() == old(db.View())
      ensures r == Running <==> old(MutexTaken(w))
      ensures !old(MutexTaken(w)) ==>
                && (r == Failed(WalletNotFound) <==> w !in old(db.wallets))
                && (r == Failed(StorageError) <==> w in old(db.wallets) && old(Postgres.RowLocked(db.txs, w)))
                && r in {Success, Failed(WalletNotFound), Failed(StorageError)}
      ensures forall v :: MutexTaken(v) == old(MutexTaken(v))
    {
      var _ := locks.LockFor(w);
      var taken := locks.TryLock(w);
      if !taken {
        return Running;
      }
      var err := db.UpdateStatus(w);
      locks.Unlock(w);
      r := if err.None? then Success else Failed(err.value);
    }

    /** CreateWallet; the id is the one the database generates. */
    method CreateWallet(id: WalletId, owner: OwnerId, c: Currency) returns (r: Outcome)
      requires id !in db.wallets
      modifies db`wallets
      ensures r == Failed(OwnerNotFound) <==> owner !in db.owners
      ensures r == Success <==> owner in db.owners && Applies(old(db.View()), Open(id, owner, c))
      ensures r == Success ==> db.View() == Apply(old(db.View()), Open(id, owner, c))
      ensures r != Success ==> db.View() == old(db.View())
      ensures r in {Success, Failed(OwnerNotFound), Failed(AlreadyExists)}
    {
      var unknown := db.FindOwner(owner);
      if unknown.Some? {
        return Failed(unknown.value);
      }
      var existing := db.GetByOwnerAndCurrency(owner, c);
      if existing.Ok? {
        return Failed(AlreadyExists);
      }
      var err := db.Create(id, owner, c);
      r := if err.None? then Success else Failed(AlreadyExists);
    }
  }
}
