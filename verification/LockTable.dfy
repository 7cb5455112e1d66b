/** The per-wallet mutexes of one process. */
module LockTable {
  import opened Ledger

  class Mutex {
    var locked: bool

    constructor ()
      ensures !locked
    {
      locked := false;
    }
  }

  class WalletLocks {
    var walletLocks: map<WalletId, Mutex>

    ghost predicate Valid()
      reads this
    {
      forall v, w | v in walletLocks && w in walletLocks && v != w :: walletLocks[v] != walletLocks[w]
    }

    /** Somebody in this process holds the wallet's mutex. */
    ghost predicate Taken(w: WalletId)
      reads this, walletLocks.Values
    {
      w in walletLocks && walletLocks[w].locked
    }

    constructor ()
      ensures Valid() && walletLocks == map[]
    {
      walletLocks := map[];
    }

    /** lockFor: get or create. No mutex is ever replaced, and a new one is
        nobody else's. */
    method LockFor(w: WalletId) returns (m: Mutex)
      requires Valid()
      modifies this
      ensures Valid()
      ensures w in walletLocks && walletLocks[w] == m
      ensures walletLocks.Keys == old(walletLocks.Keys) + {w}
      ensures forall v | v in old(walletLocks) :: walletLocks[v] == old(walletLocks[v])
      ensures w !in old(walletLocks) ==> fresh(m)
      ensures forall v :: Taken(v) == old(Taken(v))
    {
      if w in walletLocks {
        m := walletLocks[w];
      } else {
        m := new Mutex();
        walletLocks := walletLocks[w := m];
      }
    }

    /** Lock on a wallet's mutex; gives up where the source waits. */
    method TryLock(w: WalletId) returns (taken: bool)
      requires Valid() && w in walletLocks
      modifies walletLocks[w]
      ensures taken <==> !old(Taken(w))
      ensures forall v :: Taken(v) == (old(Taken(v)) || v == w)
    {
      taken := !walletLocks[w].locked;
      walletLocks[w].locked := true;
    }

    method Unlock(w: WalletId)
      requires Valid() && w in walletLocks
      modifies walletLocks[w]
      ensures forall v :: Taken(v) == (old(Taken(v)) && v != w)
    {
      walletLocks[w].locked := false;
    }
  }
}
