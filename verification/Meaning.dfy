/** What whole requests mean, in terms of rows, amounts and entries alone: when
    they apply, what they leave behind, and why they are refused. */
module Meaning {
  import opened Int64
  import opened Money
  import opened Ledger
  import opened Protocol

  /** The key fits its column and no entry has it. */
  predicate Unused(ledger: seq<Entry>, key: Key) {
    |key| <= 100 && forall e | e in ledger :: e.key != key
  }

  lemma UnusedIsFree(ledger: seq<Entry>, key: Key)
    ensures Unused(ledger, key) <==> KeyFree(ledger, key)
  {
    if KeyFree(ledger, key) {
      assert forall i | 0 <= i < |ledger| :: ledger[i].key != key;
    }
  }

  // ---- what a request does ------------------------------------------------

  /** A topup applies if and only if its amount parses, the sum fits int64 and
      the key is unused; it adds the amount and records it as a topup. */
  lemma TopupMeaning(d: Db, w: WalletId, amount: string, key: Key)
    requires w in d.wallets ==> 0 <= d.wallets[w].balance <= MAX64
    ensures var a := Perform(Delta(w, amount, Credit, key));
            Applies(d, a) <==>
              && w in d.wallets && Unused(d.ledger, key)
              && ParseAmount(amount, d.wallets[w].currency).Some?
              && d.wallets[w].balance + ParseAmount(amount, d.wallets[w].currency).value <= MAX64
    ensures var a := Perform(Delta(w, amount, Credit, key));
            Applies(d, a) ==>
              var row := d.wallets[w];
              var cents := ParseAmount(amount, row.currency).value;
              Apply(d, a) == Db(d.wallets[w := Wallet(row.owner, row.currency, row.balance + cents, row.status)],
                                d.ledger + [Entry(w, row.currency, cents, Topup, key, None)])
  {
    UnusedIsFree(d.ledger, key);
  }

  /** A payment applies if and only if its amount parses, the balance covers it
      and the key is unused; it takes the amount and records it as a payment. */
  lemma PaymentMeaning(d: Db, w: WalletId, amount: string, key: Key)
    requires w in d.wallets ==> 0 <= d.wallets[w].balance <= MAX64
    ensures var a := Perform(Delta(w, amount, Debit, key));
            Applies(d, a) <==>
              && w in d.wallets && Unused(d.ledger, key)
              && ParseAmount(amount, d.wallets[w].currency).Some?
              && ParseAmount(amount, d.wallets[w].currency).value <= d.wallets[w].balance
    ensures var a := Perform(Delta(w, amount, Debit, key));
            Applies(d, a) ==>
              var row := d.wallets[w];
              var cents := ParseAmount(amount, row.currency).value;
              Apply(d, a) == Db(d.wallets[w := Wallet(row.owner, row.currency, row.balance - cents, row.status)],
                                d.ledger + [Entry(w, row.currency, -cents, Payment, key, None)])
  {
    UnusedIsFree(d.ledger, key);
  }

  /** What an int64 holds where the exact sum was meant. */
  function Stored(exact: int): int {
    if exact > 0x7FFF_FFFF_FFFF_FFFF then exact - 0x1_0000_0000_0000_0000 else exact
  }

  predicate CanTransfer(d: Db, from: WalletId, to: WalletId, amount: string) {
    && from != to && from in d.wallets && to in d.wallets
    && d.wallets[from].status == Active && d.wallets[to].status == Active
    && d.wallets[from].currency == d.wallets[to].currency && d.wallets[from].owner != d.wallets[to].owner
    && ParseAmount(amount, d.wallets[from].currency).Some?
    && ParseAmount(amount, d.wallets[from].currency).value <= d.wallets[from].balance
  }

  /** A transfer applies if and only if the wallets differ, exist, are active, of
      one currency and of two owners, the amount parses, the source covers it and
      both keys are unused; it moves the amount and records both legs. */
  lemma TransferMeaning(d: Db, from: WalletId, to: WalletId, amount: string, key: Key)
    requires from in d.wallets ==> 0 <= d.wallets[from].balance <= MAX64
    requires to in d.wallets ==> 0 <= d.wallets[to].balance <= MAX64
    ensures var a := Perform(Transfer(from, to, amount, key));
            Applies(d, a) <==>
              CanTransfer(d, from, to, amount) && Unused(d.ledger, key) && Unused(d.ledger, key + "-credit")
    ensures var a := Perform(Transfer(from, to, amount, key));
            Applies(d, a) ==>
              var source, target := d.wallets[from], d.wallets[to];
              var cents := ParseAmount(amount, source.currency).value;
              && Apply(d, a).wallets
                 == d.wallets[from := Wallet(source.owner, source.currency, source.balance - cents, Active)]
                             [to := Wallet(target.owner, target.currency, Stored(target.balance + cents), Active)]
              && Apply(d, a).ledger
                 == d.ledger + [Entry(from, source.currency, -cents, TransferOut, key, Some(to)),
                                Entry(to, target.currency, cents, TransferIn, key + "-credit", Some(from))]
  {
    UnusedIsFree(d.ledger, key);
    UnusedIsFree(d.ledger, key + "-credit");
  }

  /** A suspension changes the status of one existing wallet and nothing else. */
  lemma SuspendMeaning(d: Db, w: WalletId)
    ensures Applies(d, Perform(Suspend(w))) <==> w in d.wallets
    ensures w in d.wallets ==>
              var row := d.wallets[w];
              Apply(d, Perform(Suspend(w)))
              == Db(d.wallets[w := Wallet(row.owner, row.currency, row.balance, Suspended)], d.ledger)
  {
  }

  /** A new wallet is empty and active, the owner's only one in its currency. */
  lemma OpenMeaning(d: Db, id: WalletId, owner: OwnerId, c: Currency)
    ensures Applies(d, Open(id, owner, c)) <==>
              id !in d.wallets && forall row | row in d.wallets.Values :: row.owner != owner || row.currency != c
    ensures Applies(d, Open(id, owner, c)) ==>
              Apply(d, Open(id, owner, c)) == Db(d.wallets[id := Wallet(owner, c, 0, Active)], d.ledger)
  {
    if OwnsCurrency(d.wallets, owner, c) {
      var w :| w in d.wallets && d.wallets[w].owner == owner && d.wallets[w].currency == c;
      assert d.wallets[w] in d.wallets.Values;
    }
  }

  // ---- why a request is refused -------------------------------------------

  /** An int64 addition with this exact result comes out negative. */
  predicate NotCovered(exact: int) {
    -0x8000_0000_0000_0000 <= exact < 0 || exact > 0x7FFF_FFFF_FFFF_FFFF
  }

  lemma NotCoveredIsNegative(balance: int, change: int)
    requires InRange(balance) && -MAX64 <= change <= MAX64
    ensures Wrap64(balance + change) < 0 <==> NotCovered(balance + change)
  {
  }

  /** On a balance that has not wrapped: an overdraft, or a sum beyond int64. */
  lemma NotCoveredOnSound(balance: int, cents: int)
    requires 0 <= balance <= MAX64 && 0 <= cents <= MAX64
    ensures NotCovered(balance - cents) <==> cents > balance
    ensures NotCovered(balance + cents) <==> balance + cents > 0x7FFF_FFFF_FFFF_FFFF
  {
  }

  /** Why a topup or payment is refused, in the order of the checks. */
  predicate DeltaReason(d: Db, w: WalletId, amount: string, direction: Direction, why: Failure) {
    if w !in d.wallets then why == WalletNotFound
    else if d.wallets[w].status == Suspended then why == WalletSuspended
    else
      match ParseAmount(amount, d.wallets[w].currency)
      case None => why == InvalidAmount
      case Some(cents) =>
        && why == InsufficientBalance
        && NotCovered(if direction == Credit then d.wallets[w].balance + cents else d.wallets[w].balance - cents)
  }

  /** Why a transfer is refused, in the order of the checks. */
  predicate TransferReason(d: Db, from: WalletId, to: WalletId, amount: string, why: Failure) {
    if from == to then why == SameWallet
    else if from !in d.wallets || to !in d.wallets then why == WalletNotFound
    else
      match ParseAmount(amount, d.wallets[from].currency)
      case None => why == InvalidAmount
      case Some(cents) =>
        if d.wallets[from].status == Suspended || d.wallets[to].status == Suspended then why == WalletSuspended
        else if d.wallets[from].currency != d.wallets[to].currency then why == CurrencyMismatch
        else if d.wallets[from].owner == d.wallets[to].owner then why == SameOwner
        else why == InsufficientBalance && NotCovered(d.wallets[from].balance - cents)
  }

  /** Why the checks of a topup or payment refuse it, in the step machine; Running if they do not. */
  function DeltaRefusal(d: Db, w: WalletId, amount: string, direction: Direction, key: Key): Outcome {
    ReadWalletLine(d, StartCall(0, Delta(w, amount, direction, key))).outcome
  }

  /** Likewise for a transfer. */
  function TransferRefusal(d: Db, from: WalletId, to: WalletId, amount: string, key: Key): Outcome {
    if from !in d.wallets || to !in d.wallets then Failed(WalletNotFound)
    else
      match TransferPlan(from, to, d.wallets[from], d.wallets[to], amount, key)
      case Err(why) => Failed(why)
      case Ok(_) => Running
  }

  lemma CoveredReasons(d: Db, w: WalletId, amount: string, direction: Direction, key: Key)
    requires w in d.wallets && InRange(d.wallets[w].balance) && d.wallets[w].status == Active
    requires ParseAmount(amount, d.wallets[w].currency).Some?
    ensures var balance, cents := d.wallets[w].balance, ParseAmount(amount, d.wallets[w].currency).value;
            DeltaRefusal(d, w, amount, direction, key)
            == if NotCovered(if direction == Credit then balance + cents else balance - cents)
               then Failed(InsufficientBalance) else Running
  {
    var cents := ParseAmount(amount, d.wallets[w].currency).value;
    NotCoveredIsNegative(d.wallets[w].balance, if direction == Credit then cents else -cents);
  }

  /** The step machine refuses a topup or payment for exactly these reasons. */
  lemma DeltaReasons(d: Db, w: WalletId, amount: string, direction: Direction, key: Key, why: Failure)
    requires w in d.wallets ==> InRange(d.wallets[w].balance)
    ensures DeltaRefusal(d, w, amount, direction, key) == Failed(why) <==> DeltaReason(d, w, amount, direction, why)
    ensures DeltaRefusal(d, w, amount, direction, key) in {Running, Failed(WalletNotFound), Failed(WalletSuspended),
                                                           Failed(InvalidAmount), Failed(InsufficientBalance)}
  {
    if w in d.wallets && d.wallets[w].status == Active && ParseAmount(amount, d.wallets[w].currency).Some? {
      CoveredReasons(d, w, amount, direction, key);
    }
  }

  /** And a transfer between two wallets for exactly these. */
  lemma TransferReasons(d: Db, from: WalletId, to: WalletId, amount: string, key: Key, why: Failure)
    requires from != to && (from in d.wallets ==> InRange(d.wallets[from].balance))
    ensures TransferRefusal(d, from, to, amount, key) == Failed(why) <==> TransferReason(d, from, to, amount, why)
    ensures TransferRefusal(d, from, to, amount, key) in {Running, Failed(WalletNotFound), Failed(InvalidAmount),
                                                          Failed(WalletSuspended), Failed(CurrencyMismatch),
                                                          Failed(SameOwner), Failed(InsufficientBalance)}
  {
    if from in d.wallets && ParseAmount(amount, d.wallets[from].currency).Some? {
      NotCoveredIsNegative(d.wallets[from].balance, -ParseAmount(amount, d.wallets[from].currency).value);
    }
  }
}
