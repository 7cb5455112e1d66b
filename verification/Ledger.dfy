/** The committed database (wallets and the append-only ledger) and the atomic
    machine over it: each action is one whole service request, applied at one
    instant. The concurrent protocol is proved to refine this machine. */
module Ledger {
  import opened Int64
  import opened Money

  type WalletId = nat
  type OwnerId = nat
  type Key = string

  /** idempotency_key is VARCHAR(100). */
  const MAX_KEY: nat := 100

  const CREDIT_SUFFIX: string := "-credit"

  datatype Status = Active | Suspended

  datatype Wallet = Wallet(owner: OwnerId, currency: Currency, balance: int, status: Status)

  datatype Operation = Topup | Payment | TransferOut | TransferIn

  datatype Entry = Entry(wallet: WalletId, currency: Currency, amount: int, op: Operation,
                         key: Key, related: Option<WalletId>)

  datatype Db = Db(wallets: map<WalletId, Wallet>, ledger: seq<Entry>)

  const EMPTY_DB := Db(map[], [])

  /** Topup is a credit, Pay a debit of one wallet. */
  datatype Direction = Credit | Debit

  datatype Request =
    | Delta(wallet: WalletId, amount: string, direction: Direction, key: Key)
    | Transfer(from: WalletId, to: WalletId, amount: string, key: Key)
    | Suspend(wallet: WalletId)
    | Create(owner: OwnerId, currency: Currency)

  function Signed(direction: Direction, cents: int): int {
    if direction == Credit then cents else -cents
  }

  function DeltaEntry(w: WalletId, c: Currency, direction: Direction, cents: int, key: Key): Entry {
    Entry(w, c, Signed(direction, cents), if direction == Credit then Topup else Payment, key, None)
  }

  function DebitLeg(from: WalletId, to: WalletId, c: Currency, cents: int, key: Key): Entry {
    Entry(from, c, -cents, TransferOut, key, Some(to))
  }

  function CreditLeg(from: WalletId, to: WalletId, c: Currency, cents: int, key: Key): Entry {
    Entry(to, c, cents, TransferIn, key + CREDIT_SUFFIX, Some(from))
  }

  // ---- ledger queries -----------------------------------------------------

  predicate HasKey(ledger: seq<Entry>, key: Key) {
    exists i | 0 <= i < |ledger| :: ledger[i].key == key
  }

  /** Sum of the amounts of the entries that satisfy p. */
  function SumBy(ledger: seq<Entry>, p: Entry -> bool): int {
    if ledger == [] then 0
    else
      var e := ledger[|ledger| - 1];
      SumBy(ledger[..|ledger| - 1], p) + if p(e) then e.amount else 0
  }

  function OfWallet(w: WalletId): Entry -> bool {
    (e: Entry) => e.wallet == w
  }

  function InCurrency(c: Currency): Entry -> bool {
    (e: Entry) => e.currency == c
  }

  function TopupsIn(c: Currency): Entry -> bool {
    (e: Entry) => e.currency == c && e.op == Topup
  }

  function PaymentsIn(c: Currency): Entry -> bool {
    (e: Entry) => e.currency == c && e.op == Payment
  }

  function LegsIn(c: Currency): Entry -> bool {
    (e: Entry) => e.currency == c && e.op in {TransferOut, TransferIn}
  }

  /** SUM(amount) over one wallet's entries. */
  function WalletSum(ledger: seq<Entry>, w: WalletId): int {
    SumBy(ledger, OfWallet(w))
  }

  /** One wallet's entries, in commit order. */
  function EntriesOf(ledger: seq<Entry>, w: WalletId): seq<Entry> {
    if ledger == [] then []
    else
      var last := ledger[|ledger| - 1];
      EntriesOf(ledger[..|ledger| - 1], w) + if last.wallet == w then [last] else []
  }

  // ---- the atomic machine -------------------------------------------------

  /** A whole request taking effect. Creating a wallet also fixes its new id. */
  datatype Action = Perform(req: Request) | Open(id: WalletId, owner: OwnerId, currency: Currency)

  predicate OwnsCurrency(wallets: map<WalletId, Wallet>, owner: OwnerId, c: Currency) {
    exists w | w in wallets :: wallets[w].owner == owner && wallets[w].currency == c
  }

  function AddTo(w: Wallet, amount: int): Wallet {
    w.(balance := Wrap64(w.balance + amount))
  }

  predicate KeyFree(ledger: seq<Entry>, key: Key) {
    |key| <= MAX_KEY && !HasKey(ledger, key)
  }

  /** May cents be added to or taken from w? The wallet's status is not asked
      about: with several processes the service does not ask either at this point. */
  predicate DeltaApplies(d: Db, w: WalletId, direction: Direction, cents: int, key: Key) {
    && w in d.wallets
    && 0 <= cents <= MAX64
    && Wrap64(d.wallets[w].balance + Signed(direction, cents)) >= 0
    && KeyFree(d.ledger, key)
  }

  function AfterDelta(d: Db, w: WalletId, direction: Direction, cents: int, key: Key): Db
    requires w in d.wallets
  {
    Db(d.wallets[w := AddTo(d.wallets[w], Signed(direction, cents))],
       d.ledger + [DeltaEntry(w, d.wallets[w].currency, direction, cents, key)])
  }

  predicate TransferApplies(d: Db, from: WalletId, to: WalletId, cents: int, key: Key) {
    && from != to && from in d.wallets && to in d.wallets
    && d.wallets[from].status == Active && d.wallets[to].status == Active
    && d.wallets[from].currency == d.wallets[to].currency
    && d.wallets[from].owner != d.wallets[to].owner
    && 0 <= cents <= MAX64
    && Wrap64(d.wallets[from].balance - cents) >= 0
    && KeyFree(d.ledger, key) && KeyFree(d.ledger, key + CREDIT_SUFFIX)
  }

  function AfterTransfer(d: Db, from: WalletId, to: WalletId, cents: int, key: Key): Db
    requires from in d.wallets && to in d.wallets
  {
    var c := d.wallets[from].currency;
    Db(d.wallets[from := AddTo(d.wallets[from], -cents)][to := AddTo(d.wallets[to], cents)],
       d.ledger + [DebitLeg(from, to, c, cents, key), CreditLeg(from, to, c, cents, key)])
  }

  function SetSuspended(d: Db, w: WalletId): Db
    requires w in d.wallets
  {
    d.(wallets := d.wallets[w := d.wallets[w].(status := Suspended)])
  }

  predicate OpenApplies(d: Db, id: WalletId, owner: OwnerId, c: Currency) {
    id !in d.wallets && !OwnsCurrency(d.wallets, owner, c)
  }

  function OpenWallet(d: Db, id: WalletId, owner: OwnerId, c: Currency): Db {
    d.(wallets := d.wallets[id := Wallet(owner, c, 0, Active)])
  }

  /** The amount a request asks for, read in the currency of the wallet it names first. */
  function CentsFor(d: Db, w: WalletId, amount: string): Option<int> {
    if w in d.wallets then ParseAmount(amount, d.wallets[w].currency) else None
  }

  /** May the action take effect, as a whole, on this database? */
  predicate Applies(d: Db, a: Action) {
    match a
    case Perform(Delta(w, amount, direction, key)) =>
      CentsFor(d, w, amount).Some? && DeltaApplies(d, w, direction, CentsFor(d, w, amount).value, key)
    case Perform(Transfer(from, to, amount, key)) =>
      CentsFor(d, from, amount).Some? && TransferApplies(d, from, to, CentsFor(d, from, amount).value, key)
    case Perform(Suspend(w)) => w in d.wallets
    case Perform(Create(_, _)) => false
    case Open(id, owner, c) => OpenApplies(d, id, owner, c)
  }

  function Apply(d: Db, a: Action): Db
    requires Applies(d, a)
  {
    match a
    case Perform(Delta(w, amount, direction, key)) => AfterDelta(d, w, direction, CentsFor(d, w, amount).value, key)
    case Perform(Transfer(from, to, amount, key)) => AfterTransfer(d, from, to, CentsFor(d, from, amount).value, key)
    case Perform(Suspend(w)) => SetSuspended(d, w)
    case Open(id, owner, c) => OpenWallet(d, id, owner, c)
  }

  /** A run of the atomic machine. */
  function AtomicRun(d: Db, actions: seq<Action>): Option<Db> {
    if actions == [] then Some(d)
    else
      match AtomicRun(d, actions[..|actions| - 1])
      case None => None
      case Some(d1) =>
        var a := actions[|actions| - 1];
        if Applies(d1, a) then Some(Apply(d1, a)) else None
  }

  // ---- what every reachable database satisfies ----------------------------

  /** Every entry belongs to a wallet and carries its currency. */
  predicate EntriesKnown(d: Db) {
    forall i | 0 <= i < |d.ledger| ::
      d.ledger[i].wallet in d.wallets && d.ledger[i].currency == d.wallets[d.ledger[i].wallet].currency
  }

  predicate KeysUnique(ledger: seq<Entry>) {
    forall i, j | 0 <= i < j < |ledger| :: ledger[i].key != ledger[j].key
  }

  predicate OneWalletPerCurrency(wallets: map<WalletId, Wallet>) {
    forall v, w | v in wallets && w in wallets && v != w ::
      wallets[v].owner != wallets[w].owner || wallets[v].currency != wallets[w].currency
  }

  /** The cached balance is the ledger sum, in int64 arithmetic. */
  predicate Reconciled(d: Db) {
    forall w | w in d.wallets :: d.wallets[w].balance == Wrap64(WalletSum(d.ledger, w))
  }

  /** a and b are the two legs of one transfer. */
  predicate Mirror(a: Entry, b: Entry) {
    && a.op == TransferOut && b.op == TransferIn
    && b.key == a.key + CREDIT_SUFFIX
    && a.amount <= 0 && b.amount == -a.amount
    && a.currency == b.currency
    && a.wallet != b.wallet && a.related == Some(b.wallet) && b.related == Some(a.wallet)
  }

  /** The legs of a transfer stand next to each other, between different owners. */
  predicate Paired(d: Db)
    requires EntriesKnown(d)
  {
    forall i | 0 <= i < |d.ledger| :: PairedAt(d, i)
  }

  predicate PairedAt(d: Db, i: int)
    requires EntriesKnown(d) && 0 <= i < |d.ledger|
  {
    && (d.ledger[i].op == TransferOut ==>
          && i + 1 < |d.ledger| && Mirror(d.ledger[i], d.ledger[i + 1])
          && d.wallets[d.ledger[i].wallet].owner != d.wallets[d.ledger[i + 1].wallet].owner)
    && (d.ledger[i].op == TransferIn ==> i > 0 && d.ledger[i - 1].op == TransferOut)
  }

  predicate SignsRight(ledger: seq<Entry>) {
    forall i | 0 <= i < |ledger| ::
      && (ledger[i].op == Topup ==> ledger[i].amount >= 0)
      && (ledger[i].op == Payment ==> ledger[i].amount <= 0)
  }

  /** Transfers create and destroy no money. */
  ghost predicate LegsCancel(ledger: seq<Entry>) {
    forall c :: SumBy(ledger, LegsIn(c)) == 0
  }

  /** Committed topups of a currency fit int64. */
  predicate Bounded(ledger: seq<Entry>, c: Currency) {
    SumBy(ledger, TopupsIn(c)) <= MAX64
  }

  /** No wallet was ever overdrawn, at any point of the ledger. */
  ghost predicate NeverOverdrawn(ledger: seq<Entry>) {
    forall w, n | 0 <= n <= |ledger| :: WalletSum(ledger[..n], w) >= 0
  }

  ghost predicate DbInv(d: Db) {
    && EntriesKnown(d)
    && KeysUnique(d.ledger)
    && OneWalletPerCurrency(d.wallets)
    && Reconciled(d)
    && Paired(d)
    && SignsRight(d.ledger)
    && LegsCancel(d.ledger)
    && NeverOverdrawn(d.ledger)
  }
}
