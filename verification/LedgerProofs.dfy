/** What every run of the atomic machine keeps: reconciliation, unique keys,
    paired transfers, conservation and, while topups fit int64, no overdraft. */
module LedgerProofs {
  import opened Int64
  import opened Money
  import opened Ledger

  // ---- sums ---------------------------------------------------------------

  lemma {:induction false} SumByConcat(l: seq<Entry>, m: seq<Entry>, p: Entry -> bool)
    ensures SumBy(l + m, p) == SumBy(l, p) + SumBy(m, p)
  {
    if m == [] {
      assert l + m == l;
    } else {
      var front := m[..|m| - 1];
      assert (l + m)[..|l + m| - 1] == l + front;
      SumByConcat(l, front, p);
    }
  }

  lemma SumByOne(e: Entry, p: Entry -> bool)
    ensures SumBy([e], p) == if p(e) then e.amount else 0
  {
    assert [e][..0] == [];
    assert SumBy([e][..0], p) == 0;
  }

  lemma SumBySnoc(l: seq<Entry>, e: Entry, p: Entry -> bool)
    ensures SumBy(l + [e], p) == SumBy(l, p) + if p(e) then e.amount else 0
  {
    SumByConcat(l, [e], p);
    SumByOne(e, p);
  }

  lemma SumByTwo(l: seq<Entry>, a: Entry, b: Entry, p: Entry -> bool)
    ensures SumBy(l + [a, b], p)
            == SumBy(l, p) + (if p(a) then a.amount else 0) + if p(b) then b.amount else 0
  {
    SumBySnoc(l, a, p);
    SumBySnoc(l + [a], b, p);
    assert l + [a] + [b] == l + [a, b];
  }

  lemma {:induction false} SumByNone(l: seq<Entry>, p: Entry -> bool)
    requires forall i | 0 <= i < |l| :: !p(l[i])
    ensures SumBy(l, p) == 0
  {
    if l != [] {
      SumByNone(l[..|l| - 1], p);
    }
  }

  function Without(m: seq<Entry>, i: nat): seq<Entry>
    requires i < |m|
  {
    m[..i] + m[i + 1..]
  }

  lemma RemoveFromMultiset(m: seq<Entry>, i: nat)
    requires i < |m|
    ensures multiset(Without(m, i)) == multiset(m) - multiset{m[i]}
  {
    SplitAt(m, i);
  }

  lemma SumByInserted(l: seq<Entry>, e: Entry, m: seq<Entry>, p: Entry -> bool)
    ensures SumBy(l + [e] + m, p) == SumBy(l + m, p) + if p(e) then e.amount else 0
  {
    SumByConcat(l, m, p);
    SumBySnoc(l, e, p);
    SumByConcat(l + [e], m, p);
  }

  lemma SplitAt(m: seq<Entry>, i: nat)
    requires i < |m|
    ensures m == m[..i] + [m[i]] + m[i + 1..]
  {
  }

  /** The prefixes of a ledger that two entries were added to. */
  lemma PrefixOfTwo(l: seq<Entry>, a: Entry, b: Entry, n: nat)
    requires n <= |l| + 2
    ensures (l + [a, b])[..n]
            == if n <= |l| then l[..n] else if n == |l| + 1 then l + [a] else l + [a, b]
  {
  }

  lemma PrefixOfOne(l: seq<Entry>, e: Entry, n: nat)
    requires n <= |l| + 1
    ensures (l + [e])[..n] == if n <= |l| then l[..n] else l + [e]
  {
  }

  lemma RemoveFromSum(m: seq<Entry>, i: nat, p: Entry -> bool)
    requires i < |m|
    ensures SumBy(m, p) == SumBy(Without(m, i), p) + if p(m[i]) then m[i].amount else 0
  {
    SplitAt(m, i);
    SumByInserted(m[..i], m[i], m[i + 1..], p);
  }

  /** The order of a ledger does not change any of its sums. */
  lemma {:induction false} SumByPermutation(l: seq<Entry>, m: seq<Entry>, p: Entry -> bool)
    requires multiset(l) == multiset(m)
    ensures SumBy(l, p) == SumBy(m, p)
    decreases |l|
  {
    if l == [] {
      assert |multiset(m)| == 0;
    } else {
      var last := |l| - 1;
      assert l[last] in multiset(m);
      var i :| 0 <= i < |m| && m[i] == l[last];
      RemoveFromMultiset(l, last);
      RemoveFromMultiset(m, i);
      RemoveFromSum(l, last, p);
      RemoveFromSum(m, i, p);
      SumByPermutation(Without(l, last), Without(m, i), p);
    }
  }

  lemma {:induction false} CurrencySplit(l: seq<Entry>, c: Currency)
    ensures SumBy(l, InCurrency(c))
            == SumBy(l, TopupsIn(c)) + SumBy(l, PaymentsIn(c)) + SumBy(l, LegsIn(c))
  {
    if l != [] {
      CurrencySplit(l[..|l| - 1], c);
    }
  }

  lemma {:induction false} PaymentsNotPositive(l: seq<Entry>, c: Currency)
    requires SignsRight(l)
    ensures SumBy(l, PaymentsIn(c)) <= 0
  {
    if l != [] {
      PaymentsNotPositive(l[..|l| - 1], c);
    }
  }

  // ---- one wallet's history -----------------------------------------------

  lemma {:induction false} EntriesOfConcat(l: seq<Entry>, m: seq<Entry>, w: WalletId)
    ensures EntriesOf(l + m, w) == EntriesOf(l, w) + EntriesOf(m, w)
  {
    if m == [] {
      assert l + m == l;
    } else {
      var front := m[..|m| - 1];
      assert (l + m)[..|l + m| - 1] == l + front;
      EntriesOfConcat(l, front, w);
    }
  }

  /** A wallet's history holds all of its entries and no others. */
  lemma {:induction false} HistoryExact(l: seq<Entry>, w: WalletId, e: Entry)
    ensures multiset(EntriesOf(l, w))[e] == if e.wallet == w then multiset(l)[e] else 0
  {
    if l != [] {
      var front, last := l[..|l| - 1], l[|l| - 1];
      assert l == front + [last];
      HistoryExact(front, w, e);
    }
  }

  /** A wallet's history adds up to its ledger sum. */
  lemma {:induction false} HistorySum(l: seq<Entry>, w: WalletId)
    ensures SumBy(EntriesOf(l, w), OfWallet(w)) == WalletSum(l, w)
  {
    if l != [] {
      var front, last := l[..|l| - 1], l[|l| - 1];
      HistorySum(front, w);
      SumBySnoc(EntriesOf(front, w), last, OfWallet(w));
      assert EntriesOf(l, w) == if last.wallet == w then EntriesOf(front, w) + [last] else EntriesOf(front, w);
    }
  }

  lemma HistoryGrows(l: seq<Entry>, l': seq<Entry>, w: WalletId)
    requires l <= l'
    ensures EntriesOf(l, w) <= EntriesOf(l', w)
  {
    assert l' == l + l'[|l|..];
    EntriesOfConcat(l, l'[|l|..], w);
  }

  // ---- totals over wallets ------------------------------------------------

  function WalletsIn(d: Db, c: Currency): set<WalletId> {
    set w | w in d.wallets && d.wallets[w].currency == c
  }

  /** Sum of the ledger sums of a set of wallets. */
  ghost function TotalSum(ws: set<WalletId>, l: seq<Entry>): int {
    if ws == {} then 0
    else
      var w :| w in ws;
      WalletSum(l, w) + TotalSum(ws - {w}, l)
  }

  lemma {:induction false} TotalSumSplit(ws: set<WalletId>, l: seq<Entry>, w: WalletId)
    requires w in ws
    ensures TotalSum(ws, l) == WalletSum(l, w) + TotalSum(ws - {w}, l)
    decreases |ws|
  {
    var v :| v in ws && TotalSum(ws, l) == WalletSum(l, v) + TotalSum(ws - {v}, l);
    if v != w {
      TotalSumSplit(ws - {v}, l, w);
      TotalSumSplit(ws - {w}, l, v);
      assert ws - {v} - {w} == ws - {w} - {v};
    }
  }

  lemma {:induction false} TotalSumSnoc(ws: set<WalletId>, l: seq<Entry>, e: Entry)
    ensures TotalSum(ws, l + [e]) == TotalSum(ws, l) + if e.wallet in ws then e.amount else 0
    decreases |ws|
  {
    if ws == {} {
    } else {
      var w :| w in ws;
      TotalSumSplit(ws, l, w);
      TotalSumSplit(ws, l + [e], w);
      SumBySnoc(l, e, OfWallet(w));
      TotalSumSnoc(ws - {w}, l, e);
    }
  }

  lemma {:induction false} TotalSumEmpty(ws: set<WalletId>)
    ensures TotalSum(ws, []) == 0
    decreases |ws|
  {
    if ws != {} {
      var w :| w in ws;
      TotalSumSplit(ws, [], w);
      TotalSumEmpty(ws - {w});
    }
  }

  /** Adding up the wallets of a currency is adding up its entries. */
  lemma {:induction false} TotalIsCurrencySum(d: Db, l: seq<Entry>, c: Currency)
    requires EntriesKnown(Db(d.wallets, l))
    ensures TotalSum(WalletsIn(d, c), l) == SumBy(l, InCurrency(c))
  {
    if l == [] {
      TotalSumEmpty(WalletsIn(d, c));
    } else {
      var front, e := l[..|l| - 1], l[|l| - 1];
      assert l == front + [e];
      TotalIsCurrencySum(d, front, c);
      TotalSumSnoc(WalletsIn(d, c), front, e);
    }
  }

  lemma {:induction false} PartOfTotal(ws: set<WalletId>, l: seq<Entry>, w: WalletId)
    requires w in ws && forall v | v in ws :: WalletSum(l, v) >= 0
    ensures 0 <= WalletSum(l, w) <= TotalSum(ws, l)
    decreases |ws|
  {
    TotalSumSplit(ws, l, w);
    if ws - {w} != {} {
      var v :| v in ws - {w};
      PartOfTotal(ws - {w}, l, v);
    }
  }

  /** Sum of the cached balances of a set of wallets. */
  ghost function TotalBalance(d: Db, ws: set<WalletId>): int
    requires ws <= d.wallets.Keys
  {
    if ws == {} then 0
    else
      var w :| w in ws;
      d.wallets[w].balance + TotalBalance(d, ws - {w})
  }

  lemma {:induction false} BalancesAreSums(d: Db, ws: set<WalletId>)
    requires ws <= d.wallets.Keys
    requires forall w | w in ws :: d.wallets[w].balance == WalletSum(d.ledger, w)
    ensures TotalBalance(d, ws) == TotalSum(ws, d.ledger)
    decreases |ws|
  {
    if ws != {} {
      var w :| w in ws && TotalBalance(d, ws) == d.wallets[w].balance + TotalBalance(d, ws - {w});
      TotalSumSplit(ws, d.ledger, w);
      BalancesAreSums(d, ws - {w});
    }
  }

  // ---- conservation and its consequences ----------------------------------

  /** A wallet's ledger sum is never negative and never more than was topped up
      in its currency. */
  lemma SumsBounded(d: Db, w: WalletId)
    requires DbInv(d) && w in d.wallets
    ensures 0 <= WalletSum(d.ledger, w) <= SumBy(d.ledger, TopupsIn(d.wallets[w].currency))
  {
    var c := d.wallets[w].currency;
    var ws := WalletsIn(d, c);
    forall v | v in ws
      ensures WalletSum(d.ledger, v) >= 0
    {
      assert d.ledger[..|d.ledger|] == d.ledger;
      assert WalletSum(d.ledger[..|d.ledger|], v) >= 0;
    }
    PartOfTotal(ws, d.ledger, w);
    TotalIsCurrencySum(d, d.ledger, c);
    CurrencySplit(d.ledger, c);
    PaymentsNotPositive(d.ledger, c);
    assert SumBy(d.ledger, LegsIn(c)) == 0;
  }

  /** So the cached balance is that sum exactly as long as the sum fits int64,
      and always while the topups do. */
  lemma BalanceExact(d: Db, w: WalletId)
    requires DbInv(d) && w in d.wallets
    ensures 0 <= WalletSum(d.ledger, w) <= SumBy(d.ledger, TopupsIn(d.wallets[w].currency))
    ensures d.wallets[w].balance == WalletSum(d.ledger, w) <==> WalletSum(d.ledger, w) <= MAX64
  {
    SumsBounded(d, w);
  }

  lemma WrapSum(x: int, y: int, y': int)
    requires Wrap64(y) == Wrap64(y')
    ensures Wrap64(Wrap64(x) + y) == Wrap64(x + y')
  {
    WrapAdd(x, y);
    WrapAdd(y, x);
    WrapAdd(y', x);
  }

  lemma {:induction false} BalancesWrapSums(d: Db, ws: set<WalletId>)
    requires ws <= d.wallets.Keys && Reconciled(d)
    ensures Wrap64(TotalBalance(d, ws)) == Wrap64(TotalSum(ws, d.ledger))
    decreases |ws|
  {
    if ws != {} {
      var w :| w in ws && TotalBalance(d, ws) == d.wallets[w].balance + TotalBalance(d, ws - {w});
      var sum, rest, balances := WalletSum(d.ledger, w), TotalSum(ws - {w}, d.ledger), TotalBalance(d, ws - {w});
      TotalSumSplit(ws, d.ledger, w);
      BalancesWrapSums(d, ws - {w});
      WrapSum(sum, balances, rest);
      assert d.wallets[w].balance == Wrap64(sum);
    }
  }

  /** What the wallets of a currency own is what was topped up minus what was
      paid: by their entries always, by their cached balances in int64 arithmetic
      always and exactly while the topups fit int64. */
  ghost predicate Conserved(d: Db, c: Currency) {
    var ws, net := WalletsIn(d, c), SumBy(d.ledger, TopupsIn(c)) + SumBy(d.ledger, PaymentsIn(c));
    && TotalSum(ws, d.ledger) == net
    && Wrap64(TotalBalance(d, ws)) == Wrap64(net)
    && (Bounded(d.ledger, c) ==> TotalBalance(d, ws) == net)
  }

  lemma Conservation(d: Db, c: Currency)
    requires DbInv(d)
    ensures Conserved(d, c)
  {
    TotalIsCurrencySum(d, d.ledger, c);
    CurrencySplit(d.ledger, c);
    assert SumBy(d.ledger, LegsIn(c)) == 0;
    BalancesWrapSums(d, WalletsIn(d, c));
    if Bounded(d.ledger, c) {
      forall w | w in WalletsIn(d, c)
        ensures d.wallets[w].balance == WalletSum(d.ledger, w)
      {
        BalanceExact(d, w);
      }
      BalancesAreSums(d, WalletsIn(d, c));
    }
  }

  /** With a stored balance that is not negative, the single test for a
      negative result rejects every overdraft and every overflow, and what it
      lets through is the exact sum. */
  lemma WrappedTestIsEnough(balance: int, direction: Direction, cents: int)
    requires 0 <= balance <= MAX64 && 0 <= cents <= MAX64
    ensures var exact := balance + Signed(direction, cents);
            (Wrap64(exact) >= 0 <==> 0 <= exact <= MAX64) && (Wrap64(exact) >= 0 ==> Wrap64(exact) == exact)
  {
  }

  /** Even on a balance that has wrapped, a debit that passes the test leaves the
      exact ledger sum at zero or above. */
  lemma WrappedDebitIsCovered(sum: int, cents: int)
    requires 0 <= sum && 0 <= cents <= MAX64 && Wrap64(Wrap64(sum) - cents) >= 0
    ensures sum - cents >= 0
  {
  }

  /** Every balance is the exact sum of its entries, and not negative. */
  predicate Exact(d: Db) {
    forall w | w in d.wallets :: d.wallets[w].balance == WalletSum(d.ledger, w) && 0 <= d.wallets[w].balance <= MAX64
  }

  /** The check the service does not make: the balance a transfer credits fits int64. */
  predicate CreditFits(d: Db, a: Action) {
    match a
    case Perform(Transfer(from, to, amount, _)) =>
      to in d.wallets && CentsFor(d, from, amount).Some?
      && d.wallets[to].balance + CentsFor(d, from, amount).value <= MAX64
    case _ => true
  }

  /** On exact balances a transfer leaves them exact if and only if its credit fits. */
  lemma TransferExact(d: Db, from: WalletId, to: WalletId, cents: int, key: Key)
    requires Exact(d) && TransferApplies(d, from, to, cents, key)
    ensures Exact(AfterTransfer(d, from, to, cents, key)) <==> d.wallets[to].balance + cents <= MAX64
  {
    var d', c := AfterTransfer(d, from, to, cents, key), d.wallets[from].currency;
    var debit, credit := DebitLeg(from, to, c, cents, key), CreditLeg(from, to, c, cents, key);
    forall w | w in d'.wallets
      ensures WalletSum(d'.ledger, w)
              == WalletSum(d.ledger, w) + if w == from then -cents else if w == to then cents else 0
    {
      SumByTwo(d.ledger, debit, credit, OfWallet(w));
    }
    WrappedTestIsEnough(d.wallets[from].balance, Debit, cents);
    WrappedTestIsEnough(d.wallets[to].balance, Credit, cents);
    assert to in d'.wallets && from in d'.wallets;
  }

  /** A topup or payment always leaves them exact: its own check is enough. */
  lemma DeltaExact(d: Db, w: WalletId, direction: Direction, cents: int, key: Key)
    requires Exact(d) && DeltaApplies(d, w, direction, cents, key)
    ensures Exact(AfterDelta(d, w, direction, cents, key))
  {
    var d' := AfterDelta(d, w, direction, cents, key);
    var e := DeltaEntry(w, d.wallets[w].currency, direction, cents, key);
    WrappedTestIsEnough(d.wallets[w].balance, direction, cents);
    forall v | v in d'.wallets
      ensures WalletSum(d'.ledger, v) == WalletSum(d.ledger, v) + if v == w then e.amount else 0
    {
      SumBySnoc(d.ledger, e, OfWallet(v));
    }
  }

  /** On exact balances an action leaves them exact if and only if its credit fits. */
  lemma ActionExact(d: Db, a: Action)
    requires DbInv(d) && Exact(d) && Applies(d, a)
    ensures Exact(Apply(d, a)) <==> CreditFits(d, a)
  {
    match a
    case Perform(Delta(w, amount, direction, key)) => DeltaExact(d, w, direction, CentsFor(d, w, amount).value, key);
    case Perform(Transfer(from, to, amount, key)) => TransferExact(d, from, to, CentsFor(d, from, amount).value, key);
    case Perform(Suspend(_)) =>
    case Open(id, _, _) => SumByNone(d.ledger, OfWallet(id));
  }

  /** Order independence: two databases whose ledgers hold the same entries, in
      whatever order, agree on the balance of every wallet they share. */
  lemma OrderIndependent(d: Db, d': Db, w: WalletId)
    requires DbInv(d) && DbInv(d') && multiset(d.ledger) == multiset(d'.ledger)
    requires w in d.wallets && w in d'.wallets
    ensures d.wallets[w].balance == d'.wallets[w].balance
  {
    SumByPermutation(d.ledger, d'.ledger, OfWallet(w));
  }

  // ---- transfer pairing ---------------------------------------------------

  lemma SuffixCancels(k: Key, l: Key)
    requires k + CREDIT_SUFFIX == l + CREDIT_SUFFIX
    ensures k == l
  {
    assert k == (k + CREDIT_SUFFIX)[..|k|];
    assert l == (l + CREDIT_SUFFIX)[..|l|];
  }

  /** i and j are the debit and the credit entry of one transfer. */
  predicate LegsOfOne(d: Db, i: nat, j: nat)
    requires EntriesKnown(d) && i < |d.ledger| && j < |d.ledger|
  {
    && Mirror(d.ledger[i], d.ledger[j])
    && d.wallets[d.ledger[i].wallet].owner != d.wallets[d.ledger[j].wallet].owner
  }

  /** transfer_out and transfer_in entries match one to one: each debit leg has
      exactly one credit leg with its key plus the suffix. */
  lemma DebitHasOneCredit(d: Db, i: nat) returns (j: nat)
    requires DbInv(d) && i < |d.ledger| && d.ledger[i].op == TransferOut
    ensures j < |d.ledger| && LegsOfOne(d, i, j)
    ensures forall k | 0 <= k < |d.ledger| && d.ledger[k].key == d.ledger[i].key + CREDIT_SUFFIX :: k == j
  {
    assert PairedAt(d, i);
    j := i + 1;
    forall k | 0 <= k < |d.ledger| && d.ledger[k].key == d.ledger[i].key + CREDIT_SUFFIX
      ensures k == j
    {
      assert d.ledger[k].key == d.ledger[j].key;
    }
  }

  /** And each credit leg has exactly one debit leg. */
  lemma CreditHasOneDebit(d: Db, j: nat) returns (i: nat)
    requires DbInv(d) && j < |d.ledger| && d.ledger[j].op == TransferIn
    ensures i < |d.ledger| && LegsOfOne(d, i, j)
    ensures forall k | 0 <= k < |d.ledger| && d.ledger[j].key == d.ledger[k].key + CREDIT_SUFFIX :: k == i
  {
    assert PairedAt(d, j);
    i := j - 1;
    assert PairedAt(d, i);
    forall k | 0 <= k < |d.ledger| && d.ledger[j].key == d.ledger[k].key + CREDIT_SUFFIX
      ensures k == i
    {
      SuffixCancels(d.ledger[k].key, d.ledger[i].key);
    }
  }
}
