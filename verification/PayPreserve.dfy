/** Every transaction keeps the invariant. One lemma per pair of views that a transaction touches. */
module PayPreserve {
  import Sums
  import opened PayTypes
  import opened PayModel
  import opened PayInvariant

  // ---------- orders that have not been credited ----------

  /** The row o may be written under no: a new request, or the same uncredited request again. */
  ghost predicate OpenWrite(db: Db, no: string, o: PayOrder) {
    && OrderOk(o) && !WasCredited(o)
    && (if no in db.orders
        then !WasCredited(db.orders[no]) && SameRequest(db.orders[no], o.account, o.key)
        else !OrderKeyTaken(db, o.account, o.key))
  }

  /** Inserting an order, or moving one between paying, closed and failed, moves no money. */
  lemma OpenOrderKeeps(db: Db, no: string, o: PayOrder)
    requires Inv(db) && OpenWrite(db, no, o)
    ensures Inv(db.(orders := db.orders[no := o]))
  {
    hide OrdersOk, JournalExact, GroupsBalanced, BookOk, WalletsOk, RunningBalances, LedgerExact, CoinsConserved,
      DiamondsConserved, GiftsOk, CallbacksOk, OpenWrite;
    OpenOrderKeepsOrders(db, no, o);
    OpenOrderKeepsJournal(db, no, o);
    OpenOrderKeepsCallbacks(db, no, o);
    OpenOrderKeepsLedger(db, no, o);
    OpenOrderKeepsBook(db, no, o);
    OpenOrderKeepsCoins(db, no, o);
  }

  lemma OpenOrderKeepsOrders(db: Db, no: string, o: PayOrder)
    requires OrdersOk(db.orders) && OpenWrite(db, no, o)
    ensures OrdersOk(db.orders[no := o])
  {
    assert no !in db.orders ==> forall a :: a in db.orders ==> !SameRequest(db.orders[a], o.account, o.key);
  }

  lemma OpenOrderKeepsJournal(db: Db, no: string, o: PayOrder)
    requires JournalExact(db.orders, db.journal) && OrdersOk(db.orders) && OpenWrite(db, no, o)
    ensures JournalExact(db.orders[no := o], db.journal)
  {
    forall k
      ensures JournalAt(db.journal, k) == OrderLeg(db.orders[no := o], k)
    {
      assert JournalAt(db.journal, k) == OrderLeg(db.orders, k);
    }
  }

  lemma OpenOrderKeepsCallbacks(db: Db, no: string, o: PayOrder)
    requires CallbacksOk(db.orders, db.callbacks) && OrdersOk(db.orders) && OpenWrite(db, no, o)
    ensures CallbacksOk(db.orders[no := o], db.callbacks)
  {
    hide OrdersOk, OrderOk, SplitFee, OrderKeyTaken;
    NewRowHasNoTrade(db, no, o);
    assert forall c :: c in db.callbacks ==> db.callbacks[c].no != no;
  }

  lemma NewRowHasNoTrade(db: Db, no: string, o: PayOrder)
    requires OrdersOk(db.orders) && OpenWrite(db, no, o)
    ensures o.tradeNo.None? && (no in db.orders ==> db.orders[no].tradeNo.None?)
  {
  }

  lemma UncreditedHasNoTrade(orders: map<string, PayOrder>, no: string)
    requires OrdersOk(orders) && no in orders && !WasCredited(orders[no])
    ensures orders[no].tradeNo.None?
  {
  }

  lemma OpenOrderKeepsBook(db: Db, no: string, o: PayOrder)
    requires BookOk(db.orders, db.journal, BookOf(db.book)) && OrdersOk(db.orders) && OpenWrite(db, no, o)
    ensures BookOk(db.orders[no := o], db.journal, BookOf(db.book))
  {
    hide OrderTotal, JournalTotal;
    OrderWrite(db.orders, no, o);
  }

  lemma OpenOrderKeepsCoins(db: Db, no: string, o: PayOrder)
    requires CoinsConserved(db.wallets, db.gifts, db.orders, BookOf(db.book)) && OpenWrite(db, no, o)
    ensures CoinsConserved(db.wallets, db.gifts, db.orders[no := o], BookOf(db.book))
  {
    OrderWrite(db.orders, no, o);
  }

  lemma OpenOrderKeepsLedger(db: Db, no: string, o: PayOrder)
    requires LedgerExact(db.orders, db.gifts, db.withdraws, db.ledger) && OpenWrite(db, no, o)
    ensures LedgerExact(db.orders[no := o], db.gifts, db.withdraws, db.ledger)
  {
    forall k
      ensures RowsOk(db.orders[no := o], db.gifts, db.withdraws, k,
                     LedgerTotal(db.ledger, RowsAt(k)), LedgerTotal(db.ledger, AmountAt(k)))
    {
      assert RowsOk(db.orders, db.gifts, db.withdraws, k, LedgerTotal(db.ledger, RowsAt(k)),
                    LedgerTotal(db.ledger, AmountAt(k)));
    }
  }

  // ---------- posting to a wallet and the ledger ----------

  /** A coin entry whose balance is the wallet's new one keeps wallets and running balances right. */
  lemma CoinPosting(wallets: map<AccountId, Wallet>, ledger: seq<LedgerEntry>, e: LedgerEntry)
    requires WalletsOk(wallets, ledger) && RunningBalances(ledger)
    requires e.currency == Coin && e.balanceAfter == WalletOf(wallets, e.account).coins + Signed(e) >= 0
    ensures WalletsOk(wallets[e.account := WalletOf(wallets, e.account).(coins := e.balanceAfter)], ledger + [e])
    ensures RunningBalances(ledger + [e])
  {
    hide LedgerTotal, RunningBalances;
    LedgerAppend(ledger, e);
    RunningAppend(ledger, e);
  }

  lemma RunningAppend(ledger: seq<LedgerEntry>, e: LedgerEntry)
    requires RunningBalances(ledger)
    requires e.currency == Coin ==> e.balanceAfter == LedgerTotal(ledger + [e], CoinBalance(e.account))
    ensures RunningBalances(ledger + [e])
  {
    hide LedgerTotal;
    var l := ledger + [e];
    forall i | 0 <= i < |l| && l[i].currency == Coin
      ensures l[i].balanceAfter == LedgerTotal(l[..i + 1], CoinBalance(l[i].account))
    {
      if i < |ledger| {
        assert l[..i + 1] == ledger[..i + 1];
      } else {
        assert l[..i + 1] == l;
      }
    }
  }

  /** A diamond entry that matches the change of the wallet's diamonds, available and frozen together. */
  lemma DiamondPosting(wallets: map<AccountId, Wallet>, ledger: seq<LedgerEntry>, e: LedgerEntry, w: Wallet)
    requires WalletsOk(wallets, ledger) && RunningBalances(ledger)
    requires e.currency == Diamond && w.coins == WalletOf(wallets, e.account).coins && w.diamonds >= 0 && w.frozen >= 0
    requires w.diamonds + w.frozen
             == WalletOf(wallets, e.account).diamonds + WalletOf(wallets, e.account).frozen + Signed(e)
    ensures WalletsOk(wallets[e.account := w], ledger + [e])
    ensures RunningBalances(ledger + [e])
  {
    hide LedgerTotal, RunningBalances;
    LedgerAppend(ledger, e);
    RunningAppend(ledger, e);
  }

  /** Two sets of business rows that call for the same ledger entry under k. */
  ghost predicate SamePosting(db: Db, d: Db, k: LedgerKey) {
    && (Posted(db.orders, db.gifts, db.withdraws, k) <==> Posted(d.orders, d.gifts, d.withdraws, k))
    && (Posted(d.orders, d.gifts, d.withdraws, k) ==>
          PostedAmount(db.orders, db.gifts, db.withdraws, k) == PostedAmount(d.orders, d.gifts, d.withdraws, k))
  }

  /** Appending the one entry that the changed business row calls for. */
  lemma LedgerPosting(db: Db, d: Db, e: LedgerEntry)
    requires LedgerExact(db.orders, db.gifts, db.withdraws, db.ledger)
    requires d.ledger == db.ledger + [e]
    requires forall k :: k != KeyOf(e) ==> SamePosting(db, d, k)
    requires !Posted(db.orders, db.gifts, db.withdraws, KeyOf(e))
    requires Posted(d.orders, d.gifts, d.withdraws, KeyOf(e))
    requires e.amount == PostedAmount(d.orders, d.gifts, d.withdraws, KeyOf(e))
          || (e.biz == BizChargeback && 0 <= e.amount <= PostedAmount(d.orders, d.gifts, d.withdraws, KeyOf(e)))
    ensures LedgerExact(d.orders, d.gifts, d.withdraws, d.ledger)
  {
    LedgerAppend(db.ledger, e);
    forall k
      ensures RowsOk(d.orders, d.gifts, d.withdraws, k, LedgerTotal(d.ledger, RowsAt(k)),
                     LedgerTotal(d.ledger, AmountAt(k)))
    {
      assert RowsOk(db.orders, db.gifts, db.withdraws, k, LedgerTotal(db.ledger, RowsAt(k)),
                    LedgerTotal(db.ledger, AmountAt(k)));
      assert k != KeyOf(e) ==> SamePosting(db, d, k);
    }
  }

  ghost predicate EmptyChargeback(db: Db, d: Db, k: LedgerKey) {
    && k.biz == BizChargeback && !Posted(db.orders, db.gifts, db.withdraws, k)
    && Posted(d.orders, d.gifts, d.withdraws, k)
    && PostedAmount(d.orders, d.gifts, d.withdraws, k) >= 0
  }

  /** A change of business rows that calls for no entry, except that a chargeback may find no coins. */
  lemma LedgerUnposted(db: Db, d: Db)
    requires LedgerExact(db.orders, db.gifts, db.withdraws, db.ledger)
    requires d.ledger == db.ledger
    requires forall k: LedgerKey :: SamePosting(db, d, k) || EmptyChargeback(db, d, k)
    ensures LedgerExact(d.orders, d.gifts, d.withdraws, d.ledger)
  {
    forall k
      ensures RowsOk(d.orders, d.gifts, d.withdraws, k, LedgerTotal(d.ledger, RowsAt(k)),
                     LedgerTotal(d.ledger, AmountAt(k)))
    {
      assert SamePosting(db, d, k) || EmptyChargeback(db, d, k);
      assert RowsOk(db.orders, db.gifts, db.withdraws, k, LedgerTotal(db.ledger, RowsAt(k)),
                    LedgerTotal(db.ledger, AmountAt(k)));
    }
  }

  /** Changing only coins leaves the diamond columns as they were. */
  lemma CoinWriteKeepsDiamonds(db: Db, a: AccountId, coins: int, b: PlatformBook)
    requires DiamondsConserved(db.wallets, db.gifts, db.withdraws, BookOf(db.book)) &&
             b.payout == BookOf(db.book).payout
    ensures DiamondsConserved(db.wallets[a := WalletOf(db.wallets, a).(coins := coins)], db.gifts, db.withdraws, b)
  {
    WalletWrite(db.wallets, a, WalletOf(db.wallets, a).(coins := coins));
    var wallets := db.wallets[a := WalletOf(db.wallets, a).(coins := coins)];
    forall x
      ensures WalletOf(wallets, x).frozen == WithdrawTotal(db.withdraws, ReviewingOf(x))
    {
      assert WalletOf(wallets, x).frozen == WalletOf(db.wallets, x).frozen;
    }
  }

  // ---------- credit ----------

  /** The state in which a first successful notice is accepted. */
  ghost predicate Creditable(db: Db, channel: string, cb: Callback) {
    && cb.no in db.orders && !WasCredited(db.orders[cb.no])
    && db.orders[cb.no].channel == channel && db.orders[cb.no].amount == cb.amount
    && !TradeTaken(db, cb.tradeNo)
  }

  lemma CreditKeeps(db: Db, channel: string, cb: Callback, now: Time)
    requires Inv(db) && Creditable(db, channel, cb)
    ensures Inv(Credited(db, channel, cb, now))
  {
    hide OrdersOk, JournalExact, GroupsBalanced, BookOk, WalletsOk, RunningBalances, LedgerExact, CoinsConserved,
      DiamondsConserved, GiftsOk, CallbacksOk, WasCredited, TradeTaken, PaidOrder, SplitFee, PostPay;
    CreditKeepsOrders(db, channel, cb, now);
    CreditKeepsCallbacks(db, channel, cb, now);
    CreditKeepsJournal(db, channel, cb, now);
    CreditKeepsGroups(db, channel, cb, now);
    CreditKeepsBook(db, channel, cb, now);
    CreditKeepsLedger(db, channel, cb, now);
    CreditKeepsCoins(db, channel, cb, now);
    CreditKeepsWallets(db, channel, cb, now);
    var o := db.orders[cb.no];
    CoinWriteKeepsDiamonds(db, o.account, WalletOf(db.wallets, o.account).coins + o.coins,
                           BookOf(Credited(db, channel, cb, now).book));
  }

  lemma CreditKeepsWallets(db: Db, channel: string, cb: Callback, now: Time)
    requires OrdersOk(db.orders) && WalletsOk(db.wallets, db.ledger) && RunningBalances(db.ledger) &&
             Creditable(db, channel, cb)
    ensures WalletsOk(Credited(db, channel, cb, now).wallets, Credited(db, channel, cb, now).ledger)
    ensures RunningBalances(Credited(db, channel, cb, now).ledger)
  {
    CoinPosting(db.wallets, db.ledger, Credited(db, channel, cb, now).ledger[|db.ledger|]);
  }

  lemma CreditKeepsOrders(db: Db, channel: string, cb: Callback, now: Time)
    requires OrdersOk(db.orders) && Creditable(db, channel, cb)
    ensures OrdersOk(Credited(db, channel, cb, now).orders)
  {
  }

  lemma CreditKeepsCallbacks(db: Db, channel: string, cb: Callback, now: Time)
    requires CallbacksOk(db.orders, db.callbacks) && OrdersOk(db.orders) && Creditable(db, channel, cb)
    ensures CallbacksOk(Credited(db, channel, cb, now).orders, Credited(db, channel, cb, now).callbacks)
    ensures (channel, cb.tradeNo) !in db.callbacks
  {
    hide OrdersOk, CallbacksOk, WasCredited, SplitFee, PostPay;
    UncreditedHasNoTrade(db.orders, cb.no);
    LogCallback(db.orders, db.callbacks, cb.no, PaidOrder(db.orders[cb.no], cb.tradeNo, now), cb.tradeNo);
  }

  lemma LogCallback(orders: map<string, PayOrder>, callbacks: map<(string, string), CallbackLog>,
                    no: string, paid: PayOrder, trade: string)
    requires CallbacksOk(orders, callbacks) && no in orders && orders[no].tradeNo.None?
    requires forall n :: n in orders ==> orders[n].tradeNo != Some(trade)
    requires paid.tradeNo == Some(trade)
    ensures CallbacksOk(orders[no := paid], callbacks[(paid.channel, trade) := CallbackLog(no, paid.amount)])
    ensures (paid.channel, trade) !in callbacks
  {
  }

  lemma CreditKeepsJournal(db: Db, channel: string, cb: Callback, now: Time)
    requires JournalExact(db.orders, db.journal) && OrdersOk(db.orders) && Creditable(db, channel, cb)
    ensures JournalExact(Credited(db, channel, cb, now).orders, Credited(db, channel, cb, now).journal)
  {
    var d := Credited(db, channel, cb, now);
    forall k
      ensures JournalAt(d.journal, k) == OrderLeg(d.orders, k)
    {
      assert JournalAt(db.journal, k) == OrderLeg(db.orders, k);
    }
  }

  /** No journal row of this order's recharge group exists before the credit. */
  lemma CreditPostsFresh(db: Db, no: string)
    requires JournalExact(db.orders, db.journal) && no in db.orders && !WasCredited(db.orders[no])
    ensures forall account, dir :: FiatKey(account, dir, BizRecharge, no) !in db.journal
  {
    forall account, dir
      ensures FiatKey(account, dir, BizRecharge, no) !in db.journal
    {
      assert JournalAt(db.journal, FiatKey(account, dir, BizRecharge, no)) == 0;
    }
  }

  lemma CreditTotals(j: map<FiatKey, int>, no: string, o: PayOrder)
    requires forall account, dir :: FiatKey(account, dir, BizRecharge, no) !in j
    requires o.amount == o.fee + o.net
    ensures forall m :: JournalTotal(PostPay(j, no, o), m) == JournalTotal(j, m)
                        + (match m
                           case GroupNet(_, _) => 0
                           case NetDebit(a) =>
                             match a
                             case Receivable => o.net
                             case Fee => o.fee
                             case Prepay => -o.amount
                             case Bank => 0)
  {
    var j1 := Post(j, BizRecharge, no, Receivable, Debit, o.net);
    var j2 := Post(j1, BizRecharge, no, Fee, Debit, o.fee);
    JournalPost(j, BizRecharge, no, Receivable, Debit, o.net);
    JournalPost(j1, BizRecharge, no, Fee, Debit, o.fee);
    JournalPost(j2, BizRecharge, no, Prepay, Credit, o.amount);
  }

  lemma CreditKeepsGroups(db: Db, channel: string, cb: Callback, now: Time)
    requires JournalExact(db.orders, db.journal) && OrdersOk(db.orders) && Creditable(db, channel, cb)
    requires GroupsBalanced(db.journal)
    ensures GroupsBalanced(Credited(db, channel, cb, now).journal)
  {
    CreditPostsFresh(db, cb.no);
    CreditTotals(db.journal, cb.no, PaidOrder(db.orders[cb.no], cb.tradeNo, now));
  }

  lemma CreditKeepsBook(db: Db, channel: string, cb: Callback, now: Time)
    requires JournalExact(db.orders, db.journal) && OrdersOk(db.orders) && Creditable(db, channel, cb)
    requires BookOk(db.orders, db.journal, BookOf(db.book))
    ensures BookOk(Credited(db, channel, cb, now).orders, Credited(db, channel, cb, now).journal,
                   BookOf(Credited(db, channel, cb, now).book))
  {
    hide JournalExact, PostPay, OrderTotal, JournalTotal;
    var paid := PaidOrder(db.orders[cb.no], cb.tradeNo, now);
    CreditPostsFresh(db, cb.no);
    CreditTotals(db.journal, cb.no, paid);
    OrderWrite(db.orders, cb.no, paid);
  }

  lemma CreditKeepsLedger(db: Db, channel: string, cb: Callback, now: Time)
    requires LedgerExact(db.orders, db.gifts, db.withdraws, db.ledger) && Creditable(db, channel, cb)
    ensures LedgerExact(Credited(db, channel, cb, now).orders, db.gifts, db.withdraws,
                        Credited(db, channel, cb, now).ledger)
  {
    var d := Credited(db, channel, cb, now);
    LedgerPosting(db, d, d.ledger[|db.ledger|]);
  }

  lemma CreditKeepsCoins(db: Db, channel: string, cb: Callback, now: Time)
    requires CoinsConserved(db.wallets, db.gifts, db.orders, BookOf(db.book)) && Creditable(db, channel, cb)
    ensures CoinsConserved(Credited(db, channel, cb, now).wallets, db.gifts, Credited(db, channel, cb, now).orders,
                           BookOf(Credited(db, channel, cb, now).book))
  {
    hide OrderTotal, WalletTotal, GiftTotal;
    var o := db.orders[cb.no];
    var w := WalletOf(db.wallets, o.account);
    OrderWrite(db.orders, cb.no, PaidOrder(o, cb.tradeNo, now));
    WalletWrite(db.wallets, o.account, w.(coins := w.coins + o.coins));
  }

  // ---------- settlement ----------

  ghost predicate Settleable(db: Db, no: string) {
    no in db.orders && db.orders[no].status == Paid && db.orders[no].settle == SettlePending
  }

  lemma SettleKeeps(db: Db, no: string, now: Time)
    requires Inv(db) && Settleable(db, no)
    ensures Inv(Settled(db, no, now))
  {
    hide OrdersOk, JournalExact, GroupsBalanced, BookOk, WalletsOk, RunningBalances, LedgerExact, CoinsConserved,
      DiamondsConserved, GiftsOk, CallbacksOk, PostSettle;
    SettleKeepsOrders(db, no, now);
    SettleKeepsCallbacks(db, no, now);
    SettleKeepsJournal(db, no, now);
    SettleKeepsGroups(db, no, now);
    SettleKeepsBook(db, no, now);
    SettleKeepsLedger(db, no, now);
    SettleKeepsCoins(db, no, now);
    assert BookOf(Settled(db, no, now).book).payout == BookOf(db.book).payout;
    SamePayout(db.wallets, db.gifts, db.withdraws, BookOf(db.book), BookOf(Settled(db, no, now).book));
  }

  lemma SamePayout(wallets: map<AccountId, Wallet>, gifts: map<string, GiftOrder>,
                   withdraws: map<string, WithdrawOrder>, b: PlatformBook, c: PlatformBook)
    requires DiamondsConserved(wallets, gifts, withdraws, b) && b.payout == c.payout
    ensures DiamondsConserved(wallets, gifts, withdraws, c)
  {
  }

  lemma SettleKeepsOrders(db: Db, no: string, now: Time)
    requires OrdersOk(db.orders) && Settleable(db, no)
    ensures OrdersOk(Settled(db, no, now).orders)
  {
  }

  lemma SettleKeepsCallbacks(db: Db, no: string, now: Time)
    requires CallbacksOk(db.orders, db.callbacks) && Settleable(db, no)
    ensures CallbacksOk(Settled(db, no, now).orders, db.callbacks)
  {
  }

  lemma SettleKeepsJournal(db: Db, no: string, now: Time)
    requires JournalExact(db.orders, db.journal) && OrdersOk(db.orders) && Settleable(db, no)
    ensures JournalExact(Settled(db, no, now).orders, Settled(db, no, now).journal)
  {
    hide SplitFee, KnownChannel, ReverseLeg;
    var d := Settled(db, no, now);
    forall k
      ensures JournalAt(d.journal, k) == OrderLeg(d.orders, k)
    {
      assert JournalAt(db.journal, k) == OrderLeg(db.orders, k);
    }
  }

  /** No journal row of this order's settlement group exists before it settles. */
  lemma SettlePostsFresh(db: Db, no: string)
    requires JournalExact(db.orders, db.journal) && OrdersOk(db.orders) && Settleable(db, no)
    ensures forall account, dir :: FiatKey(account, dir, BizSettle, no) !in db.journal
  {
    forall account, dir
      ensures FiatKey(account, dir, BizSettle, no) !in db.journal
    {
      assert JournalAt(db.journal, FiatKey(account, dir, BizSettle, no)) == 0;
    }
  }

  lemma SettleTotals(j: map<FiatKey, int>, no: string, o: PayOrder)
    requires forall account, dir :: FiatKey(account, dir, BizSettle, no) !in j
    ensures forall m :: JournalTotal(PostSettle(j, no, o), m) == JournalTotal(j, m)
                        + (if m == NetDebit(Bank) then o.net else if m == NetDebit(Receivable) then -o.net else 0)
  {
    JournalPost(j, BizSettle, no, Bank, Debit, o.net);
    JournalPost(Post(j, BizSettle, no, Bank, Debit, o.net), BizSettle, no, Receivable, Credit, o.net);
  }

  lemma SettleKeepsGroups(db: Db, no: string, now: Time)
    requires JournalExact(db.orders, db.journal) && OrdersOk(db.orders) && Settleable(db, no)
    requires GroupsBalanced(db.journal)
    ensures GroupsBalanced(Settled(db, no, now).journal)
  {
    SettlePostsFresh(db, no);
    SettleTotals(db.journal, no, db.orders[no]);
  }

  lemma SettleKeepsBook(db: Db, no: string, now: Time)
    requires JournalExact(db.orders, db.journal) && OrdersOk(db.orders) && Settleable(db, no)
    requires BookOk(db.orders, db.journal, BookOf(db.book))
    ensures BookOk(Settled(db, no, now).orders, Settled(db, no, now).journal, BookOf(Settled(db, no, now).book))
  {
    hide JournalExact, PostSettle, OrderTotal, JournalTotal, OrdersOk;
    SettlePostsFresh(db, no);
    SettleTotals(db.journal, no, db.orders[no]);
    OrderWrite(db.orders, no, SettledOrder(db.orders[no], now));
  }

  lemma SettleKeepsLedger(db: Db, no: string, now: Time)
    requires LedgerExact(db.orders, db.gifts, db.withdraws, db.ledger) && Settleable(db, no)
    ensures LedgerExact(Settled(db, no, now).orders, db.gifts, db.withdraws, db.ledger)
  {
    LedgerUnposted(db, Settled(db, no, now));
  }

  lemma SettleKeepsCoins(db: Db, no: string, now: Time)
    requires CoinsConserved(db.wallets, db.gifts, db.orders, BookOf(db.book)) && Settleable(db, no)
    ensures CoinsConserved(db.wallets, db.gifts, Settled(db, no, now).orders, BookOf(Settled(db, no, now).book))
  {
    OrderWrite(db.orders, no, SettledOrder(db.orders[no], now));
  }

  // ---------- refund and chargeback ----------

  ghost predicate Reversible(db: Db, no: string, chargeback: bool) {
    && no in db.orders && db.orders[no].status == Paid && db.orders[no].settle in {SettlePending, SettleSettled}
    && (chargeback || db.orders[no].coins <= WalletOf(db.wallets, db.orders[no].account).coins)
  }

  lemma ReverseKeeps(db: Db, no: string, chargeback: bool, now: Time)
    requires Inv(db) && Reversible(db, no, chargeback)
    ensures Inv(Reversed(db, no, chargeback, now))
  {
    hide OrdersOk, JournalExact, GroupsBalanced, BookOk, WalletsOk, RunningBalances, LedgerExact, CoinsConserved,
      DiamondsConserved, GiftsOk, CallbacksOk, PostReverse, ReversedOrder, Claw;
    ReverseKeepsOrders(db, no, chargeback, now);
    ReverseKeepsCallbacks(db, no, chargeback, now);
    ReverseKeepsJournal(db, no, chargeback, now);
    ReverseKeepsGroups(db, no, chargeback, now);
    ReverseKeepsBook(db, no, chargeback, now);
    ReverseKeepsLedger(db, no, chargeback, now);
    ReverseKeepsCoins(db, no, chargeback, now);
    ReverseKeepsWallets(db, no, chargeback, now);
    var o := db.orders[no];
    var w := WalletOf(db.wallets, o.account);
    CoinWriteKeepsDiamonds(db, o.account, w.coins - Claw(o, w), BookOf(Reversed(db, no, chargeback, now).book));
  }

  lemma ReverseKeepsOrders(db: Db, no: string, chargeback: bool, now: Time)
    requires OrdersOk(db.orders) && Reversible(db, no, chargeback)
    ensures OrdersOk(Reversed(db, no, chargeback, now).orders)
  {
    hide PostReverse, ReversedBook, Claw, OrderOk;
    ReversedRowOk(db.orders[no], chargeback, now);
  }

  lemma ReversedRowOk(o: PayOrder, chargeback: bool, now: Time)
    requires OrderOk(o) && o.status == Paid
    ensures OrderOk(ReversedOrder(o, chargeback, now))
  {
    hide SplitFee, KnownChannel;
  }

  lemma ReverseKeepsCallbacks(db: Db, no: string, chargeback: bool, now: Time)
    requires CallbacksOk(db.orders, db.callbacks) && Reversible(db, no, chargeback)
    ensures CallbacksOk(Reversed(db, no, chargeback, now).orders, db.callbacks)
  {
  }

  lemma ReverseKeepsJournal(db: Db, no: string, chargeback: bool, now: Time)
    requires JournalExact(db.orders, db.journal) && OrdersOk(db.orders) && Reversible(db, no, chargeback)
    ensures JournalExact(Reversed(db, no, chargeback, now).orders, Reversed(db, no, chargeback, now).journal)
  {
    hide PostReverse, OrdersOk, ReverseLeg, LedgerExact;
    var d := Reversed(db, no, chargeback, now);
    ReversePostsFresh(db, no, chargeback);
    SettledHasDate(db.orders, no);
    forall k
      ensures JournalAt(d.journal, k) == OrderLeg(d.orders, k)
      ensures k in d.journal ==> d.journal[k] != 0
    {
      assert JournalAt(db.journal, k) == OrderLeg(db.orders, k);
      ReverseRows(db.journal, ReverseBiz(chargeback), no, db.orders[no],
                  ReversedOrder(db.orders[no], chargeback, now), k);
    }
  }

  lemma SettledHasDate(orders: map<string, PayOrder>, no: string)
    requires OrdersOk(orders) && no in orders && orders[no].status == Paid
    ensures orders[no].settle == SettleSettled <==> orders[no].settleAt.Some?
  {
  }

  /** The rows a reversal adds are those its order row calls for afterwards. */
  lemma ReverseRows(j: map<FiatKey, int>, biz: Biz, no: string, o: PayOrder, reversed: PayOrder, k: FiatKey)
    requires forall account, dir :: FiatKey(account, dir, biz, no) !in j
    requires reversed.fee == o.fee && reversed.net == o.net && reversed.amount == o.amount
    requires reversed.settleAt.Some? <==> o.settle == SettleSettled
    ensures JournalAt(PostReverse(j, biz, no, o), k) 
            == if k.biz == biz && k.no == no then ReverseLeg(reversed, k) else JournalAt(j, k)
    ensures k in PostReverse(j, biz, no, o) ==> PostReverse(j, biz, no, o)[k] != 0 || k in j
    ensures k in j ==> k in PostReverse(j, biz, no, o) && PostReverse(j, biz, no, o)[k] == j[k]
  {
    assert k.biz == biz && k.no == no ==> k == FiatKey(k.account, k.direction, biz, no);
  }

  /** No journal row of this order's refund or chargeback group exists before it is reversed. */
  lemma ReversePostsFresh(db: Db, no: string, chargeback: bool)
    requires JournalExact(db.orders, db.journal) && OrdersOk(db.orders) && Reversible(db, no, chargeback)
    ensures forall account, dir :: FiatKey(account, dir, ReverseBiz(chargeback), no) !in db.journal
  {
    forall account, dir
      ensures FiatKey(account, dir, ReverseBiz(chargeback), no) !in db.journal
    {
      assert JournalAt(db.journal, FiatKey(account, dir, ReverseBiz(chargeback), no)) == 0;
    }
  }

  /** What reversing an order takes off each fiat account. */
  function ReverseNet(o: PayOrder, a: FiatAccount): int {
    match a
    case Receivable => if o.settle == SettleSettled then 0 else -o.net
    case Bank => if o.settle == SettleSettled then -o.net else 0
    case Fee => -o.fee
    case Prepay => o.amount
  }

  lemma ReverseTotals(j: map<FiatKey, int>, biz: Biz, no: string, o: PayOrder)
    requires forall account, dir :: FiatKey(account, dir, biz, no) !in j
    requires o.amount == o.fee + o.net
    ensures forall m :: JournalTotal(PostReverse(j, biz, no, o), m) == JournalTotal(j, m)
                        + (match m case GroupNet(_, _) => 0 case NetDebit(a) => ReverseNet(o, a))
  {
    hide JournalTotal;
    var j0 := PostUnsettle(j, biz, no, o);
    if o.settle == SettleSettled {
      JournalPost(j, biz, no, Receivable, Debit, o.net);
      JournalPost(Post(j, biz, no, Receivable, Debit, o.net), biz, no, Bank, Credit, o.net);
    }
    var j1 := Post(j0, biz, no, Prepay, Debit, o.amount);
    var j2 := Post(j1, biz, no, Receivable, Credit, o.net);
    JournalPost(j0, biz, no, Prepay, Debit, o.amount);
    JournalPost(j1, biz, no, Receivable, Credit, o.net);
    JournalPost(j2, biz, no, Fee, Credit, o.fee);
  }

  lemma ReverseKeepsGroups(db: Db, no: string, chargeback: bool, now: Time)
    requires JournalExact(db.orders, db.journal) && OrdersOk(db.orders) && Reversible(db, no, chargeback)
    requires GroupsBalanced(db.journal)
    ensures GroupsBalanced(Reversed(db, no, chargeback, now).journal)
  {
    ReversePostsFresh(db, no, chargeback);
    ReverseTotals(db.journal, ReverseBiz(chargeback), no, db.orders[no]);
  }

  lemma ReverseKeepsBook(db: Db, no: string, chargeback: bool, now: Time)
    requires JournalExact(db.orders, db.journal) && OrdersOk(db.orders) && Reversible(db, no, chargeback)
    requires BookOk(db.orders, db.journal, BookOf(db.book))
    ensures BookOk(Reversed(db, no, chargeback, now).orders, Reversed(db, no, chargeback, now).journal,
                   BookOf(Reversed(db, no, chargeback, now).book))
  {
    hide JournalExact, PostReverse, OrderTotal, JournalTotal, SplitFee, KnownChannel, Claw, WalletOf;
    ReversePostsFresh(db, no, chargeback);
    ReverseTotals(db.journal, ReverseBiz(chargeback), no, db.orders[no]);
    OrderWrite(db.orders, no, ReversedOrder(db.orders[no], chargeback, now));
  }

  lemma ClawBounds(db: Db, no: string, chargeback: bool)
    requires OrdersOk(db.orders) && WalletsOk(db.wallets, db.ledger) && Reversible(db, no, chargeback)
    ensures 0 <= Claw(db.orders[no], WalletOf(db.wallets, db.orders[no].account)) <= db.orders[no].coins
    ensures Claw(db.orders[no], WalletOf(db.wallets, db.orders[no].account))
            <= WalletOf(db.wallets, db.orders[no].account).coins
    ensures !chargeback ==> Claw(db.orders[no], WalletOf(db.wallets, db.orders[no].account)) == db.orders[no].coins
  {
  }

  lemma ReverseKeepsLedger(db: Db, no: string, chargeback: bool, now: Time)
    requires OrdersOk(db.orders) && WalletsOk(db.wallets, db.ledger)
    requires LedgerExact(db.orders, db.gifts, db.withdraws, db.ledger) && Reversible(db, no, chargeback)
    ensures LedgerExact(Reversed(db, no, chargeback, now).orders, db.gifts, db.withdraws,
                        Reversed(db, no, chargeback, now).ledger)
  {
    hide LedgerExact, PostReverse, OrdersOk, WalletsOk, Claw, Sums.SumSeq;
    var d := Reversed(db, no, chargeback, now);
    var o := db.orders[no];
    var w := WalletOf(db.wallets, o.account);
    var claw := Claw(o, w);
    ClawBounds(db, no, chargeback);
    if claw > 0 {
      LedgerPosting(db, d,
                    LedgerEntry(o.account, Coin, Debit, claw, w.coins - claw, ReverseBiz(chargeback), no, o.key));
    } else {
      LedgerUnposted(db, d);
    }
  }

  lemma ReverseKeepsCoins(db: Db, no: string, chargeback: bool, now: Time)
    requires OrdersOk(db.orders) && WalletsOk(db.wallets, db.ledger)
    requires CoinsConserved(db.wallets, db.gifts, db.orders, BookOf(db.book)) && Reversible(db, no, chargeback)
    ensures CoinsConserved(Reversed(db, no, chargeback, now).wallets, db.gifts,
                           Reversed(db, no, chargeback, now).orders,
                           BookOf(Reversed(db, no, chargeback, now).book))
  {
    hide PostReverse, OrdersOk, WalletsOk, Claw, OrderTotal, WalletTotal, GiftTotal;
    var o := db.orders[no];
    var w := WalletOf(db.wallets, o.account);
    ClawBounds(db, no, chargeback);
    OrderWrite(db.orders, no, ReversedOrder(o, chargeback, now));
    WalletWrite(db.wallets, o.account, w.(coins := w.coins - Claw(o, w)));
  }

  lemma ReverseKeepsWallets(db: Db, no: string, chargeback: bool, now: Time)
    requires OrdersOk(db.orders) && WalletsOk(db.wallets, db.ledger) && RunningBalances(db.ledger) &&
             Reversible(db, no, chargeback)
    ensures WalletsOk(Reversed(db, no, chargeback, now).wallets, Reversed(db, no, chargeback, now).ledger)
    ensures RunningBalances(Reversed(db, no, chargeback, now).ledger)
  {
    hide PostReverse, RunningBalances, WalletsOk, OrdersOk, Claw;
    var o := db.orders[no];
    var w := WalletOf(db.wallets, o.account);
    var claw := Claw(o, w);
    ClawBounds(db, no, chargeback);
    if claw > 0 {
      CoinPosting(db.wallets, db.ledger,
                  LedgerEntry(o.account, Coin, Debit, claw, w.coins - claw, ReverseBiz(chargeback), no, o.key));
    } else {
      LockedWallet(db.wallets, db.ledger, o.account);
    }
  }

  /** Creating a missing wallet row changes no balance. */
  lemma LockedWallet(wallets: map<AccountId, Wallet>, ledger: seq<LedgerEntry>, a: AccountId)
    requires WalletsOk(wallets, ledger)
    ensures WalletsOk(wallets[a := WalletOf(wallets, a)], ledger)
  {
    var ws := wallets[a := WalletOf(wallets, a)];
    assert forall x :: WalletOf(ws, x) == WalletOf(wallets, x);
  }

  lemma WalletNotNegative(wallets: map<AccountId, Wallet>, ledger: seq<LedgerEntry>, a: AccountId)
    requires WalletsOk(wallets, ledger)
    ensures WalletOf(wallets, a).coins >= 0 && WalletOf(wallets, a).diamonds >= 0 && WalletOf(wallets, a).frozen >= 0
  {
  }

  // ---------- gifts ----------

  ghost predicate Giftable(db: Db, no: string, g: GiftOrder) {
    GiftOk(g) && g.cost <= WalletOf(db.wallets, g.sender).coins && no !in db.gifts && !GiftKeyTaken(db, g.sender, g.key)
  }

  lemma GiftKeeps(db: Db, no: string, g: GiftOrder)
    requires Inv(db) && Giftable(db, no, g)
    ensures Inv(Gifted(db, no, g))
  {
    hide OrdersOk, JournalExact, GroupsBalanced, BookOk, WalletsOk, RunningBalances, LedgerExact, CoinsConserved,
      DiamondsConserved, GiftsOk, CallbacksOk;
    GiftKeepsGifts(db, no, g);
    GiftKeepsWallets(db, no, g);
    GiftKeepsLedger(db, no, g);
    GiftKeepsCoins(db, no, g);
    GiftKeepsDiamonds(db, no, g);
  }

  lemma GiftKeepsGifts(db: Db, no: string, g: GiftOrder)
    requires GiftsOk(db.gifts, db.stats) && Giftable(db, no, g)
    ensures GiftsOk(Gifted(db, no, g).gifts, Gifted(db, no, g).stats)
  {
    hide GiftTotal, CreatorShare, WalletOf;
    GiftInsert(db.gifts, no, g);
    assert forall a :: a in db.gifts ==> !SameGift(db.gifts[a], g.sender, g.key);
  }

  lemma GiftKeepsWallets(db: Db, no: string, g: GiftOrder)
    requires WalletsOk(db.wallets, db.ledger) && RunningBalances(db.ledger) && Giftable(db, no, g)
    ensures WalletsOk(Gifted(db, no, g).wallets, Gifted(db, no, g).ledger)
    ensures RunningBalances(Gifted(db, no, g).ledger)
  {
    hide WalletsOk, RunningBalances, GiftKeyTaken;
    var s := WalletOf(db.wallets, g.sender);
    var r := WalletOf(db.wallets, g.receiver);
    WalletNotNegative(db.wallets, db.ledger, g.receiver);
    var debit := LedgerEntry(g.sender, Coin, Debit, g.cost, s.coins - g.cost, BizGiftSend, no, g.key);
    CoinPosting(db.wallets, db.ledger, debit);
    var paid := db.wallets[g.sender := s.(coins := s.coins - g.cost)];
    if g.diamonds > 0 {
      var credit := LedgerEntry(g.receiver, Diamond, Credit, g.diamonds, r.diamonds + g.diamonds, BizGiftReceive, no,
                                g.key);
      DiamondPosting(paid, db.ledger + [debit], credit, r.(diamonds := r.diamonds + g.diamonds));
    } else {
      LockedWallet(paid, db.ledger + [debit], g.receiver);
    }
  }

  lemma GiftKeepsLedger(db: Db, no: string, g: GiftOrder)
    requires LedgerExact(db.orders, db.gifts, db.withdraws, db.ledger) && Giftable(db, no, g)
    ensures LedgerExact(db.orders, Gifted(db, no, g).gifts, db.withdraws, Gifted(db, no, g).ledger)
  {
    hide LedgerExact, Giftable;
    var debit := LedgerEntry(g.sender, Coin, Debit, g.cost, WalletOf(db.wallets, g.sender).coins - g.cost, BizGiftSend,
                             no, g.key);
    var sent := db.(gifts := db.gifts[no := g.(diamonds := 0)], ledger := db.ledger + [debit]);
    GiftableRow(db, no, g);
    GiftSent(db, sent, no, g, debit);
    if g.diamonds > 0 {
      var balance := WalletOf(db.wallets, g.receiver).diamonds + g.diamonds;
      var credit := LedgerEntry(g.receiver, Diamond, Credit, g.diamonds, balance, BizGiftReceive, no, g.key);
      GiftReceived(sent, sent.(gifts := sent.gifts[no := g], ledger := sent.ledger + [credit]), no, g, credit);
      assert sent.gifts[no := g] == db.gifts[no := g];
    } else {
      assert g.(diamonds := 0) == g;
    }
  }

  lemma GiftableRow(db: Db, no: string, g: GiftOrder)
    requires Giftable(db, no, g)
    ensures no !in db.gifts && g.diamonds >= 0
  {
  }

  /** The debit is the entry of a gift that gives no diamonds. */
  lemma GiftSent(db: Db, sent: Db, no: string, g: GiftOrder, debit: LedgerEntry)
    requires LedgerExact(db.orders, db.gifts, db.withdraws, db.ledger) && no !in db.gifts
    requires debit.account == g.sender && debit.direction == Debit && debit.biz == BizGiftSend && debit.no == no
    requires debit.amount == g.cost
    requires sent == db.(gifts := db.gifts[no := g.(diamonds := 0)], ledger := db.ledger + [debit])
    ensures LedgerExact(sent.orders, sent.gifts, sent.withdraws, sent.ledger)
  {
    hide LedgerExact;
    LedgerPosting(db, sent, debit);
  }

  /** The credit is the entry that its diamonds add. */
  lemma GiftReceived(sent: Db, d: Db, no: string, g: GiftOrder, credit: LedgerEntry)
    requires LedgerExact(sent.orders, sent.gifts, sent.withdraws, sent.ledger)
    requires no in sent.gifts && sent.gifts[no] == g.(diamonds := 0) && g.diamonds > 0
    requires credit.account == g.receiver && credit.direction == Credit && credit.biz == BizGiftReceive &&
             credit.no == no
    requires credit.amount == g.diamonds
    requires d == sent.(gifts := sent.gifts[no := g], ledger := sent.ledger + [credit])
    ensures LedgerExact(d.orders, d.gifts, d.withdraws, d.ledger)
  {
    hide LedgerExact;
    LedgerPosting(sent, d, credit);
  }

  lemma GiftKeepsCoins(db: Db, no: string, g: GiftOrder)
    requires CoinsConserved(db.wallets, db.gifts, db.orders, BookOf(db.book)) && Giftable(db, no, g)
    ensures CoinsConserved(Gifted(db, no, g).wallets, Gifted(db, no, g).gifts, db.orders, BookOf(db.book))
  {
    GiftWallets(db, no, g);
    GiftInsert(db.gifts, no, g);
  }

  lemma GiftWallets(db: Db, no: string, g: GiftOrder)
    requires g.sender != g.receiver
    ensures WalletTotal(Gifted(db, no, g).wallets, CoinsHeld) == WalletTotal(db.wallets, CoinsHeld) - g.cost
    ensures WalletTotal(Gifted(db, no, g).wallets, DiamondsHeld) == WalletTotal(db.wallets, DiamondsHeld) + g.diamonds
    ensures forall a :: WalletOf(Gifted(db, no, g).wallets, a).frozen == WalletOf(db.wallets, a).frozen
  {
    var s := WalletOf(db.wallets, g.sender);
    var r := WalletOf(db.wallets, g.receiver);
    WalletWrite(db.wallets, g.sender, s.(coins := s.coins - g.cost));
    WalletWrite(db.wallets[g.sender := s.(coins := s.coins - g.cost)], g.receiver,
                r.(diamonds := r.diamonds + g.diamonds));
  }

  lemma GiftKeepsDiamonds(db: Db, no: string, g: GiftOrder)
    requires DiamondsConserved(db.wallets, db.gifts, db.withdraws, BookOf(db.book)) && Giftable(db, no, g)
    ensures DiamondsConserved(Gifted(db, no, g).wallets, Gifted(db, no, g).gifts, db.withdraws, BookOf(db.book))
  {
    hide WalletTotal, GiftTotal, WithdrawTotal;
    GiftWallets(db, no, g);
    GiftInsert(db.gifts, no, g);
    forall a
      ensures WalletOf(Gifted(db, no, g).wallets, a).frozen == WithdrawTotal(db.withdraws, ReviewingOf(a))
    {
      assert WalletOf(Gifted(db, no, g).wallets, a).frozen == WalletOf(db.wallets, a).frozen;
    }
  }

  // ---------- withdrawals ----------

  predicate Freezable(db: Db, account: AccountId, diamonds: int, no: string) {
    MIN_WITHDRAW <= diamonds <= WalletOf(db.wallets, account).diamonds && no !in db.withdraws
  }

  lemma FreezeKeeps(db: Db, account: AccountId, diamonds: int, no: string, now: Time)
    requires Inv(db) && Freezable(db, account, diamonds, no)
    ensures Inv(Frozen(db, account, diamonds, no, now))
  {
    hide OrdersOk, JournalExact, GroupsBalanced, BookOk, WalletsOk, RunningBalances, LedgerExact, CoinsConserved,
      DiamondsConserved, GiftsOk, CallbacksOk;
    FreezeKeepsWallets(db, account, diamonds, no, now);
    FreezeKeepsCoins(db, account, diamonds, no, now);
    FreezeKeepsDiamonds(db, account, diamonds, no, now);
    FreezeKeepsLedger(db, account, diamonds, no, now);
  }

  lemma FreezeKeepsWallets(db: Db, account: AccountId, diamonds: int, no: string, now: Time)
    requires WalletsOk(db.wallets, db.ledger) && Freezable(db, account, diamonds, no)
    ensures WalletsOk(Frozen(db, account, diamonds, no, now).wallets, db.ledger)
  {
  }

  lemma FreezeKeepsCoins(db: Db, account: AccountId, diamonds: int, no: string, now: Time)
    requires CoinsConserved(db.wallets, db.gifts, db.orders, BookOf(db.book))
    ensures CoinsConserved(Frozen(db, account, diamonds, no, now).wallets, db.gifts, db.orders, BookOf(db.book))
  {
    WalletWrite(db.wallets, account, WalletOf(Frozen(db, account, diamonds, no, now).wallets, account));
  }

  lemma FreezeKeepsDiamonds(db: Db, account: AccountId, diamonds: int, no: string, now: Time)
    requires DiamondsConserved(db.wallets, db.gifts, db.withdraws, BookOf(db.book)) &&
             Freezable(db, account, diamonds, no)
    ensures DiamondsConserved(Frozen(db, account, diamonds, no, now).wallets, db.gifts,
                              Frozen(db, account, diamonds, no, now).withdraws, BookOf(db.book))
  {
    var d := Frozen(db, account, diamonds, no, now);
    hide WalletTotal, GiftTotal, WithdrawTotal;
    WalletWrite(db.wallets, account, WalletOf(d.wallets, account));
    WithdrawWrite(db.withdraws, no, NewWithdraw(account, diamonds, now));
    forall a
      ensures WalletOf(d.wallets, a).frozen == WithdrawTotal(d.withdraws, ReviewingOf(a))
    {
      assert WalletOf(db.wallets, a).frozen == WithdrawTotal(db.withdraws, ReviewingOf(a));
    }
  }

  lemma FreezeKeepsLedger(db: Db, account: AccountId, diamonds: int, no: string, now: Time)
    requires LedgerExact(db.orders, db.gifts, db.withdraws, db.ledger) && Freezable(db, account, diamonds, no)
    ensures LedgerExact(db.orders, db.gifts, Frozen(db, account, diamonds, no, now).withdraws, db.ledger)
  {
    hide LedgerExact;
    LedgerUnposted(db, Frozen(db, account, diamonds, no, now));
  }

  predicate Payable(db: Db, no: string) {
    no in db.withdraws && db.withdraws[no].status == Reviewing
  }

  /** The wallet always holds enough frozen diamonds for a withdrawal under review. */
  lemma FrozenCovers(db: Db, no: string)
    requires DiamondsConserved(db.wallets, db.gifts, db.withdraws, BookOf(db.book)) && Payable(db, no)
    ensures db.withdraws[no].diamonds <= WalletOf(db.wallets, db.withdraws[no].account).frozen
  {
    var a := db.withdraws[no].account;
    Sums.SumMember(db.withdraws, no, WithdrawRow(ReviewingOf(a)));
  }

  lemma PayoutKeeps(db: Db, no: string, now: Time)
    requires Inv(db) && Payable(db, no)
    ensures Inv(PaidWithdraw(db, no, now))
  {
    hide OrdersOk, JournalExact, GroupsBalanced, BookOk, WalletsOk, RunningBalances, LedgerExact, CoinsConserved,
      DiamondsConserved, GiftsOk, CallbacksOk;
    FrozenCovers(db, no);
    PayoutKeepsWallets(db, no, now);
    PayoutKeepsCoins(db, no, now);
    PayoutKeepsDiamonds(db, no, now);
    PayoutKeepsLedger(db, no, now);
    PayoutKeepsBook(db, no, now);
  }

  lemma PayoutKeepsWallets(db: Db, no: string, now: Time)
    requires WalletsOk(db.wallets, db.ledger) && RunningBalances(db.ledger) && Payable(db, no)
    requires db.withdraws[no].diamonds <= WalletOf(db.wallets, db.withdraws[no].account).frozen
    ensures WalletsOk(PaidWithdraw(db, no, now).wallets, PaidWithdraw(db, no, now).ledger)
    ensures RunningBalances(PaidWithdraw(db, no, now).ledger)
  {
    hide WalletsOk, RunningBalances;
    var o := db.withdraws[no];
    var w := WalletOf(db.wallets, o.account);
    WalletNotNegative(db.wallets, db.ledger, o.account);
    DiamondPosting(db.wallets, db.ledger,
                   LedgerEntry(o.account, Diamond, Debit, o.diamonds, w.diamonds, BizWithdraw, no, no),
                   w.(frozen := w.frozen - o.diamonds));
  }

  lemma PayoutKeepsCoins(db: Db, no: string, now: Time)
    requires CoinsConserved(db.wallets, db.gifts, db.orders, BookOf(db.book)) && Payable(db, no)
    ensures CoinsConserved(PaidWithdraw(db, no, now).wallets, db.gifts, db.orders,
                           BookOf(PaidWithdraw(db, no, now).book))
  {
    var o := db.withdraws[no];
    WalletWrite(db.wallets, o.account, WalletOf(PaidWithdraw(db, no, now).wallets, o.account));
  }

  lemma PayoutKeepsBook(db: Db, no: string, now: Time)
    requires BookOk(db.orders, db.journal, BookOf(db.book)) && Payable(db, no)
    ensures BookOk(db.orders, db.journal, BookOf(PaidWithdraw(db, no, now).book))
  {
    hide OrderTotal, JournalTotal;
  }

  lemma PayoutKeepsDiamonds(db: Db, no: string, now: Time)
    requires DiamondsConserved(db.wallets, db.gifts, db.withdraws, BookOf(db.book)) && Payable(db, no)
    ensures DiamondsConserved(PaidWithdraw(db, no, now).wallets, db.gifts, PaidWithdraw(db, no, now).withdraws,
                              BookOf(PaidWithdraw(db, no, now).book))
  {
    var d := PaidWithdraw(db, no, now);
    var o := db.withdraws[no];
    hide WalletTotal, GiftTotal, WithdrawTotal;
    WalletWrite(db.wallets, o.account, WalletOf(d.wallets, o.account));
    WithdrawWrite(db.withdraws, no, o.(status := PaidOut, paidAt := Some(now)));
    forall a
      ensures WalletOf(d.wallets, a).frozen == WithdrawTotal(d.withdraws, ReviewingOf(a))
    {
      assert WalletOf(db.wallets, a).frozen == WithdrawTotal(db.withdraws, ReviewingOf(a));
    }
  }

  lemma PayoutKeepsLedger(db: Db, no: string, now: Time)
    requires LedgerExact(db.orders, db.gifts, db.withdraws, db.ledger) && Payable(db, no)
    ensures LedgerExact(db.orders, db.gifts, PaidWithdraw(db, no, now).withdraws, PaidWithdraw(db, no, now).ledger)
  {
    hide LedgerExact, Sums.SumSeq;
    var o := db.withdraws[no];
    var w := WalletOf(db.wallets, o.account);
    LedgerPosting(db, PaidWithdraw(db, no, now),
                  LedgerEntry(o.account, Diamond, Debit, o.diamonds, w.diamonds, BizWithdraw, no, no));
  }
}
