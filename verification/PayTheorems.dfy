/** What holds in every reachable state, stated view by view, and what follows from the views together. */
module PayTheorems {
  import Sums
  import opened PayTypes
  import opened PayModel
  import opened PayInvariant
  import opened PayPreserve
  import opened PayRuns
  import opened PayLifecycle

  // ---------- agreement of the redundant views ----------

  /** The platform book is the projection of the fiat journal and of the order table. */
  lemma BookMirrorsJournal(cat: Catalog, steps: seq<Step>)
    requires CatalogOk(cat) && LegalRun(cat, steps)
    ensures var db := Run(EMPTY, steps);
            var b := BookOf(db.book);
            && (forall a :: JournalTotal(db.journal, NetDebit(a)) == AccountNet(b, a))
            && b.pending + b.settled + b.fee == OrderTotal(db.orders, PaidAmount)
            && b.refund == OrderTotal(db.orders, RefundedAmount)
            && b.chargeback == OrderTotal(db.orders, ChargedBackAmount)
  {
    hide Run, Legal, OrdersOk, JournalExact, GroupsBalanced, WalletsOk, RunningBalances, LedgerExact, CoinsConserved,
      DiamondsConserved, GiftsOk, CallbacksOk, OrderTotal, JournalTotal;
    RunKeeps(cat, steps);
  }

  /** Every journal group balances, and the journal holds exactly the rows the orders call for, whatever the amounts. */
  lemma JournalBalancedAndComplete(cat: Catalog, steps: seq<Step>, biz: Biz, no: string, k: FiatKey)
    requires CatalogOk(cat) && LegalRun(cat, steps)
    ensures JournalTotal(Run(EMPTY, steps).journal, GroupNet(biz, no)) == 0
    ensures JournalAt(Run(EMPTY, steps).journal, k) == OrderLeg(Run(EMPTY, steps).orders, k)
    ensures k in Run(EMPTY, steps).journal <==> OrderLeg(Run(EMPTY, steps).orders, k) != 0
  {
    hide Run, Legal, OrdersOk, BookOk, WalletsOk, RunningBalances, LedgerExact, CoinsConserved,
      DiamondsConserved, GiftsOk, CallbacksOk, OrderLeg, JournalTotal;
    RunKeeps(cat, steps);
  }

  /** Wallets are the running balance of the ledger, and no balance is ever negative. */
  lemma WalletsMirrorLedger(cat: Catalog, steps: seq<Step>, a: AccountId, i: nat)
    requires CatalogOk(cat) && LegalRun(cat, steps)
    ensures var db := Run(EMPTY, steps);
            var w := WalletOf(db.wallets, a);
            && w.coins == LedgerTotal(db.ledger, CoinBalance(a)) && w.coins >= 0
            && w.diamonds + w.frozen == LedgerTotal(db.ledger, DiamondBalance(a)) && w.diamonds >= 0 && w.frozen >= 0
            && (i < |db.ledger| && db.ledger[i].currency == Coin ==>
                  db.ledger[i].balanceAfter == LedgerTotal(db.ledger[..i + 1], CoinBalance(db.ledger[i].account)))
  {
    hide Run, Legal, OrdersOk, JournalExact, GroupsBalanced, BookOk, LedgerExact, CoinsConserved,
      DiamondsConserved, GiftsOk, CallbacksOk, LedgerTotal;
    RunKeeps(cat, steps);
  }

  /**
   * No coin appears or vanishes: wallets and gifts hold what paid orders sold, plus what chargebacks could not claw
   * back.
   */
  lemma CoinConservation(cat: Catalog, steps: seq<Step>)
    requires CatalogOk(cat) && LegalRun(cat, steps)
    ensures var db := Run(EMPTY, steps);
            WalletTotal(db.wallets, CoinsHeld) + GiftTotal(db.gifts, GiftCoins)
            == OrderTotal(db.orders, PaidCoins) + BookOf(db.book).shortfall
  {
    hide Run, Legal, OrdersOk, JournalExact, GroupsBalanced, BookOk, WalletsOk, RunningBalances, LedgerExact,
      DiamondsConserved, GiftsOk, CallbacksOk, OrderTotal, WalletTotal, GiftTotal;
    RunKeeps(cat, steps);
  }

  /** Diamonds held or paid out are those gifts gave; each wallet's frozen part is its withdrawals under review. */
  lemma DiamondConservation(cat: Catalog, steps: seq<Step>, a: AccountId)
    requires CatalogOk(cat) && LegalRun(cat, steps)
    ensures var db := Run(EMPTY, steps);
            && WalletTotal(db.wallets, DiamondsHeld) + WithdrawTotal(db.withdraws, PaidOutDiamonds)
               == GiftTotal(db.gifts, GiftDiamonds)
            && WalletOf(db.wallets, a).frozen == WithdrawTotal(db.withdraws, ReviewingOf(a))
            && BookOf(db.book).payout == DIAMOND_FEN_RATE * WithdrawTotal(db.withdraws, PaidOutDiamonds)
            && (forall no :: no in db.withdraws ==> db.withdraws[no].status != Rejected)
  {
    hide Run, Legal, OrdersOk, JournalExact, GroupsBalanced, BookOk, WalletsOk, RunningBalances, LedgerExact,
      CoinsConserved, GiftsOk, CallbacksOk, WithdrawTotal, WalletTotal, GiftTotal;
    RunKeeps(cat, steps);
  }

  /** A video's gift statistics are the sums over its gift orders. */
  lemma StatsMirrorGifts(cat: Catalog, steps: seq<Step>, v: VideoId)
    requires CatalogOk(cat) && LegalRun(cat, steps)
    ensures var db := Run(EMPTY, steps);
            StatOf(db.stats, v) == VideoGiftStat(GiftTotal(db.gifts, CountOn(v)), GiftTotal(db.gifts, CoinsOn(v)))
  {
    hide Run, Legal, OrdersOk, JournalExact, GroupsBalanced, BookOk, WalletsOk, RunningBalances, LedgerExact,
      CoinsConserved, DiamondsConserved, CallbacksOk, GiftTotal;
    RunKeeps(cat, steps);
  }

  /**
   * A diamond entry records the available diamonds only, so it is the account's running diamond balance exactly when
   * nothing of the account is frozen.
   */
  lemma DiamondBalanceAfter(db: Db, no: string, g: GiftOrder)
    requires Inv(db) && Giftable(db, no, g) && g.diamonds > 0
    ensures var d := Gifted(db, no, g);
            var e := d.ledger[|db.ledger| + 1];
            && e.account == g.receiver && e.currency == Diamond
            && (e.balanceAfter == LedgerTotal(d.ledger, DiamondBalance(g.receiver))
                <==> WalletOf(d.wallets, g.receiver).frozen == 0)
  {
    hide Inv, LedgerTotal;
    GiftKeeps(db, no, g);
    WalletRow(Gifted(db, no, g), g.receiver);
  }

  /** The same for the entry of a payout, which records what is available and leaves out what is still frozen. */
  lemma PayoutBalanceAfter(db: Db, no: string, now: Time)
    requires Inv(db) && Payable(db, no)
    ensures var a := db.withdraws[no].account;
            var d := PaidWithdraw(db, no, now);
            var e := d.ledger[|db.ledger|];
            && e.account == a && e.currency == Diamond && e.direction == Debit
            && (e.balanceAfter == LedgerTotal(d.ledger, DiamondBalance(a)) <==> WalletOf(d.wallets, a).frozen == 0)
  {
    hide Inv, LedgerTotal;
    PayoutKeeps(db, no, now);
    WalletRow(PaidWithdraw(db, no, now), db.withdraws[no].account);
  }

  // A run in which the receiver of a gift has diamonds frozen.

  function OneGift(): Catalog {
    Catalog(map["c" := CoinPackage(100, 0, 1000, true)], map["g" := Gift(40, true)], map[1 := 2])
  }

  function RunOrder(): PayOrder {
    NewOrder(1, "k", "c", CoinPackage(100, 0, 1000, true), "mock", 0)
  }

  function RunGift(key: string): GiftOrder {
    GiftOrder(1, key, 2, 1, "g", 1, 40, 20)
  }

  /**
   * Account 1 buys 100 coins and gives 2 a gift; 2 asks for a payout of 10 of the 20 diamonds; 1 gives the gift again.
   */
  ghost function FrozenRun(): seq<Step> {
    [Recharge("P", RunOrder()), Notice("mock", Callback("P", "T", 1000, true, 1, "n"), true, 1),
     SendGift("G", RunGift("a")),
     Withdraw(2, 10, "W", 2), SendGift("H", RunGift("b"))]
  }

  /** What matters along that run: the giver's coins, the receiver's diamonds, and the keys in use. */
  datatype Holdings = Holdings(coins: int, diamonds: int, frozen: int, gifts: set<string>, keys: set<string>,
                               withdraws: set<string>)

  ghost predicate Holding(db: Db, h: Holdings) {
    && WalletOf(db.wallets, 1).coins == h.coins && WalletOf(db.wallets, 2).diamonds == h.diamonds
    && WalletOf(db.wallets, 2).frozen == h.frozen && db.gifts.Keys == h.gifts && db.withdraws.Keys == h.withdraws
    && forall no :: no in db.gifts ==> db.gifts[no].key in h.keys
  }

  /** The last entry is a diamond entry of the account with this balance. */
  predicate LastDiamonds(ledger: seq<LedgerEntry>, a: AccountId, balance: int) {
    ledger != [] &&
    var e := ledger[|ledger| - 1];
    e.account == a && e.currency == Diamond && e.balanceAfter == balance
  }

  lemma RunCredits(db: Db)
    requires db == OneOrder(RunOrder())
    ensures Holding(Apply(db, FrozenRun()[1]), Holdings(100, 0, 0, {}, {}, {}))
  {
    var cb := Callback("P", "T", 1000, true, 1, "n");
    assert HandleCallback(db, "mock", cb, true, 1) == Commit(Credited(db, "mock", cb, 1), true);
  }

  lemma RunGifts(db: Db, no: string, key: string, h: Holdings)
    requires Holding(db, h) && h.coins >= 40 && no !in h.gifts && key !in h.keys
    ensures var d := Apply(db, SendGift(no, RunGift(key)));
            && Holding(d, h.(coins := h.coins - 40, diamonds := h.diamonds + 20,
                             gifts := h.gifts + {no}, keys := h.keys + {key}))
            && LastDiamonds(d.ledger, 2, h.diamonds + 20)
  {
    assert CommitGift(db, no, RunGift(key)) == Commit(Gifted(db, no, RunGift(key)), RunGift(key));
  }

  lemma RunFreezes(db: Db, h: Holdings)
    requires Holding(db, h) && h.diamonds >= 10 && h.withdraws == {}
    ensures Holding(Apply(db, FrozenRun()[3]),
                    h.(diamonds := h.diamonds - 10, frozen := h.frozen + 10, withdraws := {"W"}))
  {
    assert RequestWithdraw(db, 2, 10, "W", 2) == Commit(Frozen(db, 2, 10, "W", 2), NewWithdraw(2, 10, 2));
  }

  lemma RunByStep(steps: seq<Step>, k: nat)
    requires k < |steps|
    ensures Run(EMPTY, steps[..k + 1]) == Apply(Run(EMPTY, steps[..k]), steps[k])
  {
    hide Apply;
    assert steps[..k + 1][..k] == steps[..k];
  }

  /** In that legal run the last entry says 30 diamonds, while the receiver's diamond entries add up to 40. */
  lemma FrozenReceiverRun()
    ensures CatalogOk(OneGift()) && LegalRun(OneGift(), FrozenRun())
    ensures LastDiamonds(Run(EMPTY, FrozenRun()).ledger, 2, 30)
    ensures LedgerTotal(Run(EMPTY, FrozenRun()).ledger, DiamondBalance(2)) == 40
  {
    hide Run, FrozenRun, LedgerTotal, LegalRun, CatalogOk, OneGift, Inv, LastDiamonds;
    RunIsLegal();
    FirstOrder();
    RunSteps();
    RunsThrough(FrozenRun());
    RunKeeps(OneGift(), FrozenRun());
    WalletRow(Run(EMPTY, FrozenRun()), 2);
  }

  lemma RunIsLegal()
    ensures CatalogOk(OneGift()) && LegalRun(OneGift(), FrozenRun())
  {
    assert CreatorShare(40) == 20;
  }

  lemma RunSteps()
    ensures var steps := FrozenRun();
            && |steps| == 5 && steps[2] == SendGift("G", RunGift("a")) && steps[4] == SendGift("H", RunGift("b"))
  {
  }

  lemma RunsThrough(steps: seq<Step>)
    requires steps == FrozenRun() && Run(EMPTY, steps[..1]) == OneOrder(RunOrder())
    requires |steps| == 5 && steps[2] == SendGift("G", RunGift("a")) && steps[4] == SendGift("H", RunGift("b"))
    ensures Holding(Run(EMPTY, steps), Holdings(20, 30, 10, {"G", "H"}, {"a", "b"}, {"W"}))
    ensures LastDiamonds(Run(EMPTY, steps).ledger, 2, 30)
  {
    hide Run, Apply, Holding, LastDiamonds, FrozenRun, RunGift, RunOrder, OneOrder;
    RunByStep(steps, 1);
    RunByStep(steps, 2);
    RunByStep(steps, 3);
    RunByStep(steps, 4);
    assert steps[..5] == steps;
    RunCredits(Run(EMPTY, steps[..1]));
    RunGifts(Run(EMPTY, steps[..2]), "G", "a", Holdings(100, 0, 0, {}, {}, {}));
    assert {} + {"G"} == {"G"} && {} + {"a"} == {"a"};
    RunFreezes(Run(EMPTY, steps[..3]), Holdings(60, 20, 0, {"G"}, {"a"}, {}));
    RunGifts(Run(EMPTY, steps[..4]), "H", "b", Holdings(60, 10, 10, {"G"}, {"a"}, {"W"}));
    assert {"G"} + {"H"} == {"G", "H"} && {"a"} + {"b"} == {"a", "b"};
  }

  lemma FirstOrder()
    ensures Run(EMPTY, FrozenRun()[..1]) == OneOrder(RunOrder())
  {
    var steps := FrozenRun();
    RunByStep(steps, 0);
    assert steps[..0] == [];
    assert Apply(EMPTY, steps[0]) == OneOrder(RunOrder());
  }

  lemma WalletRow(db: Db, a: AccountId)
    requires Inv(db)
    ensures var w := WalletOf(db.wallets, a);
            && w.coins == LedgerTotal(db.ledger, CoinBalance(a)) >= 0
            && w.diamonds + w.frozen == LedgerTotal(db.ledger, DiamondBalance(a))
  {
    hide OrdersOk, JournalExact, GroupsBalanced, BookOk, RunningBalances, LedgerExact, CoinsConserved,
      DiamondsConserved, GiftsOk, CallbacksOk, LedgerTotal;
  }

  // ---------- settling before reversing makes no difference ----------

  /** Settling a paid order before reversing it changes no balance that reversing it directly would leave. */
  lemma SettleThenReverse(db: Db, account: AccountId, no: string, chargeback: bool, t: Time, now: Time)
    requires Inv(db) && Settleable(db, no)
    ensures Reverse(db, account, no, chargeback, now).Commit?
            <==> Reverse(Settled(db, no, t), account, no, chargeback, now).Commit?
    ensures Reverse(db, account, no, chargeback, now).Commit? ==>
              var d := Reversed(db, no, chargeback, now);
              var s := Reversed(Settled(db, no, t), no, chargeback, now);
              && d.book == s.book && d.wallets == s.wallets && d.ledger == s.ledger
              && d.orders[no := d.orders[no].(settleAt := Some(t))] == s.orders
              && (forall a :: JournalTotal(d.journal, NetDebit(a)) == JournalTotal(s.journal, NetDebit(a)))
              && (d.journal == s.journal <==> db.orders[no].net == 0)
  {
    hide Inv, Reversed, Settled, JournalTotal;
    SameGuard(db, account, no, chargeback, t, now);
    if Reverse(db, account, no, chargeback, now).Commit? {
      SettleKeeps(db, no, t);
      SettledStillPaid(db, no, t);
      ReverseKeeps(db, no, chargeback, now);
      ReverseKeeps(Settled(db, no, t), no, chargeback, now);
      SameBalances(db, no, chargeback, t, now);
      AccountsOfBook(Reversed(db, no, chargeback, now));
      AccountsOfBook(Reversed(Settled(db, no, t), no, chargeback, now));
      DifferentRows(db, no, chargeback, t, now);
    }
  }

  lemma SameGuard(db: Db, account: AccountId, no: string, chargeback: bool, t: Time, now: Time)
    requires Settleable(db, no)
    ensures Reverse(db, account, no, chargeback, now).Commit?
            <==> Reverse(Settled(db, no, t), account, no, chargeback, now).Commit?
  {
    hide Reversed, PostSettle;
  }

  lemma SettledStillPaid(db: Db, no: string, t: Time)
    requires Settleable(db, no)
    ensures no in Settled(db, no, t).orders && Settled(db, no, t).orders[no].status == Paid
    ensures Settled(db, no, t).orders[no].settle == SettleSettled && Settled(db, no, t).wallets == db.wallets
    ensures Settled(db, no, t).orders[no].coins == db.orders[no].coins &&
            Settled(db, no, t).orders[no].account == db.orders[no].account
  {
  }

  lemma SameBalances(db: Db, no: string, chargeback: bool, t: Time, now: Time)
    requires Settleable(db, no)
    ensures var d := Reversed(db, no, chargeback, now);
            var s := Reversed(Settled(db, no, t), no, chargeback, now);
            && d.book == s.book && d.wallets == s.wallets && d.ledger == s.ledger
            && d.orders[no := d.orders[no].(settleAt := Some(t))] == s.orders
  {
    hide PostReverse, PostSettle;
  }

  /** The net debit of each fiat account, read off the book. */
  function AccountNet(b: PlatformBook, a: FiatAccount): int {
    match a
    case Receivable => b.pending
    case Bank => b.settled
    case Fee => b.fee
    case Prepay => -(b.pending + b.settled + b.fee)
  }

  lemma AccountsOfBook(db: Db)
    requires Inv(db)
    ensures forall a :: JournalTotal(db.journal, NetDebit(a)) == AccountNet(BookOf(db.book), a)
  {
    hide OrdersOk, JournalExact, GroupsBalanced, WalletsOk, RunningBalances, LedgerExact, CoinsConserved,
      DiamondsConserved, GiftsOk, CallbacksOk, OrderTotal, JournalTotal;
  }

  /** The two ways leave different journal rows unless there is no net amount to move. */
  lemma DifferentRows(db: Db, no: string, chargeback: bool, t: Time, now: Time)
    requires Inv(db) && Settleable(db, no)
    ensures Reversed(db, no, chargeback, now).journal == Reversed(Settled(db, no, t), no, chargeback, now).journal
            <==> db.orders[no].net == 0
  {
    hide Inv, Claw, ReversedBook;
    NotSettledYet(db, no);
    RowsApart(db.journal, ReverseBiz(chargeback), no, db.orders[no], t);
  }

  lemma RowsApart(j: map<FiatKey, int>, biz: Biz, no: string, o: PayOrder, t: Time)
    requires o.settle == SettlePending && biz != BizSettle
    requires FiatKey(Bank, Debit, BizSettle, no) !in j
    ensures PostReverse(j, biz, no, o)
            == PostReverse(PostSettle(j, no, o), biz, no, o.(settle := SettleSettled, settleAt := Some(t)))
            <==> o.net == 0
  {
    var k := FiatKey(Bank, Debit, BizSettle, no);
    assert k !in PostReverse(j, biz, no, o);
    assert o.net != 0 ==>
        k in PostReverse(PostSettle(j, no, o), biz, no, o.(settle := SettleSettled, settleAt := Some(t)));
  }

  lemma NotSettledYet(db: Db, no: string)
    requires Inv(db) && Settleable(db, no)
    ensures FiatKey(Bank, Debit, BizSettle, no) !in db.journal
  {
    hide GroupsBalanced, BookOk, WalletsOk, RunningBalances, LedgerExact, CoinsConserved,
      DiamondsConserved, GiftsOk, CallbacksOk, OrdersOk, JournalExact;
    SettlePostsFresh(db, no);
  }

  // ---------- solvency ----------

  /** The platform can pay all creators and buy back all coins at five fen each, chargeback losses aside. */
  ghost predicate Solvent(db: Db) {
    var b := BookOf(db.book);
    b.payout + 10 * WalletTotal(db.wallets, DiamondsHeld) + 5 * WalletTotal(db.wallets, CoinsHeld)
    <= b.pending + b.settled + 5 * b.shortfall
  }

  /** Every package on sale brings in at least five fen net for each coin it hands out. */
  predicate SafeCatalog(cat: Catalog) {
    forall c :: c in cat.packages && Sellable(cat.packages[c]) ==>
      5 * (cat.packages[c].coins + cat.packages[c].bonus) <= SplitFee(cat.packages[c].price).1
  }

  ghost predicate Backed(orders: map<string, PayOrder>) {
    forall no :: no in orders ==> 5 * orders[no].coins <= SplitFee(orders[no].amount).1
  }

  lemma BackedOrder(o: PayOrder)
    requires OrderOk(o) && 5 * o.coins <= SplitFee(o.amount).1
    ensures 5 * OrderValue(PaidCoins, o) <= OrderValue(PendingNet, o) + OrderValue(SettledNet, o)
  {
  }

  lemma {:induction false} BackedCoins(orders: map<string, PayOrder>)
    requires Backed(orders) && (forall no :: no in orders ==> OrderOk(orders[no]))
    ensures 5 * OrderTotal(orders, PaidCoins) <= OrderTotal(orders, PendingNet) + OrderTotal(orders, SettledNet)
    decreases |orders|
  {
    hide OrderOk, SplitFee, OrderValue;
    if |orders| != 0 {
      var no := Sums.Pick(orders);
      Sums.Removed(orders, no);
      Sums.SumExtract(orders, no, OrderRow(PaidCoins));
      Sums.SumExtract(orders, no, OrderRow(PendingNet));
      Sums.SumExtract(orders, no, OrderRow(SettledNet));
      BackedOrder(orders[no]);
      BackedCoins(orders - {no});
    }
  }

  lemma {:induction false} HalfShare(gifts: map<string, GiftOrder>)
    requires forall no :: no in gifts ==> GiftOk(gifts[no])
    ensures 2 * GiftTotal(gifts, GiftDiamonds) <= GiftTotal(gifts, GiftCoins)
    decreases |gifts|
  {
    if |gifts| != 0 {
      var no := Sums.Pick(gifts);
      Sums.Removed(gifts, no);
      Sums.SumExtract(gifts, no, GiftRow(GiftDiamonds));
      Sums.SumExtract(gifts, no, GiftRow(GiftCoins));
      HalfShare(gifts - {no});
    }
  }

  lemma BackedIsSolvent(db: Db)
    requires Inv(db) && Backed(db.orders)
    ensures Solvent(db)
  {
    hide JournalExact, GroupsBalanced, WalletsOk, RunningBalances, LedgerExact, CallbacksOk,
      OrderTotal, WalletTotal, GiftTotal, WithdrawTotal, JournalTotal, OrderOk, GiftOk, SameRequest;
    BackedCoins(db.orders);
    HalfShare(db.gifts);
  }

  lemma {:induction false} BackedOrders(cat: Catalog, steps: seq<Step>)
    requires CatalogOk(cat) && SafeCatalog(cat) && LegalRun(cat, steps)
    ensures Backed(Run(EMPTY, steps).orders)
  {
    hide Apply, Inv, SplitFee;
    if steps != [] {
      var prefix, step := steps[..|steps| - 1], steps[|steps| - 1];
      BackedOrders(cat, prefix);
      RunKeeps(cat, prefix);
      BackedStep(cat, Run(EMPTY, prefix), step);
    }
  }

  lemma BackedStep(cat: Catalog, db: Db, step: Step)
    requires SafeCatalog(cat) && Legal(cat, step) && Inv(db) && Backed(db.orders)
    ensures Backed(Apply(db, step).orders)
  {
    hide Inv, Apply, SplitFee, Edge, Rank, SafeCatalog, Legal;
    forall no | no in Apply(db, step).orders
      ensures 5 * Apply(db, step).orders[no].coins <= SplitFee(Apply(db, step).orders[no].amount).1
    {
      if no in db.orders {
        OrderMoves(db, step, no);
      } else {
        OrdersBegin(cat, db, step, no);
        NewOrderBacked(cat, step);
      }
    }
  }

  lemma NewOrderBacked(cat: Catalog, step: Step)
    requires SafeCatalog(cat) && Legal(cat, step) && step.Recharge?
    ensures 5 * step.order.coins <= SplitFee(step.order.amount).1
  {
  }

  /** The shortest run that sells one package: create an order for it and credit it. */
  ghost function Sale(cat: Catalog, code: string): seq<Step>
    requires code in cat.packages
  {
    var o := NewOrder(1, "k", code, cat.packages[code], "mock", 0);
    var cb := Callback("P", "T", cat.packages[code].price, true, 1, "n");
    [Recharge("P", o), Notice("mock", cb, true, 1)]
  }

  /** Selling a package that hands out more coins than it brings in makes the platform insolvent at once. */
  lemma UnsafeSale(cat: Catalog, code: string)
    requires code in cat.packages && Sellable(cat.packages[code])
    requires 5 * (cat.packages[code].coins + cat.packages[code].bonus) > SplitFee(cat.packages[code].price).1
    ensures LegalRun(cat, Sale(cat, code)) && !Solvent(Run(EMPTY, Sale(cat, code)))
  {
    var p := cat.packages[code];
    var o := NewOrder(1, "k", code, p, "mock", 0);
    var steps := Sale(cat, code);
    var created := OneOrder(o);
    assert Apply(EMPTY, steps[0]) == created;
    assert steps[..1][..0] == [] && steps[..1] == [steps[0]];
    assert Run(EMPTY, steps[..1]) == created;
    FirstCredit(created, o, steps[1].cb);
  }

  ghost function OneOrder(o: PayOrder): Db {
    EMPTY.(orders := map["P" := o])
  }

  lemma FirstCredit(db: Db, o: PayOrder, cb: Callback)
    requires db == OneOrder(o) &&
             o == NewOrder(1, "k", o.packageCode, CoinPackage(o.coins, 0, o.amount, true), "mock", 0)
    requires o.amount > 0 && cb == Callback("P", "T", o.amount, true, 1, "n")
    requires 5 * o.coins > SplitFee(o.amount).1
    ensures !Solvent(After(db, HandleCallback(db, "mock", cb, true, 1)))
  {
    var d := Credited(db, "mock", cb, 1);
    assert HandleCallback(db, "mock", cb, true, 1) == Commit(d, true);
    WalletWrite(db.wallets, 1, Wallet(o.coins, 0, 0));
  }

  /** The service is solvent in every state of every run exactly when its catalogue is safe. */
  lemma SolventIffSafe(cat: Catalog)
    requires CatalogOk(cat)
    ensures SafeCatalog(cat) <==> forall steps :: LegalRun(cat, steps) ==> Solvent(Run(EMPTY, steps))
  {
    hide Inv, Run, Solvent, SplitFee;
    if SafeCatalog(cat) {
      forall steps | LegalRun(cat, steps)
        ensures Solvent(Run(EMPTY, steps))
      {
        RunKeeps(cat, steps);
        BackedOrders(cat, steps);
        BackedIsSolvent(Run(EMPTY, steps));
      }
    } else {
      var code :| code in cat.packages && Sellable(cat.packages[code])
                  && 5 * (cat.packages[code].coins + cat.packages[code].bonus) > SplitFee(cat.packages[code].price).1;
      UnsafeSale(cat, code);
    }
  }

  /** The packages the service seeds are safe. */
  lemma SeededPackagesSafe(cat: Catalog)
    requires cat.packages
             == map["coins_70" := CoinPackage(70, 0, 700, true), "coins_350" := CoinPackage(350, 15, 3500, true),
                                 "coins_700" := CoinPackage(700, 50, 7000, true)]
    ensures SafeCatalog(cat)
  {
  }
}
