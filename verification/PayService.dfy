/**
 * The payment service's transactions, statement by statement over the tables, each proved against PayModel.
 * A transaction that fails is rolled back; one that hits a unique index fails, except in PostFiat, which ignores it.
 */
module PayService {
  import opened PayTypes
  import opened PayModel
  import opened PayInvariant
  import opened PayPreserve
  import opened PayRuns
  import opened Locks

  /** The count of a key in the ledger is positive exactly when some entry has it. */
  lemma {:induction false} KeyCounted(ledger: seq<LedgerEntry>, k: LedgerKey)
    ensures LedgerTotal(ledger, RowsAt(k)) >= 0
    ensures LedgerTotal(ledger, RowsAt(k)) > 0 <==> exists i :: 0 <= i < |ledger| && KeyOf(ledger[i]) == k
  {
    if ledger != [] {
      var rest := ledger[..|ledger| - 1];
      KeyCounted(rest, k);
      if exists i :: 0 <= i < |ledger| && KeyOf(ledger[i]) == k {
        var i :| 0 <= i < |ledger| && KeyOf(ledger[i]) == k;
        assert i < |rest| ==> rest[i] == ledger[i];
      }
      if exists i :: 0 <= i < |rest| && KeyOf(rest[i]) == k {
        var i :| 0 <= i < |rest| && KeyOf(rest[i]) == k;
        assert ledger[i] == rest[i];
      }
    }
  }

  /** A key is in the ledger only if a business row calls for it. */
  lemma KeyPosted(db: Db, k: LedgerKey)
    requires Inv(db)
    ensures LedgerTotal(db.ledger, RowsAt(k)) != 0 ==> Posted(db.orders, db.gifts, db.withdraws, k)
  {
    hide OrdersOk, JournalExact, GroupsBalanced, BookOk, WalletsOk, RunningBalances, CoinsConserved,
      DiamondsConserved, GiftsOk, CallbacksOk, LedgerTotal, Posted, PostedAmount;
    assert RowsOk(db.orders, db.gifts, db.withdraws, k, LedgerTotal(db.ledger, RowsAt(k)),
                  LedgerTotal(db.ledger, AmountAt(k)));
  }

  /** Writing a row twice leaves the last value. */
  lemma Overwrite<K, V>(m: map<K, V>, a: K, v: V, w: V)
    ensures m[a := v][a := w] == m[a := w]
  {
  }

  lemma OverwritePair<K, V>(m: map<K, V>, a: K, b: K, v: V, w: V, v': V, w': V)
    requires a != b
    ensures m[a := v][b := w][a := v'][b := w'] == m[a := v'][b := w']
  {
  }

  lemma SameGifts(db: Db, d: Db, sender: AccountId, key: string)
    requires db.gifts == d.gifts
    ensures GiftKeyTaken(db, sender, key) <==> GiftKeyTaken(d, sender, key)
  {
  }

  /** A gift's state, column by column. */
  lemma GiftWritten(db: Db, d: Db, no: string, g: GiftOrder)
    requires d.orders == db.orders && d.journal == db.journal && d.book == db.book
    requires d.withdraws == db.withdraws && d.callbacks == db.callbacks
    requires d.wallets == Gifted(db, no, g).wallets && d.ledger == Gifted(db, no, g).ledger
    requires d.gifts == db.gifts[no := g]
    requires var st := StatOf(db.stats, g.video);
             d.stats == db.stats[g.video := VideoGiftStat(st.count + g.count, st.coins + g.cost)]
    ensures d == Gifted(db, no, g)
  {
  }

  /** A reversal's state, column by column. */
  lemma ReversedWritten(db: Db, d: Db, no: string, chargeback: bool, now: Time, claw: int)
    requires no in db.orders && claw == Claw(db.orders[no], WalletOf(db.wallets, db.orders[no].account))
    requires var o := db.orders[no];
             var w := WalletOf(db.wallets, o.account);
             && d.orders == db.orders[no := ReversedOrder(o, chargeback, now)]
             && d.wallets == db.wallets[o.account := w.(coins := w.coins - claw)]
             && d.ledger == (if claw > 0
                  then db.ledger + [LedgerEntry(o.account, Coin, Debit, claw, w.coins - claw, ReverseBiz(chargeback),
                                                no,
                                                o.key)]
                  else db.ledger)
             && d.journal == PostReverse(db.journal, ReverseBiz(chargeback), no, o)
             && d.book == Some(ReversedBook(BookOf(db.book), o, claw, chargeback))
    requires d.gifts == db.gifts && d.stats == db.stats && d.withdraws == db.withdraws && d.callbacks == db.callbacks
    ensures d == Reversed(db, no, chargeback, now)
  {
    hide ReversedOrder, PostReverse, ReversedBook, Claw;
  }

  /** A credit's state, column by column. */
  lemma CreditWritten(db: Db, d: Db, channel: string, cb: Callback, now: Time)
    requires cb.no in db.orders
    requires var o := db.orders[cb.no];
             var paid := PaidOrder(o, cb.tradeNo, now);
             var w := WalletOf(db.wallets, o.account);
             var b := BookOf(db.book);
             && d.orders == db.orders[cb.no := paid]
             && d.wallets == db.wallets[o.account := w.(coins := w.coins + o.coins)]
             && d.ledger == db.ledger
                  + [LedgerEntry(o.account, Coin, Credit, o.coins, w.coins + o.coins, BizRecharge, cb.no, o.key)]
             && d.journal == PostPay(db.journal, cb.no, paid)
             && d.book == Some(b.(pending := b.pending + paid.net, fee := b.fee + paid.fee))
    requires d.callbacks == db.callbacks[(channel, cb.tradeNo) := CallbackLog(cb.no, cb.amount)]
    requires d.gifts == db.gifts && d.stats == db.stats && d.withdraws == db.withdraws
    ensures d == Credited(db, channel, cb, now)
  {
  }

  lemma NotLoggedYet(db: Db, channel: string, cb: Callback)
    requires CallbacksOk(db.orders, db.callbacks) && Creditable(db, channel, cb)
    ensures (channel, cb.tradeNo) !in db.callbacks
  {
  }

  lemma OrdersUnique(db: Db)
    requires Inv(db)
    ensures OrdersOk(db.orders) && JournalExact(db.orders, db.journal) && GiftsOk(db.gifts, db.stats)
         && CallbacksOk(db.orders, db.callbacks)
  {
    hide OrdersOk, JournalExact, GroupsBalanced, BookOk, WalletsOk, RunningBalances, LedgerExact, CoinsConserved,
      DiamondsConserved, GiftsOk, CallbacksOk;
  }

  lemma FoundAreSettleable(orders: map<string, PayOrder>, deadline: Time)
    ensures forall no :: no in DueOrders(orders, deadline) ==>
              no in orders && orders[no].status == Paid && orders[no].settle == SettlePending
  {
  }

  lemma FoundArePayable(withdraws: map<string, WithdrawOrder>, now: Time)
    ensures forall no :: no in DueWithdraws(withdraws, now) ==> no in withdraws && withdraws[no].status == Reviewing
  {
  }

  /** The parts of the database that settling leaves alone. */
  predicate SameButSettled(db: Db, d: Db) {
    && d.wallets == db.wallets && d.ledger == db.ledger && d.gifts == db.gifts && d.stats == db.stats
    && d.withdraws == db.withdraws && d.callbacks == db.callbacks
    && BookOf(d.book).shortfall == BookOf(db.book).shortfall && BookOf(d.book).payout == BookOf(db.book).payout
  }

  /** The parts of the database that paying withdrawals leaves alone. */
  ghost predicate SameButPaid(db: Db, d: Db) {
    && d.orders == db.orders && d.journal == db.journal && d.gifts == db.gifts && d.stats == db.stats
    && d.callbacks == db.callbacks
    && forall a :: WalletOf(d.wallets, a).coins == WalletOf(db.wallets, a).coins
                && WalletOf(d.wallets, a).diamonds == WalletOf(db.wallets, a).diamonds
  }

  lemma SameTransitive(a: Db, b: Db, c: Db)
    ensures SameButSettled(a, b) && SameButSettled(b, c) ==> SameButSettled(a, c)
    ensures SameButPaid(a, b) && SameButPaid(b, c) ==> SameButPaid(a, c)
    ensures SameButSettled(a, a) && SameButPaid(a, a)
  {
  }

  /** What settling one order changes, and what it does not. */
  lemma SettleEffect(db: Db, no: string, now: Time)
    requires Settleable(db, no)
    ensures var d := After(db, SettleOne(db, no, now));
            && Reply(SettleOne(db, no, now)) == Ok(())
            && d.orders == db.orders[no := SettledOrder(db.orders[no], now)]
            && SameButSettled(db, d)
  {
  }

  /** What paying one withdrawal changes, and what it does not. */
  lemma PayoutEffect(db: Db, no: string, now: Time)
    requires Inv(db) && Payable(db, no)
    ensures var d := After(db, PayWithdraw(db, no, now));
            && Reply(PayWithdraw(db, no, now)) == Ok(())
            && d.withdraws == db.withdraws[no := db.withdraws[no].(status := PaidOut, paidAt := Some(now))]
            && SameButPaid(db, d)
  {
    hide Inv;
    PayWithdrawNeverRejects(db, no, now);
  }

  lemma EnoughFrozen(db: Db, no: string)
    requires Inv(db) && Payable(db, no)
    ensures db.withdraws[no].diamonds <= WalletOf(db.wallets, db.withdraws[no].account).frozen
  {
    hide OrdersOk, JournalExact, GroupsBalanced, BookOk, WalletsOk, RunningBalances, LedgerExact, CoinsConserved,
      DiamondsConserved, GiftsOk, CallbacksOk;
    FrozenCovers(db, no);
  }

  lemma NoLocks()
    ensures Ascending([])
  {
  }

  class Store {
    var orders: map<string, PayOrder>
    var wallets: map<AccountId, Wallet>
    var ledger: seq<LedgerEntry>
    var journal: map<FiatKey, int>
    var book: Option<PlatformBook>
    var gifts: map<string, GiftOrder>
    var stats: map<VideoId, VideoGiftStat>
    var withdraws: map<string, WithdrawOrder>
    var callbacks: map<(string, string), CallbackLog>
    ghost var locks: seq<Lock> // the row locks the last transaction took, in order

    function Snapshot(): Db
      reads this
    {
      Db(orders, wallets, ledger, journal, book, gifts, stats, withdraws, callbacks)
    }

    ghost predicate Valid()
      reads this
    {
      Inv(Snapshot())
    }

    constructor ()
      ensures Snapshot() == EMPTY && Valid()
    {
      hide Inv;
      orders, wallets, ledger, journal, book := map[], map[], [], map[], None;
      gifts, stats, withdraws, callbacks := map[], map[], map[], map[];
      locks := [];
      new;
      EmptyOk();
    }

    method Rollback(begin: Db)
      modifies this
      ensures Snapshot() == begin && locks == old(locks)
    {
      orders, wallets, ledger, journal, book := begin.orders, begin.wallets, begin.ledger, begin.journal, begin.book;
      gifts, stats, withdraws, callbacks := begin.gifts, begin.stats, begin.withdraws, begin.callbacks;
    }

    // ---------- statements that several transactions share ----------

    /** Locks a wallet row, creating it first if it is missing. */
    method LockWallet(a: AccountId) returns (w: Wallet)
      modifies `wallets, `locks
      ensures w == WalletOf(old(wallets), a)
      ensures wallets == old(wallets)[a := w]
      ensures locks == old(locks) + [WalletLock(a)]
    {
      locks := locks + [WalletLock(a)];
      if a !in wallets {
        wallets := wallets[a := EMPTY_WALLET];
      }
      w := wallets[a];
    }

    /** Locks two wallets in ascending account order and returns them in argument order. */
    method LockPair(a: AccountId, b: AccountId) returns (wa: Wallet, wb: Wallet)
      modifies `wallets, `locks
      ensures wa == WalletOf(old(wallets), a) && wb == WalletOf(old(wallets), b)
      ensures wallets == old(wallets)[a := wa][b := wb]
      ensures locks == old(locks) + [WalletLock(if a < b then a else b), WalletLock(if a < b then b else a)]
    {
      var first, second := a, b;
      if second < first {
        first, second := second, first;
      }
      var w1 := LockWallet(first);
      var w2 := LockWallet(second);
      if a == first {
        wa, wb := w1, w2;
      } else {
        wa, wb := w2, w1;
      }
    }

    /** Locks the single book row, creating it first if it is missing. */
    method LockBook() returns (b: PlatformBook)
      modifies `book, `locks
      ensures b == BookOf(old(book)) && book == Some(b)
      ensures locks == old(locks) + [BookLock]
    {
      locks := locks + [BookLock];
      if book == None {
        book := Some(EMPTY_BOOK);
      }
      b := book.value;
    }

    /** Inserts a journal row; a zero amount is skipped and a duplicate key is silently dropped. */
    method PostFiat(biz: Biz, no: string, account: FiatAccount, dir: Direction, amount: int)
      modifies `journal
      ensures FiatKey(account, dir, biz, no) !in old(journal) ==>
                journal == Post(old(journal), biz, no, account, dir, amount)
      ensures FiatKey(account, dir, biz, no) in old(journal) ==> journal == old(journal)
    {
      if amount == 0 {
        return;
      }
      var k := FiatKey(account, dir, biz, no);
      if k !in journal {
        journal := journal[k := amount];
      }
    }

    /** Inserts a ledger entry, or fails on the unique index and inserts nothing. */
    method AppendLedger(e: LedgerEntry) returns (ok: bool)
      modifies `ledger
      ensures ok <==> LedgerTotal(old(ledger), RowsAt(KeyOf(e))) == 0
      ensures ledger == if ok then old(ledger) + [e] else old(ledger)
    {
      KeyCounted(ledger, KeyOf(e));
      ok := forall i :: 0 <= i < |ledger| ==> KeyOf(ledger[i]) != KeyOf(e);
      if ok {
        ledger := ledger + [e];
      }
    }

    // ---------- recharge ----------

    /** The first half of CreateRecharge: validation, package lookup and the idempotency check. */
    method CheckRecharge(cat: Catalog, account: AccountId, key: string, code: string, channel: string, now: Time)
      returns (r: Result<Checked<PayOrder>>)
      requires Valid()
      ensures r == PayModel.CheckRecharge(Snapshot(), cat, account, key, code, channel, now)
    {
      hide Inv;
      if account == 0 {
        return Err(ErrAccountRequired);
      }
      if key == "" || |key| > 64 {
        return Err(ErrIdempotencyKey);
      }
      var ch := channel;
      if ch == "" {
        ch := "mock";
      }
      if !KnownChannel(ch) {
        return Err(ErrChannel);
      }
      if code == "" || code !in cat.packages || !Sellable(cat.packages[code]) {
        return Err(ErrPackageNotFound);
      }
      if OrderKeyTaken(Snapshot(), account, key) {
        var existing := FindOrder(account, key);
        if existing.packageCode != code || existing.amount != cat.packages[code].price {
          return Err(ErrIdempotencyClash);
        }
        return Ok(Known(existing));
      }
      return Ok(Fresh(NewOrder(account, key, code, cat.packages[code], ch, now)));
    }

    method FindOrder(account: AccountId, key: string) returns (o: PayOrder)
      requires Valid() && OrderKeyTaken(Snapshot(), account, key)
      ensures o == ExistingOrder(Snapshot(), account, key)
    {
      hide Inv;
      var no :| no in orders && SameRequest(orders[no], account, key);
      o := orders[no];
      OrdersUnique(Snapshot());
      ghost var other :| other in orders && SameRequest(orders[other], account, key)
                         && orders[other] == ExistingOrder(Snapshot(), account, key);
      assert SameRequest(orders[no], orders[other].account, orders[other].key);
    }

    /** The second half: the insert, and on a lost race the answer with the row that won. */
    method InsertRecharge(cat: Catalog, no: string, o: PayOrder) returns (r: Result<PayOrder>)
      requires Valid() && OrderIntent(cat, o)
      modifies this
      ensures Snapshot() == After(old(Snapshot()), PayModel.InsertRecharge(old(Snapshot()), no, o))
      ensures Valid()
      ensures r == Reply(PayModel.InsertRecharge(old(Snapshot()), no, o))
      ensures locks == []
    {
      hide Inv, OrderIntent;
      locks := [];
      RechargeKeeps(cat, Snapshot(), no, o);
      if no in orders || OrderKeyTaken(Snapshot(), o.account, o.key) {
        if !OrderKeyTaken(Snapshot(), o.account, o.key) {
          return Err(ErrRecordNotFound);
        }
        var existing := FindOrder(o.account, o.key);
        if existing.packageCode != o.packageCode || existing.amount != o.amount {
          return Err(ErrIdempotencyClash);
        }
        return Ok(existing);
      }
      orders := orders[no := o];
      return Ok(o);
    }

    /** The update that MockConfirm makes before it sends itself a success notice. */
    method MarkPaying(no: string, seen: Status)
      requires Valid() && seen in {Created, Paying}
      modifies this
      ensures Snapshot() == PayModel.MarkPaying(old(Snapshot()), no, seen)
      ensures Valid()
      ensures locks == []
    {
      hide Inv;
      locks := [];
      ConfirmKeeps(Snapshot(), no, seen);
      if no in orders && orders[no].status == seen {
        orders := orders[no := orders[no].(status := Paying)];
      }
    }

    /**
     * Closes an expired order. The caller's copy may be older than the row, and comes back marked closed whether or not
     * the row changed.
     */
    method CloseIfExpired(no: string, copy: PayOrder, now: Time) returns (order: PayOrder, expired: bool)
      requires Valid()
      modifies this
      ensures Snapshot() == PayModel.CloseIfExpired(old(Snapshot()), no, copy, now)
      ensures Valid()
      ensures expired <==> copy.status in {Created, Paying} && now > copy.expireAt
      ensures order == if expired then copy.(status := Closed) else copy
      ensures locks == []
    {
      hide Inv;
      locks := [];
      ExpireKeeps(Snapshot(), no, copy, now);
      order, expired := copy, false;
      if order.status != Created && order.status != Paying {
        return;
      }
      if !(now > order.expireAt) {
        return;
      }
      if no in orders && orders[no].status in {Created, Paying} {
        orders := orders[no := orders[no].(status := Closed)];
      }
      order := order.(status := Closed);
      expired := true;
    }

    method HandleCallback(channel: string, cb: Callback, signed: bool, now: Time) returns (r: Result<bool>)
      requires Valid()
      modifies this
      ensures Snapshot() == After(old(Snapshot()), PayModel.HandleCallback(old(Snapshot()), channel, cb, signed, now))
      ensures Valid()
      ensures r == Reply(PayModel.HandleCallback(old(Snapshot()), channel, cb, signed, now))
      ensures Ascending(locks)
      ensures !signed ==> r.Err? && Snapshot() == old(Snapshot())
    {
      hide Inv, CreditOrder, PayModel.MarkFailed, WellFormed;
      locks := [];
      if !KnownChannel(channel) {
        return Err(ErrChannel);
      }
      if !signed {
        return Err(ErrBadSignature);
      }
      if !WellFormed(cb, now) {
        return Err(ErrBadBody);
      }
      if !cb.paid {
        var failed := MarkFailed(channel, cb);
        if failed.Err? {
          return Err(failed.error);
        }
        return Ok(false);
      }
      r := Credit(channel, cb, now);
    }

    method MarkFailed(channel: string, cb: Callback) returns (r: Result<()>)
      requires Valid()
      modifies this
      ensures Snapshot() == After(old(Snapshot()), PayModel.MarkFailed(old(Snapshot()), channel, cb))
      ensures Valid()
      ensures r == Reply(PayModel.MarkFailed(old(Snapshot()), channel, cb))
      ensures Ascending(locks)
      ensures locks == if cb.no in old(orders) then [OrderLock(cb.no)] else []
    {
      hide Inv;
      locks := [];
      if cb.no !in orders {
        return Err(ErrOrderNotFound);
      }
      locks := [OrderLock(cb.no)];
      var order := orders[cb.no];
      if order.channel != channel || order.amount != cb.amount {
        return Err(ErrAmountMismatch);
      }
      if order.status == Paid || order.status == Failed || order.status == Closed {
        return Ok(());
      }
      if order.status != Created && order.status != Paying {
        return Err(ErrOrderClosed);
      }
      OrderRowOk(Snapshot(), cb.no);
      OpenOrderKeeps(Snapshot(), cb.no, order.(status := Failed));
      orders := orders[cb.no := orders[cb.no].(status := Failed)];
      return Ok(());
    }

    method Credit(channel: string, cb: Callback, now: Time) returns (r: Result<bool>)
      requires Valid()
      modifies this
      ensures Snapshot() == After(old(Snapshot()), CreditOrder(old(Snapshot()), channel, cb, now))
      ensures Valid()
      ensures r == Reply(CreditOrder(old(Snapshot()), channel, cb, now))
      ensures Ascending(locks)
      ensures r == Ok(true) ==>
                && cb.no in old(orders)
                && locks == [OrderLock(cb.no), WalletLock(old(orders)[cb.no].account), BookLock]
    {
      hide Inv, Credited, TradeTaken;
      locks := [];
      if cb.no !in orders {
        return Err(ErrOrderNotFound);
      }
      locks := [OrderLock(cb.no)];
      var order := orders[cb.no];
      if order.channel != channel {
        return Err(ErrChannel);
      }
      if order.status == Paid {
        if order.tradeNo == Some(cb.tradeNo) {
          return Ok(false);
        }
        return Err(ErrTradeConflict);
      }
      if order.amount != cb.amount {
        return Err(ErrAmountMismatch);
      }
      if order.status !in {Created, Paying, Closed} {
        return Err(ErrOrderClosed);
      }
      if TradeTaken(Snapshot(), cb.tradeNo) {
        return Err(ErrDuplicateKey);
      }
      CreditKeeps(Snapshot(), channel, cb, now);
      ApplyCredit(channel, cb, now);
      assert locks == [OrderLock(cb.no), WalletLock(order.account), BookLock];
      return Ok(true);
    }

    /** The writes of a credit, once the order row is locked and known to be open. */
    method ApplyCredit(channel: string, cb: Callback, now: Time)
      requires Valid() && Creditable(Snapshot(), channel, cb)
      modifies this
      ensures Snapshot() == Credited(old(Snapshot()), channel, cb, now)
      ensures locks == old(locks) + [WalletLock(old(orders)[cb.no].account), BookLock]
    {
      hide LedgerTotal, Inv, OrdersOk, JournalExact, CallbacksOk, GiftsOk, SplitFee, PostPay, TradeTaken, Credited,
        WalletOf, WasCredited, MarkedPaid, Charged;
      ghost var begin := Snapshot();
      OrdersUnique(begin);
      CreditPostsFresh(begin, cb.no);
      NotLoggedYet(begin, channel, cb); // so the log insert below cannot be a duplicate
      var order := orders[cb.no];
      PayOrderRow(cb, now);
      ghost var marked := orders[cb.no];
      CreditWallet(cb.no, order, begin);
      PostPayFiat(cb.no, order);
      callbacks := callbacks[(channel, cb.tradeNo) := CallbackLog(cb.no, cb.amount)];
      Overwrite(begin.orders, cb.no, marked, orders[cb.no]);
      CreditWritten(begin, Snapshot(), channel, cb, now);
    }

    /** The conditional update of the order row: it is locked, so it still has the status that was read. */
    method PayOrderRow(cb: Callback, now: Time)
      requires cb.no in orders
      modifies `orders
      ensures orders == old(orders)[cb.no := MarkedPaid(old(orders)[cb.no], cb.tradeNo, now)]
      ensures orders[cb.no].amount == old(orders)[cb.no].amount
    {
      var order := orders[cb.no];
      orders := orders[cb.no := order.(status := Paid, tradeNo := Some(cb.tradeNo), paidAt := Some(now),
                                       paidAfterClose := order.status == Closed)];
    }

    /** Adds the order's coins to the wallet and records them in the ledger. */
    method CreditWallet(no: string, order: PayOrder, ghost begin: Db)
      requires Inv(begin) && no in begin.orders && order == begin.orders[no] && !WasCredited(order)
      requires wallets == begin.wallets && ledger == begin.ledger
      modifies `wallets, `ledger, `locks
      ensures var w := WalletOf(old(wallets), order.account);
              && wallets == old(wallets)[order.account := w.(coins := w.coins + order.coins)]
              && ledger == old(ledger) + [LedgerEntry(order.account, Coin, Direction.Credit, order.coins,
                                                      w.coins + order.coins,
                                                      BizRecharge, no, order.key)]
      ensures locks == old(locks) + [WalletLock(order.account)]
    {
      hide LedgerTotal, Inv;
      var wallet := LockWallet(order.account);
      var next := wallet.coins + order.coins;
      wallets := wallets[order.account := wallet.(coins := next)];
      KeyPosted(begin, LedgerKey(order.account, Direction.Credit, BizRecharge, no));
      var ok := AppendLedger(LedgerEntry(order.account, Coin, Direction.Credit, order.coins, next, BizRecharge, no,
                                         order.key));
      assert ok; // the duplicate-key abort cannot happen
    }

    method PostPayFiat(no: string, order: PayOrder)
      requires no in orders && orders[no].amount == order.amount
      requires forall account, dir :: FiatKey(account, dir, BizRecharge, no) !in journal
      modifies `orders, `journal, `book, `locks
      ensures var paid := Charged(old(orders[no]));
              var b := BookOf(old(book));
              && orders == old(orders)[no := paid]
              && journal == PostPay(old(journal), no, paid)
              && book == Some(b.(pending := b.pending + paid.net, fee := b.fee + paid.fee))
      ensures locks == old(locks) + [BookLock]
    {
      var (fee, net) := SplitFee(order.amount);
      orders := orders[no := orders[no].(fee := fee, net := net, settle := SettlePending)];
      PostFiat(BizRecharge, no, Receivable, Debit, net);
      PostFiat(BizRecharge, no, Fee, Debit, fee);
      PostFiat(BizRecharge, no, Prepay, Direction.Credit, order.amount);
      var b := LockBook();
      book := Some(b.(pending := b.pending + net, fee := b.fee + fee));
    }

    // ---------- settlement, refund, chargeback ----------

    method SettleOne(no: string, now: Time) returns (r: Result<()>)
      requires Valid()
      modifies this
      ensures Snapshot() == After(old(Snapshot()), PayModel.SettleOne(old(Snapshot()), no, now))
      ensures Valid()
      ensures r == Reply(PayModel.SettleOne(old(Snapshot()), no, now))
      ensures Ascending(locks)
      ensures old(Snapshot()) != Snapshot() ==> locks == [OrderLock(no), BookLock]
    {
      hide Inv, OrdersOk, JournalExact, CallbacksOk, GiftsOk, PostSettle, BookOf;
      locks := [];
      ghost var begin := Snapshot();
      if no !in orders {
        return Err(ErrRecordNotFound);
      }
      locks := [OrderLock(no)];
      var order := orders[no];
      if order.status != Paid || order.settle != SettlePending {
        return Ok(());
      }
      SettleKeeps(begin, no, now);
      OrdersUnique(begin);
      SettlePostsFresh(begin, no);
      orders := orders[no := orders[no].(settle := SettleSettled, settleAt := Some(now))];
      PostSettleFiat(no, order);
      var b := LockBook();
      book := Some(b.(pending := b.pending - order.net, settled := b.settled + order.net));
      return Ok(());
    }

    method PostSettleFiat(no: string, order: PayOrder)
      requires forall account, dir :: FiatKey(account, dir, BizSettle, no) !in journal
      modifies `journal
      ensures journal == PostSettle(old(journal), no, order)
    {
      PostFiat(BizSettle, no, Bank, Debit, order.net);
      PostFiat(BizSettle, no, Receivable, Direction.Credit, order.net);
    }

    /** Settles every order that is due, one transaction each, and counts them. */
    method SettleDue(now: Time, after: Time) returns (n: nat)
      requires Valid()
      modifies this
      ensures Valid()
      ensures n == |DueOrders(old(orders), now - after)|
      ensures orders.Keys == old(orders).Keys
      ensures forall no :: no in orders ==>
                orders[no] == if no in DueOrders(old(orders), now - after)
                              then SettledOrder(old(orders)[no], now) else old(orders)[no]
      ensures SameButSettled(old(Snapshot()), Snapshot())
      ensures Ascending(locks)
    {
      hide Inv, PayModel.SettleOne, SettledOrder, After, Reply, SameButSettled, SameButPaid, DueOrders, Ascending;
      locks := [];
      NoLocks();
      SameTransitive(Snapshot(), Snapshot(), Snapshot());
      var due := DueOrders(orders, now - after);
      FoundAreSettleable(orders, now - after);
      var todo := due;
      n := 0;
      while todo != {}
        invariant Valid() && todo <= due && n + |todo| == |due|
        invariant orders.Keys == old(orders).Keys
        invariant forall no :: no in orders ==>
                    orders[no] == if no in due - todo
                                  then SettledOrder(old(orders)[no], now) else old(orders)[no]
        invariant SameButSettled(old(Snapshot()), Snapshot())
        invariant Ascending(locks)
        decreases todo
      {
        var no :| no in todo;
        ghost var before := Snapshot();
        SettleEffect(before, no, now);
        var r := SettleOne(no, now);
        SameTransitive(old(Snapshot()), before, Snapshot());
        assert r.Ok?;
        todo := todo - {no};
        n := n + 1;
      }
    }

    /** Refund (chargeback == false) or chargeback of a paid order. */
    method Reverse(account: AccountId, no: string, chargeback: bool, now: Time) returns (r: Result<PayOrder>)
      requires Valid()
      modifies this
      ensures Snapshot() == After(old(Snapshot()), PayModel.Reverse(old(Snapshot()), account, no, chargeback, now))
      ensures Valid()
      ensures r == Reply(PayModel.Reverse(old(Snapshot()), account, no, chargeback, now))
      ensures Ascending(locks)
      ensures r.Ok? ==> locks == [OrderLock(no), WalletLock(account), BookLock]
    {
      hide Inv, Reversed;
      locks := [];
      var begin := Snapshot();
      if no !in orders || orders[no].account != account {
        return Err(ErrOrderNotFound);
      }
      locks := [OrderLock(no)];
      var order := orders[no];
      if order.status != Paid || (order.settle != SettlePending && order.settle != SettleSettled) {
        return Err(ErrRefundNotAllowed);
      }
      var wallet := LockWallet(account);
      if wallet.coins < order.coins && !chargeback {
        Rollback(begin);
        return Err(ErrInsufficientCoin);
      }
      r := ApplyReverse(no, order, wallet, chargeback, now, begin);
    }

    /** The writes of a reversal, once the order and wallet rows are locked and known to allow it. */
    method ApplyReverse(no: string, order: PayOrder, wallet: Wallet, chargeback: bool, now: Time, ghost begin: Db)
      returns (r: Result<PayOrder>)
      requires Inv(begin) && Reversible(begin, no, chargeback) && order == begin.orders[no]
      requires wallet == WalletOf(begin.wallets, order.account)
      requires Snapshot() == begin.(wallets := begin.wallets[order.account := wallet])
      requires locks == [OrderLock(no), WalletLock(order.account)]
      modifies this
      ensures Snapshot() == Reversed(begin, no, chargeback, now) && Valid()
      ensures r == Ok(ReversedOrder(order, chargeback, now))
      ensures locks == old(locks) + [BookLock]
    {
      hide Inv, OrdersOk, JournalExact, CallbacksOk, GiftsOk, PostReverse, ReversedBook, ReversedOrder, Reversed, Claw,
        WalletOf;
      ReverseKeeps(begin, no, chargeback, now);
      OrdersUnique(begin);
      var claw := ClawBack(no, order, wallet, chargeback, begin);
      var biz := BizRefund;
      if chargeback {
        biz := BizChargeback;
      }
      ReversePostsFresh(begin, no, chargeback);
      PostReverseFiat(biz, no, order);
      ReverseBook(order, order.coins - claw, chargeback);
      var reversed := MarkReversed(no, order, chargeback, now);
      ReversedWritten(begin, Snapshot(), no, chargeback, now, claw);
      return Ok(reversed);
    }

    /** The last update of a reversal: the order row. */
    method MarkReversed(no: string, order: PayOrder, chargeback: bool, now: Time) returns (reversed: PayOrder)
      modifies `orders
      ensures reversed == ReversedOrder(order, chargeback, now) && orders == old(orders)[no := reversed]
    {
      var nextStatus, settleStatus := Refunded, SettleRefunded;
      if chargeback {
        nextStatus, settleStatus := ChargedBack, SettleChargeback;
      }
      reversed := order.(status := nextStatus, settle := settleStatus, refundedAt := Some(now));
      orders := orders[no := reversed];
    }

    /** Takes the order's coins back, or in a chargeback as many as are left, and records them in the ledger. */
    method ClawBack(no: string, order: PayOrder, wallet: Wallet, chargeback: bool, ghost begin: Db) returns (claw: int)
      requires Inv(begin) && Reversible(begin, no, chargeback) && order == begin.orders[no]
      requires wallet == WalletOf(begin.wallets, order.account) && ledger == begin.ledger
      requires wallets == begin.wallets[order.account := wallet]
      modifies `wallets, `ledger
      ensures claw == Claw(order, wallet)
      ensures claw <= order.coins && claw <= wallet.coins && (claw == order.coins || claw == wallet.coins)
      ensures wallets == begin.wallets[order.account := wallet.(coins := wallet.coins - claw)]
      ensures ledger == if claw > 0
        then begin.ledger + [LedgerEntry(order.account, Coin, Debit, claw, wallet.coins - claw, ReverseBiz(chargeback),
                                         no, order.key)]
        else begin.ledger
    {
      hide LedgerTotal, Inv;
      claw := order.coins;
      if wallet.coins < claw {
        claw := wallet.coins;
      }
      wallets := wallets[order.account := wallet.(coins := wallet.coins - claw)];
      if claw > 0 {
        var biz := ReverseBiz(chargeback);
        KeyPosted(begin, LedgerKey(order.account, Debit, biz, no));
        var ok := AppendLedger(LedgerEntry(order.account, Coin, Debit, claw, wallet.coins - claw, biz, no, order.key));
        assert ok; // the duplicate-key abort cannot happen
      }
    }

    method ReverseBook(order: PayOrder, shortfall: int, chargeback: bool)
      modifies `book, `locks
      ensures book == Some(ReversedBook(BookOf(old(book)), order, order.coins - shortfall, chargeback))
      ensures locks == old(locks) + [BookLock]
    {
      var b := LockBook();
      if order.settle == SettleSettled {
        b := b.(settled := b.settled - order.net);
      } else {
        b := b.(pending := b.pending - order.net);
      }
      b := b.(fee := b.fee - order.fee);
      if chargeback {
        b := b.(chargeback := b.chargeback + order.amount, shortfall := b.shortfall + shortfall);
      } else {
        b := b.(refund := b.refund + order.amount);
      }
      book := Some(b);
    }

    method PostReverseFiat(biz: Biz, no: string, order: PayOrder)
      requires forall account, dir :: FiatKey(account, dir, biz, no) !in journal
      modifies `journal
      ensures journal == PostReverse(old(journal), biz, no, order)
    {
      if order.settle == SettleSettled {
        PostFiat(biz, no, Receivable, Debit, order.net);
        PostFiat(biz, no, Bank, Direction.Credit, order.net);
      }
      PostFiat(biz, no, Prepay, Debit, order.amount);
      PostFiat(biz, no, Receivable, Direction.Credit, order.net);
      PostFiat(biz, no, Fee, Direction.Credit, order.fee);
    }

    // ---------- gifts ----------

    /** The first half of SendGift: validation, the idempotency check and the catalogue lookups. */
    method CheckGift(cat: Catalog, sender: AccountId, key: string, video: VideoId, code: string, count: int)
      returns (r: Result<Checked<GiftOrder>>)
      requires Valid()
      ensures r == PayModel.CheckGift(Snapshot(), cat, sender, key, video, code, count)
    {
      hide Inv;
      var n := count;
      if n <= 0 {
        n := 1;
      }
      if n > MAX_GIFT_COUNT || video == 0 || code == "" || key == "" {
        return Err(ErrIdempotencyKey);
      }
      if GiftKeyTaken(Snapshot(), sender, key) {
        var existing := FindGift(sender, key);
        return Ok(Known(existing));
      }
      if code !in cat.gifts || !cat.gifts[code].active {
        return Err(ErrPackageNotFound);
      }
      if video !in cat.authors {
        return Err(ErrOrderNotFound);
      }
      if cat.authors[video] == sender {
        return Err(ErrSelfGift);
      }
      var cost := cat.gifts[code].price * n;
      return Ok(Fresh(GiftOrder(sender, key, cat.authors[video], video, code, n, cost, CreatorShare(cost))));
    }

    method FindGift(sender: AccountId, key: string) returns (g: GiftOrder)
      requires Valid() && GiftKeyTaken(Snapshot(), sender, key)
      ensures g == ExistingGift(Snapshot(), sender, key)
    {
      hide Inv;
      var no :| no in gifts && SameGift(gifts[no], sender, key);
      g := gifts[no];
      OrdersUnique(Snapshot());
      ghost var other :| other in gifts && SameGift(gifts[other], sender, key)
                         && gifts[other] == ExistingGift(Snapshot(), sender, key);
      assert SameGift(gifts[no], gifts[other].sender, gifts[other].key);
    }

    /** The transaction of SendGift. A duplicate gift number or idempotency key undoes everything. */
    method CommitGift(cat: Catalog, no: string, g: GiftOrder) returns (r: Result<GiftOrder>)
      requires Valid() && CatalogOk(cat) && GiftIntent(cat, g)
      modifies this
      ensures Snapshot() == After(old(Snapshot()), PayModel.CommitGift(old(Snapshot()), no, g))
      ensures Valid()
      ensures r == Reply(PayModel.CommitGift(old(Snapshot()), no, g))
      ensures Ascending(locks)
    {
      hide Inv, GiftIntent, CatalogOk, Gifted, GiftKeyTaken;
      GiftIntentOk(cat, g);
      var begin := Snapshot();
      r := GiftBody(no, g, begin);
      assert Ascending(locks);
      if r.Err? {
        Rollback(begin);
      } else {
        GiftKeeps(begin, no, g);
      }
    }

    /** The statements of the transaction; an error leaves them for the caller to undo. */
    method GiftBody(no: string, g: GiftOrder, ghost begin: Db) returns (r: Result<GiftOrder>)
      requires Inv(begin) && Snapshot() == begin && g.sender != g.receiver
      modifies this
      ensures r == Reply(PayModel.CommitGift(begin, no, g))
      ensures r.Ok? ==> Snapshot() == Gifted(begin, no, g)
      ensures locks == [WalletLock(if g.sender < g.receiver then g.sender else g.receiver),
                        WalletLock(if g.sender < g.receiver then g.receiver else g.sender)]
    {
      hide Inv, GiftKeyTaken, CreatorShare, Gifted, StatOf, WalletOf;
      locks := [];
      var sender, receiver := LockPair(g.sender, g.receiver);
      if sender.coins < g.cost {
        return Err(ErrInsufficientCoin);
      }
      var ok := MoveGift(no, g, sender, receiver, begin);
      if ok {
        ok := InsertGift(no, g, begin);
      }
      if !ok {
        return Err(ErrDuplicateKey);
      }
      CountGift(g);
      GiftWritten(begin, Snapshot(), no, g);
      return Ok(g);
    }

    /** Inserts the gift order, or fails on one of its two unique indexes. */
    method InsertGift(no: string, g: GiftOrder, ghost begin: Db) returns (ok: bool)
      requires gifts == begin.gifts
      modifies `gifts
      ensures ok <==> no !in begin.gifts && !GiftKeyTaken(begin, g.sender, g.key)
      ensures ok ==> gifts == begin.gifts[no := g]
    {
      SameGifts(begin, Snapshot(), g.sender, g.key);
      ok := no !in gifts && !GiftKeyTaken(Snapshot(), g.sender, g.key);
      if ok {
        gifts := gifts[no := g];
      }
    }

    /** Moves the coins and the diamonds and records both; false when the ledger refuses an entry. */
    method MoveGift(no: string, g: GiftOrder, sender: Wallet, receiver: Wallet, ghost begin: Db) returns (ok: bool)
      requires Inv(begin) && g.sender != g.receiver && ledger == begin.ledger
      requires sender == WalletOf(begin.wallets, g.sender) && receiver == WalletOf(begin.wallets, g.receiver)
      requires wallets == begin.wallets[g.sender := sender][g.receiver := receiver]
      modifies `wallets, `ledger
      ensures !ok ==> no in begin.gifts
      ensures ok ==> wallets == Gifted(begin, no, g).wallets && ledger == Gifted(begin, no, g).ledger
    {
      hide LedgerTotal, Inv;
      wallets := wallets[g.sender := sender.(coins := sender.coins - g.cost)];
      wallets := wallets[g.receiver := receiver.(diamonds := receiver.diamonds + g.diamonds)];
      OverwritePair(begin.wallets, g.sender, g.receiver, sender, receiver, wallets[g.sender], wallets[g.receiver]);
      KeyPosted(begin, LedgerKey(g.sender, Debit, BizGiftSend, no));
      ok := AppendLedger(LedgerEntry(g.sender, Coin, Debit, g.cost, sender.coins - g.cost, BizGiftSend, no, g.key));
      if !ok {
        return;
      }
      if g.diamonds > 0 {
        KeyPosted(begin, LedgerKey(g.receiver, Direction.Credit, BizGiftReceive, no));
        LedgerAppend(begin.ledger, ledger[|begin.ledger|]);
        ok := AppendLedger(LedgerEntry(g.receiver, Diamond, Direction.Credit, g.diamonds,
                                       receiver.diamonds + g.diamonds,
                                       BizGiftReceive, no, g.key));
      }
    }

    /** Inserts the video's statistics row or adds to it. */
    method CountGift(g: GiftOrder)
      modifies `stats
      ensures var st := StatOf(old(stats), g.video);
              stats == old(stats)[g.video := VideoGiftStat(st.count + g.count, st.coins + g.cost)]
    {
      if g.video in stats {
        stats := stats[g.video := VideoGiftStat(stats[g.video].count + g.count, stats[g.video].coins + g.cost)];
      } else {
        stats := stats[g.video := VideoGiftStat(g.count, g.cost)];
      }
    }

    // ---------- withdrawals ----------

    method RequestWithdraw(account: AccountId, diamonds: int, no: string, now: Time) returns (r: Result<WithdrawOrder>)
      requires Valid()
      modifies this
      ensures Snapshot() == After(old(Snapshot()),
                                  PayModel.RequestWithdraw(old(Snapshot()), account, diamonds, no, now))
      ensures Valid()
      ensures r == Reply(PayModel.RequestWithdraw(old(Snapshot()), account, diamonds, no, now))
      ensures Ascending(locks)
      ensures r.Ok? ==> locks == [WalletLock(account)]
    {
      hide Inv;
      locks := [];
      if diamonds < MIN_WITHDRAW {
        return Err(ErrRefundNotAllowed);
      }
      var begin := Snapshot();
      var wallet := LockWallet(account);
      if wallet.diamonds < diamonds {
        Rollback(begin);
        return Err(ErrInsufficientCoin);
      }
      wallets := wallets[account := wallet.(diamonds := wallet.diamonds - diamonds,
                                            frozen := wallet.frozen + diamonds)];
      var order := WithdrawOrder(account, diamonds, diamonds * DIAMOND_FEN_RATE, Reviewing, now, None);
      if no in withdraws {
        Rollback(begin);
        return Err(ErrDuplicateKey);
      }
      FreezeKeeps(begin, account, diamonds, no, now);
      withdraws := withdraws[no := order];
      assert wallets == begin.wallets[account := wallets[account]];
      return Ok(order);
    }

    method PayWithdraw(no: string, now: Time) returns (r: Result<()>)
      requires Valid()
      modifies this
      ensures Snapshot() == After(old(Snapshot()), PayModel.PayWithdraw(old(Snapshot()), no, now))
      ensures Valid()
      ensures r == Reply(PayModel.PayWithdraw(old(Snapshot()), no, now))
      ensures Ascending(locks)
      ensures old(Snapshot()) != Snapshot() ==>
                && no in old(withdraws)
                && locks == [WithdrawLock(no), WalletLock(old(withdraws)[no].account), BookLock]
    {
      hide Inv;
      locks := [];
      ghost var begin := Snapshot();
      if no !in withdraws {
        return Err(ErrRecordNotFound);
      }
      locks := [WithdrawLock(no)];
      var order := withdraws[no];
      if order.status != Reviewing {
        return Ok(());
      }
      PayWithdrawNeverRejects(begin, no, now);
      PayoutKeeps(begin, no, now);
      var wallet := LockWallet(order.account);
      assert wallet.frozen >= order.diamonds by { EnoughFrozen(begin, no); } // so the order is never rejected here
      ApplyPayout(no, order, wallet, now, begin);
      return Ok(());
    }

    method ApplyPayout(no: string, order: WithdrawOrder, wallet: Wallet, now: Time, ghost begin: Db)
      requires Inv(begin) && Payable(begin, no) && order == begin.withdraws[no]
      requires wallet == WalletOf(begin.wallets, order.account)
      requires Snapshot() == begin.(wallets := begin.wallets[order.account := wallet])
      modifies `wallets, `ledger, `book, `withdraws, `locks
      ensures Snapshot() == PaidWithdraw(begin, no, now)
      ensures locks == old(locks) + [BookLock]
    {
      hide Inv, Payable, WalletOf;
      PayOut(no, order, wallet, begin);
      var b := LockBook();
      book := Some(b.(payout := b.payout + order.amount));
      withdraws := withdraws[no := order.(status := PaidOut, paidAt := Some(now))];
    }

    /** Takes the frozen diamonds out of the locked wallet and records that in the ledger. */
    method PayOut(no: string, order: WithdrawOrder, wallet: Wallet, ghost begin: Db)
      requires Inv(begin) && Payable(begin, no) && order == begin.withdraws[no]
      requires wallets == begin.wallets[order.account := wallet] && ledger == begin.ledger
      modifies `wallets, `ledger
      ensures wallets == begin.wallets[order.account := wallet.(frozen := wallet.frozen - order.diamonds)]
      ensures ledger == begin.ledger
                        + [LedgerEntry(order.account, Diamond, Debit, order.diamonds, wallet.diamonds, BizWithdraw, no,
                                       no)]
    {
      hide LedgerTotal, Inv;
      Overwrite(begin.wallets, order.account, wallet, wallet.(frozen := wallet.frozen - order.diamonds));
      wallets := wallets[order.account := wallet.(frozen := wallet.frozen - order.diamonds)];
      KeyPosted(begin, LedgerKey(order.account, Debit, BizWithdraw, no));
      var ok := AppendLedger(LedgerEntry(order.account, Diamond, Debit, order.diamonds, wallet.diamonds, BizWithdraw,
                                         no, no));
      assert ok; // the duplicate-key abort cannot happen
    }

    /** Pays every withdrawal that has been under review long enough, one transaction each, and counts them. */
    method PayDueWithdraws(now: Time) returns (n: nat)
      requires Valid()
      modifies this
      ensures Valid()
      ensures n == |DueWithdraws(old(withdraws), now)|
      ensures withdraws.Keys == old(withdraws).Keys
      ensures forall no :: no in withdraws ==>
                withdraws[no] == if no in DueWithdraws(old(withdraws), now)
                                 then old(withdraws)[no].(status := PaidOut, paidAt := Some(now))
                                 else old(withdraws)[no]
      ensures SameButPaid(old(Snapshot()), Snapshot())
      ensures Ascending(locks)
    {
      hide Inv, PayModel.PayWithdraw, After, Reply, SameButSettled, SameButPaid, DueWithdraws, Ascending;
      locks := [];
      NoLocks();
      SameTransitive(Snapshot(), Snapshot(), Snapshot());
      var due := DueWithdraws(withdraws, now);
      FoundArePayable(withdraws, now);
      var todo := due;
      n := 0;
      while todo != {}
        invariant Valid() && todo <= due && n + |todo| == |due|
        invariant withdraws.Keys == old(withdraws).Keys
        invariant forall no :: no in withdraws ==>
                    withdraws[no] == if no in due - todo
                                     then old(withdraws)[no].(status := PaidOut, paidAt := Some(now))
                                     else old(withdraws)[no]
        invariant SameButPaid(old(Snapshot()), Snapshot())
        invariant Ascending(locks)
        decreases todo
      {
        var no :| no in todo;
        ghost var before := Snapshot();
        PayoutEffect(before, no, now);
        var r := PayWithdraw(no, now);
        SameTransitive(old(Snapshot()), before, Snapshot());
        assert r.Ok?;
        todo := todo - {no};
        n := n + 1;
      }
    }
  }
}
