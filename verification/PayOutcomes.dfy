/**
 * What each payment transaction comes to, in plain numbers: exactly when it commits, and what it does to wallets,
 * ledger, book and rows, account by account.
 */
module PayOutcomes {
  import opened PayTypes
  import opened PayModel
  import opened PayInvariant
  import opened PayRuns
  import opened PayLifecycle

  // ---------- notices ----------

  /** A notice is well formed and stamped within five minutes of its arrival. */
  predicate Timely(cb: Callback, now: Time) {
    && |cb.no| > 0 && |cb.tradeNo| > 0 && cb.amount >= 1 && |cb.nonce| > 0 && cb.timestamp != 0
    && -300 <= now - cb.timestamp <= 300
  }

  /** The channels a notice may come in on. */
  predicate Channel(channel: string) {
    channel == "mock" || channel == "alipay" || channel == "wechat" || channel == "card"
  }

  /** A notice of the order's own channel and amount. */
  predicate Matches(db: Db, channel: string, cb: Callback) {
    cb.no in db.orders && db.orders[cb.no].channel == channel && db.orders[cb.no].amount == cb.amount
  }

  /** Without a valid signature nothing happens. */
  lemma UnsignedIsRefused(db: Db, channel: string, cb: Callback, now: Time)
    ensures var tx := HandleCallback(db, channel, cb, false, now);
            Reply(tx) == Err(if Channel(channel) then ErrBadSignature else ErrChannel) && After(db, tx) == db
  {
  }

  /**
   * A notice credits if and only if it is signed, timely, successful, of the order's channel and amount, the order is
   * still open or closed, and no order has its trade number.
   */
  lemma CreditsIff(db: Db, channel: string, cb: Callback, signed: bool, now: Time)
    ensures Reply(HandleCallback(db, channel, cb, signed, now)) == Ok(true) <==>
              && signed && Channel(channel) && Timely(cb, now) && cb.paid && Matches(db, channel, cb)
              && db.orders[cb.no].status in {Created, Paying, Closed}
              && forall n :: n in db.orders ==> db.orders[n].tradeNo != Some(cb.tradeNo)
  {
    hide Credited, MarkFailed;
  }

  /** The order's row after a credit at this moment. */
  predicate PaidRow(before: PayOrder, after: PayOrder, trade: string, now: Time) {
    && after.status == Paid && after.settle == SettlePending
    && after.tradeNo == Some(trade) && after.paidAt == Some(now)
    && (after.paidAfterClose <==> before.status == Closed) && SameTerms(before, after)
    && after.fee + after.net == after.amount && FeeOf(after.amount, after.fee)
    && after.settleAt == before.settleAt && after.refundedAt == before.refundedAt
  }

  /** Sixty fen in ten thousand, rounded down, but at least one. */
  predicate FeeOf(amount: int, fee: int) {
    fee >= 1 && (fee == 1 || 10000 * fee <= 60 * amount) && (amount > 1 ==> 60 * amount < 10000 * (fee + 1))
  }

  /** A credit pays the order's coins to its account and to nobody else, and books the amount. */
  lemma CreditEffect(db: Db, channel: string, cb: Callback, signed: bool, now: Time)
    requires Reply(HandleCallback(db, channel, cb, signed, now)) == Ok(true) && cb.amount > 0
    ensures cb.no in db.orders
    ensures var o := db.orders[cb.no];
            var d := After(db, HandleCallback(db, channel, cb, signed, now));
            && (forall a :: WalletOf(d.wallets, a).coins
                            == WalletOf(db.wallets, a).coins + (if a == o.account then o.coins else 0))
            && (forall a :: SameDiamonds(db, d, a))
            && d.orders.Keys == db.orders.Keys && PaidRow(o, d.orders[cb.no], cb.tradeNo, now)
            && (forall n :: n in db.orders && n != cb.no ==> d.orders[n] == db.orders[n])
            && d.ledger == db.ledger
                 + [LedgerEntry(o.account, Coin, Credit, o.coins, WalletOf(d.wallets, o.account).coins, BizRecharge,
                                cb.no, o.key)]
            && BookOf(d.book).pending == BookOf(db.book).pending + d.orders[cb.no].net
            && BookOf(d.book).fee == BookOf(db.book).fee + d.orders[cb.no].fee
            && d.callbacks == db.callbacks[(channel, cb.tradeNo) := CallbackLog(cb.no, cb.amount)]
            && d.gifts == db.gifts && d.stats == db.stats && d.withdraws == db.withdraws
  {
    hide PostPay, MarkFailed, TradeTaken, WellFormed;
  }

  predicate SameDiamonds(db: Db, d: Db, a: AccountId) {
    && WalletOf(d.wallets, a).diamonds == WalletOf(db.wallets, a).diamonds
    && WalletOf(d.wallets, a).frozen == WalletOf(db.wallets, a).frozen
  }

  /**
   * A notice that does not credit fails the order if it is a valid failure notice for an order still open, and
   * otherwise changes nothing.
   */
  lemma OtherNotices(db: Db, channel: string, cb: Callback, signed: bool, now: Time)
    requires Reply(HandleCallback(db, channel, cb, signed, now)) != Ok(true)
    ensures After(db, HandleCallback(db, channel, cb, signed, now))
            == if signed && Channel(channel) && Timely(cb, now) && !cb.paid && Matches(db, channel, cb)
                  && db.orders[cb.no].status in {Created, Paying}
               then db.(orders := db.orders[cb.no := db.orders[cb.no].(status := Failed)]) else db
  {
    hide Credited, TradeTaken;
  }

  /** Why a signed notice on a known channel is refused before its order is looked at. */
  lemma BadNotices(db: Db, channel: string, cb: Callback, now: Time)
    requires Channel(channel)
    ensures var r := Reply(HandleCallback(db, channel, cb, true, now));
            && (!Timely(cb, now) <==> r == Err(ErrBadBody))
            && (Timely(cb, now) && cb.no !in db.orders <==> r == Err(ErrOrderNotFound))
  {
    hide Credited, TradeTaken;
  }

  /** Why a success notice of a known order is refused, and when it is a repeat. */
  lemma SuccessErrors(db: Db, channel: string, cb: Callback, now: Time)
    requires Channel(channel) && Timely(cb, now) && cb.no in db.orders && cb.paid
    ensures var r := Reply(HandleCallback(db, channel, cb, true, now));
            var o := db.orders[cb.no];
            && (r == Err(ErrChannel) <==> o.channel != channel)
            && (r == Err(ErrTradeConflict) <==>
                  o.channel == channel && o.status == Paid && o.tradeNo != Some(cb.tradeNo))
            && (r == Ok(false) <==> o.channel == channel && o.status == Paid && o.tradeNo == Some(cb.tradeNo))
            && (r == Err(ErrAmountMismatch) <==> o.channel == channel && o.status != Paid && o.amount != cb.amount)
            && (r == Err(ErrOrderClosed) <==>
                  o.channel == channel && o.amount == cb.amount && o.status in {Failed, Refunded, ChargedBack})
  {
    hide Credited, TradeTaken;
  }

  lemma FailureErrors(db: Db, channel: string, cb: Callback, now: Time)
    requires Channel(channel) && Timely(cb, now) && cb.no in db.orders && !cb.paid
    ensures var r := Reply(HandleCallback(db, channel, cb, true, now));
            if !Matches(db, channel, cb) then r == Err(ErrAmountMismatch)
            else if db.orders[cb.no].status in {Refunded, ChargedBack} then r == Err(ErrOrderClosed) else r == Ok(false)
  {
    hide CreditOrder;
    var s := db.orders[cb.no].status;
    assert s.Created? || s.Paying? || s.Paid? || s.Closed? || s.Failed? || s.Refunded? || s.ChargedBack?;
  }

  /** Step i is the notice that credited the order as it stands at the end. */
  ghost predicate CreditedBy(steps: seq<Step>, i: nat, no: string, o: PayOrder)
    requires i < |steps|
  {
    && steps[i].Notice? && steps[i].signed && steps[i].cb.paid && Timely(steps[i].cb, steps[i].now)
    && steps[i].cb.no == no && steps[i].channel == o.channel && steps[i].cb.amount == o.amount
    && o.tradeNo == Some(steps[i].cb.tradeNo) && o.paidAt == Some(steps[i].now)
  }

  /**
   * Along any run an order is credited only by a signed, timely success notice on its channel and with its amount, and
   * keeps that notice's trade number and time.
   */
  lemma {:induction false} CreditedBySignedNotice(cat: Catalog, steps: seq<Step>, no: string)
    requires CatalogOk(cat) && LegalRun(cat, steps)
    requires no in Run(EMPTY, steps).orders && WasCredited(Run(EMPTY, steps).orders[no])
    ensures exists i :: 0 <= i < |steps| && CreditedBy(steps, i, no, Run(EMPTY, steps).orders[no])
  {
    hide Inv, Apply, Legal, CreditedBy;
    if steps == [] {
      assert false;
    } else {
      var n := |steps| - 1;
      var prefix, step := steps[..n], steps[n];
      var db := Run(EMPTY, prefix);
      RunKeeps(cat, prefix);
      if no !in db.orders {
        OrdersBegin(cat, db, step, no);
      } else if WasCredited(db.orders[no]) {
        CreditedBySignedNotice(cat, prefix, no);
        var i :| 0 <= i < n && CreditedBy(prefix, i, no, db.orders[no]);
        PaidMarksStay(db, step, no);
        SameCredit(steps, i, no, db.orders[no], Apply(db, step).orders[no]);
        assert CreditedBy(steps, i, no, Run(EMPTY, steps).orders[no]);
      } else {
        CreditOnlyOnce(db, step, no);
        CreditingStep(db, steps, no);
        assert CreditedBy(steps, n, no, Run(EMPTY, steps).orders[no]);
      }
    }
  }

  lemma SameCredit(steps: seq<Step>, i: nat, no: string, o: PayOrder, p: PayOrder)
    requires 0 <= i < |steps| - 1 && CreditedBy(steps[..|steps| - 1], i, no, o)
    requires p.channel == o.channel && p.amount == o.amount && p.tradeNo == o.tradeNo && p.paidAt == o.paidAt
    ensures CreditedBy(steps, i, no, p)
  {
  }

  lemma CreditingStep(db: Db, steps: seq<Step>, no: string)
    requires steps != [] && no in db.orders && StepCredits(db, steps[|steps| - 1], no)
    ensures no in Apply(db, steps[|steps| - 1]).orders
    ensures CreditedBy(steps, |steps| - 1, no, Apply(db, steps[|steps| - 1]).orders[no])
  {
    hide HandleCallback, Timely, PaidRow;
    var s := steps[|steps| - 1];
    CreditsIff(db, s.channel, s.cb, s.signed, s.now);
    TimelyAmount(s.cb, s.now);
    CreditEffect(db, s.channel, s.cb, s.signed, s.now);
    PaidRowTerms(db.orders[no], Apply(db, s).orders[no], s.cb.tradeNo, s.now);
  }

  lemma TimelyAmount(cb: Callback, now: Time)
    requires Timely(cb, now)
    ensures cb.amount > 0
  {
  }

  lemma PaidRowTerms(before: PayOrder, after: PayOrder, trade: string, now: Time)
    requires PaidRow(before, after, trade, now)
    ensures after.channel == before.channel && after.amount == before.amount
    ensures after.tradeNo == Some(trade) && after.paidAt == Some(now)
  {
  }

  /** Once paid, an order keeps its terms, its trade number, its payment date and its fee. */
  lemma PaidMarksStay(db: Db, step: Step, no: string)
    requires Inv(db) && no in db.orders && WasCredited(db.orders[no])
    ensures no in Apply(db, step).orders
    ensures SamePayment(db.orders[no], Apply(db, step).orders[no])
  {
    hide Inv, HandleCallback, Reverse, SettleOne, InsertRecharge, CommitGift, RequestWithdraw, PayWithdraw, After,
      SamePayment, MarkPaying, CloseIfExpired, OrderOk;
    SamePaymentItself(db.orders[no]);
    match step
    case Recharge(n, o) => RechargeKeepsPaid(db, n, o, no);
    case Notice(channel, cb, signed, now) => NoticeKeepsPaid(db, channel, cb, signed, now, no);
    case SettleStep(n, now) => SettleKeepsPaid(db, n, now, no);
    case ReverseStep(account, n, chargeback, now) => ReverseKeepsPaid(db, account, n, chargeback, now, no);
    case SendGift(n, g) => GiftKeepsOrders(db, n, g);
    case Withdraw(account, diamonds, n, now) => FreezeKeepsOrders(db, account, diamonds, n, now);
    case Payout(n, now) => PayoutKeepsOrders(db, n, now);
    case Confirm(n, seen) => ConfirmKeepsPaid(db, n, seen, no);
    case Expire(n, copy, now) => ExpireKeepsPaid(db, n, copy, now, no);
  }

  lemma SamePaymentItself(o: PayOrder)
    ensures SamePayment(o, o)
  {
  }

  lemma ConfirmKeepsPaid(db: Db, n: string, seen: Status, no: string)
    requires no in db.orders && WasCredited(db.orders[no])
    ensures var d := MarkPaying(db, n, seen); no in d.orders && d.orders[no] == db.orders[no]
  {
  }

  lemma ExpireKeepsPaid(db: Db, n: string, copy: PayOrder, now: Time, no: string)
    requires no in db.orders && WasCredited(db.orders[no])
    ensures var d := CloseIfExpired(db, n, copy, now); no in d.orders && d.orders[no] == db.orders[no]
  {
  }

  predicate SamePayment(o: PayOrder, p: PayOrder) {
    SameTerms(o, p) && p.tradeNo == o.tradeNo && p.paidAt == o.paidAt && p.fee == o.fee && p.net == o.net
  }

  lemma RechargeKeepsPaid(db: Db, n: string, o: PayOrder, no: string)
    requires no in db.orders
    ensures var d := After(db, InsertRecharge(db, n, o)); no in d.orders && d.orders[no] == db.orders[no]
  {
    hide OrderKeyTaken;
  }

  lemma NoticeKeepsPaid(db: Db, channel: string, cb: Callback, signed: bool, now: Time, no: string)
    requires no in db.orders && WasCredited(db.orders[no])
    ensures var d := After(db, HandleCallback(db, channel, cb, signed, now));
            no in d.orders && d.orders[no] == db.orders[no]
  {
    hide TradeTaken, PostPay, PaidOrder, WellFormed;
  }

  lemma SettleKeepsPaid(db: Db, n: string, now: Time, no: string)
    requires no in db.orders
    ensures var d := After(db, SettleOne(db, n, now)); no in d.orders && SamePayment(db.orders[no], d.orders[no])
  {
    hide PostSettle;
  }

  lemma ReverseKeepsPaid(db: Db, account: AccountId, n: string, chargeback: bool, now: Time, no: string)
    requires no in db.orders
    ensures var d := After(db, Reverse(db, account, n, chargeback, now));
            no in d.orders && SamePayment(db.orders[no], d.orders[no])
  {
    hide PostReverse, ReversedBook, Claw;
  }

  lemma GiftKeepsOrders(db: Db, n: string, g: GiftOrder)
    ensures After(db, CommitGift(db, n, g)).orders == db.orders
  {
    hide GiftKeyTaken;
  }

  lemma FreezeKeepsOrders(db: Db, account: AccountId, diamonds: int, n: string, now: Time)
    ensures After(db, RequestWithdraw(db, account, diamonds, n, now)).orders == db.orders
  {
  }

  lemma PayoutKeepsOrders(db: Db, n: string, now: Time)
    ensures After(db, PayWithdraw(db, n, now)).orders == db.orders
  {
  }

  /** Every order credited along a run carries sixty basis points of its amount as its fee, or one fen. */
  lemma ChargedSixtyPoints(cat: Catalog, steps: seq<Step>, no: string)
    requires CatalogOk(cat) && LegalRun(cat, steps)
    requires no in Run(EMPTY, steps).orders && WasCredited(Run(EMPTY, steps).orders[no])
    ensures var o := Run(EMPTY, steps).orders[no];
            && o.fee + o.net == o.amount
            && (if 60 * o.amount < 10000 then o.fee == 1 else 10000 * o.fee <= 60 * o.amount < 10000 * (o.fee + 1))
  {
    hide Run, Legal, Inv, CatalogOk;
    RunKeeps(cat, steps);
    OrderRowOk(Run(EMPTY, steps), no);
  }

  // ---------- settlement ----------

  /** A round of settlement with a deadline finds exactly the unsettled orders whose crediting notice came by then. */
  lemma DueSinceCredit(cat: Catalog, steps: seq<Step>, no: string, deadline: Time)
    requires CatalogOk(cat) && LegalRun(cat, steps)
    ensures var db := Run(EMPTY, steps);
            no in DueOrders(db.orders, deadline) <==>
              && no in db.orders && db.orders[no].settle == SettlePending
              && exists i :: 0 <= i < |steps| && CreditedBy(steps, i, no, db.orders[no]) && steps[i].now <= deadline
  {
    hide Run, Legal, Inv, CatalogOk, Timely, LegalRun;
    RunKeeps(cat, steps);
    var db := Run(EMPTY, steps);
    if no in db.orders {
      OrderRowOk(db, no);
      if db.orders[no].settle == SettlePending {
        CreditedBySignedNotice(cat, steps, no);
        var i :| 0 <= i < |steps| && CreditedBy(steps, i, no, db.orders[no]);
        assert steps[i].now == db.orders[no].paidAt.value;
      }
    }
  }

  /** A settlement moves a pending order's net from pending to settled; no wallet or ledger entry changes. */
  lemma SettlementEffect(db: Db, no: string, now: Time)
    ensures var tx := SettleOne(db, no, now);
            var d, b := After(db, tx), BookOf(db.book);
            if no !in db.orders then Reply(tx) == Err(ErrRecordNotFound) && d == db
            else
              var o := db.orders[no];
              && Reply(tx) == Ok(())
              && d == if o.status != Paid || o.settle != SettlePending then db
                      else db.(orders := db.orders[no := o.(settle := SettleSettled, settleAt := Some(now))],
                               book := Some(b.(pending := b.pending - o.net, settled := b.settled + o.net)),
                               journal := d.journal)
  {
    hide PostSettle;
  }

  // ---------- refund and chargeback ----------

  /** Exactly when an order can be reversed, and why not otherwise. */
  lemma ReversesIff(db: Db, account: AccountId, no: string, chargeback: bool, now: Time)
    ensures var r := Reply(Reverse(db, account, no, chargeback, now));
            && (r == Err(ErrOrderNotFound) <==> no !in db.orders || db.orders[no].account != account)
            && (no in db.orders && db.orders[no].account == account ==>
                  var o := db.orders[no];
                  var reversible := o.status == Paid && o.settle in {SettlePending, SettleSettled};
                  && (r == Err(ErrRefundNotAllowed) <==> !reversible)
                  && (r == Err(ErrInsufficientCoin) <==>
                        reversible && !chargeback && WalletOf(db.wallets, account).coins < o.coins)
                  && (r.Ok? <==> reversible && (chargeback || o.coins <= WalletOf(db.wallets, account).coins)))
            && (r.Err? ==> After(db, Reverse(db, account, no, chargeback, now)) == db)
  {
    hide Reversed;
  }

  /**
   * A reversal takes the coins sold out of the wallet, or in a chargeback as many as are left; the one ledger entry
   * carries exactly what left the wallet, and the rest is the shortfall.
   */
  lemma ReversalTakes(db: Db, account: AccountId, no: string, chargeback: bool, now: Time)
    requires Inv(db) && Reverse(db, account, no, chargeback, now).Commit?
    ensures no in db.orders
    ensures var o := db.orders[no];
            var d := After(db, Reverse(db, account, no, chargeback, now));
            var before, after := WalletOf(db.wallets, account).coins, WalletOf(d.wallets, account).coins;
            && after == (if before >= o.coins then before - o.coins else 0)
            && (!chargeback ==> before - after == o.coins)
            && (forall a :: a != account ==> WalletOf(d.wallets, a).coins == WalletOf(db.wallets, a).coins)
            && (forall a :: SameDiamonds(db, d, a))
            && (if before == after then d.ledger == db.ledger
                else d.ledger == db.ledger + [LedgerEntry(account, Coin, Debit, before - after, after,
                                                          if chargeback then BizChargeback else BizRefund, no, o.key)])
            && BookOf(d.book).shortfall == BookOf(db.book).shortfall + (o.coins - (before - after))
  {
    hide Inv, PostReverse, ReversedOrder;
    OrderCoins(db, no);
    NoNegativeCoins(db, account);
  }

  lemma OrderCoins(db: Db, no: string)
    requires Inv(db) && no in db.orders
    ensures db.orders[no].coins >= 0
  {
    hide Inv;
    OrderRowOk(db, no);
  }

  lemma NoNegativeCoins(db: Db, a: AccountId)
    requires Inv(db)
    ensures WalletOf(db.wallets, a).coins >= 0
  {
    hide OrdersOk, JournalExact, GroupsBalanced, BookOk, RunningBalances, LedgerExact, CoinsConserved,
      DiamondsConserved, GiftsOk, CallbacksOk, LedgerTotal;
  }

  /** What else a reversal writes: the order's marks and the book's columns. */
  lemma ReversalBooks(db: Db, account: AccountId, no: string, chargeback: bool, now: Time)
    requires Reverse(db, account, no, chargeback, now).Commit?
    ensures no in db.orders
    ensures var o := db.orders[no];
            var d := After(db, Reverse(db, account, no, chargeback, now));
            var b, c := BookOf(db.book), BookOf(d.book);
            && d.orders == db.orders[no := if chargeback
                                           then o.(status := ChargedBack, settle := SettleChargeback,
                                                   refundedAt := Some(now))
                                           else o.(status := Refunded, settle := SettleRefunded,
                                                   refundedAt := Some(now))]
            && Reply(Reverse(db, account, no, chargeback, now)) == Ok(d.orders[no])
            && c.pending == b.pending - (if o.settle == SettlePending then o.net else 0)
            && c.settled == b.settled - (if o.settle == SettleSettled then o.net else 0)
            && c.fee == b.fee - o.fee && c.payout == b.payout
            && c.refund == b.refund + (if chargeback then 0 else o.amount)
            && c.chargeback == b.chargeback + (if chargeback then o.amount else 0)
            && d.gifts == db.gifts && d.stats == db.stats && d.withdraws == db.withdraws && d.callbacks == db.callbacks
  {
    hide PostReverse, Claw;
  }
}
