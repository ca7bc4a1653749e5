/** Whole runs: any interleaving of the service's transactions, from the empty database. */
module PayRuns {
  import opened PayTypes
  import opened PayModel
  import opened PayInvariant
  import opened PayPreserve

  /**
   * One atomic step. Requests that check first and write later appear only with their write, carrying the row that the
   * earlier check prepared: the check may have run against any older state.
   */
  datatype Step =
    | Recharge(no: string, order: PayOrder)
    | Confirm(no: string, seen: Status)
    | Notice(channel: string, cb: Callback, signed: bool, now: Time)
    | Expire(no: string, copy: PayOrder, now: Time)
    | SettleStep(no: string, now: Time)
    | ReverseStep(account: AccountId, no: string, chargeback: bool, now: Time)
    | SendGift(no: string, gift: GiftOrder)
    | Withdraw(account: AccountId, diamonds: int, no: string, now: Time)
    | Payout(no: string, now: Time)

  ghost function Apply(db: Db, step: Step): Db {
    match step
    case Recharge(no, o) => After(db, InsertRecharge(db, no, o))
    case Confirm(no, seen) => MarkPaying(db, no, seen)
    case Notice(channel, cb, signed, now) => After(db, HandleCallback(db, channel, cb, signed, now))
    case Expire(no, copy, now) => CloseIfExpired(db, no, copy, now)
    case SettleStep(no, now) => After(db, SettleOne(db, no, now))
    case ReverseStep(account, no, chargeback, now) => After(db, Reverse(db, account, no, chargeback, now))
    case SendGift(no, g) => After(db, CommitGift(db, no, g))
    case Withdraw(account, diamonds, no, now) => After(db, RequestWithdraw(db, account, diamonds, no, now))
    case Payout(no, now) => After(db, PayWithdraw(db, no, now))
  }

  /** The catalogue may not pay people to send gifts. */
  predicate CatalogOk(cat: Catalog) {
    forall c :: c in cat.gifts ==> cat.gifts[c].price >= 0
  }

  /** A row that the check of CreateRecharge prepares. */
  predicate OrderIntent(cat: Catalog, o: PayOrder) {
    && o.account != 0 && 1 <= |o.key| <= 64 && KnownChannel(o.channel)
    && o.packageCode in cat.packages && Sellable(cat.packages[o.packageCode])
    && o == NewOrder(o.account, o.key, o.packageCode, cat.packages[o.packageCode], o.channel, o.expireAt - ORDER_TTL)
  }

  /** A row that the check of SendGift prepares. */
  predicate GiftIntent(cat: Catalog, g: GiftOrder) {
    && g.key != "" && 1 <= g.count <= MAX_GIFT_COUNT
    && g.giftCode in cat.gifts && g.video in cat.authors && cat.authors[g.video] != g.sender
    && g == NewGift(cat, g.sender, g.key, g.video, g.giftCode, g.count)
  }

  /** The checks prepare only such rows, whatever state they read. */
  lemma ChecksPrepareIntents(db: Db, cat: Catalog, account: AccountId, key: string, code: string, channel: string,
                             now: Time, video: VideoId, count: int)
    ensures var r := CheckRecharge(db, cat, account, key, code, channel, now);
            r.Ok? && r.value.Fresh? ==> OrderIntent(cat, r.value.row) && !OrderKeyTaken(db, account, key)
    ensures var r := CheckGift(db, cat, account, key, video, code, count);
            r.Ok? && r.value.Fresh? ==> GiftIntent(cat, r.value.row) && !GiftKeyTaken(db, account, key)
  {
  }

  predicate Legal(cat: Catalog, step: Step) {
    match step
    case Recharge(_, o) => OrderIntent(cat, o)
    case SendGift(_, g) => GiftIntent(cat, g)
    case _ => true
  }

  predicate LegalRun(cat: Catalog, steps: seq<Step>) {
    forall i :: 0 <= i < |steps| ==> Legal(cat, steps[i])
  }

  ghost function Run(db: Db, steps: seq<Step>): Db {
    if steps == [] then db else Apply(Run(db, steps[..|steps| - 1]), steps[|steps| - 1])
  }

  // ---------- every step keeps the invariant ----------

  lemma StepKeeps(cat: Catalog, db: Db, step: Step)
    requires CatalogOk(cat) && Inv(db) && Legal(cat, step)
    ensures Inv(Apply(db, step))
  {
    hide Inv, Credited, Settled, Reversed, Gifted, Frozen, PaidWithdraw, OrderKeyTaken, TradeTaken, GiftKeyTaken;
    match step
    case Recharge(no, o) => RechargeKeeps(cat, db, no, o);
    case Confirm(no, seen) => ConfirmKeeps(db, no, seen);
    case Notice(channel, cb, signed, now) => NoticeKeeps(db, channel, cb, signed, now);
    case Expire(no, copy, now) => ExpireKeeps(db, no, copy, now);
    case SettleStep(no, now) =>
      if no in db.orders && db.orders[no].status == Paid && db.orders[no].settle == SettlePending {
        SettleKeeps(db, no, now);
      }
    case ReverseStep(account, no, chargeback, now) =>
      if Reverse(db, account, no, chargeback, now).Commit? {
        ReverseKeeps(db, no, chargeback, now);
      }
    case SendGift(no, g) =>
      if CommitGift(db, no, g).Commit? {
        GiftIntentOk(cat, g);
        GiftKeeps(db, no, g);
      }
    case Withdraw(account, diamonds, no, now) =>
      if RequestWithdraw(db, account, diamonds, no, now).Commit? {
        FreezeKeeps(db, account, diamonds, no, now);
      }
    case Payout(no, now) => PayWithdrawKeeps(db, no, now);
  }

  lemma GiftIntentOk(cat: Catalog, g: GiftOrder)
    requires CatalogOk(cat) && GiftIntent(cat, g)
    ensures GiftOk(g)
  {
    assert cat.gifts[g.giftCode].price * g.count >= 0;
  }

  lemma RechargeKeeps(cat: Catalog, db: Db, no: string, o: PayOrder)
    requires Inv(db) && OrderIntent(cat, o)
    ensures Inv(After(db, InsertRecharge(db, no, o)))
  {
    hide Inv;
    if no !in db.orders && !OrderKeyTaken(db, o.account, o.key) {
      OpenOrderKeeps(db, no, o);
    }
  }

  /** The rows that a status change starts from and ends in are legal. */
  lemma OrderRowOk(db: Db, no: string)
    requires Inv(db) && no in db.orders
    ensures OrderOk(db.orders[no])
  {
    hide JournalExact, GroupsBalanced, BookOk, WalletsOk, RunningBalances, LedgerExact, CoinsConserved,
      DiamondsConserved, GiftsOk, CallbacksOk, OrderOk;
  }

  lemma ConfirmKeeps(db: Db, no: string, seen: Status)
    requires Inv(db)
    ensures Inv(MarkPaying(db, no, seen))
  {
    hide Inv;
    if MarkPaying(db, no, seen) != db {
      OrderRowOk(db, no);
      OpenOrderKeeps(db, no, db.orders[no].(status := Paying));
    }
  }

  lemma ExpireKeeps(db: Db, no: string, copy: PayOrder, now: Time)
    requires Inv(db)
    ensures Inv(CloseIfExpired(db, no, copy, now))
  {
    hide Inv;
    if CloseIfExpired(db, no, copy, now) != db {
      OrderRowOk(db, no);
      OpenOrderKeeps(db, no, db.orders[no].(status := Closed));
    }
  }

  lemma NoticeKeeps(db: Db, channel: string, cb: Callback, signed: bool, now: Time)
    requires Inv(db)
    ensures Inv(After(db, HandleCallback(db, channel, cb, signed, now)))
  {
    hide Inv, Credited, TradeTaken;
    if cb.no in db.orders {
      OrderRowOk(db, cb.no);
      var o := db.orders[cb.no];
      if !cb.paid && o.status in {Created, Paying} {
        OpenOrderKeeps(db, cb.no, o.(status := Failed));
      } else if cb.paid && !WasCredited(o) && o.channel == channel && o.amount == cb.amount
                && !TradeTaken(db, cb.tradeNo) {
        CreditKeeps(db, channel, cb, now);
      }
    }
  }

  /** The branch of payWithdraw that rejects for lack of frozen diamonds is never taken. */
  lemma PayWithdrawNeverRejects(db: Db, no: string, now: Time)
    requires Inv(db) && no in db.withdraws
    ensures PayWithdraw(db, no, now)
         == Commit(if db.withdraws[no].status == Reviewing then PaidWithdraw(db, no, now) else db, ())
  {
    hide OrdersOk, JournalExact, GroupsBalanced, BookOk, WalletsOk, RunningBalances, LedgerExact, CoinsConserved,
      DiamondsConserved, GiftsOk, CallbacksOk;
    if db.withdraws[no].status == Reviewing {
      FrozenCovers(db, no);
    }
  }

  lemma PayWithdrawKeeps(db: Db, no: string, now: Time)
    requires Inv(db)
    ensures Inv(After(db, PayWithdraw(db, no, now)))
  {
    hide Inv, PaidWithdraw;
    if no in db.withdraws {
      PayWithdrawNeverRejects(db, no, now);
      if db.withdraws[no].status == Reviewing {
        PayoutKeeps(db, no, now);
      }
    }
  }

  /** The invariant holds in every state of every run. */
  lemma {:induction false} RunKeeps(cat: Catalog, steps: seq<Step>)
    requires CatalogOk(cat) && LegalRun(cat, steps)
    ensures Inv(Run(EMPTY, steps))
  {
    hide Inv, Apply, Legal;
    if steps == [] {
      EmptyOk();
    } else {
      RunKeeps(cat, steps[..|steps| - 1]);
      StepKeeps(cat, Run(EMPTY, steps[..|steps| - 1]), steps[|steps| - 1]);
    }
  }
}
