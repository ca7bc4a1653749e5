/** When requests for recharges, gifts and withdrawals are accepted, in plain numbers, and what they come to. */
module PayRequests {
  import opened PayTypes
  import opened PayModel
  import opened PayInvariant
  import opened PayRuns
  import opened PayLifecycle
  import opened PayOutcomes

  // ---------- recharge ----------

  /** A recharge request that could be served: a key of 1 to 64, a known channel and an active, priced package. */
  predicate RechargeAsked(cat: Catalog, account: AccountId, key: string, code: string, channel: string) {
    && account != 0 && 1 <= |key| <= 64 && (channel == "" || Channel(channel)) && code != "" && code in cat.packages
    && cat.packages[code].active && cat.packages[code].price >= 1
    && cat.packages[code].coins >= 0 && cat.packages[code].bonus >= 0
  }

  /** What is wrong with a request that is not, in the order in which it is looked at. */
  lemma RechargeRefused(db: Db, cat: Catalog, account: AccountId, key: string, code: string, channel: string, now: Time)
    ensures var r := CheckRecharge(db, cat, account, key, code, channel, now);
            && (r == Err(ErrAccountRequired) <==> account == 0)
            && (r == Err(ErrIdempotencyKey) <==> account != 0 && !(1 <= |key| <= 64))
            && (r == Err(ErrChannel) <==> account != 0 && 1 <= |key| <= 64 && channel != "" && !Channel(channel))
            && (r == Err(ErrPackageNotFound) <==>
                  && account != 0 && 1 <= |key| <= 64 && (channel == "" || Channel(channel))
                  && !RechargeAsked(cat, account, key, code, channel))
            && (r.Ok? ==> RechargeAsked(cat, account, key, code, channel))
  {
  }

  /** A new key gets a fresh order: the package's coins and bonus at its price, payable for fifteen minutes. */
  lemma FreshRecharge(db: Db, cat: Catalog, account: AccountId, key: string, code: string, channel: string, now: Time)
    requires RechargeAsked(cat, account, key, code, channel)
    requires forall no :: no in db.orders ==> !(db.orders[no].account == account && db.orders[no].key == key)
    ensures var r := CheckRecharge(db, cat, account, key, code, channel, now);
            && r.Ok? && r.value.Fresh?
            && (var o, p := r.value.row, cat.packages[code];
                && o.account == account && o.key == key && o.packageCode == code
                && o.coins == p.coins + p.bonus && o.amount == p.price
                && o.channel == (if channel == "" then "mock" else channel)
                && o.status == Paying && o.settle == SettleNone && o.expireAt == now + 900
                && o.tradeNo == None && o.paidAt == None && o.settleAt == None && o.refundedAt == None
                && o.fee == 0 && o.net == 0 && !o.paidAfterClose)
  {
  }

  /** A known key gets its order back, if it was for the same package at the same price, and is refused otherwise. */
  lemma RepeatedRecharge(db: Db, cat: Catalog, no: string, code: string, channel: string, now: Time)
    requires OrdersOk(db.orders) && no in db.orders
    requires RechargeAsked(cat, db.orders[no].account, db.orders[no].key, code, channel)
    ensures var o := db.orders[no];
            CheckRecharge(db, cat, o.account, o.key, code, channel, now)
            == if o.packageCode == code && o.amount == cat.packages[code].price
               then Ok(Known(o)) else Err(ErrIdempotencyClash)
  {
    hide OrderOk;
    var o := db.orders[no];
    assert SameRequest(o, o.account, o.key);
    OneRow(db, no, o.account, o.key);
  }

  /** The unique index leaves an idempotency lookup one row to find. */
  lemma OneRow(db: Db, no: string, account: AccountId, key: string)
    requires OrdersOk(db.orders) && no in db.orders && SameRequest(db.orders[no], account, key)
    ensures OrderKeyTaken(db, account, key) && ExistingOrder(db, account, key) == db.orders[no]
  {
    hide OrderOk;
    var other :| other in db.orders && SameRequest(db.orders[other], account, key)
                 && db.orders[other] == ExistingOrder(db, account, key);
    assert SameRequest(db.orders[no], db.orders[other].account, db.orders[other].key);
  }

  /** The insert of a new key adds exactly that row; a lost race changes nothing and answers as a repeat would. */
  lemma InsertOutcome(db: Db, no: string, o: PayOrder)
    requires OrdersOk(db.orders)
    ensures var tx := InsertRecharge(db, no, o);
            && (OrderKeyTaken(db, o.account, o.key) || no in db.orders ==> After(db, tx) == db)
            && (!OrderKeyTaken(db, o.account, o.key) && no !in db.orders ==>
                  Reply(tx) == Ok(o) && After(db, tx) == db.(orders := db.orders[no := o]))
            && (!OrderKeyTaken(db, o.account, o.key) && no in db.orders ==> Reply(tx) == Err(ErrRecordNotFound))
            && (forall n :: n in db.orders && SameRequest(db.orders[n], o.account, o.key) ==>
                  Reply(tx) == if db.orders[n].packageCode == o.packageCode && db.orders[n].amount == o.amount
                               then Ok(db.orders[n]) else Err(ErrIdempotencyClash))
  {
    hide OrderOk;
    forall n | n in db.orders && SameRequest(db.orders[n], o.account, o.key)
      ensures OrderKeyTaken(db, o.account, o.key) && ExistingOrder(db, o.account, o.key) == db.orders[n]
    {
      OneRow(db, n, o.account, o.key);
    }
  }

  /** Confirming only ever turns an order that is still as it was read, created or paying, into a paying one. */
  lemma ConfirmOutcome(db: Db, no: string, seen: Status)
    ensures MarkPaying(db, no, seen)
            == if no in db.orders && db.orders[no].status == seen && (seen == Created || seen == Paying)
               then db.(orders := db.orders[no := db.orders[no].(status := Paying)]) else db
  {
  }

  /** An order closes if and only if it is open, was read as open, and its time had passed. */
  lemma ExpiryOutcome(db: Db, no: string, copy: PayOrder, now: Time)
    ensures var d := CloseIfExpired(db, no, copy, now);
            && (if no in db.orders && db.orders[no].status in {Created, Paying} && copy.status in {Created, Paying}
                   && copy.expireAt < now
                then d == db.(orders := db.orders[no := db.orders[no].(status := Closed)]) else d == db)
  {
  }

  // ---------- gifts ----------

  /** A gift request that could be served; no count means one. */
  predicate GiftAsked(cat: Catalog, sender: AccountId, key: string, video: VideoId, code: string, count: int) {
    && GiftWellFormed(key, video, code, count)
    && code in cat.gifts && cat.gifts[code].active && video in cat.authors && cat.authors[video] != sender
  }

  predicate GiftWellFormed(key: string, video: VideoId, code: string, count: int) {
    count <= 99 && video != 0 && code != "" && key != ""
  }

  /** Why a gift request is refused, and when it is a repeat. */
  lemma GiftRefused(db: Db, cat: Catalog, sender: AccountId, key: string, video: VideoId, code: string, count: int)
    ensures var r := CheckGift(db, cat, sender, key, video, code, count);
            var isNew := GiftWellFormed(key, video, code, count)
              && forall no :: no in db.gifts ==> !(db.gifts[no].sender == sender && db.gifts[no].key == key);
            && (r == Err(ErrIdempotencyKey) <==> !GiftWellFormed(key, video, code, count))
            && (r == Err(ErrPackageNotFound) <==> isNew && !(code in cat.gifts && cat.gifts[code].active))
            && (r == Err(ErrOrderNotFound) <==>
                  isNew && code in cat.gifts && cat.gifts[code].active && video !in cat.authors)
            && (r == Err(ErrSelfGift) <==>
                  && isNew && code in cat.gifts && cat.gifts[code].active
                  && video in cat.authors && cat.authors[video] == sender)
            && (r.Ok? && r.value.Fresh? <==> isNew && GiftAsked(cat, sender, key, video, code, count))
            && (r.Ok? && r.value.Known? <==> GiftWellFormed(key, video, code, count) && !isNew)
  {
    hide NewGift;
  }

  /** A fresh gift costs its price times the count, goes to the video's author and gives half the coins as diamonds. */
  lemma FreshGift(db: Db, cat: Catalog, sender: AccountId, key: string, video: VideoId, code: string, count: int)
    ensures var r := CheckGift(db, cat, sender, key, video, code, count);
            r.Ok? && r.value.Fresh? ==>
              var g := r.value.row;
              && code in cat.gifts && video in cat.authors
              && g.sender == sender && g.key == key && g.video == video && g.giftCode == code
              && g.receiver == cat.authors[video] && g.count == (if count >= 1 then count else 1)
              && g.cost == cat.gifts[code].price * g.count && (g.cost >= 0 ==> g.diamonds == g.cost / 2)
  {
    hide GiftKeyTaken;
  }

  lemma KnownGift(db: Db, cat: Catalog, no: string, video: VideoId, code: string, count: int)
    requires GiftsOk(db.gifts, db.stats) && no in db.gifts && GiftWellFormed(db.gifts[no].key, video, code, count)
    ensures CheckGift(db, cat, db.gifts[no].sender, db.gifts[no].key, video, code, count) == Ok(Known(db.gifts[no]))
  {
    hide GiftTotal, GiftOk, NewGift;
    var g := db.gifts[no];
    assert SameGift(g, g.sender, g.key);
    var other :| other in db.gifts && SameGift(db.gifts[other], g.sender, g.key)
                 && db.gifts[other] == ExistingGift(db, g.sender, g.key);
    assert SameGift(db.gifts[no], db.gifts[other].sender, db.gifts[other].key);
  }

  /** A gift commits if and only if the sender's coins cover it and neither its number nor its key is in use. */
  lemma GiftIff(db: Db, no: string, g: GiftOrder)
    ensures var tx := CommitGift(db, no, g);
            var free := && no !in db.gifts
                        && forall n :: n in db.gifts ==>
                             !(db.gifts[n].sender == g.sender && db.gifts[n].key == g.key);
            && (Reply(tx) == Ok(g) <==> WalletOf(db.wallets, g.sender).coins >= g.cost && free)
            && (Reply(tx) == Err(ErrInsufficientCoin) <==> WalletOf(db.wallets, g.sender).coins < g.cost)
            && (Reply(tx) == Err(ErrDuplicateKey) <==> WalletOf(db.wallets, g.sender).coins >= g.cost && !free)
            && (Reply(tx).Err? ==> After(db, tx) == db)
  {
    hide Gifted;
  }

  /** A gift moves its cost from the sender, gives the diamonds to the receiver, and touches no other wallet. */
  lemma GiftEffect(db: Db, no: string, g: GiftOrder)
    requires CommitGift(db, no, g).Commit? && g.sender != g.receiver
    ensures var d := After(db, CommitGift(db, no, g));
            && (forall a :: WalletOf(d.wallets, a).coins
                            == WalletOf(db.wallets, a).coins - (if a == g.sender then g.cost else 0))
            && (forall a :: WalletOf(d.wallets, a).diamonds
                            == WalletOf(db.wallets, a).diamonds + (if a == g.receiver then g.diamonds else 0))
            && (forall a :: WalletOf(d.wallets, a).frozen == WalletOf(db.wallets, a).frozen)
            && d.gifts == db.gifts[no := g]
            && (forall v :: StatOf(d.stats, v)
                            == if v == g.video
                               then VideoGiftStat(StatOf(db.stats, v).count + g.count,
                                                  StatOf(db.stats, v).coins + g.cost)
                               else StatOf(db.stats, v))
            && d.ledger == db.ledger
                 + [LedgerEntry(g.sender, Coin, Debit, g.cost, WalletOf(d.wallets, g.sender).coins, BizGiftSend, no,
                                g.key)]
                 + (if g.diamonds > 0
                    then [LedgerEntry(g.receiver, Diamond, Credit, g.diamonds, WalletOf(d.wallets, g.receiver).diamonds,
                                      BizGiftReceive, no, g.key)]
                    else [])
            && d.orders == db.orders && d.journal == db.journal && d.book == db.book && d.withdraws == db.withdraws
  {
    hide GiftKeyTaken;
  }

  // ---------- withdrawals ----------

  /** Ten diamonds are the least, and they must be available. */
  lemma WithdrawIff(db: Db, account: AccountId, diamonds: int, no: string, now: Time)
    ensures var tx := RequestWithdraw(db, account, diamonds, no, now);
            var enough := WalletOf(db.wallets, account).diamonds >= diamonds;
            && (Reply(tx) == Err(ErrRefundNotAllowed) <==> diamonds < 10)
            && (Reply(tx) == Err(ErrInsufficientCoin) <==> diamonds >= 10 && !enough)
            && (Reply(tx) == Err(ErrDuplicateKey) <==> diamonds >= 10 && enough && no in db.withdraws)
            && (Reply(tx).Ok? <==> diamonds >= 10 && enough && no !in db.withdraws)
            && (Reply(tx).Err? ==> After(db, tx) == db)
  {
  }

  /** A request freezes the diamonds and asks for ten fen each. */
  lemma WithdrawEffect(db: Db, account: AccountId, diamonds: int, no: string, now: Time)
    requires RequestWithdraw(db, account, diamonds, no, now).Commit?
    ensures var d := After(db, RequestWithdraw(db, account, diamonds, no, now));
            && (forall a :: WalletOf(d.wallets, a).coins == WalletOf(db.wallets, a).coins)
            && (forall a :: WalletOf(d.wallets, a).diamonds
                            == WalletOf(db.wallets, a).diamonds - (if a == account then diamonds else 0))
            && (forall a :: WalletOf(d.wallets, a).frozen
                            == WalletOf(db.wallets, a).frozen + (if a == account then diamonds else 0))
            && d.withdraws == db.withdraws[no := WithdrawOrder(account, diamonds, 10 * diamonds, Reviewing, now, None)]
            && Reply(RequestWithdraw(db, account, diamonds, no, now)) == Ok(d.withdraws[no])
            && d.ledger == db.ledger && d.book == db.book && d.orders == db.orders && d.gifts == db.gifts
  {
  }

  /** A withdrawal comes due fifteen seconds after its request. */
  lemma DueAfterFifteenSeconds(db: Db, account: AccountId, diamonds: int, no: string, asked: Time, now: Time)
    requires RequestWithdraw(db, account, diamonds, no, asked).Commit?
    ensures var d := After(db, RequestWithdraw(db, account, diamonds, no, asked));
            no in DueWithdraws(d.withdraws, now) <==> now - asked >= 15
  {
  }

  /** A round of payouts finds exactly the withdrawals under review that were requested at least fifteen seconds ago. */
  lemma DueForPayout(db: Db, no: string, now: Time)
    ensures no in DueWithdraws(db.withdraws, now) <==>
              no in db.withdraws && db.withdraws[no].status == Reviewing && now - db.withdraws[no].createdAt >= 15
  {
  }

  /** A payout takes the frozen diamonds, books ten fen for each, and leaves what is available alone. */
  lemma PayoutOutcome(db: Db, no: string, now: Time)
    requires Inv(db)
    ensures var tx := PayWithdraw(db, no, now);
            var d := After(db, tx);
            if no !in db.withdraws then Reply(tx) == Err(ErrRecordNotFound) && d == db
            else if db.withdraws[no].status != Reviewing then Reply(tx) == Ok(()) && d == db
            else
              var o := db.withdraws[no];
              && Reply(tx) == Ok(())
              && (forall a :: WalletOf(d.wallets, a).coins == WalletOf(db.wallets, a).coins
                           && WalletOf(d.wallets, a).diamonds == WalletOf(db.wallets, a).diamonds
                           && WalletOf(d.wallets, a).frozen
                              == WalletOf(db.wallets, a).frozen - (if a == o.account then o.diamonds else 0))
              && BookOf(d.book) == BookOf(db.book).(payout := BookOf(db.book).payout + 10 * o.diamonds)
              && d.ledger == db.ledger + [LedgerEntry(o.account, Diamond, Debit, o.diamonds,
                                                      WalletOf(db.wallets, o.account).diamonds, BizWithdraw, no, no)]
              && d.withdraws == db.withdraws[no := o.(status := PaidOut, paidAt := Some(now))]
  {
    hide Inv;
    if no in db.withdraws {
      PayWithdrawNeverRejects(db, no, now);
      TenFenEach(db, no);
    }
  }

  lemma TenFenEach(db: Db, no: string)
    requires Inv(db) && no in db.withdraws
    ensures db.withdraws[no].amount == 10 * db.withdraws[no].diamonds
  {
    hide OrdersOk, JournalExact, GroupsBalanced, BookOk, WalletsOk, RunningBalances, LedgerExact, CoinsConserved,
      GiftsOk, CallbacksOk, WalletTotal, GiftTotal, WithdrawTotal;
  }

  /** Along any run, what has been paid to creators is ten fen for each diamond of the withdrawals paid out. */
  lemma TenFenPerDiamond(cat: Catalog, steps: seq<Step>)
    requires CatalogOk(cat) && LegalRun(cat, steps)
    ensures BookOf(Run(EMPTY, steps).book).payout == 10 * WithdrawTotal(Run(EMPTY, steps).withdraws, PaidOutDiamonds)
  {
    hide Run, Legal, OrdersOk, JournalExact, GroupsBalanced, BookOk, WalletsOk, RunningBalances, LedgerExact,
      CoinsConserved, GiftsOk, CallbacksOk, WalletTotal, GiftTotal, WithdrawTotal;
    RunKeeps(cat, steps);
  }
}
