/** What each payment transaction does to the database, as a function of the state it starts from. */
module PayModel {
  import opened PayTypes

  /** The channel takes 60 basis points and at least one fen; the merchant gets the rest. */
  function SplitFee(amount: int): (r: (int, int))
    ensures amount <= 0 ==> r == (0, 0)
    ensures amount > 0 ==> r.0 + r.1 == amount && 1 <= r.0 <= amount && 0 <= r.1
    ensures amount > 0 ==> (r.1 == 0 <==> amount == 1)
    ensures amount > 1 ==> if 60 * amount < 10000 then r.0 == 1 else 10000 * r.0 <= 60 * amount < 10000 * (r.0 + 1)
  {
    if amount <= 0 then (0, 0)
    else
      var fee := amount * FEE_BPS / 10000;
      var charged := if fee == 0 || fee >= amount then 1 else fee;
      (charged, amount - charged)
  }

  /** The creator's diamonds for a gift: half of the coins, rounded down. */
  function CreatorShare(cost: int): (d: int)
    ensures cost >= 0 ==> 2 * d <= cost <= 2 * d + 1
  {
    cost * CREATOR_SHARE_BPS / 10000
  }

  // ---------- recharge orders ----------

  /** A package the service will sell (service.go, findPackage). */
  predicate Sellable(p: CoinPackage) {
    p.active && p.price > 0 && p.coins >= 0 && p.bonus >= 0
  }

  function NewOrder(account: AccountId, key: string, code: string, p: CoinPackage, channel: string,
                    now: Time): PayOrder {
    PayOrder(account, key, code, p.coins + p.bonus, p.price, channel, Paying, None, false, 0, 0, SettleNone, None,
             now + ORDER_TTL, None, None)
  }

  predicate SameRequest(o: PayOrder, account: AccountId, key: string) {
    o.account == account && o.key == key
  }

  predicate OrderKeyTaken(db: Db, account: AccountId, key: string) {
    exists no :: no in db.orders && SameRequest(db.orders[no], account, key)
  }

  predicate TradeTaken(db: Db, trade: string) {
    exists no :: no in db.orders && db.orders[no].tradeNo == Some(trade)
  }

  /** The row that an idempotency lookup finds; the unique index leaves no choice. */
  ghost function ExistingOrder(db: Db, account: AccountId, key: string): (o: PayOrder)
    requires OrderKeyTaken(db, account, key)
    ensures SameRequest(o, account, key)
  {
    var no :| no in db.orders && SameRequest(db.orders[no], account, key);
    db.orders[no]
  }

  /** What the idempotency check found: an earlier row for the same key, or nothing, and then a row to insert. */
  datatype Checked<+T> = Known(row: T) | Fresh(row: T)

  /** A repeated request must ask for the same package at the same price. */
  function Repeat(existing: PayOrder, code: string, price: int): Result<PayOrder> {
    if existing.packageCode != code || existing.amount != price then Err(ErrIdempotencyClash) else Ok(existing)
  }

  /** The part of CreateRecharge that runs before the insert, on the state at that earlier moment. */
  ghost function CheckRecharge(db: Db, cat: Catalog, account: AccountId, key: string, code: string, channel: string,
                               now: Time)
    : Result<Checked<PayOrder>>
  {
    var ch := if channel == "" then "mock" else channel;
    if account == 0 then Err(ErrAccountRequired)
    else if key == "" || |key| > 64 then Err(ErrIdempotencyKey)
    else if !KnownChannel(ch) then Err(ErrChannel)
    else if code == "" || code !in cat.packages || !Sellable(cat.packages[code]) then Err(ErrPackageNotFound)
    else if OrderKeyTaken(db, account, key) then
      match Repeat(ExistingOrder(db, account, key), code, cat.packages[code].price)
      case Ok(o) => Ok(Known(o))
      case Err(e) => Err(e)
    else Ok(Fresh(NewOrder(account, key, code, cat.packages[code], ch, now)))
  }

  /**
   * The insert. Both unique indexes must accept the row; a caller that loses the race answers with the winner's row.
   */
  ghost function InsertRecharge(db: Db, no: string, o: PayOrder): Tx<PayOrder> {
    if OrderKeyTaken(db, o.account, o.key) then
      match Repeat(ExistingOrder(db, o.account, o.key), o.packageCode, o.amount)
      case Ok(e) => Commit(db, e)
      case Err(e) => Abort(e)
    else if no in db.orders then Abort(ErrRecordNotFound)
    else Commit(db.(orders := db.orders[no := o]), o)
  }

  /** MockConfirm first puts the order back to paying if it still has the status that was read. */
  function MarkPaying(db: Db, no: string, seen: Status): Db {
    if no in db.orders && db.orders[no].status == seen && seen in {Created, Paying}
    then db.(orders := db.orders[no := db.orders[no].(status := Paying)])
    else db
  }

  /** Closing works on a copy of the order read earlier; the row changes only if it is still open. */
  function CloseIfExpired(db: Db, no: string, seen: PayOrder, now: Time): Db {
    if seen.status in {Created, Paying} && now > seen.expireAt
       && no in db.orders && db.orders[no].status in {Created, Paying}
    then db.(orders := db.orders[no := db.orders[no].(status := Closed)])
    else db
  }

  function MarkFailed(db: Db, channel: string, cb: Callback): Tx<()> {
    if cb.no !in db.orders then Abort(ErrOrderNotFound)
    else
      var o := db.orders[cb.no];
      if o.channel != channel || o.amount != cb.amount then Abort(ErrAmountMismatch)
      else if o.status in {Paid, Failed, Closed} then Commit(db, ())
      else if o.status !in {Created, Paying} then Abort(ErrOrderClosed)
      else Commit(db.(orders := db.orders[cb.no := o.(status := Failed)]), ())
  }

  // ---------- posting ----------

  /** One journal row; a zero amount posts nothing. */
  function Post(j: map<FiatKey, int>, biz: Biz, no: string, account: FiatAccount, dir: Direction,
                amount: int): map<FiatKey, int> {
    if amount == 0 then j else j[FiatKey(account, dir, biz, no) := amount]
  }

  function PostPay(j: map<FiatKey, int>, no: string, o: PayOrder): map<FiatKey, int> {
    var j1 := Post(j, BizRecharge, no, Receivable, Debit, o.net);
    var j2 := Post(j1, BizRecharge, no, Fee, Debit, o.fee);
    Post(j2, BizRecharge, no, Prepay, Credit, o.amount)
  }

  function PostSettle(j: map<FiatKey, int>, no: string, o: PayOrder): map<FiatKey, int> {
    var j1 := Post(j, BizSettle, no, Bank, Debit, o.net);
    Post(j1, BizSettle, no, Receivable, Credit, o.net)
  }

  /** Money already in the bank goes back to the channel before the sale itself is undone. */
  function PostUnsettle(j: map<FiatKey, int>, biz: Biz, no: string, o: PayOrder): map<FiatKey, int> {
    if o.settle == SettleSettled then
      var j1 := Post(j, biz, no, Receivable, Debit, o.net);
      Post(j1, biz, no, Bank, Credit, o.net)
    else j
  }

  function PostReverse(j: map<FiatKey, int>, biz: Biz, no: string, o: PayOrder): map<FiatKey, int> {
    var j1 := Post(PostUnsettle(j, biz, no, o), biz, no, Prepay, Debit, o.amount);
    var j2 := Post(j1, biz, no, Receivable, Credit, o.net);
    Post(j2, biz, no, Fee, Credit, o.fee)
  }

  // ---------- credit, settle, reverse ----------

  /** The row after the update that marks it paid. */
  function MarkedPaid(o: PayOrder, trade: string, now: Time): PayOrder {
    o.(status := Paid, tradeNo := Some(trade), paidAt := Some(now), paidAfterClose := o.status == Closed)
  }

  /** The row after the update that splits its amount. */
  function Charged(o: PayOrder): PayOrder {
    var (fee, net) := SplitFee(o.amount);
    o.(fee := fee, net := net, settle := SettlePending)
  }

  function PaidOrder(o: PayOrder, trade: string, now: Time): PayOrder {
    Charged(MarkedPaid(o, trade, now))
  }

  /** The state after a first successful notice for an open or closed order. */
  function Credited(db: Db, channel: string, cb: Callback, now: Time): Db
    requires cb.no in db.orders
  {
    var o := db.orders[cb.no];
    var paid := PaidOrder(o, cb.tradeNo, now);
    var w := WalletOf(db.wallets, o.account);
    var b := BookOf(db.book);
    db.(orders := db.orders[cb.no := paid],
        wallets := db.wallets[o.account := w.(coins := w.coins + o.coins)],
        ledger := db.ledger
          + [LedgerEntry(o.account, Coin, Credit, o.coins, w.coins + o.coins, BizRecharge, cb.no, o.key)],
        journal := PostPay(db.journal, cb.no, paid),
        book := Some(b.(pending := b.pending + paid.net, fee := b.fee + paid.fee)),
        callbacks := db.callbacks[(channel, cb.tradeNo) := CallbackLog(cb.no, cb.amount)])
  }

  /** The reply says whether this call credited the wallet. */
  function CreditOrder(db: Db, channel: string, cb: Callback, now: Time): Tx<bool> {
    if cb.no !in db.orders then Abort(ErrOrderNotFound)
    else
      var o := db.orders[cb.no];
      if o.channel != channel then Abort(ErrChannel)
      else if o.status == Paid then
        if o.tradeNo == Some(cb.tradeNo) then Commit(db, false) else Abort(ErrTradeConflict)
      else if o.amount != cb.amount then Abort(ErrAmountMismatch)
      else if o.status !in {Created, Paying, Closed} then Abort(ErrOrderClosed)
      else if TradeTaken(db, cb.tradeNo) then Abort(ErrDuplicateKey)
      else Commit(Credited(db, channel, cb, now), true)
  }

  /** A notice with missing fields or outside the time window is refused (gateway.go, parseCallback). */
  predicate WellFormed(cb: Callback, now: Time) {
    && cb.no != "" && cb.tradeNo != "" && cb.amount > 0 && cb.nonce != "" && cb.timestamp != 0
    && now - CALLBACK_SKEW <= cb.timestamp <= now + CALLBACK_SKEW
  }

  function HandleCallback(db: Db, channel: string, cb: Callback, signed: bool, now: Time): Tx<bool> {
    if !KnownChannel(channel) then Abort(ErrChannel)
    else if !signed then Abort(ErrBadSignature)
    else if !WellFormed(cb, now) then Abort(ErrBadBody)
    else if !cb.paid then
      match MarkFailed(db, channel, cb)
      case Commit(d, _) => Commit(d, false)
      case Abort(e) => Abort(e)
    else CreditOrder(db, channel, cb, now)
  }

  predicate Due(o: PayOrder, deadline: Time) {
    o.status == Paid && o.settle == SettlePending && o.paidAt.Some? && o.paidAt.value <= deadline
  }

  /** The orders that a settlement round finds. */
  function DueOrders(orders: map<string, PayOrder>, deadline: Time): set<string> {
    set no | no in orders && Due(orders[no], deadline)
  }

  function SettledOrder(o: PayOrder, now: Time): PayOrder {
    o.(settle := SettleSettled, settleAt := Some(now))
  }

  function Settled(db: Db, no: string, now: Time): Db
    requires no in db.orders
  {
    var o := db.orders[no];
    var b := BookOf(db.book);
    db.(orders := db.orders[no := SettledOrder(o, now)],
        journal := PostSettle(db.journal, no, o),
        book := Some(b.(pending := b.pending - o.net, settled := b.settled + o.net)))
  }

  function SettleOne(db: Db, no: string, now: Time): Tx<()> {
    if no !in db.orders then Abort(ErrRecordNotFound)
    else if db.orders[no].status != Paid || db.orders[no].settle != SettlePending then Commit(db, ())
    else Commit(Settled(db, no, now), ())
  }

  /** How many of the order's coins the wallet can still give back. */
  function Claw(o: PayOrder, w: Wallet): int {
    if w.coins < o.coins then w.coins else o.coins
  }

  function ReverseBiz(chargeback: bool): Biz {
    if chargeback then BizChargeback else BizRefund
  }

  function ReversedOrder(o: PayOrder, chargeback: bool, now: Time): PayOrder {
    o.(status := if chargeback then ChargedBack else Refunded,
       settle := if chargeback then SettleChargeback else SettleRefunded,
       refundedAt := Some(now))
  }

  function ReversedBook(b: PlatformBook, o: PayOrder, claw: int, chargeback: bool): PlatformBook {
    var b1 := if o.settle == SettleSettled then b.(settled := b.settled - o.net) else b.(pending := b.pending - o.net);
    var b2 := b1.(fee := b1.fee - o.fee);
    if chargeback then b2.(chargeback := b2.chargeback + o.amount, shortfall := b2.shortfall + (o.coins - claw))
    else b2.(refund := b2.refund + o.amount)
  }

  function Reversed(db: Db, no: string, chargeback: bool, now: Time): Db
    requires no in db.orders
  {
    var o := db.orders[no];
    var w := WalletOf(db.wallets, o.account);
    var claw := Claw(o, w);
    var biz := ReverseBiz(chargeback);
    db.(orders := db.orders[no := ReversedOrder(o, chargeback, now)],
        wallets := db.wallets[o.account := w.(coins := w.coins - claw)],
        ledger := if claw > 0
          then db.ledger + [LedgerEntry(o.account, Coin, Debit, claw, w.coins - claw, biz, no, o.key)]
          else db.ledger,
        journal := PostReverse(db.journal, biz, no, o),
        book := Some(ReversedBook(BookOf(db.book), o, claw, chargeback)))
  }

  /** A refund needs all the coins back; a chargeback takes what is left and books the rest as a shortfall. */
  function Reverse(db: Db, account: AccountId, no: string, chargeback: bool, now: Time): Tx<PayOrder> {
    if no !in db.orders || db.orders[no].account != account then Abort(ErrOrderNotFound)
    else
      var o := db.orders[no];
      if o.status != Paid || o.settle !in {SettlePending, SettleSettled} then Abort(ErrRefundNotAllowed)
      else if WalletOf(db.wallets, account).coins < o.coins && !chargeback then Abort(ErrInsufficientCoin)
      else Commit(Reversed(db, no, chargeback, now), ReversedOrder(o, chargeback, now))
  }

  // ---------- gifts and withdrawals ----------

  predicate SameGift(g: GiftOrder, sender: AccountId, key: string) {
    g.sender == sender && g.key == key
  }

  predicate GiftKeyTaken(db: Db, sender: AccountId, key: string) {
    exists no :: no in db.gifts && SameGift(db.gifts[no], sender, key)
  }

  function Gifted(db: Db, no: string, g: GiftOrder): Db {
    var s := WalletOf(db.wallets, g.sender);
    var r := WalletOf(db.wallets, g.receiver);
    var debit := LedgerEntry(g.sender, Coin, Debit, g.cost, s.coins - g.cost, BizGiftSend, no, g.key);
    var credit := LedgerEntry(g.receiver, Diamond, Credit, g.diamonds, r.diamonds + g.diamonds, BizGiftReceive, no,
                              g.key);
    var st := StatOf(db.stats, g.video);
    db.(wallets := db.wallets[g.sender := s.(coins := s.coins - g.cost)]
                             [g.receiver := r.(diamonds := r.diamonds + g.diamonds)],
        ledger := if g.diamonds > 0 then db.ledger + [debit] + [credit] else db.ledger + [debit],
        gifts := db.gifts[no := g],
        stats := db.stats[g.video := VideoGiftStat(st.count + g.count, st.coins + g.cost)])
  }

  ghost function ExistingGift(db: Db, sender: AccountId, key: string): (g: GiftOrder)
    requires GiftKeyTaken(db, sender, key)
    ensures SameGift(g, sender, key)
  {
    var no :| no in db.gifts && SameGift(db.gifts[no], sender, key);
    db.gifts[no]
  }

  function NewGift(cat: Catalog, sender: AccountId, key: string, video: VideoId, code: string, count: int): GiftOrder
    requires code in cat.gifts && video in cat.authors
  {
    var cost := cat.gifts[code].price * count;
    GiftOrder(sender, key, cat.authors[video], video, code, count, cost, CreatorShare(cost))
  }

  /** The part of SendGift that runs before its transaction. */
  ghost function CheckGift(db: Db, cat: Catalog, sender: AccountId, key: string, video: VideoId, code: string,
                           count: int)
    : Result<Checked<GiftOrder>>
  {
    var n := if count <= 0 then 1 else count;
    if n > MAX_GIFT_COUNT || video == 0 || code == "" || key == "" then Err(ErrIdempotencyKey)
    else if GiftKeyTaken(db, sender, key) then Ok(Known(ExistingGift(db, sender, key)))
    else if code !in cat.gifts || !cat.gifts[code].active then Err(ErrPackageNotFound)
    else if video !in cat.authors then Err(ErrOrderNotFound)
    else if cat.authors[video] == sender then Err(ErrSelfGift)
    else Ok(Fresh(NewGift(cat, sender, key, video, code, n)))
  }

  /** The transaction of SendGift; the idempotency check before it is a separate, earlier read. */
  function CommitGift(db: Db, no: string, g: GiftOrder): Tx<GiftOrder> {
    if WalletOf(db.wallets, g.sender).coins < g.cost then Abort(ErrInsufficientCoin)
    else if no in db.gifts || GiftKeyTaken(db, g.sender, g.key) then Abort(ErrDuplicateKey)
    else Commit(Gifted(db, no, g), g)
  }

  function NewWithdraw(account: AccountId, diamonds: int, now: Time): WithdrawOrder {
    WithdrawOrder(account, diamonds, diamonds * DIAMOND_FEN_RATE, Reviewing, now, None)
  }

  function Frozen(db: Db, account: AccountId, diamonds: int, no: string, now: Time): Db {
    var w := WalletOf(db.wallets, account);
    db.(wallets := db.wallets[account := w.(diamonds := w.diamonds - diamonds, frozen := w.frozen + diamonds)],
        withdraws := db.withdraws[no := NewWithdraw(account, diamonds, now)])
  }

  function RequestWithdraw(db: Db, account: AccountId, diamonds: int, no: string, now: Time): Tx<WithdrawOrder> {
    if diamonds < MIN_WITHDRAW then Abort(ErrRefundNotAllowed)
    else if WalletOf(db.wallets, account).diamonds < diamonds then Abort(ErrInsufficientCoin)
    else if no in db.withdraws then Abort(ErrDuplicateKey)
    else Commit(Frozen(db, account, diamonds, no, now), NewWithdraw(account, diamonds, now))
  }

  predicate WithdrawDue(o: WithdrawOrder, now: Time) {
    o.status == Reviewing && o.createdAt <= now - WITHDRAW_REVIEW
  }

  /** The withdrawals that a payout round finds. */
  function DueWithdraws(withdraws: map<string, WithdrawOrder>, now: Time): set<string> {
    set no | no in withdraws && WithdrawDue(withdraws[no], now)
  }

  function PaidWithdraw(db: Db, no: string, now: Time): Db
    requires no in db.withdraws
  {
    var o := db.withdraws[no];
    var w := WalletOf(db.wallets, o.account);
    var b := BookOf(db.book);
    db.(wallets := db.wallets[o.account := w.(frozen := w.frozen - o.diamonds)],
        ledger := db.ledger + [LedgerEntry(o.account, Diamond, Debit, o.diamonds, w.diamonds, BizWithdraw, no, no)],
        book := Some(b.(payout := b.payout + o.amount)),
        withdraws := db.withdraws[no := o.(status := PaidOut, paidAt := Some(now))])
  }

  function PayWithdraw(db: Db, no: string, now: Time): Tx<()> {
    if no !in db.withdraws then Abort(ErrRecordNotFound)
    else
      var o := db.withdraws[no];
      if o.status != Reviewing then Commit(db, ())
      else if WalletOf(db.wallets, o.account).frozen < o.diamonds then
        Commit(db.(wallets := db.wallets[o.account := WalletOf(db.wallets, o.account)],
                   withdraws := db.withdraws[no := o.(status := Rejected)]), ())
      else Commit(PaidWithdraw(db, no, now), ())
  }
}
