/** How the order rows, the wallets, the ledger, the journal and the book must agree in every state. */
module PayInvariant {
  import opened Sums
  import opened PayTypes
  import opened PayModel

  // ---------- totals over each table ----------

  datatype OrderMeasure =
    | PendingNet
    | SettledNet
    | PaidFee
    | RefundedAmount
    | ChargedBackAmount
    | PaidCoins
    | PaidAmount

  function OrderValue(m: OrderMeasure, o: PayOrder): int {
    match m
    case PendingNet => if o.settle == SettlePending then o.net else 0
    case SettledNet => if o.settle == SettleSettled then o.net else 0
    case PaidFee => if o.status == Paid then o.fee else 0
    case RefundedAmount => if o.status == Refunded then o.amount else 0
    case ChargedBackAmount => if o.status == ChargedBack then o.amount else 0
    case PaidCoins => if o.status == Paid then o.coins else 0
    case PaidAmount => if o.status == Paid then o.amount else 0
  }

  function OrderRow(m: OrderMeasure): (string, PayOrder) -> int { (no, o) => OrderValue(m, o) }

  ghost function OrderTotal(orders: map<string, PayOrder>, m: OrderMeasure): int {
    SumMap(orders, OrderRow(m))
  }

  datatype WalletMeasure = CoinsHeld | DiamondsHeld

  function WalletValue(m: WalletMeasure, w: Wallet): int {
    match m
    case CoinsHeld => w.coins
    case DiamondsHeld => w.diamonds + w.frozen
  }

  function WalletRow(m: WalletMeasure): (AccountId, Wallet) -> int { (a, w) => WalletValue(m, w) }

  ghost function WalletTotal(wallets: map<AccountId, Wallet>, m: WalletMeasure): int {
    SumMap(wallets, WalletRow(m))
  }

  datatype GiftMeasure = GiftCoins | GiftDiamonds | CountOn(video: VideoId) | CoinsOn(video: VideoId)

  function GiftValue(m: GiftMeasure, g: GiftOrder): int {
    match m
    case GiftCoins => g.cost
    case GiftDiamonds => g.diamonds
    case CountOn(v) => if g.video == v then g.count else 0
    case CoinsOn(v) => if g.video == v then g.cost else 0
  }

  function GiftRow(m: GiftMeasure): (string, GiftOrder) -> int { (no, g) => GiftValue(m, g) }

  ghost function GiftTotal(gifts: map<string, GiftOrder>, m: GiftMeasure): int {
    SumMap(gifts, GiftRow(m))
  }

  datatype WithdrawMeasure = ReviewingOf(account: AccountId) | PaidOutDiamonds

  function WithdrawValue(m: WithdrawMeasure, o: WithdrawOrder): int {
    match m
    case ReviewingOf(a) => if o.account == a && o.status == Reviewing then o.diamonds else 0
    case PaidOutDiamonds => if o.status == PaidOut then o.diamonds else 0
  }

  function WithdrawRow(m: WithdrawMeasure): (string, WithdrawOrder) -> int { (no, o) => WithdrawValue(m, o) }

  ghost function WithdrawTotal(withdraws: map<string, WithdrawOrder>, m: WithdrawMeasure): int {
    SumMap(withdraws, WithdrawRow(m))
  }

  datatype JournalMeasure = NetDebit(account: FiatAccount) | GroupNet(biz: Biz, no: string)

  function SignedFen(k: FiatKey, amount: int): int {
    if k.direction == Debit then amount else -amount
  }

  function JournalValue(m: JournalMeasure, k: FiatKey, amount: int): int {
    match m
    case NetDebit(a) => if k.account == a then SignedFen(k, amount) else 0
    case GroupNet(biz, no) => if k.biz == biz && k.no == no then SignedFen(k, amount) else 0
  }

  function JournalRow(m: JournalMeasure): (FiatKey, int) -> int { (k, amount) => JournalValue(m, k, amount) }

  ghost function JournalTotal(journal: map<FiatKey, int>, m: JournalMeasure): int {
    SumMap(journal, JournalRow(m))
  }

  /** Balances of one account, and the rows and the amount the ledger holds under one unique key. */
  datatype LedgerMeasure =
    | CoinBalance(account: AccountId)
    | DiamondBalance(account: AccountId)
    | RowsAt(key: LedgerKey)
    | AmountAt(key: LedgerKey)

  function Signed(e: LedgerEntry): int {
    if e.direction == Credit then e.amount else -e.amount
  }

  function EntryValue(m: LedgerMeasure, e: LedgerEntry): int {
    match m
    case CoinBalance(a) => if e.account == a && e.currency == Coin then Signed(e) else 0
    case DiamondBalance(a) => if e.account == a && e.currency == Diamond then Signed(e) else 0
    case RowsAt(k) => if KeyOf(e) == k then 1 else 0
    case AmountAt(k) => if KeyOf(e) == k then e.amount else 0
  }

  function EntryRow(m: LedgerMeasure): LedgerEntry -> int { e => EntryValue(m, e) }

  function LedgerTotal(ledger: seq<LedgerEntry>, m: LedgerMeasure): int {
    SumSeq(ledger, EntryRow(m))
  }

  // ---------- one row changes every total by that row's difference ----------

  lemma OrderWrite(orders: map<string, PayOrder>, no: string, o: PayOrder)
    ensures forall m :: OrderTotal(orders[no := o], m)
                        == OrderTotal(orders, m) + OrderValue(m, o)
                           - (if no in orders then OrderValue(m, orders[no]) else 0)
  {
    forall m
      ensures OrderTotal(orders[no := o], m)
              == OrderTotal(orders, m) + OrderValue(m, o) - (if no in orders then OrderValue(m, orders[no]) else 0)
    {
      SumUpdate(orders, no, o, OrderRow(m));
    }
  }

  lemma WalletWrite(wallets: map<AccountId, Wallet>, a: AccountId, w: Wallet)
    ensures forall m :: WalletTotal(wallets[a := w], m)
                        == WalletTotal(wallets, m) + WalletValue(m, w) - WalletValue(m, WalletOf(wallets, a))
  {
    forall m
      ensures WalletTotal(wallets[a := w], m)
              == WalletTotal(wallets, m) + WalletValue(m, w) - WalletValue(m, WalletOf(wallets, a))
    {
      SumUpdate(wallets, a, w, WalletRow(m));
    }
  }

  lemma GiftInsert(gifts: map<string, GiftOrder>, no: string, g: GiftOrder)
    requires no !in gifts
    ensures forall m :: GiftTotal(gifts[no := g], m) == GiftTotal(gifts, m) + GiftValue(m, g)
  {
    forall m
      ensures GiftTotal(gifts[no := g], m) == GiftTotal(gifts, m) + GiftValue(m, g)
    {
      SumUpdate(gifts, no, g, GiftRow(m));
    }
  }

  lemma WithdrawWrite(withdraws: map<string, WithdrawOrder>, no: string, o: WithdrawOrder)
    ensures forall m :: WithdrawTotal(withdraws[no := o], m)
                        == WithdrawTotal(withdraws, m) + WithdrawValue(m, o)
                           - (if no in withdraws then WithdrawValue(m, withdraws[no]) else 0)
  {
    forall m
      ensures WithdrawTotal(withdraws[no := o], m)
              == WithdrawTotal(withdraws, m) + WithdrawValue(m, o)
                 - (if no in withdraws then WithdrawValue(m, withdraws[no]) else 0)
    {
      SumUpdate(withdraws, no, o, WithdrawRow(m));
    }
  }

  lemma JournalPost(j: map<FiatKey, int>, biz: Biz, no: string, account: FiatAccount, dir: Direction, amount: int)
    requires FiatKey(account, dir, biz, no) !in j
    ensures forall m :: JournalTotal(Post(j, biz, no, account, dir, amount), m)
                        == JournalTotal(j, m) + JournalValue(m, FiatKey(account, dir, biz, no), amount)
  {
    var k := FiatKey(account, dir, biz, no);
    forall m
      ensures JournalTotal(Post(j, biz, no, account, dir, amount), m) == JournalTotal(j, m) + JournalValue(m, k, amount)
    {
      SumUpdate(j, k, amount, JournalRow(m));
    }
  }

  lemma LedgerAppend(ledger: seq<LedgerEntry>, e: LedgerEntry)
    ensures forall m :: LedgerTotal(ledger + [e], m) == LedgerTotal(ledger, m) + EntryValue(m, e)
  {
    forall m
      ensures LedgerTotal(ledger + [e], m) == LedgerTotal(ledger, m) + EntryValue(m, e)
    {
      SumAppend(ledger, e, EntryRow(m));
    }
  }

  // ---------- the invariant, one conjunct per pair of views ----------

  predicate WasCredited(o: PayOrder) {
    o.status in {Paid, Refunded, ChargedBack}
  }

  /** The legal life-cycle states of one order row. */
  predicate OrderOk(o: PayOrder) {
    && o.amount > 0 && o.coins >= 0 && KnownChannel(o.channel)
    && o.status != Created
    && (o.status == Paid <==> o.settle in {SettlePending, SettleSettled})
    && (o.status == Refunded <==> o.settle == SettleRefunded)
    && (o.status == ChargedBack <==> o.settle == SettleChargeback)
    && (o.tradeNo.Some? <==> WasCredited(o))
    && (o.paidAt.Some? <==> WasCredited(o))
    && (o.refundedAt.Some? <==> o.status in {Refunded, ChargedBack})
    && (o.settle == SettlePending ==> o.settleAt.None?)
    && (o.settle == SettleSettled ==> o.settleAt.Some?)
    && (o.fee, o.net) == (if WasCredited(o) then SplitFee(o.amount) else (0, 0))
    && (!WasCredited(o) ==> o.settleAt.None? && !o.paidAfterClose)
  }

  ghost predicate OrdersOk(orders: map<string, PayOrder>) {
    && (forall no :: no in orders ==> OrderOk(orders[no]))
    && (forall a, b ::
          a in orders && b in orders && orders[a].tradeNo.Some? && orders[a].tradeNo == orders[b].tradeNo ==> a == b)
    && (forall a, b ::
          a in orders && b in orders && SameRequest(orders[a], orders[b].account, orders[b].key) ==> a == b)
  }

  /** What the order row says the journal must hold under one unique key; 0 means no row. */
  function Leg(o: PayOrder, k: FiatKey): int {
    match k.biz
    case BizRecharge =>
      if !WasCredited(o) then 0
      else if k.account == Receivable && k.direction == Debit then o.net
      else if k.account == Fee && k.direction == Debit then o.fee
      else if k.account == Prepay && k.direction == Credit then o.amount
      else 0
    case BizSettle =>
      if o.settleAt.None? then 0
      else if k.account == Bank && k.direction == Debit then o.net
      else if k.account == Receivable && k.direction == Credit then o.net
      else 0
    case BizRefund => if o.status == Refunded then ReverseLeg(o, k) else 0
    case BizChargeback => if o.status == ChargedBack then ReverseLeg(o, k) else 0
    case _ => 0
  }

  function ReverseLeg(o: PayOrder, k: FiatKey): int {
    if k.account == Prepay && k.direction == Debit then o.amount
    else if k.account == Receivable && k.direction == Credit then o.net
    else if k.account == Fee && k.direction == Credit then o.fee
    else if o.settleAt.Some? && k.account == Receivable && k.direction == Debit then o.net
    else if o.settleAt.Some? && k.account == Bank && k.direction == Credit then o.net
    else 0
  }

  function JournalAt(journal: map<FiatKey, int>, k: FiatKey): int {
    if k in journal then journal[k] else 0
  }

  function OrderLeg(orders: map<string, PayOrder>, k: FiatKey): int {
    if k.no in orders then Leg(orders[k.no], k) else 0
  }

  /** The journal holds exactly the rows the order table calls for, and no zero rows. */
  ghost predicate JournalExact(orders: map<string, PayOrder>, journal: map<FiatKey, int>) {
    && (forall k :: k in journal ==> journal[k] != 0)
    && (forall k :: JournalAt(journal, k) == OrderLeg(orders, k))
  }

  /** The book is the projection of the order rows and of the journal's accounts. */
  ghost predicate BookOk(orders: map<string, PayOrder>, journal: map<FiatKey, int>, b: PlatformBook) {
    && b.pending == OrderTotal(orders, PendingNet) == JournalTotal(journal, NetDebit(Receivable))
    && b.settled == OrderTotal(orders, SettledNet) == JournalTotal(journal, NetDebit(Bank))
    && b.fee == OrderTotal(orders, PaidFee) == JournalTotal(journal, NetDebit(Fee))
    && b.refund == OrderTotal(orders, RefundedAmount)
    && b.chargeback == OrderTotal(orders, ChargedBackAmount)
    && b.pending + b.settled + b.fee == OrderTotal(orders, PaidAmount) == -JournalTotal(journal, NetDebit(Prepay))
  }

  ghost predicate GroupsBalanced(journal: map<FiatKey, int>) {
    forall biz, no :: JournalTotal(journal, GroupNet(biz, no)) == 0
  }

  /** Wallet columns are running sums of the ledger and never negative. */
  ghost predicate WalletsOk(wallets: map<AccountId, Wallet>, ledger: seq<LedgerEntry>) {
    forall a ::
      var w := WalletOf(wallets, a);
      && w.coins == LedgerTotal(ledger, CoinBalance(a)) && w.coins >= 0
      && w.diamonds + w.frozen == LedgerTotal(ledger, DiamondBalance(a)) && w.diamonds >= 0 && w.frozen >= 0
  }

  /** Each coin entry records the account's coin balance right after it. */
  ghost predicate RunningBalances(ledger: seq<LedgerEntry>) {
    forall i :: 0 <= i < |ledger| && ledger[i].currency == Coin ==>
      ledger[i].balanceAfter == LedgerTotal(ledger[..i + 1], CoinBalance(ledger[i].account))
  }

  /** Whether the business row behind a unique key calls for a ledger entry. */
  predicate Posted(orders: map<string, PayOrder>, gifts: map<string, GiftOrder>, withdraws: map<string, WithdrawOrder>,
                   k: LedgerKey)
  {
    match k.biz
    case BizRecharge => k.no in orders && k.direction == Credit && orders[k.no].account == k.account
      && WasCredited(orders[k.no])
    case BizRefund => k.no in orders && k.direction == Debit && orders[k.no].account == k.account
      && orders[k.no].status == Refunded && orders[k.no].coins > 0
    case BizChargeback => k.no in orders && k.direction == Debit && orders[k.no].account == k.account
      && orders[k.no].status == ChargedBack && orders[k.no].coins > 0
    case BizGiftSend => k.no in gifts && k.direction == Debit && gifts[k.no].sender == k.account
    case BizGiftReceive => k.no in gifts && k.direction == Credit && gifts[k.no].receiver == k.account
      && gifts[k.no].diamonds > 0
    case BizWithdraw => k.no in withdraws && k.direction == Debit && withdraws[k.no].account == k.account
      && withdraws[k.no].status == PaidOut
    case BizSettle => false
  }

  /** The amount that entry carries; a chargeback may have found fewer coins. */
  function PostedAmount(orders: map<string, PayOrder>, gifts: map<string, GiftOrder>,
                        withdraws: map<string, WithdrawOrder>, k: LedgerKey): int
    requires Posted(orders, gifts, withdraws, k)
  {
    match k.biz
    case BizGiftSend => gifts[k.no].cost
    case BizGiftReceive => gifts[k.no].diamonds
    case BizWithdraw => withdraws[k.no].diamonds
    case BizRecharge | BizRefund | BizChargeback => orders[k.no].coins
    case BizSettle => 0
  }

  ghost predicate RowsOk(orders: map<string, PayOrder>, gifts: map<string, GiftOrder>,
                         withdraws: map<string, WithdrawOrder>, k: LedgerKey, rows: int, amount: int)
  {
    if !Posted(orders, gifts, withdraws, k) then rows == 0 && amount == 0
    else
      var full := PostedAmount(orders, gifts, withdraws, k);
      (rows == 1 && amount == full) || (k.biz == BizChargeback && 0 <= rows <= 1 && 0 <= amount <= full)
  }

  /** The ledger holds exactly one entry for each business row that calls for one. */
  ghost predicate LedgerExact(orders: map<string, PayOrder>, gifts: map<string, GiftOrder>,
                              withdraws: map<string, WithdrawOrder>, ledger: seq<LedgerEntry>)
  {
    forall k :: RowsOk(orders, gifts, withdraws, k, LedgerTotal(ledger, RowsAt(k)), LedgerTotal(ledger, AmountAt(k)))
  }

  ghost predicate CoinsConserved(wallets: map<AccountId, Wallet>, gifts: map<string, GiftOrder>,
                                 orders: map<string, PayOrder>, b: PlatformBook)
  {
    && WalletTotal(wallets, CoinsHeld) + GiftTotal(gifts, GiftCoins) == OrderTotal(orders, PaidCoins) + b.shortfall
    && b.shortfall >= 0
  }

  ghost predicate WithdrawsOk(withdraws: map<string, WithdrawOrder>) {
    forall no :: no in withdraws ==>
      withdraws[no].diamonds >= MIN_WITHDRAW && withdraws[no].amount == DIAMOND_FEN_RATE * withdraws[no].diamonds
      && withdraws[no].status != Rejected
  }

  ghost predicate DiamondsConserved(wallets: map<AccountId, Wallet>, gifts: map<string, GiftOrder>,
                                    withdraws: map<string, WithdrawOrder>, b: PlatformBook)
  {
    && WithdrawsOk(withdraws)
    && WalletTotal(wallets, DiamondsHeld) + WithdrawTotal(withdraws, PaidOutDiamonds) == GiftTotal(gifts, GiftDiamonds)
    && (forall a :: WalletOf(wallets, a).frozen == WithdrawTotal(withdraws, ReviewingOf(a)))
    && b.payout == DIAMOND_FEN_RATE * WithdrawTotal(withdraws, PaidOutDiamonds)
  }

  predicate GiftOk(g: GiftOrder) {
    g.cost >= 0 && g.diamonds == CreatorShare(g.cost) && 1 <= g.count <= MAX_GIFT_COUNT && g.sender != g.receiver
  }

  ghost predicate GiftsOk(gifts: map<string, GiftOrder>, stats: map<VideoId, VideoGiftStat>) {
    && (forall no :: no in gifts ==> GiftOk(gifts[no]))
    && (forall a, b :: a in gifts && b in gifts && SameGift(gifts[a], gifts[b].sender, gifts[b].key) ==> a == b)
    && (forall v :: StatOf(stats, v) == VideoGiftStat(GiftTotal(gifts, CountOn(v)), GiftTotal(gifts, CoinsOn(v))))
  }

  /** The callback log has exactly one row for each credited order. */
  ghost predicate CallbacksOk(orders: map<string, PayOrder>, callbacks: map<(string, string), CallbackLog>) {
    && (forall c :: c in callbacks ==>
          var no := callbacks[c].no;
          && no in orders && orders[no].channel == c.0 && orders[no].tradeNo == Some(c.1)
          && orders[no].amount == callbacks[c].amount)
    && (forall no :: no in orders && orders[no].tradeNo.Some? ==>
          (orders[no].channel, orders[no].tradeNo.value) in callbacks)
  }

  ghost predicate Inv(db: Db) {
    var b := BookOf(db.book);
    && OrdersOk(db.orders)
    && JournalExact(db.orders, db.journal)
    && GroupsBalanced(db.journal)
    && BookOk(db.orders, db.journal, b)
    && WalletsOk(db.wallets, db.ledger)
    && RunningBalances(db.ledger)
    && LedgerExact(db.orders, db.gifts, db.withdraws, db.ledger)
    && CoinsConserved(db.wallets, db.gifts, db.orders, b)
    && DiamondsConserved(db.wallets, db.gifts, db.withdraws, b)
    && GiftsOk(db.gifts, db.stats)
    && CallbacksOk(db.orders, db.callbacks)
  }

  lemma EmptyOk()
    ensures Inv(EMPTY)
  {
    NoRowsOk(EMPTY);
  }

  lemma NoRowsOk(db: Db)
    requires |db.orders| == |db.wallets| == |db.ledger| == |db.journal| == |db.gifts| == 0
    requires |db.stats| == |db.withdraws| == |db.callbacks| == 0
    requires db.book == None
    ensures Inv(db)
  {
    EmptyMoney(db.orders, db.journal, db.wallets, db.gifts, db.withdraws);
    EmptyLedger(db.ledger);
  }

  lemma EmptyMoney(orders: map<string, PayOrder>, journal: map<FiatKey, int>, wallets: map<AccountId, Wallet>,
                   gifts: map<string, GiftOrder>, withdraws: map<string, WithdrawOrder>)
    requires |orders| == |journal| == |wallets| == |gifts| == |withdraws| == 0
    ensures forall m :: OrderTotal(orders, m) == 0
    ensures forall m :: JournalTotal(journal, m) == 0
    ensures forall m :: WalletTotal(wallets, m) == 0
    ensures forall m :: GiftTotal(gifts, m) == 0
    ensures forall m :: WithdrawTotal(withdraws, m) == 0
  {
  }

  lemma EmptyLedger(ledger: seq<LedgerEntry>)
    requires |ledger| == 0
    ensures forall m :: LedgerTotal(ledger, m) == 0
  {
  }
}
