/** The tables of the payment service: row types, unique keys and the constants of the source. */
module PayTypes {
  datatype Option<+T> = None | Some(value: T)

  type AccountId = nat
  type VideoId = nat
  type Time = int // seconds

  const FEE_BPS := 60
  const CREATOR_SHARE_BPS := 5000
  const DIAMOND_FEN_RATE := 10
  const MIN_WITHDRAW := 10
  const MAX_GIFT_COUNT := 99
  const ORDER_TTL: Time := 900
  const CALLBACK_SKEW: Time := 300
  const WITHDRAW_REVIEW: Time := 15

  datatype Status = Created | Paying | Paid | Closed | Failed | Refunded | ChargedBack
  datatype Settle = SettleNone | SettlePending | SettleSettled | SettleRefunded | SettleChargeback
  datatype Currency = Coin | Diamond
  datatype Direction = Credit | Debit
  datatype Biz =
    | BizRecharge
    | BizRefund
    | BizSettle
    | BizChargeback
    | BizGiftSend
    | BizGiftReceive
    | BizWithdraw
  datatype FiatAccount = Receivable | Fee | Prepay | Bank

  datatype PayOrder = PayOrder(
    account: AccountId,
    key: string,
    packageCode: string,
    coins: int,
    amount: int,
    channel: string,
    status: Status,
    tradeNo: Option<string>,
    paidAfterClose: bool,
    fee: int,
    net: int,
    settle: Settle,
    settleAt: Option<Time>,
    expireAt: Time,
    paidAt: Option<Time>,
    refundedAt: Option<Time>)

  datatype Wallet = Wallet(coins: int, diamonds: int, frozen: int)

  datatype LedgerEntry = LedgerEntry(
    account: AccountId,
    currency: Currency,
    direction: Direction,
    amount: int,
    balanceAfter: int,
    biz: Biz,
    no: string,
    key: string)

  /** The columns of the ledger's unique index uk_ledger_biz. */
  datatype LedgerKey = LedgerKey(account: AccountId, direction: Direction, biz: Biz, no: string)

  /** The columns of the journal's unique index uk_fiat. */
  datatype FiatKey = FiatKey(account: FiatAccount, direction: Direction, biz: Biz, no: string)

  datatype PlatformBook = PlatformBook(
    pending: int,
    settled: int,
    fee: int,
    refund: int,
    chargeback: int,
    shortfall: int,
    payout: int)

  datatype GiftOrder = GiftOrder(
    sender: AccountId,
    key: string,
    receiver: AccountId,
    video: VideoId,
    giftCode: string,
    count: int,
    cost: int,
    diamonds: int)

  datatype VideoGiftStat = VideoGiftStat(count: int, coins: int)

  datatype WithdrawStatus = Reviewing | PaidOut | Rejected
  datatype WithdrawOrder = WithdrawOrder(
    account: AccountId,
    diamonds: int,
    amount: int,
    status: WithdrawStatus,
    createdAt: Time,
    paidAt: Option<Time>)

  datatype CallbackLog = CallbackLog(no: string, amount: int)

  datatype Callback = Callback(
    no: string,
    tradeNo: string,
    amount: int,
    paid: bool,
    timestamp: Time,
    nonce: string)

  datatype CoinPackage = CoinPackage(coins: int, bonus: int, price: int, active: bool)
  datatype Gift = Gift(price: int, active: bool)

  /** What the service reads and never writes: packages, gifts and the authors of videos. */
  datatype Catalog = Catalog(
    packages: map<string, CoinPackage>,
    gifts: map<string, Gift>,
    authors: map<VideoId, AccountId>)

  /** One state of the payment database. Keyed tables are maps from a unique key, the ledger is in id order. */
  datatype Db = Db(
    orders: map<string, PayOrder>,
    wallets: map<AccountId, Wallet>,
    ledger: seq<LedgerEntry>,
    journal: map<FiatKey, int>,
    book: Option<PlatformBook>,
    gifts: map<string, GiftOrder>,
    stats: map<VideoId, VideoGiftStat>,
    withdraws: map<string, WithdrawOrder>,
    callbacks: map<(string, string), CallbackLog>)

  const EMPTY := Db(map[], map[], [], map[], None, map[], map[], map[], map[])
  const EMPTY_WALLET := Wallet(0, 0, 0)
  const EMPTY_BOOK := PlatformBook(0, 0, 0, 0, 0, 0, 0)

  datatype Error =
    | ErrAccountRequired
    | ErrPackageNotFound
    | ErrIdempotencyKey
    | ErrIdempotencyClash
    | ErrChannel
    | ErrOrderNotFound
    | ErrOrderClosed
    | ErrBadSignature
    | ErrBadBody
    | ErrAmountMismatch
    | ErrTradeConflict
    | ErrRefundNotAllowed
    | ErrInsufficientCoin
    | ErrSelfGift
    | ErrDuplicateKey
    | ErrRecordNotFound

  datatype Result<+T> = Ok(value: T) | Err(error: Error)

  /** The outcome of a transaction: a committed state with a reply, or a rollback with an error. */
  datatype Tx<+T> = Commit(db: Db, value: T) | Abort(error: Error)

  function After<T>(before: Db, tx: Tx<T>): Db {
    match tx
    case Commit(db, _) => db
    case Abort(_) => before
  }

  function Reply<T>(tx: Tx<T>): Result<T> {
    match tx
    case Commit(_, v) => Ok(v)
    case Abort(e) => Err(e)
  }

  function WalletOf(wallets: map<AccountId, Wallet>, a: AccountId): Wallet {
    if a in wallets then wallets[a] else EMPTY_WALLET
  }

  function BookOf(book: Option<PlatformBook>): PlatformBook {
    match book
    case Some(b) => b
    case None => EMPTY_BOOK
  }

  function StatOf(stats: map<VideoId, VideoGiftStat>, v: VideoId): VideoGiftStat {
    if v in stats then stats[v] else VideoGiftStat(0, 0)
  }

  function KeyOf(e: LedgerEntry): LedgerKey {
    LedgerKey(e.account, e.direction, e.biz, e.no)
  }

  function KnownChannel(channel: string): bool {
    channel in {"mock", "alipay", "wechat", "card"}
  }
}
