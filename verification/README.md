# Verification model of the video feed backend

This project models, in Dafny, the parts of the backend whose correctness rests on several functions agreeing with each
other, and proves that they do.

**Payment ledger** (`backend/internal/pay`). Orders, wallets, a virtual-currency ledger, a double-entry fiat journal, a
platform book, gifts and withdrawals are redundant views of one state. `PayModel` says what each transaction does to the
tables; `PayService.Store` is the imperative service, with the tables as fields, unique indexes with their real meaning
(a duplicate journal row is swallowed, a duplicate ledger row aborts), rollback on error and a ghost trace of the row
locks taken; each of its methods is proved against `PayModel` and keeps the invariant of `PayInvariant`. `PayRuns` lets
any number of transactions interleave from the empty database: the checks that `CreateRecharge` and `SendGift` make
outside their transactions appear as rows prepared at some earlier moment. `PayOutcomes` and `PayRequests` say in plain
numbers when each transaction commits and what it does to every wallet, row and column. `PayTheorems` and `PayLifecycle`
state what follows for every run: solvency, conservation of coins and diamonds, agreement of the views, exactly-once
credit and gifts, the order life cycle. `Locks` shows that transactions which lock in ascending order cannot deadlock;
every method of `Store` that runs a transaction ensures that the locks it took ascend, and names them when it writes.

**Payment gateway**. `Gateway` puts the merchant and the cashier side by side: notices may be delayed, repeated and
raced by query compensation; requests at the gateway run side by side, and a restart loses its memory. `PaidReports` and
`RefundCalls` state what follows for a paid trade. `CashierService.Cashier` is the imperative cashier with its
notification queue.

**Feed structures**. `InboxFanout` and `SortedSets` model the fan-out of a published video and the Redis sorted sets
that mirror the inbox table; `HotRank` the pre-weighted hot ranking; `LikesPages` and `LedgerPages` keyset paging;
`FeedMerge` the merge of inbox and outbox.

Four results say that the code does less than one might expect, and when:

- The fan-out loop ends at the first batch that is shorter than 500, and a batch also gets short when a follower's account
  no longer exists (`backend/internal/social/repo.go:89-98`, `backend/internal/worker/videoworker.go:161-163`).
  `InboxFanout.FirstEventCoverage` gives the exact condition under which every follower is reached.
- The gateway protects a successful trade by its memory alone and saves the row after releasing the mutex
  (`backend/internal/pay/cashier.go:246-263`). A paid trade can go back to waiting when its page is opened after a restart,
  and also when the row of an earlier visit is saved late. `PaidReports.PaidStaysReported` and `PaidReports.RiskCauses` say
  exactly when; `PaidReports.ReopenedPageForgets` and `PaidReports.LateSaveForgets` are the two runs.
- A refund tells the gateway before it looks at the wallet (`backend/internal/pay/books.go:181-193`): if the coins are spent,
  the trade is refunded, the order stays paid, and the gateway refuses a later chargeback.
  `RefundCalls.CallKeepsAgreement` says exactly when both sides agree afterwards.
- The balance recorded on a diamond entry leaves out the frozen part (`backend/internal/pay/gift.go:183-190,314-319`):
  `PayTheorems.DiamondBalanceAfter`, `PayTheorems.PayoutBalanceAfter` and the run in `PayTheorems.FrozenReceiverRun`.

Conventions: times are whole seconds, sums of money unbounded integers, order numbers and random tokens arguments, a
signature the flag `signed`; a map keyed by a unique index stands for a table, the ledger is a sequence in id order. The
withdrawal status `failed` is called `Rejected`. Rates, limits and windows are those of the source. The catalogue
(packages, gifts and the authors of videos) does not change along a run, and gift prices are not negative; nothing else
is assumed of it.

## Model

| member | source | states |
|---|---|---|
| PayTheorems.SolventIffSafe | backend/internal/pay/service.go:54-58 | every state of every run satisfies payout + 10·diamonds + 5·coins ≤ pending + settled + 5·shortfall if and only if each sellable package brings in 5 fen net per coin |
| PayTheorems.SeededPackagesSafe | backend/internal/pay/service.go:53-73 | the packages the service seeds satisfy that condition |
| PayTheorems.UnsafeSale | backend/internal/pay/service.go:508-529 | any sellable package that breaks the condition makes the two-step run "create, credit" insolvent |
| PayTheorems.BackedIsSolvent | backend/internal/pay/books.go:301-305 | solvency follows from coin and diamond conservation, the book invariant, the fee split and the rounded-down share together |
| PayTheorems.BackedCoins | backend/internal/pay/service.go:446-465 | five fen per coin of the paid orders never exceed the pending and settled net |
| PayTheorems.HalfShare | backend/internal/pay/gift.go:148-149 | over all gifts, twice the diamonds credited never exceed the coins spent |
| PayTheorems.CoinConservation | backend/internal/pay/books.go:238-305 | in every reachable state: coins in wallets + coins of gifts = coins of paid orders + coins chargebacks could not claw back |
| PayTheorems.DiamondConservation | backend/internal/pay/gift.go:249-263 | in every reachable state: diamonds held + paid out = diamonds credited by gifts; each frozen column is the sum of its withdrawals under review; payout is 10 fen per paid-out diamond; no withdrawal is ever rejected |
| PayTheorems.BookMirrorsJournal | backend/internal/pay/books.go:87-115 | in every reachable state each fiat account nets to the matching book column, prepay to pending + settled + fee = amounts of paid orders, and refund/chargeback columns to the amounts of orders in those states |
| PayTheorems.JournalBalancedAndComplete | backend/internal/pay/books.go:55-64 | in every reachable state every (biz type, biz no) group has equal debits and credits, and a row exists exactly where the order table calls for a non-zero amount: no leg is lost |
| PayTheorems.WalletsMirrorLedger | backend/internal/pay/entity.go:37-58 | in every reachable state wallet columns are the sums of the ledger, never negative, and each coin entry records the running balance |
| PayTheorems.DiamondBalanceAfter | backend/internal/pay/gift.go:183-190 | the entry of a gift records the receiver's running diamond balance if and only if nothing of the receiver is frozen |
| PayTheorems.PayoutBalanceAfter | backend/internal/pay/gift.go:314-319 | the entry of a payout records the running diamond balance if and only if nothing of the account is still frozen |
| PayTheorems.FrozenReceiverRun | backend/internal/pay/gift.go:183-190 | a concrete run of five steps after which the last entry says 30 diamonds while the receiver's entries add up to 40 |
| PayTheorems.StatsMirrorGifts | backend/internal/pay/gift.go:198-203 | in every reachable state a video's gift count and coins are the sums over its gift orders |
| PayTheorems.SettleThenReverse | backend/internal/pay/books.go:275-310 | settling a pending order before reversing it succeeds in the same cases and ends with the same book, wallets, ledger and fiat balances; the journals are equal if and only if the net amount is 0 |
| PayLifecycle.OrderStatesLegal | backend/internal/pay/entity.go:72-94 | in every reachable state an order is paid if and only if pending or settled, refunded or charged back if and only if its settlement says so, and otherwise unsettled; fee + net = amount once credited; payment date and trade number are set exactly then |
| PayLifecycle.OrderMoves | backend/internal/pay/service.go:381-433 | a step leaves an order row alone or moves it along one legal edge to a higher rank, never changing its terms or a trade number once set |
| PayLifecycle.AtMostFourChanges | backend/internal/pay/books.go:149-179 | over any run an order row changes at most four times |
| PayLifecycle.ChangesBelowRank | backend/internal/pay/service.go:398-487 | the number of changes stays below the order's rank |
| PayLifecycle.OrdersBegin | backend/internal/pay/service.go:118-130 | orders begin as paying, and only through the insert of a recharge |
| PayLifecycle.PaidAfterCloseIffClosed | backend/internal/pay/service.go:429-433 | along any run an order was ever closed if and only if it is closed now or carries the paid-after-close mark |
| PayLifecycle.CreditOnlyOnce | backend/internal/pay/service.go:412-433 | a notice credits only an uncredited order, and an order becomes credited only so |
| PayLifecycle.CreditedExactlyOnce | backend/internal/pay/service.go:398-487 | over any run the number of "credited" replies, the recharge entries in the ledger, the status and the payment date agree, and are at most one |
| PayLifecycle.RechargeRow | backend/internal/pay/entity.go:47-56 | the ledger holds one recharge entry of the order's coins if the order was credited and none otherwise |
| PayLifecycle.GiftTakenStep | backend/internal/pay/gift.go:195-197 | a (sender, key) pair becomes taken only by a committing gift transaction |
| PayLifecycle.GiftOnce | backend/internal/pay/gift.go:125-207 | for any number of racing requests with one sender and key, exactly one transaction commits as soon as any does |
| PayLifecycle.GiftPostedOnce | backend/internal/pay/gift.go:165-197 | the one gift has one coin debit and, when it gives diamonds, one diamond credit, with its amounts |
| PayRuns.StepKeeps | backend/internal/pay/service.go:334-487 | every step keeps the invariant that ties order rows, wallets, ledger, journal, book, gifts, withdrawals and callback log together |
| PayRuns.RunKeeps | backend/internal/pay/service.go:334-487 | the invariant holds after any interleaving of steps from the empty database |
| PayRuns.ChecksPrepareIntents | backend/internal/pay/gift.go:118-156 | whatever older state the checks of CreateRecharge and SendGift read, the row they prepare has the terms of the catalogue |
| PayRuns.PayWithdrawNeverRejects | backend/internal/pay/gift.go:304-306 | the branch for too few frozen diamonds is never taken |
| PayRuns.RechargeKeeps | backend/internal/pay/service.go:101-142 | inserting an order, or losing the race for its key, keeps the invariant |
| PayRuns.ConfirmKeeps | backend/internal/pay/service.go:280-332 | putting an order back to paying keeps the invariant |
| PayRuns.ExpireKeeps | backend/internal/pay/service.go:546-562 | closing an expired order on the strength of an older copy keeps the invariant |
| PayRuns.NoticeKeeps | backend/internal/pay/service.go:334-366 | any notice, signed or not, keeps the invariant |
| PayRuns.PayWithdrawKeeps | backend/internal/pay/gift.go:291-330 | paying a withdrawal keeps the invariant |
| PayInvariant.EmptyOk | backend/internal/pay/entity.go:37-127 | the invariant holds of the empty database |
| PayPreserve.OpenOrderKeeps | backend/internal/pay/service.go:368-396 | inserting an order or moving it between paying, closed and failed keeps every view |
| PayPreserve.CreditKeeps | backend/internal/pay/service.go:398-487 | a credit keeps every view |
| PayPreserve.SettleKeeps | backend/internal/pay/books.go:149-179 | a settlement keeps every view |
| PayPreserve.ReverseKeeps | backend/internal/pay/books.go:221-326 | a refund or chargeback keeps every view |
| PayPreserve.GiftKeeps | backend/internal/pay/gift.go:157-205 | a gift keeps every view |
| PayPreserve.FreezeKeeps | backend/internal/pay/gift.go:235-266 | a withdrawal request keeps every view |
| PayPreserve.PayoutKeeps | backend/internal/pay/gift.go:291-330 | a payout keeps every view |
| PayPreserve.FrozenCovers | backend/internal/pay/gift.go:300-306 | a withdrawal under review is covered by the frozen column |
| PayPreserve.CreditPostsFresh | backend/internal/pay/books.go:99-107 | no journal row of the recharge group exists before the credit, so the swallowed duplicate error cannot occur |
| PayPreserve.SettlePostsFresh | backend/internal/pay/books.go:165-170 | the same for the settlement group |
| PayPreserve.ReversePostsFresh | backend/internal/pay/books.go:275-291 | the same for the refund or chargeback group |
| PayPreserve.CreditTotals | backend/internal/pay/books.go:87-115 | what the recharge rows add to each account and each group |
| PayPreserve.SettleTotals | backend/internal/pay/books.go:165-170 | what the settlement rows add to each account and each group |
| PayPreserve.ReverseTotals | backend/internal/pay/books.go:275-291 | what the reversal rows add to each account and each group, settled or not |
| PayPreserve.CoinPosting | backend/internal/pay/service.go:442-465 | a coin entry whose balance is the new wallet column keeps wallets equal to the ledger |
| PayPreserve.DiamondPosting | backend/internal/pay/gift.go:314-319 | a diamond entry matching the change of available and frozen together keeps wallets equal to the ledger |
| PayPreserve.LedgerPosting | backend/internal/pay/entity.go:47-56 | one entry for the one business row that newly calls for it keeps the ledger exact |
| PayModel.SplitFee | backend/internal/pay/books.go:29-41 | fee and net add up to the amount; the fee is 60 in ten thousand rounded down, but at least 1; the net is 0 only for amount 1 |
| PayModel.CreatorShare | backend/internal/pay/gift.go:149 | half of the coins, rounded down |
| PayOutcomes.UnsignedIsRefused | backend/internal/pay/service.go:334-342 | a notice without a valid signature is answered with the signature error, on a known channel, and changes nothing |
| PayOutcomes.CreditsIff | backend/internal/pay/service.go:334-436 | a notice is answered "credited" if and only if it is signed, complete, stamped within 300 seconds, successful, on the order's channel with its amount, the order is still open or closed and its trade number is new |
| PayOutcomes.CreditEffect | backend/internal/pay/service.go:429-487 | a credit pays the order's coins to its account alone, marks the row, appends one entry, and books fee and net |
| PayOutcomes.OtherNotices | backend/internal/pay/service.go:368-396 | a notice that does not credit fails an open order if it is a valid failure notice of its channel and amount, and changes nothing otherwise |
| PayOutcomes.BadNotices | backend/internal/pay/gateway.go:47-60 | a signed notice is refused as malformed exactly when a field is missing or its time is off by more than 300 seconds, and as unknown exactly when no order has its number |
| PayOutcomes.SuccessErrors | backend/internal/pay/service.go:398-427 | which error, or "already done", a success notice gets, case by case |
| PayOutcomes.FailureErrors | backend/internal/pay/service.go:368-396 | which error, or "nothing credited", a failure notice gets, case by case |
| PayOutcomes.CreditedBySignedNotice | backend/internal/pay/service.go:334-487 | along any run each credited order was credited by a signed, timely success notice on its channel with its amount, and still carries that notice's trade number and time |
| PayOutcomes.PaidMarksStay | backend/internal/pay/service.go:398-433 | no step changes the terms, trade number, payment date, fee or net of a credited order |
| PayOutcomes.ChargedSixtyPoints | backend/internal/pay/books.go:29-41 | along any run each credited order carries 60 in ten thousand of its amount as fee, rounded down, or 1 fen |
| PayOutcomes.DueSinceCredit | backend/internal/pay/books.go:132-147 | a settlement round with a deadline finds exactly the pending orders whose crediting notice had arrived by then |
| PayOutcomes.SettlementEffect | backend/internal/pay/books.go:149-179 | one settlement marks a pending order and moves its net from pending to settled; any other order is left alone |
| PayOutcomes.ReversesIff | backend/internal/pay/books.go:221-246 | exactly when a refund or chargeback commits, and the error otherwise |
| PayOutcomes.ReversalTakes | backend/internal/pay/books.go:238-305 | a reversal leaves max(coins - sold, 0) in the wallet, its one entry carries exactly what left, and a chargeback's shortfall rises by the rest |
| PayOutcomes.ReversalBooks | backend/internal/pay/books.go:275-324 | what else a reversal writes: the order's marks and each column of the book |
| PayRequests.RechargeRefused | backend/internal/pay/service.go:81-117 | why a recharge request is refused: account, key of 1 to 64 characters, channel, package, in this order |
| PayRequests.FreshRecharge | backend/internal/pay/service.go:118-128 | a new key gets an order of coins plus bonus at the package's price, payable for 900 seconds, with no marks |
| PayRequests.RepeatedRecharge | backend/internal/pay/service.go:101-117 | a known key gets its own order back if package and price agree, and the clash error otherwise |
| PayRequests.InsertOutcome | backend/internal/pay/service.go:130-142 | the insert adds exactly the new row, or changes nothing and answers as a repeat would |
| PayRequests.ConfirmOutcome | backend/internal/pay/service.go:280-302 | the conditional update puts an order back to paying exactly if it has the open status that was read |
| PayRequests.ExpiryOutcome | backend/internal/pay/service.go:546-562 | an order closes exactly if it is open, was read as open, and its time had passed |
| PayRequests.GiftRefused | backend/internal/pay/gift.go:118-149 | why a gift request is refused, and when it is a repeat |
| PayRequests.FreshGift | backend/internal/pay/gift.go:131-156 | a fresh gift costs price times count, at least one, goes to the video's author and gives half the coins as diamonds |
| PayRequests.KnownGift | backend/internal/pay/gift.go:125-130 | a repeated request gets its own gift back |
| PayRequests.GiftIff | backend/internal/pay/gift.go:157-205 | a gift commits exactly if the sender's coins cover it and its number and key are free; otherwise nothing changes |
| PayRequests.GiftEffect | backend/internal/pay/gift.go:165-203 | account by account and video by video, what a gift moves; its entries carry the new balances |
| PayRequests.WithdrawIff | backend/internal/pay/gift.go:235-266 | a withdrawal request commits exactly from ten available diamonds on; the error otherwise |
| PayRequests.WithdrawEffect | backend/internal/pay/gift.go:235-266 | a request freezes exactly its diamonds and records ten fen for each |
| PayRequests.DueAfterFifteenSeconds | backend/internal/pay/gift.go:274-289 | a withdrawal comes due fifteen seconds after its request |
| PayRequests.DueForPayout | backend/internal/pay/gift.go:274-289 | a payout round finds exactly the withdrawals under review that were requested at least fifteen seconds ago |
| PayRequests.PayoutOutcome | backend/internal/pay/gift.go:291-330 | a payout takes exactly the frozen diamonds, books ten fen for each and changes nothing else of the wallets |
| PayRequests.TenFenPerDiamond | backend/internal/pay/gift.go:291-330 | along any run the book's payout is ten fen for each diamond of the withdrawals paid out |
| PayService.Store.constructor | backend/internal/pay/entity.go:37-127 | a fresh store is the empty database |
| PayService.Store.LockWallet | backend/internal/pay/service.go:489-506 | creates the wallet row if missing and returns it; takes its row lock |
| PayService.Store.LockPair | backend/internal/pay/gift.go:216-233 | locks the two wallets in ascending account id and returns them in argument order |
| PayService.Store.LockBook | backend/internal/pay/books.go:66-81 | creates the single book row if missing and returns it; takes its row lock |
| PayService.Store.PostFiat | backend/internal/pay/books.go:55-64 | posts one journal row, nothing for amount 0, and leaves an existing row alone |
| PayService.Store.AppendLedger | backend/internal/pay/entity.go:47-56 | appends an entry unless its unique key is taken |
| PayService.Store.Rollback | backend/internal/pay/service.go:398-410 | a failed transaction leaves every table as it was |
| PayService.Store.CheckRecharge | backend/internal/pay/service.go:81-128 | the checks before the insert, in order, with their errors and the idempotent answer |
| PayService.Store.FindOrder | backend/internal/pay/service.go:101-108 | the row of an (account, key) pair |
| PayService.Store.InsertRecharge | backend/internal/pay/service.go:130-142 | the insert under two unique indexes; a loser of the race gets the winner's row or a clash error |
| PayService.Store.MarkPaying | backend/internal/pay/service.go:280-302 | MockConfirm's conditional update |
| PayService.Store.CloseIfExpired | backend/internal/pay/service.go:546-562 | the conditional close; reports expiry with a copy marked closed, whether or not the row changed |
| PayService.Store.HandleCallback | backend/internal/pay/service.go:334-366 | channel, signature and body checks, then failure or credit; a rolled-back call changes nothing; locks ascend |
| PayService.Store.MarkFailed | backend/internal/pay/service.go:368-396 | equals its specification, all error cases included |
| PayService.Store.Credit | backend/internal/pay/service.go:398-487 | equals its specification: credits once, ignores repeats, reports conflicts and mismatches |
| PayService.Store.ApplyCredit | backend/internal/pay/service.go:429-487 | order row, wallet, ledger, journal, book and callback log all written as specified; order, wallet, book locked in that order |
| PayService.Store.CreditWallet | backend/internal/pay/service.go:442-465 | adds the coins and records the entry; the duplicate-key abort cannot happen |
| PayService.Store.PostPayFiat | backend/internal/pay/books.go:87-115 | three journal rows and the book columns of a recharge, with the order's fee and net |
| PayService.Store.SettleOne | backend/internal/pay/books.go:149-179 | equals its specification; does nothing unless paid and pending |
| PayService.Store.SettleDue | backend/internal/pay/books.go:132-147 | with nothing else running, settles exactly the orders found due, counts them and touches nothing else but journal and book; each transaction's locks ascend |
| PayLifecycle.RoundSettles | backend/internal/pay/books.go:132-147 | with any other transactions in between, every order a round found ends up settled unless it was reversed |
| PayLifecycle.RankGrows | backend/internal/pay/books.go:149-179 | along a run an order is never lost, never falls in rank and keeps its trade number |
| PayService.Store.Reverse | backend/internal/pay/books.go:221-326 | equals its specification: a refund needs all coins back, a chargeback takes what is left |
| PayService.Store.ApplyReverse | backend/internal/pay/books.go:247-324 | wallet, ledger, journal, book and order row written as specified |
| PayService.Store.ClawBack | backend/internal/pay/books.go:247-274 | takes min(coins left, coins sold) and posts an entry only if that is positive |
| PayService.Store.ReverseBook | backend/internal/pay/books.go:292-316 | moves the net out of the right book column and books refund, or chargeback and shortfall |
| PayService.Store.PostReverseFiat | backend/internal/pay/books.go:275-291 | posts the reversal rows, preceded by the un-settlement rows when settled |
| PayService.Store.CheckGift | backend/internal/pay/gift.go:119-149 | the checks before the gift transaction, in order, with their errors and the idempotent answer |
| PayService.Store.FindGift | backend/internal/pay/gift.go:125-130 | the row of a (sender, key) pair |
| PayService.Store.CommitGift | backend/internal/pay/gift.go:157-208 | equals its specification; a loser of the race rolls back completely |
| PayService.Store.GiftBody | backend/internal/pay/gift.go:157-205 | the body of the transaction, up to commit or error; both wallets locked in ascending order |
| PayService.Store.MoveGift | backend/internal/pay/gift.go:165-190 | debits the sender and credits the receiver, with their ledger entries |
| PayService.Store.InsertGift | backend/internal/pay/gift.go:191-197 | the insert succeeds if and only if number and (sender, key) are both free |
| PayService.Store.CountGift | backend/internal/pay/gift.go:198-203 | adds count and coins to the video's statistics row |
| PayService.Store.RequestWithdraw | backend/internal/pay/gift.go:235-266 | equals its specification: minimum, balance check, freeze and new row |
| PayService.Store.PayWithdraw | backend/internal/pay/gift.go:291-330 | equals its specification |
| PayService.Store.ApplyPayout | backend/internal/pay/gift.go:307-328 | unfreezes, records the entry, books the payout and marks the row paid |
| PayService.Store.PayOut | backend/internal/pay/gift.go:308-319 | takes the frozen diamonds out and records the entry; the duplicate-key abort cannot happen |
| PayService.Store.PayDueWithdraws | backend/internal/pay/gift.go:274-289 | with nothing else running, pays exactly the withdrawals found due, counts them and changes no coin, available diamond, order, gift or journal row |
| PayLifecycle.RoundPays | backend/internal/pay/gift.go:274-289 | with any other transactions in between, every withdrawal a round found ends up paid |
| PayLifecycle.WithdrawMoves | backend/internal/pay/gift.go:291-330 | a step leaves a withdrawal as it is or pays it, and only its own payout does |
| PayLifecycle.WithdrawStays | backend/internal/pay/gift.go:291-330 | along a run a withdrawal keeps its terms, and once paid does not change |
| PayService.SettleEffect | backend/internal/pay/books.go:149-179 | the effect of one settlement round on one order and on the rest |
| PayService.PayoutEffect | backend/internal/pay/gift.go:291-330 | the effect of one payout on one withdrawal and on the rest |
| Locks.NoDeadlock | backend/internal/pay/gift.go:216-233 | with exclusive row locks taken in ascending order, some unfinished transaction can always move |
| Locks.EveryScheduleEnds | backend/internal/pay/books.go:221-292 | every schedule of such transactions can be continued until all have ended, in exactly one move per lock and per commit |
| Locks.TracesFinish | backend/internal/pay/gift.go:216-233 | any number of transactions with ascending lock traces, such as those of the store's methods, run to the end however they are scheduled |
| Locks.MoveKeeps | backend/internal/pay/service.go:489-506 | a move keeps locks exclusive and plans ascending |
| Locks.HolderWaitsLater | backend/internal/pay/gift.go:291-323 | whoever holds the lock waited for can move or waits for a later lock |
| Locks.ChainEnds | backend/internal/pay/books.go:149-171 | following the wait-for chain ends at a transaction that can move |
| Gateway.NetRunKeeps | backend/internal/pay/cashier.go:110-124 | in every run of merchant and gateway, each trade matches its order in amount and channel and carries "T" or "F" + order number according to its status |
| Gateway.NetStepKeeps | backend/internal/pay/cashier.go:246-318 | each step of either side keeps that agreement |
| Gateway.TradeComesFromNotice | backend/internal/pay/service.go:429-433 | a new trade number on an order is the one the crediting notice carried |
| Gateway.SuccessCarries | backend/internal/pay/service.go:185-238 | a success notice has the order's channel and amount and the number "T" + order number, whether delivered or built from a query |
| Gateway.OwnNumber | backend/internal/pay/entity.go:83 | no other order can hold that number |
| Gateway.SuccessNotice | backend/internal/pay/service.go:398-433 | exactly what a success notice does: pays an open or closed order, is ignored after its own payment, conflicts exactly after MockConfirm paid first, is refused otherwise |
| Gateway.QueryBuilds | backend/internal/pay/service.go:185-238 | a query builds a notice exactly for an open copy whose trade is paid or closed with its amount and channel; the notice says which |
| Gateway.QueryOfPaidTradePays | backend/internal/pay/service.go:185-238 | with every notification lost, the first query of a paid trade credits the order under "T" + number |
| Gateway.DeliveredSuccessPays | backend/internal/pay/service.go:398-487 | a success notice delivered within 300 seconds credits an order that is paying or closed |
| Gateway.MockConfirmPays | backend/internal/pay/service.go:280-332 | the notice that MockConfirm sends itself credits an order of the mock channel that is paying or closed |
| Gateway.DeliveredFailureFails | backend/internal/pay/service.go:368-396 | a failure notice delivered within 300 seconds fails a paying order and changes no other |
| Gateway.CalmOther | backend/internal/pay/service.go:368-396 | steps that are neither notices for the order nor its reversal leave it open, or paid as it was |
| Gateway.HarmlessStep | backend/internal/pay/service.go:368-420 | a notice or reversal of the order that neither pays nor upsets it (late, on another channel, a failure once closed or paid, anything once paid, a refused reversal) changes nothing |
| Gateway.ConfluenceStep | backend/internal/pay/cashier.go:354-423 | one more step that does not upset the order keeps it on course |
| Gateway.Confluence | backend/internal/pay/cashier.go:354-423 | any mix of notices, retries and query compensations for one successful trade is never refused, credits exactly once and leaves the order paid with its own terms; every other step is allowed except a completed reversal, a valid failure notice while the order is paying, and MockConfirm paying it first |
| Gateway.ConfluentCredit | backend/internal/pay/service.go:185-238 | whichever and however many success notices came, the order is the one the first alone would have made, apart from when it was paid and how far it is settled; the ledger holds one recharge entry of its coins, or none before the first |
| Gateway.ReleasedHoldIsNotReported | backend/internal/pay/service.go:564-578 | the compensation built from a closed trade is refused if and only if the trade has no number; the order then keeps its status |
| Gateway.StaleCopyIsRefused | backend/internal/pay/service.go:168-183 | how that notice comes about: a query with a copy read before the order expired and its trade was closed; only the reply differs, the order is closed already |
| Gateway.MutateIsRun | backend/internal/pay/cashier.go:297-318 | the lookup, the memory write and the save of a close, refund or chargeback, one after the other, amount to one change |
| Gateway.GateStepKeeps | backend/internal/pay/cashier.go:246-318 | every trade in memory, in a row, looked up or waiting to be saved is one of its order |
| PaidReports.PaidStaysReported | backend/internal/pay/cashier.go:246-283 | from the saved payment on, a query reports the trade as paid throughout a run of requests side by side if and only if no row of it that does not say paid is saved; without a database, if and only if there is no restart, refund or chargeback |
| PaidReports.RiskCauses | backend/internal/pay/cashier.go:246-318 | while so reported, the next save can end the report if and only if, since the last restart, the trade was refunded or charged back, or its page was visited, a submission failed or its hold was released while the memory did not hold the payment; or if such a row was waiting when the payment was saved |
| PaidReports.RiskIsReal | backend/internal/pay/cashier.go:255-262 | whenever such a row waits, its save is a legal step that ends the report |
| PaidReports.HeldRun | backend/internal/pay/cashier.go:246-254 | from the payment on the memory holds it exactly until a restart, refund or chargeback, and again from the next payment |
| PaidReports.RiskStep | backend/internal/pay/cashier.go:246-318 | how one step adds to or takes from the rows waiting to be saved |
| PaidReports.StandsStep | backend/internal/pay/cashier.go:246-283 | one step ends the report exactly if it saves such a row, or, without a database, drops the payment from memory |
| PaidReports.PaidIsKept | backend/internal/pay/cashier.go:110-124 | a successful submission with its save makes the trade reported as paid, whatever was known or pending before |
| PaidReports.ReopenedPageForgets | backend/internal/pay/cashier.go:78-93 | pay, restart, open the page again: a legal run after which the trade is no longer reported as paid |
| PaidReports.LateSaveForgets | backend/internal/pay/cashier.go:253-262 | a page visit whose row is saved only after the payment was: a legal run without restart or later visit, after which the trade is reported as waiting and may not be refunded though the memory holds the payment |
| RefundCalls.CallKeepsAgreement | backend/internal/pay/books.go:181-219 | from a paid order with a paid trade, order and trade match after a refund or chargeback call if and only if the gateway was reached exactly when the merchant can reverse the order |
| RefundCalls.SpentRefundParts | backend/internal/pay/books.go:181-193 | a refund of coins already spent leaves the order paid and the trade refunded, and every later refund or chargeback that reaches the gateway is refused and changes nothing |
| RefundCalls.CallIsRun | backend/internal/pay/books.go:181-219 | the call as a legal run of the two sides |
| RefundCalls.ReverseCommits | backend/internal/pay/books.go:225-246 | a paid order can be reversed if and only if the account is its own and, for a refund, all its coins are left |
| CashierService.Cashier.constructor | backend/internal/pay/cashier.go:51-66 | a new gateway knows no trade |
| CashierService.Cashier.StoreTrade | backend/internal/pay/cashier.go:246-254 | the part under the mutex: writes the memory and leaves the row to save, unless a success is protected |
| CashierService.Cashier.SaveTrade | backend/internal/pay/cashier.go:255-262 | the part after it: saves the row whatever happened between, with its notification reset |
| CashierService.Cashier.Remember | backend/internal/pay/cashier.go:246-263 | both parts in a row: a success in memory is kept unless another success, refund or chargeback follows |
| CashierService.Cashier.TradeOf | backend/internal/pay/cashier.go:272-283 | the database row if there is one, else the trade in memory |
| CashierService.Cashier.Submit | backend/internal/pay/cashier.go:110-124 | records success as "T" + number and anything else as closed with "F" + number |
| CashierService.Cashier.MutateTrade | backend/internal/pay/cashier.go:297-318 | close, refund or charge back, with the guards and replies of each |
| CashierService.Cashier.EnqueueNotify | backend/internal/pay/cashier.go:340-352 | resets the row's notification to pending with the first retry time, and changes nothing else |
| CashierService.Cashier.Notify | backend/internal/pay/cashier.go:380-423 | sends one and the same notice at most three times, stopping at the first acceptance |
| CashierService.Cashier.RetryNotifies | backend/internal/pay/cashier.go:354-378 | each due row is tried exactly once with a notice of its own amount and outcome, nothing else is sent, none is due that was tried twenty times since it was last saved; trades do not change |
| CashierService.Cashier.RetryOne | backend/internal/pay/cashier.go:364-377 | one row's retry: its notice, the count and the next due time or the sent mark |
| CashierService.PendingUntilDelivered | backend/internal/pay/cashier.go:354-378 | until it is saved or queued again, a queued notification is pending exactly until the merchant accepts it; each round that finds it due is one try, at most twenty |
| CashierService.SpacedRoundsAllTry | backend/internal/pay/cashier.go:354-378 | with rounds at least five seconds apart it is delivered, or tried until twenty are used up and never due again |
| CashierService.RoundSendsDue | backend/internal/pay/cashier.go:354-378 | a round sends notices for exactly the rows whose notice waits, was tried less than twenty times and is due, each with the queued outcome, number and amount |
| CashierService.QueuedComesDue | backend/internal/pay/cashier.go:340-352 | a queued notice comes due after two seconds |
| CashierService.TriedComesDue | backend/internal/pay/cashier.go:364-377 | a failed try comes due again after five seconds until twenty are used up; an accepted notice never does |
| CashierService.QueuedNoticeEnds | backend/internal/pay/cashier.go:340-378 | a queued notice, polled every five seconds or less often, is accepted within twenty tries or given up after exactly twenty |
| LedgerPages.PageSize | backend/internal/pay/service.go:253-262 | a limit from 1 to 50 is honoured, 20 is the default and 50 the most |
| LedgerPages.PageExact | backend/internal/pay/service.go:252-277 | a page holds min(size, entries left) of the account's entries below the cursor, the newest of them, newest first; there is more exactly if some are left |
| LedgerPages.WalkAlongRun | backend/internal/pay/service.go:252-277 | following the cursor while any other transactions run returns every entry the account had when the first page was read, once each, newest first |
| LedgerPages.WalkIsExact | backend/internal/pay/service.go:252-277 | the same over any growing table; the ids are exactly the account's, strictly descending |
| LedgerPages.WalkFrom | backend/internal/pay/service.go:263-276 | the same from any cursor |
| LedgerPages.FullPage | backend/internal/pay/service.go:268-276 | a page with more behind it is the first part of the list and its cursor leads to the rest, also after appends |
| LedgerPages.IdsBelow | backend/internal/pay/service.go:263-266 | the entries below the k-th are the rest of the list |
| LedgerPages.IdsExact | backend/internal/pay/service.go:263-268 | the list read is strictly descending and holds the account's entries, all of them and nothing else |
| LedgerPages.LedgerAppendOnly | backend/internal/pay/service.go:252-277 | no payment transaction changes or removes a ledger entry |
| LedgerPages.LedgerGrows | backend/internal/pay/service.go:252-277 | along a run the ledger only grows |
| FeedMerge.MergeByCreateTime | backend/internal/feed/lister.go:138-156 | returns the first limit elements of the merge; length min(limit, total) |
| FeedMerge.PageIsNewest | backend/internal/feed/lister.go:138-156 | on descending inputs the page is descending, holds a prefix of each list and each of those videos once, ties go to the second list, and nothing left out is newer than anything on it |
| FeedMerge.MergeDescends | backend/internal/feed/lister.go:138-156 | the merge of descending lists is descending |
| FeedMerge.PrefixesMerged | backend/internal/feed/lister.go:138-156 | the first n merged elements merge a prefix of each list and the others the rests; on descending lists ties go to the second |
| FeedMerge.MergeConserves | backend/internal/feed/lister.go:138-156 | the merge holds every video of both lists, as often as they do |
| FeedMerge.MergeContains | backend/internal/feed/lister.go:138-156 | the merge holds the videos of both lists and no others |
| FeedMerge.TiesFromSecond | backend/internal/feed/lister.go:148-151 | however many videos are taken, those taken from the first list are strictly newer than all left of the second, and those taken from the second as new as or newer than all left of the first |
| LikesPages.Bucket.constructor | backend/internal/feed/lister.go:211-221 | a new bucket has no cursor |
| LikesPages.Bucket.FetchVideoList | backend/internal/feed/lister.go:223-239 | returns min(limit, videos left below the cursor) videos, the most liked of them, in order; the cursor moves to the last of them, or stays if there is none |
| LikesPages.QueryIsPage | backend/internal/feed/repo.go:33-50 | a page is the first limit of the rows below the cursor, or all of them, most likes first and on a tie the greater id |
| LikesPages.WalkIsExact | backend/internal/feed/repo.go:33-50 | over a fixed table the pages joined together are the whole table in strictly descending (likes, id) order, nothing repeated or missed; the walk ends |
| LikesPages.WalkFrom | backend/internal/feed/repo.go:33-50 | the same from any cursor |
| LikesPages.PageSplits | backend/internal/feed/repo.go:37-48 | a page is the first part of what is still to come, and its cursor leads to the other part |
| LikesPages.SortFilter | backend/internal/feed/repo.go:37-43 | filtering by the cursor before or after sorting is the same |
| LikesPages.SortedDescends | backend/internal/feed/repo.go:35-36 | the ORDER BY puts a table in strictly descending order |
| HotRank.HotBoard.constructor | backend/internal/video/popularity_cache.go:40-55 | an empty board |
| HotRank.HotBoard.UpdatePopularityCache | backend/internal/video/popularity_cache.go:40-55 | adds the weighted change to the stored score, which stays the sum over the history; video 0 and empty changes are ignored |
| HotRank.RankingAgrees | backend/internal/video/popularity_cache.go:30-55 | for any history and read time, ordering by stored score is ordering by truly decayed score, ties included |
| HotRank.BoardRanksTruly | backend/internal/video/popularity_cache.go:30-55 | the same for what the board actually holds |
| HotRank.CountsInFull | backend/internal/video/popularity_cache.go:30-39 | a change counts in full at the time it is made |
| HotRank.DecaysWithAge | backend/internal/video/popularity_cache.go:30-39 | each s seconds shrink a change by exp(-rate * s) |
| HotRank.WeightGrows | backend/internal/video/popularity_cache.go:23-39 | the stored weight of a change made s seconds after the start of 2025 is the change times exp(rate * s) |
| HotRank.ScoreFactor | backend/internal/video/popularity_cache.go:30-39 | the decayed score is the stored score times a factor of the read time only |
| HotRank.DecayFactor | backend/internal/video/popularity_cache.go:30-39 | the same for one change |
| SortedSets.Decimal | backend/internal/worker/videoworker.go:154 | the decimal form of an id can be read back, so no two ids share a key or a member |
| SortedSets.TrimKeepsGreatest | backend/internal/middleware/redis/zset.go:104-105 | removing ranks 0 to -(k+1) keeps exactly the k greatest members by (score, member) |
| SortedSets.TopIsGreatest | backend/internal/middleware/redis/zset.go:104-105 | those are min(k, size) members and each outranks every member left out |
| SortedSets.TopAfterAdd | backend/internal/middleware/redis/zset.go:103-106 | adding to a trimmed set and trimming again gives the k greatest of the untrimmed whole |
| SortedSets.RankSplits | backend/internal/middleware/redis/zset.go:105 | the members below, the member itself and the members above are the whole set |
| SortedSets.LexFirstDifference | backend/internal/middleware/redis/zset.go:104-105 | members with equal scores are ordered by the first character in which they differ, a prefix before the longer one |
| InboxFanout.Worker.constructor | backend/internal/worker/videoworker.go:31-36 | a threshold that is not positive becomes 1000 |
| InboxFanout.Worker.GetFollowersBatch | backend/internal/social/repo.go:67-99 | one page of relations after the cursor, cut down to existing accounts, and the last relation's id |
| InboxFanout.Worker.BatchInsertFollowFeedInbox | backend/internal/video/video_repo.go:150-181 | inserts the whole batch, or nothing if one (user, post) pair is taken in the table or twice in the batch; user 0 is skipped; missing ids are refused |
| InboxFanout.Worker.ZAddBatchInbox | backend/internal/middleware/redis/zset.go:95-110 | adds the member to every key in turn and trims each |
| InboxFanout.Worker.PublishInbox | backend/internal/worker/videoworker.go:112-170 | the cursor loop ends and equals the fan-out over the author's follower list; big authors are skipped |
| InboxFanout.CursorReaches | backend/internal/social/repo.go:69-76 | the id of the k-th follower as cursor leads to exactly the followers after it |
| InboxFanout.PageOfFollowers | backend/internal/social/repo.go:67-87 | one page of follows is the first min(limit, follows left) of the author's follows after the cursor, in id order |
| InboxFanout.BigAuthorsAreSkipped | backend/internal/worker/videoworker.go:112-128 | an author with at least as many followers as the threshold is skipped, and so is an event without author or post |
| InboxFanout.TakenRowStopsRun | backend/internal/worker/videoworker.go:140-147 | one follower of the first 500 who already has the post stops the fan-out before anything is written |
| InboxFanout.RowsAfter | backend/internal/video/video_repo.go:150-181 | a batch writes the post's row for each of its users but user 0, and for nobody else |
| InboxFanout.KeepsNewest | backend/internal/worker/videoworker.go:149-156 | after any run the sorted set of a user holds min(500, rows) of the user's rows under "follow:inbox:" + id, with their scores, and outranks the rest |
| InboxFanout.RunMirrors | backend/internal/worker/videoworker.go:112-170 | after any sequence of first and repeated events over any follower tables, each sorted set holds exactly the 500 greatest of its user's rows |
| InboxFanout.BatchesMirror | backend/internal/worker/videoworker.go:129-165 | the same over any sequence of batches: fan-outs of several workers taking turns, cut off between batches, with other follows and accounts at every batch |
| InboxFanout.FanoutIsBatches | backend/internal/worker/videoworker.go:129-165 | a fan-out over unchanging tables is such a sequence of batches |
| InboxFanout.DeliverMirrors | backend/internal/middleware/redis/zset.go:95-110 | one batch keeps every sorted set exact |
| InboxFanout.EmptyMirrors | backend/internal/middleware/redis/zset.go:95-110 | the empty tables agree |
| InboxFanout.RunKeepsRow | backend/internal/worker/videoworker.go:140-147 | a row once written keeps its score in every later run |
| InboxFanout.RedeliveryChangesNothing | backend/internal/worker/videoworker.go:140-147 | handling the same event again over the same tables changes nothing, whatever the clock says |
| InboxFanout.FirstRun | backend/internal/worker/videoworker.go:124-165 | a first run writes one row with the event's score for each user reached and touches nobody else |
| InboxFanout.FirstEventReachesEveryFollower | backend/internal/worker/videoworker.go:124-165 | when every follower's account exists, exactly the followers get the row, with the event's score |
| InboxFanout.FirstEventCoverage | backend/internal/worker/videoworker.go:161-163 | a first event gives every existing follower a row if and only if no follower whose account is gone precedes, in an earlier turn of 500, one whose account exists |
| InboxFanout.Coverage | backend/internal/worker/videoworker.go:161-164 | the same for the list of users reached, from any position |
| InboxFanout.MissingAccountStopsRun | backend/internal/worker/videoworker.go:161-163 | 501 followers of whom only the second and the last still exist: the last one has no row after the event |

## Left out

- PayModel.CreatorShare: 64-bit overflow is not modelled, nor is it anywhere else; all integers are unbounded.
- PayService.Store.CheckRecharge: the package is looked up by code only, surrounding blanks of the key are not trimmed, and its length is counted in characters, not bytes.
- PayService.Store.CommitGift: the popularity column of the video and the popularity message are not written.
- PayService.Store.HandleCallback: JSON parsing and the HMAC are the flag `signed` and a decoded body.
- PayService.Store.CloseIfExpired: releasing the gateway's hold afterwards is a separate gateway step (`Mutate`).
- CashierService.Cashier.Submit: card and password checks, and the choice of outcome, are the flag `paid`; the page itself is left out.
- CashierService.Cashier.SaveTrade: a save that fails is one that never comes; its error is ignored as in the source.
- CashierService.PendingUntilDelivered: a row is saved, queued and retried by one request at a time.
- CashierService.Cashier.EnqueueNotify: the notify address and action columns are left out.
- HotRank.HotBoard.UpdatePopularityCache: scores are exact reals over an abstract positive exponential, not floating point.
- InboxFanout.RunMirrors: no Redis call fails, no key expires and no run is cut off inside a batch; when one is cut off, a duplicate in an early batch ends the redelivery, so a full fan-out is not claimed.
- InboxFanout.Worker.BatchInsertFollowFeedInbox: only user, post and score of an inbox row are kept; followers come in relation order.
- InboxFanout.Worker.ZAddBatchInbox: the EXPIRE command is left out; keys do not expire.
- Locks.NoDeadlock: only the explicit row locks count, not the gap and index locks of the storage engine.
- Wallet version and frozen coins (never written to a value of use), and created/updated times.
- Database errors other than duplicate keys and missing rows, and all HTTP handling.
- `publish_outbox`, the latest, popularity and following feeds as a whole: their cursors may skip videos (a page of the following feed advances both cursors past videos the merge dropped, the latest feed's cursor is cut to whole seconds, the inbox cursor is a score without a tie-break), so completeness is not claimed.
- `reorderByIDs` and the wallet, statistics and list queries: single reads.
- "Gateway success implies merchant paid": a failure notice or MockConfirm that comes first prevents it; `Gateway.SuccessNotice` states each outcome instead.
- Direct wallet writes by the seed command, accounts, comments and the orchestration worker.
