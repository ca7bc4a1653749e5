/** The life of one recharge order and of one gift request over whole runs. */
module PayLifecycle {
  import opened PayTypes
  import opened PayModel
  import opened PayInvariant
  import opened PayRuns

  // ---------- the order state machine ----------

  /**
   * Every order ever reached is in a legal pair of status and settlement, and its fee and net split its amount once it
   * is credited.
   */
  lemma OrderStatesLegal(cat: Catalog, steps: seq<Step>, no: string)
    requires CatalogOk(cat) && LegalRun(cat, steps) && no in Run(EMPTY, steps).orders
    ensures var o := Run(EMPTY, steps).orders[no];
            && (o.status == Paid <==> o.settle in {SettlePending, SettleSettled})
            && (o.status == Refunded <==> o.settle == SettleRefunded)
            && (o.status == ChargedBack <==> o.settle == SettleChargeback)
            && (o.status in {Paying, Closed, Failed} <==> o.settle == SettleNone)
            && (if WasCredited(o) then o.fee + o.net == o.amount && o.fee >= 1 && o.net >= 0 else o.fee == o.net == 0)
            && (o.paidAt.Some? <==> WasCredited(o)) && (o.tradeNo.Some? <==> WasCredited(o))
  {
    hide Run, Legal, Inv, CatalogOk;
    RunKeeps(cat, steps);
    OrderRowOk(Run(EMPTY, steps), no);
  }

  /** How far an order has come; failed and reversed orders are final. */
  function Rank(o: PayOrder): nat {
    match o.status
    case Created => 0
    case Paying => 1
    case Closed => 2
    case Paid => if o.settle == SettlePending then 3 else 4
    case Failed => 5
    case Refunded => 5
    case ChargedBack => 5
  }

  /** The columns fixed when the order is created. */
  predicate SameTerms(o: PayOrder, p: PayOrder) {
    && o.account == p.account && o.key == p.key && o.packageCode == p.packageCode
    && o.coins == p.coins && o.amount == p.amount && o.channel == p.channel && o.expireAt == p.expireAt
  }

  /** The edges of the life cycle. The paid-after-close mark is set on the way from closed to paid and nowhere else. */
  predicate Edge(o: PayOrder, p: PayOrder) {
    match (o.status, p.status)
    case (Paying, Closed) => p.paidAfterClose == o.paidAfterClose
    case (Paying, Failed) => p.paidAfterClose == o.paidAfterClose
    case (Paying, Paid) => p.settle == SettlePending && !p.paidAfterClose
    case (Closed, Paid) => p.settle == SettlePending && p.paidAfterClose
    case (Paid, Paid) => o.settle == SettlePending && p.settle == SettleSettled && p.paidAfterClose == o.paidAfterClose
    case (Paid, Refunded) => p.paidAfterClose == o.paidAfterClose
    case (Paid, ChargedBack) => p.paidAfterClose == o.paidAfterClose
    case _ => false
  }

  predicate Moves(o: PayOrder, p: PayOrder) {
    p == o || (SameTerms(o, p) && Edge(o, p) && Rank(o) < Rank(p) && (o.tradeNo.Some? ==> p.tradeNo == o.tradeNo))
  }

  /** A step leaves an order row as it is or moves it along one edge, to a higher rank. */
  lemma OrderMoves(db: Db, step: Step, no: string)
    requires Inv(db) && no in db.orders
    ensures no in Apply(db, step).orders && Moves(db.orders[no], Apply(db, step).orders[no])
  {
    hide Inv, HandleCallback, Reverse, SettleOne, Moves, CommitGift, PayWithdraw;
    OrderRowOk(db, no);
    match step
    case Notice(channel, cb, signed, now) => NoticeMoves(db, channel, cb, signed, now, no);
    case ReverseStep(account, n, chargeback, now) => ReverseMoves(db, account, n, chargeback, now, no);
    case SettleStep(n, now) => SettleMoves(db, n, now, no);
    case _ => OtherMoves(db, step, no);
  }

  lemma NoticeMoves(db: Db, channel: string, cb: Callback, signed: bool, now: Time, no: string)
    requires no in db.orders && OrderOk(db.orders[no])
    ensures no in After(db, HandleCallback(db, channel, cb, signed, now)).orders
    ensures Moves(db.orders[no], After(db, HandleCallback(db, channel, cb, signed, now)).orders[no])
  {
    hide TradeTaken, PostPay, SplitFee, WellFormed;
  }

  lemma ReverseMoves(db: Db, account: AccountId, n: string, chargeback: bool, now: Time, no: string)
    requires no in db.orders && OrderOk(db.orders[no])
    ensures no in After(db, Reverse(db, account, n, chargeback, now)).orders
    ensures Moves(db.orders[no], After(db, Reverse(db, account, n, chargeback, now)).orders[no])
  {
    hide PostReverse, SplitFee, ReversedBook;
  }

  lemma SettleMoves(db: Db, n: string, now: Time, no: string)
    requires no in db.orders && OrderOk(db.orders[no])
    ensures no in After(db, SettleOne(db, n, now)).orders
    ensures Moves(db.orders[no], After(db, SettleOne(db, n, now)).orders[no])
  {
    hide PostSettle, SplitFee;
  }

  lemma OtherMoves(db: Db, step: Step, no: string)
    requires no in db.orders && OrderOk(db.orders[no])
    requires !step.Notice? && !step.ReverseStep? && !step.SettleStep?
    ensures no in Apply(db, step).orders && Moves(db.orders[no], Apply(db, step).orders[no])
  {
    hide OrderKeyTaken, GiftKeyTaken, SplitFee;
  }

  ghost predicate OrderChanges(db: Db, step: Step, no: string) {
    no in db.orders && no in Apply(db, step).orders && Apply(db, step).orders[no] != db.orders[no]
  }

  /** How many steps of a run change the order's row after it is inserted. */
  ghost function Changes(steps: seq<Step>, no: string): nat {
    if steps == [] then 0
    else
      var before := Run(EMPTY, steps[..|steps| - 1]);
      Changes(steps[..|steps| - 1], no) + (if OrderChanges(before, steps[|steps| - 1], no) then 1 else 0)
  }

  /** Whatever happens, an order changes at most four times: close, pay, settle, reverse. */
  lemma AtMostFourChanges(cat: Catalog, steps: seq<Step>, no: string)
    requires CatalogOk(cat) && LegalRun(cat, steps)
    ensures Changes(steps, no) <= 4
    ensures no !in Run(EMPTY, steps).orders ==> Changes(steps, no) == 0
    ensures no in Run(EMPTY, steps).orders ==> Changes(steps, no) < Rank(Run(EMPTY, steps).orders[no]) <= 5
  {
    hide Changes, Run, LegalRun, CatalogOk;
    ChangesBelowRank(cat, steps, no);
  }

  lemma {:induction false} ChangesBelowRank(cat: Catalog, steps: seq<Step>, no: string)
    requires CatalogOk(cat) && LegalRun(cat, steps)
    ensures no !in Run(EMPTY, steps).orders ==> Changes(steps, no) == 0
    ensures no in Run(EMPTY, steps).orders ==> Changes(steps, no) < Rank(Run(EMPTY, steps).orders[no])
  {
    hide Inv, Apply, Legal;
    if steps != [] {
      var prefix, step := steps[..|steps| - 1], steps[|steps| - 1];
      var db := Run(EMPTY, prefix);
      ChangesBelowRank(cat, prefix, no);
      RunKeeps(cat, prefix);
      if no in db.orders {
        OrderMoves(db, step, no);
      } else if no in Apply(db, step).orders {
        OrdersBegin(cat, db, step, no);
      }
    }
  }

  /** Orders begin in the paying state, and only through an insert. */
  lemma OrdersBegin(cat: Catalog, db: Db, step: Step, no: string)
    requires Legal(cat, step) && no !in db.orders && no in Apply(db, step).orders
    ensures Apply(db, step).orders[no].status == Paying && !Apply(db, step).orders[no].paidAfterClose
    ensures step.Recharge? && step.no == no && Apply(db, step).orders[no] == step.order
  {
    hide HandleCallback, TradeTaken, OrderKeyTaken, GiftKeyTaken, PostSettle, PostReverse, SplitFee, ReversedBook;
    if step.Notice? {
      NoticeInsertsNothing(db, step.channel, step.cb, step.signed, step.now);
    }
  }

  lemma NoticeInsertsNothing(db: Db, channel: string, cb: Callback, signed: bool, now: Time)
    ensures After(db, HandleCallback(db, channel, cb, signed, now)).orders.Keys == db.orders.Keys
  {
    hide TradeTaken, PostPay, SplitFee, WellFormed;
  }

  /** Some state along the run had the order closed. */
  ghost predicate EverClosed(steps: seq<Step>, no: string) {
    exists i :: 0 <= i <= |steps| && ClosedAt(steps, i, no)
  }

  ghost predicate ClosedAt(steps: seq<Step>, i: nat, no: string)
    requires i <= |steps|
  {
    var db := Run(EMPTY, steps[..i]);
    no in db.orders && db.orders[no].status == Closed
  }

  lemma EverClosedStep(steps: seq<Step>, no: string)
    requires steps != []
    ensures EverClosed(steps, no) <==> EverClosed(steps[..|steps| - 1], no) || ClosedAt(steps, |steps|, no)
  {
    hide Run, Apply;
    var prefix := steps[..|steps| - 1];
    forall i | 0 <= i <= |prefix|
      ensures ClosedAt(steps, i, no) <==> ClosedAt(prefix, i, no)
    {
      assert steps[..i] == prefix[..i];
    }
    if EverClosed(steps, no) {
      var i :| 0 <= i <= |steps| && ClosedAt(steps, i, no);
      assert i <= |prefix| ==> ClosedAt(prefix, i, no);
    }
    if EverClosed(prefix, no) {
      var i :| 0 <= i <= |prefix| && ClosedAt(prefix, i, no);
      assert ClosedAt(steps, i, no);
    }
  }

  /** An order that was paid is marked paid-after-close exactly when it had been closed before. */
  lemma {:induction false} PaidAfterCloseIffClosed(cat: Catalog, steps: seq<Step>, no: string)
    requires CatalogOk(cat) && LegalRun(cat, steps)
    ensures var db := Run(EMPTY, steps);
            EverClosed(steps, no)
            <==> no in db.orders && (db.orders[no].status == Closed || db.orders[no].paidAfterClose)
  {
    hide Inv, Apply, Legal;
    if steps == [] {
      assert !EverClosed(steps, no) by {
        assert steps[..0] == [];
      }
    } else {
      var prefix, step := steps[..|steps| - 1], steps[|steps| - 1];
      var db := Run(EMPTY, prefix);
      PaidAfterCloseIffClosed(cat, prefix, no);
      EverClosedStep(steps, no);
      assert steps[..|steps|] == steps;
      RunKeeps(cat, prefix);
      if no in db.orders {
        OrderRowOk(db, no);
        OrderMoves(db, step, no);
      } else if no in Apply(db, step).orders {
        OrdersBegin(cat, db, step, no);
      }
    }
  }

  // ---------- rounds of settlement and payout, with anything in between ----------

  /** Along a run an order is never lost, never falls in rank, and keeps a trade number once it has one. */
  lemma {:induction false} RankGrows(cat: Catalog, steps: seq<Step>, i: nat, j: nat, no: string)
    requires CatalogOk(cat) && LegalRun(cat, steps) && i <= j <= |steps| && no in Run(EMPTY, steps[..i]).orders
    ensures no in Run(EMPTY, steps[..j]).orders
    ensures var o, p := Run(EMPTY, steps[..i]).orders[no], Run(EMPTY, steps[..j]).orders[no];
            Rank(o) <= Rank(p) && (o.tradeNo.Some? ==> p.tradeNo == o.tradeNo)
    decreases j
  {
    hide Inv, Apply, Legal, Rank;
    if i < j {
      var before := steps[..j];
      assert before[..j - 1] == steps[..j - 1];
      RankGrows(cat, steps, i, j - 1, no);
      RunKeeps(cat, steps[..j - 1]);
      OrderMoves(Run(EMPTY, steps[..j - 1]), steps[j - 1], no);
    }
  }

  /**
   * A round of settlement finds the orders due at one moment and settles them later, one by one, with any other
   * transactions in between. Every order it found ends up settled, unless it was reversed.
   */
  lemma RoundSettles(cat: Catalog, steps: seq<Step>, found: nat, j: nat, no: string, deadline: Time, now: Time)
    requires CatalogOk(cat) && LegalRun(cat, steps) && found <= j < |steps| && steps[j] == SettleStep(no, now)
    requires no in DueOrders(Run(EMPTY, steps[..found]).orders, deadline)
    ensures no in Run(EMPTY, steps).orders
    ensures Run(EMPTY, steps).orders[no].settle in {SettleSettled, SettleRefunded, SettleChargeback}
  {
    hide Inv, Legal, Run, SettleOne, LegalRun, CatalogOk;
    LegalPrefixes(cat, steps, found);
    LegalPrefixes(cat, steps, j);
    RunKeeps(cat, steps[..found]);
    RunKeeps(cat, steps[..j]);
    RunKeeps(cat, steps);
    OrderRowOk(Run(EMPTY, steps[..found]), no);
    RankGrows(cat, steps, found, j, no);
    OrderRowOk(Run(EMPTY, steps[..j]), no);
    StepOfRun(steps, j);
    SettleRaises(Run(EMPTY, steps[..j]), no, now);
    RankGrows(cat, steps, j + 1, |steps|, no);
    assert steps[..|steps|] == steps;
    OrderRowOk(Run(EMPTY, steps), no);
  }

  lemma SettleRaises(db: Db, no: string, now: Time)
    requires no in db.orders && OrderOk(db.orders[no]) && db.orders[no].tradeNo.Some? && Rank(db.orders[no]) >= 3
    ensures var d := After(db, SettleOne(db, no, now));
            no in d.orders && Rank(d.orders[no]) >= 4 && d.orders[no].tradeNo == db.orders[no].tradeNo
  {
    hide PostSettle, SplitFee;
  }

  lemma LegalPrefixes(cat: Catalog, steps: seq<Step>, i: nat)
    requires LegalRun(cat, steps) && i <= |steps|
    ensures LegalRun(cat, steps[..i])
  {
  }

  lemma StepOfRun(steps: seq<Step>, j: nat)
    requires j < |steps|
    ensures Run(EMPTY, steps[..j + 1]) == Apply(Run(EMPTY, steps[..j]), steps[j])
  {
    hide Apply;
    assert steps[..j + 1][..j] == steps[..j];
  }

  /** A withdrawal, once requested, stays, and only ever moves from review to paid. */
  lemma WithdrawMoves(db: Db, step: Step, no: string)
    requires Inv(db) && no in db.withdraws
    ensures no in Apply(db, step).withdraws
    ensures var o, p := db.withdraws[no], Apply(db, step).withdraws[no];
            p == o || (step.Payout? && step.no == no && o.status == Reviewing
                       && p == o.(status := PaidOut, paidAt := Some(step.now)))
    ensures step.Payout? && step.no == no ==> Apply(db, step).withdraws[no].status != Reviewing
  {
    hide Inv, HandleCallback, Reverse, SettleOne, InsertRecharge, CommitGift, PayWithdraw;
    match step
    case Recharge(n, o) => RechargeKeepsWithdraws(db, n, o);
    case Notice(channel, cb, signed, now) => NoticeKeepsWithdraws(db, channel, cb, signed, now);
    case SettleStep(n, now) => SettleKeepsWithdraws(db, n, now);
    case ReverseStep(account, n, chargeback, now) => ReverseKeepsWithdraws(db, account, n, chargeback, now);
    case SendGift(n, g) => GiftKeepsWithdraws(db, n, g);
    case Payout(n, now) => PayoutMoves(db, n, now);
    case _ =>
  }

  lemma RechargeKeepsWithdraws(db: Db, n: string, o: PayOrder)
    ensures After(db, InsertRecharge(db, n, o)).withdraws == db.withdraws
  {
    hide OrderKeyTaken;
  }

  lemma NoticeKeepsWithdraws(db: Db, channel: string, cb: Callback, signed: bool, now: Time)
    ensures After(db, HandleCallback(db, channel, cb, signed, now)).withdraws == db.withdraws
  {
    hide TradeTaken, PostPay, PaidOrder, WellFormed;
  }

  lemma SettleKeepsWithdraws(db: Db, n: string, now: Time)
    ensures After(db, SettleOne(db, n, now)).withdraws == db.withdraws
  {
    hide PostSettle;
  }

  lemma ReverseKeepsWithdraws(db: Db, account: AccountId, n: string, chargeback: bool, now: Time)
    ensures After(db, Reverse(db, account, n, chargeback, now)).withdraws == db.withdraws
  {
    hide PostReverse, ReversedBook, ReversedOrder, Claw;
  }

  lemma GiftKeepsWithdraws(db: Db, n: string, g: GiftOrder)
    ensures After(db, CommitGift(db, n, g)).withdraws == db.withdraws
  {
    hide GiftKeyTaken;
  }

  lemma PayoutMoves(db: Db, n: string, now: Time)
    requires Inv(db)
    ensures After(db, PayWithdraw(db, n, now)).withdraws
            == if n in db.withdraws && db.withdraws[n].status == Reviewing
               then db.withdraws[n := db.withdraws[n].(status := PaidOut, paidAt := Some(now))] else db.withdraws
  {
    hide Inv;
    if n in db.withdraws {
      PayWithdrawNeverRejects(db, n, now);
    }
  }

  lemma {:induction false} WithdrawStays(cat: Catalog, steps: seq<Step>, i: nat, j: nat, no: string)
    requires CatalogOk(cat) && LegalRun(cat, steps) && i <= j <= |steps| && no in Run(EMPTY, steps[..i]).withdraws
    ensures no in Run(EMPTY, steps[..j]).withdraws
    ensures var o, p := Run(EMPTY, steps[..i]).withdraws[no], Run(EMPTY, steps[..j]).withdraws[no];
            && (p.account, p.diamonds, p.amount) == (o.account, o.diamonds, o.amount)
            && (o.status != Reviewing ==> p == o) && (p.status == o.status || p.status == PaidOut)
    decreases j
  {
    hide Inv, Apply, Legal;
    if i < j {
      var before := steps[..j];
      assert before[..j - 1] == steps[..j - 1];
      WithdrawStays(cat, steps, i, j - 1, no);
      RunKeeps(cat, steps[..j - 1]);
      WithdrawMoves(Run(EMPTY, steps[..j - 1]), steps[j - 1], no);
    }
  }

  /** The same for a round of payouts: every withdrawal it found ends up paid. */
  lemma RoundPays(cat: Catalog, steps: seq<Step>, found: nat, j: nat, no: string, deadline: Time, now: Time)
    requires CatalogOk(cat) && LegalRun(cat, steps) && found <= j < |steps| && steps[j] == Payout(no, now)
    requires no in DueWithdraws(Run(EMPTY, steps[..found]).withdraws, deadline)
    ensures no in Run(EMPTY, steps).withdraws && Run(EMPTY, steps).withdraws[no].status == PaidOut
  {
    hide Inv, Legal, Run, Apply, LegalRun, CatalogOk;
    LegalPrefixes(cat, steps, j);
    RunKeeps(cat, steps[..j]);
    WithdrawStays(cat, steps, found, j, no);
    StepOfRun(steps, j);
    WithdrawMoves(Run(EMPTY, steps[..j]), steps[j], no);
    WithdrawStays(cat, steps, j + 1, |steps|, no);
    assert steps[..|steps|] == steps;
  }

  // ---------- exactly-once credit ----------

  ghost predicate CreditedIn(db: Db, no: string) {
    no in db.orders && WasCredited(db.orders[no])
  }

  /** The step is a notice for the order that is answered with "credited". */
  ghost predicate StepCredits(db: Db, step: Step, no: string) {
    step.Notice? && step.cb.no == no
    && Reply(HandleCallback(db, step.channel, step.cb, step.signed, step.now)) == Ok(true)
  }

  ghost function CreditReplies(steps: seq<Step>, no: string): nat {
    if steps == [] then 0
    else
      var prefix := steps[..|steps| - 1];
      CreditReplies(prefix, no) + (if StepCredits(Run(EMPTY, prefix), steps[|steps| - 1], no) then 1 else 0)
  }

  lemma CreditOnlyOnce(db: Db, step: Step, no: string)
    requires Inv(db)
    ensures StepCredits(db, step, no) ==> !CreditedIn(db, no)
    ensures no in db.orders ==>
              (CreditedIn(Apply(db, step), no) <==> CreditedIn(db, no) || StepCredits(db, step, no))
  {
    hide Inv, HandleCallback;
    if no in db.orders {
      OrderRowOk(db, no);
      OrderMoves(db, step, no);
    }
    match step
    case Notice(channel, cb, signed, now) => NoticeCredits(db, channel, cb, signed, now, no);
    case _ =>
      if no in db.orders && !CreditedIn(db, no) {
        NotPaidByOthers(db, step, no);
      }
  }

  lemma NoticeCredits(db: Db, channel: string, cb: Callback, signed: bool, now: Time, no: string)
    ensures Reply(HandleCallback(db, channel, cb, signed, now)) == Ok(true) ==>
              && cb.no in db.orders && !CreditedIn(db, cb.no)
              && CreditedIn(After(db, HandleCallback(db, channel, cb, signed, now)), cb.no)
    ensures no in db.orders && !CreditedIn(db, no) &&
            CreditedIn(After(db, HandleCallback(db, channel, cb, signed, now)), no) ==>
              cb.no == no && Reply(HandleCallback(db, channel, cb, signed, now)) == Ok(true)
  {
    hide TradeTaken, PostPay, SplitFee, WellFormed;
  }

  /** Only a notice turns an order into a paid one. */
  lemma NotPaidByOthers(db: Db, step: Step, no: string)
    requires no in db.orders && OrderOk(db.orders[no]) && !step.Notice? && !CreditedIn(db, no)
    ensures !CreditedIn(Apply(db, step), no)
  {
    hide OrderKeyTaken, GiftKeyTaken, PostSettle, PostReverse, SplitFee, ReversedBook, OrderOk;
  }

  /**
   * Over any run an order is credited at most once: the notices answered "credited", the recharge entries in the ledger
   * and the order's status all agree, and so does its payment date.
   */
  lemma {:induction false} CreditedExactlyOnce(cat: Catalog, steps: seq<Step>, no: string)
    requires CatalogOk(cat) && LegalRun(cat, steps)
    ensures CreditReplies(steps, no) == if CreditedIn(Run(EMPTY, steps), no) then 1 else 0
    ensures no in Run(EMPTY, steps).orders ==>
              var db := Run(EMPTY, steps);
              var o := db.orders[no];
              var k := LedgerKey(o.account, Credit, BizRecharge, no);
              && (CreditedIn(db, no) <==> o.paidAt.Some?)
              && LedgerTotal(db.ledger, RowsAt(k)) == CreditReplies(steps, no)
              && LedgerTotal(db.ledger, AmountAt(k)) == CreditReplies(steps, no) * o.coins
  {
    hide Inv, Apply, Legal, StepCredits, LedgerTotal;
    if steps != [] {
      var prefix, step := steps[..|steps| - 1], steps[|steps| - 1];
      var db := Run(EMPTY, prefix);
      CreditedExactlyOnce(cat, prefix, no);
      RunKeeps(cat, prefix);
      CreditOnlyOnce(db, step, no);
      if no !in db.orders && no in Apply(db, step).orders {
        OrdersBegin(cat, db, step, no);
        NotANotice(db, step, no);
      } else if no !in db.orders {
        NoOrderNoCredit(db, step, no);
      }
    }
    RunKeeps(cat, steps);
    if no in Run(EMPTY, steps).orders {
      RechargeRow(Run(EMPTY, steps), no);
    }
  }

  lemma NotANotice(db: Db, step: Step, no: string)
    requires !step.Notice?
    ensures !StepCredits(db, step, no)
  {
  }

  lemma NoOrderNoCredit(db: Db, step: Step, no: string)
    requires no !in db.orders
    ensures !StepCredits(db, step, no)
  {
  }

  /** The ledger row behind one order's credit. */
  lemma RechargeRow(db: Db, no: string)
    requires Inv(db) && no in db.orders
    ensures var o := db.orders[no];
            var k := LedgerKey(o.account, Credit, BizRecharge, no);
            && (WasCredited(o) <==> o.paidAt.Some?)
            && LedgerTotal(db.ledger, RowsAt(k)) == (if WasCredited(o) then 1 else 0)
            && LedgerTotal(db.ledger, AmountAt(k)) == (if WasCredited(o) then o.coins else 0)
  {
    hide JournalExact, GroupsBalanced, BookOk, WalletsOk, RunningBalances, CoinsConserved,
      DiamondsConserved, GiftsOk, CallbacksOk, LedgerTotal;
    var k := LedgerKey(db.orders[no].account, Credit, BizRecharge, no);
    assert RowsOk(db.orders, db.gifts, db.withdraws, k, LedgerTotal(db.ledger, RowsAt(k)),
                  LedgerTotal(db.ledger, AmountAt(k)));
  }

  // ---------- gift idempotency ----------

  /** The step is a gift transaction for this sender and key, and it commits. */
  ghost predicate StepGifts(db: Db, step: Step, sender: AccountId, key: string) {
    step.SendGift? && SameGift(step.gift, sender, key) && CommitGift(db, step.no, step.gift).Commit?
  }

  ghost function GiftWins(steps: seq<Step>, sender: AccountId, key: string): nat {
    if steps == [] then 0
    else
      var prefix := steps[..|steps| - 1];
      GiftWins(prefix, sender, key) + (if StepGifts(Run(EMPTY, prefix), steps[|steps| - 1], sender, key) then 1 else 0)
  }

  lemma GiftTakenStep(db: Db, step: Step, sender: AccountId, key: string)
    ensures GiftKeyTaken(Apply(db, step), sender, key)
            <==> GiftKeyTaken(db, sender, key) || StepGifts(db, step, sender, key)
    ensures StepGifts(db, step, sender, key) ==> !GiftKeyTaken(db, sender, key)
    ensures step.SendGift? && SameGift(step.gift, sender, key) && !StepGifts(db, step, sender, key) ==>
              Apply(db, step) == db
  {
    hide HandleCallback, Reverse, SettleOne, PayWithdraw, RequestWithdraw, InsertRecharge, CloseIfExpired, MarkPaying;
    var d := Apply(db, step);
    if StepGifts(db, step, sender, key) {
      assert d.gifts[step.no] == step.gift;
    } else if step.SendGift? && CommitGift(db, step.no, step.gift).Commit? {
      assert d.gifts == db.gifts[step.no := step.gift];
      assert forall no :: no in db.gifts ==> d.gifts[no] == db.gifts[no];
    } else {
      NoNewGift(db, step);
    }
  }

  lemma NoNewGift(db: Db, step: Step)
    requires step.SendGift? ==> CommitGift(db, step.no, step.gift).Abort?
    ensures Apply(db, step).gifts == db.gifts
    ensures step.SendGift? ==> Apply(db, step) == db
  {
    hide HandleCallback, Reverse, InsertRecharge, CommitGift;
    match step
    case Notice(channel, cb, signed, now) => NoticeKeepsGifts(db, channel, cb, signed, now);
    case ReverseStep(account, no, chargeback, now) => ReverseKeepsGiftRows(db, account, no, chargeback, now);
    case Recharge(no, o) => RechargeKeepsGifts(db, no, o);
    case _ =>
  }

  lemma NoticeKeepsGifts(db: Db, channel: string, cb: Callback, signed: bool, now: Time)
    ensures After(db, HandleCallback(db, channel, cb, signed, now)).gifts == db.gifts
  {
    hide TradeTaken, PostPay, SplitFee, WellFormed;
  }

  lemma ReverseKeepsGiftRows(db: Db, account: AccountId, no: string, chargeback: bool, now: Time)
    ensures After(db, Reverse(db, account, no, chargeback, now)).gifts == db.gifts
  {
    hide PostReverse, ReversedBook;
  }

  lemma RechargeKeepsGifts(db: Db, no: string, o: PayOrder)
    ensures After(db, InsertRecharge(db, no, o)).gifts == db.gifts
  {
    hide OrderKeyTaken;
  }

  /**
   * Any number of gift requests with one sender and key, all of which may have passed the check, give one gift: one
   * transaction commits, the others change nothing, and the gift has one coin debit and one diamond credit.
   */
  lemma {:induction false} GiftOnce(cat: Catalog, steps: seq<Step>, sender: AccountId, key: string)
    requires CatalogOk(cat) && LegalRun(cat, steps)
    ensures GiftWins(steps, sender, key) == if GiftKeyTaken(Run(EMPTY, steps), sender, key) then 1 else 0
  {
    hide Inv, Apply, Legal, StepGifts, GiftKeyTaken;
    if steps == [] {
      NoGiftsYet(sender, key);
    } else {
      var prefix, step := steps[..|steps| - 1], steps[|steps| - 1];
      GiftOnce(cat, prefix, sender, key);
      GiftTakenStep(Run(EMPTY, prefix), step, sender, key);
    }
  }

  lemma NoGiftsYet(sender: AccountId, key: string)
    ensures !GiftKeyTaken(EMPTY, sender, key)
  {
  }

  /** Each gift order has exactly one coin debit and, if it is worth a diamond, one diamond credit. */
  lemma GiftPostedOnce(db: Db, no: string)
    requires Inv(db) && no in db.gifts
    ensures var g := db.gifts[no];
            var debit := LedgerKey(g.sender, Debit, BizGiftSend, no);
            var credit := LedgerKey(g.receiver, Credit, BizGiftReceive, no);
            && LedgerTotal(db.ledger, RowsAt(debit)) == 1 && LedgerTotal(db.ledger, AmountAt(debit)) == g.cost
            && LedgerTotal(db.ledger, RowsAt(credit)) == (if g.diamonds > 0 then 1 else 0)
            && LedgerTotal(db.ledger, AmountAt(credit)) == g.diamonds
            && (forall other :: other in db.gifts && SameGift(db.gifts[other], g.sender, g.key) ==> other == no)
  {
    hide JournalExact, GroupsBalanced, BookOk, WalletsOk, RunningBalances, CoinsConserved,
      DiamondsConserved, CallbacksOk, LedgerTotal, GiftTotal;
    var g := db.gifts[no];
    var debit := LedgerKey(g.sender, Debit, BizGiftSend, no);
    var credit := LedgerKey(g.receiver, Credit, BizGiftReceive, no);
    assert RowsOk(db.orders, db.gifts, db.withdraws, debit, LedgerTotal(db.ledger, RowsAt(debit)),
                  LedgerTotal(db.ledger, AmountAt(debit)));
    assert RowsOk(db.orders, db.gifts, db.withdraws, credit, LedgerTotal(db.ledger, RowsAt(credit)),
                  LedgerTotal(db.ledger, AmountAt(credit)));
  }
}
