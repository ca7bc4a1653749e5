/** Refunds and chargebacks across both sides: the gateway is told first, and then the merchant's order is reversed. */
module RefundCalls {
  import opened PayTypes
  import opened PayModel
  import opened PayInvariant
  import opened PayRuns
  import opened Gateway

  function NextStatus(chargeback: bool): TradeStatus {
    if chargeback then TradeChargeback else TradeRefund
  }

  /**
   * Refund and Chargeback. A gateway that cannot be reached, or that does not know the trade, does not stop the
   * reversal; one that answers that the trade is not paid does.
   */
  function RefundCall(net: Net, account: AccountId, no: string, chargeback: bool, now: Time, reachable: bool)
    : (Net, Result<PayOrder>)
  {
    var (g, reply) := if reachable then Mutated(net.gate, no, NextStatus(chargeback)) else (net.gate, NotFound);
    if reply == NotPaid then (net.(gate := g), Err(ErrRefundNotAllowed))
    else
      var tx := Reverse(net.db, account, no, chargeback, now);
      (net.(gate := g, db := After(net.db, tx)), Reply(tx))
  }

  /** The order and its trade are in matching states. */
  predicate SidesAgree(net: Net, no: string) {
    && no in net.db.orders && TradeOf(net.gate, no).Some?
    && (var o, t := net.db.orders[no], TradeOf(net.gate, no).value;
        && (o.status == Paid <==> t.status == TradeSuccess)
        && (o.status == Refunded <==> t.status == TradeRefund)
        && (o.status == ChargedBack <==> t.status == TradeChargeback))
  }

  /** What the merchant needs to reverse a paid order. */
  predicate CanReverse(db: Db, account: AccountId, no: string, chargeback: bool)
    requires no in db.orders
  {
    var o := db.orders[no];
    account == o.account && (chargeback || WalletOf(db.wallets, account).coins >= o.coins)
  }

  lemma ReverseCommits(db: Db, account: AccountId, no: string, chargeback: bool, now: Time)
    requires no in db.orders && OrderOk(db.orders[no]) && db.orders[no].status == Paid
    ensures Reverse(db, account, no, chargeback, now).Commit? <==> CanReverse(db, account, no, chargeback)
    ensures var d := After(db, Reverse(db, account, no, chargeback, now));
            if CanReverse(db, account, no, chargeback)
            then no in d.orders && d.orders[no].status == (if chargeback then ChargedBack else Refunded) else d == db
  {
    hide PostReverse, ReversedBook, Claw;
  }

  /** At the gateway a paid trade changes its status whatever the merchant does next. */
  lemma PaidTradeChanges(g: Gate, no: string, chargeback: bool)
    requires TradeOf(g, no).Some? && TradeOf(g, no).value.status == TradeSuccess
    ensures var (h, reply) := Mutated(g, no, NextStatus(chargeback));
            reply == Changed && TradeOf(h, no) == Some(TradeOf(g, no).value.(status := NextStatus(chargeback)))
  {
  }

  lemma UnpaidTradeRefuses(g: Gate, no: string, chargeback: bool)
    requires TradeOf(g, no).Some? && TradeOf(g, no).value.status != TradeSuccess
    ensures Mutated(g, no, NextStatus(chargeback)) == (g, NotPaid)
  {
  }

  /**
   * From a paid order with a paid trade, both sides agree after a refund or chargeback call if and only if the gateway
   * was reached exactly when the merchant can reverse the order.
   */
  lemma CallKeepsAgreement(net: Net, account: AccountId, no: string, chargeback: bool, now: Time, reachable: bool)
    requires Inv(net.db) && no in net.db.orders && net.db.orders[no].status == Paid
    requires TradeOf(net.gate, no).Some? && TradeOf(net.gate, no).value.status == TradeSuccess
    ensures var after := RefundCall(net, account, no, chargeback, now, reachable).0;
            SidesAgree(after, no) <==> (reachable <==> CanReverse(net.db, account, no, chargeback))
  {
    hide Inv, OrderOk, Mutated, TradeOf, Reverse, CanReverse;
    OrderRowOk(net.db, no);
    ReverseCommits(net.db, account, no, chargeback, now);
    PaidTradeChanges(net.gate, no, chargeback);
  }

  /**
   * A refund of coins already spent parts the sides for good: the order stays paid, the trade is refunded, and every
   * later refund or chargeback of the order that reaches the gateway is refused and changes nothing, though the
   * merchant alone could charge it back.
   */
  lemma SpentRefundParts(net: Net, no: string, now: Time)
    requires Inv(net.db) && no in net.db.orders && net.db.orders[no].status == Paid
    requires TradeOf(net.gate, no).Some? && TradeOf(net.gate, no).value.status == TradeSuccess
    requires WalletOf(net.db.wallets, net.db.orders[no].account).coins < net.db.orders[no].coins
    ensures var o := net.db.orders[no];
            var (after, reply) := RefundCall(net, o.account, no, false, now, true);
            && reply == Err(ErrInsufficientCoin) && after.db == net.db && TradeOf(after.gate, no).Some?
            && TradeOf(after.gate, no).value.status == TradeRefund && CanReverse(after.db, o.account, no, true)
            && forall account, chargeback, later :: RefundCall(after, account, no, chargeback, later, true)
                                                    == (after, Err(ErrRefundNotAllowed))
  {
    hide Inv, Mutated, TradeOf, Reverse;
    var o := net.db.orders[no];
    OrderRowOk(net.db, no);
    ReverseCommits(net.db, o.account, no, false, now);
    SpentReply(net.db, no, now);
    PaidTradeChanges(net.gate, no, false);
    var after := RefundCall(net, o.account, no, false, now, true).0;
    forall account, chargeback, later
      ensures RefundCall(after, account, no, chargeback, later, true) == (after, Err(ErrRefundNotAllowed))
    {
      UnpaidTradeRefuses(after.gate, no, chargeback);
    }
  }

  lemma SpentReply(db: Db, no: string, now: Time)
    requires no in db.orders && OrderOk(db.orders[no]) && db.orders[no].status == Paid
    requires WalletOf(db.wallets, db.orders[no].account).coins < db.orders[no].coins
    ensures Reply(Reverse(db, db.orders[no].account, no, false, now)) == Err(ErrInsufficientCoin)
  {
    hide PostReverse, ReversedBook, Claw;
  }

  /** The call as a run: its requests at the gateway one after the other, and then the merchant's transaction. */
  lemma CallIsRun(cat: Catalog, net: Net, account: AccountId, no: string, chargeback: bool, now: Time)
    requires TradeOf(net.gate, no).Some? && TradeOf(net.gate, no).value.status == TradeSuccess
    ensures var steps :=
              MutateSteps(net.gate, no, NextStatus(chargeback)) + [Other(ReverseStep(account, no, chargeback, now))];
            NetLegalRun(cat, net, steps) && NetRun(net, steps) == RefundCall(net, account, no, chargeback, now, true).0
  {
    hide NetRun, NetLegalRun, NetLegal, ApplyNet, Mutated, TradeOf, MutateSteps, Reverse;
    EmptyRun(cat, net);
    MutateIsRun(cat, net, [], no, NextStatus(chargeback));
    var steps := MutateSteps(net.gate, no, NextStatus(chargeback));
    assert [] + steps == steps;
    var told := NetRun(net, steps);
    ReversalOnly(cat, told, account, no, chargeback, now);
    RunExtends(cat, net, steps, Other(ReverseStep(account, no, chargeback, now)));
    PaidTradeChanges(net.gate, no, chargeback);
  }

  lemma ReversalOnly(cat: Catalog, net: Net, account: AccountId, no: string, chargeback: bool, now: Time)
    ensures NetLegal(cat, net, Other(ReverseStep(account, no, chargeback, now)))
    ensures ApplyNet(net, Other(ReverseStep(account, no, chargeback, now)))
            == net.(db := After(net.db, Reverse(net.db, account, no, chargeback, now)))
  {
    hide Reverse;
  }
}
