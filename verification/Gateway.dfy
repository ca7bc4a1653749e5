/** The payment gateway and its conversation with the merchant: delayed, repeated and racing notices for one trade. */
module Gateway {
  import opened PayTypes
  import opened PayModel
  import opened PayInvariant
  import opened PayRuns
  import opened PayLifecycle
  import PayOutcomes

  // ---------- the gateway's own state ----------

  datatype TradeStatus = TradeWait | TradeSuccess | TradeClosed | TradeRefund | TradeChargeback

  datatype Trade = Trade(amount: int, channel: string, status: TradeStatus, tradeNo: string)

  /**
   * The trades in memory and, if the gateway has a database, their rows. Requests run side by side: pending holds the
   * rows that requests have yet to save after writing the memory, lookups the trades that requests have read and will
   * act on. A restart loses all but the rows.
   */
  datatype Gate = Gate(memory: map<string, Trade>, rows: map<string, Trade>, hasDb: bool,
                       pending: multiset<(string, Trade)>, lookups: multiset<(string, Trade)>)

  function TradeNumber(paid: bool, no: string): string {
    (if paid then "T" else "F") + no
  }

  /** A successful trade in memory is only replaced by another success, a refund or a chargeback. */
  predicate Protects(memory: map<string, Trade>, no: string, t: Trade) {
    no in memory && memory[no].status == TradeSuccess && t.status !in {TradeSuccess, TradeRefund, TradeChargeback}
  }

  /** The first half of remember, under the mutex: the memory is written and the row is left to save. */
  function Stored(g: Gate, no: string, t: Trade): Gate {
    if Protects(g.memory, no, t) then g
    else g.(memory := g.memory[no := t], pending := if g.hasDb then g.pending + multiset{(no, t)} else g.pending)
  }

  /** The second half, after the mutex is released: a pending row is saved. */
  function Landed(g: Gate, no: string, t: Trade): Gate {
    if (no, t) in g.pending then g.(rows := g.rows[no := t], pending := g.pending - multiset{(no, t)}) else g
  }

  /** Both halves with no other request in between. */
  function Remember(g: Gate, no: string, t: Trade): Gate {
    if g.hasDb && !Protects(g.memory, no, t) then Landed(Stored(g, no, t), no, t) else Stored(g, no, t)
  }

  function TradeOf(g: Gate, no: string): Option<Trade> {
    if g.hasDb && no in g.rows then Some(g.rows[no])
    else if no in g.memory then Some(g.memory[no])
    else None
  }

  /** What Show records, and what Submit records when the buyer pays, or cancels or fails. */
  function ShownTrade(amount: int, channel: string): Trade {
    Trade(amount, channel, TradeWait, "")
  }

  function SubmittedTrade(no: string, amount: int, channel: string, paid: bool): Trade {
    Trade(amount, channel, if paid then TradeSuccess else TradeClosed, TradeNumber(paid, no))
  }

  datatype MutateReply = Changed | Unchanged(status: TradeStatus) | NotFound | NotPaid

  /** Whether a trade as it was read may be closed, refunded or charged back. */
  function Guarded(t: Trade, next: TradeStatus): MutateReply {
    if next == TradeClosed && t.status != TradeWait then Unchanged(t.status)
    else if next in {TradeRefund, TradeChargeback} && t.status != TradeSuccess then NotPaid
    else Changed
  }

  /** Close, refund or charge back a trade, with no other request in between. */
  function Mutated(g: Gate, no: string, next: TradeStatus): (Gate, MutateReply) {
    match TradeOf(g, no)
    case None => (g, NotFound)
    case Some(t) => (if Guarded(t, next) == Changed then Remember(g, no, t.(status := next)) else g, Guarded(t, next))
  }

  /** The notice that notify sends, now or on a later retry. */
  function NoticeOf(no: string, amount: int, paid: bool, timestamp: Time, nonce: string): Callback {
    Callback(no, TradeNumber(paid, no), amount, paid, timestamp, nonce)
  }

  /** The notice that the merchant builds for itself from a trade query, if the query settles anything. */
  function Compensation(g: Gate, no: string, copy: PayOrder, now: Time, nonce: string): Option<Callback> {
    if copy.status !in {Created, Paying} then None
    else
      match TradeOf(g, no)
      case None => None
      case Some(t) =>
        if t.amount != copy.amount || t.channel != copy.channel || t.status !in {TradeSuccess, TradeClosed} then None
        else Some(Callback(no, t.tradeNo, t.amount, t.status == TradeSuccess, now, nonce))
  }

  // ---------- merchant and gateway together ----------

  /**
   * sent holds every notice (order, paid) the gateway has decided to send: each may arrive at any time, any number of
   * times.
   */
  datatype Net = Net(db: Db, gate: Gate, sent: set<(string, bool)>)

  datatype NetStep =
    | Show(no: string)
    | Submit(no: string, paid: bool)
    | Save(no: string, trade: Trade)
    | Read(no: string)
    | Mutate(no: string, next: TradeStatus, seen: Trade)
    | Restart
    | Deliver(no: string, paid: bool, timestamp: Time, nonce: string, now: Time)
    | Query(no: string, copy: PayOrder, nonce: string, now: Time)
    | Mock(no: string, token: string, nonce: string, now: Time)
    | Other(step: Step)

  /** The cashier page is only reached through an address the merchant signed; other parties cannot forge notices. */
  ghost predicate NetLegal(cat: Catalog, net: Net, s: NetStep) {
    match s
    case Show(no) => no != "" && no in net.db.orders
    case Submit(no, _) => no != "" && no in net.db.orders
    case Save(no, t) => (no, t) in net.gate.pending
    case Read(_) => true
    case Mutate(no, next, seen) => next in {TradeClosed, TradeRefund, TradeChargeback} && (no, seen) in net.gate.lookups
    case Restart => true
    case Deliver(no, paid, _, _, _) => (no, paid) in net.sent
    case Query(no, copy, nonce, now) => no in net.db.orders && SameTerms(copy, net.db.orders[no])
    case Mock(no, _, _, _) => no in net.db.orders
    case Other(step) => !step.Notice? && Legal(cat, step)
  }

  /** The merchant's part of a step, if it has one. */
  ghost function MerchantStep(net: Net, s: NetStep): Option<Step> {
    match s
    case Deliver(no, paid, timestamp, nonce, now) =>
      if no !in net.db.orders then None
      else
        var o := net.db.orders[no];
        Some(Notice(o.channel, NoticeOf(no, o.amount, paid, timestamp, nonce), true, now))
    case Query(no, copy, nonce, now) =>
      (match Compensation(net.gate, no, copy, now, nonce)
       case Some(cb) => Some(Notice(copy.channel, cb, true, now))
       case None => None)
    case Mock(no, token, nonce, now) =>
      if no !in net.db.orders then None
      else Some(Notice("mock", Callback(no, "M" + token, net.db.orders[no].amount, true, now, nonce), true, now))
    case Other(step) => Some(step)
    case _ => None
  }

  function GateStep(net: Net, s: NetStep): Gate {
    match s
    case Show(no) =>
      if no in net.db.orders
      then Stored(net.gate, no, ShownTrade(net.db.orders[no].amount, net.db.orders[no].channel)) else net.gate
    case Submit(no, paid) =>
      if no in net.db.orders
      then Stored(net.gate, no, SubmittedTrade(no, net.db.orders[no].amount, net.db.orders[no].channel, paid))
      else net.gate
    case Save(no, t) => Landed(net.gate, no, t)
    case Read(no) =>
      if TradeOf(net.gate, no).None? then net.gate
      else net.gate.(lookups := net.gate.lookups + multiset{(no, TradeOf(net.gate, no).value)})
    case Mutate(no, next, seen) =>
      var g := net.gate.(lookups := net.gate.lookups - multiset{(no, seen)});
      if Guarded(seen, next) == Changed then Stored(g, no, seen.(status := next)) else g
    case Restart => net.gate.(memory := map[], pending := multiset{}, lookups := multiset{})
    case _ => net.gate
  }

  ghost function ApplyNet(net: Net, s: NetStep): Net {
    var db := match MerchantStep(net, s) case Some(step) => Apply(net.db, step) case None => net.db;
    Net(db, GateStep(net, s), if s.Submit? then net.sent + {(s.no, s.paid)} else net.sent)
  }

  /** The number a trade carries tells how it came about. */
  predicate TradeOk(db: Db, no: string, t: Trade) {
    && no != "" && no in db.orders && t.amount == db.orders[no].amount && t.channel == db.orders[no].channel
    && (match t.status
        case TradeWait => t.tradeNo == ""
        case TradeClosed => t.tradeNo == TradeNumber(false, no) || t.tradeNo == ""
        case _ => t.tradeNo == TradeNumber(true, no))
  }

  /** Every trade the gateway holds anywhere, and every row it has yet to save, is one of its order. */
  ghost predicate GateOk(db: Db, g: Gate) {
    && (forall no :: no in g.memory ==> TradeOk(db, no, g.memory[no]))
    && (forall no :: no in g.rows ==> TradeOk(db, no, g.rows[no]))
    && (forall m :: m in g.pending ==> TradeOk(db, m.0, m.1))
    && (forall m :: m in g.lookups ==> TradeOk(db, m.0, m.1))
  }

  predicate FromMock(trade: string) {
    trade != "" && trade[0] == 'M'
  }

  /** Every trade number at the merchant came from the gateway for this very order, or from MockConfirm. */
  ghost predicate TradesOk(db: Db) {
    forall no :: no in db.orders && db.orders[no].tradeNo.Some? ==>
      db.orders[no].tradeNo.value == TradeNumber(true, no) || FromMock(db.orders[no].tradeNo.value)
  }

  ghost predicate NetInv(net: Net) {
    && Inv(net.db) && GateOk(net.db, net.gate) && TradesOk(net.db)
    && (forall m :: m in net.sent ==> m.0 != "" && m.0 in net.db.orders)
  }

  ghost function NetRun(net: Net, steps: seq<NetStep>): Net {
    if steps == [] then net else ApplyNet(NetRun(net, steps[..|steps| - 1]), steps[|steps| - 1])
  }

  ghost predicate NetLegalRun(cat: Catalog, net: Net, steps: seq<NetStep>) {
    forall i :: 0 <= i < |steps| ==> NetLegal(cat, NetRun(net, steps[..i]), steps[i])
  }

  // ---------- what the two sides keep ----------

  /** Merchant steps only add orders and never change their terms. */
  lemma TermsStay(db: Db, step: Step, no: string)
    requires Inv(db) && no in db.orders
    ensures no in Apply(db, step).orders && SameTerms(db.orders[no], Apply(db, step).orders[no])
  {
    hide Inv, Apply, Edge, Rank;
    OrderMoves(db, step, no);
  }

  lemma MerchantLegal(cat: Catalog, net: Net, s: NetStep)
    requires NetLegal(cat, net, s) && MerchantStep(net, s).Some?
    ensures Legal(cat, MerchantStep(net, s).value)
  {
    hide Compensation, OrderIntent, GiftIntent;
  }

  /** A new trade number is the one the crediting notice carried. */
  lemma TradeComesFromNotice(cat: Catalog, db: Db, step: Step, no: string)
    requires Inv(db) && Legal(cat, step) && no in Apply(db, step).orders
    requires no in db.orders ==> Apply(db, step).orders[no].tradeNo != db.orders[no].tradeNo
    requires no !in db.orders ==> Apply(db, step).orders[no].tradeNo.Some?
    ensures step.Notice? && step.cb.no == no && no in db.orders &&
            Apply(db, step).orders[no].tradeNo == Some(step.cb.tradeNo)
  {
    hide Inv, HandleCallback, Edge, Rank, SameTerms, Legal;
    if no in db.orders {
      OrderMoves(db, step, no);
      OrderRowOk(db, no);
      match step
      case Notice(channel, cb, signed, now) => NoticeSetsTrade(db, channel, cb, signed, now, no);
      case _ => OthersKeepTrade(db, step, no);
    } else {
      OrdersBegin(cat, db, step, no);
      NewOrderHasNoTrade(cat, step);
    }
  }

  lemma NewOrderHasNoTrade(cat: Catalog, step: Step)
    requires Legal(cat, step) && step.Recharge?
    ensures step.order.tradeNo.None?
  {
  }

  lemma NoticeSetsTrade(db: Db, channel: string, cb: Callback, signed: bool, now: Time, no: string)
    requires no in db.orders
    ensures var d := After(db, HandleCallback(db, channel, cb, signed, now));
            no in d.orders && d.orders[no].tradeNo != db.orders[no].tradeNo ==>
              cb.no == no && d.orders[no].tradeNo == Some(cb.tradeNo)
  {
    hide TradeTaken, PostPay, SplitFee, WellFormed;
  }

  lemma OthersKeepTrade(db: Db, step: Step, no: string)
    requires no in db.orders && no in Apply(db, step).orders && !step.Notice?
    ensures Apply(db, step).orders[no].tradeNo == db.orders[no].tradeNo
  {
    hide OrderKeyTaken, GiftKeyTaken, PostSettle, PostReverse, SplitFee, ReversedBook;
  }

  lemma NetStepKeeps(cat: Catalog, net: Net, s: NetStep)
    requires CatalogOk(cat) && NetInv(net) && NetLegal(cat, net, s)
    ensures NetInv(ApplyNet(net, s))
  {
    hide Inv, Apply, Legal, MerchantStep, GateOk, TradesOk, GateStep, TradeOk, CatalogOk;
    var n := ApplyNet(net, s);
    assert GateOk(net.db, GateStep(net, s)) by { GateStepKeeps(cat, net, s); }
    if MerchantStep(net, s).Some? {
      var step := MerchantStep(net, s).value;
      MerchantLegal(cat, net, s);
      StepKeeps(cat, net.db, step);
      GateFollows(net.db, step, GateStep(net, s));
      TradesFollow(cat, net, s);
      forall m | m in n.sent
        ensures m.0 != "" && m.0 in n.db.orders
      {
        TermsStay(net.db, step, m.0);
      }
    }
  }

  lemma StoredKeeps(db: Db, g: Gate, no: string, t: Trade)
    requires GateOk(db, g) && TradeOk(db, no, t)
    ensures GateOk(db, Stored(g, no, t))
  {
    hide TradeOk;
  }

  lemma LandedKeeps(db: Db, g: Gate, no: string, t: Trade)
    requires GateOk(db, g)
    ensures GateOk(db, Landed(g, no, t))
  {
    hide TradeOk;
  }

  lemma LookupKeeps(db: Db, g: Gate, no: string, t: Trade)
    requires GateOk(db, g) && TradeOk(db, no, t)
    ensures GateOk(db, g.(lookups := g.lookups + multiset{(no, t)}))
    ensures GateOk(db, g.(lookups := g.lookups - multiset{(no, t)}))
  {
    hide TradeOk;
  }

  lemma ChangedTradeOk(db: Db, no: string, seen: Trade, next: TradeStatus)
    requires TradeOk(db, no, seen) && next in {TradeClosed, TradeRefund, TradeChargeback} &&
             Guarded(seen, next) == Changed
    ensures TradeOk(db, no, seen.(status := next))
  {
  }

  lemma GateStepKeeps(cat: Catalog, net: Net, s: NetStep)
    requires GateOk(net.db, net.gate) && NetLegal(cat, net, s)
    ensures GateOk(net.db, GateStep(net, s))
  {
    hide Stored, Landed;
    match s
    case Show(no) =>
      StoredKeeps(net.db, net.gate, no, ShownTrade(net.db.orders[no].amount, net.db.orders[no].channel));
    case Submit(no, paid) =>
      StoredKeeps(net.db, net.gate, no, SubmittedTrade(no, net.db.orders[no].amount, net.db.orders[no].channel, paid));
    case Save(no, t) => LandedKeeps(net.db, net.gate, no, t);
    case Read(no) =>
      if TradeOf(net.gate, no).Some? {
        LookupKeeps(net.db, net.gate, no, TradeOf(net.gate, no).value);
      }
    case Mutate(no, next, seen) => MutateKeeps(net, no, next, seen);
    case _ =>
  }

  lemma MutateKeeps(net: Net, no: string, next: TradeStatus, seen: Trade)
    requires GateOk(net.db, net.gate) && (no, seen) in net.gate.lookups
    requires next in {TradeClosed, TradeRefund, TradeChargeback}
    ensures GateOk(net.db, GateStep(net, Mutate(no, next, seen)))
  {
    hide TradeOk, Stored;
    var m := (no, seen);
    assert m in net.gate.lookups && TradeOk(net.db, m.0, m.1);
    LookupKeeps(net.db, net.gate, no, seen);
    if Guarded(seen, next) == Changed {
      ChangedTradeOk(net.db, no, seen, next);
      StoredKeeps(net.db, net.gate.(lookups := net.gate.lookups - multiset{(no, seen)}), no, seen.(status := next));
    }
  }

  lemma GateFollows(db: Db, step: Step, g: Gate)
    requires Inv(db) && GateOk(db, g)
    ensures GateOk(Apply(db, step), g)
  {
    hide Inv, Apply;
    forall no, t | TradeOk(db, no, t)
      ensures TradeOk(Apply(db, step), no, t)
    {
      TermsStay(db, step, no);
    }
  }

  /** The merchant's notices carry the gateway's number for their order, or a mock number. */
  lemma NoticeNumber(cat: Catalog, net: Net, s: NetStep)
    requires GateOk(net.db, net.gate) && NetLegal(cat, net, s)
    requires MerchantStep(net, s).Some? && MerchantStep(net, s).value.Notice?
    ensures var cb := MerchantStep(net, s).value.cb;
            cb.paid ==> cb.tradeNo == TradeNumber(true, cb.no) || FromMock(cb.tradeNo)
  {
  }

  lemma NoticePaid(db: Db, channel: string, cb: Callback, signed: bool, now: Time, no: string)
    requires no in db.orders && !cb.paid
    ensures no in After(db, HandleCallback(db, channel, cb, signed, now)).orders
    ensures After(db, HandleCallback(db, channel, cb, signed, now)).orders[no].tradeNo == db.orders[no].tradeNo
  {
    hide WellFormed, CreditOrder;
  }

  lemma TradesFollow(cat: Catalog, net: Net, s: NetStep)
    requires CatalogOk(cat) && NetInv(net) && NetLegal(cat, net, s) && MerchantStep(net, s).Some?
    ensures TradesOk(Apply(net.db, MerchantStep(net, s).value))
  {
    hide Inv, Apply, Legal, MerchantStep, GateOk, FromMock, TradeNumber, HandleCallback, CatalogOk, NetLegal;
    var db, step := net.db, MerchantStep(net, s).value;
    MerchantLegal(cat, net, s);
    forall no | no in Apply(db, step).orders && Apply(db, step).orders[no].tradeNo.Some?
      ensures Apply(db, step).orders[no].tradeNo.value == TradeNumber(true, no)
           || FromMock(Apply(db, step).orders[no].tradeNo.value)
    {
      if no !in db.orders || Apply(db, step).orders[no].tradeNo != db.orders[no].tradeNo {
        TradeComesFromNotice(cat, db, step, no);
        NoticeNumber(cat, net, s);
        ApplyNotice(db, step);
        if !step.cb.paid {
          NoticePaid(db, step.channel, step.cb, step.signed, step.now, no);
        }
      }
    }
  }

  lemma ApplyNotice(db: Db, step: Step)
    requires step.Notice?
    ensures Apply(db, step) == After(db, HandleCallback(db, step.channel, step.cb, step.signed, step.now))
  {
  }

  /** From the empty system on, both sides keep their agreement in every run. */
  lemma {:induction false} NetRunKeeps(cat: Catalog, hasDb: bool, steps: seq<NetStep>)
    requires CatalogOk(cat) && NetLegalRun(cat, Opening(hasDb), steps)
    ensures NetInv(NetRun(Opening(hasDb), steps))
  {
    hide NetLegal, ApplyNet, Inv;
    if steps == [] {
      EmptyOk();
    } else {
      var prefix := steps[..|steps| - 1];
      assert forall i :: 0 <= i < |prefix| ==> prefix[..i] == steps[..i] && prefix[i] == steps[i];
      NetRunKeeps(cat, hasDb, prefix);
      NetStepKeeps(cat, NetRun(Opening(hasDb), prefix), steps[|steps| - 1]);
    }
  }

  function Opening(hasDb: bool): Net {
    Net(EMPTY, Gate(map[], map[], hasDb, multiset{}, multiset{}), {})
  }

  // ---------- confluence ----------

  /** The step brings the merchant a success notice of the gateway for this order, inside the time window. */
  ghost predicate SuccessFor(net: Net, s: NetStep, no: string) {
    && (s.Deliver? || s.Query?) && MerchantStep(net, s).Some?
    && (var step := MerchantStep(net, s).value;
        step.Notice? && step.cb.no == no && step.cb.paid && WellFormed(step.cb, step.now))
  }

  ghost function NoticeReply(net: Net, s: NetStep): Result<bool>
    requires MerchantStep(net, s).Some? && MerchantStep(net, s).value.Notice?
  {
    var step := MerchantStep(net, s).value;
    Reply(HandleCallback(net.db, step.channel, step.cb, step.signed, step.now))
  }

  /** Both routes, a notice and a query, carry the same channel, amount and trade number. */
  lemma SuccessCarries(cat: Catalog, net: Net, s: NetStep, no: string)
    requires GateOk(net.db, net.gate) && NetLegal(cat, net, s) && SuccessFor(net, s, no)
    ensures no in net.db.orders
    ensures var step := MerchantStep(net, s).value;
            var o := net.db.orders[no];
            && step.channel == o.channel && step.signed && step.cb.amount == o.amount
            && step.cb.tradeNo == TradeNumber(true, no)
  {
  }

  lemma OwnNumber(db: Db, no: string)
    requires Inv(db) && TradesOk(db) && no in db.orders && db.orders[no].tradeNo.None?
    ensures !TradeTaken(db, TradeNumber(true, no))
  {
    hide Inv;
    forall n | n in db.orders
      ensures db.orders[n].tradeNo != Some(TradeNumber(true, no))
    {
      assert TradeNumber(true, n)[1..] == n && TradeNumber(true, no)[1..] == no;
    }
  }

  /**
   * What a success notice does is decided by the order's status alone: it pays an open or closed order, is ignored once
   * the order is paid with the gateway's number, conflicts exactly when MockConfirm paid it first, and is refused
   * otherwise.
   */
  lemma SuccessNotice(cat: Catalog, net: Net, s: NetStep, no: string)
    requires NetInv(net) && NetLegal(cat, net, s) && SuccessFor(net, s, no)
    ensures no in net.db.orders
    ensures var o := net.db.orders[no];
            var step := MerchantStep(net, s).value;
            if o.status == Paid then
              if o.tradeNo == Some(TradeNumber(true, no))
              then NoticeReply(net, s) == Ok(false) && Apply(net.db, step) == net.db
              else NoticeReply(net, s) == Err(ErrTradeConflict) && o.tradeNo.Some? && FromMock(o.tradeNo.value)
            else if o.status in {Paying, Closed} then
              && NoticeReply(net, s) == Ok(true)
              && Apply(net.db, step) == Credited(net.db, o.channel, step.cb, step.now)
              && no in Apply(net.db, step).orders
              && Apply(net.db, step).orders[no] == PaidOrder(o, TradeNumber(true, no), step.now)
            else NoticeReply(net, s) == Err(ErrOrderClosed)
  {
    hide Inv, GateOk, NetLegal, MerchantStep, WellFormed, TradeNumber, FromMock, TradeTaken, SplitFee, PostPay,
      KnownChannel, OrderOk;
    SuccessCarries(cat, net, s, no);
    OrderRowOk(net.db, no);
    OpenHasNoTrade(net.db.orders[no]);
    if net.db.orders[no].tradeNo.None? {
      OwnNumber(net.db, no);
    }
  }

  lemma OpenHasNoTrade(o: PayOrder)
    requires OrderOk(o)
    ensures o.tradeNo.Some? <==> WasCredited(o)
    ensures KnownChannel(o.channel) && o.status != Created
  {
  }

  /**
   * The only steps that can keep a successful trade from ending in the one paid order: a reversal that goes through, a
   * valid failure notice while the order is still paying, and MockConfirm paying an order that is still open or closed.
   */
  ghost predicate Upsets(net: Net, s: NetStep, no: string)
    requires no in net.db.orders
  {
    MerchantStep(net, s).Some? &&
    match MerchantStep(net, s).value
    case ReverseStep(account, n, chargeback, now) => n == no && Reverse(net.db, account, n, chargeback, now).Commit?
    case Notice(channel, cb, _, now) =>
      cb.no == no && WellFormed(cb, now) && channel == net.db.orders[no].channel &&
      (if cb.paid then s.Mock? && net.db.orders[no].status in {Paying, Closed} else net.db.orders[no].status == Paying)
    case _ => false
  }

  ghost predicate Calm(net: Net, s: NetStep, no: string) {
    no in net.db.orders && !Upsets(net, s, no)
  }

  ghost predicate CalmRun(net: Net, steps: seq<NetStep>, no: string) {
    forall i :: 0 <= i < |steps| ==> Calm(NetRun(net, steps[..i]), steps[i], no)
  }

  /** The success notices for the order that arrive along a run. */
  ghost function Successes(net: Net, steps: seq<NetStep>, no: string): nat {
    if steps == [] then 0
    else
      var prefix, s := steps[..|steps| - 1], steps[|steps| - 1];
      Successes(net, prefix, no) + (if SuccessFor(NetRun(net, prefix), s, no) then 1 else 0)
  }

  /** How many of them are answered "credited", and how many with an error. */
  ghost function Answers(net: Net, steps: seq<NetStep>, no: string): (r: (nat, nat)) {
    if steps == [] then (0, 0)
    else
      var prefix, s := steps[..|steps| - 1], steps[|steps| - 1];
      var before := Answers(net, prefix, no);
      if !SuccessFor(NetRun(net, prefix), s, no) then before
      else
        var reply := NoticeReply(NetRun(net, prefix), s);
        (before.0 + (if reply == Ok(true) then 1 else 0), before.1 + (if reply.Err? then 1 else 0))
  }

  /** A step that is neither a notice for the order nor its reversal leaves it open, or paid as it was. */
  lemma CalmOther(db: Db, step: Step, no: string)
    requires Inv(db) && no in db.orders
    requires !(step.Notice? && step.cb.no == no) && !(step.ReverseStep? && step.no == no)
    ensures no in Apply(db, step).orders
    ensures db.orders[no].status in {Paying, Closed} ==> Apply(db, step).orders[no].status in {Paying, Closed}
    ensures db.orders[no].status == Paid ==> Apply(db, step).orders[no].status == Paid
    ensures db.orders[no].tradeNo == Apply(db, step).orders[no].tradeNo
  {
    hide Inv, HandleCallback, Edge, Rank, SameTerms;
    OrderRowOk(db, no);
    match step
    case Notice(channel, cb, signed, now) => OtherNotice(db, channel, cb, signed, now, no);
    case _ => CalmOwn(db, step, no);
  }

  lemma OtherNotice(db: Db, channel: string, cb: Callback, signed: bool, now: Time, no: string)
    requires no in db.orders && cb.no != no
    ensures no in After(db, HandleCallback(db, channel, cb, signed, now)).orders
    ensures After(db, HandleCallback(db, channel, cb, signed, now)).orders[no] == db.orders[no]
  {
    hide TradeTaken, PostPay, SplitFee, WellFormed, PaidOrder;
  }

  lemma CalmOwn(db: Db, step: Step, no: string)
    requires no in db.orders && OrderOk(db.orders[no]) && !step.Notice? && !(step.ReverseStep? && step.no == no)
    ensures no in Apply(db, step).orders
    ensures db.orders[no].status in {Paying, Closed} ==> Apply(db, step).orders[no].status in {Paying, Closed}
    ensures db.orders[no].status == Paid ==> Apply(db, step).orders[no].status == Paid
    ensures db.orders[no].tradeNo == Apply(db, step).orders[no].tradeNo
  {
    hide OrderOk, InsertRecharge, Reverse, SettleOne, CommitGift, PayWithdraw, RequestWithdraw, MarkPaying,
        CloseIfExpired,
      HandleCallback, After;
    match step
    case Recharge(n, o) => RechargeKeepsRow(db, n, o, no);
    case Confirm(n, seen) => ConfirmKeepsRow(db, n, seen, no);
    case Expire(n, copy, now) => ExpireKeepsRow(db, n, copy, now, no);
    case ReverseStep(account, n, chargeback, now) => OtherReverse(db, account, n, chargeback, now, no);
    case SettleStep(n, now) => SettleKeepsStatus(db, n, now, no);
    case SendGift(n, g) => GiftWritesNoOrder(db, n, g);
    case Withdraw(account, diamonds, n, now) => FreezeWritesNoOrder(db, account, diamonds, n, now);
    case Payout(n, now) => PayoutWritesNoOrder(db, n, now);
  }

  lemma ConfirmKeepsRow(db: Db, n: string, seen: Status, no: string)
    requires no in db.orders
    ensures var d := MarkPaying(db, n, seen);
            && no in d.orders && d.orders[no].tradeNo == db.orders[no].tradeNo
            && (d.orders[no].status == db.orders[no].status
                || (db.orders[no].status in {Created, Paying} && d.orders[no].status == Paying))
  {
  }

  lemma ExpireKeepsRow(db: Db, n: string, copy: PayOrder, now: Time, no: string)
    requires no in db.orders
    ensures var d := CloseIfExpired(db, n, copy, now);
            && no in d.orders && d.orders[no].tradeNo == db.orders[no].tradeNo
            && (d.orders[no].status == db.orders[no].status
                || (db.orders[no].status in {Created, Paying} && d.orders[no].status == Closed))
  {
  }

  lemma RechargeKeepsRow(db: Db, n: string, o: PayOrder, no: string)
    requires no in db.orders
    ensures var d := After(db, InsertRecharge(db, n, o)); no in d.orders && d.orders[no] == db.orders[no]
  {
    hide OrderKeyTaken;
  }

  lemma OtherReverse(db: Db, account: AccountId, n: string, chargeback: bool, now: Time, no: string)
    requires no in db.orders && n != no
    ensures var d := After(db, Reverse(db, account, n, chargeback, now));
            no in d.orders && d.orders[no] == db.orders[no]
  {
    hide PostReverse, ReversedBook;
  }

  lemma SettleKeepsStatus(db: Db, n: string, now: Time, no: string)
    requires no in db.orders
    ensures var d := After(db, SettleOne(db, n, now));
            && no in d.orders && d.orders[no].status == db.orders[no].status
            && d.orders[no].tradeNo == db.orders[no].tradeNo
  {
    hide PostSettle;
  }

  lemma GiftWritesNoOrder(db: Db, n: string, g: GiftOrder)
    ensures After(db, CommitGift(db, n, g)).orders == db.orders
  {
    hide GiftKeyTaken, WalletOf;
  }

  lemma FreezeWritesNoOrder(db: Db, account: AccountId, diamonds: int, n: string, now: Time)
    ensures After(db, RequestWithdraw(db, account, diamonds, n, now)).orders == db.orders
  {
    hide WalletOf;
  }

  lemma PayoutWritesNoOrder(db: Db, n: string, now: Time)
    ensures After(db, PayWithdraw(db, n, now)).orders == db.orders
  {
    hide WalletOf, BookOf;
  }

  /** How the order stands after the given number of success notices, compared with how it began. */
  ghost predicate Stands(first: PayOrder, db: Db, no: string, successes: nat) {
    && no in db.orders && SameTerms(first, db.orders[no])
    && (successes == 0 ==> db.orders[no].status in {Paying, Closed})
    && (successes > 0 ==> db.orders[no].status == Paid && db.orders[no].tradeNo == Some(TradeNumber(true, no)))
  }

  /** A notice or reversal of the order that neither pays nor upsets it changes nothing at all. */
  lemma HarmlessStep(net: Net, s: NetStep, no: string)
    requires Inv(net.db) && no in net.db.orders && net.db.orders[no].status in {Paying, Closed, Paid}
    requires (s.Other? ==> !s.step.Notice?) && MerchantStep(net, s).Some? && Calm(net, s, no) && !SuccessFor(net, s, no)
    requires var step := MerchantStep(net, s).value;
             (step.Notice? && step.cb.no == no) || (step.ReverseStep? && step.no == no)
    ensures Apply(net.db, MerchantStep(net, s).value) == net.db
  {
    hide Inv, WellFormed, TradeNumber, HandleCallback, Reverse, MerchantStep, Apply;
    var step := MerchantStep(net, s).value;
    if step.Notice? {
      ApplyNotice(net.db, step);
      NoticeOrigin(net, s);
      IgnoredNotice(net.db, step.channel, step.cb, step.signed, step.now);
    } else {
      ApplyReversal(net.db, step);
    }
  }

  lemma NoticeOrigin(net: Net, s: NetStep)
    requires MerchantStep(net, s).Some? && MerchantStep(net, s).value.Notice? && (s.Other? ==> !s.step.Notice?)
    ensures s.Deliver? || s.Query? || s.Mock?
  {
  }

  lemma ApplyReversal(db: Db, step: Step)
    requires step.ReverseStep?
    ensures Apply(db, step) == After(db, Reverse(db, step.account, step.no, step.chargeback, step.now))
  {
  }

  lemma IgnoredNotice(db: Db, channel: string, cb: Callback, signed: bool, now: Time)
    requires cb.no in db.orders
    requires var o := db.orders[cb.no];
             !WellFormed(cb, now) || channel != o.channel ||
                 (if cb.paid then o.status == Paid else o.status in {Paid, Closed})
    ensures After(db, HandleCallback(db, channel, cb, signed, now)) == db
  {
    hide WellFormed, TradeTaken, Credited;
  }

  lemma ConfluenceStep(cat: Catalog, net: Net, s: NetStep, no: string, first: PayOrder, successes: nat)
    requires CatalogOk(cat) && NetInv(net) && NetLegal(cat, net, s) && Calm(net, s, no) &&
             Stands(first, net.db, no, successes)
    ensures Stands(first, ApplyNet(net, s).db, no, successes + (if SuccessFor(net, s, no) then 1 else 0))
    ensures SuccessFor(net, s, no) ==> NoticeReply(net, s) == Ok(successes == 0)
  {
    hide Inv, GateOk, NetLegal, MerchantStep, WellFormed, TradeNumber, FromMock, HandleCallback, Apply, Credited,
      GateStep, SplitFee, Calm;
    if MerchantStep(net, s).Some? {
      var step := MerchantStep(net, s).value;
      TermsStay(net.db, step, no);
      if SuccessFor(net, s, no) {
        SuccessNotice(cat, net, s, no);
      } else if (step.Notice? && step.cb.no == no) || (step.ReverseStep? && step.no == no) {
        LegalOther(cat, net, s);
        HarmlessStep(net, s, no);
      } else {
        CalmOther(net.db, step, no);
      }
    }
  }

  lemma LegalOther(cat: Catalog, net: Net, s: NetStep)
    requires NetLegal(cat, net, s)
    ensures s.Other? ==> !s.step.Notice?
  {
  }

  /**
   * However the notices, retries and query compensations for one successful trade are delayed, repeated and interleaved
   * with everything that does not upset the order, none is refused, exactly one credits, and the order ends paid with
   * its own terms and the gateway's number.
   */
  lemma {:induction false} Confluence(cat: Catalog, net: Net, steps: seq<NetStep>, no: string)
    requires CatalogOk(cat) && NetInv(net) && NetLegalRun(cat, net, steps) && CalmRun(net, steps, no)
    requires no in net.db.orders && net.db.orders[no].status in {Paying, Closed}
    ensures var n := Successes(net, steps, no);
            && NetInv(NetRun(net, steps)) && Stands(net.db.orders[no], NetRun(net, steps).db, no, n)
            && Answers(net, steps, no) == (if n > 0 then 1 else 0, 0)
  {
    hide NetInv, NetLegal, Calm, Stands, ApplyNet, SuccessFor, NoticeReply;
    if steps == [] {
      StartsOpen(net.db, no);
    } else {
      var prefix, s := steps[..|steps| - 1], steps[|steps| - 1];
      PrefixRun(cat, net, steps, no);
      Confluence(cat, net, prefix, no);
      NetStepKeeps(cat, NetRun(net, prefix), s);
      ConfluenceStep(cat, NetRun(net, prefix), s, no, net.db.orders[no], Successes(net, prefix, no));
    }
  }

  lemma StartsOpen(db: Db, no: string)
    requires no in db.orders && db.orders[no].status in {Paying, Closed}
    ensures Stands(db.orders[no], db, no, 0)
  {
  }

  lemma PrefixRun(cat: Catalog, net: Net, steps: seq<NetStep>, no: string)
    requires NetLegalRun(cat, net, steps) && CalmRun(net, steps, no) && steps != []
    ensures var prefix := steps[..|steps| - 1];
            && NetLegalRun(cat, net, prefix) && CalmRun(net, prefix, no)
            && NetLegal(cat, NetRun(net, prefix), steps[|steps| - 1])
            && Calm(NetRun(net, prefix), steps[|steps| - 1], no)
  {
    hide NetLegal, Calm, NetRun;
    var prefix := steps[..|steps| - 1];
    forall i | 0 <= i < |prefix|
      ensures prefix[..i] == steps[..i] && prefix[i] == steps[i]
    {
    }
  }

  /** An order without the marks of when it was paid and how far it has been settled. */
  function Essence(o: PayOrder): PayOrder {
    o.(paidAt := None, paidAfterClose := false, settle := SettlePending, settleAt := None)
  }

  /**
   * The end of a confluent run: once a success notice has arrived, whichever and however many, the order is the one
   * that the first notice alone would have made of it, and the ledger holds one recharge entry of its coins; before,
   * none.
   */
  lemma ConfluentCredit(cat: Catalog, net: Net, steps: seq<NetStep>, no: string)
    requires CatalogOk(cat) && NetInv(net) && NetLegalRun(cat, net, steps) && CalmRun(net, steps, no)
    requires no in net.db.orders && net.db.orders[no].status in {Paying, Closed}
    ensures var first := net.db.orders[no];
            var db := NetRun(net, steps).db;
            var k := LedgerKey(first.account, Credit, BizRecharge, no);
            && no in db.orders && SameTerms(first, db.orders[no])
            && LedgerTotal(db.ledger, RowsAt(k)) == Answers(net, steps, no).0
            && LedgerTotal(db.ledger, AmountAt(k)) == Answers(net, steps, no).0 * first.coins
            && (Successes(net, steps, no) > 0 ==>
                  Essence(db.orders[no]) == Essence(PaidOrder(first, TradeNumber(true, no), 0)))
  {
    hide Inv, NetLegalRun, CalmRun, LedgerTotal, NetRun, Successes, Answers, SplitFee, TradeNumber;
    Confluence(cat, net, steps, no);
    OrderRowOk(net.db, no);
    OrderRowOk(NetRun(net, steps).db, no);
    RechargeRow(NetRun(net, steps).db, no);
  }

  /**
   * A trade that was closed before anyone paid carries no trade number, so the failure notice that a query builds from
   * it is refused and the order keeps its status; one that the buyer cancelled carries a number and is accepted.
   */
  lemma ReleasedHoldIsNotReported(cat: Catalog, net: Net, s: NetStep)
    requires NetInv(net) && NetLegal(cat, net, s) && s.Query? && s.nonce != "" && s.now != 0
    requires MerchantStep(net, s).Some? && TradeOf(net.gate, s.no).Some? &&
             TradeOf(net.gate, s.no).value.status == TradeClosed
    ensures NoticeReply(net, s) == Err(ErrBadBody) <==> TradeOf(net.gate, s.no).value.tradeNo == ""
    ensures TradeOf(net.gate, s.no).value.tradeNo == "" ==> ApplyNet(net, s).db == net.db
  {
    hide Inv, GateStep, OrderOk, MarkFailed, CreditOrder, HandleCallback, NetLegal, MerchantStep, WellFormed,
      KnownChannel;
    var no := QueriedOrder(cat, net, s);
    OrderRowOk(net.db, no);
    OpenHasNoTrade(net.db.orders[s.no]);
    QueryShape(cat, net, s);
    var step := MerchantStep(net, s).value;
    FailureReply(net.db, step.channel, step.cb, step.now);
    ApplyNotice(net.db, step);
  }

  lemma QueriedOrder(cat: Catalog, net: Net, s: NetStep) returns (no: string)
    requires NetLegal(cat, net, s) && s.Query?
    ensures no == s.no && no in net.db.orders
  {
    no := s.no;
  }

  /** The notice that a query builds from a closed trade. */
  lemma QueryShape(cat: Catalog, net: Net, s: NetStep)
    requires NetInv(net) && NetLegal(cat, net, s) && s.Query? && s.nonce != "" && s.now != 0
    requires s.no in net.db.orders && OrderOk(net.db.orders[s.no])
    requires MerchantStep(net, s).Some? && TradeOf(net.gate, s.no).Some? &&
             TradeOf(net.gate, s.no).value.status == TradeClosed
    ensures var step := MerchantStep(net, s).value;
            && step.Notice? && step.signed && !step.cb.paid && step.channel == net.db.orders[s.no].channel
            && (WellFormed(step.cb, step.now) <==> TradeOf(net.gate, s.no).value.tradeNo != "")
  {
    hide Inv, TradesOk, SplitFee, KnownChannel;
  }

  lemma FailureReply(db: Db, channel: string, cb: Callback, now: Time)
    requires KnownChannel(channel) && !cb.paid
    ensures Reply(HandleCallback(db, channel, cb, true, now)) == Err(ErrBadBody) <==> !WellFormed(cb, now)
    ensures !WellFormed(cb, now) ==> After(db, HandleCallback(db, channel, cb, true, now)) == db
  {
    hide KnownChannel, WellFormed, CreditOrder;
  }

  /** The step's notice is refused as malformed, and nothing changes at the merchant. */
  ghost predicate Refused(net: Net, s: NetStep) {
    && MerchantStep(net, s).Some? && MerchantStep(net, s).value.Notice?
    && NoticeReply(net, s) == Err(ErrBadBody) && ApplyNet(net, s).db == net.db
  }

  // ---------- notices do arrive ----------

  /**
   * A query builds a notice if and only if the copy is open and the gateway reports the trade, with its amount and
   * channel, as paid or closed; the notice carries the trade's number and says whether it was paid.
   */
  lemma QueryBuilds(g: Gate, no: string, copy: PayOrder, now: Time, nonce: string)
    ensures var r := Compensation(g, no, copy, now, nonce);
            var found := TradeOf(g, no);
            && (r.Some? <==>
                  && (copy.status == Created || copy.status == Paying) && found.Some?
                  && found.value.amount == copy.amount && found.value.channel == copy.channel
                  && (found.value.status == TradeSuccess || found.value.status == TradeClosed))
            && (r.Some? ==>
                  && r.value.no == no && r.value.tradeNo == found.value.tradeNo && r.value.amount == copy.amount
                  && (r.value.paid <==> found.value.status == TradeSuccess)
                  && r.value.timestamp == now && r.value.nonce == nonce)
  {
  }

  /**
   * What a success notice leaves of an order that was still open or closed: paid, under the gateway's number for it.
   */
  ghost predicate PaidUp(net: Net, s: NetStep, no: string) {
    && SuccessFor(net, s, no) && NoticeReply(net, s) == Ok(true)
    && no in net.db.orders && no in ApplyNet(net, s).db.orders
    && var o := ApplyNet(net, s).db.orders[no];
       && SameTerms(net.db.orders[no], o) && o.status == Paid && o.tradeNo == Some("T" + no)
       && WalletOf(ApplyNet(net, s).db.wallets, o.account).coins == WalletOf(net.db.wallets, o.account).coins + o.coins
  }

  /**
   * Even if every notification is lost, the first query of a paid trade pays the order: it builds a success notice,
   * which is answered "credited".
   */
  lemma QueryOfPaidTradePays(cat: Catalog, net: Net, s: NetStep)
    requires NetInv(net) && NetLegal(cat, net, s) && s.Query? && s.nonce != "" && s.now != 0
    requires s.copy.status in {Created, Paying} && net.db.orders[s.no].status in {Paying, Closed}
    requires TradeOf(net.gate, s.no).Some? && TradeOf(net.gate, s.no).value.status == TradeSuccess
    ensures PaidUp(net, s, s.no)
  {
    hide Inv, TradesOk, OrderOk, SplitFee, KnownChannel, PostPay, HandleCallback, Apply, PaidUp;
    OrderRowOk(net.db, s.no);
    OpenTerms(net.db.orders[s.no]);
    SuccessPays(cat, net, s, s.no);
  }

  /** A delivered success notice inside the window does the same. */
  lemma DeliveredSuccessPays(cat: Catalog, net: Net, s: NetStep)
    requires NetInv(net) && NetLegal(cat, net, s) && s.Deliver? && s.paid && s.nonce != "" && s.timestamp != 0
    requires -300 <= s.now - s.timestamp <= 300
    requires s.no in net.db.orders && net.db.orders[s.no].status in {Paying, Closed}
    ensures PaidUp(net, s, s.no)
  {
    hide Inv, TradesOk, OrderOk, SplitFee, KnownChannel, PostPay, HandleCallback, Apply, PaidUp;
    OrderRowOk(net.db, s.no);
    OpenTerms(net.db.orders[s.no]);
    SuccessPays(cat, net, s, s.no);
  }

  lemma OpenTerms(o: PayOrder)
    requires OrderOk(o)
    ensures o.amount > 0 && KnownChannel(o.channel)
  {
  }

  lemma SuccessPays(cat: Catalog, net: Net, s: NetStep, no: string)
    requires NetInv(net) && NetLegal(cat, net, s) && SuccessFor(net, s, no)
    requires no in net.db.orders && net.db.orders[no].status in {Paying, Closed}
    ensures PaidUp(net, s, no)
  {
    hide Inv, GateOk, TradesOk, NetLegal, MerchantStep, WellFormed, SplitFee, PostPay, HandleCallback, Apply, GateStep;
    SuccessNotice(cat, net, s, no);
    assert TradeNumber(true, no) == "T" + no;
  }

  /** The notice that MockConfirm sends itself credits an order of the mock channel, whatever the gateway knows. */
  lemma MockConfirmPays(cat: Catalog, net: Net, s: NetStep)
    requires NetInv(net) && NetLegal(cat, net, s) && s.Mock? && s.no != "" && s.nonce != "" && s.now != 0
    requires net.db.orders[s.no].channel == "mock" && net.db.orders[s.no].status in {Paying, Closed}
    requires forall n :: n in net.db.orders ==> net.db.orders[n].tradeNo != Some("M" + s.token)
    ensures NoticeReply(net, s) == Ok(true)
  {
    hide Inv, TradesOk, GateOk, OrderOk, HandleCallback, Apply;
    OrderRowOk(net.db, s.no);
    OpenTerms(net.db.orders[s.no]);
    var step := MerchantStep(net, s).value;
    PayOutcomes.CreditsIff(net.db, step.channel, step.cb, true, step.now);
  }

  /** A delivered failure notice inside the window fails an order that is still paying, and changes no other. */
  lemma DeliveredFailureFails(cat: Catalog, net: Net, s: NetStep)
    requires NetInv(net) && NetLegal(cat, net, s) && s.Deliver? && !s.paid && s.nonce != "" && s.timestamp != 0
    requires -300 <= s.now - s.timestamp <= 300 && s.no in net.db.orders
    ensures ApplyNet(net, s).db
            == if net.db.orders[s.no].status == Paying
               then net.db.(orders := net.db.orders[s.no := net.db.orders[s.no].(status := Failed)]) else net.db
  {
    hide Inv, TradesOk, OrderOk, SplitFee, KnownChannel, CreditOrder, HandleCallback;
    OrderRowOk(net.db, s.no);
    OpenTerms(net.db.orders[s.no]);
    OpenHasNoTrade(net.db.orders[s.no]);
    var step := MerchantStep(net, s).value;
    ApplyNotice(net.db, step);
    FailureWrites(net.db, step.channel, step.cb, step.now);
  }

  lemma FailureWrites(db: Db, channel: string, cb: Callback, now: Time)
    requires KnownChannel(channel) && !cb.paid && WellFormed(cb, now) && cb.no in db.orders
    requires db.orders[cb.no].channel == channel && db.orders[cb.no].amount == cb.amount
    requires db.orders[cb.no].status != Created
    ensures After(db, HandleCallback(db, channel, cb, true, now))
            == if db.orders[cb.no].status == Paying
               then db.(orders := db.orders[cb.no := db.orders[cb.no].(status := Failed)]) else db
  {
    hide KnownChannel, WellFormed, CreditOrder;
  }

  // ---------- building runs ----------

  lemma RunExtends(cat: Catalog, net: Net, steps: seq<NetStep>, s: NetStep)
    requires NetLegalRun(cat, net, steps) && NetLegal(cat, NetRun(net, steps), s)
    ensures NetLegalRun(cat, net, steps + [s]) && NetRun(net, steps + [s]) == ApplyNet(NetRun(net, steps), s)
  {
    hide NetLegal, ApplyNet;
    var longer := steps + [s];
    assert longer[..|steps|] == steps;
    forall i | 0 <= i < |longer|
      ensures NetLegal(cat, NetRun(net, longer[..i]), longer[i])
    {
      if i < |steps| {
        assert longer[..i] == steps[..i];
      }
    }
  }

  /** The requests behind a close, refund or chargeback: look the trade up, write the memory, save the row. */
  function MutateSteps(g: Gate, no: string, next: TradeStatus): seq<NetStep>
    requires TradeOf(g, no).Some?
  {
    var t := TradeOf(g, no).value;
    [Read(no), Mutate(no, next, t)]
    + (if Guarded(t, next) == Changed && g.hasDb && !Protects(g.memory, no, t.(status := next))
       then [Save(no, t.(status := next))] else [])
  }

  /** Done one after the other, they leave what Mutated says. */
  lemma MutateIsRun(cat: Catalog, net: Net, before: seq<NetStep>, no: string, next: TradeStatus)
    requires NetLegalRun(cat, net, before) && next in {TradeClosed, TradeRefund, TradeChargeback}
    requires TradeOf(NetRun(net, before).gate, no).Some?
    ensures var now := NetRun(net, before);
            var steps := before + MutateSteps(now.gate, no, next);
            NetLegalRun(cat, net, steps) && NetRun(net, steps) == now.(gate := Mutated(now.gate, no, next).0)
  {
    hide NetRun, NetLegalRun, ApplyNet, GateStep, TradeOf, Protects;
    var now := NetRun(net, before);
    var t := TradeOf(now.gate, no).value;
    var after := t.(status := next);
    RunExtends(cat, net, before, Read(no));
    GateOnly(now, Read(no));
    var read := ApplyNet(now, Read(no));
    ReadOnly(now, no);
    RunExtends(cat, net, before + [Read(no)], Mutate(no, next, t));
    GateOnly(read, Mutate(no, next, t));
    MutateOnly(now, read, no, next);
    var steps := before + [Read(no)] + [Mutate(no, next, t)];
    if Guarded(t, next) == Changed && now.gate.hasDb && !Protects(now.gate.memory, no, after) {
      RunExtends(cat, net, steps, Save(no, after));
      GateOnly(NetRun(net, steps), Save(no, after));
      SaveOnly(NetRun(net, steps), no, after);
      assert before + MutateSteps(now.gate, no, next) == steps + [Save(no, after)];
    } else {
      assert before + MutateSteps(now.gate, no, next) == steps;
    }
  }

  lemma GateOnly(net: Net, s: NetStep)
    requires s.Submit? || s.Restart? || s.Show? || s.Save? || s.Read? || s.Mutate?
    ensures ApplyNet(net, s).db == net.db && ApplyNet(net, s).gate == GateStep(net, s)
    ensures !s.Submit? ==> ApplyNet(net, s).sent == net.sent
  {
  }

  lemma ReadOnly(net: Net, no: string)
    requires TradeOf(net.gate, no).Some?
    ensures var m := (no, TradeOf(net.gate, no).value);
            GateStep(net, Read(no)) == net.gate.(lookups := net.gate.lookups + multiset{m})
            && m in GateStep(net, Read(no)).lookups
  {
  }

  lemma MutateOnly(net: Net, read: Net, no: string, next: TradeStatus)
    requires TradeOf(net.gate, no).Some? && next in {TradeClosed, TradeRefund, TradeChargeback}
    requires read.gate == net.gate.(lookups := net.gate.lookups + multiset{(no, TradeOf(net.gate, no).value)})
    ensures var t := TradeOf(net.gate, no).value;
            GateStep(read, Mutate(no, next, t))
            == if Guarded(t, next) == Changed then Stored(net.gate, no, t.(status := next)) else net.gate
  {
    hide TradeOf;
    var m := multiset{(no, TradeOf(net.gate, no).value)};
    assert net.gate.lookups + m - m == net.gate.lookups;
  }

  lemma SaveOnly(net: Net, no: string, t: Trade)
    ensures GateStep(net, Save(no, t)) == Landed(net.gate, no, t)
  {
  }

  /**
   * The order expires and its trade is closed, and then a query gets its answer that still works from the copy of the
   * order read before.
   */
  function StaleQuery(g: Gate, copy: PayOrder, no: string, nonce: string): seq<NetStep>
    requires TradeOf(g, no).Some?
  {
    [Other(Expire(no, copy, copy.expireAt + 1))] + MutateSteps(g, no, TradeClosed)
    + [Query(no, copy, nonce, copy.expireAt + 1)]
  }

  /**
   * How such a notice comes about. Only the reply differs from that of a cancelled trade: the order is closed already
   * and stays so.
   */
  lemma StaleCopyIsRefused(cat: Catalog, net: Net, no: string, nonce: string)
    requires NetInv(net) && no in net.db.orders && net.db.orders[no].status == Paying
    requires TradeOf(net.gate, no).Some? && TradeOf(net.gate, no).value.status == TradeWait
    requires no in net.gate.memory ==> net.gate.memory[no].status == TradeWait
    ensures var steps := StaleQuery(net.gate, net.db.orders[no], no, nonce);
            var n := |steps| - 1;
            && NetLegalRun(cat, net, steps) && Refused(NetRun(net, steps[..n]), steps[n])
            && NetRun(net, steps[..n]).db.orders == net.db.orders[no := net.db.orders[no].(status := Closed)]
  {
    hide NetRun, NetLegalRun, ApplyNet, Inv, TradesOk, GateStep, MerchantStep, Mutated, Refused, TradeOf, GateOk,
        OrderOk,
      KnownChannel, NetLegal, SameTerms, MutateSteps, Protects;
    var copy := net.db.orders[no];
    var late := copy.expireAt + 1;
    var steps := StaleQuery(net.gate, copy, no, nonce);
    var expire := Other(Expire(no, copy, late));
    LegalClosing(cat, net, no, copy, nonce, late);
    EmptyRun(cat, net);
    RunExtends(cat, net, [], expire);
    assert [] + [expire] == [expire];
    ExpireOnly(net, no, copy, late);
    var expired := NetRun(net, [expire]);
    MutateIsRun(cat, net, [expire], no, TradeClosed);
    var closing := [expire] + MutateSteps(net.gate, no, TradeClosed);
    var closed := NetRun(net, closing);
    WaitingTrade(net, no);
    CloseOnly(expired.gate, no);
    LegalClosing(cat, closed, no, copy, nonce, late);
    RunExtends(cat, net, closing, Query(no, copy, nonce, late));
    assert steps == closing + [Query(no, copy, nonce, late)] && steps[..|steps| - 1] == closing;
    OrderRowOk(net.db, no);
    OpenHasNoTrade(copy);
    EmptyNotice(closed, no, copy, nonce, late);
  }

  lemma EmptyRun(cat: Catalog, net: Net)
    ensures NetLegalRun(cat, net, []) && NetRun(net, []) == net
  {
  }

  lemma LegalClosing(cat: Catalog, net: Net, no: string, copy: PayOrder, nonce: string, late: Time)
    ensures NetLegal(cat, net, Other(Expire(no, copy, late)))
    ensures no in net.db.orders && SameTerms(copy, net.db.orders[no]) ==>
              NetLegal(cat, net, Query(no, copy, nonce, late))
  {
  }

  lemma WaitingTrade(net: Net, no: string)
    requires GateOk(net.db, net.gate) && no in net.db.orders
    requires TradeOf(net.gate, no).Some? && TradeOf(net.gate, no).value.status == TradeWait
    ensures TradeOf(net.gate, no) == Some(ShownTrade(net.db.orders[no].amount, net.db.orders[no].channel))
  {
  }

  lemma ExpireOnly(net: Net, no: string, copy: PayOrder, late: Time)
    requires no in net.db.orders && copy == net.db.orders[no] && copy.status == Paying && late > copy.expireAt
    ensures var d := ApplyNet(net, Other(Expire(no, copy, late)));
            && d.gate == net.gate && d.db == net.db.(orders := net.db.orders[no := copy.(status := Closed)])
            && SameTerms(copy, d.db.orders[no])
  {
  }

  lemma CloseOnly(g: Gate, no: string)
    requires TradeOf(g, no).Some? && TradeOf(g, no).value.status == TradeWait
    requires no in g.memory ==> g.memory[no].status == TradeWait
    ensures TradeOf(Mutated(g, no, TradeClosed).0, no) == Some(TradeOf(g, no).value.(status := TradeClosed))
  {
  }

  lemma EmptyNotice(net: Net, no: string, copy: PayOrder, nonce: string, now: Time)
    requires copy.status == Paying && KnownChannel(copy.channel)
    requires TradeOf(net.gate, no) == Some(Trade(copy.amount, copy.channel, TradeClosed, ""))
    ensures Refused(net, Query(no, copy, nonce, now))
  {
    hide CreditOrder, MarkFailed;
  }
}
