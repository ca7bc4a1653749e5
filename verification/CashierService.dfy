/** The gateway's trade table and its notification queue, proved against Gateway. */
module CashierService {
  import opened PayTypes
  import opened Gateway

  const MAX_ATTEMPTS := 20
  const FIRST_RETRY: Time := 2
  const NEXT_RETRY: Time := 5
  const TRIES := 3

  datatype NotifyStatus = NotifyNone | NotifyPending | NotifySent

  /** A row of gateway_trades: the trade, the money frozen for it and the state of its notification. */
  datatype Row = Row(trade: Trade, frozen: int, notify: NotifyStatus, paid: bool, attempts: nat, nextAt: Option<Time>)

  /** Money is frozen only while the buyer has not decided. */
  function FrozenOf(t: Trade): (fen: int) {
    if t.status == TradeWait then t.amount else 0
  }

  predicate RetryDue(r: Row, now: Time) {
    r.notify == NotifyPending && r.attempts < MAX_ATTEMPTS && (r.nextAt.None? || r.nextAt.value <= now)
  }

  /** The rows that a round of retries finds. */
  function DueRows(rows: map<string, Row>, hasDb: bool, now: Time): set<string> {
    set no | no in rows && hasDb && RetryDue(rows[no], now)
  }

  /** The row after one more attempt. */
  function Retried(r: Row, now: Time, delivered: bool): Row {
    if delivered then r.(attempts := r.attempts + 1, notify := NotifySent)
    else r.(attempts := r.attempts + 1, nextAt := Some(now + NEXT_RETRY))
  }

  /** A row as remember saves it: nothing to notify, no tries made. */
  function NewRow(t: Trade): Row {
    Row(t, FrozenOf(t), NotifyNone, false, 0, None)
  }

  function Enqueued(r: Row, paid: bool, now: Time): Row {
    r.(paid := paid, notify := NotifyPending, nextAt := Some(now + FIRST_RETRY))
  }

  /** The merchant accepts one of the tries at a notice. */
  predicate Delivered(accepted: nat -> bool) {
    exists i :: 0 <= i < 3 && accepted(i)
  }

  /** The notice that a row's retry sends. */
  function RowNotice(no: string, r: Row, now: Time, nonce: string): Callback {
    NoticeOf(no, r.trade.amount, r.paid, now, nonce)
  }

  /** Notices were sent for these rows, at least one each, and for no others. */
  ghost predicate SentFor(sent: seq<Callback>, rows: map<string, Row>, due: set<string>, now: Time,
                          nonce: string -> string) {
    && (forall cb :: cb in sent ==>
        cb.no in due && cb.no in rows && cb == RowNotice(cb.no, rows[cb.no], now, nonce(cb.no)))
    && (forall no :: no in due ==> no in rows && RowNotice(no, rows[no], now, nonce(no)) in sent)
  }

  lemma SentOneMore(sent: seq<Callback>, tried: seq<Callback>, rows: map<string, Row>, due: set<string>, no: string,
                    now: Time, nonce: string -> string)
    requires SentFor(sent, rows, due, now, nonce) && no in rows && tried != []
    requires forall cb :: cb in tried ==> cb == RowNotice(no, rows[no], now, nonce(no))
    ensures SentFor(sent + tried, rows, due + {no}, now, nonce)
  {
    assert tried[0] in tried;
  }

  function TradeRows(rows: map<string, Row>): map<string, Trade> {
    map no | no in rows :: rows[no].trade
  }

  class Cashier {
    var trades: map<string, Trade>
    var rows: map<string, Row>
    const hasDb: bool
    ghost var pending: multiset<(string, Trade)> // rows that requests have yet to save
    ghost var lookups: multiset<(string, Trade)> // trades that requests have read and will act on

    ghost function View(): Gate
      reads this
    {
      Gate(trades, TradeRows(rows), hasDb, pending, lookups)
    }

    ghost predicate Valid()
      reads this
    {
      forall no :: no in rows ==>
          && rows[no].frozen == (if rows[no].trade.status == TradeWait then rows[no].trade.amount else 0)
          && rows[no].attempts <= 20
    }

    constructor (hasDb: bool)
      ensures Valid() && View() == Gate(map[], map[], hasDb, multiset{}, multiset{})
    {
      trades, rows := map[], map[];
      pending, lookups := multiset{}, multiset{};
      this.hasDb := hasDb;
    }

    /** The part of remember under the mutex: keeps a successful trade from being overwritten. */
    method StoreTrade(no: string, t: Trade) returns (stored: bool)
      modifies `trades, `pending
      ensures View() == Stored(old(View()), no, t)
      ensures stored <==> !Protects(old(trades), no, t)
    {
      if no in trades && trades[no].status == TradeSuccess
         && t.status != TradeSuccess && t.status != TradeRefund && t.status != TradeChargeback
      {
        return false;
      }
      trades := trades[no := t];
      pending := if hasDb then pending + multiset{(no, t)} else pending;
      return true;
    }

    /**
     * The part after the mutex is released; saving a row resets its notification. Other requests may have run between.
     */
    method SaveTrade(no: string, t: Trade)
      requires Valid() && hasDb && (no, t) in pending
      modifies `rows, `pending
      ensures Valid()
      ensures View() == Landed(old(View()), no, t)
      ensures rows == old(rows)[no := NewRow(t)]
    {
      rows := rows[no := Row(t, FrozenOf(t), NotifyNone, false, 0, None)];
      pending := pending - multiset{(no, t)};
      assert TradeRows(rows) == TradeRows(old(rows))[no := t];
    }

    /** Both parts, when no other request runs between. */
    method Remember(no: string, t: Trade)
      requires Valid()
      modifies this
      ensures Valid()
      ensures View() == Gateway.Remember(old(View()), no, t)
      ensures rows == if !hasDb || Protects(old(trades), no, t) then old(rows) else old(rows)[no := NewRow(t)]
    {
      var stored := StoreTrade(no, t);
      if !stored || !hasDb {
        return;
      }
      SaveTrade(no, t);
    }

    /** The database row wins over the memory. */
    method TradeOf(no: string) returns (r: Option<Trade>)
      ensures r == Gateway.TradeOf(View(), no)
    {
      if hasDb {
        if no in rows {
          return Some(rows[no].trade);
        }
      }
      if no in trades {
        return Some(trades[no]);
      }
      return None;
    }

    method Submit(no: string, amount: int, channel: string, paid: bool)
      requires Valid()
      modifies this
      ensures Valid()
      ensures View() == Gateway.Remember(old(View()), no, SubmittedTrade(no, amount, channel, paid))
    {
      var tradeNo, status := "F" + no, TradeClosed;
      if paid {
        tradeNo, status := "T" + no, TradeSuccess;
      }
      Remember(no, Trade(amount, channel, status, tradeNo));
    }

    method MutateTrade(no: string, next: TradeStatus) returns (r: MutateReply)
      requires Valid()
      modifies this
      ensures Valid()
      ensures (View(), r) == Mutated(old(View()), no, next)
    {
      var found := TradeOf(no);
      if found.None? {
        return NotFound;
      }
      var trade := found.value;
      if next == TradeClosed && trade.status != TradeWait {
        return Unchanged(trade.status);
      }
      if (next == TradeRefund || next == TradeChargeback) && trade.status != TradeSuccess {
        return NotPaid;
      }
      Remember(no, trade.(status := next));
      return Changed;
    }

    /** Queues a notification that could not be delivered at once; the attempts made before still count. */
    method EnqueueNotify(no: string, paid: bool, now: Time)
      requires Valid()
      modifies this
      ensures Valid() && View() == old(View())
      ensures rows == if hasDb && no in old(rows)
        then old(rows)[no := Enqueued(old(rows)[no], paid, now)] else old(rows)
    {
      if !hasDb {
        return;
      }
      if no in rows {
        rows := rows[no := rows[no].(paid := paid, notify := NotifyPending, nextAt := Some(now + FIRST_RETRY))];
        assert TradeRows(rows) == TradeRows(old(rows));
      }
    }

    /** Sends one and the same signed notice until the merchant accepts it, three times at most. */
    method Notify(no: string, amount: int, paid: bool, now: Time, nonce: string, accepted: nat -> bool)
      returns (sent: seq<Callback>, ok: bool)
      ensures 1 <= |sent| <= 3
      ensures forall i :: 0 <= i < |sent| ==> sent[i] == NoticeOf(no, amount, paid, now, nonce)
      ensures forall i :: 0 <= i < |sent| - 1 ==> !accepted(i)
      ensures ok == accepted(|sent| - 1) && (!ok ==> |sent| == 3)
      ensures ok == Delivered(accepted)
    {
      var prefix := "T";
      if !paid {
        prefix := "F";
      }
      var body := Callback(no, prefix + no, amount, paid, now, nonce);
      sent, ok := [], false;
      for i := 0 to TRIES
        invariant |sent| == i && !ok
        invariant forall j :: 0 <= j < i ==> sent[j] == NoticeOf(no, amount, paid, now, nonce) && !accepted(j)
      {
        sent := sent + [body];
        if accepted(i) {
          ok := true;
          return;
        }
      }
    }

    /**
     * One round of retries: each due row is tried once, with a notice of its own trade, and nothing else is sent. A row
     * is not due after twenty tries since it was last saved; saving the trade again starts the count anew.
     */
    method RetryNotifies(now: Time, nonce: string -> string,
                         accepted: string -> nat -> bool) returns (sent: seq<Callback>)
      requires Valid()
      modifies this
      ensures Valid() && View() == old(View())
      ensures rows.Keys == old(rows).Keys
      ensures forall no :: no in rows ==>
                rows[no] == if no in DueRows(old(rows), hasDb, now)
                            then Retried(old(rows)[no], now, Delivered(accepted(no))) else old(rows)[no]
      ensures SentFor(sent, old(rows), DueRows(old(rows), hasDb, now), now, nonce)
    {
      hide TradeRows, RetryDue, Delivered, SentFor, Retried, RowNotice;
      sent := [];
      NothingSent(rows, now, nonce);
      if !hasDb {
        assert DueRows(rows, hasDb, now) == {};
        return;
      }
      var found := DueRows(rows, hasDb, now);
      var todo := found;
      assert found - todo == {};
      while todo != {}
        invariant Valid() && todo <= found && trades == old(trades) && pending == old(pending) &&
                  lookups == old(lookups)
        invariant rows.Keys == old(rows).Keys
        invariant forall no :: no in rows ==>
                    rows[no] == if no in found - todo
                                then Retried(old(rows)[no], now, Delivered(accepted(no))) else old(rows)[no]
        invariant SentFor(sent, old(rows), found - todo, now, nonce)
        decreases todo
      {
        var no :| no in todo;
        var tried := RetryOne(no, now, nonce(no), accepted);
        SentOneMore(sent, tried, old(rows), found - todo, no, now, nonce);
        assert found - todo + {no} == found - (todo - {no});
        sent := sent + tried;
        todo := todo - {no};
      }
      assert found - todo == found;
      RetriedTrades(old(rows), rows, found, now, accepted);
    }

    /** One row's retry: the notice is sent, and the row counts the try. */
    method RetryOne(no: string, now: Time, nonce: string, accepted: string -> nat -> bool) returns (sent: seq<Callback>)
      requires Valid() && no in rows && RetryDue(rows[no], now)
      modifies `rows
      ensures Valid()
      ensures rows == old(rows)[no := Retried(old(rows)[no], now, Delivered(accepted(no)))]
      ensures sent != []
      ensures forall cb :: cb in sent ==> cb == RowNotice(no, old(rows)[no], now, nonce)
    {
      var row := rows[no];
      var ok;
      sent, ok := Notify(no, row.trade.amount, row.paid, now, nonce, accepted(no));
      row := row.(attempts := row.attempts + 1);
      if ok {
        row := row.(notify := NotifySent);
      } else {
        row := row.(nextAt := Some(now + NEXT_RETRY));
      }
      rows := rows[no := row];
    }
  }

  lemma NothingSent(rows: map<string, Row>, now: Time, nonce: string -> string)
    ensures SentFor([], rows, {}, now, nonce)
  {
  }

  lemma RetriedTrades(r: map<string, Row>, s: map<string, Row>, due: set<string>, now: Time,
                      accepted: string -> nat -> bool)
    requires r.Keys == s.Keys
    requires forall no :: no in s ==> s[no] == if no in due then Retried(r[no], now, Delivered(accepted(no))) else r[no]
    ensures TradeRows(r) == TradeRows(s)
  {
    SameTrades(r, s);
  }

  lemma SameTrades(r: map<string, Row>, s: map<string, Row>)
    requires r.Keys == s.Keys && forall no :: no in s ==> r[no].trade == s[no].trade
    ensures TradeRows(r) == TradeRows(s)
  {
  }

  // ---------- the life of one notification ----------

  /**
   * A round sends notices for exactly the rows whose notice waits, was tried less than twenty times and is due, and
   * each says what was queued: the outcome, its number and the trade's amount.
   */
  lemma RoundSendsDue(sent: seq<Callback>, rows: map<string, Row>, hasDb: bool, now: Time, nonce: string -> string)
    requires SentFor(sent, rows, DueRows(rows, hasDb, now), now, nonce)
    ensures forall no :: (exists cb :: cb in sent && cb.no == no) <==>
              && hasDb && no in rows && rows[no].notify == NotifyPending && rows[no].attempts <= 19
              && (rows[no].nextAt == None || rows[no].nextAt.value <= now)
    ensures forall cb :: cb in sent ==>
              && cb.no in rows
              && (var r := rows[cb.no];
                  cb == Callback(cb.no, (if r.paid then "T" else "F") + cb.no, r.trade.amount, r.paid, now,
                                 nonce(cb.no)))
  {
    forall no | no in DueRows(rows, hasDb, now)
      ensures exists cb :: cb in sent && cb.no == no
    {
      assert RowNotice(no, rows[no], now, nonce(no)) in sent;
    }
  }

  /** A notice queued after its trade was saved comes due two seconds later and says what was queued. */
  lemma QueuedComesDue(no: string, t: Trade, paid: bool, at: Time, now: Time, nonce: string)
    ensures RetryDue(Enqueued(NewRow(t), paid, at), now) <==> at + 2 <= now
    ensures RowNotice(no, Enqueued(NewRow(t), paid, at), now, nonce)
         == Callback(no, (if paid then "T" else "F") + no, t.amount, paid, now, nonce)
  {
  }

  /** After a failed try it comes due again five seconds later, nineteen times; an accepted notice never does. */
  lemma TriedComesDue(r: Row, now: Time, later: Time)
    requires RetryDue(r, now)
    ensures RetryDue(Retried(r, now, false), later) <==> r.attempts <= 18 && now + 5 <= later
    ensures !RetryDue(Retried(r, now, true), later)
  {
  }


  /** What can happen to a row that is neither saved nor queued again: rounds of retries, each with its outcome. */
  datatype Round = Round(now: Time, delivered: bool)

  function AfterRound(r: Row, round: Round): Row {
    if RetryDue(r, round.now) then Retried(r, round.now, round.delivered) else r
  }

  function AfterRounds(r: Row, rounds: seq<Round>): Row {
    if rounds == [] then r else AfterRound(AfterRounds(r, rounds[..|rounds| - 1]), rounds[|rounds| - 1])
  }

  /** How many of the rounds found the row due. */
  function Tries(r: Row, rounds: seq<Round>): nat {
    if rounds == [] then 0
    else
      var prefix, round := rounds[..|rounds| - 1], rounds[|rounds| - 1];
      Tries(r, prefix) + (if RetryDue(AfterRounds(r, prefix), round.now) then 1 else 0)
  }

  /** A round found the row due and the merchant accepted the notice. */
  ghost predicate GotThrough(r: Row, rounds: seq<Round>) {
    exists i :: 0 <= i < |rounds| && RetryDue(AfterRounds(r, rounds[..i]), rounds[i].now) && rounds[i].delivered
  }

  /**
   * Once queued, a notification is pending until the merchant accepts it, and only then counts as sent. Every round
   * that finds it due is one try, tries never exceed twenty, and none is made after it got through.
   */
  lemma {:induction false} PendingUntilDelivered(r: Row, rounds: seq<Round>)
    requires r.notify == NotifyPending && r.attempts <= 20
    ensures var after := AfterRounds(r, rounds);
            && after.notify == (if GotThrough(r, rounds) then NotifySent else NotifyPending)
            && after.attempts == r.attempts + Tries(r, rounds) <= 20
            && after.trade == r.trade && after.paid == r.paid
  {
    if rounds != [] {
      var prefix := rounds[..|rounds| - 1];
      PendingUntilDelivered(r, prefix);
      GotThroughStep(r, rounds);
    }
  }

  lemma GotThroughStep(r: Row, rounds: seq<Round>)
    requires rounds != []
    ensures var prefix, round := rounds[..|rounds| - 1], rounds[|rounds| - 1];
            GotThrough(r, rounds) <==>
              GotThrough(r, prefix) || (RetryDue(AfterRounds(r, prefix), round.now) && round.delivered)
  {
    hide RetryDue, AfterRounds;
    var prefix := rounds[..|rounds| - 1];
    assert forall i :: 0 <= i < |prefix| ==> prefix[..i] == rounds[..i] && prefix[i] == rounds[i];
    if GotThrough(r, prefix) {
      var i :| 0 <= i < |prefix| && RetryDue(AfterRounds(r, prefix[..i]), prefix[i].now) && prefix[i].delivered;
      assert RetryDue(AfterRounds(r, rounds[..i]), rounds[i].now) && rounds[i].delivered;
    }
  }

  /** Rounds at least five seconds apart and after the first due time, while tries are left. */
  ghost predicate Spaced(r: Row, rounds: seq<Round>) {
    && (forall i :: 0 < i < |rounds| ==> rounds[i - 1].now + 5 <= rounds[i].now)
    && (rounds != [] && r.nextAt.Some? ==> r.nextAt.value <= rounds[0].now)
  }

  /** When the row is due next: at once if it was not tried, else five seconds after the last round. */
  lemma {:induction false} SpacedTries(r: Row, rounds: seq<Round>)
    requires r.notify == NotifyPending && r.attempts <= 20 && Spaced(r, rounds) && !GotThrough(r, rounds)
    ensures var after := AfterRounds(r, rounds);
            && after.attempts == (if r.attempts + |rounds| <= 20 then r.attempts + |rounds| else 20)
            && (rounds == [] ==> after == r)
            && (rounds != [] && after.attempts < 20 ==>
                  after.nextAt == Some(rounds[|rounds| - 1].now + 5))
  {
    if rounds != [] {
      var prefix := rounds[..|rounds| - 1];
      SpacedPrefix(r, rounds);
      GotThroughStep(r, rounds);
      hide GotThrough, Spaced;
      SpacedTries(r, prefix);
      PendingUntilDelivered(r, prefix);
    }
  }

  lemma SpacedPrefix(r: Row, rounds: seq<Round>)
    requires Spaced(r, rounds) && rounds != []
    ensures var prefix, round := rounds[..|rounds| - 1], rounds[|rounds| - 1];
            && Spaced(r, prefix)
            && (if prefix == [] then r.nextAt.Some? ==> r.nextAt.value <= round.now
                else prefix[|prefix| - 1].now + 5 <= round.now)
  {
  }

  /**
   * Then every round is a try until one gets through, and a notification that never does is tried twenty times in all.
   */
  lemma SpacedRoundsAllTry(r: Row, rounds: seq<Round>)
    requires r.notify == NotifyPending && r.attempts <= 20 && Spaced(r, rounds)
    requires r.attempts + |rounds| >= 20
    ensures var after := AfterRounds(r, rounds);
            if GotThrough(r, rounds) then after.notify == NotifySent
            else after.notify == NotifyPending && after.attempts == 20 && forall now :: !RetryDue(after, now)
  {
    hide AfterRounds, GotThrough, Spaced;
    PendingUntilDelivered(r, rounds);
    if !GotThrough(r, rounds) {
      SpacedTries(r, rounds);
    }
  }

  /**
   * A notice queued once and polled at least every five seconds from two seconds later on is either accepted and then
   * marked as sent, or tried exactly twenty times and then given up.
   */
  lemma QueuedNoticeEnds(t: Trade, paid: bool, at: Time, rounds: seq<Round>)
    requires |rounds| >= 20 && rounds[0].now >= at + 2
    requires forall i :: 0 < i < |rounds| ==> rounds[i].now - rounds[i - 1].now >= 5
    ensures var r := Enqueued(NewRow(t), paid, at);
            var after := AfterRounds(r, rounds);
            if GotThrough(r, rounds) then after.notify == NotifySent && 1 <= after.attempts <= 20
            else after.notify == NotifyPending && after.attempts == 20 && forall now :: !RetryDue(after, now)
  {
    hide AfterRounds, GotThrough;
    var r := Enqueued(NewRow(t), paid, at);
    SpacedRoundsAllTry(r, rounds);
    PendingUntilDelivered(r, rounds);
    if GotThrough(r, rounds) {
      TriedBeforeSent(r, rounds);
    }
  }

  lemma {:induction false} TriedBeforeSent(r: Row, rounds: seq<Round>)
    requires GotThrough(r, rounds)
    ensures Tries(r, rounds) >= 1
  {
    hide RetryDue;
    var prefix := rounds[..|rounds| - 1];
    GotThroughStep(r, rounds);
    if GotThrough(r, prefix) {
      TriedBeforeSent(r, prefix);
    }
  }
}
