/** Paging through an account's ledger while other transactions keep appending to it. */
module LedgerPages {
  import opened PayTypes
  import opened PayModel
  import opened PayRuns

  /** The ids (position + 1) of the account's entries up to id n, newest first. */
  function IdsUpTo(ledger: seq<LedgerEntry>, a: AccountId, n: nat): seq<nat>
    requires n <= |ledger|
  {
    if n == 0 then []
    else if ledger[n - 1].account == a then [n] + IdsUpTo(ledger, a, n - 1)
    else IdsUpTo(ledger, a, n - 1)
  }

  /** The list is strictly descending, and holds the account's entries up to n, all of them and nothing else. */
  lemma {:induction false} IdsExact(ledger: seq<LedgerEntry>, a: AccountId, n: nat)
    requires n <= |ledger|
    ensures forall i, j :: 0 <= i < j < |IdsUpTo(ledger, a, n)| ==> IdsUpTo(ledger, a, n)[i] > IdsUpTo(ledger, a, n)[j]
    ensures forall id :: id in IdsUpTo(ledger, a, n) <==> 1 <= id <= n && ledger[id - 1].account == a
  {
    if n > 0 {
      IdsExact(ledger, a, n - 1);
      var ids, rest := IdsUpTo(ledger, a, n), IdsUpTo(ledger, a, n - 1);
      assert ledger[n - 1].account == a ==> ids[0] == n && ids == [n] + rest;
      forall i, j | 0 <= i < j < |ids|
        ensures ids[i] > ids[j]
      {
        assert ids[j] in rest;
      }
    }
  }

  function Take<T>(s: seq<T>, n: nat): seq<T> {
    if |s| <= n then s else s[..n]
  }

  /** How many entries a request asks for: 20 unless it says, and never more than 50. */
  function PageSize(limit: int): (n: nat)
    ensures limit <= 0 ==> n == 20
    ensures 1 <= limit <= 50 ==> n == limit
    ensures limit > 50 ==> n == 50
  {
    if limit <= 0 then 20 else if limit > 50 then 50 else limit
  }

  datatype LedgerPage = LedgerPage(ids: seq<nat>, nextBefore: nat, hasMore: bool)

  /** The greatest id a page may show; cursor 0 means from the newest. */
  function Top(ledger: seq<LedgerEntry>, before: nat): (n: nat)
    ensures n <= |ledger|
  {
    if 0 < before <= |ledger| then before - 1 else |ledger|
  }

  /** One page: one entry more than asked for is read to see whether there is a next page. */
  function Page(ledger: seq<LedgerEntry>, a: AccountId, before: nat, limit: int): LedgerPage {
    var size := PageSize(limit);
    var found := Take(IdsUpTo(ledger, a, Top(ledger, before)), size + 1);
    var ids := Take(found, size);
    LedgerPage(ids, if ids == [] then 0 else ids[|ids| - 1], |found| > size)
  }

  /** How many entries of the account have an id of at most n. */
  function Entries(ledger: seq<LedgerEntry>, a: AccountId, n: nat): nat
    requires n <= |ledger|
  {
    if n == 0 then 0 else Entries(ledger, a, n - 1) + (if ledger[n - 1].account == a then 1 else 0)
  }

  lemma {:induction false} CountIds(ledger: seq<LedgerEntry>, a: AccountId, n: nat)
    requires n <= |ledger|
    ensures |IdsUpTo(ledger, a, n)| == Entries(ledger, a, n)
  {
    if n > 0 {
      CountIds(ledger, a, n - 1);
    }
  }

  /**
   * A page holds as many of the account's entries below the cursor as asked for, or all if there are fewer, newest
   * first, and none newer is left out; there is more if and only if some are left.
   */
  lemma PageExact(ledger: seq<LedgerEntry>, a: AccountId, before: nat, limit: int)
    ensures var page := Page(ledger, a, before, limit);
            var last := if 0 < before <= |ledger| then before - 1 else |ledger|;
            var size := if limit <= 0 then 20 else if limit > 50 then 50 else limit;
            && |page.ids| == (if Entries(ledger, a, last) <= size then Entries(ledger, a, last) else size)
            && (page.hasMore <==> Entries(ledger, a, last) > size)
            && (forall id :: id in page.ids ==> 1 <= id <= last && ledger[id - 1].account == a)
            && (forall i, j :: 0 <= i < j < |page.ids| ==> page.ids[i] > page.ids[j])
            && (forall id, other :: (id in page.ids && 1 <= other <= last && ledger[other - 1].account == a
                                     && other !in page.ids) ==> other < id)
            && page.nextBefore == (if page.ids == [] then 0 else page.ids[|page.ids| - 1])
  {
    hide IdsUpTo, Entries;
    var last := Top(ledger, before);
    var all := IdsUpTo(ledger, a, last);
    CountIds(ledger, a, last);
    IdsExact(ledger, a, last);
    var page := Page(ledger, a, before, limit);
    assert page.ids == all[..|page.ids|];
    forall id | id in page.ids
      ensures id in all
    {
    }
    forall id, other | id in page.ids && 1 <= other <= last && ledger[other - 1].account == a && other !in page.ids
      ensures other < id
    {
      assert other in all;
      PrefixGreatest(all, |page.ids|, id, other);
    }
  }

  lemma PrefixGreatest(s: seq<nat>, n: nat, id: nat, other: nat)
    requires n <= |s| && forall i, j :: 0 <= i < j < |s| ==> s[i] > s[j]
    requires id in s[..n] && other in s && other !in s[..n]
    ensures other < id
  {
    var i :| 0 <= i < n && s[..n][i] == id;
    var j :| 0 <= j < |s| && s[j] == other;
  }

  /** Each ledger in the list is the one before it with entries appended. */
  ghost predicate Growing(ledgers: seq<seq<LedgerEntry>>) {
    forall i :: 0 < i < |ledgers| ==> ledgers[i - 1] <= ledgers[i]
  }

  /** A reader follows nextBefore as long as there is more; ledgers[i] is the table when the i-th page is read. */
  function Walk(ledgers: seq<seq<LedgerEntry>>, a: AccountId, before: nat, limit: int): seq<nat> {
    if ledgers == [] then []
    else
      var page := Page(ledgers[0], a, before, limit);
      if page.hasMore then page.ids + Walk(ledgers[1..], a, page.nextBefore, limit) else page.ids
  }

  lemma {:induction false} SameIds(l: seq<LedgerEntry>, m: seq<LedgerEntry>, a: AccountId, n: nat)
    requires l <= m && n <= |l|
    ensures IdsUpTo(l, a, n) == IdsUpTo(m, a, n)
  {
    if n > 0 {
      SameIds(l, m, a, n - 1);
    }
  }

  /** The entries below the k-th of a list are the rest of the list. */
  lemma {:induction false} IdsBelow(l: seq<LedgerEntry>, a: AccountId, n: nat, k: nat)
    requires n <= |l| && k < |IdsUpTo(l, a, n)|
    ensures 1 <= IdsUpTo(l, a, n)[k] <= n
    ensures IdsUpTo(l, a, IdsUpTo(l, a, n)[k] - 1) == IdsUpTo(l, a, n)[k + 1..]
  {
    var ids := IdsUpTo(l, a, n);
    if l[n - 1].account == a {
      if k > 0 {
        IdsBelow(l, a, n - 1, k - 1);
        assert ids[k + 1..] == IdsUpTo(l, a, n - 1)[k..];
      } else {
        assert ids[1..] == IdsUpTo(l, a, n - 1);
      }
    } else {
      IdsBelow(l, a, n - 1, k);
    }
  }

  lemma GrowingTail(ledgers: seq<seq<LedgerEntry>>)
    requires |ledgers| > 1 && Growing(ledgers)
    ensures Growing(ledgers[1..]) && ledgers[0] <= ledgers[1]
  {
    var rest := ledgers[1..];
    forall i | 0 < i < |rest|
      ensures rest[i - 1] <= rest[i]
    {
      assert ledgers[i] <= ledgers[i + 1];
    }
  }

  /** A page with more behind it is the first part of the list, and its cursor leads to the rest. */
  lemma FullPage(l: seq<LedgerEntry>, m: seq<LedgerEntry>, a: AccountId, before: nat, limit: int)
    requires l <= m && Page(l, a, before, limit).hasMore
    ensures var page := Page(l, a, before, limit);
            && 0 < page.nextBefore <= |l|
            && IdsUpTo(l, a, Top(l, before)) == page.ids + IdsUpTo(m, a, page.nextBefore - 1)
            && page.ids != []
  {
    hide IdsUpTo, PageSize;
    var all := IdsUpTo(l, a, Top(l, before));
    var size := PageSize(limit);
    IdsBelow(l, a, Top(l, before), size - 1);
    SameIds(l, m, a, all[size - 1] - 1);
    assert all == all[..size] + all[size..];
  }

  /** From any cursor, the pages joined together are the entries below it in the table of the first page. */
  lemma {:induction false} WalkFrom(ledgers: seq<seq<LedgerEntry>>, a: AccountId, before: nat, limit: int)
    requires ledgers != [] && Growing(ledgers)
    requires |ledgers| > |IdsUpTo(ledgers[0], a, Top(ledgers[0], before))|
    ensures Walk(ledgers, a, before, limit) == IdsUpTo(ledgers[0], a, Top(ledgers[0], before))
    decreases |ledgers|
  {
    hide IdsUpTo, Growing;
    var l := ledgers[0];
    var page := Page(l, a, before, limit);
    if page.hasMore {
      GrowingTail(ledgers);
      FullPage(l, ledgers[1], a, before, limit);
      WalkFrom(ledgers[1..], a, page.nextBefore, limit);
    }
  }

  /**
   * Reading page after page returns every entry the account had when the first page was read, newest first, each once,
   * whatever is appended in between; and one page per entry is always enough to finish.
   */
  lemma WalkIsExact(ledgers: seq<seq<LedgerEntry>>, a: AccountId, limit: int)
    requires ledgers != [] && Growing(ledgers) && |ledgers| > |IdsUpTo(ledgers[0], a, |ledgers[0]|)|
    ensures Walk(ledgers, a, 0, limit) == IdsUpTo(ledgers[0], a, |ledgers[0]|)
    ensures forall id :: id in Walk(ledgers, a, 0, limit)
              <==> 1 <= id <= |ledgers[0]| && ledgers[0][id - 1].account == a
    ensures var ids := Walk(ledgers, a, 0, limit); forall i, j :: 0 <= i < j < |ids| ==> ids[i] > ids[j]
  {
    hide Growing, IdsUpTo;
    WalkFrom(ledgers, a, 0, limit);
    IdsExact(ledgers[0], a, |ledgers[0]|);
  }

  // ---------- the tables a reader meets along a run ----------

  /** No transaction changes or removes a ledger entry. */
  lemma LedgerAppendOnly(db: Db, step: Step)
    ensures db.ledger <= Apply(db, step).ledger
  {
    hide HandleCallback, Reverse, InsertRecharge, CommitGift;
    match step
    case Notice(channel, cb, signed, now) => NoticeAppends(db, channel, cb, signed, now);
    case ReverseStep(account, no, chargeback, now) => ReverseAppends(db, account, no, chargeback, now);
    case Recharge(no, o) => RechargeAppends(db, no, o);
    case SendGift(no, g) => GiftAppends(db, no, g);
    case _ =>
  }

  lemma NoticeAppends(db: Db, channel: string, cb: Callback, signed: bool, now: Time)
    ensures db.ledger <= After(db, HandleCallback(db, channel, cb, signed, now)).ledger
  {
    hide TradeTaken, PostPay, SplitFee, WellFormed;
  }

  lemma ReverseAppends(db: Db, account: AccountId, no: string, chargeback: bool, now: Time)
    ensures db.ledger <= After(db, Reverse(db, account, no, chargeback, now)).ledger
  {
    hide PostReverse, ReversedBook;
  }

  lemma RechargeAppends(db: Db, no: string, o: PayOrder)
    ensures db.ledger <= After(db, InsertRecharge(db, no, o)).ledger
  {
    hide OrderKeyTaken;
  }

  lemma GiftAppends(db: Db, no: string, g: GiftOrder)
    ensures db.ledger <= After(db, CommitGift(db, no, g)).ledger
  {
    hide GiftKeyTaken;
  }

  lemma {:induction false} LedgerGrows(steps: seq<Step>, i: nat, j: nat)
    requires i <= j <= |steps|
    ensures Run(EMPTY, steps[..i]).ledger <= Run(EMPTY, steps[..j]).ledger
    decreases j
  {
    hide Apply;
    if i < j {
      LedgerGrows(steps, i, j - 1);
      var before := steps[..j];
      assert before[..j - 1] == steps[..j - 1];
      LedgerAppendOnly(Run(EMPTY, steps[..j - 1]), steps[j - 1]);
    }
  }

  /** The ledgers of a run at the moments when pages are read. */
  ghost function ReadAt(steps: seq<Step>, times: seq<nat>): seq<seq<LedgerEntry>>
    requires forall i :: 0 <= i < |times| ==> times[i] <= |steps|
  {
    seq(|times|, i requires 0 <= i < |times| => Run(EMPTY, steps[..times[i]]).ledger)
  }

  /** Paging is exact while any other payment transactions run between the pages. */
  lemma WalkAlongRun(steps: seq<Step>, times: seq<nat>, a: AccountId, limit: int)
    requires times != [] && (forall i :: 0 <= i < |times| ==> times[i] <= |steps|)
    requires forall i :: 0 < i < |times| ==> times[i - 1] <= times[i]
    requires var first := Run(EMPTY, steps[..times[0]]).ledger; |times| > |IdsUpTo(first, a, |first|)|
    ensures var first := Run(EMPTY, steps[..times[0]]).ledger;
            Walk(ReadAt(steps, times), a, 0, limit) == IdsUpTo(first, a, |first|)
  {
    hide IdsUpTo, Run;
    var ledgers := ReadAt(steps, times);
    forall i | 0 < i < |ledgers|
      ensures ledgers[i - 1] <= ledgers[i]
    {
      LedgerGrows(steps, times[i - 1], times[i]);
    }
    WalkIsExact(ledgers, a, limit);
  }
}
