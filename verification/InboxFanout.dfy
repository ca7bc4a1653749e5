/**
 * Fan-out of a published video into follower inboxes: the MySQL inbox table and the Redis sorted sets that mirror it.
 */
module InboxFanout {
  import opened SortedSets

  const BATCH: nat := 500
  const KEPT: nat := 500

  /** A follow: a row of the social table. */
  datatype Relation = Relation(id: nat, follower: nat, vlogger: nat)

  /** The tables the worker reads: follows in primary-key order, and the ids of existing accounts. */
  datatype Social = Social(relations: seq<Relation>, accounts: set<nat>)

  /** Inbox rows by user and post, which is the table's unique index; sorted sets by key. */
  datatype World = World(rows: map<nat, map<nat, int>>, zsets: map<string, ZSet>)

  datatype Inserted = Done | Duplicate | Rejected

  ghost predicate Ascending(relations: seq<Relation>) {
    && (forall i :: 0 <= i < |relations| ==> relations[i].id > 0)
    && (forall i, j :: 0 <= i < j < |relations| ==> relations[i].id < relations[j].id)
  }

  /** Primary keys are positive and a follower follows an author at most once. */
  ghost predicate ValidSocial(t: Social) {
    && Ascending(t.relations)
    && (forall i, j :: 0 <= i < j < |t.relations| && t.relations[i].vlogger == t.relations[j].vlogger ==>
          t.relations[i].follower != t.relations[j].follower)
    && 0 !in t.accounts
  }

  function InboxKey(user: nat): string {
    "follow:inbox:" + Decimal(user)
  }

  function RowsOf(rows: map<nat, map<nat, int>>, user: nat): map<nat, int> {
    if user in rows then rows[user] else map[]
  }

  function ZSetOf(zsets: map<string, ZSet>, key: string): ZSet {
    if key in zsets then zsets[key] else map[]
  }

  /** A user's rows as members and scores. */
  ghost function Entries(rows: map<nat, int>): ZSet {
    map p | p in rows :: Decimal(p) := rows[p]
  }

  /** Each user's sorted set holds exactly the 500 greatest of the user's inbox rows. */
  ghost predicate Mirror(w: World) {
    forall user: nat :: ZSetOf(w.zsets, InboxKey(user)) == Top(Entries(RowsOf(w.rows, user)), KEPT)
  }

  // ----- GetFollowersBatch

  /** WHERE vlogger_id = author AND id > last, in id order; 0 puts no bound. */
  function After(relations: seq<Relation>, author: nat, last: nat): seq<Relation> {
    if relations == [] then []
    else
      var rest := After(relations[1..], author, last);
      if relations[0].vlogger == author && (last == 0 || relations[0].id > last) then [relations[0]] + rest else rest
  }

  function Followers(t: Social, author: nat): seq<Relation> {
    After(t.relations, author, 0)
  }

  function Limited(relations: seq<Relation>, limit: nat): seq<Relation> {
    if |relations| <= limit then relations else relations[..limit]
  }

  /** The followers among some relations whose account still exists. */
  function Present(page: seq<Relation>, accounts: set<nat>): seq<nat> {
    if page == [] then []
    else
      var before := Present(page[..|page| - 1], accounts);
      var user := page[|page| - 1].follower;
      if user in accounts then before + [user] else before
  }

  // ----- writes

  function AddRow(rows: map<nat, map<nat, int>>, user: nat, post: nat, score: int): map<nat, map<nat, int>> {
    if user == 0 then rows else rows[user := RowsOf(rows, user)[post := score]]
  }

  function AddRows(rows: map<nat, map<nat, int>>, users: seq<nat>, post: nat, score: int): map<nat, map<nat, int>> {
    if users == [] then rows
    else AddRow(AddRows(rows, users[..|users| - 1], post, score), users[|users| - 1], post, score)
  }

  /** Some row of the batch would break the unique index on (user, post), against the table or within the batch. */
  predicate Taken(rows: map<nat, map<nat, int>>, users: seq<nat>, post: nat) {
    exists i :: 0 <= i < |users| && users[i] != 0 && (post in RowsOf(rows, users[i]) || users[i] in users[..i])
  }

  /** ZADD, then ZREMRANGEBYRANK 0 to -(maxLen+1). */
  function Pushed(z: ZSet, member: string, score: int, maxLen: nat): ZSet {
    RemRangeByRank(z[member := score], 0, -(maxLen + 1))
  }

  function PushAll(zsets: map<string, ZSet>, keys: seq<string>, member: string, score: int, maxLen: nat)
    : map<string, ZSet>
  {
    if keys == [] then zsets
    else
      var before := PushAll(zsets, keys[..|keys| - 1], member, score, maxLen);
      var key := keys[|keys| - 1];
      before[key := Pushed(ZSetOf(before, key), member, score, maxLen)]
  }

  function Keys(users: seq<nat>): seq<string> {
    seq(|users|, i requires 0 <= i < |users| => InboxKey(users[i]))
  }

  /** One batch: the rows, then the sorted sets. */
  function Deliver(w: World, users: seq<nat>, post: nat, score: int): World {
    World(AddRows(w.rows, users, post, score), PushAll(w.zsets, Keys(users), Decimal(post), score, KEPT))
  }

  // ----- publish_inbox

  function Page(followers: seq<Relation>, k: nat): seq<Relation>
    requires k <= |followers|
  {
    Limited(followers[k..], BATCH)
  }

  /** The fan-out over a list of followers, from position k on. */
  function Fanout(followers: seq<Relation>, accounts: set<nat>, w: World, post: nat, score: int, k: nat): World
    requires k <= |followers|
    decreases |followers| - k
  {
    var users := Present(Page(followers, k), accounts);
    if users == [] || Taken(w.rows, users, post) then w
    else if |users| < BATCH then Deliver(w, users, post, score)
    else
      PresentBound(Page(followers, k), accounts);
      Fanout(followers, accounts, Deliver(w, users, post, score), post, score, k + BATCH)
  }

  /** A publish_inbox event, and the tables and clock at the time it is handled. */
  datatype Event = Event(t: Social, author: nat, post: nat, occurredAt: int, now: int)

  function Publish(w: World, e: Event, threshold: nat): World {
    var followers := Followers(e.t, e.author);
    if e.author == 0 || e.post == 0 || |followers| >= threshold then w
    else Fanout(followers, e.t.accounts, w, e.post, if e.occurredAt <= 0 then e.now else e.occurredAt, 0)
  }

  function Run(w: World, events: seq<Event>, threshold: nat): World {
    if events == [] then w
    else Publish(Run(w, events[..|events| - 1], threshold), events[|events| - 1], threshold)
  }

  class Worker {
    var rows: map<nat, map<nat, int>>
    var zsets: map<string, ZSet>
    const threshold: nat

    constructor (bigVThreshold: int)
      ensures threshold == if bigVThreshold <= 0 then 1000 else bigVThreshold
      ensures Snapshot() == World(map[], map[])
    {
      threshold := if bigVThreshold <= 0 then 1000 else bigVThreshold;
      rows, zsets := map[], map[];
    }

    function Snapshot(): World
      reads this
    {
      World(rows, zsets)
    }

    /** The accounts behind one page of relations, and the last relation's id. */
    method GetFollowersBatch(t: Social, author: nat, last: nat, limit: nat) returns (followers: seq<nat>, next: nat)
      ensures var page := Limited(After(t.relations, author, last), limit);
              followers == Present(page, t.accounts) && next == if page == [] then 0 else page[|page| - 1].id
    {
      var relations := Limited(After(t.relations, author, last), limit);
      if |relations| == 0 {
        return [], 0;
      }
      followers := [];
      for i := 0 to |relations|
        invariant followers == Present(relations[..i], t.accounts)
      {
        assert relations[..i + 1][..i] == relations[..i];
        if relations[i].follower in t.accounts {
          followers := followers + [relations[i].follower];
        }
      }
      assert relations[..|relations|] == relations;
      next := relations[|relations| - 1].id;
    }

    /** Inserts a batch in one transaction: a single taken (user, post) pair refuses it all. */
    method BatchInsertFollowFeedInbox(followers: seq<nat>, post: nat, author: nat, score: int) returns (r: Inserted)
      modifies this`rows
      ensures followers != [] && (post == 0 || author == 0) <==> r == Rejected
      ensures r == Duplicate <==> post != 0 && author != 0 && Taken(old(rows), followers, post)
      ensures rows == if r == Done then AddRows(old(rows), followers, post, score) else old(rows)
    {
      if |followers| == 0 {
        return Done;
      }
      if post == 0 || author == 0 {
        return Rejected;
      }
      var items := rows;
      for i := 0 to |followers|
        invariant rows == old(rows) && items == AddRows(rows, followers[..i], post, score)
        invariant !Taken(rows, followers[..i], post)
      {
        assert followers[..i + 1][..i] == followers[..i];
        if followers[i] != 0 {
          AlreadyIn(rows, followers[..i], post, score, followers[i]);
          if post in RowsOf(items, followers[i]) {
            return Duplicate;
          }
          items := items[followers[i] := RowsOf(items, followers[i])[post := score]];
        }
      }
      assert followers[..|followers|] == followers;
      rows := items;
      r := Done;
    }

    /** Pushes one member to every key and trims each to its greatest maxLen members. */
    method ZAddBatchInbox(keys: seq<string>, score: int, member: string, maxLen: nat)
      modifies this`zsets
      ensures zsets == PushAll(old(zsets), keys, member, score, maxLen)
    {
      for i := 0 to |keys|
        invariant zsets == PushAll(old(zsets), keys[..i], member, score, maxLen)
      {
        assert keys[..i + 1][..i] == keys[..i];
        var z := ZSetOf(zsets, keys[i])[member := score];
        zsets := zsets[keys[i] := RemRangeByRank(z, 0, -(maxLen + 1))];
      }
      assert keys[..|keys|] == keys;
    }

    /** Handles publish_inbox: pages through the followers by relation id until a short batch or a taken row. */
    method PublishInbox(t: Social, author: nat, post: nat, occurredAt: int, now: int)
      requires ValidSocial(t)
      modifies this
      ensures Snapshot() == Publish(old(Snapshot()), Event(t, author, post, occurredAt, now), threshold)
    {
      hide AddRows, PushAll, After, Present, Taken, InboxKey;
      if post == 0 || author == 0 {
        return;
      }
      var score := occurredAt;
      if score <= 0 {
        score := now;
      }
      if |Followers(t, author)| >= threshold {
        return;
      }
      ghost var all := Followers(t, author);
      ghost var k := 0;
      var last := 0;
      while true
        invariant k <= |all| && After(t.relations, author, last) == all[k..]
        invariant Fanout(all, t.accounts, Snapshot(), post, score, k)
               == Fanout(all, t.accounts, old(Snapshot()), post, score, 0)
        decreases |all| - k
      {
        var followers, next := GetFollowersBatch(t, author, last, BATCH);
        if |followers| == 0 {
          break;
        }
        var inserted := BatchInsertFollowFeedInbox(followers, post, author, score);
        if inserted == Duplicate {
          return;
        }
        var inboxKeys := [];
        for i := 0 to |followers|
          invariant inboxKeys == Keys(followers[..i])
        {
          inboxKeys := inboxKeys + [InboxKey(followers[i])];
        }
        assert followers[..|followers|] == followers;
        ZAddBatchInbox(inboxKeys, score, Decimal(post), KEPT);
        if |followers| < BATCH {
          break;
        }
        PresentBound(Page(all, k), t.accounts);
        k := k + BATCH;
        CursorReaches(t.relations, author, k);
        last := next;
      }
    }
  }

  /** What a batch under way already holds for a user: a row of the table, or one of its own. */
  lemma {:induction false} AlreadyIn(rows: map<nat, map<nat, int>>, users: seq<nat>, post: nat, score: int, user: nat)
    requires user != 0
    ensures post in RowsOf(AddRows(rows, users, post, score), user) <==> post in RowsOf(rows, user) || user in users
  {
    if users != [] {
      AlreadyIn(rows, users[..|users| - 1], post, score, user);
    }
  }

  /** A batch is never longer than its page, and as long only if no account is missing. */
  lemma {:induction false} PresentBound(page: seq<Relation>, accounts: set<nat>)
    ensures |Present(page, accounts)| <= |page|
    ensures |Present(page, accounts)| == |page| <==> forall i :: 0 <= i < |page| ==> page[i].follower in accounts
  {
    if page != [] {
      PresentBound(page[..|page| - 1], accounts);
    }
  }

  lemma {:induction false} AfterMembers(relations: seq<Relation>, author: nat, r: Relation)
    ensures r in After(relations, author, 0) <==> r in relations && r.vlogger == author
  {
    if relations != [] {
      AfterMembers(relations[1..], author, r);
    }
  }

  /** How many follows of an author come after a relation id. */
  function FollowerCount(relations: seq<Relation>, author: nat, last: nat): nat {
    if relations == [] then 0
    else FollowerCount(relations[1..], author, last)
         + (if relations[0].vlogger == author && relations[0].id > last then 1 else 0)
  }

  lemma {:induction false} AfterCount(relations: seq<Relation>, author: nat, last: nat)
    requires Ascending(relations)
    ensures |After(relations, author, last)| == FollowerCount(relations, author, last)
    ensures forall r :: r in After(relations, author, last) <==> r in relations && r.vlogger == author && r.id > last
    ensures Ascending(After(relations, author, last))
  {
    if relations != [] {
      AfterCount(relations[1..], author, last);
      var rest := After(relations[1..], author, last);
      assert After(relations, author, last) == rest || After(relations, author, last) == [relations[0]] + rest;
      forall i | 0 <= i < |rest|
        ensures relations[0].id < rest[i].id
      {
        assert rest[i] in rest;
      }
    }
  }

  /**
   * One page of an author's followers: the first ones after the cursor, in id order, as many as asked for or all left.
   */
  lemma PageOfFollowers(t: Social, author: nat, last: nat, limit: nat)
    requires Ascending(t.relations)
    ensures var page := Limited(After(t.relations, author, last), limit);
            var count := FollowerCount(t.relations, author, last);
            && |page| == (if count <= limit then count else limit)
            && (forall r :: r in page ==> r in t.relations && r.vlogger == author && r.id > last)
            && (forall i, j :: 0 <= i < j < |page| ==> page[i].id < page[j].id)
            && (forall r, s :: (r in page && s in t.relations && s.vlogger == author && s.id > last && s !in page) ==>
                  r.id < s.id)
  {
    hide After, FollowerCount;
    AfterCount(t.relations, author, last);
    var all := After(t.relations, author, last);
    var page := Limited(all, limit);
    assert forall i :: 0 <= i < |page| ==> page[i] == all[i];
    forall r | r in page
      ensures r in all
    {
    }
    forall r, s | r in page && s in all && s !in page
      ensures r.id < s.id
    {
      var i :| 0 <= i < |page| && page[i] == r;
      var j :| 0 <= j < |all| && all[j] == s;
      assert j >= |page|;
    }
  }

  /**
   * An author with at least as many followers as the threshold is skipped, and so is an event without author or post.
   */
  lemma BigAuthorsAreSkipped(w: World, e: Event, threshold: nat)
    requires ValidSocial(e.t)
    requires e.author == 0 || e.post == 0 || FollowerCount(e.t.relations, e.author, 0) >= threshold
    ensures Publish(w, e, threshold) == w
  {
    AfterCount(e.t.relations, e.author, 0);
  }

  /** One follower of the first batch who already has the post stops the whole fan-out before anything is written. */
  lemma TakenRowStopsRun(w: World, e: Event, threshold: nat, i: nat)
    requires ValidSocial(e.t) && i < 500 && i < |Followers(e.t, e.author)|
    requires var user := Followers(e.t, e.author)[i].follower;
             user in e.t.accounts && e.post in RowsOf(w.rows, user)
    ensures Publish(w, e, threshold) == w
  {
    hide Present, After, Deliver, RowsOf;
    var followers := Followers(e.t, e.author);
    var page := Page(followers, 0);
    PresentMembers(page, e.t.accounts);
    assert page[i] == followers[i];
    assert followers[i].follower in Present(page, e.t.accounts);
    var users := Present(page, e.t.accounts);
    var j :| 0 <= j < |users| && users[j] == followers[i].follower;
    assert Taken(w.rows, users, e.post);
  }

  lemma {:induction false} AllLater(relations: seq<Relation>, author: nat, last: nat)
    requires forall i :: 0 <= i < |relations| ==> relations[i].id > last
    ensures After(relations, author, last) == After(relations, author, 0)
  {
    if relations != [] {
      AllLater(relations[1..], author, last);
    }
  }

  /** The id of the k-th follower, used as a cursor, leads to the followers after it. */
  lemma {:induction false} CursorReaches(relations: seq<Relation>, author: nat, k: nat)
    requires Ascending(relations) && 0 < k <= |After(relations, author, 0)|
    ensures var all := After(relations, author, 0); After(relations, author, all[k - 1].id) == all[k..]
  {
    var all := After(relations, author, 0);
    var rest := After(relations[1..], author, 0);
    if relations[0].vlogger != author {
      CursorReaches(relations[1..], author, k);
    } else if k == 1 {
      AllLater(relations[1..], author, relations[0].id);
    } else {
      CursorReaches(relations[1..], author, k - 1);
      AfterMembers(relations[1..], author, rest[k - 2]);
    }
  }

  // ----- what one delivery does to each user

  lemma KeyInjective(u: nat, v: nat)
    ensures InboxKey(u) == InboxKey(v) ==> u == v
  {
    assert InboxKey(u)[13..] == Decimal(u) && InboxKey(v)[13..] == Decimal(v);
  }

  lemma {:induction false} RowsAfter(rows: map<nat, map<nat, int>>, users: seq<nat>, post: nat, score: int, user: nat)
    ensures RowsOf(AddRows(rows, users, post, score), user)
         == if user != 0 && user in users then RowsOf(rows, user)[post := score] else RowsOf(rows, user)
  {
    if users != [] {
      RowsAfter(rows, users[..|users| - 1], post, score, user);
    }
  }

  ghost predicate Distinct(users: seq<nat>) {
    forall i, j :: 0 <= i < j < |users| ==> users[i] != users[j]
  }

  lemma {:induction false} ZSetsAfter(zsets: map<string, ZSet>, users: seq<nat>, member: string, score: int,
                                      maxLen: nat, user: nat)
    requires Distinct(users)
    ensures ZSetOf(PushAll(zsets, Keys(users), member, score, maxLen), InboxKey(user))
         == if user in users then Pushed(ZSetOf(zsets, InboxKey(user)), member, score, maxLen)
            else ZSetOf(zsets, InboxKey(user))
  {
    hide Pushed, InboxKey;
    if users != [] {
      var n := |users| - 1;
      ZSetsAfter(zsets, users[..n], member, score, maxLen, user);
      assert Keys(users)[..n] == Keys(users[..n]);
      KeyInjective(users[n], user);
    }
  }

  lemma EntriesAfter(rows: map<nat, int>, post: nat, score: int)
    requires post !in rows
    ensures Entries(rows[post := score]) == Entries(rows)[Decimal(post) := score] && Decimal(post) !in Entries(rows)
  {
    hide Decimal, Value;
  }

  /** Delivering a post to users who do not have it keeps every sorted set exact. */
  lemma DeliverMirrors(w: World, users: seq<nat>, post: nat, score: int)
    requires Mirror(w) && Distinct(users) && 0 !in users && !Taken(w.rows, users, post)
    ensures Mirror(Deliver(w, users, post, score))
  {
    hide Top, Entries, RemRangeByRank, AddRows, PushAll, Keys, InboxKey, Distinct;
    var next := Deliver(w, users, post, score);
    forall user: nat
      ensures ZSetOf(next.zsets, InboxKey(user)) == Top(Entries(RowsOf(next.rows, user)), KEPT)
    {
      RowsAfter(w.rows, users, post, score, user);
      ZSetsAfter(w.zsets, users, Decimal(post), score, KEPT, user);
      if user in users {
        var rows := RowsOf(w.rows, user);
        EntriesAfter(rows, post, score);
        TopAfterAdd(Entries(rows), Decimal(post), score, KEPT);
        TrimKeepsGreatest(Top(Entries(rows), KEPT)[Decimal(post) := score], KEPT);
      }
    }
  }

  // ----- the followers of an author

  ghost predicate DistinctFollowers(followers: seq<Relation>) {
    forall i, j :: 0 <= i < j < |followers| ==> followers[i].follower != followers[j].follower
  }

  lemma {:induction false} FollowersDistinct(relations: seq<Relation>, author: nat)
    requires forall i, j :: 0 <= i < j < |relations| && relations[i].vlogger == relations[j].vlogger ==>
               relations[i].follower != relations[j].follower
    ensures DistinctFollowers(After(relations, author, 0))
  {
    if relations != [] {
      FollowersDistinct(relations[1..], author);
      var rest := After(relations[1..], author, 0);
      forall i | 0 <= i < |rest|
        ensures relations[0].vlogger == author ==> rest[i].follower != relations[0].follower
      {
        AfterMembers(relations[1..], author, rest[i]);
      }
    }
  }

  lemma {:induction false} PresentMembers(page: seq<Relation>, accounts: set<nat>)
    ensures forall u :: u in Present(page, accounts)
              <==> u in accounts && exists i :: 0 <= i < |page| && page[i].follower == u
    ensures DistinctFollowers(page) ==> Distinct(Present(page, accounts))
  {
    if page != [] {
      PresentMembers(page[..|page| - 1], accounts);
    }
  }

  // ----- whole fan-outs and runs

  lemma {:induction false} FanoutMirrors(followers: seq<Relation>, accounts: set<nat>, w: World, post: nat, score: int,
                                         k: nat)
    requires k <= |followers| && Mirror(w) && DistinctFollowers(followers) && 0 !in accounts
    ensures Mirror(Fanout(followers, accounts, w, post, score, k))
    decreases |followers| - k
  {
    hide Mirror, Deliver, Present, Taken;
    var users := Present(Page(followers, k), accounts);
    PresentMembers(Page(followers, k), accounts);
    PresentBound(Page(followers, k), accounts);
    if users != [] && !Taken(w.rows, users, post) {
      DeliverMirrors(w, users, post, score);
      if |users| >= BATCH {
        FanoutMirrors(followers, accounts, Deliver(w, users, post, score), post, score, k + BATCH);
      }
    }
  }

  lemma PublishMirrors(w: World, e: Event, threshold: nat)
    requires Mirror(w) && ValidSocial(e.t)
    ensures Mirror(Publish(w, e, threshold))
  {
    hide Mirror, Fanout, Ascending;
    FollowersDistinct(e.t.relations, e.author);
    var followers := Followers(e.t, e.author);
    if e.author != 0 && e.post != 0 && |followers| < threshold {
      FanoutMirrors(followers, e.t.accounts, w, e.post, if e.occurredAt <= 0 then e.now else e.occurredAt, 0);
    }
  }

  /**
   * After any sequence of first and repeated events, over any follower tables, each sorted set is the top 500 of its
   * user's rows.
   */
  lemma {:induction false} RunMirrors(w: World, events: seq<Event>, threshold: nat)
    requires Mirror(w) && forall i :: 0 <= i < |events| ==> ValidSocial(events[i].t)
    ensures Mirror(Run(w, events, threshold))
  {
    hide Mirror, Publish, ValidSocial;
    if events != [] {
      RunMirrors(w, events[..|events| - 1], threshold);
      PublishMirrors(Run(w, events[..|events| - 1], threshold), events[|events| - 1], threshold);
    }
  }

  lemma {:induction false} EntriesCount(rows: map<nat, int>)
    ensures |Entries(rows)| == |rows|
  {
    hide Entries;
    if p :| p in rows {
      var rest := rows - {p};
      EntriesCount(rest);
      assert rows == rest[p := rows[p]];
      EntriesAfter(rest, p, rows[p]);
    } else {
      assert rows == map[];
      NoEntries();
    }
  }

  lemma NoEntries()
    ensures |Entries(map[])| == 0
  {
    assert Entries(map[]) == map[];
  }

  /** The members are ids of rows, with the rows' scores. */
  ghost predicate OwnScores(z: ZSet, rows: map<nat, int>) {
    forall p :: p in z ==> exists post :: post in rows && Decimal(post) == p && z[p] == rows[post]
  }

  /** A row left out has a smaller score than any that is in, or the same score and a smaller id in text order. */
  ghost predicate Outranks(z: ZSet, rows: map<nat, int>) {
    forall post, other :: (post in rows && other in rows && Decimal(post) in z && Decimal(other) !in z) ==>
        rows[other] < rows[post] || (rows[other] == rows[post] && Lex(Decimal(other), Decimal(post)))
  }

  lemma TopOwnScores(rows: map<nat, int>, k: nat)
    ensures OwnScores(Top(Entries(rows), k), rows)
  {
    hide Decimal;
    TopSound(Entries(rows), k);
  }

  lemma TopOutranks(rows: map<nat, int>, k: nat)
    ensures Outranks(Top(Entries(rows), k), rows)
  {
    hide Top, Lex, Decimal, Entries, Over, Value;
    TopIsGreatest(Entries(rows), k);
    forall post | post in rows
      ensures Decimal(post) in Entries(rows) && Entries(rows)[Decimal(post)] == rows[post]
    {
      EntryScore(rows, post);
    }
    TopSound(Entries(rows), k);
    OutranksFrom(Entries(rows), Top(Entries(rows), k), rows);
  }

  lemma OutranksFrom(z: ZSet, top: ZSet, rows: map<nat, int>)
    requires forall post :: post in rows ==> Decimal(post) in z && z[Decimal(post)] == rows[post]
    requires forall p :: p in top ==> p in z
    requires forall p, q :: p in top && q in z && q !in top ==> z[q] < z[p] || (z[q] == z[p] && Lex(q, p))
    ensures Outranks(top, rows)
  {
    hide Lex, Decimal;
  }

  lemma EntryScore(rows: map<nat, int>, post: nat)
    requires post in rows
    ensures Decimal(post) in Entries(rows) && Entries(rows)[Decimal(post)] == rows[post]
  {
  }

  /**
   * So after any run a user's sorted set holds 500 of the user's posts, or all of them if there are fewer, each with
   * its own score, and outranks the rest.
   */
  lemma KeepsNewest(events: seq<Event>, threshold: nat, user: nat)
    requires forall i :: 0 <= i < |events| ==> ValidSocial(events[i].t)
    ensures var w := Run(World(map[], map[]), events, threshold);
            var z, rows := ZSetOf(w.zsets, "follow:inbox:" + Decimal(user)), RowsOf(w.rows, user);
            |z| == (if |rows| <= 500 then |rows| else 500) && OwnScores(z, rows) && Outranks(z, rows)
  {
    hide Run, ValidSocial, Top, Entries, OwnScores, Outranks;
    EmptyMirrors();
    RunMirrors(World(map[], map[]), events, threshold);
    var w := Run(World(map[], map[]), events, threshold);
    assert ZSetOf(w.zsets, InboxKey(user)) == Top(Entries(RowsOf(w.rows, user)), KEPT);
    var rows := RowsOf(w.rows, user);
    EntriesCount(rows);
    TopIsGreatest(Entries(rows), KEPT);
    TopOwnScores(rows, KEPT);
    TopOutranks(rows, KEPT);
  }

  // ----- batches of any fan-outs, in any order

  /** One turn of some fan-out's loop: the tables it meets, its event and its cursor. */
  datatype Batch = Batch(t: Social, author: nat, post: nat, score: int, last: nat)

  function BatchUsers(batch: Batch): seq<nat> {
    Present(Limited(After(batch.t.relations, batch.author, batch.last), BATCH), batch.t.accounts)
  }

  function AfterBatch(w: World, batch: Batch): World {
    if BatchUsers(batch) == [] || Taken(w.rows, BatchUsers(batch), batch.post) then w
    else Deliver(w, BatchUsers(batch), batch.post, batch.score)
  }

  function AfterBatches(w: World, batches: seq<Batch>): World
    decreases |batches|
  {
    if batches == [] then w else AfterBatches(AfterBatch(w, batches[0]), batches[1..])
  }

  /**
   * The sorted sets stay exact over any sequence of batches: fan-outs of several workers may take turns, be cut off
   * between two batches, and find other follows and accounts at every batch.
   */
  lemma {:induction false} BatchesMirror(w: World, batches: seq<Batch>)
    requires Mirror(w) && forall i :: 0 <= i < |batches| ==> ValidSocial(batches[i].t)
    ensures Mirror(AfterBatches(w, batches))
    decreases |batches|
  {
    hide Mirror, Deliver, Present, Taken, ValidSocial;
    if batches != [] {
      var users := BatchUsers(batches[0]);
      BatchUsersDistinct(batches[0]);
      if users != [] && !Taken(w.rows, users, batches[0].post) {
        DeliverMirrors(w, users, batches[0].post, batches[0].score);
      }
      BatchesMirror(AfterBatch(w, batches[0]), batches[1..]);
    }
  }

  lemma BatchUsersDistinct(batch: Batch)
    requires ValidSocial(batch.t)
    ensures Distinct(BatchUsers(batch)) && 0 !in BatchUsers(batch)
  {
    hide Present, Ascending, After;
    var page := Limited(After(batch.t.relations, batch.author, batch.last), BATCH);
    AfterDistinct(batch.t.relations, batch.author, batch.last);
    PresentMembers(page, batch.t.accounts);
  }

  lemma {:induction false} AfterDistinct(relations: seq<Relation>, author: nat, last: nat)
    requires forall i, j :: 0 <= i < j < |relations| && relations[i].vlogger == relations[j].vlogger ==>
               relations[i].follower != relations[j].follower
    ensures DistinctFollowers(After(relations, author, last))
    ensures forall r :: r in After(relations, author, last) ==> r in relations && r.vlogger == author
  {
    if relations != [] {
      AfterDistinct(relations[1..], author, last);
      var rest := After(relations[1..], author, last);
      forall i | 0 <= i < |rest| && relations[0].vlogger == author
        ensures rest[i].follower != relations[0].follower
      {
        assert rest[i] in rest;
      }
    }
  }

  /** The batches of a fan-out over unchanging tables from the k-th follower on. */
  function BatchesOf(t: Social, w: World, author: nat, post: nat, score: int, k: nat): seq<Batch>
    requires k <= |Followers(t, author)|
    decreases |Followers(t, author)| - k
  {
    var followers := Followers(t, author);
    var users := Present(Page(followers, k), t.accounts);
    var batch := Batch(t, author, post, score, if k == 0 then 0 else followers[k - 1].id);
    if users == [] || Taken(w.rows, users, post) || |users| < BATCH then [batch]
    else
      PresentBound(Page(followers, k), t.accounts);
      [batch] + BatchesOf(t, Deliver(w, users, post, score), author, post, score, k + BATCH)
  }

  /** A fan-out is such a sequence of batches. */
  lemma {:induction false} FanoutIsBatches(t: Social, w: World, author: nat, post: nat, score: int, k: nat)
    requires ValidSocial(t) && k <= |Followers(t, author)|
    ensures AfterBatches(w, BatchesOf(t, w, author, post, score, k))
         == Fanout(Followers(t, author), t.accounts, w, post, score, k)
    ensures forall batch :: batch in BatchesOf(t, w, author, post, score, k) ==> batch.t == t
    decreases |Followers(t, author)| - k
  {
    hide Deliver, Present, Taken, After;
    var followers := Followers(t, author);
    var users := Present(Page(followers, k), t.accounts);
    var batch := Batch(t, author, post, score, if k == 0 then 0 else followers[k - 1].id);
    if k > 0 {
      CursorReaches(t.relations, author, k);
    }
    assert followers[k..] == After(t.relations, author, batch.last);
    assert BatchUsers(batch) == users;
    PresentBound(Page(followers, k), t.accounts);
    var batches := BatchesOf(t, w, author, post, score, k);
    assert batches[0] == batch;
    if users == [] || Taken(w.rows, users, post) || |users| < BATCH {
      assert batches[1..] == [];
    } else {
      var next := Deliver(w, users, post, score);
      FanoutIsBatches(t, next, author, post, score, k + BATCH);
      assert batches[1..] == BatchesOf(t, next, author, post, score, k + BATCH);
    }
  }

  lemma EmptyMirrors()
    ensures Mirror(World(map[], map[]))
  {
    forall user: nat
      ensures ZSetOf(map[], InboxKey(user)) == Top(Entries(RowsOf(map[], user)), KEPT)
    {
      assert Entries(RowsOf(map[], user)) == map[];
    }
  }

  /** A row, once written, is never written again: the first score stays. */
  lemma {:induction false} FanoutKeepsRow(followers: seq<Relation>, accounts: set<nat>, w: World, post: nat, score: int,
                                          k: nat, user: nat, p: nat)
    requires k <= |followers| && 0 !in accounts && p in RowsOf(w.rows, user)
    ensures var after := RowsOf(Fanout(followers, accounts, w, post, score, k).rows, user);
            p in after && after[p] == RowsOf(w.rows, user)[p]
    decreases |followers| - k
  {
    hide Present, AddRows;
    var users := Present(Page(followers, k), accounts);
    PresentMembers(Page(followers, k), accounts);
    PresentBound(Page(followers, k), accounts);
    if users != [] && !Taken(w.rows, users, post) {
      RowsAfter(w.rows, users, post, score, user);
      if |users| >= BATCH {
        FanoutKeepsRow(followers, accounts, Deliver(w, users, post, score), post, score, k + BATCH, user, p);
      }
    }
  }

  lemma {:induction false} RunKeepsRow(w: World, events: seq<Event>, threshold: nat, user: nat, p: nat)
    requires forall i :: 0 <= i < |events| ==> ValidSocial(events[i].t)
    requires p in RowsOf(w.rows, user)
    ensures var after := RowsOf(Run(w, events, threshold).rows, user); p in after && after[p] == RowsOf(w.rows, user)[p]
  {
    hide Fanout;
    if events != [] {
      var e := events[|events| - 1];
      RunKeepsRow(w, events[..|events| - 1], threshold, user, p);
      FanoutKeepsRow(Followers(e.t, e.author), e.t.accounts, Run(w, events[..|events| - 1], threshold), e.post,
                     if e.occurredAt <= 0 then e.now else e.occurredAt, 0, user, p);
    }
  }

  /** Handling the same event again over the same tables changes nothing, whatever the clock says. */
  lemma RedeliveryChangesNothing(w: World, e: Event, again: int, threshold: nat)
    requires ValidSocial(e.t)
    ensures Publish(Publish(w, e, threshold), e.(now := again), threshold) == Publish(w, e, threshold)
  {
    hide Present, Deliver, Page;
    var followers := Followers(e.t, e.author);
    var score := if e.occurredAt <= 0 then e.now else e.occurredAt;
    if e.author != 0 && e.post != 0 && |followers| < threshold {
      var users := Present(Page(followers, 0), e.t.accounts);
      var after := Fanout(followers, e.t.accounts, w, e.post, score, 0);
      if users != [] && !Taken(w.rows, users, e.post) {
        FirstBatchStays(followers, e.t.accounts, w, e.post, score);
      }
    }
  }

  lemma FirstBatchStays(followers: seq<Relation>, accounts: set<nat>, w: World, post: nat, score: int)
    requires 0 !in accounts
    requires var users := Present(Page(followers, 0), accounts); users != [] && !Taken(w.rows, users, post)
    ensures Taken(Fanout(followers, accounts, w, post, score, 0).rows, Present(Page(followers, 0), accounts), post)
  {
    hide Present, AddRows;
    var users := Present(Page(followers, 0), accounts);
    PresentMembers(Page(followers, 0), accounts);
    PresentBound(Page(followers, 0), accounts);
    assert users[0] in users;
    RowsAfter(w.rows, users, post, score, users[0]);
    if |users| >= BATCH {
      FanoutKeepsRow(followers, accounts, Deliver(w, users, post, score), post, score, BATCH, users[0], post);
    }
  }

  // ----- who a first run reaches

  /** The users a fan-out reaches when nobody has the post yet. */
  function Reached(followers: seq<Relation>, accounts: set<nat>, k: nat): seq<nat>
    requires k <= |followers|
    decreases |followers| - k
  {
    var users := Present(Page(followers, k), accounts);
    PresentBound(Page(followers, k), accounts);
    if |users| < BATCH then users else users + Reached(followers, accounts, k + BATCH)
  }

  lemma NoneTaken(followers: seq<Relation>, accounts: set<nat>, rows: map<nat, map<nat, int>>, post: nat, k: nat)
    requires k <= |followers| && DistinctFollowers(followers)
    requires forall i :: k <= i < |followers| ==> post !in RowsOf(rows, followers[i].follower)
    ensures !Taken(rows, Present(Page(followers, k), accounts), post)
  {
    hide Present;
    var page := Page(followers, k);
    var users := Present(page, accounts);
    PresentMembers(page, accounts);
    forall i | 0 <= i < |users|
      ensures post !in RowsOf(rows, users[i]) && users[i] !in users[..i]
    {
      assert users[i] in users;
      var j :| 0 <= j < |page| && page[j].follower == users[i];
      assert page[j] == followers[k + j];
    }
  }

  /** A first run writes one row, with the event's score, for each user reached, and touches nobody else. */
  lemma {:induction false} FirstRun(followers: seq<Relation>, accounts: set<nat>, w: World, post: nat, score: int,
                                    k: nat, user: nat)
    requires k <= |followers| && DistinctFollowers(followers) && 0 !in accounts
    requires forall i :: k <= i < |followers| ==> post !in RowsOf(w.rows, followers[i].follower)
    ensures RowsOf(Fanout(followers, accounts, w, post, score, k).rows, user)
         == if user in Reached(followers, accounts, k)
            then RowsOf(w.rows, user)[post := score] else RowsOf(w.rows, user)
    decreases |followers| - k
  {
    hide Present, AddRows, DistinctFollowers, Taken;
    var page := Page(followers, k);
    var users := Present(page, accounts);
    PresentMembers(page, accounts);
    PresentBound(page, accounts);
    NoneTaken(followers, accounts, w.rows, post, k);
    if users != [] {
      RowsAfter(w.rows, users, post, score, user);
      if |users| >= BATCH {
        var next := Deliver(w, users, post, score);
        forall i | k + BATCH <= i < |followers|
          ensures post !in RowsOf(next.rows, followers[i].follower)
        {
          NotOnPage(followers, k, i);
          RowsAfter(w.rows, users, post, score, followers[i].follower);
        }
        FirstRun(followers, accounts, next, post, score, k + BATCH, user);
      }
    }
  }

  lemma NotOnPage(followers: seq<Relation>, k: nat, i: nat)
    requires k + BATCH <= i < |followers| && DistinctFollowers(followers)
    ensures forall j :: 0 <= j < |Page(followers, k)| ==> Page(followers, k)[j].follower != followers[i].follower
  {
    forall j | 0 <= j < |Page(followers, k)|
      ensures Page(followers, k)[j].follower != followers[i].follower
    {
      assert Page(followers, k)[j] == followers[k + j];
    }
  }

  /** Which turn of the loop a follower belongs to. */
  function Turn(i: nat, k: nat): int
    requires k <= i
  {
    (i - k) / 500
  }

  /** No follower whose account is gone comes in an earlier turn than one whose account exists. */
  ghost predicate NoGapBefore(followers: seq<Relation>, accounts: set<nat>, k: nat) {
    forall i, j ::
      k <= i < j < |followers| && followers[i].follower !in accounts && followers[j].follower in accounts ==>
      Turn(i, k) == Turn(j, k)
  }

  ghost predicate ReachesAll(followers: seq<Relation>, accounts: set<nat>, k: nat)
    requires k <= |followers|
  {
    forall i :: k <= i < |followers| && followers[i].follower in accounts ==>
        followers[i].follower in Reached(followers, accounts, k)
  }

  lemma {:induction false} ReachedAreFollowers(followers: seq<Relation>, accounts: set<nat>, k: nat, user: nat)
    requires k <= |followers| && user in Reached(followers, accounts, k)
    ensures user in accounts && exists i :: k <= i < |followers| && followers[i].follower == user
    decreases |followers| - k
  {
    hide Present;
    var page := Page(followers, k);
    PresentMembers(page, accounts);
    PresentBound(page, accounts);
    if user in Present(page, accounts) {
      var j :| 0 <= j < |page| && page[j].follower == user;
      assert page[j] == followers[k + j];
    } else {
      ReachedAreFollowers(followers, accounts, k + BATCH, user);
    }
  }

  lemma ShortPage(followers: seq<Relation>, accounts: set<nat>, k: nat)
    requires k <= |followers| && DistinctFollowers(followers) && |Present(Page(followers, k), accounts)| < BATCH
    ensures ReachesAll(followers, accounts, k) <==> NoGapBefore(followers, accounts, k)
  {
    hide Present, DistinctFollowers;
    var page := Page(followers, k);
    PresentMembers(page, accounts);
    PresentBound(page, accounts);
    forall i | k <= i < |followers| && followers[i].follower in accounts
      ensures followers[i].follower in Reached(followers, accounts, k) <==> i < k + BATCH
    {
      if i < k + BATCH {
        assert page[i - k] == followers[i];
      } else {
        NotOnPage(followers, k, i);
      }
    }
    if |page| == BATCH {
      var gone :| 0 <= gone < |page| && page[gone].follower !in accounts;
      assert page[gone] == followers[k + gone];
      assert Turn(k + gone, k) == 0;
    }
    forall i | k <= i < |followers|
      ensures Turn(i, k) == 0 <==> i < k + BATCH
    {
    }
  }

  lemma FullPageStep(followers: seq<Relation>, accounts: set<nat>, k: nat)
    requires k <= |followers| && DistinctFollowers(followers) && |Present(Page(followers, k), accounts)| >= BATCH
    ensures k + BATCH <= |followers|
    ensures ReachesAll(followers, accounts, k) <==> ReachesAll(followers, accounts, k + BATCH)
    ensures NoGapBefore(followers, accounts, k) <==> NoGapBefore(followers, accounts, k + BATCH)
  {
    hide Present, DistinctFollowers;
    var page := Page(followers, k);
    PresentMembers(page, accounts);
    PresentBound(page, accounts);
    forall i | k <= i < |followers|
      ensures i < k + BATCH ==> followers[i].follower in Present(page, accounts)
      ensures i >= k + BATCH ==>
                followers[i].follower !in Present(page, accounts) && Turn(i, k) == Turn(i, k + BATCH) + 1
    {
      if i < k + BATCH {
        assert page[i - k] == followers[i];
      } else {
        NotOnPage(followers, k, i);
      }
    }
  }

  /**
   * A first run reaches every existing follower if and only if no follower with a missing account precedes one of a
   * later turn.
   */
  lemma {:induction false} Coverage(followers: seq<Relation>, accounts: set<nat>, k: nat)
    requires k <= |followers| && DistinctFollowers(followers)
    ensures ReachesAll(followers, accounts, k) <==> NoGapBefore(followers, accounts, k)
    decreases |followers| - k
  {
    hide ReachesAll, NoGapBefore, Present;
    if |Present(Page(followers, k), accounts)| < BATCH {
      ShortPage(followers, accounts, k);
    } else {
      FullPageStep(followers, accounts, k);
      Coverage(followers, accounts, k + BATCH);
    }
  }

  /** What a first event for a post leaves in the rows, user by user, when every follower's account exists. */
  lemma FirstEventReachesEveryFollower(w: World, e: Event, threshold: nat, user: nat)
    requires ValidSocial(e.t) && e.author != 0 && e.post != 0 && |Followers(e.t, e.author)| < threshold
    requires forall r :: r in Followers(e.t, e.author) ==>
               r.follower in e.t.accounts && e.post !in RowsOf(w.rows, r.follower)
    ensures RowsOf(Publish(w, e, threshold).rows, user)
         == if exists r :: r in e.t.relations && r.vlogger == e.author && r.follower == user
            then RowsOf(w.rows, user)[e.post := if e.occurredAt <= 0 then e.now else e.occurredAt]
            else RowsOf(w.rows, user)
  {
    hide Fanout, Ascending, Reached;
    var all := Followers(e.t, e.author);
    var score := if e.occurredAt <= 0 then e.now else e.occurredAt;
    FollowersDistinct(e.t.relations, e.author);
    FirstRun(all, e.t.accounts, w, e.post, score, 0, user);
    Coverage(all, e.t.accounts, 0);
    forall r
      ensures r in all <==> r in e.t.relations && r.vlogger == e.author
    {
      AfterMembers(e.t.relations, e.author, r);
    }
    if user in Reached(all, e.t.accounts, 0) {
      ReachedAreFollowers(all, e.t.accounts, 0, user);
      var i :| 0 <= i < |all| && all[i].follower == user;
      assert all[i] in all;
    }
  }

  /**
   * A first event gives every follower with an account a row if and only if no follower whose account is gone precedes,
   * in an earlier turn of the loop, one whose account exists.
   */
  lemma FirstEventCoverage(w: World, e: Event, threshold: nat)
    requires ValidSocial(e.t) && e.author != 0 && e.post != 0 && |Followers(e.t, e.author)| < threshold
    requires forall r :: r in Followers(e.t, e.author) ==> e.post !in RowsOf(w.rows, r.follower)
    ensures (forall r :: r in Followers(e.t, e.author) && r.follower in e.t.accounts ==>
                           e.post in RowsOf(Publish(w, e, threshold).rows, r.follower))
            <==> NoGapBefore(Followers(e.t, e.author), e.t.accounts, 0)
  {
    hide Fanout, Ascending, Reached, NoGapBefore;
    var all := Followers(e.t, e.author);
    FollowersDistinct(e.t.relations, e.author);
    Coverage(all, e.t.accounts, 0);
    forall r | r in all
      ensures e.post in RowsOf(Publish(w, e, threshold).rows, r.follower)
              <==> r.follower in Reached(all, e.t.accounts, 0)
    {
      FirstRun(all, e.t.accounts, w, e.post, if e.occurredAt <= 0 then e.now else e.occurredAt, 0, r.follower);
    }
  }

  /** 501 follows of author 1000, by accounts 1 to 501. */
  function Crowd(): seq<Relation> {
    seq(501, i requires 0 <= i < 501 => Relation(i + 1, i + 1, 1000))
  }

  /** Only accounts 2 and 501 still exist. */
  function CrowdEvent(): Event {
    Event(Social(Crowd(), {2, 501}), 1000, 7, 1, 1)
  }

  lemma {:induction false} AllFollow(relations: seq<Relation>, author: nat)
    requires forall i :: 0 <= i < |relations| ==> relations[i].vlogger == author
    ensures After(relations, author, 0) == relations
  {
    if relations != [] {
      AllFollow(relations[1..], author);
    }
  }

  /**
   * In that table the loop stops after its first batch, account 2 alone: account 501 exists, follows, and gets no row.
   */
  lemma MissingAccountStopsRun(threshold: nat)
    requires threshold > 501
    ensures var e := CrowdEvent();
            var last := Relation(501, 501, 1000);
            && ValidSocial(e.t) && last in Followers(e.t, e.author) && last.follower in e.t.accounts
            && e.post !in RowsOf(Publish(World(map[], map[]), e, threshold).rows, last.follower)
  {
    hide Fanout, Reached, After;
    var e := CrowdEvent();
    AllFollow(e.t.relations, 1000);
    assert e.t.relations[500] == Relation(501, 501, 1000);
    CrowdStops(e.t.relations, e.t.accounts);
    FollowersDistinct(e.t.relations, 1000);
    FirstRun(e.t.relations, e.t.accounts, World(map[], map[]), 7, 1, 0, 501);
  }

  lemma CrowdStops(followers: seq<Relation>, accounts: set<nat>)
    requires |followers| == 501 && DistinctFollowers(followers) && followers[0].follower !in accounts
    ensures followers[500].follower !in Reached(followers, accounts, 0)
  {
    hide Present;
    var page := Page(followers, 0);
    PresentBound(page, accounts);
    PresentMembers(page, accounts);
    assert page[0] == followers[0];
    NotOnPage(followers, 0, 500);
  }
}
