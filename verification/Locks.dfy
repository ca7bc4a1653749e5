/** The explicit row locks of payment transactions, their order, and why no set of transactions deadlocks on them. */
module Locks {
  import PayTypes

  datatype Lock = OrderLock(no: string) | WithdrawLock(no: string) | WalletLock(account: PayTypes.AccountId) | BookLock

  /** First an order or withdrawal row, then wallets by account id, then the book. */
  predicate Before(a: Lock, b: Lock) {
    match (a, b)
    case (WalletLock(x), WalletLock(y)) => x < y
    case (WalletLock(_), BookLock) => true
    case (OrderLock(_), _) => b.WalletLock? || b.BookLock?
    case (WithdrawLock(_), _) => b.WalletLock? || b.BookLock?
    case _ => false
  }

  predicate Ascending(locks: seq<Lock>) {
    forall i, j :: 0 <= i < j < |locks| ==> Before(locks[i], locks[j])
  }

  /** One transaction: the locks it will take in order, how many it holds, and whether it has ended and let them go. */
  datatype Client = Client(plan: seq<Lock>, held: nat, ended: bool)

  predicate Holds(c: Client, l: Lock) {
    !c.ended && c.held <= |c.plan| && l in c.plan[..c.held]
  }

  /** Row locks are exclusive, and every transaction takes its locks in ascending order. */
  ghost predicate SystemOk(cs: seq<Client>) {
    && (forall i :: 0 <= i < |cs| ==> cs[i].held <= |cs[i].plan| && Ascending(cs[i].plan))
    && (forall i, j, l :: 0 <= i < |cs| && 0 <= j < |cs| && Holds(cs[i], l) && Holds(cs[j], l) ==> i == j)
  }

  predicate Free(cs: seq<Client>, l: Lock) {
    forall i :: 0 <= i < |cs| ==> !Holds(cs[i], l)
  }

  /** Client i can go on: it holds all it needs and can end, or its next lock is free. */
  predicate CanMove(cs: seq<Client>, i: nat)
    requires i < |cs|
  {
    !cs[i].ended && (cs[i].held >= |cs[i].plan| || Free(cs, cs[i].plan[cs[i].held]))
  }

  function Move(cs: seq<Client>, i: nat): seq<Client>
    requires i < |cs| && CanMove(cs, i)
  {
    if cs[i].held < |cs[i].plan| then cs[i := cs[i].(held := cs[i].held + 1)] else cs[i := cs[i].(ended := true)]
  }

  /** Client i is waiting for a lock that another client holds. */
  predicate Blocked(cs: seq<Client>, i: nat)
    requires i < |cs|
  {
    !cs[i].ended && cs[i].held < |cs[i].plan| && !Free(cs, cs[i].plan[cs[i].held])
  }

  lemma MoveKeeps(cs: seq<Client>, i: nat)
    requires i < |cs| && SystemOk(cs) && CanMove(cs, i)
    ensures SystemOk(Move(cs, i))
  {
    var ds := Move(cs, i);
    if cs[i].held < |cs[i].plan| {
      var next := cs[i].plan[cs[i].held];
      assert ds[i].plan[..ds[i].held] == cs[i].plan[..cs[i].held] + [next];
      forall j, l | 0 <= j < |ds| && Holds(ds[j], l)
        ensures Holds(cs[j], l) || (j == i && l == next)
      {
      }
    }
  }

  lemma BeforeTransitive(a: Lock, b: Lock, c: Lock)
    requires Before(a, b) && Before(b, c)
    ensures Before(a, c)
  {
  }

  /** Whoever holds the lock that i waits for is itself waiting for a later lock, or can move. */
  lemma HolderWaitsLater(cs: seq<Client>, i: nat) returns (h: nat)
    requires i < |cs| && SystemOk(cs) && Blocked(cs, i)
    ensures h < |cs| && (CanMove(cs, h) || Blocked(cs, h))
    ensures Blocked(cs, h) ==> Before(cs[i].plan[cs[i].held], cs[h].plan[cs[h].held])
  {
    var l := cs[i].plan[cs[i].held];
    h :| 0 <= h < |cs| && Holds(cs[h], l);
  }

  /** Both are blocked, and i waits for an earlier lock than j. */
  predicate WaitsBefore(cs: seq<Client>, i: nat, j: nat) {
    i < |cs| && j < |cs| && Blocked(cs, i) && Blocked(cs, j) && Before(cs[i].plan[cs[i].held], cs[j].plan[cs[j].held])
  }

  /** The wait-for chain from i, followed at most fuel times, visits locks in ascending order. */
  lemma {:induction false} ChainEnds(cs: seq<Client>, i: nat, visited: seq<nat>) returns (m: nat)
    requires i < |cs| && SystemOk(cs) && Blocked(cs, i)
    requires forall k :: 0 <= k < |visited| ==> WaitsBefore(cs, visited[k], i)
    requires Distinct(visited)
    ensures m < |cs| && CanMove(cs, m)
    decreases |cs| - |visited|
  {
    var seen := visited + [i];
    assert i !in visited by {
      if i in visited {
        var k :| 0 <= k < |visited| && visited[k] == i;
        NotBeforeItself(cs[i].plan[cs[i].held]);
      }
    }
    Pigeonhole(seen, |cs|);
    var h := HolderWaitsLater(cs, i);
    if CanMove(cs, h) {
      m := h;
    } else {
      forall k | 0 <= k < |seen|
        ensures WaitsBefore(cs, seen[k], h)
      {
        if k < |visited| {
          BeforeTransitive(cs[visited[k]].plan[cs[visited[k]].held], cs[i].plan[cs[i].held], cs[h].plan[cs[h].held]);
        }
      }
      m := ChainEnds(cs, h, seen);
    }
  }

  lemma NotBeforeItself(l: Lock)
    ensures !Before(l, l)
  {
  }

  predicate Distinct(s: seq<nat>) {
    forall i, j :: 0 <= i < j < |s| ==> s[i] != s[j]
  }

  /** Distinct numbers below n are at most n. */
  lemma {:induction false} Pigeonhole(s: seq<nat>, n: nat)
    requires Distinct(s) && (forall k :: 0 <= k < |s| ==> s[k] < n)
    ensures |s| <= n
    decreases n
  {
    if s == [] {
    } else if n - 1 in s {
      var k :| 0 <= k < |s| && s[k] == n - 1;
      var others := s[..k] + s[k + 1..];
      forall j | 0 <= j < |others|
        ensures others[j] < n - 1
      {
        assert others[j] == s[if j < k then j else j + 1];
      }
      Pigeonhole(others, n - 1);
    } else if n > 0 {
      Pigeonhole(s, n - 1);
    }
  }

  /** As long as some transaction has not ended, one of them can move. */
  lemma NoDeadlock(cs: seq<Client>)
    requires SystemOk(cs)
    requires exists i :: 0 <= i < |cs| && !cs[i].ended
    ensures exists m :: 0 <= m < |cs| && CanMove(cs, m)
  {
    var i :| 0 <= i < |cs| && !cs[i].ended;
    if Blocked(cs, i) {
      var m := ChainEnds(cs, i, []);
    } else {
      assert CanMove(cs, i);
    }
  }

  /** What is left to do: the locks still to take and the commits still to come. */
  function Work(cs: seq<Client>): nat {
    if cs == [] then 0
    else
      var c := cs[|cs| - 1];
      Work(cs[..|cs| - 1]) + (if c.ended then 0 else 1 + (if c.held <= |c.plan| then |c.plan| - c.held else 0))
  }

  lemma {:induction false} MoveWorks(cs: seq<Client>, i: nat)
    requires i < |cs| && SystemOk(cs) && CanMove(cs, i)
    ensures Work(Move(cs, i)) == Work(cs) - 1
  {
    OneLess(cs, i, Move(cs, i)[i]);
  }

  lemma {:induction false} OneLess(cs: seq<Client>, i: nat, d: Client)
    requires i < |cs| && !cs[i].ended && cs[i].held <= |cs[i].plan|
    requires d == (if cs[i].held < |cs[i].plan| then cs[i].(held := cs[i].held + 1) else cs[i].(ended := true))
    ensures Work(cs[i := d]) == Work(cs) - 1
  {
    var n := |cs| - 1;
    if i < n {
      OneLess(cs[..n], i, d);
      assert cs[i := d][..n] == cs[..n][i := d];
    } else {
      assert cs[i := d][..n] == cs[..n];
    }
  }

  /** The picks of a scheduler that only picks clients that can move, or the state it gets stuck in. */
  predicate Schedule(cs: seq<Client>, picks: seq<nat>)
    decreases |picks|
  {
    picks == [] || (picks[0] < |cs| && CanMove(cs, picks[0]) && Schedule(Move(cs, picks[0]), picks[1..]))
  }

  function Outcome(cs: seq<Client>, picks: seq<nat>): seq<Client>
    requires Schedule(cs, picks)
    decreases |picks|
  {
    if picks == [] then cs else Outcome(Move(cs, picks[0]), picks[1..])
  }

  /**
   * However the scheduler picks among the transactions that can move, it can go on until all of them have ended, and
   * that takes one move for each lock and one for each commit.
   */
  lemma {:induction false} EveryScheduleEnds(cs: seq<Client>, picks: seq<nat>)
    requires SystemOk(cs) && Schedule(cs, picks)
    ensures var ds := Outcome(cs, picks);
            && SystemOk(ds) && |ds| == |cs| && Work(ds) + |picks| == Work(cs)
            && ((forall i :: 0 <= i < |ds| ==> ds[i].ended) <==> |picks| == Work(cs))
            && (|picks| < Work(cs) ==> exists m :: 0 <= m < |ds| && CanMove(ds, m))
    decreases |picks|
  {
    if picks == [] {
      if forall i :: 0 <= i < |cs| ==> cs[i].ended {
        AllEnded(cs);
      } else {
        NoDeadlock(cs);
        SomeWork(cs);
      }
    } else {
      MoveKeeps(cs, picks[0]);
      MoveWorks(cs, picks[0]);
      EveryScheduleEnds(Move(cs, picks[0]), picks[1..]);
    }
  }

  lemma {:induction false} SomeWork(cs: seq<Client>)
    requires exists i :: 0 <= i < |cs| && !cs[i].ended
    ensures Work(cs) > 0
  {
    var i :| 0 <= i < |cs| && !cs[i].ended;
    if i < |cs| - 1 {
      assert cs[..|cs| - 1][i] == cs[i];
      SomeWork(cs[..|cs| - 1]);
    }
  }

  lemma {:induction false} AllEnded(cs: seq<Client>)
    requires forall i :: 0 <= i < |cs| ==> cs[i].ended
    ensures Work(cs) == 0
  {
    if cs != [] {
      AllEnded(cs[..|cs| - 1]);
    }
  }

  /** Transactions about to take the locks of these traces, none of them started. */
  function Start(traces: seq<seq<Lock>>): seq<Client> {
    seq(|traces|, i requires 0 <= i < |traces| => Client(traces[i], 0, false))
  }

  /** Any number of transactions with ascending traces run to the end, however they are scheduled. */
  lemma TracesFinish(traces: seq<seq<Lock>>, picks: seq<nat>)
    requires forall i :: 0 <= i < |traces| ==> Ascending(traces[i])
    requires Schedule(Start(traces), picks)
    ensures var cs := Outcome(Start(traces), picks);
            (exists m :: 0 <= m < |cs| && CanMove(cs, m)) || (forall i :: 0 <= i < |cs| ==> cs[i].ended)
    ensures |picks| <= Work(Start(traces))
  {
    EveryScheduleEnds(Start(traces), picks);
  }
}
