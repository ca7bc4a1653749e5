/** The hot-video ranking: scores weighted when written rank like scores decayed when read. */
module HotRank {
  const DECAY_EPOCH: int := 1735689600

  datatype Update = Update(id: nat, change: int, at: int)

  /** A product and a function value, each under a name of its own. */
  function Mul(x: real, y: real): real { x * y }

  function Exp(e: real -> real, x: real): real { e(x) }

  /** All that is used of the exponential function. */
  ghost predicate IsExp(e: real -> real) {
    (forall x :: Exp(e, x) > 0.0) && (forall x, y :: Exp(e, x + y) == Mul(Exp(e, x), Exp(e, y)))
  }

  /** The growth of a weight from the epoch to a time of writing, and the decay from one time to another. */
  function Growth(rate: real, at: int): real { Mul(rate, (at - DECAY_EPOCH) as real) }

  function Decay(rate: real, at: int, t: int): real { -Mul(rate, (t - at) as real) }

  /** A change weighted by its time of writing. */
  function Weighted(e: real -> real, rate: real, u: Update): real {
    Mul(u.change as real, Exp(e, Growth(rate, u.at)))
  }

  /** The same change as it has decayed by time t. */
  function Decayed(e: real -> real, rate: real, u: Update, t: int): real {
    Mul(u.change as real, Exp(e, Decay(rate, u.at, t)))
  }

  function StoredScore(e: real -> real, rate: real, h: seq<Update>, id: nat): real {
    if h == [] then 0.0
    else StoredScore(e, rate, h[..|h| - 1], id) + (if h[|h| - 1].id == id then Weighted(e, rate, h[|h| - 1]) else 0.0)
  }

  /** The true decayed popularity of a video at time t, over the whole history of changes. */
  function TrueScore(e: real -> real, rate: real, h: seq<Update>, id: nat, t: int): real {
    if h == [] then 0.0
    else
      TrueScore(e, rate, h[..|h| - 1], id, t)
      + (if h[|h| - 1].id == id then Decayed(e, rate, h[|h| - 1], t) else 0.0)
  }

  ghost predicate Changed(h: seq<Update>, id: nat) {
    h != [] && (h[|h| - 1].id == id || Changed(h[..|h| - 1], id))
  }

  class HotBoard {
    const exp: real -> real
    const rate: real
    var scores: map<nat, real> // the sorted set hot:video:decay
    ghost var history: seq<Update> // the changes that were not ignored

    ghost predicate Valid()
      reads this
    {
      forall id :: (id in scores <==> Changed(history, id))
                && (id in scores ==> scores[id] == StoredScore(exp, rate, history, id))
    }

    constructor (exp: real -> real, rate: real)
      ensures Valid() && history == [] && this.exp == exp && this.rate == rate
    {
      this.exp, this.rate := exp, rate;
      scores, history := map[], [];
    }

    /** Adds one weighted change to the video's stored score; video 0 and empty changes are ignored. */
    method UpdatePopularityCache(id: nat, change: int, now: int)
      requires Valid()
      modifies this
      ensures Valid()
      ensures history == if id == 0 || change == 0 then old(history) else old(history) + [Update(id, change, now)]
    {
      if id == 0 || change == 0 {
        return;
      }
      var weightedScore := Mul(change as real, Exp(exp, Mul(rate, (now - DECAY_EPOCH) as real)));
      if id !in scores {
        NeverChanged(exp, rate, history, id);
      }
      scores := scores[id := (if id in scores then scores[id] else 0.0) + weightedScore];
      history := history + [Update(id, change, now)];
      assert history[..|old(history)|] == old(history);
    }
  }

  lemma {:induction false} NeverChanged(e: real -> real, rate: real, h: seq<Update>, id: nat)
    requires !Changed(h, id)
    ensures StoredScore(e, rate, h, id) == 0.0
  {
    if h != [] {
      NeverChanged(e, rate, h[..|h| - 1], id);
    }
  }

  lemma Associate(a: real, b: real, c: real)
    ensures Mul(a, Mul(b, c)) == Mul(Mul(a, b), c)
  {
  }

  lemma Distribute(a: real, b: real, c: real)
    ensures Mul(a + b, c) == Mul(a, c) + Mul(b, c)
    ensures Mul(c, a + b) == Mul(c, a) + Mul(c, b)
  {
  }

  /**
   * Decaying from the write to the read is growing from the epoch to the write and decaying from the epoch to the read.
   */
  lemma Shift(rate: real, at: int, t: int)
    ensures Decay(rate, at, t) == Growth(rate, at) + Decay(rate, DECAY_EPOCH, t)
  {
    hide Mul;
    var p, q := (t - at) as real, (at - DECAY_EPOCH) as real;
    assert (t - DECAY_EPOCH) as real == p + q;
    Distribute(p, q, rate);
  }

  lemma ExpSum(e: real -> real, x: real, y: real)
    requires IsExp(e)
    ensures Exp(e, x + y) == Mul(Exp(e, x), Exp(e, y)) && Exp(e, x) > 0.0
  {
    hide Mul;
  }

  lemma ExpZero(e: real -> real)
    requires IsExp(e)
    ensures Exp(e, 0.0) == 1.0
  {
    ExpSum(e, 0.0, 0.0);
    Scaling(1.0, Exp(e, 0.0), Exp(e, 0.0));
    SameMul(1.0, Exp(e, 0.0));
  }

  /** A change counts in full when it is made. */
  lemma CountsInFull(e: real -> real, rate: real, u: Update)
    requires IsExp(e)
    ensures Decayed(e, rate, u, u.at) == u.change as real
  {
    ExpZero(e);
    assert Decay(rate, u.at, u.at) == 0.0;
    SameMul(u.change as real, 1.0);
  }

  /** Each s seconds shrink it by exp(-rate * s). */
  lemma DecaysWithAge(e: real -> real, rate: real, u: Update, t: int, s: int)
    requires IsExp(e)
    ensures Decayed(e, rate, u, t + s) == Decayed(e, rate, u, t) * e(-(rate * s as real))
  {
    var p, q := (t - u.at) as real, s as real;
    assert (t + s - u.at) as real == p + q;
    Distribute(p, q, rate);
    SameMul(rate, q);
    var x := -(rate * q);
    hide Mul, IsExp;
    assert Decay(rate, u.at, t + s) == Decay(rate, u.at, t) + x;
    ExpSum(e, Decay(rate, u.at, t), x);
    Associate(u.change as real, Exp(e, Decay(rate, u.at, t)), Exp(e, x));
    SameMul(Decayed(e, rate, u, t), Exp(e, x));
  }

  lemma SameMul(x: real, y: real)
    ensures Mul(x, y) == x * y
  {
  }

  /**
   * The stored weight of a change is the change itself at the start of 2025, and exp(rate * s) times it s seconds
   * later.
   */
  lemma WeightGrows(e: real -> real, rate: real, u: Update, s: int)
    requires IsExp(e) && u.at == 1735689600 + s
    ensures Weighted(e, rate, u) == u.change as real * e(rate * s as real)
  {
    var x := rate * s as real;
    SameMul(rate, s as real);
    assert Growth(rate, u.at) == x;
    SameMul(u.change as real, Exp(e, x));
  }

  /** One change: its decayed value is its stored weight times a factor that depends on the read time only. */
  lemma DecayFactor(e: real -> real, rate: real, u: Update, t: int)
    requires IsExp(e)
    ensures Decayed(e, rate, u, t) == Mul(Weighted(e, rate, u), Exp(e, Decay(rate, DECAY_EPOCH, t)))
  {
    hide IsExp, Mul, Exp, Growth, Decay;
    Shift(rate, u.at, t);
    ExpSum(e, Growth(rate, u.at), Decay(rate, DECAY_EPOCH, t));
    Associate(u.change as real, Exp(e, Growth(rate, u.at)), Exp(e, Decay(rate, DECAY_EPOCH, t)));
  }

  lemma {:induction false} ScoreFactor(e: real -> real, rate: real, h: seq<Update>, id: nat, t: int)
    requires IsExp(e)
    ensures TrueScore(e, rate, h, id, t) == Mul(StoredScore(e, rate, h, id), Exp(e, Decay(rate, DECAY_EPOCH, t)))
  {
    var f := Exp(e, Decay(rate, DECAY_EPOCH, t));
    if h == [] {
      assert Mul(0.0, f) == 0.0;
    } else {
      hide IsExp, Mul, Exp, Decay, Weighted, Decayed;
      var rest, u := h[..|h| - 1], h[|h| - 1];
      ScoreFactor(e, rate, rest, id, t);
      DecayFactor(e, rate, u, t);
      Distribute(StoredScore(e, rate, rest, id), Weighted(e, rate, u), f);
    }
  }

  /** At any read time, ranking by the stored scores is ranking by the truly decayed scores, ties included. */
  lemma RankingAgrees(e: real -> real, rate: real, h: seq<Update>, a: nat, b: nat, t: int)
    requires IsExp(e)
    ensures StoredScore(e, rate, h, a) < StoredScore(e, rate, h, b)
            <==> TrueScore(e, rate, h, a, t) < TrueScore(e, rate, h, b, t)
    ensures StoredScore(e, rate, h, a) == StoredScore(e, rate, h, b)
            <==> TrueScore(e, rate, h, a, t) == TrueScore(e, rate, h, b, t)
  {
    hide IsExp, StoredScore, TrueScore, Mul, Exp, Decay;
    ScoreFactor(e, rate, h, a, t);
    ScoreFactor(e, rate, h, b, t);
    ExpSum(e, Decay(rate, DECAY_EPOCH, t), 0.0);
    Scaling(StoredScore(e, rate, h, a), StoredScore(e, rate, h, b), Exp(e, Decay(rate, DECAY_EPOCH, t)));
  }

  lemma Scaling(x: real, y: real, f: real)
    requires f > 0.0
    ensures x < y <==> Mul(x, f) < Mul(y, f)
    ensures x == y <==> Mul(x, f) == Mul(y, f)
  {
    if x < y {
      assert (y - x) * f > 0.0;
    } else if y < x {
      assert (x - y) * f > 0.0;
    }
  }

  /** What the board holds ranks two videos as their truly decayed popularity does at any read time. */
  lemma BoardRanksTruly(board: HotBoard, a: nat, b: nat, t: int)
    requires board.Valid() && IsExp(board.exp) && a in board.scores && b in board.scores
    ensures board.scores[a] < board.scores[b]
            <==> TrueScore(board.exp, board.rate, board.history, a, t)
                 < TrueScore(board.exp, board.rate, board.history, b, t)
  {
    hide IsExp, StoredScore, TrueScore;
    RankingAgrees(board.exp, board.rate, board.history, a, b, t);
  }
}
