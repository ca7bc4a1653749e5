/** Merging the inbox and outbox lists of the following feed. */
module FeedMerge {
  datatype Video = Video(id: nat, created: int)

  ghost predicate Descending(s: seq<Video>) {
    forall i, j :: 0 <= i < j < |s| ==> s[i].created >= s[j].created
  }

  /** The whole merge; on a tie the second list goes first. */
  function Merge(a: seq<Video>, b: seq<Video>): seq<Video> {
    if a == [] then b
    else if b == [] then a
    else if a[0].created > b[0].created then [a[0]] + Merge(a[1..], b)
    else [b[0]] + Merge(a, b[1..])
  }

  /** The first limit elements of the merge. */
  method MergeByCreateTime(a: seq<Video>, b: seq<Video>, limit: nat) returns (result: seq<Video>)
    ensures |result| == if limit < |a| + |b| then limit else |a| + |b|
    ensures result <= Merge(a, b)
  {
    result := [];
    var i, j := 0, 0;
    MergeLength(a, b);
    hide Merge;
    while |result| < limit && (i < |a| || j < |b|)
      invariant i <= |a| && j <= |b| && |result| == i + j && |result| <= limit
      invariant Merge(a, b) == result + Merge(a[i..], b[j..])
      decreases |a| + |b| - i - j
    {
      var pick;
      MergeStep(a[i..], b[j..]);
      if i >= |a| {
        pick := b[j];
        j := j + 1;
      } else if j >= |b| {
        pick := a[i];
        i := i + 1;
      } else if a[i].created > b[j].created {
        pick := a[i];
        i := i + 1;
      } else {
        pick := b[j];
        j := j + 1;
      }
      result := result + [pick];
    }
  }

  /** The element the loop picks is the next one of the merge. */
  lemma MergeStep(a: seq<Video>, b: seq<Video>)
    requires a != [] || b != []
    ensures a == [] || (b != [] && a[0].created <= b[0].created) ==> b != [] && Merge(a, b) == [b[0]] + Merge(a, b[1..])
    ensures b == [] || (a != [] && a[0].created > b[0].created) ==> a != [] && Merge(a, b) == [a[0]] + Merge(a[1..], b)
  {
  }

  lemma {:induction false} MergeLength(a: seq<Video>, b: seq<Video>)
    ensures |Merge(a, b)| == |a| + |b|
    decreases |a| + |b|
  {
    if a != [] && b != [] {
      if a[0].created > b[0].created {
        MergeLength(a[1..], b);
      } else {
        MergeLength(a, b[1..]);
      }
    }
  }

  /** A merge of descending lists is descending and starts with the newest video of either. */
  lemma {:induction false} MergeDescends(a: seq<Video>, b: seq<Video>)
    requires Descending(a) && Descending(b)
    ensures Descending(Merge(a, b))
    ensures forall k :: 0 <= k < |Merge(a, b)| ==>
              (a != [] && Merge(a, b)[k].created <= a[0].created) || (b != [] && Merge(a, b)[k].created <= b[0].created)
    decreases |a| + |b|
  {
    if a != [] && b != [] {
      if a[0].created > b[0].created {
        MergeDescends(a[1..], b);
      } else {
        MergeDescends(a, b[1..]);
      }
    }
  }

  /** With i videos of the first list and j of the second taken, every tie went to the second. */
  ghost predicate TiesToSecond(a: seq<Video>, b: seq<Video>, i: nat, j: nat)
    requires i <= |a| && j <= |b|
  {
    && (forall x, y :: 0 <= x < i && j <= y < |b| ==> a[x].created > b[y].created)
    && (forall x, y :: i <= x < |a| && 0 <= y < j ==> b[y].created >= a[x].created)
  }

  lemma FirstTies(a: seq<Video>, b: seq<Video>, i: nat, j: nat)
    requires 0 < i <= |a| && j <= |b| && b != [] && Descending(b) && a[0].created > b[0].created
    requires TiesToSecond(a[1..], b, i - 1, j)
    ensures TiesToSecond(a, b, i, j)
  {
    forall x, y | 0 <= x < i && j <= y < |b|
      ensures a[x].created > b[y].created
    {
      assert b[0].created >= b[y].created;
      assert x > 0 ==> a[x] == a[1..][x - 1];
    }
    forall x, y | i <= x < |a| && 0 <= y < j
      ensures b[y].created >= a[x].created
    {
      assert a[x] == a[1..][x - 1];
    }
  }

  lemma SecondTies(a: seq<Video>, b: seq<Video>, i: nat, j: nat)
    requires i <= |a| && 0 < j <= |b| && a != [] && Descending(a) && a[0].created <= b[0].created
    requires TiesToSecond(a, b[1..], i, j - 1)
    ensures TiesToSecond(a, b, i, j)
  {
    forall x, y | 0 <= x < i && j <= y < |b|
      ensures a[x].created > b[y].created
    {
      assert b[y] == b[1..][y - 1];
    }
    forall x, y | i <= x < |a| && 0 <= y < j
      ensures b[y].created >= a[x].created
    {
      assert a[0].created >= a[x].created;
      assert y > 0 ==> b[y] == b[1..][y - 1];
    }
  }

  /**
   * The first n merged elements merge a prefix of each list, and the others merge the rests: nothing twice, nothing
   * skipped.
   */
  lemma {:induction false} PrefixesMerged(a: seq<Video>, b: seq<Video>, n: nat) returns (i: nat, j: nat)
    requires n <= |a| + |b|
    ensures i <= |a| && j <= |b| && i + j == n
    ensures Merge(a, b) == Merge(a[..i], b[..j]) + Merge(a[i..], b[j..])
    ensures Descending(a) && Descending(b) ==> TiesToSecond(a, b, i, j)
    decreases |a| + |b|
  {
    hide Merge, TiesToSecond;
    if n == 0 {
      i, j := 0, 0;
      OneSided(a, b, i, j);
    } else if a == [] {
      i, j := 0, n;
      OneSided(a, b, i, j);
    } else if b == [] {
      i, j := n, 0;
      OneSided(a, b, i, j);
    } else if a[0].created > b[0].created {
      var k;
      k, j := PrefixesMerged(a[1..], b, n - 1);
      i := k + 1;
      FirstPicked(a, b, i, j);
      if Descending(a) && Descending(b) {
        FirstTies(a, b, i, j);
      }
    } else {
      var k;
      i, k := PrefixesMerged(a, b[1..], n - 1);
      j := k + 1;
      SecondPicked(a, b, i, j);
      if Descending(a) && Descending(b) {
        SecondTies(a, b, i, j);
      }
    }
  }

  lemma OneSided(a: seq<Video>, b: seq<Video>, i: nat, j: nat)
    requires i <= |a| && j <= |b| && (i == j == 0 || a == [] || b == [])
    ensures Merge(a, b) == Merge(a[..i], b[..j]) + Merge(a[i..], b[j..]) && TiesToSecond(a, b, i, j)
  {
    assert a[0..] == a && b[0..] == b;
  }

  lemma FirstPicked(a: seq<Video>, b: seq<Video>, i: nat, j: nat)
    requires a != [] && b != [] && a[0].created > b[0].created && 0 < i <= |a| && j <= |b|
    requires Merge(a[1..], b) == Merge(a[1..][..i - 1], b[..j]) + Merge(a[1..][i - 1..], b[j..])
    ensures Merge(a, b) == Merge(a[..i], b[..j]) + Merge(a[i..], b[j..])
  {
    hide Merge;
    assert a[..i][1..] == a[1..][..i - 1] && a[1..][i - 1..] == a[i..];
    MergeStep(a, b);
    MergeStep(a[..i], b[..j]);
  }

  lemma SecondPicked(a: seq<Video>, b: seq<Video>, i: nat, j: nat)
    requires a != [] && b != [] && a[0].created <= b[0].created && i <= |a| && 0 < j <= |b|
    requires Merge(a, b[1..]) == Merge(a[..i], b[1..][..j - 1]) + Merge(a[i..], b[1..][j - 1..])
    ensures Merge(a, b) == Merge(a[..i], b[..j]) + Merge(a[i..], b[j..])
  {
    hide Merge;
    assert b[..j][1..] == b[1..][..j - 1] && b[1..][j - 1..] == b[j..];
    MergeStep(a, b);
    MergeStep(a[..i], b[..j]);
  }

  lemma {:induction false} MergeContains(a: seq<Video>, b: seq<Video>, v: Video)
    ensures v in Merge(a, b) <==> v in a || v in b
    decreases |a| + |b|
  {
    if a != [] && b != [] {
      if a[0].created > b[0].created {
        MergeContains(a[1..], b, v);
      } else {
        MergeContains(a, b[1..], v);
      }
    }
  }

  /** Nothing is lost and nothing doubled. */
  lemma {:induction false} MergeConserves(a: seq<Video>, b: seq<Video>)
    ensures multiset(Merge(a, b)) == multiset(a) + multiset(b)
    decreases |a| + |b|
  {
    if a != [] && b != [] {
      if a[0].created > b[0].created {
        MergeConserves(a[1..], b);
        assert a == [a[0]] + a[1..];
      } else {
        MergeConserves(a, b[1..]);
        assert b == [b[0]] + b[1..];
      }
    }
  }

  /**
   * However many videos are taken, one of the first list goes before one of the second only if it is strictly newer,
   * and one of the second before one of the first if it is as new or newer.
   */
  lemma TiesFromSecond(a: seq<Video>, b: seq<Video>, n: nat) returns (i: nat, j: nat)
    requires Descending(a) && Descending(b) && n <= |a| + |b|
    ensures i <= |a| && j <= |b| && n <= |Merge(a, b)| && Merge(a, b)[..n] == Merge(a[..i], b[..j])
    ensures forall x, y :: 0 <= x < i && j <= y < |b| ==> a[x].created > b[y].created
    ensures forall x, y :: i <= x < |a| && 0 <= y < j ==> b[y].created >= a[x].created
  {
    hide Merge, Descending;
    i, j := PrefixesMerged(a, b, n);
    MergeLength(a[..i], b[..j]);
  }

  /**
   * The page merges a prefix of each list, newest first, ties from the second; it holds those prefixes' videos once
   * each, and nothing left out is newer than anything on it.
   */
  lemma PageIsNewest(a: seq<Video>, b: seq<Video>, page: seq<Video>) returns (i: nat, j: nat)
    requires Descending(a) && Descending(b) && page <= Merge(a, b)
    ensures Descending(page)
    ensures i <= |a| && j <= |b| && page == Merge(a[..i], b[..j]) && TiesToSecond(a, b, i, j)
    ensures multiset(page) == multiset(a[..i]) + multiset(b[..j])
    ensures forall v, w :: v in page && (w in a[i..] || w in b[j..]) ==> w.created <= v.created
  {
    hide Merge, TiesToSecond;
    MergeDescends(a, b);
    MergeLength(a, b);
    i, j := PrefixesMerged(a, b, |page|);
    MergeLength(a[..i], b[..j]);
    MergeConserves(a[..i], b[..j]);
    var rest := Merge(a[i..], b[j..]);
    assert Merge(a, b) == page + rest;
    forall v, w | v in page && (w in a[i..] || w in b[j..])
      ensures w.created <= v.created
    {
      MergeContains(a[i..], b[j..], w);
      FrontIsNewer(page, rest, v, w);
    }
  }

  lemma FrontIsNewer(page: seq<Video>, rest: seq<Video>, v: Video, w: Video)
    requires Descending(page + rest) && v in page && w in rest
    ensures w.created <= v.created
  {
    var x :| 0 <= x < |page| && page[x] == v;
    var y :| 0 <= y < |rest| && rest[y] == w;
    assert (page + rest)[x] == v && (page + rest)[|page| + y] == w;
  }
}
