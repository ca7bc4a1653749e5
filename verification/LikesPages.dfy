/** Keyset paging of the most-liked feed by (likes_count, id). */
module LikesPages {
  datatype Video = Video(id: nat, likes: int)
  datatype Cursor = Start | After(likes: int, id: nat)

  /** ORDER BY likes_count DESC, id DESC. */
  predicate Above(v: Video, w: Video) {
    v.likes > w.likes || (v.likes == w.likes && v.id > w.id)
  }

  /** The WHERE clause of a page after a cursor. */
  predicate Below(v: Video, c: Cursor) {
    c == Start || v.likes < c.likes || (v.likes == c.likes && v.id < c.id)
  }

  function Filter(s: seq<Video>, c: Cursor): seq<Video> {
    if s == [] then [] else if Below(s[0], c) then [s[0]] + Filter(s[1..], c) else Filter(s[1..], c)
  }

  function Insert(v: Video, s: seq<Video>): seq<Video> {
    if s == [] || Above(v, s[0]) then [v] + s else [s[0]] + Insert(v, s[1..])
  }

  function Sorted(s: seq<Video>): seq<Video> {
    if s == [] then [] else Insert(s[0], Sorted(s[1..]))
  }

  /** A table in any storage order; the primary key is never 0 and never repeated. */
  ghost predicate Table(s: seq<Video>) {
    (forall i :: 0 <= i < |s| ==> s[i].id > 0) && (forall i, j :: 0 <= i < j < |s| ==> s[i].id != s[j].id)
  }

  ghost predicate Descending(s: seq<Video>) {
    forall i, j :: 0 <= i < j < |s| ==> Above(s[i], s[j])
  }

  /** One page of ListLikesCountWithCursor. */
  function Query(table: seq<Video>, c: Cursor, limit: nat): (page: seq<Video>) {
    var found := Sorted(Filter(table, c));
    if |found| <= limit then found else found[..limit]
  }

  /** The part of a bucket that the likes feed keeps between pages; id 0 means no cursor yet. */
  class Bucket {
    var scoreBefore: int
    var idBefore: nat

    constructor ()
      ensures CursorOf() == Start
    {
      scoreBefore, idBefore := 0, 0;
    }

    function CursorOf(): Cursor
      reads this
    {
      if idBefore > 0 then After(scoreBefore, idBefore) else Start
    }

    /** Fetches a page and moves the cursor to its last video. */
    method FetchVideoList(table: seq<Video>, limit: nat) returns (videos: seq<Video>)
      requires Table(table)
      modifies this
      ensures videos == Query(table, old(CursorOf()), limit)
      ensures IsPage(table, old(CursorOf()), limit, videos)
      ensures CursorOf() == if videos == [] then old(CursorOf()) else CursorAt(videos[|videos| - 1])
    {
      var cursor := Start;
      if idBefore > 0 {
        cursor := After(scoreBefore, idBefore);
      }
      videos := Query(table, cursor, limit);
      QueryIsPage(table, cursor, limit);
      if |videos| > 0 {
        var last := videos[|videos| - 1];
        Members(table, cursor, last);
        scoreBefore := last.likes;
        idBefore := last.id;
      }
    }
  }

  function CursorAt(v: Video): Cursor {
    After(v.likes, v.id)
  }

  lemma {:induction false} InsertMembers(v: Video, s: seq<Video>, x: Video)
    ensures x in Insert(v, s) <==> x == v || x in s
  {
    if s != [] && !Above(v, s[0]) {
      InsertMembers(v, s[1..], x);
    }
  }

  lemma {:induction false} SortedMembers(s: seq<Video>, x: Video)
    ensures x in Sorted(s) <==> x in s
  {
    if s != [] {
      SortedMembers(s[1..], x);
      InsertMembers(s[0], Sorted(s[1..]), x);
    }
  }

  lemma {:induction false} FilterMembers(s: seq<Video>, c: Cursor, x: Video)
    ensures x in Filter(s, c) <==> x in s && Below(x, c)
  {
    if s != [] {
      FilterMembers(s[1..], c, x);
    }
  }

  /** A page holds rows of the table only. */
  lemma Members(table: seq<Video>, c: Cursor, v: Video)
    requires v in Sorted(Filter(table, c))
    ensures v in table && Below(v, c)
  {
    SortedMembers(Filter(table, c), v);
    FilterMembers(table, c, v);
  }

  lemma {:induction false} InsertDescending(v: Video, s: seq<Video>)
    requires Descending(s) && (forall i :: 0 <= i < |s| ==> s[i].id != v.id)
    ensures Descending(Insert(v, s))
  {
    if s != [] && !Above(v, s[0]) {
      InsertDescending(v, s[1..]);
      var rest := Insert(v, s[1..]);
      forall i | 0 <= i < |rest|
        ensures Above(s[0], rest[i])
      {
        InsertMembers(v, s[1..], rest[i]);
      }
    }
  }

  /** Sorting a table puts it in strictly descending order. */
  lemma {:induction false} SortedDescends(s: seq<Video>)
    requires Table(s)
    ensures Descending(Sorted(s))
  {
    if s != [] {
      SortedDescends(s[1..]);
      var rest := Sorted(s[1..]);
      forall i | 0 <= i < |rest|
        ensures rest[i].id != s[0].id
      {
        SortedMembers(s[1..], rest[i]);
      }
      InsertDescending(s[0], rest);
    }
  }

  lemma {:induction false} FilterInsert(v: Video, s: seq<Video>, c: Cursor)
    requires Descending(s) && (forall i :: 0 <= i < |s| ==> s[i].id != v.id)
    ensures Filter(Insert(v, s), c) == if Below(v, c) then Insert(v, Filter(s, c)) else Filter(s, c)
  {
    if s == [] {
    } else if Above(v, s[0]) {
      assert ([v] + s)[1..] == s;
      if Below(v, c) {
        AllBelow(v, s, c);
      }
    } else {
      FilterInsert(v, s[1..], c);
      assert Insert(v, s)[1..] == Insert(v, s[1..]);
      assert ([s[0]] + Filter(s[1..], c))[1..] == Filter(s[1..], c);
    }
  }

  /** If v is below the cursor and above the whole list, the list is below the cursor too. */
  lemma {:induction false} AllBelow(v: Video, s: seq<Video>, c: Cursor)
    requires Descending(s) && (s == [] || Above(v, s[0])) && Below(v, c)
    ensures Filter(s, c) == s && Insert(v, s) == [v] + s
  {
    if s != [] {
      AllBelow(v, s[1..], c);
    }
  }

  /** Filtering before or after sorting is the same. */
  lemma {:induction false} SortFilter(s: seq<Video>, c: Cursor)
    requires Table(s)
    ensures Sorted(Filter(s, c)) == Filter(Sorted(s), c)
  {
    if s != [] {
      SortFilter(s[1..], c);
      SortedDescends(s[1..]);
      var rest := Sorted(s[1..]);
      forall i | 0 <= i < |rest|
        ensures rest[i].id != s[0].id
      {
        SortedMembers(s[1..], rest[i]);
      }
      FilterInsert(s[0], rest, c);
      if Below(s[0], c) {
        assert Filter(s, c) == [s[0]] + Filter(s[1..], c);
        assert Filter(s, c)[1..] == Filter(s[1..], c);
      } else {
        assert Filter(s, c) == Filter(s[1..], c);
      }
    }
  }

  /** Below the k-th video of a descending list lies exactly the rest of the list. */
  lemma {:induction false} BelowSuffix(s: seq<Video>, k: nat)
    requires Descending(s) && k < |s|
    ensures Filter(s, CursorAt(s[k])) == s[k + 1..]
  {
    if k == 0 {
      assert !Below(s[0], CursorAt(s[0]));
      if |s| > 1 {
        NoneFiltered(s[1..], s[0]);
      }
    } else {
      BelowSuffix(s[1..], k - 1);
      assert s[1..][k..] == s[k + 1..];
    }
  }

  lemma {:induction false} NoneFiltered(s: seq<Video>, v: Video)
    requires forall i :: 0 <= i < |s| ==> Above(v, s[i])
    ensures Filter(s, CursorAt(v)) == s
  {
    if s != [] {
      NoneFiltered(s[1..], v);
    }
  }

  /** The rows still to come after a cursor. */
  function Rest(table: seq<Video>, c: Cursor): seq<Video> {
    Sorted(Filter(table, c))
  }

  /** A page is the first part of what is still to come; the cursor it leaves leads to the other part. */
  lemma PageSplits(table: seq<Video>, c: Cursor, limit: nat)
    requires Table(table) && limit > 0 && Rest(table, c) != []
    ensures var page := Query(table, c, limit);
            page != [] && Rest(table, c) == page + Rest(table, CursorAt(page[|page| - 1]))
  {
    hide Filter, Sorted, Table, Descending;
    var page := Query(table, c, limit);
    SortedDescends(table);
    SortFilter(table, c);
    SortFilter(table, CursorAt(page[|page| - 1]));
    SuffixSplits(Sorted(table), c, |page|);
  }

  lemma SuffixSplits(all: seq<Video>, c: Cursor, n: nat)
    requires Descending(all) && 0 < n <= |Filter(all, c)|
    ensures Filter(all, c) == Filter(all, c)[..n] + Filter(all, CursorAt(Filter(all, c)[n - 1]))
  {
    hide Filter, Descending;
    FilterIsSuffix(all, c);
    var p := |all| - |Filter(all, c)|;
    BelowSuffix(all, p + n - 1);
    assert all[p..][n..] == all[p + n..];
  }

  /** What lies below a cursor is the end of a descending list. */
  lemma {:induction false} FilterIsSuffix(s: seq<Video>, c: Cursor)
    requires Descending(s)
    ensures |Filter(s, c)| <= |s| && Filter(s, c) == s[|s| - |Filter(s, c)|..]
  {
    if s != [] {
      FilterIsSuffix(s[1..], c);
      if Below(s[0], c) {
        AllBelowFirst(s, c);
      }
    }
  }

  lemma {:induction false} AllBelowFirst(s: seq<Video>, c: Cursor)
    requires Descending(s) && s != [] && Below(s[0], c)
    ensures Filter(s, c) == s
  {
    if |s| > 1 {
      assert Above(s[0], s[1]);
      AllBelowFirst(s[1..], c);
    }
  }

  /** The rows of a table that come after a cursor: fewer likes, or as many and a smaller id. */
  predicate ComesAfter(v: Video, c: Cursor) {
    match c
    case Start => true
    case After(likes, id) => v.likes < likes || (v.likes == likes && v.id < id)
  }

  /** How many rows of the table come after the cursor. */
  function Remaining(table: seq<Video>, c: Cursor): nat {
    if table == [] then 0 else (if ComesAfter(table[0], c) then 1 else 0) + Remaining(table[1..], c)
  }

  /**
   * What a page is: limit rows that come after the cursor, or all of them if there are fewer; most likes first and on a
   * tie the greater id; and every row left out comes after every row on it.
   */
  ghost predicate IsPage(table: seq<Video>, c: Cursor, limit: nat, page: seq<Video>) {
    && |page| == (if Remaining(table, c) <= limit then Remaining(table, c) else limit)
    && (forall v :: v in page ==> v in table && ComesAfter(v, c))
    && (forall i, j :: 0 <= i < j < |page| ==>
          page[i].likes > page[j].likes || (page[i].likes == page[j].likes && page[i].id > page[j].id))
    && (forall v, w :: v in page && w in table && w !in page && ComesAfter(w, c) ==>
          v.likes > w.likes || (v.likes == w.likes && v.id > w.id))
  }

  lemma {:induction false} FilterLength(s: seq<Video>, c: Cursor)
    ensures |Filter(s, c)| == Remaining(s, c)
  {
    if s != [] {
      FilterLength(s[1..], c);
    }
  }

  lemma {:induction false} InsertLength(v: Video, s: seq<Video>)
    ensures |Insert(v, s)| == |s| + 1
  {
    if s != [] && !Above(v, s[0]) {
      InsertLength(v, s[1..]);
    }
  }

  lemma {:induction false} SortedLength(s: seq<Video>)
    ensures |Sorted(s)| == |s|
  {
    if s != [] {
      SortedLength(s[1..]);
      InsertLength(s[0], Sorted(s[1..]));
    }
  }

  lemma {:induction false} FilterTable(s: seq<Video>, c: Cursor)
    requires Table(s)
    ensures Table(Filter(s, c)) && forall v :: v in Filter(s, c) ==> v in s
  {
    if s != [] {
      FilterTable(s[1..], c);
      var rest := Filter(s[1..], c);
      forall i | 0 <= i < |rest|
        ensures rest[i].id != s[0].id && rest[i].id > 0
      {
        assert rest[i] in rest;
      }
    }
  }

  lemma SameCondition(v: Video, c: Cursor)
    ensures Below(v, c) <==> ComesAfter(v, c)
  {
    assert c.Start? || c.After?;
  }

  /** The query returns such a page. */
  lemma QueryIsPage(table: seq<Video>, c: Cursor, limit: nat)
    requires Table(table)
    ensures IsPage(table, c, limit, Query(table, c, limit))
  {
    hide Filter, Sorted, Table, ComesAfter;
    var found := Filter(table, c);
    var all := Sorted(found);
    FilterTable(table, c);
    FilterLength(table, c);
    SortedLength(found);
    SortedDescends(found);
    var page := Query(table, c, limit);
    forall v
      ensures v in all <==> v in table && ComesAfter(v, c)
    {
      SortedMembers(found, v);
      FilterMembers(table, c, v);
      SameCondition(v, c);
    }
    assert forall i :: 0 <= i < |page| ==> page[i] == all[i];
    forall v, w | v in page && w in table && w !in page && ComesAfter(w, c)
      ensures v.likes > w.likes || (v.likes == w.likes && v.id > w.id)
    {
      var i :| 0 <= i < |page| && page[i] == v;
      var j :| 0 <= j < |all| && all[j] == w;
      assert j >= |page|;
    }
  }

  /** A client follows the cursor page by page until a page is empty. */
  function Walk(table: seq<Video>, c: Cursor, limit: nat): seq<Video>
    requires limit > 0
    requires Table(table)
    decreases |Rest(table, c)|
  {
    var page := Query(table, c, limit);
    if page == [] then []
    else
      PageSplits(table, c, limit);
      page + Walk(table, CursorAt(page[|page| - 1]), limit)
  }

  /** Over a fixed table the walk ends, and its pages are the whole table in order: nothing repeated, nothing missed. */
  lemma {:induction false} WalkFrom(table: seq<Video>, c: Cursor, limit: nat)
    requires limit > 0 && Table(table)
    ensures Walk(table, c, limit) == Rest(table, c)
    decreases |Rest(table, c)|
  {
    hide Filter, Sorted, Table;
    if Rest(table, c) != [] {
      PageSplits(table, c, limit);
      var page := Query(table, c, limit);
      WalkFrom(table, CursorAt(page[|page| - 1]), limit);
    }
  }

  lemma WalkIsExact(table: seq<Video>, limit: nat)
    requires limit > 0 && Table(table)
    ensures Walk(table, Start, limit) == Sorted(table)
    ensures var w := Walk(table, Start, limit);
            forall i, j :: 0 <= i < j < |w| ==>
                w[i].likes > w[j].likes || (w[i].likes == w[j].likes && w[i].id > w[j].id)
    ensures forall v :: v in Walk(table, Start, limit) <==> v in table
  {
    WalkFrom(table, Start, limit);
    NoFilter(table);
    SortedDescends(table);
    forall v
      ensures v in Sorted(table) <==> v in table
    {
      SortedMembers(table, v);
    }
  }

  lemma {:induction false} NoFilter(s: seq<Video>)
    ensures Filter(s, Start) == s
  {
    if s != [] {
      NoFilter(s[1..]);
    }
  }
}
