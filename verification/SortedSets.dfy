/** Redis sorted sets: members ordered by score, then by the bytes of the member. */
module SortedSets {
  type ZSet = map<string, int>

  /** strconv.FormatInt in base 10. */
  function Decimal(n: nat): (s: string)
    ensures |s| > 0 && Value(s) == n
    ensures forall i :: 0 <= i < |s| ==> '0' <= s[i] <= '9'
    ensures |s| > 1 ==> s[0] != '0'
  {
    if n < 10 then [Digit(n)] else Decimal(n / 10) + [Digit(n % 10)]
  }

  function Digit(d: nat): char
    requires d < 10
  {
    '0' + d as char
  }

  function Value(s: string): int {
    if s == [] then 0 else 10 * Value(s[..|s| - 1]) + (s[|s| - 1] as int - '0' as int)
  }

  predicate Lex(a: string, b: string) {
    b != [] && (a == [] || a[0] < b[0] || (a[0] == b[0] && Lex(a[1..], b[1..])))
  }

  /** p ranks below q. */
  predicate Lower(z: ZSet, p: string, q: string)
    requires p in z && q in z
  {
    z[p] < z[q] || (z[p] == z[q] && Lex(p, q))
  }

  function Beneath(z: ZSet, p: string): set<string>
    requires p in z
  {
    set q | q in z && Lower(z, q, p)
  }

  function Over(z: ZSet, p: string): set<string>
    requires p in z
  {
    set q | q in z && Lower(z, p, q)
  }

  /** The k greatest members: those with fewer than k members over them. */
  ghost function Top(z: ZSet, k: nat): ZSet {
    map p | p in z && |Over(z, p)| < k :: z[p]
  }

  /** Resolves a rank that counts from the end, as Redis does. */
  function Index(i: int, n: nat): int {
    if i < 0 then n + i else i
  }

  /** ZREMRANGEBYRANK: drops the members whose rank from the lowest is in the range, both ends included. */
  function RemRangeByRank(z: ZSet, start: int, stop: int): ZSet {
    map p | p in z && !(Index(start, |z|) <= |Beneath(z, p)| <= Index(stop, |z|)) :: z[p]
  }

  lemma {:induction false} LexIrreflexive(a: string)
    ensures !Lex(a, a)
  {
    if a != [] {
      LexIrreflexive(a[1..]);
    }
  }

  /** Of two strings the smaller has the smaller character where they first differ, or ends there. */
  lemma {:induction false} LexFirstDifference(a: string, b: string, k: nat)
    requires k <= |a| && k <= |b| && a[..k] == b[..k]
    requires k == |a| || k == |b| || a[k] != b[k]
    ensures Lex(a, b) <==> k < |b| && (k == |a| || a[k] < b[k])
  {
    if k > 0 {
      assert a[1..][..k - 1] == a[..k][1..] == b[..k][1..] == b[1..][..k - 1];
      assert a[0] == a[..k][0] == b[..k][0] == b[0];
      LexFirstDifference(a[1..], b[1..], k - 1);
    }
  }

  lemma {:induction false} LexTransitive(a: string, b: string, c: string)
    requires Lex(a, b) && Lex(b, c)
    ensures Lex(a, c)
  {
    if a != [] && a[0] == b[0] == c[0] {
      LexTransitive(a[1..], b[1..], c[1..]);
    }
  }

  lemma {:induction false} LexTotal(a: string, b: string)
    ensures a == b || Lex(a, b) || Lex(b, a)
  {
    if a != [] && b != [] && a[0] == b[0] {
      LexTotal(a[1..], b[1..]);
      assert a == [a[0]] + a[1..] && b == [b[0]] + b[1..];
    }
  }

  lemma LowerTransitive(z: ZSet, p: string, q: string, r: string)
    requires p in z && q in z && r in z && Lower(z, p, q) && Lower(z, q, r)
    ensures Lower(z, p, r)
  {
    if z[p] == z[q] == z[r] {
      LexTransitive(p, q, r);
    }
  }

  lemma LowerTotal(z: ZSet, p: string, q: string)
    requires p in z && q in z
    ensures p == q || Lower(z, p, q) || Lower(z, q, p)
  {
    LexTotal(p, q);
  }

  lemma OverShrinks(z: ZSet, p: string, q: string)
    requires p in z && q in z && Lower(z, p, q)
    ensures Over(z, q) < Over(z, p) && |Over(z, q)| < |Over(z, p)|
  {
    hide Lex;
    forall r | r in Over(z, q)
      ensures r in Over(z, p)
    {
      LowerTransitive(z, p, q, r);
    }
    LexIrreflexive(q);
    assert q in Over(z, p) && q !in Over(z, q);
    Smaller(Over(z, q), Over(z, p));
  }

  lemma Smaller<T>(a: set<T>, b: set<T>)
    requires a <= b
    ensures |a| <= |b| && (a != b ==> |a| < |b|)
  {
    assert b == a + (b - a);
    if a != b {
      assert b - a != {};
    }
  }

  /** A rank from below and a rank from above add up to the size. */
  lemma RankSplits(z: ZSet, p: string)
    requires p in z
    ensures |Beneath(z, p)| + 1 + |Over(z, p)| == |z|
  {
    hide Lex;
    forall q | q in z
      ensures q in Beneath(z, p) + {p} + Over(z, p)
    {
      LowerTotal(z, p, q);
    }
    LexIrreflexive(p);
    forall q | q in Beneath(z, p)
      ensures q !in Over(z, p)
    {
      if q in Over(z, p) {
        LowerTransitive(z, p, q, p);
        assert false;
      }
    }
    assert z.Keys == Beneath(z, p) + {p} + Over(z, p);
    assert |Beneath(z, p) + {p}| == |Beneath(z, p)| + 1;
  }

  /** Removing ranks 0 to -(k+1) keeps exactly the k greatest members. */
  lemma TrimKeepsGreatest(z: ZSet, k: nat)
    ensures RemRangeByRank(z, 0, -(k + 1)) == Top(z, k)
  {
    hide Beneath, Over;
    forall p | p in z
      ensures p in RemRangeByRank(z, 0, -(k + 1)) <==> p in Top(z, k)
    {
      RankSplits(z, p);
    }
  }

  /** Whatever has k members over it has k of the top k over it. */
  lemma {:induction false} EnoughOver(z: ZSet, p: string, k: nat)
    requires p in z && |Over(z, p)| >= k
    ensures |Over(z, p) * Top(z, k).Keys| >= k
    decreases |Over(z, p)|
  {
    hide Lower;
    if Over(z, p) <= Top(z, k).Keys {
      assert Over(z, p) * Top(z, k).Keys == Over(z, p);
    } else {
      var q :| q in Over(z, p) && q !in Top(z, k);
      OverShrinks(z, p, q);
      EnoughOver(z, q, k);
      Smaller(Over(z, q) * Top(z, k).Keys, Over(z, p) * Top(z, k).Keys);
    }
  }

  /** What ranks over one of the top k is one of the top k. */
  lemma TopUpward(z: ZSet, p: string, k: nat)
    requires p in Top(z, k)
    ensures Over(z, p) <= Top(z, k).Keys
  {
    forall q | q in Over(z, p)
      ensures q in Top(z, k)
    {
      OverShrinks(z, p, q);
    }
  }

  /** Adding a new member to the top k and trimming again gives the top k of the whole. */
  lemma TopAfterAdd(z: ZSet, member: string, score: int, k: nat)
    requires member !in z
    ensures Top(Top(z, k)[member := score], k) == Top(z[member := score], k)
  {
    hide Lex, Top;
    var all := z[member := score];
    var kept := Top(z, k)[member := score];
    forall p | p in all
      ensures p in Top(kept, k) <==> p in Top(all, k)
    {
      SameVerdict(z, member, score, k, p);
    }
    TopSound(z, k);
    TopSound(all, k);
    TopSound(kept, k);
    assert Top(kept, k).Keys == Top(all, k).Keys;
  }

  lemma TopSound(z: ZSet, k: nat)
    ensures Top(z, k).Keys <= z.Keys && forall p :: p in Top(z, k) ==> Top(z, k)[p] == z[p]
    ensures forall p :: p in Top(z, k) <==> p in z && |Over(z, p)| < k
  {
  }

  lemma OverAfterAdd(z: ZSet, member: string, score: int, p: string)
    requires member !in z && p in z[member := score]
    ensures p != member ==> Over(z, p) <= Over(z[member := score], p) <= Over(z, p) + {member}
    ensures Over(z[member := score], p) <= z.Keys + {member}
  {
    hide Lex;
  }

  lemma OverKept(z: ZSet, member: string, score: int, k: nat, p: string)
    requires member !in z && p in Top(z, k)[member := score]
    ensures var kept := Top(z, k)[member := score];
            Over(kept, p) == Over(z[member := score], p) * kept.Keys
  {
    hide Lex;
  }

  lemma SameVerdict(z: ZSet, member: string, score: int, k: nat, p: string)
    requires member !in z && p in z[member := score]
    ensures p in Top(Top(z, k)[member := score], k) <==> p in Top(z[member := score], k)
  {
    hide Lex, Over, Top;
    var all := z[member := score];
    var kept := Top(z, k)[member := score];
    TopSound(z, k);
    TopSound(all, k);
    TopSound(kept, k);
    OverAfterAdd(z, member, score, p);
    if p == member {
      NewcomerVerdict(z, member, score, k);
    } else if p in Top(z, k) {
      TopUpward(z, p, k);
      OverKept(z, member, score, k, p);
      assert Over(all, p) <= kept.Keys;
      assert Over(kept, p) == Over(all, p);
    } else {
      Smaller(Over(z, p), Over(all, p));
    }
  }

  lemma NewcomerVerdict(z: ZSet, member: string, score: int, k: nat)
    requires member !in z
    ensures |Over(Top(z, k)[member := score], member)| < k <==> |Over(z[member := score], member)| < k
  {
    hide Lex, Over, Top;
    var all := z[member := score];
    var kept := Top(z, k)[member := score];
    TopSound(z, k);
    OverKept(z, member, score, k, member);
    Smaller(Over(kept, member), Over(all, member));
    if |Over(all, member)| >= k {
      NewcomerBeaten(z, member, score, k);
    }
  }

  lemma NewcomerBeaten(z: ZSet, member: string, score: int, k: nat)
    requires member !in z && |Over(z[member := score], member)| >= k
    ensures |Over(z[member := score], member) * Top(z, k)[member := score].Keys| >= k
  {
    hide Lex, Top;
    var all := z[member := score];
    var above := Over(all, member);
    TopSound(z, k);
    LexIrreflexive(member);
    assert member !in above;
    if above <= Top(z, k).Keys {
      assert above * Top(z, k)[member := score].Keys == above;
    } else {
      var q :| q in above && q !in Top(z, k);
      EnoughOver(z, q, k);
      forall r | r in Over(z, q)
        ensures r in above
      {
        LowerTransitive(all, member, q, r);
      }
      Smaller(Over(z, q) * Top(z, k).Keys, above * Top(z, k)[member := score].Keys);
    }
  }

  /** A non-empty choice of members has a lowest one. */
  lemma {:induction false} Lowest(z: ZSet, s: set<string>) returns (p: string)
    requires s <= z.Keys && s != {}
    ensures p in s && forall q :: q in s && q != p ==> Lower(z, p, q)
    decreases |s|
  {
    hide Lower;
    p :| p in s;
    if s != {p} {
      var r := Lowest(z, s - {p});
      LowerTotal(z, p, r);
      if Lower(z, r, p) {
        p := r;
      } else {
        forall q | q in s && q != p
          ensures Lower(z, p, q)
        {
          if q != r {
            LowerTransitive(z, p, r, q);
          }
        }
      }
    }
  }

  /** The top k are k members, or all of them when there are fewer; each outranks every member left out. */
  lemma TopIsGreatest(z: ZSet, k: nat)
    ensures |Top(z, k)| == if |z| <= k then |z| else k
    ensures forall p, q :: p in Top(z, k) && q in z && q !in Top(z, k) ==>
              z[q] < z[p] || (z[q] == z[p] && Lex(q, p))
  {
    hide Lex;
    var top := Top(z, k).Keys;
    if top != {} {
      var low := Lowest(z, top);
      Smaller(top, Over(z, low) + {low});
    }
    if p :| p in z && p !in top {
      EnoughOver(z, p, k);
      Smaller(Over(z, p) * top, top);
      Smaller(top, z.Keys);
    } else {
      assert top == z.Keys;
    }
    forall p, q | p in top && q in z && q !in top
      ensures z[q] < z[p] || (z[q] == z[p] && Lex(q, p))
    {
      LowerTotal(z, p, q);
      if Lower(z, p, q) {
        OverShrinks(z, p, q);
      }
    }
  }
}
