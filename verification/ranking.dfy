/**
 The exchange sort written out in ListFeedHealth and percentile (internal/store/health.go) and in
 SimilarFeedsEmbedding (internal/store/embeddings.go), and what is read off the sorted arrays.
 */
module Ranking {
  import opened Common
  import opened Embeddings

  ghost predicate Ordered<T>(s: seq<T>, key: T -> real) {
    forall i, j :: 0 <= i < j < |s| ==> key(s[i]) <= key(s[j])
  }

  method Exchange<T>(a: array<T>, i: nat, j: nat)
    requires i < a.Length && j < a.Length
    modifies a
    ensures a[..] == old(a[..])[i := old(a[j])][j := old(a[i])]
    ensures multiset(a[..]) == multiset(old(a[..]))
  {
    a[i], a[j] := a[j], a[i];
  }

  /** The inner loop: brings an element with the least key of `a[i..]` to place `i`. */
  method SettlePlace<T>(a: array<T>, i: nat, key: T -> real)
    requires i < a.Length
    modifies a
    ensures multiset(a[..]) == multiset(old(a[..])) && a[..i] == old(a[..i])
    ensures forall m :: i <= m < a.Length ==> a[m] in old(a[i..])
    ensures forall m :: i < m < a.Length ==> key(a[i]) <= key(a[m])
  {
    for j := i + 1 to a.Length
      invariant multiset(a[..]) == multiset(old(a[..])) && a[..i] == old(a[..i])
      invariant forall m :: i <= m < a.Length ==> a[m] in old(a[i..])
      invariant forall m :: i < m < j ==> key(a[i]) <= key(a[m])
    {
      if key(a[j]) < key(a[i]) {
        Exchange(a, i, j);
      }
    }
  }

  /** For each place in turn, exchanges in every later element that belongs before it. */
  method ExchangeSort<T>(a: array<T>, key: T -> real)
    modifies a
    ensures Ordered(a[..], key) && multiset(a[..]) == multiset(old(a[..]))
  {
    for i := 0 to a.Length
      invariant Ordered(a[..i], key) && Before(a[..i], a[i..], key)
      invariant multiset(a[..]) == multiset(old(a[..]))
    {
      ghost var front, back := a[..i], a[i..];
      SettlePlace(a, i, key);
      assert a[i] in back;
      assert a[..i + 1] == front + [a[i]];
      forall y | y in a[i + 1..] ensures y in back && key(a[i]) <= key(y) {
        var m :| i + 1 <= m < a.Length && a[m] == y;
      }
    }
    assert a[..a.Length] == a[..];
  }

  ghost predicate Before<T>(front: seq<T>, back: seq<T>, key: T -> real) {
    forall x, y :: x in front && y in back ==> key(x) <= key(y)
  }

  // ---------- counting ----------

  function Hit<T>(p: T -> bool): T -> int {
    x => if p(x) then 1 else 0
  }

  /** Number of elements of `s` with property `p`. */
  function Count<T>(s: seq<T>, p: T -> bool): int {
    Sum(s, Hit(p))
  }

  lemma {:induction false} CountAll<T>(s: seq<T>, p: T -> bool)
    ensures 0 <= Count(s, p) <= |s|
    ensures (forall i :: 0 <= i < |s| ==> p(s[i])) ==> Count(s, p) == |s|
  {
    if s != [] { CountAll(s[..|s| - 1], p); }
  }

  lemma {:induction false} CountExclusive<T(!new)>(s: seq<T>, p: T -> bool, q: T -> bool)
    requires forall x :: !(p(x) && q(x))
    ensures Count(s, p) + Count(s, q) <= |s|
  {
    if s != [] { CountExclusive(s[..|s| - 1], p, q); }
  }

  // ---------- nearest-rank percentile ----------

  function AtMost(r: real): real -> bool {
    x => x <= r
  }

  function AtLeast(r: real): real -> bool {
    x => x >= r
  }

  /** `r` is the `k`-th smallest sample, counted from one: enough samples on either side of it. */
  ghost predicate IsRank(s: seq<real>, k: int, r: real) {
    r in s && Count(s, AtMost(r)) >= k && Count(s, AtLeast(r)) >= |s| - k + 1
  }

  /** A rank statistic is unique and grows with the rank. */
  lemma RankMonotone(s: seq<real>, k1: int, k2: int, r1: real, r2: real)
    requires k1 <= k2 && IsRank(s, k1, r1) && IsRank(s, k2, r2)
    ensures r1 <= r2
  {
    if r2 < r1 {
      CountExclusive(s, AtMost(r2), AtLeast(r1));
    }
  }

  ghost predicate Ascending(s: seq<real>) {
    forall i, j :: 0 <= i < j < |s| ==> s[i] <= s[j]
  }

  lemma SortedRank(s: seq<real>, sorted: seq<real>, i: nat)
    requires multiset(sorted) == multiset(s) && Ascending(sorted) && i < |sorted| == |s|
    ensures IsRank(s, i + 1, sorted[i])
  {
    assert sorted[i] in multiset(sorted);
    FrontCount(sorted, i);
    BackCount(sorted, i);
    SumPermuted(sorted, s, Hit(AtMost(sorted[i])));
    SumPermuted(sorted, s, Hit(AtLeast(sorted[i])));
  }

  lemma CountParts<T>(a: seq<T>, b: seq<T>, p: T -> bool)
    ensures Count(a + b, p) == Count(a, p) + Count(b, p)
    ensures Count(a, p) >= 0 && ((forall i :: 0 <= i < |a| ==> p(a[i])) ==> Count(a, p) == |a|)
    ensures Count(b, p) >= 0 && ((forall i :: 0 <= i < |b| ==> p(b[i])) ==> Count(b, p) == |b|)
  {
    SumConcat(a, b, Hit(p));
    CountAll(a, p);
    CountAll(b, p);
  }

  lemma FrontCount(sorted: seq<real>, i: nat)
    requires Ascending(sorted) && i < |sorted|
    ensures Count(sorted, AtMost(sorted[i])) >= i + 1
  {
    var front, back, p := sorted[..i + 1], sorted[i + 1..], AtMost(sorted[i]);
    assert sorted == front + back;
    assert forall j :: 0 <= j < |front| ==> p(front[j]);
    CountParts(front, back, p);
  }

  lemma BackCount(sorted: seq<real>, i: nat)
    requires Ascending(sorted) && i < |sorted|
    ensures Count(sorted, AtLeast(sorted[i])) >= |sorted| - i
  {
    var front, back, p := sorted[..i], sorted[i..], AtLeast(sorted[i]);
    assert sorted == front + back;
    forall j | 0 <= j < |back| ensures p(back[j]) {
      assert back[j] == sorted[i + j];
    }
    CountParts(front, back, p);
  }

  function Ceil(x: real): (c: int)
    ensures c as real - 1.0 < x <= c as real
  {
    -((-x).Floor)
  }

  /** The nearest rank above `x`, forced into 1..n. */
  function RankAt(x: real, n: nat): (k: int)
    requires n > 0
    ensures 1 <= k <= n
    ensures x <= 1.0 ==> k == 1
    ensures x > (n - 1) as real ==> k == n
    ensures 1.0 < x <= (n - 1) as real ==> (k - 1) as real < x <= k as real
  {
    var k := Ceil(x);
    if k < 1 then 1 else if k > n then n else k
  }

  /** The rank asked for: p of the n samples. */
  function RankOf(p: real, n: nat): (k: int)
    requires n > 0
    ensures 1 <= k <= n
  {
    RankAt(p * n as real, n)
  }

  method SortedCopy(samples: array<real>) returns (cp: array<real>)
    ensures fresh(cp) && cp.Length == samples.Length
    ensures multiset(cp[..]) == multiset(samples[..]) && Ascending(cp[..])
  {
    cp := new real[samples.Length];
    forall i | 0 <= i < samples.Length {
      cp[i] := samples[i];
    }
    assert cp[..] == samples[..];
    var identity := (x: real) => x;
    ExchangeSort(cp, identity);
    assert forall i :: 0 <= i < cp.Length ==> identity(cp[..][i]) == cp[..][i];
  }

  /** The index of the nearest rank, with the two clamps. */
  method PercentileIndex(p: real, n: nat) returns (idx: nat)
    requires n > 0
    ensures idx + 1 == RankOf(p, n)
  {
    var k := Ceil(p * n as real) - 1;
    if k < 0 { k := 0; }
    if k >= n { k := n - 1; }
    idx := k;
  }

  /** Sorts a copy and picks the nearest rank; the samples themselves are not modified. */
  method Percentile(samples: array<real>, p: real) returns (r: real)
    ensures samples.Length == 0 ==> r == 0.0
    ensures samples.Length > 0 ==> IsRank(samples[..], RankOf(p, samples.Length), r)
  {
    if samples.Length == 0 { return 0.0; }
    var cp := SortedCopy(samples);
    var idx := PercentileIndex(p, cp.Length);
    SortedRank(samples[..], cp[..], idx);
    return cp[idx];
  }

  /** For 0 < p <= 1 the rank is ceil(p n) itself: neither clamp has anything to do. */
  lemma ClampsIdle(p: real, n: nat)
    requires n > 0 && 0.0 < p <= 1.0
    ensures RankOf(p, n) == Ceil(p * n as real)
    ensures (RankOf(p, n) - 1) as real < p * n as real <= RankOf(p, n) as real
  {
    Positive(p, n as real);
    if p < 1.0 {
      Positive(1.0 - p, n as real);
      assert (1.0 - p) * n as real == n as real - p * n as real;
    }
    assert 0.0 < p * n as real <= n as real;
  }

  /** Percentiles of the same samples do not decrease with p; so the median is never above the 99th. */
  lemma PercentileMonotone(s: seq<real>, p1: real, p2: real, r1: real, r2: real)
    requires s != [] && p1 <= p2 && IsRank(s, RankOf(p1, |s|), r1) && IsRank(s, RankOf(p2, |s|), r2)
    ensures r1 <= r2
  {
    RankGrows(p1, p2, |s|);
    RankMonotone(s, RankOf(p1, |s|), RankOf(p2, |s|), r1, r2);
  }

  lemma RankGrows(p1: real, p2: real, n: nat)
    requires n > 0 && p1 <= p2
    ensures RankOf(p1, n) <= RankOf(p2, n)
  {
    var x1, x2 := p1 * n as real, p2 * n as real;
    assert x1 <= x2 by {
      if p1 < p2 {
        Positive(p2 - p1, n as real);
        assert (p2 - p1) * n as real == x2 - x1;
      }
    }
    RankAtGrows(x1, x2, n);
  }

  lemma RankAtGrows(x: real, y: real, n: nat)
    requires n > 0 && x <= y
    ensures RankAt(x, n) <= RankAt(y, n)
  {
    assert Ceil(x) as real - 1.0 < Ceil(y) as real;
  }

  // ---------- feed health page ----------

  datatype FeedScore = FeedScore(feed: string, score: real)

  /** Worst feeds of the page first. */
  method SortWorstFirst(page: array<FeedScore>)
    modifies page
    ensures multiset(page[..]) == multiset(old(page[..]))
    ensures forall i, j :: 0 <= i < j < page.Length ==> page[i].score <= page[j].score
  {
    ExchangeSort(page, (f: FeedScore) => f.score);
  }

  // ---------- similar feeds ----------

  datatype Stored = Stored(feed: string, vec: Vector)

  /** The candidates scored against `src`, those below `minScore` left out. */
  function Qualifying(src: Vector, rows: seq<Stored>, minScore: real, sqrt: real -> real): seq<FeedScore> {
    if rows == [] then []
    else
      var front, last := Qualifying(src, rows[..|rows| - 1], minScore, sqrt), rows[|rows| - 1];
      var score := Cosine(src, last.vec, sqrt);
      if score >= minScore then front + [FeedScore(last.feed, score)] else front
  }

  /** `ranked` holds the best of `all` in descending order: the rest scores no higher than anything kept. */
  ghost predicate Best(all: seq<FeedScore>, ranked: seq<FeedScore>, dropped: seq<FeedScore>) {
    && multiset(all) == multiset(ranked) + multiset(dropped)
    && (forall i, j :: 0 <= i < j < |ranked| ==> ranked[i].score >= ranked[j].score)
    && (forall k, d :: k in ranked && d in dropped ==> k.score >= d.score)
  }

  method ScoreAll(src: Vector, rows: seq<Stored>, minScore: real, sqrt: real -> real) returns (scored: seq<FeedScore>)
    ensures scored == Qualifying(src, rows, minScore, sqrt)
  {
    scored := [];
    for i := 0 to |rows|
      invariant scored == Qualifying(src, rows[..i], minScore, sqrt)
    {
      assert rows[..i + 1][..i] == rows[..i];
      var score := ComputeCosine(src, rows[i].vec, sqrt);
      if score >= minScore {
        scored := scored + [FeedScore(rows[i].feed, score)];
      }
    }
    assert rows[..|rows|] == rows;
  }

  /** Any front of a descending permutation holds the best. */
  lemma FrontIsBest(all: seq<FeedScore>, sorted: seq<FeedScore>, n: nat)
    requires multiset(sorted) == multiset(all) && n <= |sorted|
    requires forall i, j :: 0 <= i < j < |sorted| ==> sorted[i].score >= sorted[j].score
    ensures |sorted| == |all| && Best(all, sorted[..n], sorted[n..])
    ensures forall f :: f in sorted[..n] ==> f in all
  {
    assert sorted == sorted[..n] + sorted[n..];
    assert |multiset(sorted)| == |sorted| && |multiset(all)| == |all|;
    forall f | f in sorted[..n] ensures f in all {
      assert f in multiset(sorted);
    }
  }

  method RankSimilar(src: Vector, rows: seq<Stored>, limit: int, minScore: real, sqrt: real -> real)
    returns (ranked: seq<FeedScore>, ghost dropped: seq<FeedScore>)
    ensures Best(Qualifying(src, rows, minScore, sqrt), ranked, dropped)
    ensures limit <= 0 ==> dropped == []
    ensures limit > 0 ==> |ranked| == Min(limit, |Qualifying(src, rows, minScore, sqrt)|)
    ensures forall k :: k in ranked ==> k.score >= minScore
  {
    var scored := ScoreAll(src, rows, minScore, sqrt);
    var sorted := SortBestFirst(scored);
    ghost var n := if 0 < limit < |sorted| then limit else |sorted|;
    FrontIsBest(scored, sorted, n);
    QualifyingScores(src, rows, minScore, sqrt);
    ranked, dropped := sorted, sorted[n..];
    if limit > 0 && |ranked| > limit {
      ranked := ranked[..limit];
    } else {
      assert sorted[..n] == sorted;
    }
  }

  method SortBestFirst(s: seq<FeedScore>) returns (t: seq<FeedScore>)
    ensures multiset(t) == multiset(s)
    ensures forall i, j :: 0 <= i < j < |t| ==> t[i].score >= t[j].score
  {
    var a := new FeedScore[|s|](i requires 0 <= i < |s| => s[i]);
    assert a[..] == s;
    ExchangeSort(a, (f: FeedScore) => -f.score);
    t := a[..];
  }

  /** Exactly the candidates with a sufficient score qualify. */
  lemma {:induction false} QualifyingIff(src: Vector, rows: seq<Stored>, minScore: real, sqrt: real -> real,
                                         f: FeedScore)
    ensures f in Qualifying(src, rows, minScore, sqrt) <==>
            f.score >= minScore && exists r :: r in rows && f == FeedScore(r.feed, Cosine(src, r.vec, sqrt))
  {
    if rows != [] {
      var front, last := rows[..|rows| - 1], rows[|rows| - 1];
      assert rows == front + [last];
      QualifyingIff(src, front, minScore, sqrt, f);
    }
  }

  lemma QualifyingScores(src: Vector, rows: seq<Stored>, minScore: real, sqrt: real -> real)
    ensures forall f :: f in Qualifying(src, rows, minScore, sqrt) ==> f.score >= minScore
  {
    forall f | f in Qualifying(src, rows, minScore, sqrt) ensures f.score >= minScore {
      QualifyingIff(src, rows, minScore, sqrt, f);
    }
  }

  function Reaches(src: Vector, minScore: real, sqrt: real -> real): Stored -> bool {
    (r: Stored) => Cosine(src, r.vec, sqrt) >= minScore
  }

  /** As many feeds qualify as candidates have a sufficient cosine, also when two candidates are alike. */
  lemma {:induction false} QualifyingCount(src: Vector, rows: seq<Stored>, minScore: real, sqrt: real -> real)
    ensures |Qualifying(src, rows, minScore, sqrt)| == Count(rows, Reaches(src, minScore, sqrt))
  {
    if rows != [] {
      QualifyingCount(src, rows[..|rows| - 1], minScore, sqrt);
    }
  }
}
