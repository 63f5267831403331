/** Similarity search: the one-pass cosine over reals, and the ranked top of the stored chunks. */
module Cosine {
  import opened Prelude

  // ---------------------------------------------------------------- similarity

  /** A product, under a name. */
  function Times(x: real, y: real): real {
    x * y
  }

  function Dot(a: seq<real>, b: seq<real>): real
    requires |a| == |b|
  {
    if a == [] then 0.0 else Dot(a[..|a| - 1], b[..|b| - 1]) + Times(a[|a| - 1], b[|b| - 1])
  }

  /** `y` is the square root of `x`. */
  predicate RootOf(y: real, x: real) {
    y >= 0.0 && Times(y, y) == x
  }

  function Sqrt(root: real -> real, x: real): real {
    root(x)
  }

  /** `root` answers as `math.sqrt` does, on reals. */
  ghost predicate IsSqrt(root: real -> real) {
    forall x: real :: x >= 0.0 ==> RootOf(Sqrt(root, x), x)
  }

  function Ratio(dot: real, denom: real): real {
    if denom != 0.0 then dot / denom else 0.0
  }

  function Similarity(a: seq<real>, b: seq<real>, root: real -> real): real
    requires |a| == |b|
  {
    Ratio(Dot(a, b), Times(Sqrt(root, Dot(a, a)), Sqrt(root, Dot(b, b))))
  }

  lemma DotSnoc(a: seq<real>, b: seq<real>, i: nat)
    requires i < |a| && i < |b|
    ensures Dot(a[..i + 1], b[..i + 1]) == Dot(a[..i], b[..i]) + Times(a[i], b[i])
  {
    assert a[..i + 1][..i] == a[..i] && b[..i + 1][..i] == b[..i];
  }

  /** `None` is the error for vectors of different lengths. */
  method CosineOf(a: seq<real>, b: seq<real>, root: real -> real) returns (r: Option<real>)
    ensures r == if |a| == |b| then Some(Similarity(a, b, root)) else None
  {
    var dot, normA, normB, i := 0.0, 0.0, 0.0, 0;
    while i < |a| && i < |b|
      invariant i <= |a| && i <= |b|
      invariant dot == Dot(a[..i], b[..i]) && normA == Dot(a[..i], a[..i]) && normB == Dot(b[..i], b[..i])
    {
      var x, y := a[i], b[i];
      DotSnoc(a, b, i);
      DotSnoc(a, a, i);
      DotSnoc(b, b, i);
      dot := dot + Times(x, y);
      normA := normA + Times(x, x);
      normB := normB + Times(y, y);
      i := i + 1;
    }
    if |a| != |b| { return None; }
    assert a[..i] == a && b[..i] == b;
    var denom := Times(Sqrt(root, normA), Sqrt(root, normB));
    r := Some(Ratio(dot, denom));
  }

  lemma SquareNonNegative(x: real)
    ensures Times(x, x) >= 0.0
  {
  }

  lemma {:induction false} NormNonNegative(a: seq<real>)
    ensures Dot(a, a) >= 0.0
  {
    if a != [] {
      NormNonNegative(a[..|a| - 1]);
      SquareNonNegative(a[|a| - 1]);
    }
  }

  lemma ProductPositive(a: real, b: real)
    requires a > 0.0 && b > 0.0
    ensures Times(a, b) > 0.0
  {
  }

  lemma ProductNonNegative(a: real, b: real)
    requires a >= 0.0 && b >= 0.0
    ensures Times(a, b) >= 0.0
  {
  }

  lemma NegativeTimes(x: real, y: real)
    ensures Times(-x, y) == -Times(x, y) == Times(x, -y) && Times(-x, -y) == Times(x, y)
  {
  }

  lemma ZeroSquare(d: real)
    requires Times(d, d) <= 0.0
    ensures d == 0.0
  {
    NegativeTimes(d, d);
    if d > 0.0 { ProductPositive(d, d); }
    if d < 0.0 { ProductPositive(-d, -d); }
  }

  lemma PositiveFactor(p: real, g: real)
    requires p > 0.0 && Times(p, g) >= 0.0
    ensures g >= 0.0
  {
    NegativeTimes(p, g);
    if g < 0.0 { ProductPositive(p, -g); }
  }

  /** What one more coordinate has to leave non-negative. */
  function Gap(p: real, q: real, d: real, x: real, y: real): real {
    Times(p, Times(y, y)) + Times(q, Times(x, x)) - 2.0 * Times(d, Times(x, y))
  }

  /** p times the gap is a sum of two non-negative terms. */
  lemma GapTimes(p: real, q: real, d: real, x: real, y: real)
    ensures Times(p, Gap(p, q, d, x, y)) == Times(p * y - d * x, p * y - d * x) + Times(p * q - d * d, x * x)
  {
    var py, dx := p * y, d * x;
    assert (py - dx) * (py - dx) == py * py - 2.0 * (py * dx) + dx * dx;
    assert py * py == p * (p * (y * y));
    assert py * dx == p * (d * (x * y));
    assert dx * dx == d * d * (x * x);
    assert (p * q - d * d) * (x * x) == p * (q * (x * x)) - d * d * (x * x);
  }

  lemma GapZero(q: real, x: real, y: real)
    ensures Gap(0.0, q, 0.0, x, y) == Times(q, Times(x, x))
  {
  }

  lemma GapNonNegative(p: real, q: real, d: real, x: real, y: real)
    requires p >= 0.0 && q >= 0.0 && Times(d, d) <= Times(p, q)
    ensures Gap(p, q, d, x, y) >= 0.0
  {
    SquareNonNegative(x);
    if p == 0.0 {
      ZeroSquare(d);
      GapZero(q, x, y);
      ProductNonNegative(q, Times(x, x));
    } else {
      GapTimes(p, q, d, x, y);
      SquareNonNegative(p * y - d * x);
      ProductNonNegative(p * q - d * d, x * x);
      PositiveFactor(p, Gap(p, q, d, x, y));
    }
  }

  lemma Expand(p: real, q: real, d: real, x: real, y: real)
    ensures Times(p + Times(x, x), q + Times(y, y)) - Times(d + Times(x, y), d + Times(x, y))
         == (Times(p, q) - Times(d, d)) + Gap(p, q, d, x, y)
  {
    Binomial(p, Times(x, x), q, Times(y, y));
    Binomial(d, Times(x, y), d, Times(x, y));
    ProductSquare(x, y);
  }

  lemma Binomial(a: real, b: real, c: real, d: real)
    ensures Times(a + b, c + d) == Times(a, c) + Times(a, d) + Times(c, b) + Times(b, d)
  {
  }

  lemma ProductSquare(x: real, y: real)
    ensures Times(Times(x, y), Times(x, y)) == Times(Times(x, x), Times(y, y))
  {
  }

  /** The inequality of Cauchy and Schwarz, for the sums that the loop accumulates. */
  lemma {:induction false} CauchySchwarz(a: seq<real>, b: seq<real>)
    requires |a| == |b|
    ensures Times(Dot(a, b), Dot(a, b)) <= Times(Dot(a, a), Dot(b, b))
  {
    if a != [] {
      var c, d, x, y := a[..|a| - 1], b[..|b| - 1], a[|a| - 1], b[|b| - 1];
      CauchySchwarz(c, d);
      NormNonNegative(c);
      NormNonNegative(d);
      GapNonNegative(Dot(c, c), Dot(d, d), Dot(c, d), x, y);
      Expand(Dot(c, c), Dot(d, d), Dot(c, d), x, y);
    }
  }

  lemma DifferenceOfSquares(x: real, m: real)
    ensures Times(x - m, x + m) == Times(x, x) - Times(m, m) == Times(-x - m, -x + m)
  {
  }

  lemma SquareOrder(x: real, m: real)
    requires m >= 0.0 && Times(x, x) <= Times(m, m)
    ensures -m <= x <= m
  {
    DifferenceOfSquares(x, m);
    if x > m { ProductPositive(x - m, x + m); }
    if x < -m { ProductPositive(-x - m, -x + m); }
  }

  lemma RatioTimes(dot: real, denom: real)
    requires denom > 0.0
    ensures Times(Ratio(dot, denom) - 1.0, denom) == dot - denom
    ensures Times(-Ratio(dot, denom) - 1.0, denom) == -dot - denom
  {
    var q := dot / denom;
    assert q * denom == dot;
  }

  lemma RatioBounded(dot: real, denom: real)
    requires denom >= 0.0 && Times(dot, dot) <= Times(denom, denom)
    ensures -1.0 <= Ratio(dot, denom) <= 1.0
  {
    SquareOrder(dot, denom);
    if denom != 0.0 {
      var q := Ratio(dot, denom);
      RatioTimes(dot, denom);
      if q > 1.0 { ProductPositive(q - 1.0, denom); }
      if q < -1.0 { ProductPositive(-q - 1.0, denom); }
    }
  }

  /** The similarity of vectors of any equal length lies in [-1, 1], so the distance lies in [0, 2]. */
  lemma SimilarityBounded(a: seq<real>, b: seq<real>, root: real -> real)
    requires |a| == |b| && IsSqrt(root)
    ensures -1.0 <= Similarity(a, b, root) <= 1.0
    ensures 0.0 <= 1.0 - Similarity(a, b, root) <= 2.0
  {
    NormNonNegative(a);
    NormNonNegative(b);
    CauchySchwarz(a, b);
    RootsBound(Dot(a, b), Dot(a, a), Dot(b, b), Sqrt(root, Dot(a, a)), Sqrt(root, Dot(b, b)));
  }

  lemma RootsBound(dot: real, p: real, q: real, x: real, y: real)
    requires RootOf(x, p) && RootOf(y, q) && Times(dot, dot) <= Times(p, q)
    ensures -1.0 <= Ratio(dot, Times(x, y)) <= 1.0
  {
    ProductSquare(x, y);
    ProductNonNegative(x, y);
    RatioBounded(dot, Times(x, y));
  }

  lemma RatioOfEqual(p: real, s: real)
    requires p == s
    ensures Ratio(p, s) == if p == 0.0 then 0.0 else 1.0
  {
  }

  /** A vector is at distance 0 from itself, unless its norm is 0: then it is at distance 1. */
  lemma SelfSimilar(a: seq<real>, root: real -> real)
    requires IsSqrt(root)
    ensures Similarity(a, a, root) == if Dot(a, a) == 0.0 then 0.0 else 1.0
  {
    NormNonNegative(a);
    assert RootOf(Sqrt(root, Dot(a, a)), Dot(a, a));
    RatioOfEqual(Dot(a, a), Times(Sqrt(root, Dot(a, a)), Sqrt(root, Dot(a, a))));
  }

  /** The sum that the loop accumulates: one product of coordinates after the other. */
  lemma DotGrows(a: seq<real>, b: seq<real>, x: real, y: real)
    requires |a| == |b|
    ensures Dot([], []) == 0.0 && Dot(a + [x], b + [y]) == Dot(a, b) + x * y
  {
    assert (a + [x])[..|a|] == a && (b + [y])[..|b|] == b;
  }

  lemma RatioIs(dot: real, denom: real)
    requires denom > 0.0
    ensures Times(Ratio(dot, denom), denom) == dot
  {
  }

  /** The similarity times the two norms is the sum of products; it is 0 when a norm is. */
  lemma SimilarityMeans(a: seq<real>, b: seq<real>, root: real -> real)
    requires |a| == |b| && IsSqrt(root)
    ensures var x, y := Sqrt(root, Dot(a, a)), Sqrt(root, Dot(b, b));
            && RootOf(x, Dot(a, a)) && RootOf(y, Dot(b, b))
            && if x == 0.0 || y == 0.0 then Similarity(a, b, root) == 0.0
               else Times(Similarity(a, b, root), Times(x, y)) == Dot(a, b)
  {
    NormNonNegative(a);
    NormNonNegative(b);
    var x, y := Sqrt(root, Dot(a, a)), Sqrt(root, Dot(b, b));
    if x > 0.0 && y > 0.0 {
      ProductPositive(x, y);
      RatioIs(Dot(a, b), Times(x, y));
    }
  }

  // ---------------------------------------------------------------- ranking

  datatype Row = Row(auditId: int, text: string, embedding: seq<real>)

  datatype Recalled = Recalled(auditId: int, text: string, distance: real)

  predicate SameLength(rows: seq<Row>, query: seq<real>) {
    forall i :: 0 <= i < |rows| ==> |rows[i].embedding| == |query|
  }

  /** The place in the fetch order decides between equal scores. */
  predicate Beats(scores: seq<real>, i: nat, j: nat)
    requires i < |scores| && j < |scores|
  {
    scores[i] > scores[j] || (scores[i] == scores[j] && i < j)
  }

  predicate Valid(scores: seq<real>, order: seq<nat>) {
    forall k :: 0 <= k < |order| ==> order[k] < |scores|
  }

  /** Insert `x` behind everything that scores at least as much. */
  function Insert(scores: seq<real>, order: seq<nat>, x: nat): (r: seq<nat>)
    requires Valid(scores, order) && x < |scores|
    ensures |r| == |order| + 1 && Valid(scores, r)
  {
    if order == [] || scores[order[|order| - 1]] >= scores[x] then order + [x]
    else Insert(scores, order[..|order| - 1], x) + [order[|order| - 1]]
  }

  /** A stable sort by falling score, as a list of fetch positions. */
  function Ranking(scores: seq<real>, n: nat): (r: seq<nat>)
    requires n <= |scores|
    ensures |r| == n && Valid(scores, r)
  {
    if n == 0 then [] else Insert(scores, Ranking(scores, n - 1), n - 1)
  }

  /** Everything in front beats everything behind. */
  predicate Ranked(scores: seq<real>, order: seq<nat>)
    requires Valid(scores, order)
  {
    forall a, b :: 0 <= a < b < |order| ==> Beats(scores, order[a], order[b])
  }

  lemma {:induction false} InsertElements(scores: seq<real>, order: seq<nat>, x: nat)
    requires Valid(scores, order) && x < |scores|
    ensures multiset(Insert(scores, order, x)) == multiset(order) + multiset{x}
  {
    if order != [] && scores[order[|order| - 1]] < scores[x] {
      var front, last := order[..|order| - 1], order[|order| - 1];
      InsertElements(scores, front, x);
      assert order == front + [last];
    }
  }

  lemma {:induction false} InsertRanked(scores: seq<real>, order: seq<nat>, x: nat)
    requires Valid(scores, order) && x < |scores| && Ranked(scores, order)
    requires forall k :: 0 <= k < |order| ==> order[k] < x
    ensures Ranked(scores, Insert(scores, order, x))
  {
    var r := Insert(scores, order, x);
    if order == [] { return; }
    var front, last := order[..|order| - 1], order[|order| - 1];
    if scores[last] >= scores[x] {
      forall a, b | 0 <= a < b < |r| ensures Beats(scores, r[a], r[b]) {
        if b == |order| && a < |order| - 1 { assert Beats(scores, order[a], last); }
      }
    } else {
      InsertRanked(scores, front, x);
      InsertElements(scores, front, x);
      var r' := Insert(scores, front, x);
      forall a, b | 0 <= a < b < |r| ensures Beats(scores, r[a], r[b]) {
        if b < |r'| {
          assert Beats(scores, r'[a], r'[b]);
        } else {
          assert r'[a] in multiset(r');
          if r'[a] != x {
            assert r'[a] in multiset(front);
            var k :| 0 <= k < |front| && front[k] == r'[a];
            assert Beats(scores, order[k], order[|order| - 1]);
          }
        }
      }
    }
  }

  /** The ranking lists every position once, each beating all that follow. */
  lemma {:induction false} RankingRanked(scores: seq<real>, n: nat)
    requires n <= |scores|
    ensures Ranked(scores, Ranking(scores, n))
    ensures forall i: nat :: i in Ranking(scores, n) <==> i < n
  {
    if n > 0 {
      var before := Ranking(scores, n - 1);
      RankingRanked(scores, n - 1);
      forall k | 0 <= k < |before| ensures before[k] < n - 1 { assert before[k] in before; }
      InsertRanked(scores, before, n - 1);
      InsertMembers(scores, before, n - 1);
    }
  }

  lemma InsertMembers(scores: seq<real>, order: seq<nat>, x: nat)
    requires Valid(scores, order) && x < |scores|
    ensures forall i: nat :: i in Insert(scores, order, x) <==> i in order || i == x
  {
    InsertElements(scores, order, x);
    forall i: nat ensures i in Insert(scores, order, x) <==> i in order || i == x {
      assert i in Insert(scores, order, x) <==> i in multiset(Insert(scores, order, x));
      assert i in order <==> i in multiset(order);
    }
  }

  /** The positions that beat position `i`. */
  function Betters(scores: seq<real>, i: nat): set<nat>
    requires i < |scores|
  {
    set j: nat | j < |scores| && Beats(scores, j, i)
  }

  function Elements(s: seq<nat>): set<nat> {
    set k | 0 <= k < |s| :: s[k]
  }

  lemma {:induction false} ElementsCount(s: seq<nat>)
    requires Distinct(s)
    ensures |Elements(s)| == |s|
  {
    if s != [] {
      var front, last := s[..|s| - 1], s[|s| - 1];
      ElementsCount(front);
      ElementsSnoc(front, last);
      assert s == front + [last];
      assert last !in Elements(front) by {
        forall k | 0 <= k < |front| ensures front[k] != last { assert s[k] == front[k]; }
      }
    }
  }

  lemma ElementsSnoc(s: seq<nat>, x: nat)
    ensures Elements(s + [x]) == Elements(s) + {x}
  {
    forall y ensures y in Elements(s + [x]) <==> y in Elements(s) || y == x {
      if y in Elements(s) {
        var k :| 0 <= k < |s| && s[k] == y;
        assert (s + [x])[k] == y;
      }
      assert (s + [x])[|s|] == x;
    }
  }

  lemma BeatsOneWay(scores: seq<real>, order: seq<nat>, k: nat, a: nat)
    requires Valid(scores, order) && Ranked(scores, order) && k < a < |order|
    ensures !Beats(scores, order[a], order[k])
  {
    assert Beats(scores, order[k], order[a]);
  }

  /** A row stands in the ranking at the number of rows that beat it. */
  lemma RankIsCount(scores: seq<real>, k: nat)
    requires k < |scores|
    ensures |Betters(scores, Ranking(scores, |scores|)[k])| == k
  {
    var order := Ranking(scores, |scores|);
    RankingRanked(scores, |scores|);
    var ahead := order[..k];
    forall j ensures j in Elements(ahead) <==> j in Betters(scores, order[k]) {
      if j in Elements(ahead) {
        var a :| 0 <= a < k && ahead[a] == j;
        assert Beats(scores, order[a], order[k]);
      }
      if j in Betters(scores, order[k]) {
        assert j in order;
        var a :| 0 <= a < |order| && order[a] == j;
        if k < a { BeatsOneWay(scores, order, k, a); }
        assert ahead[a] == j;
      }
    }
    assert Elements(ahead) == Betters(scores, order[k]);
    ElementsCount(ahead);
  }

  /** How many of `n` entries the slice up to `limit` keeps; a negative limit counts from the end. */
  function Kept(n: nat, limit: int): (m: nat)
    ensures m <= n
  {
    if limit >= n then n else if limit >= 0 then limit else if n + limit >= 0 then n + limit else 0
  }

  datatype Scored = Scored(similarity: real, chunk: Recalled)

  function ScoredOf(row: Row, query: seq<real>, root: real -> real): Scored
    requires |row.embedding| == |query|
  {
    var similarity := Similarity(query, row.embedding, root);
    Scored(similarity, Recalled(row.auditId, row.text, 1.0 - similarity))
  }

  function AllScored(rows: seq<Row>, query: seq<real>, root: real -> real): seq<Scored>
    requires SameLength(rows, query)
  {
    seq(|rows|, i requires 0 <= i < |rows| => ScoredOf(rows[i], query, root))
  }

  function ScoresOf(scored: seq<Scored>): seq<real> {
    seq(|scored|, i requires 0 <= i < |scored| => scored[i].similarity)
  }

  /** Sort by falling score, then slice. */
  function Top(scored: seq<Scored>, limit: int): seq<Recalled> {
    var order := Ranking(ScoresOf(scored), |scored|);
    seq(Kept(|scored|, limit), k requires 0 <= k < Kept(|scored|, limit) => scored[order[k]].chunk)
  }

  /** `None` when some stored vector has another length than the query. */
  method CosineTopK(rows: seq<Row>, query: seq<real>, limit: int, root: real -> real) returns (r: Option<seq<Recalled>>)
    ensures r == if SameLength(rows, query) then Some(Top(AllScored(rows, query, root), limit)) else None
  {
    var scored: seq<Scored> := [];
    for i := 0 to |rows|
      invariant SameLength(rows[..i], query) && scored == AllScored(rows[..i], query, root)
    {
      var similarity := CosineOf(query, rows[i].embedding, root);
      if similarity.None? { return None; }
      assert forall k :: 0 <= k < i ==> rows[..i + 1][k] == rows[..i][k];
      scored := scored + [Scored(similarity.value, Recalled(rows[i].auditId, rows[i].text, 1.0 - similarity.value))];
    }
    assert rows[..|rows|] == rows;
    r := Some(Top(scored, limit));
  }

  /** A fetched row is returned exactly when fewer rows beat it than are kept, and then at that place. */
  lemma TopIsBest(scored: seq<Scored>, limit: int, i: nat)
    requires i < |scored|
    ensures var rank := |Betters(ScoresOf(scored), i)|;
            && |Top(scored, limit)| == Kept(|scored|, limit)
            && (rank < Kept(|scored|, limit) ==> Top(scored, limit)[rank] == scored[i].chunk)
            && rank < |scored| && Ranking(ScoresOf(scored), |scored|)[rank] == i
  {
    var scores := ScoresOf(scored);
    var order := Ranking(scores, |scores|);
    RankingRanked(scores, |scores|);
    assert i in order;
    var k :| 0 <= k < |order| && order[k] == i;
    RankIsCount(scores, k);
  }

  /** The rows more similar to the query than row `i`, or as similar and fetched before it. */
  function Ahead(rows: seq<Row>, query: seq<real>, root: real -> real, i: nat): set<nat>
    requires SameLength(rows, query) && i < |rows|
  {
    var mine := Similarity(query, rows[i].embedding, root);
    set j: nat | j < |rows| && (Similarity(query, rows[j].embedding, root) > mine
                                || (Similarity(query, rows[j].embedding, root) == mine && j < i))
  }

  /** The result has `limit` rows, or all if there are fewer; a negative limit leaves that many out. A row
      that few enough others are ahead of is in it, at the place their number gives, with its own text and
      one minus its similarity as the distance. */
  lemma TopRow(rows: seq<Row>, query: seq<real>, root: real -> real, limit: int, i: nat)
    requires SameLength(rows, query) && i < |rows|
    ensures var top := Top(AllScored(rows, query, root), limit); var rank := |Ahead(rows, query, root, i)|;
            && |top| <= |rows|
            && (limit >= 0 ==> |top| == |rows| || |top| == limit)
            && (limit < 0 ==> |top| == 0 || |top| == |rows| + limit)
            && (limit >= 0 ==> |top| <= limit) && (limit < 0 ==> |top| >= |rows| + limit)
            && (rank < |top| ==>
                  top[rank] == Recalled(rows[i].auditId, rows[i].text,
                                        1.0 - Similarity(query, rows[i].embedding, root)))
  {
    var scored := AllScored(rows, query, root);
    TopIsBest(scored, limit, i);
    assert Betters(ScoresOf(scored), i) == Ahead(rows, query, root, i);
  }

  /** The distances of the result never fall. */
  lemma TopSorted(rows: seq<Row>, query: seq<real>, root: real -> real, limit: int, a: nat, b: nat)
    requires SameLength(rows, query) && a < b < |Top(AllScored(rows, query, root), limit)|
    ensures Top(AllScored(rows, query, root), limit)[a].distance <= Top(AllScored(rows, query, root), limit)[b].distance
  {
    var scored := AllScored(rows, query, root);
    var scores := ScoresOf(scored);
    RankingRanked(scores, |scored|);
    assert Beats(scores, Ranking(scores, |scored|)[a], Ranking(scores, |scored|)[b]);
  }
}
