/** Cosine scores and the in-place exchange sort behind every similarity search. */
module Ranking {
  import opened Domain

  datatype Scored<T> = Scored(item: T, score: real)

  /* ---------- Cosine similarity ---------- */

  function Dot(a: Vector, b: Vector): real
    requires |a| == |b|
  {
    if |a| == 0 then 0.0
    else Dot(a[..|a| - 1], b[..|b| - 1]) + a[|a| - 1] * b[|b| - 1]
  }

  /** The score of two vectors, for a given square root function. */
  function Cosine(sqrt: real -> real, a: Vector, b: Vector): real {
    if |a| == 0 || |b| == 0 || |a| != |b| then 0.0
    else Normalized(Dot(a, b), sqrt(Dot(a, a)), sqrt(Dot(b, b)))
  }

  function Normalized(dot: real, rootA: real, rootB: real): real {
    var den := rootA * rootB;
    if den == 0.0 then 0.0 else dot / den
  }

  method CosineSimilarity(sqrt: real -> real, a: Vector, b: Vector) returns (score: real)
    ensures score == Cosine(sqrt, a, b)
  {
    if |a| == 0 || |b| == 0 || |a| != |b| {
      return 0.0;
    }
    var dot, magA, magB := 0.0, 0.0, 0.0;
    for i := 0 to |a|
      invariant dot == Dot(a[..i], b[..i])
      invariant magA == Dot(a[..i], a[..i]) && magB == Dot(b[..i], b[..i])
    {
      DotStep(a, b, i);
      DotStep(a, a, i);
      DotStep(b, b, i);
      dot := dot + a[i] * b[i];
      magA := magA + a[i] * a[i];
      magB := magB + b[i] * b[i];
    }
    assert a[..|a|] == a && b[..|b|] == b;
    var den := sqrt(magA) * sqrt(magB);
    if den == 0.0 {
      return 0.0;
    }
    score := dot / den;
  }

  lemma DotStep(a: Vector, b: Vector, i: nat)
    requires i < |a| == |b|
    ensures Dot(a[..i + 1], b[..i + 1]) == Dot(a[..i], b[..i]) + a[i] * b[i]
  {
    assert a[..i + 1][..i] == a[..i] && b[..i + 1][..i] == b[..i];
  }

  /** The product may be taken from either end. */
  lemma {:induction false} DotFront(a: Vector, b: Vector)
    requires |a| == |b| > 0
    ensures Dot(a, b) == a[0] * b[0] + Dot(a[1..], b[1..])
  {
    var n := |a| - 1;
    if n > 0 {
      DotFront(a[..n], b[..n]);
      assert a[..n][1..] == a[1..][..n - 1] && b[..n][1..] == b[1..][..n - 1];
    }
  }

  /** The product of two vectors is the sum of the products of their parts. */
  lemma {:induction false} DotOfParts(a: Vector, b: Vector, c: Vector, d: Vector)
    requires |a| == |b| && |c| == |d|
    ensures Dot(a + c, b + d) == Dot(a, b) + Dot(c, d)
  {
    if c == [] {
      assert a + c == a && b + d == b;
    } else {
      var n := |c| - 1;
      assert (a + c)[..|a + c| - 1] == a + c[..n] && (b + d)[..|b + d| - 1] == b + d[..n];
      DotOfParts(a, b, c[..n], d[..n]);
    }
  }

  lemma SquareOfSum(p: real, q: real, t: real)
    ensures (p * t + q) * (p * t + q) == (p * p) * (t * t) + 2.0 * t * (p * q) + q * q
    ensures (p * t + q) * (p * t + q) >= 0.0
  {
    Square(p * t + q);
  }

  lemma Square(x: real)
    ensures x * x >= 0.0
  {
  }

  lemma SquareOfNonZero(x: real)
    requires x != 0.0
    ensures x * x > 0.0
  {
  }

  function Quadratic(y: real, x: real, z: real, t: real): real {
    y * (t * t) + 2.0 * t * x + z
  }

  lemma QuadraticGrows(y: real, x: real, z: real, p: real, q: real, t: real, y': real, x': real, z': real)
    requires Quadratic(y, x, z, t) >= 0.0
    requires y' == y + p * p && x' == x + p * q && z' == z + q * q
    ensures Quadratic(y', x', z', t) >= 0.0
  {
    SquareOfSum(p, q, t);
    DistributeTerms(y, x, z, p * p, p * q, q * q, t);
  }

  lemma DistributeTerms(y: real, x: real, z: real, pp: real, pq: real, qq: real, t: real)
    ensures Quadratic(y + pp, x + pq, z + qq, t) == Quadratic(y, x, z, t) + (pp * (t * t) + 2.0 * t * pq + qq)
  {
  }

  /** The length of `t*a + b` squared, as a polynomial in `t`, is never negative. */
  lemma {:induction false} LengthIsNonNegative(a: Vector, b: Vector, t: real)
    requires |a| == |b|
    ensures Quadratic(Dot(a, a), Dot(a, b), Dot(b, b), t) >= 0.0
  {
    hide Quadratic;
    if |a| == 0 {
      NullQuadratic(t);
    } else {
      var n := |a| - 1;
      var x, y := a[..n], b[..n];
      LengthIsNonNegative(x, y, t);
      QuadraticGrows(Dot(x, x), Dot(x, y), Dot(y, y), a[n], b[n], t, Dot(a, a), Dot(a, b), Dot(b, b));
    }
  }

  lemma NullQuadratic(t: real)
    ensures Quadratic(0.0, 0.0, 0.0, t) == 0.0
  {
  }

  lemma {:induction false} NoLength(a: Vector, b: Vector)
    requires |a| == |b|
    ensures Dot(a, a) >= 0.0
    ensures Dot(a, a) == 0.0 ==> Dot(a, b) == 0.0
  {
    if |a| > 0 {
      var n := |a| - 1;
      NoLength(a[..n], b[..n]);
      Square(a[n]);
      if a[n] != 0.0 {
        SquareOfNonZero(a[n]);
      }
    }
  }

  lemma CauchySchwarz(a: Vector, b: Vector)
    requires |a| == |b|
    ensures Dot(a, b) * Dot(a, b) <= Dot(a, a) * Dot(b, b)
  {
    var x, y, z := Dot(a, b), Dot(a, a), Dot(b, b);
    NoLength(a, b);
    NoLength(b, a);
    if y > 0.0 {
      var t := -x / y;
      LengthIsNonNegative(a, b, t);
      Vertex(x, y, z, t);
    }
  }

  lemma NonNegativeProduct(x: real, y: real)
    requires x >= 0.0 && y >= 0.0
    ensures x * y >= 0.0
  {
  }

  lemma Vertex(x: real, y: real, z: real, t: real)
    requires y > 0.0 && t == -x / y
    requires Quadratic(y, x, z, t) >= 0.0
    ensures x * x <= y * z
  {
    assert y * t == -x;
    var squared, mixed := y * (y * (t * t)), y * (2.0 * t * x);
    assert squared == x * x by {
      assert squared == (y * t) * (y * t);
    }
    assert mixed == -2.0 * (x * x) by {
      assert mixed == 2.0 * (y * t) * x;
    }
    NonNegativeProduct(y, Quadratic(y, x, z, t));
    assert y * Quadratic(y, x, z, t) == squared + mixed + y * z;
  }

  predicate IsRoot(r: real, x: real) {
    r >= 0.0 && r * r == x
  }

  /** Every score lies in [-1, 1], wherever `sqrt` really is a square root. */
  lemma CosineInUnitInterval(sqrt: real -> real, a: Vector, b: Vector)
    requires IsRoot(sqrt(Dot(a, a)), Dot(a, a)) && IsRoot(sqrt(Dot(b, b)), Dot(b, b))
    ensures -1.0 <= Cosine(sqrt, a, b) <= 1.0
  {
    hide Dot, IsRoot, Normalized;
    if |a| == |b| {
      CauchySchwarz(a, b);
      NormalizedInUnitInterval(Dot(a, b), Dot(a, a), Dot(b, b), sqrt(Dot(a, a)), sqrt(Dot(b, b)));
    }
  }

  lemma NormalizedInUnitInterval(x: real, y: real, z: real, ry: real, rz: real)
    requires x * x <= y * z && IsRoot(ry, y) && IsRoot(rz, z)
    ensures -1.0 <= Normalized(x, ry, rz) <= 1.0
  {
    var den := ry * rz;
    RootsMultiply(ry, rz, y, z);
    if den != 0.0 {
      BoundedBySquare(x, den);
      QuotientInUnitInterval(x, den);
    }
  }

  lemma RootsMultiply(ry: real, rz: real, y: real, z: real)
    requires IsRoot(ry, y) && IsRoot(rz, z)
    ensures ry * rz >= 0.0 && (ry * rz) * (ry * rz) == y * z
  {
    assert (ry * rz) * (ry * rz) == (ry * ry) * (rz * rz);
  }

  lemma LargerSquare(x: real, d: real)
    requires x > d > 0.0
    ensures x * x > d * d
  {
    assert x * x > x * d > d * d;
  }

  lemma BoundedBySquare(x: real, d: real)
    requires d > 0.0 && x * x <= d * d
    ensures -d <= x <= d
  {
    if x > d {
      LargerSquare(x, d);
    } else if x < -d {
      LargerSquare(-x, d);
    }
  }

  lemma QuotientInUnitInterval(x: real, d: real)
    requires d > 0.0 && -d <= x <= d
    ensures -1.0 <= x / d <= 1.0
  {
    var q := x / d;
    assert q * d == x;
  }

  /** Where neither length is zero the score is the product of the vectors over that of their
      lengths; vectors of different lengths, and empty ones, score 0. */
  lemma CosineIsProduct(sqrt: real -> real, a: Vector, b: Vector)
    ensures |a| != |b| || a == [] ==> Cosine(sqrt, a, b) == 0.0
    ensures |a| == |b| && a != [] ==>
              var lengths := sqrt(Dot(a, a)) * sqrt(Dot(b, b));
              Cosine(sqrt, a, b) * lengths == if lengths == 0.0 then 0.0 else Dot(a, b)
  {
    hide Dot;
    if |a| == |b| && a != [] {
      QuotientTimes(Dot(a, b), sqrt(Dot(a, a)) * sqrt(Dot(b, b)));
    }
  }

  lemma QuotientTimes(x: real, d: real)
    ensures d != 0.0 ==> (x / d) * d == x
  {
  }

  /** A vector that is not zero scores 1 against itself. */
  lemma CosineOfSelf(sqrt: real -> real, a: Vector)
    requires IsRoot(sqrt(Dot(a, a)), Dot(a, a)) && Dot(a, a) != 0.0
    ensures Cosine(sqrt, a, a) == 1.0
  {
    var r, x := sqrt(Dot(a, a)), Dot(a, a);
    assert r * r == x;
    assert x / x == 1.0;
  }

  /* ---------- Top-k selection ---------- */

  predicate Descending<T>(s: seq<Scored<T>>) {
    forall i, j :: 0 <= i < j < |s| ==> s[i].score >= s[j].score
  }

  /** `r` lists `k` best of `cands`, best first; a `k` that is not positive asks for all. */
  ghost predicate TopK<T>(cands: seq<Scored<T>>, r: seq<Scored<T>>, k: int) {
    && Descending(r)
    && |r| == (if 0 < k < |cands| then k else |cands|)
    && multiset(r) <= multiset(cands)
    && forall c, x :: c in multiset(cands) - multiset(r) && x in r ==> x.score >= c.score
  }

  ghost predicate Permutation<T>(a: seq<T>, b: seq<T>) {
    multiset(a) == multiset(b)
  }

  method Swap<T>(a: array<T>, i: nat, j: nat)
    requires i < j < a.Length
    modifies a
    ensures a[i] == old(a[j]) && a[j] == old(a[i])
    ensures forall k :: 0 <= k < a.Length && k != i && k != j ==> a[k] == old(a[k])
    ensures Permutation(a[..], old(a[..]))
  {
    a[i], a[j] := a[j], a[i];
  }

  /** Everything before `n` is in its final place. */
  ghost predicate Placed<T>(s: seq<Scored<T>>, n: nat) {
    forall p, q :: 0 <= p < n && p < q < |s| ==> s[p].score >= s[q].score
  }

  /** One pass of the inner loop brings the best of the rest to position `i`. */
  method SelectBest<T>(a: array<Scored<T>>, i: nat)
    requires i < a.Length && Placed(a[..], i)
    modifies a
    ensures Placed(a[..], i + 1) && Permutation(a[..], old(a[..]))
  {
    for j := i + 1 to a.Length
      invariant Placed(a[..], i)
      invariant forall q :: i < q < j ==> a[i].score >= a[q].score
      invariant Permutation(a[..], old(a[..]))
    {
      if a[j].score > a[i].score {
        ghost var before := a[..];
        Swap(a, i, j);
        SwapKeepsPlaced(before, a[..], i, j);
      }
    }
  }

  lemma SwapKeepsPlaced<T>(s: seq<Scored<T>>, t: seq<Scored<T>>, i: nat, j: nat)
    requires i < j < |s| == |t| && Placed(s, i)
    requires t[i] == s[j] && t[j] == s[i]
    requires forall k :: 0 <= k < |s| && k != i && k != j ==> t[k] == s[k]
    ensures Placed(t, i)
  {
    forall p, q | 0 <= p < i && p < q < |t|
      ensures t[p].score >= t[q].score
    {
      assert t[p] == s[p];
      assert t[q] == s[q] || t[q] == s[i] || t[q] == s[j];
    }
  }

  method ExchangeSort<T>(a: array<Scored<T>>)
    modifies a
    ensures Descending(a[..]) && Permutation(a[..], old(a[..]))
  {
    for i := 0 to a.Length
      invariant Placed(a[..], i) && Permutation(a[..], old(a[..]))
    {
      SelectBest(a, i);
    }
  }

  /** Sorts the candidates and keeps the first `k`. */
  method Rank<T>(cands: seq<Scored<T>>, k: int) returns (r: seq<Scored<T>>)
    ensures TopK(cands, r, k)
  {
    var a := new Scored<T>[|cands|](i requires 0 <= i < |cands| => cands[i]);
    assert a[..] == cands;
    ExchangeSort(a);
    r := a[..];
    SortedPrefixIsTop(cands, r, k);
    if k > 0 && |r| > k {
      r := r[..k];
    }
  }

  function Cut<T>(s: seq<Scored<T>>, k: int): seq<Scored<T>> {
    if 0 < k < |s| then s[..k] else s
  }

  lemma SortedPrefixIsTop<T>(cands: seq<Scored<T>>, s: seq<Scored<T>>, k: int)
    requires Descending(s) && Permutation(s, cands)
    ensures TopK(cands, Cut(s, k), k)
  {
    SameLength(s, cands);
    if 0 < k < |s| {
      PrefixBeatsRest(s, k);
      SplitMultiset(s, k);
      MultisetRest(multiset(cands), multiset(s[..k]), multiset(s[k..]));
    } else {
      assert multiset(cands) - multiset(s) == multiset{};
    }
  }

  lemma SplitMultiset<T>(s: seq<T>, k: nat)
    requires k <= |s|
    ensures multiset(s) == multiset(s[..k]) + multiset(s[k..])
  {
    assert s == s[..k] + s[k..];
  }

  lemma MultisetRest<T>(all: multiset<T>, a: multiset<T>, b: multiset<T>)
    requires all == a + b
    ensures a <= all && all - a == b
  {
  }

  lemma PrefixBeatsRest<T>(s: seq<Scored<T>>, k: nat)
    requires Descending(s) && k <= |s|
    ensures forall c, x :: c in multiset(s[k..]) && x in s[..k] ==> x.score >= c.score
  {
    forall c, x | c in multiset(s[k..]) && x in s[..k]
      ensures x.score >= c.score
    {
      var j :| 0 <= j < |s[k..]| && s[k..][j] == c;
      var i :| 0 <= i < |s[..k]| && s[..k][i] == x;
      assert s[i] == x && s[k + j] == c;
    }
  }

  lemma SameLength<T>(a: seq<T>, b: seq<T>)
    requires Permutation(a, b)
    ensures |a| == |b|
  {
    assert |a| == |multiset(a)| && |b| == |multiset(b)|;
  }

  /** Cutting a top-k list again gives the shorter top list. */
  lemma TopOfTop<T>(cands: seq<Scored<T>>, r: seq<Scored<T>>, k: int, n: int)
    requires TopK(cands, r, k) && 0 < n <= |r|
    ensures TopK(cands, r[..n], n)
  {
    var front, back := multiset(r[..n]), multiset(r[n..]);
    SplitMultiset(r, n);
    PrefixBeatsRest(r, n);
    forall c, x | c in multiset(cands) - front && x in r[..n]
      ensures x.score >= c.score
    {
      if c !in back {
        assert x in r by {
          assert x in multiset(r[..n]) && x in multiset(r);
        }
        assert c in multiset(cands) - multiset(r);
      }
    }
  }
}
