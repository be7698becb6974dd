/** Locality-sensitive hashing of embeddings by random planes that are cached between calls. */
module SemanticHasher {
  import opened Arithmetic
  import opened Domain
  import Ranking
  import Text

  const DEFAULT_PLANES: nat := 64

  /** The k-th number a seeded generator draws. */
  type Generator = (int, nat) -> real

  function Min(a: nat, b: nat): nat {
    if a <= b then a else b
  }

  /** The product over the common dimensions. */
  function Dot(a: Vector, b: Vector): real {
    if a == [] || b == [] then 0.0 else a[0] * b[0] + Dot(a[1..], b[1..])
  }

  function Plane(normal: Generator, seed: int, dims: nat, i: nat): Vector {
    seq(dims, j requires 0 <= j < dims => normal(seed, i * dims + j))
  }

  function Planes(normal: Generator, seed: int, count: nat, dims: nat): seq<Vector> {
    seq(count, i requires 0 <= i < count => Plane(normal, seed, dims, i))
  }

  /** On which side of each of the first 64 planes a vector lies. */
  function Signs(planes: seq<Vector>, v: Vector): (s: seq<bool>)
    ensures |s| <= 64
  {
    seq(Min(64, |planes|), i requires 0 <= i < Min(64, |planes|) => Dot(v, planes[i]) >= 0.0)
  }

  /** The signs read as a binary number, the first one highest. */
  function Value(signs: seq<bool>): nat {
    if signs == [] then 0
    else 2 * Value(signs[..|signs| - 1]) + (if signs[|signs| - 1] then 1 else 0)
  }

  /** Packed into 64 bits from the top. */
  function Pack(signs: seq<bool>): nat
    requires |signs| <= 64
  {
    Value(signs) * Pow2(64 - |signs|)
  }

  /** The hash of a vector, as a function of the generator, the seed and the plane count. */
  function HashOf(normal: Generator, seed: int, count: nat, v: Vector): nat {
    Pack(Signs(Planes(normal, seed, count, |v|), v))
  }

  /** `h | 1 << bit`. */
  function SetBit(h: nat, bit: nat): nat {
    if (h / Pow2(bit)) % 2 == 1 then h else h + Pow2(bit)
  }

  lemma Even(q: nat, p: nat)
    requires p > 0
    ensures ((q * (2 * p)) / p) % 2 == 0
  {
    assert q * (2 * p) == (2 * q) * p;
    Cancel(2 * q, p);
  }

  lemma Cancel(q: nat, p: nat)
    requires p > 0
    ensures (q * p) / p == q
  {
    var d := (q * p) / p;
    assert d * p <= q * p < (d + 1) * p;
    if d < q {
      MoreMultiples(d, q, p);
    } else if d > q {
      MoreMultiples(q, d, p);
    }
  }

  lemma MoreMultiples(a: nat, b: nat, p: nat)
    requires a < b && p > 0
    ensures a * p < (a + 1) * p <= b * p
  {
    assert b * p == (a + 1) * p + (b - a - 1) * p;
  }

  lemma ShiftIn(x: nat, p: nat)
    ensures (2 * x) * p == x * (2 * p)
    ensures (2 * x + 1) * p == x * (2 * p) + p
  {
  }

  /** A multiple of twice a power of two does not have that bit set yet. */
  lemma BitIsFree(x: nat, bit: nat)
    ensures SetBit(x * (2 * Pow2(bit)), bit) == x * (2 * Pow2(bit)) + Pow2(bit)
  {
    Even(x, Pow2(bit));
  }

  /** Setting the next lower bit appends a sign. */
  lemma PackStep(signs: seq<bool>, s: bool)
    requires |signs| < 64
    ensures Pack(signs + [s]) == if s then SetBit(Pack(signs), 63 - |signs|) else Pack(signs)
  {
    hide SetBit;
    var n := |signs|;
    var more := signs + [s];
    assert more[..|more| - 1] == signs;
    var x, p := Value(signs), Pow2(63 - n);
    assert Pow2(64 - n) == 2 * p;
    assert Value(more) == 2 * x + (if s then 1 else 0);
    ShiftIn(x, p);
    BitIsFree(x, 63 - n);
  }

  lemma {:induction false} ValueInjective(s: seq<bool>, t: seq<bool>)
    requires |s| == |t| && Value(s) == Value(t)
    ensures s == t
  {
    if s != [] {
      var n := |s| - 1;
      assert s[n] == t[n];
      ValueInjective(s[..n], t[..n]);
      assert s == s[..n] + [s[n]] && t == t[..n] + [t[n]];
    }
  }

  lemma PackInjective(s: seq<bool>, t: seq<bool>)
    requires |s| == |t| <= 64 && Pack(s) == Pack(t)
    ensures s == t
  {
    Cancel(Value(s), Pow2(64 - |s|));
    Cancel(Value(t), Pow2(64 - |t|));
    ValueInjective(s, t);
  }

  lemma {:induction false} ValueBelow(s: seq<bool>)
    ensures Value(s) < Pow2(|s|)
    ensures Value(s) == 0 <==> forall i :: 0 <= i < |s| ==> !s[i]
  {
    if s != [] {
      ValueBelow(s[..|s| - 1]);
    }
  }

  lemma {:induction false} Pow2Adds(a: nat, b: nat)
    ensures Pow2(a + b) == Pow2(a) * Pow2(b)
  {
    if a > 0 {
      Pow2Adds(a - 1, b);
      assert 2 * (Pow2(a - 1) * Pow2(b)) == (2 * Pow2(a - 1)) * Pow2(b);
    }
  }

  /* ---------- What the planes are ---------- */

  /** Plane after plane, the planes are what the generator draws, in the order it draws it. */
  lemma {:induction false} PlanesAreTheDraws(normal: Generator, seed: int, count: nat, dims: nat)
    ensures Text.Flatten(Planes(normal, seed, count, dims)) ==
            seq(count * dims, k requires 0 <= k < count * dims => normal(seed, k))
  {
    hide Text.Flatten, Plane;
    if count == 0 {
      NothingDrawn();
    } else {
      var n := count - 1;
      var last := Plane(normal, seed, dims, n);
      PlanesAreTheDraws(normal, seed, n, dims);
      assert Planes(normal, seed, count, dims) == Planes(normal, seed, n, dims) + [last];
      Text.FlattenAppend(Planes(normal, seed, n, dims), [last]);
      FlattenOne(last);
      NextDraws(normal, seed, dims, n);
    }
  }

  lemma NothingDrawn()
    ensures Text.Flatten<real>([]) == []
  {
  }

  lemma NextDraws(normal: Generator, seed: int, dims: nat, n: nat)
    ensures seq(n * dims, k requires 0 <= k < n * dims => normal(seed, k)) + Plane(normal, seed, dims, n) ==
            seq((n + 1) * dims, k requires 0 <= k < (n + 1) * dims => normal(seed, k))
  {
    assert (n + 1) * dims == n * dims + dims;
  }

  lemma FlattenOne(v: Vector)
    ensures Text.Flatten([v]) == v
  {
    assert [v][1..] == [];
  }

  /** The product is that of the common dimensions. */
  lemma {:induction false} DotOfCommon(a: Vector, b: Vector)
    ensures Dot(a, b) == Ranking.Dot(a[..Min(|a|, |b|)], b[..Min(|a|, |b|)])
  {
    var n := Min(|a|, |b|);
    if n > 0 {
      DotOfCommon(a[1..], b[1..]);
      Ranking.DotFront(a[..n], b[..n]);
      assert a[..n][1..] == a[1..][..n - 1] && b[..n][1..] == b[1..][..n - 1];
    }
  }

  /* ---------- What the hash means ---------- */

  /** Two vectors of one length collide exactly when they lie on the same side of each of the
      first 64 planes. */
  lemma CollideIffSameSides(normal: Generator, seed: int, count: nat, u: Vector, v: Vector)
    requires |u| == |v|
    ensures HashOf(normal, seed, count, u) == HashOf(normal, seed, count, v) <==>
              forall i :: 0 <= i < Min(64, count) ==>
                (Dot(u, Plane(normal, seed, |u|, i)) >= 0.0 <==> Dot(v, Plane(normal, seed, |v|, i)) >= 0.0)
  {
    hide Dot, Pack, Plane;
    var planes := Planes(normal, seed, count, |u|);
    var s, t := Signs(planes, u), Signs(planes, v);
    assert forall i :: 0 <= i < Min(64, count) ==> planes[i] == Plane(normal, seed, |u|, i);
    if HashOf(normal, seed, count, u) == HashOf(normal, seed, count, v) {
      PackInjective(s, t);
      forall i | 0 <= i < Min(64, count)
        ensures Dot(u, Plane(normal, seed, |u|, i)) >= 0.0 <==> Dot(v, Plane(normal, seed, |v|, i)) >= 0.0
      {
        assert s[i] == t[i];
      }
    } else {
      assert s != t;
      var i :| 0 <= i < |s| && s[i] != t[i];
      assert Dot(u, planes[i]) >= 0.0 <==> Dot(v, planes[i]) < 0.0;
    }
  }

  /** The hash is zero, which lookups read as "no hash", exactly for a vector strictly behind
      each of the first 64 planes; and it always fits 64 bits. */
  lemma ZeroIffBehindAllPlanes(normal: Generator, seed: int, count: nat, v: Vector)
    ensures HashOf(normal, seed, count, v) < Pow2(64)
    ensures HashOf(normal, seed, count, v) == 0 <==>
              forall i :: 0 <= i < Min(64, count) ==> Dot(v, Plane(normal, seed, |v|, i)) < 0.0
  {
    hide Dot, Plane, Pack, Pow2;
    var planes := Planes(normal, seed, count, |v|);
    var s := Signs(planes, v);
    PackBelow(s);
    assert forall i :: 0 <= i < Min(64, count) ==> planes[i] == Plane(normal, seed, |v|, i);
    assert forall i :: 0 <= i < |s| ==> (s[i] <==> Dot(v, planes[i]) >= 0.0);
  }

  lemma PackBelow(s: seq<bool>)
    requires |s| <= 64
    ensures Pack(s) < Pow2(64)
    ensures Pack(s) == 0 <==> forall i :: 0 <= i < |s| ==> !s[i]
  {
    ValueBelow(s);
    Pow2Adds(|s|, 64 - |s|);
    KeepsOrder(Value(s), Pow2(|s|), Pow2(64 - |s|));
  }

  lemma KeepsOrder(x: nat, y: nat, p: nat)
    requires x < y && p > 0
    ensures x * p < y * p && (x * p == 0 <==> x == 0)
  {
    MoreMultiples(x, y, p);
  }

  function Scaled(c: real, v: Vector): (r: Vector)
    ensures |r| == |v|
  {
    if v == [] then [] else [c * v[0]] + Scaled(c, v[1..])
  }

  lemma {:induction false} DotOfScaled(c: real, v: Vector, p: Vector)
    ensures Dot(Scaled(c, v), p) == c * Dot(v, p)
  {
    if v != [] && p != [] {
      DotOfScaled(c, v[1..], p[1..]);
      assert c * v[0] * p[0] == c * (v[0] * p[0]);
      assert c * (v[0] * p[0] + Dot(v[1..], p[1..])) == c * (v[0] * p[0]) + c * Dot(v[1..], p[1..]);
    }
  }

  lemma PositiveScale(c: real, x: real)
    requires c > 0.0
    ensures c * x >= 0.0 <==> x >= 0.0
  {
  }

  /** Stretching a vector leaves its hash unchanged. */
  lemma HashIgnoresLength(normal: Generator, seed: int, count: nat, v: Vector, c: real)
    requires c > 0.0
    ensures HashOf(normal, seed, count, Scaled(c, v)) == HashOf(normal, seed, count, v)
  {
    hide Dot, Plane, Pack;
    var planes := Planes(normal, seed, count, |v|);
    forall i | 0 <= i < |planes|
      ensures Dot(Scaled(c, v), planes[i]) >= 0.0 <==> Dot(v, planes[i]) >= 0.0
    {
      DotOfScaled(c, v, planes[i]);
      PositiveScale(c, Dot(v, planes[i]));
    }
    assert Signs(planes, Scaled(c, v)) == Signs(planes, v);
  }

  /* ---------- The hasher itself ---------- */

  class Hasher {
    const normal: Generator
    const planeCount: nat
    const seed: int
    var dims: nat
    var planes: seq<Vector>

    /** Whatever is cached is what would be drawn again. */
    ghost predicate Valid()
      reads this
    {
      planeCount > 0 && if dims == 0 then planes == [] else planes == Planes(normal, seed, planeCount, dims)
    }

    constructor (normal: Generator, planeCount: int, seed: int)
      ensures Valid() && this.normal == normal && this.seed == seed
      ensures this.planeCount == if planeCount <= 0 then 64 else planeCount
    {
      this.normal := normal;
      this.seed := seed;
      this.planeCount := if planeCount <= 0 then DEFAULT_PLANES else planeCount;
      dims := 0;
      planes := [];
    }

    /** The hash, or nothing for an empty vector: a function of the vector alone, whatever was
        hashed before. */
    method Hash(v: Vector) returns (hash: nat, ok: bool)
      requires Valid()
      modifies this
      ensures Valid()
      ensures ok <==> v != []
      ensures hash == if v == [] then 0 else HashOf(normal, seed, planeCount, v)
    {
      if |v| == 0 {
        return 0, false;
      }
      EnsurePlanes(|v|);
      hash := PackSigns(planes, v);
      ok := true;
    }

    method PackSigns(planes: seq<Vector>, v: Vector) returns (hash: nat)
      ensures hash == Pack(Signs(planes, v))
    {
      hide Dot, SetBit, Pack;
      var bitCount := |planes|;
      if bitCount > 64 {
        bitCount := 64;
      }
      hash := 0;
      ghost var signs := Signs(planes, v);
      assert signs[..0] == [];
      PackNothing();
      for i := 0 to bitCount
        invariant hash == Pack(signs[..i])
      {
        assert signs[..i + 1] == signs[..i] + [signs[i]];
        PackStep(signs[..i], signs[i]);
        var product := DotProduct(v, planes[i]);
        if product >= 0.0 {
          var bit := 63 - i;
          hash := SetBit(hash, bit);
        }
      }
      assert signs[..|signs|] == signs;
    }

    /** Draws the planes for a dimension, unless they are cached. */
    method EnsurePlanes(n: nat)
      requires Valid() && n > 0
      modifies this
      ensures Valid() && dims == n && planes == Planes(normal, seed, planeCount, n)
    {
      if dims == n && |planes| == planeCount {
        return;
      }
      var fresh' := [];
      var drawn := 0;
      for i := 0 to planeCount
        invariant drawn == i * n
        invariant fresh' == Planes(normal, seed, planeCount, n)[..i]
      {
        var plane := [];
        for j := 0 to n
          invariant drawn == i * n + j
          invariant plane == Plane(normal, seed, n, i)[..j]
        {
          plane := plane + [normal(seed, drawn)];
          drawn := drawn + 1;
        }
        assert plane == Plane(normal, seed, n, i);
        fresh' := fresh' + [plane];
        assert (i + 1) * n == i * n + n;
      }
      planes := fresh';
      dims := n;
    }

    method DotProduct(a: Vector, b: Vector) returns (sum: real)
      ensures sum == Dot(a, b)
    {
      var length := if |b| < |a| then |b| else |a|;
      sum := 0.0;
      for i := 0 to length
        invariant sum + Dot(a[i..], b[i..]) == Dot(a, b)
      {
        assert a[i..][1..] == a[i + 1..] && b[i..][1..] == b[i + 1..];
        sum := sum + a[i] * b[i];
      }
    }
  }

  lemma PackNothing()
    ensures Pack([]) == 0
  {
  }
}
