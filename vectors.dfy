/** The vector helpers of distance_process.py that the great-circle
    projection uses: cross product, dot product and the sum of squares under
    the Euclidean norm. */
module Vectors {
  import Geometry

  datatype Vec3 = Vec3(x: real, y: real, z: real)

  function AsSeq(v: Vec3): seq<real>
  {
    [v.x, v.y, v.z]
  }

  /** calc_cross_product: a vector orthogonal to both arguments. */
  function Cross(v1: Vec3, v2: Vec3): (c: Vec3)
    ensures c.x * v1.x + c.y * v1.y + c.z * v1.z == 0.0
    ensures c.x * v2.x + c.y * v2.y + c.z * v2.z == 0.0
  {
    Vec3(v1.y * v2.z - v2.y * v1.z,
         v2.x * v1.z - v1.x * v2.z,
         v1.x * v2.y - v2.x * v1.y)
  }

  /** The sum of products over the first k pairs. */
  function DotPrefix(a: seq<real>, b: seq<real>, k: nat): real
    requires k <= |a| && k <= |b|
  {
    if k == 0 then 0.0 else DotPrefix(a, b, k - 1) + a[k - 1] * b[k - 1]
  }

  function Min(m: nat, n: nat): nat
  {
    if m <= n then m else n
  }

  /** The dot product over the pairs `zip` forms: the shorter input decides. */
  function Dot(a: seq<real>, b: seq<real>): real
  {
    DotPrefix(a, b, Min(|a|, |b|))
  }

  /** calc_dot_product: accumulate x1 * x2 over zip(vector1, vector2). */
  method DotProduct(vector1: seq<real>, vector2: seq<real>) returns (ret: real)
    ensures ret == Dot(vector1, vector2)
  {
    ret := 0.0;
    var n := Min(|vector1|, |vector2|);
    for i := 0 to n
      invariant ret == DotPrefix(vector1, vector2, i)
    {
      ret := ret + vector1[i] * vector2[i];
    }
  }

  /** The squared Euclidean norm is the dot product of a vector with itself
      and is never negative. */
  method SumOfSquares(vector: seq<real>) returns (ret: real)
    ensures ret == Dot(vector, vector)
    ensures ret >= 0.0
  {
    ret := 0.0;
    for i := 0 to |vector|
      invariant ret == DotPrefix(vector, vector, i)
      invariant ret >= 0.0
    {
      Geometry.SquareNonNegative(vector[i]);
      ret := ret + vector[i] * vector[i];
    }
  }

  lemma {:induction false} DotPrefixSymmetric(a: seq<real>, b: seq<real>, k: nat)
    requires k <= |a| && k <= |b|
    ensures DotPrefix(a, b, k) == DotPrefix(b, a, k)
  {
    if k > 0 {
      DotPrefixSymmetric(a, b, k - 1);
    }
  }

  /** The dot product does not depend on the order of its arguments. */
  lemma DotSymmetric(a: seq<real>, b: seq<real>)
    ensures Dot(a, b) == Dot(b, a)
  {
    DotPrefixSymmetric(a, b, Min(|a|, |b|));
  }

  /** The dot product of two 3-vectors written out. */
  lemma Dot3(u: Vec3, v: Vec3)
    ensures Dot(AsSeq(u), AsSeq(v)) == u.x * v.x + u.y * v.y + u.z * v.z
  {
    assert DotPrefix(AsSeq(u), AsSeq(v), 1) == u.x * v.x;
    assert DotPrefix(AsSeq(u), AsSeq(v), 2) == u.x * v.x + u.y * v.y;
  }

  /** The cross product is orthogonal to both of its arguments, which is
      what makes it the normal of the great circle through them. */
  lemma CrossOrthogonal(v1: Vec3, v2: Vec3)
    ensures Dot(AsSeq(Cross(v1, v2)), AsSeq(v1)) == 0.0
    ensures Dot(AsSeq(Cross(v1, v2)), AsSeq(v2)) == 0.0
  {
    Dot3(Cross(v1, v2), v1);
    Dot3(Cross(v1, v2), v2);
  }

  /** Swapping the arguments of the cross product negates it. */
  lemma CrossAntisymmetric(v1: Vec3, v2: Vec3)
    ensures Cross(v2, v1) == Vec3(-Cross(v1, v2).x, -Cross(v1, v2).y, -Cross(v1, v2).z)
  {
  }
}
