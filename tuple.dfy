/**
 * The `Tuple` capability shared by points and vectors (src/core/tuple.rs):
 * construction from three coordinates, a zero value, and the accessors
 * x, y, z and w, where w tells the two kinds apart.
 */
module Tuples {
  import Points
  import Vectors

  /** `zero()` is the all-zero tuple of either kind, and `w` is the only thing that differs. */
  lemma ZeroAndDiscriminant(p: Points.Point, v: Vectors.Vector)
    ensures Points.Zero() == Points.Point(0.0, 0.0, 0.0)
    ensures Vectors.Zero() == Vectors.Vector(0.0, 0.0, 0.0)
    ensures Points.W(p) == 1.0 && Vectors.W(v) == 0.0
    ensures Points.W(p) != Vectors.W(v)
  {
  }

  /** `w` of a translation is that of a point, `w` of a point difference that of a vector,
      matching homogeneous arithmetic: 1 + 0 = 1 and 1 - 1 = 0. */
  lemma ClosureMatchesHomogeneousW(p: Points.Point, q: Points.Point, v: Vectors.Vector, u: Vectors.Vector)
    ensures Points.W(Points.AddVector(p, v)) == Points.W(p) + Vectors.W(v)
    ensures Points.W(Points.SubVector(p, v)) == Points.W(p) - Vectors.W(v)
    ensures Vectors.W(Points.Sub(p, q)) == Points.W(p) - Points.W(q)
    ensures Vectors.W(Vectors.Add(u, v)) == Vectors.W(u) + Vectors.W(v)
    ensures Vectors.W(Vectors.Sub(u, v)) == Vectors.W(u) - Vectors.W(v)
  {
  }

  /** The test `adding_two_tuples`: point + vector is a point. */
  lemma AddingTwoTuples()
    ensures Points.Eq(Points.Point(1.0, 1.0, 6.0),
                      Points.AddVector(Points.Point(3.0, -2.0, 5.0), Vectors.Vector(-2.0, 3.0, 1.0)))
  {
    assert Points.AddVector(Points.Point(3.0, -2.0, 5.0), Vectors.Vector(-2.0, 3.0, 1.0)) == Points.Point(1.0, 1.0, 6.0);
  }

  /** The test `subtracting_two_points`: point - point is a vector. */
  lemma SubtractingTwoPoints()
    ensures Vectors.Eq(Vectors.Vector(-2.0, -4.0, -6.0),
                       Points.Sub(Points.Point(3.0, 2.0, 1.0), Points.Point(5.0, 6.0, 7.0)))
  {
  }

  /** The test `subtracting_vector_from_point`: point - vector is a point. */
  lemma SubtractingVectorFromPoint()
    ensures Points.Eq(Points.Point(-2.0, -4.0, -6.0),
                      Points.SubVector(Points.Point(3.0, 2.0, 1.0), Vectors.Vector(5.0, 6.0, 7.0)))
  {
  }

  /** The test `subtracting_two_vectors`: vector - vector is a vector. */
  lemma SubtractingTwoVectors()
    ensures Vectors.Eq(Vectors.Vector(-2.0, -4.0, -6.0),
                       Vectors.Sub(Vectors.Vector(3.0, 2.0, 1.0), Vectors.Vector(5.0, 6.0, 7.0)))
  {
  }
}
