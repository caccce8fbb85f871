/** Two-component vectors and their operators. Components are f32 in the header, exact reals
    here. The compound assignments `*=` and `+=` update the caller's vector through a
    reference; they are methods that return the updated vector. */
module Vectors {

  datatype Vector2 = Vector2(X: real, Y: real)

  /** `A * B`: both components scaled by `A`. */
  function Scale(A: real, B: Vector2): (result: Vector2)
    ensures result.X == A * B.X && result.Y == A * B.Y
  {
    Vector2(A * B.X, A * B.Y)
  }

  /** `B * A`, defined in the header through `A * B`. */
  function ScaleRight(B: Vector2, A: real): (result: Vector2)
  {
    Scale(A, B)
  }

  /** Unary `-A`. */
  function Negate(A: Vector2): (result: Vector2)
  {
    Vector2(-A.X, -A.Y)
  }

  /** `A + B`, component by component. */
  function Add(A: Vector2, B: Vector2): (result: Vector2)
  {
    Vector2(A.X + B.X, A.Y + B.Y)
  }

  /** `A - B`, component by component. */
  function Subtract(A: Vector2, B: Vector2): (result: Vector2)
  {
    Vector2(A.X - B.X, A.Y - B.Y)
  }

  /** `B *= A`: the caller's vector becomes `A * B`. */
  method MulAssign(B: Vector2, A: real) returns (updated: Vector2)
    ensures updated == ScaleRight(B, A)
    ensures updated.X == A * B.X && updated.Y == A * B.Y
  {
    updated := Scale(A, B);
  }

  /** `A += B`: the caller's vector becomes `A + B`. */
  method AddAssign(A: Vector2, B: Vector2) returns (updated: Vector2)
    ensures updated == Add(A, B)
    ensures Subtract(updated, B) == A
  {
    updated := Add(A, B);
    AddSubtractInverse(A, B);
  }

  /** Scaling on either side is the same operation, and it is exactly multiplication by a
      scalar: scaling by 1 changes nothing, scaling twice multiplies the factors, and scaling
      by -1 is negation. */
  lemma ScaleLaws(a: real, b: real, v: Vector2)
    ensures ScaleRight(v, a) == Scale(a, v)
    ensures Scale(1.0, v) == v
    ensures Scale(a, Scale(b, v)) == Scale(a * b, v)
    ensures Scale(-1.0, v) == Negate(v)
  {
  }

  /** Subtracting undoes adding, adding undoes subtracting, and subtraction is adding the
      negation. */
  lemma AddSubtractInverse(A: Vector2, B: Vector2)
    ensures Subtract(Add(A, B), B) == A
    ensures Add(Subtract(A, B), B) == A
    ensures Subtract(A, B) == Add(A, Negate(B))
  {
  }

  /** Vector addition is commutative and associative, and scaling distributes over it. */
  lemma AddLaws(a: real, A: Vector2, B: Vector2, C: Vector2)
    ensures Add(A, B) == Add(B, A)
    ensures Add(Add(A, B), C) == Add(A, Add(B, C))
    ensures Scale(a, Add(A, B)) == Add(Scale(a, A), Scale(a, B))
    ensures Add(A, Negate(A)) == Vector2(0.0, 0.0)
  {
  }
}
