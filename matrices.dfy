/** Matrices are kept symbolic: a value is the term that built it, so a product is
    never evaluated and every statement about matrices is an identity between terms. */
module Matrices {

  /** A 4x4 matrix: the identity (`new Matrix4()`), a matrix supplied by the scene or
      camera (told apart by an opaque id), or the product of two matrices. */
  datatype Matrix = Identity | Given(id: nat) | Product(left: Matrix, right: Matrix)

  /** `target.multiplyMatrices(a, b)`: the product a × b, left uninterpreted. */
  function Multiply(a: Matrix, b: Matrix): Matrix
  {
    Product(a, b)
  }
}
