/** Unity's Vector3, modelled over exact reals instead of single-precision floats. */
module Vectors {

  datatype Vector3 = Vector3(x: real, y: real, z: real)

  /** Vector3.zero */
  const Zero := Vector3(0.0, 0.0, 0.0)

  /** Vector3.up scaled: the vector (0, h, 0) */
  function Up(h: real): Vector3 { Vector3(0.0, h, 0.0) }

  /** The operator `a + b` */
  function Add(a: Vector3, b: Vector3): Vector3 {
    Vector3(a.x + b.x, a.y + b.y, a.z + b.z)
  }

  /** The operator `a - b` */
  function Sub(a: Vector3, b: Vector3): Vector3 {
    Vector3(a.x - b.x, a.y - b.y, a.z - b.z)
  }

  /** The operators `k * v` and `v * k` */
  function Scale(k: real, v: Vector3): Vector3 {
    Vector3(k * v.x, k * v.y, k * v.z)
  }

  /** One more step of `v` from `a + k·v` reaches `a + (k+1)·v`. */
  lemma ScaleStep(a: Vector3, k: real, v: Vector3)
    ensures Add(Add(a, Scale(k, v)), v) == Add(a, Scale(k + 1.0, v))
  {
  }

  /**
   * The two members of Vector3 that hide a square root, `magnitude` and
   * `normalized`. They are library code outside this model, so they are
   * handed to the operations that use them instead of being defined here.
   */
  datatype VectorLib = VectorLib(magnitude: Vector3 -> real, normalized: Vector3 -> Vector3)

  /** The one fact about `magnitude` that the model ever relies on. */
  ghost predicate MagnitudeNonNegative(lib: VectorLib) {
    forall v :: lib.magnitude(v) >= 0.0
  }
}
