/**
 * Integer and real 3-vectors (the game's `cgmath::Vector3<i32>` and
 * `cgmath::Vector3<f32>`), and Rust's integer conversions written out:
 * `/` on `i32` truncates toward zero and a float-to-int cast truncates too,
 * whereas Dafny's `/` on `int` is Euclidean and `Floor` rounds down.
 */
module Vector {

  datatype Int3 = Int3(x: int, y: int, z: int) {
    function Add(o: Int3): Int3 { Int3(x + o.x, y + o.y, z + o.z) }
    function Neg(): Int3 { Int3(-x, -y, -z) }
  }

  datatype Vec3 = Vec3(x: real, y: real, z: real) {
    function Add(o: Vec3): Vec3 { Vec3(x + o.x, y + o.y, z + o.z) }
    function Sub(o: Vec3): Vec3 { Vec3(x - o.x, y - o.y, z - o.z) }
    function Scale(k: real): Vec3 { Vec3(x * k, y * k, z * k) }
  }

  function Abs(a: int): (r: nat)
    ensures r == a || r == -a
  {
    if a < 0 then -a else a
  }

  /** Rust's `a / b` on `i32`: the quotient rounded toward zero. */
  function TruncDiv(a: int, b: int): (q: int)
    requires b > 0
    ensures a >= 0 ==> q >= 0
    ensures a <= 0 ==> q <= 0
  {
    if a >= 0 then a / b else -((-a) / b)
  }

  /**
   * The quotient itself: for a non-negative `a` the largest `q` with
   * `q * b <= a`, for a negative `a` the smallest `q` with `a <= q * b`.
   */
  lemma TruncDivValue(a: int, b: int)
    requires b > 0
    ensures a >= 0 ==> TruncDiv(a, b) * b <= a < TruncDiv(a, b) * b + b
    ensures a < 0 ==> TruncDiv(a, b) * b - b < a <= TruncDiv(a, b) * b
  {
    if a >= 0 {
      DivBounds(a, b);
    } else {
      DivBounds(-a, b);
    }
  }

  /** Dafny's `/` on a non-negative dividend rounds down. */
  lemma DivBounds(a: nat, b: int)
    requires b > 0
    ensures (a / b) * b <= a < (a / b) * b + b
  {
  }

  /** Component-wise `Vector3<i32> / i32`. */
  function TruncDiv3(v: Int3, b: int): Int3
    requires b > 0
  {
    Int3(TruncDiv(v.x, b), TruncDiv(v.y, b), TruncDiv(v.z, b))
  }

  /** A float-to-integer cast: the real rounded toward zero. */
  function Trunc(r: real): (n: int)
    ensures r >= 0.0 ==> n >= 0
    ensures r <= 0.0 ==> n <= 0
  {
    if r >= 0.0 then r.Floor else -((-r).Floor)
  }

  /** The cast's value: a non-negative real lies in `[n, n + 1)`, a negative one in `(n - 1, n]`. */
  lemma TruncValue(r: real)
    ensures r >= 0.0 ==> Trunc(r) as real <= r < Trunc(r) as real + 1.0
    ensures r < 0.0 ==> Trunc(r) as real - 1.0 < r <= Trunc(r) as real
  {
  }

  /** `Vector3<f32>::cast::<i32>()`, component-wise truncation. */
  function Trunc3(v: Vec3): Int3 {
    Int3(Trunc(v.x), Trunc(v.y), Trunc(v.z))
  }

  /** `Vector3<i32>::cast::<f32>()`. */
  function ToReal3(v: Int3): Vec3 {
    Vec3(v.x as real, v.y as real, v.z as real)
  }
}
