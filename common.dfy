/** Small definitions shared by the frontend and backend models. */
module Common {

  /** A value that may be absent: Java's null, JavaScript's undefined. */
  datatype Option<+T> = None | Some(value: T)

  /**
   * `Math.floor(Math.random() * n)`: the random draw `r` is an input in [0, 1),
   * as `Math.random()` promises, and the result is always a valid index into a
   * list of `n` entries.
   */
  function RandomIndex(r: real, n: nat): (i: nat)
    requires 0.0 <= r < 1.0 && 0 < n
    ensures i < n
    ensures i as real <= r * n as real < i as real + 1.0
  {
    assert 0.0 <= r * n as real < n as real by {
      assert r * n as real < 1.0 * n as real;
    }
    (r * n as real).Floor
  }
}
