/** Types shared by every module. */
module Common {

  datatype Option<+T> = None | Some(value: T)

  datatype Result<+T, +E> = Ok(value: T) | Err(error: E)

  type byte = b: int | 0 <= b < 256

  type Bytes = seq<byte>

  /** Milliseconds on the monotonic clock. */
  type Time = nat

  /** `Instant::duration_since`, which saturates at zero. */
  function Since(now: Time, earlier: Time): nat {
    if now >= earlier then now - earlier else 0
  }

  /** Two bytes, most significant first. */
  function Be16(high: byte, low: byte): nat {
    256 * (high as int) + low as int
  }

  function Zeros(n: nat): (z: Bytes)
    ensures |z| == n
  {
    seq(n, _ => 0)
  }

  function Min(a: int, b: int): int {
    if a <= b then a else b
  }

  function Max(a: int, b: int): int {
    if a >= b then a else b
  }
}
