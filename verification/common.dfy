/** Shared vocabulary: optional values, results, and the fixed-width unsigned
    integers the simulator code stores its counters in. */
module Common {

  datatype Option<+T> = None | Some(value: T)

  datatype Result<+R, +E> = Success(value: R) | Failure(error: E)

  const TwoTo8: nat := 0x100
  const TwoTo32: nat := 0x1_0000_0000
  const TwoTo64: nat := 0x1_0000_0000_0000_0000

  type byte = x: nat | x < TwoTo8
  type uint8 = x: nat | x < TwoTo8
  type uint32 = x: nat | x < TwoTo32
  type uint64 = x: nat | x < TwoTo64

  /** `x += d` on a 32-bit unsigned counter. */
  function Add32(x: uint32, d: nat): (r: uint32)
    ensures x + d < TwoTo32 ==> r == x + d
    ensures (r - x - d) % TwoTo32 == 0
  {
    (x + d) % TwoTo32
  }

  /** `x += d` on a 64-bit unsigned counter. */
  function Add64(x: uint64, d: nat): (r: uint64)
    ensures x + d < TwoTo64 ==> r == x + d
    ensures (r - x - d) % TwoTo64 == 0
  {
    (x + d) % TwoTo64
  }

  /** Adding two amounts one after the other to a 64-bit counter is the same
      as adding their sum once. */
  lemma Add64Assoc(x: uint64, a: nat, b: nat)
    ensures Add64(Add64(x, a), b) == Add64(x, a + b)
  {
    var q, r := (x + a) / TwoTo64, (x + a) % TwoTo64;
    var q2, r2 := (r + b) / TwoTo64, (r + b) % TwoTo64;
    assert x + a + b == (q + q2) * TwoTo64 + r2;
    ModUnique64(x + a + b, q + q2, r2);
  }

  /** The remainder modulo 2^64 is the one any such decomposition names. */
  lemma ModUnique64(n: int, k: int, r: int)
    requires n == k * TwoTo64 + r && 0 <= r < TwoTo64
    ensures n % TwoTo64 == r
  {
  }
}
