/** Vocabulary shared by all models. */
module Common {
  datatype Option<+T> = None | Some(value: T)

  type byte = x: int | 0 <= x < 256

  /** Clock readings and durations, in ticks of the steady clock: nanoseconds. */
  type Time = int

  /** An error code; zero means no error. */
  type Code = nat

  /** One past the largest `size_t` / `unsigned long` of a 64-bit target. */
  const WORD: nat := 0x1_0000_0000_0000_0000

  /** Unsigned 64-bit arithmetic: the only word that differs from `x` by a multiple of 2^64. */
  function Wrap(x: int): (r: nat)
    ensures r < 0x1_0000_0000_0000_0000 && (x - r) % 0x1_0000_0000_0000_0000 == 0
  {
    x % WORD
  }
}
