/** Bytes as small integers; the bit fields the drivers test are written as
    quotients and remainders by powers of two. */
module Bytes {
  type byte = x: int | 0 <= x < 256

  /** Bit `k` of a byte, least significant first. */
  predicate Bit(b: byte, k: nat)
    requires k < 8
  {
    match k
    case 0 => b % 2 == 1
    case 1 => b / 2 % 2 == 1
    case 2 => b / 4 % 2 == 1
    case 3 => b / 8 % 2 == 1
    case 4 => b / 16 % 2 == 1
    case 5 => b / 32 % 2 == 1
    case 6 => b / 64 % 2 == 1
    case 7 => b / 128 == 1
  }
}
