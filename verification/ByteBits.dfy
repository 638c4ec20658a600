/** A byte and its bits, in arithmetic. */
module ByteBits {
  import opened Bytes

  function Weight(b: bool, w: nat): nat { if b then w else 0 }

  /** Eight flags read as a number, the first in the highest bit. */
  function Octet(a: bool, b: bool, c: bool, d: bool, e: bool, f: bool, g: bool, h: bool): nat {
    Weight(a, 128) + Weight(b, 64) + Weight(c, 32) + Weight(d, 16) +
    Weight(e, 8) + Weight(f, 4) + Weight(g, 2) + Weight(h, 1)
  }

  /** Two bits above a rest. */
  lemma TwoBits(n: nat)
    requires n < 4
    ensures n == Weight(n / 2 == 1, 2) + Weight(n % 2 == 1, 1)
  {}

  lemma Nibble(n: nat)
    requires n < 16
    ensures n == Weight(n / 8 == 1, 8) + Weight(n / 4 % 2 == 1, 4) + Weight(n / 2 % 2 == 1, 2) + Weight(n % 2 == 1, 1)
  {
    TwoBits(n / 4);
    TwoBits(n % 4);
    assert n / 4 / 2 == n / 8 && n % 4 / 2 == n / 2 % 2 && n % 4 % 2 == n % 2;
  }

  lemma UpperBits(b: byte)
    ensures b as int / 16 == Weight(Bit(b, 7), 8) + Weight(Bit(b, 6), 4) + Weight(Bit(b, 5), 2) + Weight(Bit(b, 4), 1)
  {
    var n := b as int;
    Nibble(n / 16);
    assert n / 16 / 8 == n / 128 && n / 16 / 4 == n / 64 && n / 16 / 2 == n / 32;
  }

  lemma LowerBits(b: byte)
    ensures b as int % 16 == Weight(Bit(b, 3), 8) + Weight(Bit(b, 2), 4) + Weight(Bit(b, 1), 2) + Weight(Bit(b, 0), 1)
  {
    var n := b as int;
    Nibble(n % 16);
    LowerShifts(n);
  }

  lemma LowerShifts(n: nat)
    ensures n % 16 / 8 == n / 8 % 2 && n % 16 / 4 % 2 == n / 4 % 2
    ensures n % 16 / 2 % 2 == n / 2 % 2 && n % 16 % 2 == n % 2
  {
    var h, l := n / 16, n % 16;
    Shift8(h, l);
    Shift4(h, l);
    Shift2(h, l);
    Shift1(h, l);
  }

  lemma Even(h: nat, l: nat)
    ensures (2 * h + l) % 2 == l % 2
  {}

  lemma Shift8(h: nat, l: nat)
    requires l < 16
    ensures (16 * h + l) / 8 % 2 == l / 8
  {
    assert (16 * h + l) / 8 == 2 * h + l / 8;
  }

  lemma Shift4(h: nat, l: nat)
    ensures (16 * h + l) / 4 % 2 == l / 4 % 2
  {
    assert (16 * h + l) / 4 == 4 * h + l / 4;
    Even(2 * h, l / 4);
  }

  lemma Shift2(h: nat, l: nat)
    ensures (16 * h + l) / 2 % 2 == l / 2 % 2
  {
    assert (16 * h + l) / 2 == 8 * h + l / 2;
    Even(4 * h, l / 2);
  }

  lemma Shift1(h: nat, l: nat)
    ensures (16 * h + l) % 2 == l % 2
  {
    Even(8 * h, l);
  }

  lemma Joined(b: byte)
    ensures b as int == 16 * (b as int / 16) + b as int % 16
  {}

  /** A byte is the sum of its bits. */
  lemma ByteOfBits(b: byte)
    ensures b as int == Octet(Bit(b, 7), Bit(b, 6), Bit(b, 5), Bit(b, 4), Bit(b, 3), Bit(b, 2), Bit(b, 1), Bit(b, 0))
  {
    UpperBits(b);
    LowerBits(b);
    Joined(b);
    Nibbles(b as int / 16, b as int % 16, Bit(b, 7), Bit(b, 6), Bit(b, 5), Bit(b, 4), Bit(b, 3), Bit(b, 2), Bit(b, 1),
            Bit(b, 0));
  }

  lemma Nibbles(u: nat, l: nat, a: bool, b: bool, c: bool, d: bool, e: bool, f: bool, g: bool, h: bool)
    requires u == Weight(a, 8) + Weight(b, 4) + Weight(c, 2) + Weight(d, 1)
    requires l == Weight(e, 8) + Weight(f, 4) + Weight(g, 2) + Weight(h, 1)
    ensures 16 * u + l == Octet(a, b, c, d, e, f, g, h)
  {}
}
