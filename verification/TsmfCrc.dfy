/** CRC_32 of a TSMF header: the byte-wise loop of the filter against the
    bit-serial shift register of Annex A of ISO/IEC 13818-1.

    A 32-bit register is the sequence of its bits, most significant first: a left
    shift drops the first bit, and exclusive-or acts bit by bit. */
module TsmfCrc {
  import opened Bytes

  type Bits = seq<bool>
  type Reg = r: Bits | |r| == 32 witness seq(32, _ => false)

  function ByteBits(b: byte): (s: Bits)
    ensures |s| == 8
  {
    [Bit(b, 7), Bit(b, 6), Bit(b, 5), Bit(b, 4), Bit(b, 3), Bit(b, 2), Bit(b, 1), Bit(b, 0)]
  }

  /** Four bytes read as one big-endian word. */
  function Word(a: byte, b: byte, c: byte, d: byte): Reg {
    ByteBits(a) + ByteBits(b) + ByteBits(c) + ByteBits(d)
  }

  function Zeros(n: nat): (s: Bits)
    ensures |s| == n && forall i :: 0 <= i < n ==> !s[i]
  {
    seq(n, _ => false)
  }

  function Xor(a: Bits, b: Bits): (s: Bits)
    requires |a| == |b|
    ensures |s| == |a| && forall i :: 0 <= i < |s| ==> s[i] == (a[i] != b[i])
  {
    seq(|a|, i requires 0 <= i < |a| => a[i] != b[i])
  }

  function Poly(): (p: Reg)
    ensures p[31]
  {
    Word(0x04, 0xc1, 0x1d, 0xb7)
  }

  function Initial(): Reg { Word(0xff, 0xff, 0xff, 0xff) }

  /** The exponents of the polynomial below 32, and the preset of Annex A. */
  lemma PolyTaps(i: nat)
    requires i < 32
    ensures Poly()[31 - i] <==> i in {26, 23, 22, 16, 12, 11, 10, 8, 7, 5, 4, 2, 1, 0}
    ensures Initial()[i]
  {
    if i < 16 { LowTaps(i); } else { HighTaps(i); }
  }

  lemma LowTaps(i: nat)
    requires i < 16
    ensures Poly()[31 - i] <==> i in {12, 11, 10, 8, 7, 5, 4, 2, 1, 0}
  {
    assert Poly()[31 - i] == if i < 8 then Bit(0xb7, i) else Bit(0x1d, i - 8);
  }

  lemma HighTaps(i: nat)
    requires 16 <= i < 32
    ensures Poly()[31 - i] <==> i in {26, 23, 22, 16}
  {
    assert Poly()[31 - i] == if i < 24 then Bit(0xc1, i - 16) else Bit(0x04, i - 24);
  }

  // ----- reference: the Annex A decoder, one bit per clock ------------------

  /** One clock of the Annex A register: the incoming bit is added to the bit
      leaving the register, and their sum is fed back through the polynomial. */
  function Clock(reg: Reg, bit: bool): Reg {
    if reg[0] != bit then Xor(reg[1..] + [false], Poly()) else reg[1..] + [false]
  }

  function ClockBits(reg: Reg, bits: Bits): Reg {
    if |bits| == 0 then reg else Clock(ClockBits(reg, bits[..|bits| - 1]), bits[|bits| - 1])
  }

  /** The register after a whole message. */
  function Register(data: seq<byte>): Reg {
    if |data| == 0 then Initial()
    else ClockBits(Register(data[..|data| - 1]), ByteBits(data[|data| - 1]))
  }

  // ----- the code's step ----------------------------------------------------

  /** One turn of the inner loop. */
  function Shift(crc: Reg): Reg {
    if crc[0] then Xor(crc[1..] + [false], Poly()) else crc[1..] + [false]
  }

  function ShiftN(crc: Reg, n: nat): Reg {
    if n == 0 then crc else Shift(ShiftN(crc, n - 1))
  }

  /** `bits` placed at the top of an otherwise zero register. */
  function Top(bits: Bits): Reg
    requires |bits| <= 32
  {
    bits + Zeros(32 - |bits|)
  }

  lemma ShiftLinear(x: Reg, y: Reg)
    ensures Shift(Xor(x, y)) == Xor(Shift(x), Shift(y))
  {
    var l, r := Shift(Xor(x, y)), Xor(Shift(x), Shift(y));
    forall i | 0 <= i < 32 ensures l[i] == r[i] {}
  }

  lemma {:induction false} ShiftNLinear(x: Reg, y: Reg, n: nat)
    ensures ShiftN(Xor(x, y), n) == Xor(ShiftN(x, n), ShiftN(y, n))
  {
    if n > 0 {
      ShiftNLinear(x, y, n - 1);
      ShiftLinear(ShiftN(x, n - 1), ShiftN(y, n - 1));
    }
  }

  /** The shift-register step loses nothing: only the zero register reaches zero,
      because the constant term of the polynomial marks every feedback. */
  lemma {:induction false} OnlyZeroShiftsToZero(x: Reg, n: nat)
    ensures ShiftN(x, n) == Zeros(32) <==> x == Zeros(32)
  {
    if n > 0 {
      OnlyZeroShiftsToZero(x, n - 1);
      var y := ShiftN(x, n - 1);
      if y[0] {
        assert Shift(y)[31];
      } else {
        assert forall i :: 0 <= i < 31 ==> Shift(y)[i] == y[i + 1];
        if Shift(y) == Zeros(32) {
          forall i | 0 <= i < 32 ensures !y[i] {
            if i > 0 { assert Shift(y)[i - 1] == y[i]; }
          }
          assert y == Zeros(32);
        }
      }
    }
  }

  lemma TopRest(bits: Bits, i: nat)
    requires 0 < |bits| <= 32 && i < 31
    ensures Top(bits)[0] == bits[0] && Top(bits)[i + 1] == Top(bits[1..])[i]
  {}

  /** One bit at the top: shifting the sum is clocking the bit in. */
  lemma FeedOneBit(c: Reg, bits: Bits)
    requires 0 < |bits| <= 32
    ensures Shift(Xor(c, Top(bits))) == Xor(Clock(c, bits[0]), Top(bits[1..]))
  {
    var l, r := Shift(Xor(c, Top(bits))), Xor(Clock(c, bits[0]), Top(bits[1..]));
    forall i | 0 <= i < 32 ensures l[i] == r[i] {
      if i < 31 { TopRest(bits, i); } else { TopRest(bits, 0); }
    }
  }

  /** Adding bits at the top and shifting is the same as clocking them in. */
  lemma {:induction false} FeedIsClocking(reg: Reg, bits: Bits, n: nat)
    requires n <= |bits| <= 32
    ensures ShiftN(Xor(reg, Top(bits)), n) == Xor(ClockBits(reg, bits[..n]), Top(bits[n..]))
  {
    if n == 0 {
      assert bits[0..] == bits;
    } else {
      FeedIsClocking(reg, bits, n - 1);
      assert bits[..n][..n - 1] == bits[..n - 1];
      assert bits[n - 1..][1..] == bits[n..];
      FeedOneBit(ClockBits(reg, bits[..n - 1]), bits[n - 1..]);
    }
  }

  lemma {:induction false} ClockBitsAdd(reg: Reg, a: Bits, b: Bits)
    ensures ClockBits(ClockBits(reg, a), b) == ClockBits(reg, a + b)
  {
    if |b| == 0 {
      assert a + b == a;
    } else {
      ClockBitsAdd(reg, a, b[..|b| - 1]);
      assert (a + b)[..|a + b| - 1] == a + b[..|b| - 1];
    }
  }

  lemma RegisterSnoc(data: seq<byte>, b: byte)
    ensures Register(data + [b]) == ClockBits(Register(data), ByteBits(b))
  {
    assert (data + [b])[..|data|] == data;
  }

  /** Four check bytes after a message are one word clocked into its register. */
  lemma RegisterWord(data: seq<byte>, a: byte, b: byte, c: byte, d: byte)
    ensures Register(data + [a, b, c, d]) == ClockBits(Register(data), Word(a, b, c, d))
  {
    var reg := Register(data);
    RegisterSnoc(data, a);
    RegisterSnoc(data + [a], b);
    RegisterSnoc(data + [a] + [b], c);
    RegisterSnoc(data + [a] + [b] + [c], d);
    assert data + [a, b, c, d] == data + [a] + [b] + [c] + [d];
    ClockBitsAdd(reg, ByteBits(a), ByteBits(b));
    ClockBitsAdd(reg, ByteBits(a) + ByteBits(b), ByteBits(c));
    ClockBitsAdd(reg, ByteBits(a) + ByteBits(b) + ByteBits(c), ByteBits(d));
  }

  /** The residue of a message with its check word is zero exactly when the word
      is the register of the message before it. */
  lemma ResidueExact(data: seq<byte>, a: byte, b: byte, c: byte, d: byte)
    ensures Register(data + [a, b, c, d]) == Zeros(32) <==> Register(data) == Word(a, b, c, d)
  {
    var reg, w := Register(data), Word(a, b, c, d);
    RegisterWord(data, a, b, c, d);
    ClockWord(reg, w);
    OnlyZeroShiftsToZero(Xor(reg, w), 32);
    XorZero(reg, w);
  }

  lemma ClockWord(c: Reg, w: Reg)
    ensures ClockBits(c, w) == ShiftN(Xor(c, w), 32)
  {
    FeedIsClocking(c, w, 32);
    assert Top(w) == w && w[..32] == w && w[32..] == [];
    assert Xor(ClockBits(c, w), Top([])) == ClockBits(c, w);
  }

  lemma XorZero(a: Reg, b: Reg)
    ensures Xor(a, b) == Zeros(32) <==> a == b
  {
    if Xor(a, b) == Zeros(32) {
      forall i | 0 <= i < 32 ensures a[i] == b[i] { assert !Xor(a, b)[i]; }
    }
  }

  /** A byte placed at the top and shifted eight times has been clocked in. */
  lemma ByteClocked(start: Reg, b: byte)
    ensures ShiftN(Xor(start, ByteBits(b) + Zeros(24)), 8) == ClockBits(start, ByteBits(b))
  {
    var bits := ByteBits(b);
    FeedIsClocking(start, bits, 8);
    assert bits[..8] == bits && bits[8..] == [];
    assert Xor(ClockBits(start, bits), Top([])) == ClockBits(start, bits);
  }

  lemma RegisterNext(data: seq<byte>, i: nat)
    requires i < |data|
    ensures Register(data[..i + 1]) == ClockBits(Register(data[..i]), ByteBits(data[i]))
  {
    assert data[..i + 1][..i] == data[..i];
  }

  /** The double loop of the header check. */
  method Residue(data: seq<byte>) returns (crc: Reg)
    ensures crc == Register(data)
  {
    crc := Word(0xff, 0xff, 0xff, 0xff);
    for i := 0 to |data|
      invariant crc == Register(data[..i])
    {
      ghost var start := crc;
      crc := Xor(crc, ByteBits(data[i]) + Zeros(24));
      ghost var mixed := crc;
      for bit := 0 to 8
        invariant crc == ShiftN(mixed, bit)
      {
        crc := if crc[0] then Xor(crc[1..] + [false], Word(0x04, 0xc1, 0x1d, 0xb7)) else crc[1..] + [false];
      }
      ByteClocked(start, data[i]);
      RegisterNext(data, i);
    }
    assert data[..|data|] == data;
  }
}
