/** What the fields of a packet are, said of its bytes. */
module TsmfFields {
  import opened Bytes
  import opened ByteBits
  import opened TsmfPacket
  import opened TsmfTlv

  lemma BitsJoin(m: byte, a: bool, b: bool, c: bool, d: bool, e: bool, f: bool, g: bool, h: bool)
    requires a == Bit(m, 7) && b == Bit(m, 6) && c == Bit(m, 5) && d == Bit(m, 4)
    requires e == Bit(m, 3) && f == Bit(m, 2) && g == Bit(m, 1) && h == Bit(m, 0)
    ensures m as int == Octet(a, b, c, d, e, f, g, h)
  {
    ByteOfBits(m);
  }

  /** The valid streams are the set bits of bytes 7 and 8, but for the last bit. */
  lemma ValidBytes(p: Packet)
    ensures p[7] as int == Octet(Valid(p, 0), Valid(p, 1), Valid(p, 2), Valid(p, 3),
                                 Valid(p, 4), Valid(p, 5), Valid(p, 6), Valid(p, 7))
    ensures p[8] as int == Octet(Valid(p, 8), Valid(p, 9), Valid(p, 10), Valid(p, 11),
                                 Valid(p, 12), Valid(p, 13), Valid(p, 14), p[8] % 2 == 1)
  {
    LowerStreams(p);
    UpperStreams(p);
  }

  lemma LowerStreams(p: Packet)
    ensures p[7] as int == Octet(Valid(p, 0), Valid(p, 1), Valid(p, 2), Valid(p, 3),
                                 Valid(p, 4), Valid(p, 5), Valid(p, 6), Valid(p, 7))
  {
    BitsJoin(p[7], Valid(p, 0), Valid(p, 1), Valid(p, 2), Valid(p, 3),
             Valid(p, 4), Valid(p, 5), Valid(p, 6), Valid(p, 7));
  }

  lemma UpperStreams(p: Packet)
    ensures p[8] as int == Octet(Valid(p, 8), Valid(p, 9), Valid(p, 10), Valid(p, 11),
                                 Valid(p, 12), Valid(p, 13), Valid(p, 14), p[8] % 2 == 1)
  {
    BitsJoin(p[8], Valid(p, 8), Valid(p, 9), Valid(p, 10), Valid(p, 11),
             Valid(p, 12), Valid(p, 13), Valid(p, 14), p[8] % 2 == 1);
  }

  /** The streams of divided TLV are the clear bits of bytes 125 and 126. */
  lemma TlvBytes(p: Packet)
    ensures p[125] as int == Octet(!CarriesTlv(p, 0), !CarriesTlv(p, 1), !CarriesTlv(p, 2), !CarriesTlv(p, 3),
                                   !CarriesTlv(p, 4), !CarriesTlv(p, 5), !CarriesTlv(p, 6), !CarriesTlv(p, 7))
    ensures p[126] as int == Octet(!CarriesTlv(p, 8), !CarriesTlv(p, 9), !CarriesTlv(p, 10), !CarriesTlv(p, 11),
                                   !CarriesTlv(p, 12), !CarriesTlv(p, 13), !CarriesTlv(p, 14), p[126] % 2 == 1)
  {
    BitsJoin(p[125], !CarriesTlv(p, 0), !CarriesTlv(p, 1), !CarriesTlv(p, 2), !CarriesTlv(p, 3),
             !CarriesTlv(p, 4), !CarriesTlv(p, 5), !CarriesTlv(p, 6), !CarriesTlv(p, 7));
    BitsJoin(p[126], !CarriesTlv(p, 8), !CarriesTlv(p, 9), !CarriesTlv(p, 10), !CarriesTlv(p, 11),
             !CarriesTlv(p, 12), !CarriesTlv(p, 13), !CarriesTlv(p, 14), p[126] % 2 == 1);
  }

  /** Each byte of the slot table holds two slots, the earlier one in its upper half. */
  lemma SlotNibbles(p: Packet, j: nat)
    requires j < 26
    ensures p[73 + j] as int == 16 * SlotStream(p, 2 * j) as int + SlotStream(p, 2 * j + 1) as int
    ensures SlotStream(p, 2 * j) < 16 && SlotStream(p, 2 * j + 1) < 16
  {}

  /** The second and third bytes: three flags and the PID. */
  lemma HeaderBytes(p: Packet)
    ensures p[1] as int ==
            Weight(Errored(p), 128) + Weight(UnitStart(p), 64) + Weight(Priority(p), 32) + Pid(p) / 256
    ensures p[2] as int == Pid(p) % 256 && Pid(p) < 0x2000
  {
    FlagsAbove(p[1]);
  }

  lemma FlagsAbove(b: byte)
    ensures b as int == Weight(Bit(b, 7), 128) + Weight(Bit(b, 6), 64) + Weight(Bit(b, 5), 32) + b as int % 32
  {}

  /** The PIDs that matter. */
  lemma PidNames(p: Packet)
    ensures IsNull(p) <==> p[1] % 32 == 0x1f && p[2] == 0xff
    ensures Pid(p) == PID_TLV <==> p[1] % 32 == 0x00 && p[2] == 0x2d
    ensures Pid(p) == PID_HEADER <==> p[1] % 32 == 0x00 && p[2] == 0x2f
  {}

  /** What a header's first bytes can be. */
  lemma FixedBytes(p: Packet)
    ensures FixedFields(p) <==>
            && p[1..3] == [0x00, 0x2f] && 0x10 <= p[3] < 0x20
            && ((p[4] % 32 == 0x1a && p[5] == 0x86) || (p[4] % 32 == 0x05 && p[5] == 0x79))
            && p[6] % 32 in {1, 2}
  {
    assert p[1..3] == [p[1], p[2]];
    SyncBytes(p[4], p[5]);
    TypeByte(p[6]);
  }

  lemma SyncBytes(a: byte, b: byte)
    ensures var sync := (a as int) % 32 * 256 + b as int;
            sync == 0x1a86 || sync == 0x0579 <==> (a % 32 == 0x1a && b == 0x86) || (a % 32 == 0x05 && b == 0x79)
  {}

  lemma TypeByte(b: byte)
    ensures !Bit(b, 4) && (b % 16 == 1 || b % 16 == 2) <==> b % 32 == 1 || b % 32 == 2
  {}

  /** A start packet: the pointer counts the bytes that belong to the unit before. */
  lemma PointerSplits(p: Packet)
    requires KindOf(p) == Start
    ensures |p[4..Pointer(p)]| == p[3] as int
    ensures p[4..] == p[4..Pointer(p)] + p[Pointer(p)..]
  {}

  /** Which packets carry TLV payload, and which end what is at hand. */
  lemma Kinds(p: Packet)
    ensures KindOf(p) == Broken <==>
            Errored(p) || (!Priority(p) && Pid(p) == PID_TLV && UnitStart(p) && p[3] >= 184)
    ensures KindOf(p) == Start || KindOf(p) == Inner <==>
            !Errored(p) && !Priority(p) && Pid(p) == PID_TLV && (UnitStart(p) ==> p[3] < 184)
  {}
}
