/** Transport packets and the fields of a TSMF header. */
module TsmfPacket {
  import opened Bytes
  import TsmfCrc

  const SLOT_NUM: nat := 52
  const STREAM_NUM: nat := 15
  const PID_NULL: nat := 0x1fff
  const PID_TLV: nat := 0x2d
  const PID_HEADER: nat := 0x2f

  type Packet = p: seq<byte> | |p| == 188 witness seq(188, _ => 0)

  function Pid(p: Packet): nat { (p[1] as int) % 32 * 256 + p[2] as int }
  predicate IsNull(p: Packet) { Pid(p) == PID_NULL }
  predicate Errored(p: Packet) { Bit(p[1], 7) }
  predicate UnitStart(p: Packet) { Bit(p[1], 6) }
  predicate Priority(p: Packet) { Bit(p[1], 5) }

  // ----- header recognition -------------------------------------------------

  predicate FixedFields(p: Packet) {
    var sync := (p[4] as int) % 32 * 256 + p[5] as int;
    && p[1] == 0x00 && p[2] == 0x2f && p[3] / 16 == 1
    && (sync == 0x1a86 || sync == 0x0579)
    && !Bit(p[6], 4)
    && (p[6] % 16 == 1 || p[6] % 16 == 2)
  }

  /** A header is intact when its last four bytes are the CRC of bytes 4 to 183. */
  ghost predicate IsHeader(p: Packet) {
    && FixedFields(p)
    && TsmfCrc.Register(p[4..184]) == TsmfCrc.Word(p[184], p[185], p[186], p[187])
  }

  /** The residue-zero test decides exactly that. */
  method CheckHeader(p: Packet) returns (b: bool)
    ensures b == IsHeader(p)
  {
    if !FixedFields(p) {
      return false;
    }
    var crc := TsmfCrc.Residue(p[4..188]);
    assert p[4..188] == p[4..184] + [p[184], p[185], p[186], p[187]];
    TsmfCrc.ResidueExact(p[4..184], p[184], p[185], p[186], p[187]);
    return crc == TsmfCrc.Zeros(32);
  }

  // ----- header contents ----------------------------------------------------

  /** Bit `stream` of a flag table that starts at byte `table`. */
  predicate StreamFlag(p: Packet, table: nat, stream: nat)
    requires table + stream / 8 < 188
  {
    Bit(p[table + stream / 8], 7 - stream % 8)
  }

  predicate Valid(p: Packet, stream: nat)
    requires stream < STREAM_NUM
  {
    StreamFlag(p, 7, stream)
  }

  /** The stream_type bit is 0 for a stream of divided TLV. */
  predicate CarriesTlv(p: Packet, stream: nat)
    requires stream < STREAM_NUM
  {
    !StreamFlag(p, 125, stream)
  }

  /** Relative stream number that a header assigns to slot `i`, plus one. */
  function SlotStream(p: Packet, i: nat): byte
    requires i < SLOT_NUM
  {
    if i % 2 == 1 then p[73 + i / 2] % 16 else p[73 + i / 2] / 16
  }

  /** Number of valid streams below `r`. */
  function ValidBefore(p: Packet, r: nat): nat
    requires r <= STREAM_NUM
  {
    if r == 0 then 0 else ValidBefore(p, r - 1) + if Valid(p, r - 1) then 1 else 0
  }

  /** `r` is the valid stream with exactly `index` valid streams before it. */
  predicate Resolves(p: Packet, index: int, r: nat) {
    r < STREAM_NUM && Valid(p, r) && ValidBefore(p, r) == index
  }

  lemma {:induction false} ValidBeforeGrows(p: Packet, r: nat, q: nat)
    requires r < q <= STREAM_NUM && Valid(p, r)
    ensures ValidBefore(p, r) < ValidBefore(p, q)
  {
    if r + 1 < q {
      ValidBeforeGrows(p, r, q - 1);
    }
  }

  /** At most one relative number answers a requested index. */
  lemma ResolvesUnique(p: Packet, index: int, r: nat, q: nat)
    requires Resolves(p, index, r) && Resolves(p, index, q)
    ensures r == q
  {
    if r < q { ValidBeforeGrows(p, r, q); }
    if q < r { ValidBeforeGrows(p, q, r); }
  }

  /** The relative number that answers `index`, or -1. */
  ghost function Chosen(p: Packet, index: int): (r: int)
    ensures -1 <= r < STREAM_NUM
    ensures r >= 0 ==> Resolves(p, index, r)
    ensures r < 0 ==> forall q: nat :: !Resolves(p, index, q)
  {
    if exists q: nat :: Resolves(p, index, q) then
      var q: nat :| Resolves(p, index, q); q
    else -1
  }

  /** The counting loop of the header parser. */
  method FindStream(p: Packet, index: int) returns (r: int)
    ensures r == Chosen(p, index)
  {
    var n := 0;
    for i := 0 to STREAM_NUM
      invariant n == ValidBefore(p, i)
      invariant forall q: nat :: q < i ==> !Resolves(p, index, q)
    {
      if Valid(p, i) {
        if n == index {
          assert Resolves(p, index, i);
          ResolvesUnique(p, index, i, Chosen(p, index));
          return i;
        }
        n := n + 1;
      }
    }
    return -1;
  }

  // ----- byte streams -------------------------------------------------------

  function Flatten(ps: seq<Packet>): (s: seq<byte>)
    ensures |s| == 188 * |ps|
  {
    if |ps| == 0 then [] else Flatten(ps[..|ps| - 1]) + ps[|ps| - 1]
  }

  lemma FlattenSnoc(ps: seq<Packet>, p: Packet)
    ensures Flatten(ps + [p]) == Flatten(ps) + p
  {
    assert (ps + [p])[..|ps|] == ps;
  }
}
