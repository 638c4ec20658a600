/** Reassembly of divided TLV: the running extractor against the blocks one can
    read off the packet sequence with hindsight. */
module TsmfTlv {
  import opened Bytes
  import opened TsmfPacket
  import Transducer

  const TLV_MAX: nat := 65536

  datatype Kind =
    | Other     // not part of the TLV stream: null packets, other PIDs, priority set
    | Broken    // errored packet, or a start packet whose pointer leaves the packet
    | Start     // carries a TLV boundary
    | Inner     // all payload

  /** Offset of the TLV boundary that a start packet points at. */
  function Pointer(p: Packet): nat { p[3] as int + 4 }

  function KindOf(p: Packet): Kind {
    if Errored(p) then Broken
    else if Priority(p) || Pid(p) != PID_TLV then Other
    else if !UnitStart(p) then Inner
    else if Pointer(p) >= 188 then Broken
    else Start
  }

  // ----- the running extractor ----------------------------------------------

  function Append(tlv: seq<byte>, data: seq<byte>): (r: seq<byte>)
  {
    if |tlv| + |data| > TLV_MAX then [] else tlv + data
  }

  /** One packet: the bytes held afterwards, and the bytes it completes. */
  function Extract(tlv: seq<byte>, p: Packet): (r: (seq<byte>, seq<byte>)) {
    match KindOf(p)
    case Other => (tlv, [])
    case Broken => ([], [])
    case Inner => (if tlv == [] then [] else Append(tlv, p[3..]), [])
    case Start =>
      (p[Pointer(p)..], if tlv == [] then [] else Append(tlv, p[4..Pointer(p)]))
  }

  ghost function Extractor(): (f: (seq<byte>, Packet) -> (seq<byte>, seq<byte>)) {
    (tlv, p) => Extract(tlv, p)
  }

  ghost function ExtractAll(tlv: seq<byte>, ps: seq<Packet>): (r: (seq<byte>, seq<byte>)) {
    Transducer.Run(Extractor(), tlv, ps)
  }

  /** Bytes out plus bytes held grow by at most 185 for each packet, so the output
      of one frame fits in one full unit plus 52 packets. */
  lemma {:induction false} Potential(tlv: seq<byte>, ps: seq<Packet>)
    ensures |ExtractAll(tlv, ps).0| + |ExtractAll(tlv, ps).1| <= |tlv| + 185 * |ps|
    ensures |tlv| <= TLV_MAX ==> |ExtractAll(tlv, ps).0| <= TLV_MAX
  {
    if |ps| > 0 {
      Potential(tlv, ps[..|ps| - 1]);
    }
  }

  // ----- hindsight ----------------------------------------------------------

  predicate Boundary(p: Packet) { KindOf(p) == Start || KindOf(p) == Broken }

  /** The last boundary or break before position `n`, or -1. */
  function LastBoundary(q: seq<Packet>, n: nat): (j: int)
    requires n <= |q|
    ensures -1 <= j < n
    ensures j >= 0 ==> Boundary(q[j])
    ensures forall k :: j < k < n ==> !Boundary(q[k])
  {
    if n == 0 then -1 else if Boundary(q[n - 1]) then n - 1 else LastBoundary(q, n - 1)
  }

  /** Payload of the inner packets at positions `a` to `b - 1`, in order. */
  function Inners(q: seq<Packet>, a: nat, b: nat): (s: seq<byte>)
    requires a <= b <= |q|
  {
    if a == b then []
    else Inners(q, a, b - 1) + if KindOf(q[b - 1]) == Inner then q[b - 1][3..] else []
  }

  /** Everything from the boundary in packet `j` up to packet `n`. */
  function Unit(q: seq<Packet>, j: nat, n: nat): (s: seq<byte>)
    requires j < n <= |q| && KindOf(q[j]) == Start
    ensures |s| > 0
  {
    q[j][Pointer(q[j])..] + Inners(q, j + 1, n)
  }

  /** The unfinished unit after `n` packets; an oversized one is given up. */
  function Held(q: seq<Packet>, n: nat): (s: seq<byte>)
    requires n <= |q|
  {
    var j := LastBoundary(q, n);
    if j >= 0 && KindOf(q[j]) == Start && |Unit(q, j, n)| <= TLV_MAX then Unit(q, j, n) else []
  }

  /** The block completed by packet `k`: from the previous boundary to its own. */
  function BlockAt(q: seq<Packet>, k: nat): (s: seq<byte>)
    requires k < |q|
  {
    var j := LastBoundary(q, k);
    if KindOf(q[k]) == Start && j >= 0 && KindOf(q[j]) == Start then
      var block := Unit(q, j, k) + q[k][4..Pointer(q[k])];
      if |block| <= TLV_MAX then block else []
    else []
  }

  function BlockList(q: seq<Packet>): (s: seq<seq<byte>>)
    ensures |s| == |q| && forall i :: 0 <= i < |s| ==> s[i] == BlockAt(q, i)
  {
    seq(|q|, i requires 0 <= i < |q| => BlockAt(q, i))
  }

  /** The blocks completed by packets `a` and later. */
  function Blocks(q: seq<Packet>, a: nat): (s: seq<byte>)
    requires a <= |q|
  {
    Transducer.Concat(BlockList(q)[a..])
  }

  function HeldList(q: seq<Packet>): (s: seq<seq<byte>>)
    ensures |s| == |q| + 1 && forall i :: 0 <= i < |s| ==> s[i] == Held(q, i)
  {
    seq(|q| + 1, i requires 0 <= i <= |q| => Held(q, i))
  }

  /** A packet that belongs to no unit. */
  lemma ExtractOther(q: seq<Packet>, n: nat)
    requires n < |q| && KindOf(q[n]) == Other
    ensures Extract(Held(q, n), q[n]) == (Held(q, n + 1), BlockAt(q, n))
  {
    var j := LastBoundary(q, n);
    assert LastBoundary(q, n + 1) == j;
    if j >= 0 && KindOf(q[j]) == Start { assert Unit(q, j, n + 1) == Unit(q, j, n); }
  }

  /** A packet that belongs to the unit at hand. */
  lemma ExtractInner(q: seq<Packet>, n: nat)
    requires n < |q| && KindOf(q[n]) == Inner
    ensures Extract(Held(q, n), q[n]) == (Held(q, n + 1), BlockAt(q, n))
  {
    var j := LastBoundary(q, n);
    assert LastBoundary(q, n + 1) == j;
    if j >= 0 && KindOf(q[j]) == Start { assert Unit(q, j, n + 1) == Unit(q, j, n) + q[n][3..]; }
  }

  lemma ExtractBoundary(q: seq<Packet>, n: nat)
    requires n < |q| && Boundary(q[n])
    ensures Extract(Held(q, n), q[n]) == (Held(q, n + 1), BlockAt(q, n))
  {
    assert LastBoundary(q, n + 1) == n;
    if KindOf(q[n]) == Start { assert Unit(q, n, n + 1) == q[n][Pointer(q[n])..]; }
  }

  lemma ExtractStep(q: seq<Packet>, n: nat)
    requires n < |q|
    ensures Extract(Held(q, n), q[n]) == (Held(q, n + 1), BlockAt(q, n))
  {
    match KindOf(q[n])
    case Other => ExtractOther(q, n);
    case Inner => ExtractInner(q, n);
    case _ => ExtractBoundary(q, n);
  }

  lemma {:induction false} InnersPrefix(q: seq<Packet>, r: seq<Packet>, a: nat, b: nat)
    requires a <= b <= |q|
    ensures Inners(q + r, a, b) == Inners(q, a, b)
  {
    if a < b { InnersPrefix(q, r, a, b - 1); }
  }

  lemma {:induction false} LastBoundaryPrefix(q: seq<Packet>, r: seq<Packet>, n: nat)
    requires n <= |q|
    ensures LastBoundary(q + r, n) == LastBoundary(q, n)
  {
    if n > 0 { LastBoundaryPrefix(q, r, n - 1); }
  }

  lemma UnitPrefix(q: seq<Packet>, r: seq<Packet>, j: nat, n: nat)
    requires j < n <= |q| && KindOf(q[j]) == Start
    ensures Unit(q + r, j, n) == Unit(q, j, n)
  {
    InnersPrefix(q, r, j + 1, n);
  }

  /** What is held does not depend on packets still to come. */
  lemma HeldPrefix(q: seq<Packet>, r: seq<Packet>)
    ensures Held(q + r, |q|) == Held(q, |q|)
  {
    LastBoundaryPrefix(q, r, |q|);
    var j := LastBoundary(q, |q|);
    if j >= 0 && KindOf(q[j]) == Start { UnitPrefix(q, r, j, |q|); }
  }

  lemma TrackingStep(q: seq<Packet>, n: nat)
    requires n < |q|
    ensures Extractor()(HeldList(q)[n], q[n]) == (HeldList(q)[n + 1], BlockList(q)[n])
  {
    ExtractStep(q, n);
    assert HeldList(q)[n] == Held(q, n);
  }

  /** The running extractor emits exactly the blocks that hindsight reads off. */
  lemma ExtractIsHindsight(q: seq<Packet>, a: nat)
    requires a <= |q|
    ensures ExtractAll(Held(q, a), q[a..]) == (Held(q, |q|), Blocks(q, a))
  {
    var states, outs := HeldList(q), BlockList(q);
    assert forall n :: 0 <= n < |q| ==> Extractor()(states[n], q[n]) == (states[n + 1], outs[n]) by {
      forall n | 0 <= n < |q| ensures Extractor()(states[n], q[n]) == (states[n + 1], outs[n]) {
        TrackingStep(q, n);
      }
    }
    Transducer.RunTracks(Extractor(), q[a..], states[a..], outs[a..]);
  }

  /** The same for a frame on top of the packets that precede it in a chain. */
  lemma ExtractFrame(chain: seq<Packet>, frame: seq<Packet>)
    ensures ExtractAll(Held(chain, |chain|), frame)
         == (Held(chain + frame, |chain + frame|), Blocks(chain + frame, |chain|))
  {
    var q := chain + frame;
    HeldPrefix(chain, frame);
    assert q[|chain|..] == frame;
    ExtractIsHindsight(q, |chain|);
  }
}
