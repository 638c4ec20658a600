/** The filter object: fixed buffers updated in place, one packet per call. */
module TsmfFilter {
  import opened Bytes
  import opened TsmfPacket
  import opened TsmfTlv
  import opened TsmfSelector
  import Transducer

  const FRAME_SIZE: nat := SLOT_NUM * 188
  const TLV_OUT_SIZE: nat := TLV_MAX + FRAME_SIZE

  lemma SliceOfPrefix<T>(s: seq<T>, a: nat, b: nat, n: nat)
    requires a <= b <= n <= |s|
    ensures s[a..b] == s[..n][a..b]
  {}

  /** memcpy into a buffer. */
  method Copy(dst: array<byte>, at: nat, data: seq<byte>)
    requires at + |data| <= dst.Length
    modifies dst
    ensures dst[..at] == old(dst[..at]) && dst[at..at + |data|] == data
    ensures dst[..at + |data|] == old(dst[..at]) + data
  {
    for i := 0 to |data|
      invariant dst[..at] == old(dst[..at])
      invariant forall k :: 0 <= k < i ==> dst[at + k] == data[k]
    {
      dst[at + i] := data[i];
    }
    assert dst[at..at + |data|] == data;
    assert dst[..at + |data|] == dst[..at] + dst[at..at + |data|];
  }

  class Filter {
    var streamIndex: int
    var discardNull: bool
    var stalePackets: nat
    var skipPackets: nat
    var passthrough: bool
    var headerFound: bool
    var notFound: bool
    var detectPackets: nat
    var outputTlv: bool
    var tlvRejected: bool
    var relative: int
    var stream: int
    var slot: int
    const slotStream: array<byte>
    var frameSize: nat
    const frame: array<byte>
    var tlvSize: nat
    const tlvBuf: array<byte>
    const tlvOut: array<byte>

    /** The packets that `frame` holds. */
    ghost var held: seq<Packet>

    ghost predicate Buffers()
      reads this
    {
      && slotStream.Length == SLOT_NUM && frame.Length == FRAME_SIZE
      && tlvBuf.Length == TLV_MAX && tlvOut.Length == TLV_OUT_SIZE
      && slotStream != frame && slotStream != tlvBuf && slotStream != tlvOut
      && frame != tlvBuf && frame != tlvOut && tlvBuf != tlvOut
    }

    /** The frame buffer holds exactly the packets `held`. */
    ghost predicate Stored()
      reads this, frame
    {
      frame.Length == FRAME_SIZE && frameSize == 188 * |held| <= FRAME_SIZE && frame[..frameSize] == Flatten(held)
    }

    ghost predicate Valid()
      reads this, frame
    {
      && Buffers()
      && tlvSize <= TLV_MAX
      && -1 <= relative < STREAM_NUM && -1 <= stream < STREAM_NUM && -1 <= slot <= SLOT_NUM
      && Stored()
      // room for the next packet wherever one may be stored
      && (slot >= 0 ==> |held| <= slot)
      && (passthrough ==> |held| < SLOT_NUM && !headerFound)
      && (!headerFound ==> slot == -1 && |held| < SLOT_NUM && (!passthrough ==> held == []))
      && detectPackets <= DETECT_PACKETS
    }

    ghost function Cfg(): Config
      reads this
    {
      Config(streamIndex, discardNull, stalePackets)
    }

    ghost function Abs(): (s: State)
      reads this, slotStream, frame, tlvBuf
      requires Valid()
    {
      State(skipPackets, passthrough, headerFound, notFound, detectPackets, outputTlv, tlvRejected,
            relative, stream, slot, slotStream[..], held, tlvBuf[..tlvSize])
    }

    /** `Abs() == s`, field by field. */
    ghost predicate Represents(s: State)
      reads this, slotStream, tlvBuf
    {
      && tlvSize <= tlvBuf.Length
      && skipPackets == s.skip && passthrough == s.passthrough && headerFound == s.headerFound
      && notFound == s.notFound && detectPackets == s.detect && outputTlv == s.outputTlv
      && tlvRejected == s.tlvRejected && relative == s.relative && stream == s.stream && slot == s.slot
      && slotStream[..] == s.slotStream && held == s.frame && tlvBuf[..tlvSize] == s.tlv
    }

    constructor (index: int, discard: bool, stale: nat)
      ensures Valid() && Cfg() == Config(index, discard, stale)
      ensures Represents(TsmfSelector.Init(Cfg(), slotStream[..]))
      ensures fresh(slotStream) && fresh(frame) && fresh(tlvBuf) && fresh(tlvOut)
    {
      slotStream := new byte[SLOT_NUM];
      frame := new byte[FRAME_SIZE];
      tlvBuf := new byte[TLV_MAX];
      tlvOut := new byte[TLV_OUT_SIZE];
      new;
      frameSize, held, tlvSize := 0, [], 0;
      Init(index, discard, stale);
    }

    method Init(index: int, discard: bool, stale: nat)
      requires Buffers()
      modifies this
      ensures Valid()
      ensures streamIndex == index && discardNull == discard && stalePackets == stale
      ensures Represents(TsmfSelector.Init(Config(index, discard, stale), slotStream[..]))
    {
      streamIndex, discardNull, stalePackets, skipPackets := index, discard, stale, stale;
      ForgetCarrier();
      ForgetFrame();
    }

    method ForgetCarrier()
      modifies this`passthrough, this`headerFound, this`notFound, this`detectPackets,
               this`outputTlv, this`tlvRejected, this`relative, this`stream
      ensures !passthrough && !headerFound && !notFound && detectPackets == 0
      ensures !outputTlv && !tlvRejected && relative == -1 && stream == -1
    {
      passthrough, headerFound, notFound, detectPackets := false, false, false, 0;
      outputTlv, tlvRejected, relative, stream := false, false, -1, -1;
    }

    method ForgetFrame()
      modifies this`slot, this`frameSize, this`held, this`tlvSize
      ensures slot == -1 && frameSize == 0 && held == [] && tlvSize == 0
    {
      slot, frameSize, held, tlvSize := -1, 0, [], 0;
    }

    method Resync()
      requires Valid()
      modifies this
      ensures Valid() && Cfg() == old(Cfg())
      ensures Represents(TsmfSelector.Step(Cfg(), old(Abs()), Event.Resync).0)
    {
      ForgetFrame();
      assert frame[..0] == [] && tlvBuf[..0] == [];
    }

    method GetState() returns (r: Status)
      requires Valid()
      ensures r == StatusOf(Abs())
    {
      if passthrough || stream >= 0 {
        return Found;
      }
      if notFound {
        return NotFound;
      }
      return Searching;
    }

    method AppendTlv(data: seq<byte>) returns (ok: bool)
      requires Buffers() && tlvSize <= TLV_MAX
      modifies this`tlvSize, tlvBuf
      ensures tlvSize <= TLV_MAX
      ensures ok == (|data| <= TLV_MAX - old(tlvSize))
      ensures tlvBuf[..tlvSize] == Append(old(tlvBuf[..tlvSize]), data)
    {
      if |data| > tlvBuf.Length - tlvSize {
        tlvSize := 0;
        return false;
      }
      Copy(tlvBuf, tlvSize, data);
      tlvSize := tlvSize + |data|;
      return true;
    }

    /** A start packet: the unit held so far ends at the pointer, a new one begins. */
    method ExtractStart(packet: Packet, start: nat, outSize: nat) returns (size: nat)
      requires Buffers() && tlvSize <= TLV_MAX && 4 <= start < 188
      requires outSize + tlvSize + 185 <= TLV_OUT_SIZE
      modifies this`tlvSize, tlvBuf, tlvOut
      ensures tlvSize <= TLV_MAX && size <= TLV_OUT_SIZE
      ensures tlvBuf[..tlvSize] == packet[start..]
      ensures var was := old(tlvBuf[..tlvSize]);
              tlvOut[..size] == old(tlvOut[..outSize]) + if was == [] then [] else Append(was, packet[4..start])
    {
      size := outSize;
      var ok;
      if tlvSize > 0 {
        ok := AppendTlv(packet[4..start]);
        if ok {
          Copy(tlvOut, size, tlvBuf[..tlvSize]);
          size := size + tlvSize;
        }
      }
      tlvSize := 0;
      assert tlvBuf[..tlvSize] == [];
      ok := AppendTlv(packet[start..]);
    }

    method ExtractTlv(packet: Packet, outSize: nat) returns (size: nat)
      requires Buffers() && tlvSize <= TLV_MAX
      requires outSize + tlvSize + 185 <= TLV_OUT_SIZE
      modifies this`tlvSize, tlvBuf, tlvOut
      ensures tlvSize <= TLV_MAX && size <= TLV_OUT_SIZE
      ensures var (h, o) := Extract(old(tlvBuf[..tlvSize]), packet);
              tlvBuf[..tlvSize] == h && tlvOut[..size] == old(tlvOut[..outSize]) + o
    {
      size := outSize;
      if Errored(packet) || Priority(packet) || Pid(packet) != PID_TLV {
        if Errored(packet) {
          tlvSize := 0;
        }
        return;
      }
      if !UnitStart(packet) {
        assert KindOf(packet) == Inner;
        if tlvSize > 0 {
          var ok := AppendTlv(packet[3..]);
        }
        return;
      }
      var start := packet[3] as int + 4;
      if start >= 188 {
        tlvSize := 0;
        return;
      }
      assert KindOf(packet) == Start;
      size := ExtractStart(packet, start, outSize);
    }

    /** Packet `k` of the frame, read off the buffer. */
    method FramePacket(i: nat, ghost k: nat) returns (p: Packet)
      requires Valid() && k < |held| && i == 188 * k
      ensures p == held[k]
    {
      FlattenAt(held, k);
      SliceOfPrefix(frame[..], i, i + 188, frameSize);
      p := frame[i..i + 188];
    }

    /** Whether something in the frame cannot be divided TLV. */
    method FrameIsForeign() returns (b: bool)
      requires Valid()
      ensures b == AnyForeign(held)
    {
      var i := 0;
      ghost var k := 0;
      while i < frameSize
        invariant i == 188 * k && k <= |held|
        invariant forall j :: 0 <= j < k ==> !Foreign(held[j])
      {
        var p := FramePacket(i, k);
        if Foreign(p) {
          return true;
        }
        i, k := i + 188, k + 1;
      }
      return false;
    }

    /** Reassembly of the whole frame; every copy stays inside its buffer. */
    method ExtractFrame() returns (size: nat)
      requires Valid()
      modifies this`tlvSize, tlvBuf, tlvOut
      ensures Valid() && size <= TLV_OUT_SIZE
      ensures var (h, o) := ExtractAll(old(tlvBuf[..tlvSize]), held);
              tlvBuf[..tlvSize] == h && tlvOut[..size] == o
    {
      ghost var before := tlvBuf[..tlvSize];
      size := 0;
      var i := 0;
      ghost var k := 0;
      assert held[..0] == [];
      while i < frameSize
        invariant i == 188 * k && k <= |held| && size <= TLV_OUT_SIZE
        invariant Valid()
        invariant ExtractAll(before, held[..k]) == (tlvBuf[..tlvSize], tlvOut[..size])
      {
        Potential(before, held[..k]);
        var p := FramePacket(i, k);
        ExtractNext(before, held, k);
        size := ExtractTlv(p, size);
        i, k := i + 188, k + 1;
      }
      assert held[..|held|] == held;
    }

    method FlushFrame() returns (out: array<byte>, size: nat)
      requires Valid() && slot == SLOT_NUM
      modifies this`tlvRejected, this`outputTlv, this`tlvSize, tlvBuf, tlvOut
      ensures Valid() && (out == frame || out == tlvOut) && size <= out.Length
      ensures var (s, o) := TsmfSelector.FlushFrame(old(Abs())); Represents(s) && out[..size] == o
    {
      if outputTlv {
        var foreign := FrameIsForeign();
        if foreign {
          tlvRejected, outputTlv, tlvSize := true, false, 0;
          assert tlvBuf[..0] == [];
        }
      }
      if !outputTlv {
        return frame, frameSize;
      }
      size := ExtractFrame();
      out := tlvOut;
    }

    method FillSlots(packet: Packet)
      requires slotStream.Length == SLOT_NUM
      modifies slotStream
      ensures slotStream[..] == seq(SLOT_NUM, i requires 0 <= i < SLOT_NUM => SlotStream(packet, i))
    {
      for i := 0 to SLOT_NUM
        invariant forall k :: 0 <= k < i ==> slotStream[k] == SlotStream(packet, k)
      {
        slotStream[i] := if i % 2 == 1 then packet[73 + i / 2] % 16 else packet[73 + i / 2] / 16;
      }
    }

    /** The stream of this frame, or -1, and whether it is reassembled. */
    method ChooseStream(packet: Packet) returns (chosen: int, tlv: bool)
      requires -1 <= relative < STREAM_NUM
      modifies this`relative
      ensures relative == if old(relative) < 0 then Chosen(packet, streamIndex) else old(relative)
      ensures chosen == if relative >= 0 && TsmfPacket.Valid(packet, relative) then relative else -1
      ensures tlv == (chosen >= 0 && CarriesTlv(packet, chosen) && !tlvRejected)
    {
      if relative < 0 {
        relative := FindStream(packet, streamIndex);
      }
      chosen, tlv := -1, false;
      if relative >= 0 && TsmfPacket.Valid(packet, relative) {
        chosen := relative;
        tlv := CarriesTlv(packet, chosen) && !tlvRejected;
      }
    }

    method ParseHeader(packet: Packet)
      requires Valid() && !passthrough
      modifies this`relative, this`tlvSize, this`headerFound, this`notFound, this`stream, this`outputTlv,
               this`slot, this`frameSize, this`held, slotStream
      ensures Valid()
      ensures Represents(TsmfSelector.ParseHeader(Cfg(), old(Abs()), packet))
    {
      var chosen, tlv := ChooseStream(packet);
      FillSlots(packet);
      StartFrame(chosen, tlv);
      assert tlvBuf[..0] == [];
      assert Stored() by { assert frame[..0] == []; }
    }

    /** A held TLV unit does not outlive a change of stream or type. */
    method StartFrame(chosen: int, tlv: bool)
      modifies this`headerFound, this`notFound, this`stream, this`outputTlv, this`slot, this`frameSize, this`held,
               this`tlvSize
      ensures headerFound && notFound == (chosen < 0) && stream == chosen && outputTlv == tlv
      ensures slot == 0 && frameSize == 0 && held == []
      ensures tlvSize == if chosen != old(stream) || tlv != old(outputTlv) then 0 else old(tlvSize)
    {
      if chosen != stream || tlv != outputTlv { tlvSize := 0; }
      headerFound, notFound, stream, outputTlv := true, chosen < 0, chosen, tlv;
      slot, frameSize, held := 0, 0, [];
    }

    /** Stores a packet behind those already in the frame. */
    method StorePacket(packet: Packet)
      requires Stored() && |held| < SLOT_NUM
      modifies this`frameSize, this`held, frame
      ensures Stored() && held == old(held) + [packet]
    {
      FlattenSnoc(held, packet);
      Copy(frame, frameSize, packet);
      frameSize, held := frameSize + 188, held + [packet];
    }

    method PassthroughPacket(packet: Packet) returns (out: array?<byte>, size: nat)
      requires Valid() && passthrough
      modifies this`frameSize, this`held, frame
      ensures Valid() && (size > 0 ==> out == frame && size <= frame.Length)
      ensures var (s, o) := TsmfSelector.Passthrough(Cfg(), old(Abs()), packet);
              Represents(s) && size == |o| && (size > 0 ==> frame[..size] == o)
    {
      out, size := null, 0;
      if discardNull && IsNull(packet) {
        return;
      }
      StorePacket(packet);
      if frameSize < frame.Length {
        return;
      }
      out, size := frame, frame.Length;
      frameSize, held := 0, [];
      assert frame[..0] == [];
    }

    lemma AbsIs(s: State)
      requires Valid() && Represents(s)
      ensures Abs() == s
    {}

    method LeavePassthrough()
      requires Valid()
      modifies this`passthrough, this`frameSize, this`held
      ensures Valid() && !passthrough
      ensures var s := old(Abs());
              Represents(if s.passthrough then s.(passthrough := false, frame := []) else s)
    {
      if passthrough {
        passthrough, frameSize, held := false, 0, [];
        assert frame[..0] == [];
      }
    }

    /** The frame before a header: emitted if it is full, otherwise lost. */
    method CloseFrame() returns (out: array?<byte>, size: nat)
      requires Valid() && !passthrough
      modifies this`tlvRejected, this`outputTlv, this`tlvSize, tlvBuf, tlvOut
      ensures Valid()
      ensures size > 0 ==> out != null && (out == frame || out == tlvOut) && size <= out.Length
      ensures var s := old(Abs());
              var (t, o) := if s.slot == SLOT_NUM then TsmfSelector.FlushFrame(s) else (s.(tlv := []), []);
              Represents(t) && size == |o| && (size > 0 ==> out[..size] == o)
    {
      out, size := null, 0;
      if slot == SLOT_NUM {
        out, size := FlushFrame();
      } else {
        tlvSize := 0;
        assert tlvBuf[..0] == [];
      }
    }

    /** A packet with an intact header. */
    method HeaderPacket(packet: Packet) returns (out: array?<byte>, size: nat)
      requires Valid() && skipPackets == 0
      modifies this`passthrough, this`relative, this`headerFound, this`notFound, this`stream, this`outputTlv,
               this`tlvRejected, this`tlvSize, this`slot, this`frameSize, this`held, slotStream, tlvBuf, tlvOut
      ensures Valid()
      ensures size > 0 ==> out != null && (out == frame || out == tlvOut) && size <= out.Length
      ensures var (s, o) := OnHeader(Cfg(), old(Abs()), Arrive(packet, true));
              Abs() == s && size == |o| && (size > 0 ==> out[..size] == o)
    {
      ghost var s0 := Abs();
      LeavePassthrough();
      ghost var s1 := if s0.passthrough then s0.(passthrough := false, frame := []) else s0;
      AbsIs(s1);
      out, size := CloseFrame();
      ghost var (s2, o) := if s1.slot == SLOT_NUM then TsmfSelector.FlushFrame(s1) else (s1.(tlv := []), []);
      AbsIs(s2);
      ParseHeader(packet);
      AbsIs(TsmfSelector.ParseHeader(Cfg(), s2, packet));
    }

    /** Counts packets until a carrier without headers is recognised. */
    method Detect()
      requires Valid()
      modifies this`detectPackets, this`passthrough, this`notFound
      ensures Valid() && Represents(TsmfSelector.Detect(Cfg(), old(Abs())))
    {
      if !headerFound {
        if detectPackets < DETECT_PACKETS {
          detectPackets := detectPackets + 1;
          if detectPackets == DETECT_PACKETS {
            if streamIndex == 0 {
              passthrough := true;
            } else {
              notFound := true;
            }
          }
        }
      }
    }

    /** A packet in the place of the next header that is not an intact header. */
    method EndFrame(packet: Packet) returns (out: array?<byte>, size: nat)
      requires Valid() && !passthrough && slot == SLOT_NUM
      modifies this`slot, this`tlvRejected, this`outputTlv, this`tlvSize, tlvBuf, tlvOut
      ensures Valid()
      ensures size > 0 ==> out != null && (out == frame || out == tlvOut) && size <= out.Length
      ensures var (s, o) := OnSlot(Cfg(), old(Abs()), packet);
              Represents(s) && size == |o| && (size > 0 ==> out[..size] == o)
    {
      out, size := null, 0;
      if Pid(packet) == PID_HEADER {
        out, size := FlushFrame();
      }
      slot := -1;
      tlvSize := 0;
      assert tlvBuf[..0] == [];
    }

    /** A packet in one of the 52 slots: kept if its slot belongs to the stream. */
    method PickPacket(packet: Packet)
      requires Valid() && !passthrough && 0 <= slot < SLOT_NUM
      modifies this`slot, this`frameSize, this`held, frame
      ensures Valid() && OnSlot(Cfg(), old(Abs()), packet).1 == []
      ensures Represents(OnSlot(Cfg(), old(Abs()), packet).0)
    {
      var owner := slotStream[slot] as int;
      slot := slot + 1;
      if owner != stream + 1 || stream < 0 {
        return;
      }
      if discardNull && IsNull(packet) {
        return;
      }
      StorePacket(packet);
    }

    method SlotPacket(packet: Packet) returns (out: array?<byte>, size: nat)
      requires Valid() && !passthrough
      modifies this`slot, this`tlvRejected, this`outputTlv, this`tlvSize, this`frameSize, this`held,
               frame, tlvBuf, tlvOut
      ensures Valid()
      ensures size > 0 ==> out != null && (out == frame || out == tlvOut) && size <= out.Length
      ensures var (s, o) := OnSlot(Cfg(), old(Abs()), packet);
              Abs() == s && size == |o| && (size > 0 ==> out[..size] == o)
    {
      out, size := null, 0;
      if slot < 0 {
        return;
      }
      ghost var s := OnSlot(Cfg(), Abs(), packet).0;
      if slot >= SLOT_NUM {
        out, size := EndFrame(packet);
      } else {
        PickPacket(packet);
      }
      AbsIs(s);
    }

    /** A packet that is not an intact header. */
    method PlainPacket(packet: Packet) returns (out: array?<byte>, size: nat)
      requires Valid() && skipPackets == 0
      modifies this`detectPackets, this`passthrough, this`notFound, this`slot, this`tlvRejected, this`outputTlv,
               this`tlvSize, this`frameSize, this`held, frame, tlvBuf, tlvOut
      ensures Valid()
      ensures size > 0 ==> out != null && (out == frame || out == tlvOut) && size <= out.Length
      ensures var (s, o) := OnPacket(Cfg(), old(Abs()), Arrive(packet, false));
              Abs() == s && size == |o| && (size > 0 ==> out[..size] == o)
    {
      ghost var s0 := Abs();
      Detect();
      ghost var s1 := TsmfSelector.Detect(Cfg(), s0);
      AbsIs(s1);
      if passthrough {
        out, size := PassthroughPacket(packet);
        AbsIs(TsmfSelector.Passthrough(Cfg(), s1, packet).0);
      } else {
        out, size := SlotPacket(packet);
      }
    }

    method FreshPacket(packet: Packet, header: bool) returns (out: array?<byte>, size: nat)
      requires Valid() && skipPackets == 0
      modifies this, slotStream, frame, tlvBuf, tlvOut
      ensures Valid() && Cfg() == old(Cfg())
      ensures size > 0 ==> out != null && (out == frame || out == tlvOut) && size <= out.Length
      ensures var (s, o) := Step(Cfg(), old(Abs()), Arrive(packet, header));
              Abs() == s && size == |o| && (size > 0 ==> out[..size] == o)
    {
      if header {
        out, size := HeaderPacket(packet);
      } else {
        out, size := PlainPacket(packet);
      }
    }

    /** One packet: the new state and the output are those of the state machine,
        whose total output is the offline reading. */
    method FilterPacket(packet: Packet) returns (out: array?<byte>, size: nat)
      requires Valid()
      modifies this, slotStream, frame, tlvBuf, tlvOut
      ensures Valid() && Cfg() == old(Cfg())
      ensures size > 0 ==> out != null && (out == frame || out == tlvOut) && size <= out.Length
      ensures var (s, o) := Step(Cfg(), old(Abs()), EventOf(packet));
              Abs() == s && size == |o| && (size > 0 ==> out[..size] == o)
    {
      if skipPackets > 0 {
        skipPackets := skipPackets - 1;
        return null, 0;
      }
      var header := CheckHeader(packet);
      out, size := FreshPacket(packet, header);
    }
  }

  /** One more packet of a frame. */
  lemma ExtractNext(before: seq<byte>, held: seq<Packet>, k: nat)
    requires k < |held|
    ensures var (h, o) := ExtractAll(before, held[..k]);
            var (h2, o2) := Extract(h, held[k]);
            ExtractAll(before, held[..k + 1]) == (h2, o + o2)
  {
    assert held[..k + 1] == held[..k] + [held[k]];
    Transducer.RunSnoc(Extractor(), before, held[..k], held[k]);
  }

  lemma {:induction false} FlattenAt(ps: seq<Packet>, k: nat)
    requires k < |ps|
    ensures Flatten(ps)[188 * k..188 * k + 188] == ps[k]
  {
    if k < |ps| - 1 {
      FlattenAt(ps[..|ps| - 1], k);
      assert Flatten(ps)[188 * k..188 * k + 188] == Flatten(ps[..|ps| - 1])[188 * k..188 * k + 188];
    }
  }
}
