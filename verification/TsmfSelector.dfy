/** The selector as a state machine: one value per call of the filter. */
module TsmfSelector {
  import opened Bytes
  import opened TsmfPacket
  import opened TsmfTlv
  import Transducer

  const DETECT_PACKETS: nat := 53 * 8

  datatype Config = Config(streamIndex: int, discardNull: bool, stale: nat)

  /** What the selector is told: a packet, with the verdict of the header check,
      or that reception was stopped and restarted. */
  datatype Event = Arrive(packet: Packet, header: bool) | Resync

  ghost function EventOf(p: Packet): Event { Arrive(p, IsHeader(p)) }

  datatype Status = Searching | Found | NotFound

  type Slots = s: seq<byte> | |s| == SLOT_NUM witness seq(SLOT_NUM, _ => 0)

  datatype State = State(
    skip: nat, passthrough: bool, headerFound: bool, notFound: bool, detect: nat,
    outputTlv: bool, tlvRejected: bool, relative: int, stream: int,
    slot: int, slotStream: Slots, frame: seq<Packet>, tlv: seq<byte>)

  /** A fresh tuning; the slot table keeps whatever it held. */
  function Init(cfg: Config, slots: Slots): State {
    State(cfg.stale, false, false, false, 0, false, false, -1, -1, -1, slots, [], [])
  }

  function StatusOf(s: State): Status {
    if s.passthrough || s.stream >= 0 then Found
    else if s.notFound then NotFound
    else Searching
  }

  /** Content that divided TLV cannot have; errored packets are not evidence. */
  predicate Foreign(p: Packet) {
    !Errored(p) && Pid(p) != PID_TLV && Pid(p) != PID_NULL
  }

  predicate AnyForeign(ps: seq<Packet>) { exists i :: 0 <= i < |ps| && Foreign(ps[i]) }

  predicate Dropped(cfg: Config, p: Packet) { cfg.discardNull && IsNull(p) }

  /** A full frame leaves as packets or, if it carries divided TLV, reassembled. */
  ghost function FlushFrame(s: State): (r: (State, seq<byte>))
    requires s.slot >= SLOT_NUM
  {
    var s1 := if s.outputTlv && AnyForeign(s.frame)
              then s.(tlvRejected := true, outputTlv := false, tlv := []) else s;
    if !s1.outputTlv then (s1, Flatten(s1.frame))
    else
      var (held, out) := ExtractAll(s1.tlv, s1.frame);
      (s1.(tlv := held), out)
  }

  ghost function ParseHeader(cfg: Config, s: State, p: Packet): State {
    var relative := if s.relative < 0 then Chosen(p, cfg.streamIndex) else s.relative;
    var stream := if 0 <= relative < STREAM_NUM && Valid(p, relative) then relative else -1;
    var outputTlv := stream >= 0 && CarriesTlv(p, stream) && !s.tlvRejected;
    s.(relative := relative,
       tlv := if stream != s.stream || outputTlv != s.outputTlv then [] else s.tlv,
       slotStream := seq(SLOT_NUM, i requires 0 <= i < SLOT_NUM => SlotStream(p, i)),
       headerFound := true, notFound := stream < 0, stream := stream,
       outputTlv := outputTlv, slot := 0, frame := [])
  }

  function Passthrough(cfg: Config, s: State, p: Packet): (r: (State, seq<byte>)) {
    if Dropped(cfg, p) then (s, [])
    else if |s.frame| + 1 < SLOT_NUM then (s.(frame := s.frame + [p]), [])
    else (s.(frame := []), Flatten(s.frame + [p]))
  }

  function Detect(cfg: Config, s: State): State {
    if s.headerFound || s.detect >= DETECT_PACKETS then s
    else if s.detect + 1 < DETECT_PACKETS then s.(detect := s.detect + 1)
    else if cfg.streamIndex == 0 then s.(detect := s.detect + 1, passthrough := true)
    else s.(detect := s.detect + 1, notFound := true)
  }

  ghost function OnHeader(cfg: Config, s: State, e: Event): (r: (State, seq<byte>))
    requires e.Arrive? && e.header && s.skip == 0
  {
    var s1 := if s.passthrough then s.(passthrough := false, frame := []) else s;
    var (s2, out) := if s1.slot == SLOT_NUM then FlushFrame(s1) else (s1.(tlv := []), []);
    (ParseHeader(cfg, s2, e.packet), out)
  }

  ghost function OnSlot(cfg: Config, s: State, p: Packet): (r: (State, seq<byte>))
    requires !s.passthrough
  {
    if s.slot < 0 then (s, [])
    else if s.slot >= SLOT_NUM then
      var (t, out) := if Pid(p) == PID_HEADER then FlushFrame(s) else (s, []);
      (t.(slot := -1, tlv := []), out)
    else
      var t := s.(slot := s.slot + 1);
      if s.stream < 0 || s.slotStream[s.slot] as int != s.stream + 1 || Dropped(cfg, p) then (t, [])
      else (t.(frame := t.frame + [p]), [])
  }

  ghost function OnPacket(cfg: Config, s: State, e: Event): (r: (State, seq<byte>))
    requires e.Arrive? && !e.header && s.skip == 0
  {
    var t := Detect(cfg, s);
    if t.passthrough then Passthrough(cfg, t, e.packet) else OnSlot(cfg, t, e.packet)
  }

  ghost function Step(cfg: Config, s: State, e: Event): (r: (State, seq<byte>)) {
    if e.Resync? then (s.(slot := -1, frame := [], tlv := []), [])
    else if s.skip > 0 then (s.(skip := s.skip - 1), [])
    else if e.header then OnHeader(cfg, s, e)
    else OnPacket(cfg, s, e)
  }

  ghost function StepOf(cfg: Config): (f: (State, Event) -> (State, seq<byte>)) {
    (s, e) => Step(cfg, s, e)
  }

  /** State and total output after a sequence of events. */
  ghost function Run(cfg: Config, s: State, es: seq<Event>): (r: (State, seq<byte>)) {
    Transducer.Run(StepOf(cfg), s, es)
  }
}
