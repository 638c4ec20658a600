/** An offline reading of a recorded carrier, and the proof that the selector
    produces exactly that. */
module TsmfOffline {
  import opened Bytes
  import opened TsmfPacket
  import opened TsmfTlv
  import opened TsmfSelector

  // ----- the offline reading ------------------------------------------------

  function Packets(es: seq<Event>): nat {
    if |es| == 0 then 0 else (if es[0].Arrive? then 1 else 0) + Packets(es[1..])
  }

  /** What remains once `k` packets have gone by. */
  function Drop(es: seq<Event>, k: nat): seq<Event> {
    if k == 0 || |es| == 0 then es else Drop(es[1..], if es[0].Arrive? then k - 1 else k)
  }

  ghost predicate HeaderAt(es: seq<Event>, i: int) {
    0 <= i < |es| && es[i].Arrive? && es[i].header
  }

  /** A packet fit for a header's place: an intact header, or at least its PID. */
  predicate Closes(e: Event) {
    e.Arrive? && (e.header || Pid(e.packet) == PID_HEADER)
  }

  /** A header followed by exactly 52 other packets and then one in the
      place of the next header. */
  ghost predicate Complete(es: seq<Event>, i: int) {
    && HeaderAt(es, i)
    && i + SLOT_NUM + 1 < |es|
    && (forall k :: i < k <= i + SLOT_NUM ==> es[k].Arrive? && !HeaderAt(es, k))
    && Closes(es[i + SLOT_NUM + 1])
  }

  /** The relative number pinned by the first of the first `n` events that is a
      header answering the requested index. */
  ghost function Pinned(cfg: Config, es: seq<Event>, n: nat): (r: int)
    requires n <= |es|
    ensures -1 <= r < STREAM_NUM
  {
    if n == 0 then -1
    else if Pinned(cfg, es, n - 1) >= 0 then Pinned(cfg, es, n - 1)
    else if HeaderAt(es, n - 1) then Chosen(es[n - 1].packet, cfg.streamIndex)
    else -1
  }

  /** The stream taken from the frame of header `i`, or -1 if it is not valid there. */
  ghost function StreamAt(cfg: Config, es: seq<Event>, i: nat): (r: int)
    requires HeaderAt(es, i)
    ensures -1 <= r < STREAM_NUM
  {
    var r := Pinned(cfg, es, i + 1);
    if r >= 0 && Valid(es[i].packet, r) then r else -1
  }

  ghost predicate TypedTlv(cfg: Config, es: seq<Event>, i: nat)
    requires HeaderAt(es, i)
  {
    var r := StreamAt(cfg, es, i);
    r >= 0 && CarriesTlv(es[i].packet, r)
  }

  ghost predicate Picked(cfg: Config, es: seq<Event>, i: nat, k: nat)
    requires HeaderAt(es, i) && k < SLOT_NUM
  {
    && i + 1 + k < |es| && es[i + 1 + k].Arrive?
    && StreamAt(cfg, es, i) >= 0
    && SlotStream(es[i].packet, k) as int == StreamAt(cfg, es, i) + 1
    && !Dropped(cfg, es[i + 1 + k].packet)
  }

  /** The packets of the pinned stream in the first `m` slots after header `i`. */
  ghost function Payload(cfg: Config, es: seq<Event>, i: nat, m: nat): (ps: seq<Packet>)
    requires HeaderAt(es, i) && m <= SLOT_NUM
    ensures |ps| <= m
  {
    if m == 0 then []
    else Payload(cfg, es, i, m - 1) + if Picked(cfg, es, i, m - 1) then [es[i + m].packet] else []
  }

  ghost function FramePackets(cfg: Config, es: seq<Event>, i: nat): seq<Packet>
    requires HeaderAt(es, i)
  {
    Payload(cfg, es, i, SLOT_NUM)
  }

  /** A complete frame typed as TLV that carries something else. */
  ghost predicate Unmasks(cfg: Config, es: seq<Event>, i: int) {
    Complete(es, i) && TypedTlv(cfg, es, i) && AnyForeign(FramePackets(cfg, es, i))
  }

  /** Some frame finished within the first `n` events was unmasked as MPEG-2. */
  ghost predicate Rejected(cfg: Config, es: seq<Event>, n: int) {
    exists j :: j + SLOT_NUM + 1 < n && Unmasks(cfg, es, j)
  }

  /** Frame `i` is reassembled as TLV. */
  ghost predicate TlvFrame(cfg: Config, es: seq<Event>, i: int) {
    && Complete(es, i) && TypedTlv(cfg, es, i)
    && !Rejected(cfg, es, i + SLOT_NUM + 1)
    && !AnyForeign(FramePackets(cfg, es, i))
  }

  /** Frame `i` carries on the TLV of the frame right before it. */
  ghost predicate Linked(cfg: Config, es: seq<Event>, i: int) {
    && HeaderAt(es, i)
    && i >= SLOT_NUM + 1
    && TlvFrame(cfg, es, i - SLOT_NUM - 1)
    && StreamAt(cfg, es, i - SLOT_NUM - 1) == StreamAt(cfg, es, i)
    && TypedTlv(cfg, es, i)
  }

  /** The packets of all frames linked in front of frame `i`. */
  ghost function Chain(cfg: Config, es: seq<Event>, i: nat): seq<Packet>
    requires HeaderAt(es, i)
  {
    if Linked(cfg, es, i) then
      var j := i - SLOT_NUM - 1;
      Chain(cfg, es, j) + FramePackets(cfg, es, j)
    else []
  }

  /** What a complete frame contributes. */
  ghost function FrameOut(cfg: Config, es: seq<Event>, i: nat): seq<byte>
    requires Complete(es, i)
  {
    var frame := FramePackets(cfg, es, i);
    if TlvFrame(cfg, es, i) then
      var chain := Chain(cfg, es, i);
      Blocks(chain + frame, |chain|)
    else Flatten(frame)
  }

  /** The complete frames that start before position `n`. */
  ghost function Frames(cfg: Config, es: seq<Event>, n: nat): seq<byte>
  {
    if n == 0 then []
    else Frames(cfg, es, n - 1) + if Complete(es, n - 1) then FrameOut(cfg, es, n - 1) else []
  }

  // Pass-through of a carrier without headers.

  function Kept(cfg: Config, es: seq<Event>): seq<Packet> {
    if |es| == 0 then []
    else
      var e := es[|es| - 1];
      Kept(cfg, es[..|es| - 1]) +
      if e.Arrive? && !Dropped(cfg, e.packet) then [e.packet] else []
  }

  function FirstResync(es: seq<Event>): (k: nat)
    ensures k <= |es| && (k < |es| ==> es[k].Resync?)
    ensures forall i :: 0 <= i < k ==> es[i].Arrive?
  {
    if |es| == 0 || es[0].Resync? then 0 else 1 + FirstResync(es[1..])
  }

  /** Whole blocks of 52 packets. */
  function Whole(ps: seq<Packet>): seq<Packet> { ps[..|ps| - |ps| % SLOT_NUM] }
  function Partial(ps: seq<Packet>): seq<Packet> { ps[|ps| - |ps| % SLOT_NUM..] }

  /** Each stretch between resynchronisations yields its whole blocks. */
  function PassOut(cfg: Config, es: seq<Event>): seq<byte>
    decreases |es|
  {
    var k := FirstResync(es);
    var head := Flatten(Whole(Kept(cfg, es[..k])));
    if k < |es| then head + PassOut(cfg, es[k + 1..]) else head
  }

  /** The packets of the last stretch that do not fill a block. */
  function PassHeld(cfg: Config, es: seq<Event>): seq<Packet>
    decreases |es|
  {
    var k := FirstResync(es);
    if k < |es| then PassHeld(cfg, es[k + 1..]) else Partial(Kept(cfg, es))
  }

  /** Nothing is passed until 424 packets went by without a header; the 424th is
      the first to pass, and only stream 0 may be passed. */
  function Passed(cfg: Config, es: seq<Event>): seq<byte> {
    if cfg.streamIndex == 0 then PassOut(cfg, Drop(es, DETECT_PACKETS - 1)) else []
  }

  ghost function FirstHeader(es: seq<Event>): (h: nat)
    ensures h <= |es| && (h < |es| ==> HeaderAt(es, h))
    ensures forall i :: 0 <= i < h ==> !HeaderAt(es, i)
  {
    FirstHeaderFrom(es, 0)
  }

  ghost function FirstHeaderFrom(es: seq<Event>, i: nat): (h: nat)
    requires i <= |es|
    requires forall k :: 0 <= k < i ==> !HeaderAt(es, k)
    ensures i <= h <= |es| && (h < |es| ==> HeaderAt(es, h))
    ensures forall k :: 0 <= k < h ==> !HeaderAt(es, k)
    decreases |es| - i
  {
    if i == |es| || HeaderAt(es, i) then i else FirstHeaderFrom(es, i + 1)
  }

  /** The whole reading: pass-through before the first header, then the frames. */
  ghost function Offline(cfg: Config, es: seq<Event>): seq<byte> {
    Passed(cfg, es[..FirstHeader(es)]) + Frames(cfg, es, |es|)
  }
}
