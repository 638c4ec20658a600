/** The selector refines the offline reading: after every event its state is a
    function of the events so far, and its total output is the reading's. */
module TsmfRefinement {
  import opened Collections
  import opened Bytes
  import opened TsmfPacket
  import opened TsmfTlv
  import opened TsmfSelector
  import opened TsmfOffline

  // ----- where the selector stands after n events ---------------------------

  ghost function LastHeader(es: seq<Event>, n: nat): (h: int)
    requires n <= |es|
    ensures -1 <= h < n
    ensures h >= 0 ==> HeaderAt(es, h)
    ensures forall k :: h < k < n ==> !HeaderAt(es, k)
  {
    if n == 0 then -1 else if HeaderAt(es, n - 1) then n - 1 else LastHeader(es, n - 1)
  }

  /** Position after the last header, or -1 when that position is unknown. */
  ghost function SlotAt(es: seq<Event>, n: nat): (d: int)
    requires n <= |es|
    ensures -1 <= d <= SLOT_NUM
  {
    var h := LastHeader(es, n);
    if h >= 0 && n - 1 - h <= SLOT_NUM && (forall k :: h < k < n ==> es[k].Arrive?) then n - 1 - h else -1
  }

  /** Before the first header. */
  ghost predicate SearchInv(cfg: Config, es: seq<Event>, n: nat, s: State)
    requires n <= |es|
  {
    var seen := Packets(es[..n]);
    && s.skip == 0 && !s.headerFound && s.relative == -1 && s.stream == -1 && s.slot == -1
    && !s.outputTlv && !s.tlvRejected && s.tlv == []
    && s.detect == (if seen < DETECT_PACKETS then seen else DETECT_PACKETS)
    && s.passthrough == (cfg.streamIndex == 0 && seen >= DETECT_PACKETS)
    && s.notFound == (cfg.streamIndex != 0 && seen >= DETECT_PACKETS)
    && s.frame == (if cfg.streamIndex == 0 then PassHeld(cfg, Drop(es[..n], DETECT_PACKETS - 1)) else [])
  }

  /** From the first header on. */
  ghost predicate FrameInv(cfg: Config, es: seq<Event>, n: nat, s: State)
    requires n <= |es| && LastHeader(es, n) >= 0
  {
    var h := LastHeader(es, n);
    && s.skip == 0 && s.headerFound && !s.passthrough
    && s.relative == Pinned(cfg, es, n)
    && s.stream == StreamAt(cfg, es, h)
    && s.notFound == (s.stream < 0)
    && s.tlvRejected == Rejected(cfg, es, n)
    && s.slot == SlotAt(es, n)
    && (s.slot < 0 || !s.outputTlv ==> s.tlv == [])
    && (s.slot >= 0 ==>
        && s.outputTlv == (TypedTlv(cfg, es, h) && !s.tlvRejected)
        && (forall k :: 0 <= k < SLOT_NUM ==> s.slotStream[k] == SlotStream(es[h].packet, k))
        && s.frame == Payload(cfg, es, h, s.slot)
        && s.tlv == Held(Chain(cfg, es, h), |Chain(cfg, es, h)|))
  }

  ghost predicate Inv(cfg: Config, es: seq<Event>, n: nat, s: State)
    requires n <= |es|
  {
    if LastHeader(es, n) < 0 then SearchInv(cfg, es, n, s) else FrameInv(cfg, es, n, s)
  }

  /** How many frame starts the first n events have decided. */
  function Closed(n: nat): nat { if n <= SLOT_NUM + 1 then 0 else n - SLOT_NUM - 1 }

  /** The reading of the first n events: frames count once their end has been seen. */
  ghost function OutputAt(cfg: Config, es: seq<Event>, n: nat): seq<byte>
    requires n <= |es|
  {
    if LastHeader(es, n) < 0 then Passed(cfg, es[..n])
    else Passed(cfg, es[..FirstHeader(es)]) + Frames(cfg, es, Closed(n))
  }

  ghost predicate StepOk(cfg: Config, es: seq<Event>, n: nat, s: State)
    requires n < |es|
  {
    var (t, out) := Step(cfg, s, es[n]);
    Inv(cfg, es, n + 1, t) && OutputAt(cfg, es, n + 1) == OutputAt(cfg, es, n) + out
  }

  // ----- frames -------------------------------------------------------------

  lemma LastHeaderIs(es: seq<Event>, n: nat, j: nat)
    requires j < n <= |es| && HeaderAt(es, j) && forall k :: j < k < n ==> !HeaderAt(es, k)
    ensures LastHeader(es, n) == j
  {}

  /** The frame that ends with event n is complete exactly when the selector has
      counted 52 slots and the event has the header's PID. */
  lemma CompleteIffFull(es: seq<Event>, n: nat)
    requires n < |es|
    ensures Complete(es, n - SLOT_NUM - 1) <==>
            SlotAt(es, n) == SLOT_NUM && Closes(es[n])
  {
    var j := n - SLOT_NUM - 1;
    if Complete(es, j) {
      LastHeaderIs(es, n, j);
    }
  }

  lemma RejectedStep(cfg: Config, es: seq<Event>, n: nat)
    requires n < |es|
    ensures Rejected(cfg, es, n + 1) <==> Rejected(cfg, es, n) || Unmasks(cfg, es, n - SLOT_NUM - 1)
  {
    if Unmasks(cfg, es, n - SLOT_NUM - 1) {
      assert n - SLOT_NUM - 1 + SLOT_NUM + 1 < n + 1;
    }
  }

  lemma FramesNext(cfg: Config, es: seq<Event>, n: nat, out: seq<byte>)
    requires n < |es|
    requires out == if Complete(es, n - SLOT_NUM - 1) then FrameOut(cfg, es, n - SLOT_NUM - 1) else []
    ensures Frames(cfg, es, Closed(n + 1)) == Frames(cfg, es, Closed(n)) + out
  {
    if n < SLOT_NUM + 1 {
      assert !Complete(es, n - SLOT_NUM - 1);
      Empty(Frames(cfg, es, 0));
    }
  }

  lemma FramesStep(cfg: Config, es: seq<Event>, n: nat, out: seq<byte>)
    requires n < |es| && LastHeader(es, n) >= 0
    requires out == if Complete(es, n - SLOT_NUM - 1) then FrameOut(cfg, es, n - SLOT_NUM - 1) else []
    ensures OutputAt(cfg, es, n + 1) == OutputAt(cfg, es, n) + out
  {
    FramesNext(cfg, es, n, out);
    Assoc(Passed(cfg, es[..FirstHeader(es)]), Frames(cfg, es, Closed(n)), out);
  }

  lemma SlotAtNext(es: seq<Event>, n: nat)
    requires n < |es| && es[n].Arrive? && !HeaderAt(es, n) && 0 <= SlotAt(es, n) < SLOT_NUM
    ensures LastHeader(es, n + 1) == LastHeader(es, n)
    ensures SlotAt(es, n + 1) == SlotAt(es, n) + 1
    ensures n == LastHeader(es, n) + 1 + SlotAt(es, n)
  {}

  lemma FilterInSlot(cfg: Config, s: State, e: Event)
    requires e.Arrive? && !e.header && s.skip == 0 && s.headerFound && !s.passthrough && 0 <= s.slot < SLOT_NUM
    ensures var picked := s.stream >= 0 && s.slotStream[s.slot] as int == s.stream + 1 && !Dropped(cfg, e.packet);
            Step(cfg, s, e) ==
            (s.(slot := s.slot + 1, frame := s.frame + if picked then [e.packet] else []), [])
  {
    assert s.frame + [] == s.frame;
  }

  /** The history facts that a packet in a slot leaves alone. */
  lemma QuietStep(cfg: Config, es: seq<Event>, n: nat)
    requires n < |es| && LastHeader(es, n) >= 0 && !HeaderAt(es, n) && !Complete(es, n - SLOT_NUM - 1)
    ensures LastHeader(es, n + 1) == LastHeader(es, n)
    ensures Pinned(cfg, es, n + 1) == Pinned(cfg, es, n)
    ensures Rejected(cfg, es, n + 1) == Rejected(cfg, es, n)
    ensures OutputAt(cfg, es, n + 1) == OutputAt(cfg, es, n)
  {
    RejectedStep(cfg, es, n);
    FramesStep(cfg, es, n, []);
    assert OutputAt(cfg, es, n) + [] == OutputAt(cfg, es, n);
  }

  lemma QuietOutput(cfg: Config, es: seq<Event>, n: nat, s: State, t: State)
    requires n < |es| && Step(cfg, s, es[n]) == (t, []) && Inv(cfg, es, n + 1, t)
    requires OutputAt(cfg, es, n + 1) == OutputAt(cfg, es, n)
    ensures StepOk(cfg, es, n, s)
  {
    assert OutputAt(cfg, es, n) + [] == OutputAt(cfg, es, n);
  }

  lemma ResyncStep(cfg: Config, es: seq<Event>, n: nat, s: State)
    requires n < |es| && LastHeader(es, n) >= 0 && FrameInv(cfg, es, n, s) && es[n].Resync?
    ensures StepOk(cfg, es, n, s)
  {
    CompleteIffFull(es, n);
    QuietStep(cfg, es, n);
    assert SlotAt(es, n + 1) == -1;
    QuietOutput(cfg, es, n, s, Step(cfg, s, es[n]).0);
  }

  /** A packet while the position is unknown. */
  lemma LostStep(cfg: Config, es: seq<Event>, n: nat, s: State)
    requires n < |es| && LastHeader(es, n) >= 0 && FrameInv(cfg, es, n, s)
    requires es[n].Arrive? && !HeaderAt(es, n) && s.slot < 0
    ensures StepOk(cfg, es, n, s)
  {
    CompleteIffFull(es, n);
    QuietStep(cfg, es, n);
    assert SlotAt(es, n + 1) == -1;
    QuietOutput(cfg, es, n, s, Step(cfg, s, es[n]).0);
  }

  lemma PayloadNext(cfg: Config, es: seq<Event>, h: nat, d: nat, n: nat)
    requires HeaderAt(es, h) && d < SLOT_NUM
    requires n == h + 1 + d < |es| && es[n].Arrive?
    ensures var r, p := StreamAt(cfg, es, h), es[n].packet;
            var picked := r >= 0 && SlotStream(es[h].packet, d) as int == r + 1 && !Dropped(cfg, p);
            Payload(cfg, es, h, d + 1) == Payload(cfg, es, h, d) + if picked then [p] else []
  {
    assert es[h + (d + 1)] == es[n];
  }

  /** Moving on within a frame keeps what is known about it. */
  lemma SameFrame(cfg: Config, es: seq<Event>, n: nat, s: State, t: State)
    requires n < |es| && LastHeader(es, n) >= 0 && FrameInv(cfg, es, n, s) && s.slot >= 0
    requires LastHeader(es, n + 1) == LastHeader(es, n) && Pinned(cfg, es, n + 1) == Pinned(cfg, es, n)
    requires Rejected(cfg, es, n + 1) == Rejected(cfg, es, n)
    requires 0 <= SlotAt(es, n + 1) <= SLOT_NUM
    requires t == s.(slot := SlotAt(es, n + 1), frame := Payload(cfg, es, LastHeader(es, n), SlotAt(es, n + 1)))
    ensures FrameInv(cfg, es, n + 1, t)
  {}

  lemma SlotResult(cfg: Config, es: seq<Event>, h: nat, n: nat, s: State)
    requires HeaderAt(es, h) && 0 <= s.slot < SLOT_NUM && n == h + 1 + s.slot < |es|
    requires es[n].Arrive? && !es[n].header
    requires s.skip == 0 && s.headerFound && !s.passthrough && s.stream == StreamAt(cfg, es, h)
    requires s.frame == Payload(cfg, es, h, s.slot) && s.slotStream[s.slot] == SlotStream(es[h].packet, s.slot)
    ensures Step(cfg, s, es[n]) == (s.(slot := s.slot + 1, frame := Payload(cfg, es, h, s.slot + 1)), [])
  {
    var r, d, p := StreamAt(cfg, es, h), s.slot, es[n].packet;
    var picked := r >= 0 && SlotStream(es[h].packet, d) as int == r + 1 && !Dropped(cfg, p);
    FilterInSlot(cfg, s, es[n]);
    PayloadNext(cfg, es, h, d, n);
    assert Payload(cfg, es, h, d + 1) == s.frame + if picked then [p] else [];
  }

  /** A packet in one of the 52 slots. */
  lemma SlotStep(cfg: Config, es: seq<Event>, n: nat, s: State)
    requires n < |es| && LastHeader(es, n) >= 0 && FrameInv(cfg, es, n, s)
    requires es[n].Arrive? && !HeaderAt(es, n) && 0 <= s.slot < SLOT_NUM
    ensures StepOk(cfg, es, n, s)
  {
    var h, d := LastHeader(es, n), s.slot;
    var t := s.(slot := d + 1, frame := Payload(cfg, es, h, d + 1));
    SlotQuiet(cfg, es, n);
    SameFrame(cfg, es, n, s, t);
    SlotTaken(cfg, es, n, s);
    QuietOutput(cfg, es, n, s, t);
  }

  /** Nothing is decided within a frame. */
  lemma SlotQuiet(cfg: Config, es: seq<Event>, n: nat)
    requires n < |es| && LastHeader(es, n) >= 0
    requires es[n].Arrive? && !HeaderAt(es, n) && 0 <= SlotAt(es, n) < SLOT_NUM
    ensures LastHeader(es, n + 1) == LastHeader(es, n) && SlotAt(es, n + 1) == SlotAt(es, n) + 1
    ensures Pinned(cfg, es, n + 1) == Pinned(cfg, es, n) && Rejected(cfg, es, n + 1) == Rejected(cfg, es, n)
    ensures OutputAt(cfg, es, n + 1) == OutputAt(cfg, es, n)
  {
    assert !Complete(es, n - SLOT_NUM - 1) by { CompleteIffFull(es, n); }
    QuietStep(cfg, es, n);
    SlotAtNext(es, n);
  }

  lemma SlotTaken(cfg: Config, es: seq<Event>, n: nat, s: State)
    requires n < |es| && LastHeader(es, n) >= 0 && FrameInv(cfg, es, n, s)
    requires es[n].Arrive? && !HeaderAt(es, n) && 0 <= s.slot < SLOT_NUM
    ensures var h := LastHeader(es, n);
            Step(cfg, s, es[n]) == (s.(slot := s.slot + 1, frame := Payload(cfg, es, h, s.slot + 1)), [])
  {
    SlotAtNext(es, n);
    SlotResult(cfg, es, LastHeader(es, n), n, s);
  }

  ghost predicate FullAt(cfg: Config, es: seq<Event>, n: nat, s: State) {
    && n < |es| && LastHeader(es, n) == n - SLOT_NUM - 1 && Complete(es, n - SLOT_NUM - 1)
    && FrameInv(cfg, es, n, s) && s.slot == SLOT_NUM
  }

  /** What a full frame turns out to be. */
  lemma FrameVerdict(cfg: Config, es: seq<Event>, n: nat, s: State)
    requires FullAt(cfg, es, n, s)
    ensures s.frame == FramePackets(cfg, es, n - SLOT_NUM - 1)
    ensures TlvFrame(cfg, es, n - SLOT_NUM - 1) <==> s.outputTlv && !AnyForeign(s.frame)
    ensures Rejected(cfg, es, n + 1) <==> s.tlvRejected || (s.outputTlv && AnyForeign(s.frame))
  {
    RejectedStep(cfg, es, n);
  }

  /** Flushing a full frame: what is held, what is learnt. */
  lemma FlushState(cfg: Config, es: seq<Event>, n: nat, s: State)
    requires FullAt(cfg, es, n, s)
    ensures var h := n - SLOT_NUM - 1;
            var q := Chain(cfg, es, h) + FramePackets(cfg, es, h);
            var tlv := TlvFrame(cfg, es, h);
            FlushFrame(s).0 == s.(tlvRejected := Rejected(cfg, es, n + 1), outputTlv := tlv,
                                  tlv := if tlv then Held(q, |q|) else [])
  {
    FrameVerdict(cfg, es, n, s);
    var h := n - SLOT_NUM - 1;
    ExtractFrame(Chain(cfg, es, h), FramePackets(cfg, es, h));
  }

  /** Flushing a full frame: what comes out. */
  lemma FlushOutput(cfg: Config, es: seq<Event>, n: nat, s: State)
    requires FullAt(cfg, es, n, s)
    ensures FlushFrame(s).1 == FrameOut(cfg, es, n - SLOT_NUM - 1)
  {
    FrameVerdict(cfg, es, n, s);
    var h := n - SLOT_NUM - 1;
    ExtractFrame(Chain(cfg, es, h), FramePackets(cfg, es, h));
  }

  lemma PastSlots(es: seq<Event>, n: nat)
    requires n < |es| && es[n].Arrive? && !HeaderAt(es, n) && SlotAt(es, n) == SLOT_NUM
    ensures LastHeader(es, n + 1) == LastHeader(es, n) == n - SLOT_NUM - 1
    ensures SlotAt(es, n + 1) == -1
  {}

  /** The packet in the header's place is a damaged header: the frame counts. */
  lemma DamagedHeaderStep(cfg: Config, es: seq<Event>, n: nat, s: State)
    requires n < |es| && LastHeader(es, n) >= 0 && FrameInv(cfg, es, n, s)
    requires es[n].Arrive? && !HeaderAt(es, n) && s.slot == SLOT_NUM && Closes(es[n])
    ensures StepOk(cfg, es, n, s)
  {
    CompleteIffFull(es, n);
    PastSlots(es, n);
    FlushState(cfg, es, n, s);
    FlushOutput(cfg, es, n, s);
    FramesStep(cfg, es, n, FlushFrame(s).1);
  }

  /** The packet in the header's place is something else: packets were lost. */
  lemma StrayStep(cfg: Config, es: seq<Event>, n: nat, s: State)
    requires n < |es| && LastHeader(es, n) >= 0 && FrameInv(cfg, es, n, s)
    requires es[n].Arrive? && !HeaderAt(es, n) && s.slot == SLOT_NUM && !Closes(es[n])
    ensures StepOk(cfg, es, n, s)
  {
    CompleteIffFull(es, n);
    PastSlots(es, n);
    QuietStep(cfg, es, n);
    QuietOutput(cfg, es, n, s, s.(slot := -1, tlv := []));
  }

  /** What a header needs to know about the state it is parsed in. */
  ghost predicate ParseReady(cfg: Config, es: seq<Event>, n: nat, s: State)
    requires n < |es|
  {
    && s.skip == 0 && !s.passthrough
    && s.relative == Pinned(cfg, es, n)
    && s.tlvRejected == Rejected(cfg, es, n + 1)
    && (s.tlv != [] ==>
        && SlotAt(es, n) == SLOT_NUM
        && LastHeader(es, n) == n - SLOT_NUM - 1
        && TlvFrame(cfg, es, n - SLOT_NUM - 1)
        && s.outputTlv && s.stream == StreamAt(cfg, es, n - SLOT_NUM - 1)
        && var h := n - SLOT_NUM - 1;
           var q := Chain(cfg, es, h) + FramePackets(cfg, es, h);
           s.tlv == Held(q, |q|))
    && (s.tlv == [] ==>
        Linked(cfg, es, n) ==> Held(Chain(cfg, es, n), |Chain(cfg, es, n)|) == [])
  }

  lemma ParseStep(cfg: Config, es: seq<Event>, n: nat, s: State)
    requires n < |es| && HeaderAt(es, n) && ParseReady(cfg, es, n, s)
    ensures FrameInv(cfg, es, n + 1, ParseHeader(cfg, s, es[n].packet))
  {
    var p := es[n].packet;
    var t := ParseHeader(cfg, s, p);
    assert LastHeader(es, n + 1) == n && SlotAt(es, n + 1) == 0;
    ParsedStream(cfg, es, n, s);
    ParsedTlv(cfg, es, n, s);
  }

  /** The stream and its type. */
  lemma ParsedStream(cfg: Config, es: seq<Event>, n: nat, s: State)
    requires n < |es| && HeaderAt(es, n) && s.relative == Pinned(cfg, es, n)
    ensures var t := ParseHeader(cfg, s, es[n].packet);
            && t.relative == Pinned(cfg, es, n + 1) && t.stream == StreamAt(cfg, es, n)
            && t.outputTlv == (TypedTlv(cfg, es, n) && !t.tlvRejected)
  {}

  /** The bytes held for a frame that carries on the one before. */
  lemma ParsedTlv(cfg: Config, es: seq<Event>, n: nat, s: State)
    requires n < |es| && HeaderAt(es, n) && ParseReady(cfg, es, n, s)
    ensures ParseHeader(cfg, s, es[n].packet).tlv == Held(Chain(cfg, es, n), |Chain(cfg, es, n)|)
  {
    ParsedStream(cfg, es, n, s);
    if Linked(cfg, es, n) { TlvFrameKeeps(cfg, es, n); }
  }

  /** A TLV frame right before position n unmasks nothing. */
  lemma TlvFrameKeeps(cfg: Config, es: seq<Event>, n: nat)
    requires n < |es| && TlvFrame(cfg, es, n - SLOT_NUM - 1)
    ensures !Rejected(cfg, es, n + 1)
  {
    RejectedStep(cfg, es, n);
  }

  /** A header in the header's place. */
  lemma FullHeaderStep(cfg: Config, es: seq<Event>, n: nat, s: State)
    requires n < |es| && LastHeader(es, n) >= 0 && FrameInv(cfg, es, n, s) && HeaderAt(es, n)
    requires s.slot == SLOT_NUM
    ensures StepOk(cfg, es, n, s)
  {
    var (t, out) := FlushFrame(s);
    FlushReady(cfg, es, n, s);
    ParseStep(cfg, es, n, t);
    FramesStep(cfg, es, n, out);
  }

  lemma FullFrame(es: seq<Event>, n: nat)
    requires n < |es| && SlotAt(es, n) == SLOT_NUM && HeaderAt(es, n)
    ensures LastHeader(es, n) == n - SLOT_NUM - 1 && Complete(es, n - SLOT_NUM - 1)
  {
    CompleteIffFull(es, n);
  }

  lemma FlushReady(cfg: Config, es: seq<Event>, n: nat, s: State)
    requires n < |es| && LastHeader(es, n) >= 0 && FrameInv(cfg, es, n, s) && HeaderAt(es, n)
    requires s.slot == SLOT_NUM
    ensures Complete(es, n - SLOT_NUM - 1)
    ensures ParseReady(cfg, es, n, FlushFrame(s).0)
    ensures FlushFrame(s).1 == FrameOut(cfg, es, n - SLOT_NUM - 1)
  {
    FullFrame(es, n);
    FlushOutput(cfg, es, n, s);
    FlushParses(cfg, es, n, s);
  }

  lemma FlushParses(cfg: Config, es: seq<Event>, n: nat, s: State)
    requires FullAt(cfg, es, n, s) && HeaderAt(es, n)
    ensures ParseReady(cfg, es, n, FlushFrame(s).0)
  {
    FlushState(cfg, es, n, s);
    FlushedIsReady(cfg, es, n, FlushFrame(s).0);
  }

  lemma FlushedIsReady(cfg: Config, es: seq<Event>, n: nat, t: State)
    requires n < |es| && HeaderAt(es, n) && SlotAt(es, n) == SLOT_NUM
    requires LastHeader(es, n) == n - SLOT_NUM - 1 && Complete(es, n - SLOT_NUM - 1)
    requires t.skip == 0 && !t.passthrough && t.relative == Pinned(cfg, es, n)
    requires t.stream == StreamAt(cfg, es, n - SLOT_NUM - 1)
    requires t.tlvRejected == Rejected(cfg, es, n + 1) && t.outputTlv == TlvFrame(cfg, es, n - SLOT_NUM - 1)
    requires var h := n - SLOT_NUM - 1;
             t.tlv == if t.outputTlv then
                        var q := Chain(cfg, es, h) + FramePackets(cfg, es, h); Held(q, |q|)
                      else []
    ensures ParseReady(cfg, es, n, t)
  {}

  /** A header anywhere else: the frame before it is lost. */
  lemma EarlyHeaderStep(cfg: Config, es: seq<Event>, n: nat, s: State)
    requires n < |es| && LastHeader(es, n) >= 0 && FrameInv(cfg, es, n, s) && HeaderAt(es, n)
    requires s.slot != SLOT_NUM
    ensures StepOk(cfg, es, n, s)
  {
    CompleteIffFull(es, n);
    RejectedStep(cfg, es, n);
    assert !Linked(cfg, es, n);
    ParseStep(cfg, es, n, s.(tlv := []));
    FramesStep(cfg, es, n, []);
  }

  lemma FirstHeaderOutput(cfg: Config, es: seq<Event>, n: nat)
    requires n < |es| && LastHeader(es, n) < 0 && HeaderAt(es, n)
    ensures LastHeader(es, n + 1) == n && OutputAt(cfg, es, n + 1) == OutputAt(cfg, es, n)
  {
    assert FirstHeader(es) == n;
    NoFramesYet(cfg, es, Closed(n + 1), n);
    Empty(Passed(cfg, es[..n]));
  }

  /** The first header of all. */
  lemma FirstHeaderStep(cfg: Config, es: seq<Event>, n: nat, s: State)
    requires n < |es| && LastHeader(es, n) < 0 && SearchInv(cfg, es, n, s) && HeaderAt(es, n)
    ensures StepOk(cfg, es, n, s)
  {
    CompleteIffFull(es, n);
    RejectedStep(cfg, es, n);
    NoHeaderNothing(cfg, es, n);
    FirstHeaderOutput(cfg, es, n);
    var t := if s.passthrough then s.(passthrough := false, frame := [], tlv := []) else s.(tlv := []);
    assert !Linked(cfg, es, n);
    ParseStep(cfg, es, n, t);
    QuietOutput(cfg, es, n, s, ParseHeader(cfg, t, es[n].packet));
  }

  lemma {:induction false} NoHeaderNothing(cfg: Config, es: seq<Event>, n: nat)
    requires n <= |es| && LastHeader(es, n) < 0
    ensures Pinned(cfg, es, n) == -1 && !Rejected(cfg, es, n)
  {
    if n > 0 {
      assert !HeaderAt(es, n - 1);
      NoHeaderNothing(cfg, es, n - 1);
      RejectedStep(cfg, es, n - 1);
      CompleteIffFull(es, n - 1);
    }
  }

  lemma {:induction false} NoFramesYet(cfg: Config, es: seq<Event>, m: nat, n: nat)
    requires m <= n && forall i :: 0 <= i < n ==> !HeaderAt(es, i)
    ensures Frames(cfg, es, m) == []
  {
    if m > 0 {
      NoFramesYet(cfg, es, m - 1, n);
      assert !HeaderAt(es, m - 1);
    }
  }

  // ----- pass-through -------------------------------------------------------

  lemma {:induction false} PacketsSnoc(es: seq<Event>, e: Event)
    ensures Packets(es + [e]) == Packets(es) + if e.Arrive? then 1 else 0
  {
    if |es| > 0 {
      PacketsSnoc(es[1..], e);
      assert (es + [e])[1..] == es[1..] + [e];
    }
  }

  lemma {:induction false} DropSnoc(es: seq<Event>, e: Event, k: nat)
    ensures Packets(es) >= k ==> Drop(es + [e], k) == Drop(es, k) + [e]
    ensures Packets(es) < k ==> Drop(es, k) == [] && Drop(es + [e], k) == []
  {
    if k > 0 {
      if |es| == 0 {
        assert (es + [e])[1..] == [];
      } else {
        DropSnoc(es[1..], e, if es[0].Arrive? then k - 1 else k);
        assert (es + [e])[1..] == es[1..] + [e];
      }
    }
  }

  lemma KeptSnoc(cfg: Config, es: seq<Event>, e: Event)
    ensures Kept(cfg, es + [e]) == Kept(cfg, es) + if e.Arrive? && !Dropped(cfg, e.packet) then [e.packet] else []
  {
    assert (es + [e])[..|es|] == es;
  }

  lemma {:induction false} FirstResyncSnoc(es: seq<Event>, e: Event)
    ensures FirstResync(es + [e]) ==
            if FirstResync(es) < |es| || e.Resync? then FirstResync(es) else |es| + 1
  {
    if |es| > 0 {
      assert (es + [e])[1..] == es[1..] + [e];
      if !es[0].Resync? { FirstResyncSnoc(es[1..], e); }
    }
  }

  lemma {:induction false} FlattenAdd(a: seq<Packet>, b: seq<Packet>)
    ensures Flatten(a + b) == Flatten(a) + Flatten(b)
  {
    if |b| == 0 {
      assert a + b == a;
    } else {
      FlattenAdd(a, b[..|b| - 1]);
      assert (a + b)[..|a + b| - 1] == a + b[..|b| - 1];
    }
  }

  /** The block buffer as the reading sees it: one more kept packet. */
  function PassOne(held: seq<Packet>, p: Packet): (r: (seq<Packet>, seq<byte>)) {
    if |held| + 1 < SLOT_NUM then (held + [p], []) else ([], Flatten(held + [p]))
  }

  lemma WholeSnoc(ps: seq<Packet>, p: Packet)
    ensures var (held, out) := PassOne(Partial(ps), p);
            Partial(ps + [p]) == held && Flatten(Whole(ps + [p])) == Flatten(Whole(ps)) + out
  {
    var w, r := Whole(ps), Partial(ps);
    assert ps == w + r;
    if |r| + 1 < SLOT_NUM {
      assert |ps + [p]| % SLOT_NUM == |r| + 1;
      assert Whole(ps + [p]) == w;
    } else {
      assert |ps + [p]| % SLOT_NUM == 0;
      assert Whole(ps + [p]) == w + (r + [p]);
      FlattenAdd(w, r + [p]);
    }
  }

  /** One more event for the block buffer. */
  function PassEvent(cfg: Config, held: seq<Packet>, e: Event): (r: (seq<Packet>, seq<byte>)) {
    if e.Resync? then ([], [])
    else if Dropped(cfg, e.packet) then (held, [])
    else PassOne(held, e.packet)
  }

  lemma StretchIs(cfg: Config, es: seq<Event>)
    requires forall i :: 0 <= i < |es| ==> es[i].Arrive?
    ensures PassOut(cfg, es) == Flatten(Whole(Kept(cfg, es))) && PassHeld(cfg, es) == Partial(Kept(cfg, es))
  {
    assert FirstResync(es) == |es|;
    assert es[..|es|] == es;
  }

  /** One more packet at the end of a stretch. */
  lemma StretchSnoc(cfg: Config, es: seq<Event>, e: Event)
    requires (forall i :: 0 <= i < |es| ==> es[i].Arrive?) && e.Arrive?
    ensures PassFollows(cfg, es, e)
  {
    StretchIs(cfg, es);
    StretchIs(cfg, es + [e]);
    KeptSnoc(cfg, es, e);
    if Dropped(cfg, e.packet) {
      Empty(Kept(cfg, es));
      Empty(PassOut(cfg, es));
    } else {
      WholeSnoc(Kept(cfg, es), e.packet);
    }
  }

  lemma Empty<T>(a: seq<T>)
    ensures a + [] == a
  {}

  /** A stretch, a resynchronisation, and the rest. */
  lemma PassUnfold(cfg: Config, a: seq<Event>, b: seq<Event>)
    requires forall i :: 0 <= i < |a| ==> a[i].Arrive?
    ensures PassOut(cfg, a + [Resync] + b) == Flatten(Whole(Kept(cfg, a))) + PassOut(cfg, b)
    ensures PassHeld(cfg, a + [Resync] + b) == PassHeld(cfg, b)
  {
    var es := a + [Resync] + b;
    var k := FirstResync(es);
    assert es[|a|].Resync?;
    assert k == |a|;
    assert es[..k] == a && es[k + 1..] == b;
  }

  ghost predicate PassFollows(cfg: Config, es: seq<Event>, e: Event) {
    var (held, out) := PassEvent(cfg, PassHeld(cfg, es), e);
    PassHeld(cfg, es + [e]) == held && PassOut(cfg, es + [e]) == PassOut(cfg, es) + out
  }

  lemma PassBehindResync(cfg: Config, a: seq<Event>, b: seq<Event>, e: Event)
    requires forall i :: 0 <= i < |a| ==> a[i].Arrive?
    requires PassFollows(cfg, b, e)
    ensures PassFollows(cfg, a + [Resync] + b, e)
  {
    Assoc(a + [Resync], b, [e]);
    PassUnfold(cfg, a, b);
    PassUnfold(cfg, a, b + [e]);
    var head, out := Flatten(Whole(Kept(cfg, a))), PassEvent(cfg, PassHeld(cfg, b), e).1;
    Assoc(head, PassOut(cfg, b), out);
  }

  /** One more event after any stretches. */
  lemma {:induction false} PassSnoc(cfg: Config, es: seq<Event>, e: Event)
    ensures PassFollows(cfg, es, e)
    decreases |es|
  {
    var k := FirstResync(es);
    if k < |es| {
      var a, b := es[..k], es[k + 1..];
      assert es == a + [Resync] + b;
      PassSnoc(cfg, b, e);
      PassBehindResync(cfg, a, b, e);
    } else if e.Arrive? {
      StretchSnoc(cfg, es, e);
    } else {
      PassEndsWithResync(cfg, es);
    }
  }

  lemma PassEndsWithResync(cfg: Config, es: seq<Event>)
    requires FirstResync(es) == |es|
    ensures PassOut(cfg, es + [Resync]) == PassOut(cfg, es) + [] && PassHeld(cfg, es + [Resync]) == []
  {
    assert es[..|es|] == es && es + [Resync] + [] == es + [Resync];
    PassUnfold(cfg, es, []);
    assert PassOut(cfg, []) == [] && PassHeld(cfg, []) == [];
  }

  /** How far the search has come after one more event. */
  lemma SearchHistory(cfg: Config, es: seq<Event>, n: nat)
    requires n < |es| && LastHeader(es, n) < 0 && !HeaderAt(es, n)
    ensures LastHeader(es, n + 1) < 0
    ensures Packets(es[..n + 1]) == Packets(es[..n]) + if es[n].Arrive? then 1 else 0
    ensures var k := DETECT_PACKETS - 1;
            var a, b := Drop(es[..n], k), Drop(es[..n + 1], k);
            if Packets(es[..n]) >= k then b == a + [es[n]] else a == b == []
  {
    assert es[..n + 1] == es[..n] + [es[n]];
    PacketsSnoc(es[..n], es[n]);
    DropSnoc(es[..n], es[n], DETECT_PACKETS - 1);
  }

  /** What the selector does with an event while no header has come. */
  lemma SearchFilter(cfg: Config, s: State, e: Event)
    requires s.skip == 0 && !s.headerFound && s.slot == -1 && s.tlv == []
    requires e.Arrive? ==> !e.header
    requires s.detect <= DETECT_PACKETS && s.passthrough == (cfg.streamIndex == 0 && s.detect == DETECT_PACKETS)
    requires |s.frame| < SLOT_NUM && (cfg.streamIndex != 0 ==> s.frame == [])
    requires s.notFound == (cfg.streamIndex != 0 && s.detect == DETECT_PACKETS)
    ensures var detect := if e.Arrive? && s.detect < DETECT_PACKETS then s.detect + 1 else s.detect;
            var passes := cfg.streamIndex == 0 && detect == DETECT_PACKETS;
            var (held, out) := if e.Resync? then ([], [])
                               else if passes then PassEvent(cfg, s.frame, e) else (s.frame, []);
            Step(cfg, s, e) ==
            (s.(detect := detect, passthrough := passes, frame := held,
                notFound := cfg.streamIndex != 0 && detect == DETECT_PACKETS), out)
  {}

  /** The reading of the events from the 424th packet on. */
  ghost function PassedFrom(cfg: Config, es: seq<Event>): seq<byte> {
    if cfg.streamIndex == 0 then PassOut(cfg, es) else []
  }

  ghost function HeldFrom(cfg: Config, es: seq<Event>): seq<Packet> {
    if cfg.streamIndex == 0 then PassHeld(cfg, es) else []
  }

  /** The block buffer follows the reading of a headerless carrier. */
  lemma BlockBuffer(cfg: Config, s: State, e: Event, was: seq<Event>, now: seq<Event>)
    requires s.skip == 0 && !s.headerFound && s.slot == -1 && s.tlv == []
    requires e.Arrive? ==> !e.header
    requires s.detect <= DETECT_PACKETS && s.passthrough == (cfg.streamIndex == 0 && s.detect == DETECT_PACKETS)
    requires s.notFound == (cfg.streamIndex != 0 && s.detect == DETECT_PACKETS)
    requires s.frame == HeldFrom(cfg, was)
    requires if s.detect >= DETECT_PACKETS - 1 then now == was + [e] else was == now == []
    ensures var (t, out) := Step(cfg, s, e);
            t.frame == HeldFrom(cfg, now) && PassedFrom(cfg, now) == PassedFrom(cfg, was) + out
  {
    BlockResult(cfg, s, e, was);
    if s.detect >= DETECT_PACKETS - 1 {
      PassSnoc(cfg, was, e);
    } else {
      assert PassHeld(cfg, []) == [];
    }
    Empty(PassedFrom(cfg, was));
  }

  /** What the selector does to the block buffer. */
  lemma BlockResult(cfg: Config, s: State, e: Event, was: seq<Event>)
    requires s.skip == 0 && !s.headerFound && s.slot == -1 && s.tlv == []
    requires e.Arrive? ==> !e.header
    requires s.detect <= DETECT_PACKETS && s.passthrough == (cfg.streamIndex == 0 && s.detect == DETECT_PACKETS)
    requires s.notFound == (cfg.streamIndex != 0 && s.detect == DETECT_PACKETS)
    requires s.frame == HeldFrom(cfg, was) && (s.detect < DETECT_PACKETS - 1 ==> was == [])
    ensures var (t, out) := Step(cfg, s, e);
            (t.frame, out) == if cfg.streamIndex == 0 && s.detect >= DETECT_PACKETS - 1
                              then PassEvent(cfg, PassHeld(cfg, was), e) else ([], [])
  {
    PassHeldShort(cfg, was);
    assert PassHeld(cfg, []) == [];
    BlockStep(cfg, s, e);
  }

  lemma BlockStep(cfg: Config, s: State, e: Event)
    requires s.skip == 0 && !s.headerFound && s.slot == -1 && s.tlv == []
    requires e.Arrive? ==> !e.header
    requires s.detect <= DETECT_PACKETS && s.passthrough == (cfg.streamIndex == 0 && s.detect == DETECT_PACKETS)
    requires s.notFound == (cfg.streamIndex != 0 && s.detect == DETECT_PACKETS)
    requires |s.frame| < SLOT_NUM && (cfg.streamIndex != 0 || s.detect < DETECT_PACKETS - 1 ==> s.frame == [])
    ensures var (t, out) := Step(cfg, s, e);
            (t.frame, out) == if cfg.streamIndex == 0 && s.detect >= DETECT_PACKETS - 1
                              then PassEvent(cfg, s.frame, e) else ([], [])
  {
    SearchFilter(cfg, s, e);
  }

  lemma SearchOutput(cfg: Config, es: seq<Event>, n: nat, s: State)
    requires n < |es| && LastHeader(es, n) < 0 && SearchInv(cfg, es, n, s) && !HeaderAt(es, n)
    ensures var (t, out) := Step(cfg, s, es[n]);
            && Passed(cfg, es[..n + 1]) == Passed(cfg, es[..n]) + out
            && t.frame == (if cfg.streamIndex == 0 then PassHeld(cfg, Drop(es[..n + 1], DETECT_PACKETS - 1)) else [])
  {
    SearchHistory(cfg, es, n);
    BlockBuffer(cfg, s, es[n], Drop(es[..n], DETECT_PACKETS - 1), Drop(es[..n + 1], DETECT_PACKETS - 1));
  }

  lemma SearchStep(cfg: Config, es: seq<Event>, n: nat, s: State)
    requires n < |es| && LastHeader(es, n) < 0 && SearchInv(cfg, es, n, s) && !HeaderAt(es, n)
    ensures StepOk(cfg, es, n, s)
  {
    SearchHistory(cfg, es, n);
    SearchOutput(cfg, es, n, s);
    SearchState(cfg, es, n, s);
  }

  lemma SearchState(cfg: Config, es: seq<Event>, n: nat, s: State)
    requires n < |es| && LastHeader(es, n) < 0 && SearchInv(cfg, es, n, s) && !HeaderAt(es, n)
    ensures SearchInv(cfg, es, n + 1, Step(cfg, s, es[n]).0)
  {
    SearchHistory(cfg, es, n);
    SearchOutput(cfg, es, n, s);
    PassHeldShort(cfg, Drop(es[..n], DETECT_PACKETS - 1));
    SearchFilter(cfg, s, es[n]);
  }

  lemma {:induction false} PassHeldShort(cfg: Config, es: seq<Event>)
    ensures |PassHeld(cfg, es)| < SLOT_NUM
    decreases |es|
  {
    var k := FirstResync(es);
    if k < |es| { PassHeldShort(cfg, es[k + 1..]); }
  }
}
