/** The USB bridge: its GPIO cache, and the UART of the card reader. */
module Bridge {
  import opened Bytes

  // ----- GPIO ---------------------------------------------------------------

  datatype Mode = Unset | In | Out
  datatype Pin = Pin(mode: Mode, enabled: bool)

  const PINS: nat := 16

  /** What the cache claims is what the chip has; what it does not claim may be so. */
  predicate Honest(cached: Pin, chip: Pin) {
    && (!cached.mode.Unset? ==> chip.mode == cached.mode)
    && (cached.enabled ==> chip.enabled)
  }

  class Gpio {
    var cached: seq<Pin>
    ghost var chip: seq<Pin>

    ghost predicate Valid()
      reads this
    {
      |cached| == PINS && |chip| == PINS && forall i :: 0 <= i < PINS ==> Honest(cached[i], chip[i])
    }

    /** After initialisation the cache claims nothing, whatever the chip holds. */
    constructor (ghost chip: seq<Pin>)
      requires |chip| == PINS
      ensures Valid() && this.chip == chip
    {
      cached, this.chip := seq(PINS, _ => Pin(Unset, false)), chip;
    }

    /** Success means that the chip has the setting, even where writing was skipped;
        `moded` and `enabling` say whether the two writes succeed, each of which counts
        only if the cache does not claim its result. */
    method SetMode(gpio: int, mode: Mode, enable: bool, moded: bool, enabling: bool) returns (ok: bool)
      requires Valid()
      modifies this
      ensures Valid()
      ensures ok <==>
                && 0 < gpio <= PINS && !mode.Unset?
                && (old(cached)[gpio - 1].mode == mode || moded)
                && (enable ==> old(cached)[gpio - 1].enabled || enabling)
      ensures ok ==> 0 < gpio <= PINS && chip[gpio - 1].mode == mode && (enable ==> chip[gpio - 1].enabled)
      ensures 0 < gpio <= PINS && !enable ==> chip[gpio - 1].enabled == old(chip)[gpio - 1].enabled
      ensures gpio <= 0 || gpio > PINS || mode.Unset? ==> !ok && chip == old(chip) && cached == old(cached)
      ensures forall i :: 0 <= i < PINS && i != gpio - 1 ==> chip[i] == old(chip)[i] && cached[i] == old(cached)[i]
    {
      if gpio <= 0 || gpio > PINS || mode.Unset? { return false; }
      var i := gpio - 1;
      if cached[i].mode != mode {
        if !moded { return false; }
        chip := chip[i := chip[i].(mode := mode)];
        cached := cached[i := cached[i].(mode := mode)];
      }
      if !enable || cached[i].enabled { return true; }
      if enabling {
        chip := chip[i := chip[i].(enabled := true)];
        cached := cached[i := cached[i].(enabled := true)];
      }
      ok := enabling;
    }

    /** Success means that the chip enables the pin; a pin that is disabled in the
        cache only is left alone. */
    method Enable(gpio: int, enable: bool, writes: bool) returns (ok: bool)
      requires Valid()
      modifies this
      ensures Valid()
      ensures ok <==> 0 < gpio <= PINS && (old(cached)[gpio - 1].enabled == enable || writes)
      ensures !ok ==> chip == old(chip) && cached == old(cached)
      ensures ok ==> chip[gpio - 1].mode == old(chip)[gpio - 1].mode && cached[gpio - 1].enabled == enable
      ensures ok && enable ==> 0 < gpio <= PINS && chip[gpio - 1].enabled
      ensures ok && !enable ==>
                && 0 < gpio <= PINS
                && chip[gpio - 1].enabled == (!old(cached)[gpio - 1].enabled && old(chip)[gpio - 1].enabled)
      ensures forall i :: 0 <= i < PINS && i != gpio - 1 ==> chip[i] == old(chip)[i] && cached[i] == old(cached)[i]
    {
      if gpio <= 0 || gpio > PINS { return false; }
      var i := gpio - 1;
      if cached[i].enabled == enable { return true; }
      if writes {
        chip := chip[i := chip[i].(enabled := enable)];
        cached := cached[i := cached[i].(enabled := enable)];
      }
      ok := writes;
    }
  }

  // ----- UART ---------------------------------------------------------------

  const CHUNK: nat := 48

  datatype Message = Commit | Chunk(data: seq<byte>)

  /** What has to be sent: the frame in pieces, the last one announced. */
  function Plan(frame: seq<byte>): seq<Message> {
    if |frame| <= CHUNK then [Commit, Chunk(frame)]
    else [Chunk(frame[..CHUNK])] + Plan(frame[CHUNK..])
  }

  function Data(ms: seq<Message>): seq<byte> {
    if |ms| == 0 then [] else (if ms[0].Chunk? then ms[0].data else []) + Data(ms[1..])
  }

  /** All pieces but the last have 48 bytes and that one has 1 to 48, and the only
      announcement stands before it. */
  ghost predicate Announced(ms: seq<Message>) {
    && |ms| >= 2
    && (forall i :: 0 <= i < |ms| ==> (ms[i].Commit? <==> i == |ms| - 2))
    && (forall i :: 0 <= i < |ms| - 2 ==> |ms[i].data| == CHUNK)
    && 1 <= |ms[|ms| - 1].data| <= CHUNK
  }

  lemma AnnouncedLater(data: seq<byte>, ms: seq<Message>)
    requires |data| == CHUNK && Announced(ms)
    ensures Announced([Chunk(data)] + ms)
  {
    var all := [Chunk(data)] + ms;
    assert forall i :: 0 < i < |all| ==> all[i] == ms[i - 1];
  }

  lemma DataLater(data: seq<byte>, ms: seq<Message>)
    ensures Data([Chunk(data)] + ms) == data + Data(ms)
  {
    assert ([Chunk(data)] + ms)[1..] == ms;
  }

  /** The messages make up the frame, in pieces as the chip wants them. */
  lemma {:induction false} PlanSends(frame: seq<byte>)
    requires |frame| > 0
    ensures Data(Plan(frame)) == frame && Announced(Plan(frame))
  {
    if |frame| <= CHUNK {
      var ms := [Commit, Chunk(frame)];
      assert ms[1..] == [Chunk(frame)] + [];
      DataLater(frame, []);
      assert frame + [] == frame && Data(ms) == [] + frame;
    } else {
      PlanSends(frame[CHUNK..]);
      AnnouncedLater(frame[..CHUNK], Plan(frame[CHUNK..]));
      DataLater(frame[..CHUNK], Plan(frame[CHUNK..]));
      assert frame == frame[..CHUNK] + frame[CHUNK..];
    }
  }

  /** Sending stops at the first message that fails, the n-th one succeeding if
      `fate(n)`; `sent` are the messages that succeeded. */
  method Send(frame: seq<byte>, fate: nat -> bool) returns (ok: bool, sent: seq<Message>)
    requires |frame| < 256
    ensures |frame| == 0 ==> !ok && sent == []
    ensures |frame| > 0 ==> sent <= Plan(frame) && (ok <==> sent == Plan(frame))
    ensures ok ==> forall n :: 0 <= n < |sent| ==> fate(n)
    ensures |frame| > 0 && !ok ==> !fate(|sent|)
  {
    ok, sent := false, [];
    if |frame| == 0 { return; }
    var offset := 0;
    while offset < |frame|
      invariant 0 <= offset <= |frame|
      invariant offset < |frame| ==> Plan(frame) == sent + Plan(frame[offset..])
      invariant offset == |frame| ==> sent == Plan(frame)
      invariant forall n :: 0 <= n < |sent| ==> fate(n)
    {
      var length := if |frame| - offset < CHUNK then |frame| - offset else CHUNK;
      RoundSent(frame, sent, offset, length);
      if offset + length == |frame| {
        if !fate(|sent|) { return; }
        sent := sent + [Commit];
      }
      if !fate(|sent|) { return; }
      sent := sent + [Chunk(frame[offset..offset + length])];
      offset := offset + length;
    }
    ok := true;
  }

  /** What one round of the loop contributes. */
  lemma PlanStep(frame: seq<byte>, offset: nat, length: nat)
    requires offset < |frame| && length == if |frame| - offset < CHUNK then |frame| - offset else CHUNK
    ensures var piece := Chunk(frame[offset..offset + length]);
            Plan(frame[offset..]) ==
              if offset + length == |frame| then [Commit, piece] else [piece] + Plan(frame[offset + length..])
  {
    var rest := frame[offset..];
    assert rest[..length] == frame[offset..offset + length];
    assert rest[length..] == frame[offset + length..];
    if offset + length == |frame| { assert rest[..length] == rest; }
  }

  /** The messages at both ends of a round, and in between. */
  lemma RoundSent(frame: seq<byte>, sent: seq<Message>, offset: nat, length: nat)
    requires offset < |frame| && length == if |frame| - offset < CHUNK then |frame| - offset else CHUNK
    requires Plan(frame) == sent + Plan(frame[offset..])
    ensures sent < Plan(frame)
    ensures var piece := Chunk(frame[offset..offset + length]);
            if offset + length == |frame|
            then sent + [Commit] < Plan(frame) && sent + [Commit] + [piece] == Plan(frame)
            else Plan(frame) == sent + [piece] + Plan(frame[offset + length..])
  {
    PlanStep(frame, offset, length);
    var piece := Chunk(frame[offset..offset + length]);
    if offset + length == |frame| { TwoLeft(Plan(frame), sent, Commit, piece); }
    else { OneMore(Plan(frame), sent, piece, Plan(frame[offset + length..])); }
  }

  lemma TwoLeft<T>(all: seq<T>, a: seq<T>, x: T, y: T)
    requires all == a + [x, y]
    ensures a < all && a + [x] < all && a + [x] + [y] == all
  {}

  lemma OneMore<T>(all: seq<T>, a: seq<T>, x: T, b: seq<T>)
    requires all == a + ([x] + b)
    ensures a < all && all == a + [x] + b
  {}
}
