/** What becomes of a read whose transfer crosses a reset. */
module KernelRingDefect {
  import opened Bytes
  import RB = RingBuffer
  import opened RingBufferData
  import opened KernelRing
  import opened KernelRingSafe

  // ----- moves one after the other ------------------------------------------

  lemma Push(buf: seq<byte>, ms: seq<Move>, m: Move, r: Ring) returns (ns: seq<Move>)
    requires Run(Fresh(buf), ms) == r
    ensures ns == ms + [m] && Run(Fresh(buf), ns) == Next(r, m)
  {
    ns := ms + [m];
    assert ns[..|ns| - 1] == ms;
  }

  /** The same move, as often as given, through the given states. */
  lemma {:induction false} PushAll(buf: seq<byte>, ms: seq<Move>, m: Move, states: seq<Ring>) returns (ns: seq<Move>)
    requires |states| > 0 && Run(Fresh(buf), ms) == states[0]
    requires forall i :: 0 <= i < |states| - 1 ==> Next(states[i], m) == states[i + 1]
    ensures ms <= ns && Run(Fresh(buf), ns) == states[|states| - 1]
    decreases |states|
  {
    if |states| == 1 {
      ns := ms;
    } else {
      var more := Push(buf, ms, m, states[0]);
      ns := PushAll(buf, more, m, states[1..]);
    }
  }

  // ----- a reset under a copy -----------------------------------------------

  /** The reset's three stores. */
  lemma ResetEnds(buf: seq<byte>, ms: seq<Move>, r: Ring) returns (ns: seq<Move>)
    requires Run(Fresh(buf), ms) == r && r.resetter == Storing(0)
    ensures ms <= ns
    ensures Run(Fresh(buf), ns) ==
            r.(actual := 0, head := 0, tail := 0, accepted := [], delivered := [], resetter := Resting)
  {
    var a := r.(actual := 0, accepted := [], delivered := [], resetter := Storing(1));
    var b := a.(head := 0, resetter := Storing(2));
    ns := PushAll(buf, ms, Reset, [r, a, b, b.(tail := 0, resetter := Resting)]);
  }

  lemma CopyOne(r: Ring, want: nat)
    requires r.reader.RCopying? && |r.reader.got| < r.reader.size
    requires RB.InBuffer(r.reader.start, r.reader.size, |r.buf|)
    ensures var t := ReadStep(r, want);
            && t == r.(reader := t.reader) && t.reader.RCopying? && |t.reader.got| == |r.reader.got| + 1
            && t.reader.start == r.reader.start && t.reader.size == r.reader.size
  {}

  /** The copy goes on, whatever has become of the ring. */
  lemma {:induction false} CopyEnds(buf: seq<byte>, ms: seq<Move>, r: Ring) returns (ns: seq<Move>, got: seq<byte>)
    requires Run(Fresh(buf), ms) == r && r.reader.RCopying? && |r.reader.got| <= r.reader.size
    requires RB.InBuffer(r.reader.start, r.reader.size, |r.buf|)
    ensures ms <= ns && |got| == r.reader.size
    ensures Run(Fresh(buf), ns) == r.(reader := RB.RCopying(r.reader.start, r.reader.size, got))
    decreases r.reader.size - |r.reader.got|
  {
    if |r.reader.got| == r.reader.size {
      ns, got := ms, r.reader.got;
    } else {
      CopyOne(r, 0);
      var more := Push(buf, ms, Read(0), r);
      ns, got := CopyEnds(buf, more, ReadStep(r, 0));
    }
  }

  /** The read stores its position and takes what it has copied from the size. */
  lemma ReadEnds(buf: seq<byte>, ms: seq<Move>, r: Ring) returns (ns: seq<Move>)
    requires Run(Fresh(buf), ms) == r && r.reader.RCopying? && |r.reader.got| == r.reader.size
    requires RB.After(r.reader.start, r.reader.size, |r.buf|) >= 0
    ensures ms <= ns
    ensures Run(Fresh(buf), ns) == r.(head := RB.After(r.reader.start, r.reader.size, |r.buf|), rw := r.rw - 1,
                                      actual := r.actual - r.reader.size, delivered := r.delivered + r.reader.got,
                                      reader := RB.RIdle)
  {
    var a := r.(head := RB.After(r.reader.start, r.reader.size, |r.buf|), reader := RB.RStored(r.reader.got));
    var b := a.(actual := r.actual - r.reader.size, delivered := r.delivered + r.reader.got,
                reader := RB.RExit(RB.Leaving));
    ns := PushAll(buf, ms, Read(0), [r, a, b, b.(rw := r.rw - 1, reader := RB.RIdle)]);
  }

  /** In every run without harm so far: a reset that is past its check when a read
      copies can go on so that everybody comes to rest with a size below zero. */
  lemma HarmHurts(buf: seq<byte>, ms: seq<Move>) returns (ns: seq<Move>)
    requires NothingHarmful(buf, ms)
    requires var r := Run(Fresh(buf), ms);
             r.resetter == Storing(0) && r.reader.RCopying? && r.writer.WIdle?
    ensures var r, t := Run(Fresh(buf), ms), Run(Fresh(buf), ns);
            && ms <= ns && t.reader.RIdle? && t.writer.WIdle? && t.resetter.Resting?
            && t.actual == 0 - r.reader.size < 0
  {
    var r := Run(Fresh(buf), ms);
    GoodUpTo(buf, ms, |ms|);
    assert ms[..|ms|] == ms;
    CopiesSafe(Image(r));
    ns := ResetEnds(buf, ms, r);
    var s := Run(Fresh(buf), ns);
    var got;
    ns, got := CopyEnds(buf, ns, s);
    ns := ReadEnds(buf, ns, s.(reader := RB.RCopying(r.reader.start, r.reader.size, got)));
  }

  // ----- a run that gets there ----------------------------------------------

  /** A ring in which everybody is at rest. */
  function Rest(buf: seq<byte>, head: nat, tail: nat, actual: int, mode: nat,
                accepted: seq<byte>, delivered: seq<byte>): Ring
  {
    Ring(buf, head, tail, actual, 0, mode, RB.RIdle, RB.WIdle, Resting, accepted, delivered)
  }

  /** Where one byte from the start of the ring leads. */
  function Second(buf: seq<byte>): nat { if |buf| == 1 then 0 else 1 }

  lemma EntersToWrite(buf: seq<byte>, ms: seq<Move>, d: seq<byte>) returns (ns: seq<Move>)
    requires |buf| >= 1 && |d| == 1 && Run(Fresh(buf), ms) == Rest(buf, 0, 0, 0, 2, [], [])
    ensures Run(Fresh(buf), ns) == Rest(buf, 0, 0, 0, 2, [], []).(rw := 1, writer := RB.WCopying(0, 1, d, 0))
  {
    var r := Rest(buf, 0, 0, 0, 2, [], []);
    var inside := r.(rw := 1);
    ns := PushAll(buf, ms, Write(d),
      [r, r.(writer := RB.WCounted(d)), inside.(writer := RB.WInside(d)), inside.(writer := RB.WSized(d, 0)),
       inside.(writer := RB.WCopying(0, 1, d, 0))]);
  }

  lemma FillsOne(buf: seq<byte>, ms: seq<Move>, b: byte) returns (ns: seq<Move>)
    requires |buf| >= 1 && Run(Fresh(buf), ms) == Rest(buf, 0, 0, 0, 2, [], [])
    ensures Run(Fresh(buf), ns) == Rest(buf[0 := b], 0, Second(buf), 1, 2, [b], [])
  {
    var d := [b];
    ns := EntersToWrite(buf, ms, d);
    var inside := Rest(buf, 0, 0, 0, 2, [], []).(rw := 1);
    var full := inside.(buf := buf[0 := b]);
    assert d[..1] == d && full.accepted + d == d;
    ns := PushAll(buf, ns, Write(d),
      [inside.(writer := RB.WCopying(0, 1, d, 0)), full.(writer := RB.WCopying(0, 1, d, 1)),
       full.(tail := Second(buf), writer := RB.WStored(1, d)),
       full.(tail := Second(buf), actual := 1, accepted := d, writer := RB.WExit(RB.Leaving)),
       Rest(buf[0 := b], 0, Second(buf), 1, 2, d, [])]);
  }

  /** The reset has passed its check; a read enters and loads size and position. */
  lemma Overlaps(buf: seq<byte>, ms: seq<Move>, r: Ring) returns (ns: seq<Move>)
    requires Run(Fresh(buf), ms) == r && r == Rest(r.buf, 0, r.tail, 1, 0, r.accepted, [])
    ensures Run(Fresh(buf), ns) == r.(rw := 1, resetter := Storing(0), reader := RB.RCopying(0, 1, []))
  {
    ns := PushAll(buf, ms, Reset, [r, r.(resetter := Waiting), r.(resetter := Storing(0))]);
    var s := r.(resetter := Storing(0));
    var t := s.(rw := 1);
    ns := PushAll(buf, ns, Read(1),
      [s, t.(reader := RB.RInside(1)), t.(reader := RB.RSized(1, 1)), t.(reader := RB.RCopying(0, 1, []))]);
  }

  /** Whatever the ring's size: one byte is written, the ring is stopped and reset, and
      a read comes in late. In the end everybody is at rest, and the ring claims to
      hold -1 bytes. */
  lemma LateReadCorrupts(buf: seq<byte>, b: byte) returns (ms: seq<Move>, got: seq<byte>)
    requires |buf| >= 1
    ensures |got| == 1 && Run(Fresh(buf), ms) == Rest(buf[0 := b], Second(buf), 0, -1, 0, [], got)
    ensures !NobodyLate(buf, ms) && !NothingHarmful(buf, ms)
  {
    ms := Push(buf, [], SetMode(2), Fresh(buf));
    ms := FillsOne(buf, ms, b);
    var full := Rest(buf[0 := b], 0, Second(buf), 1, 2, [b], []);
    ms := Push(buf, ms, SetMode(0), full);
    var stopped := full.(mode := 0);
    ms := Overlaps(buf, ms, stopped);
    ms, got := Finishes(buf, ms, stopped);
    if NothingHarmful(buf, ms) { SafeUnlessHarmful(buf, ms); }
    if NobodyLate(buf, ms) { SafeUnlessLate(buf, ms); }
  }

  lemma Finishes(buf: seq<byte>, ms: seq<Move>, r: Ring) returns (ns: seq<Move>, got: seq<byte>)
    requires |r.buf| >= 1 && r.rw == 0
    requires Run(Fresh(buf), ms) == r.(rw := 1, resetter := Storing(0), reader := RB.RCopying(0, 1, []))
    ensures |got| == 1
    ensures Run(Fresh(buf), ns) == r.(head := Second(r.buf), tail := 0, actual := -1, accepted := [], delivered := got,
                                      reader := RB.RIdle, resetter := Resting)
  {
    ns := ResetEnds(buf, ms, r.(rw := 1, resetter := Storing(0), reader := RB.RCopying(0, 1, [])));
    var s := Run(Fresh(buf), ns);
    ns, got := CopyEnds(buf, ns, s);
    ns := ReadEnds(buf, ns, s.(reader := RB.RCopying(0, 1, got)));
    assert s.delivered + got == got;
  }

  /** From there a read of more than twice the ring's size, which the alleged size
      allows for every ring the driver can allocate, copies from behind the buffer. */
  lemma ThenReadsOutside(buf: seq<byte>, b: byte, got: seq<byte>)
    requires 1 <= |buf| <= 0x7fff_ffff
    ensures var want, r := 2 * |buf| + 1, Rest(buf[0 := b], Second(buf), 0, -1, 0, [], got);
            var s := ReadStep(ReadStep(ReadStep(r, want), want), want);
            s.reader == RB.RCopying(Second(buf), want, []) && !RB.InBuffer(Second(buf), want, |s.buf|)
  {
    var n, h := |buf|, Second(buf);
    assert RB.Address(h, 2 * n + 1, 2 * n, n) == n + h;
  }
}
