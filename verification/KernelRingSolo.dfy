/** What a call to the kernel's ring does when nobody interferes, and which calls are
    turned away. */
module KernelRingSolo {
  import opened Bytes
  import RB = RingBuffer
  import opened RingBufferData
  import opened RingBufferSolo
  import opened KernelRing
  import opened KernelRingSafe

  /** A ring that works, with no store of a reset due. */
  ghost predicate Steady(r: Ring) { Good(r) && !r.resetter.Storing? }

  lemma SteadyUsable(r: Ring)
    requires Steady(r)
    ensures Usable(Image(r))
  {
    InvUsable(Image(r));
  }

  lemma {:induction false} SteadyKept(f: Ring -> Ring, r: Ring, k: nat)
    requires Steady(r) && forall t :: Steady(t) ==> Steady(f(t))
    ensures Steady(Iterate(f, r, k))
    decreases k
  {
    if k > 0 { SteadyKept(f, f(r), k - 1); }
  }

  lemma ThreeTimes<S>(f: S -> S, s: S, a: S, b: S, c: S)
    requires f(s) == a && f(a) == b && f(b) == c
    ensures Iterate(f, s, 3) == c
  {
    assert Iterate(f, s, 3) == Iterate(f, a, 2) == Iterate(f, b, 1) == Iterate(f, c, 0);
  }

  lemma Once<S>(f: S -> S, s: S)
    ensures Iterate(f, s, 1) == f(s)
  {
    assert Iterate(f, s, 1) == Iterate(f, f(s), 0);
  }

  // ----- reading ------------------------------------------------------------

  ghost function KReading(want: nat): Ring -> Ring { r => ReadStep(r, want) }

  /** `k` steps of the reader alone. */
  ghost function KReads(want: nat, r: Ring, k: nat): Ring { Iterate(KReading(want), r, k) }

  /** From `a` to `t` the reader has taken the `n` oldest bytes and left. */
  predicate TookOut(a: Ring, t: Ring, n: int) {
    && t.reader.RIdle? && t.writer == a.writer && t.mode == a.mode && t.accepted == a.accepted
    && 0 <= n <= |a.accepted| - |a.delivered| && t.delivered == a.accepted[..|a.delivered| + n]
  }

  lemma ReadSteady(r: Ring, want: nat)
    requires Steady(r)
    ensures Steady(ReadStep(r, want))
  {
    NextGood(r, Read(want));
  }

  lemma ReadsSteady(r: Ring, want: nat, k: nat)
    requires Steady(r)
    ensures Steady(KReads(want, r, k))
  {
    forall t | Steady(t) ensures Steady(KReading(want)(t)) { ReadSteady(t, want); }
    SteadyKept(KReading(want), r, k);
  }

  /** The three steps in front of the copy. */
  lemma ReadComesIn(r: Ring, want: nat)
    requires r.actual >= 0 && r.reader.RIdle?
    ensures var n := Min(want, r.actual);
            KReads(want, r, 3) ==
              r.(rw := r.rw + 1, reader := if n == 0 then RB.RExit(RB.Leaving) else RB.RCopying(r.head, n, []))
  {
    var a := r.(rw := r.rw + 1, reader := RB.RInside(want));
    var b := a.(reader := RB.RSized(want, r.actual));
    assert ReadStep(r, want) == a && ReadStep(a, want) == b;
    ThreeTimes(KReading(want), r, a, b, ReadStep(b, want));
  }

  lemma ReadsByte(r: Ring, want: nat)
    requires Usable(Image(r)) && r.reader.RCopying? && |r.reader.got| < r.reader.size
    ensures var t := ReadStep(r, want);
            && t == r.(reader := t.reader) && t.reader.RCopying?
            && t.reader.size == r.reader.size && |t.reader.got| == |r.reader.got| + 1
  {
    ReadsOn(r, want);
    ReadByte(Image(r), want);
  }

  lemma {:induction false} ReadsBytes(r: Ring, want: nat, k: nat)
    requires Steady(r) && r.reader.RCopying? && k == r.reader.size - |r.reader.got|
    ensures var t := KReads(want, r, k);
            t == r.(reader := t.reader) && t.reader.RCopying? && t.reader.size == r.reader.size == |t.reader.got|
    decreases k
  {
    if k > 0 {
      SteadyUsable(r);
      ReadsByte(r, want);
      ReadSteady(r, want);
      ReadsBytes(ReadStep(r, want), want, k - 1);
    }
  }

  /** The three steps behind it: the position, the size, and the way out. */
  lemma ReadGoesOut(r: Ring, want: nat)
    requires Usable(Image(r)) && r.reader.RCopying? && r.reader.size == |r.reader.got|
    ensures TookOut(r, KReads(want, r, 3), r.reader.size) && KReads(want, r, 3).rw == r.rw - 1
  {
    var got, n := r.reader.got, |r.delivered|;
    var a := r.(head := RB.After(r.reader.start, r.reader.size, |r.buf|), reader := RB.RStored(got));
    var b := a.(actual := r.actual - |got|, delivered := r.delivered + got, reader := RB.RExit(RB.Leaving));
    assert ReadStep(r, want) == a && ReadStep(a, want) == b;
    ThreeTimes(KReading(want), r, a, b, ReadStep(b, want));
    assert r.delivered == r.accepted[..n];
    assert r.accepted[..n + |got|] == r.accepted[..n] + r.accepted[n..n + |got|];
  }

  lemma ReadTakes(a: Ring, want: nat, n: nat)
    requires Steady(a) && n > 0 && a.reader == RB.RCopying(a.head, n, [])
    ensures TookOut(a, KReads(want, a, n + 3), n) && KReads(want, a, n + 3).rw == a.rw - 1
  {
    var b := KReads(want, a, n);
    ReadsBytes(a, want, n);
    ReadsSteady(a, want, n);
    SteadyUsable(b);
    ReadGoesOut(b, want);
    ReadsAdd(want, a, n, 3);
    assert TookOut(b, KReads(want, b, 3), n);
  }

  lemma ReadsAdd(want: nat, r: Ring, j: nat, k: nat)
    ensures KReads(want, r, j + k) == KReads(want, KReads(want, r, j), k)
  {
    IterateAdd(KReading(want), r, j, k);
  }

  /** An undisturbed read takes the oldest bytes, as many as are wanted and there; it is
      never turned away. */
  lemma KernelReadAlone(r: Ring, want: nat) returns (k: nat)
    requires Steady(r) && r.reader.RIdle?
    ensures TookOut(r, KReads(want, r, k), Min(want, r.actual)) && KReads(want, r, k).rw == r.rw
  {
    SteadyUsable(r);
    var n := Min(want, r.actual);
    ReadComesIn(r, want);
    ReadsSteady(r, want, 3);
    var a := KReads(want, r, 3);
    if n > 0 {
      k := 3 + (n + 3);
      ReadTakes(a, want, n);
      ReadsAdd(want, r, 3, n + 3);
    } else {
      k := 3 + 1;
      ReadTurnsBack(r, a, want);
      ReadsAdd(want, r, 3, 1);
    }
  }

  lemma ReadTurnsBack(r: Ring, a: Ring, want: nat)
    requires Usable(Image(r)) && r.reader.RIdle? && a == r.(rw := r.rw + 1, reader := RB.RExit(RB.Leaving))
    ensures TookOut(r, KReads(want, a, 1), 0) && KReads(want, a, 1).rw == r.rw
  {
    Once(KReading(want), a);
    assert r.delivered == r.accepted[..|r.delivered|];
  }

  // ----- writing ------------------------------------------------------------

  ghost function KWriting(data: seq<byte>): Ring -> Ring { r => WriteStep(r, data) }

  /** `k` steps of the writer alone. */
  ghost function KWrites(data: seq<byte>, r: Ring, k: nat): Ring { Iterate(KWriting(data), r, k) }

  /** From `a` to `t` the writer has stored the first `n` bytes and left. */
  predicate PutIn(a: Ring, t: Ring, data: seq<byte>, n: int) {
    && t.writer.WIdle? && t.reader == a.reader && t.mode == a.mode && t.delivered == a.delivered
    && 0 <= n <= |data| && t.accepted == a.accepted + data[..n]
  }

  lemma WriteSteady(r: Ring, data: seq<byte>)
    requires Steady(r)
    ensures Steady(WriteStep(r, data))
  {
    NextGood(r, Write(data));
  }

  lemma WritesSteady(r: Ring, data: seq<byte>, k: nat)
    requires Steady(r)
    ensures Steady(KWrites(data, r, k))
  {
    forall t | Steady(t) ensures Steady(KWriting(data)(t)) { WriteSteady(t, data); }
    SteadyKept(KWriting(data), r, k);
  }

  lemma WriteComesIn(r: Ring, data: seq<byte>)
    requires 0 <= r.actual <= |r.buf| && r.writer.WIdle? && r.mode == 2
    ensures var n := Min(|data|, |r.buf| - r.actual);
            KWrites(data, r, 4) ==
              r.(rw := r.rw + 1, writer := if n == 0 then RB.WExit(RB.Leaving) else RB.WCopying(r.tail, n, data, 0))
  {
    var a := r.(writer := RB.WCounted(data));
    var b := a.(rw := r.rw + 1, writer := RB.WInside(data));
    var c := b.(writer := RB.WSized(data, r.actual));
    assert WriteStep(r, data) == a && WriteStep(a, data) == b && WriteStep(b, data) == c;
    FourTimes(KWriting(data), r, a, b, c, WriteStep(c, data));
  }

  lemma WritesByte(r: Ring, data: seq<byte>)
    requires Usable(Image(r)) && r.writer.WCopying? && r.writer.done < r.writer.size
    ensures var t := WriteStep(r, data);
            t == r.(writer := r.writer.(done := r.writer.done + 1), buf := t.buf)
  {
    WritesOn(r, data);
    WriteByte(Image(r), data);
  }

  lemma {:induction false} WritesBytes(r: Ring, data: seq<byte>, k: nat)
    requires Steady(r) && r.writer.WCopying? && k == r.writer.size - r.writer.done
    ensures var t := KWrites(data, r, k);
            t == r.(writer := r.writer.(done := r.writer.size), buf := t.buf)
    decreases k
  {
    if k > 0 {
      SteadyUsable(r);
      WritesByte(r, data);
      WriteSteady(r, data);
      WritesBytes(WriteStep(r, data), data, k - 1);
    }
  }

  lemma WriteGoesOut(r: Ring, data: seq<byte>)
    requires Usable(Image(r)) && r.writer.WCopying? && r.writer.done == r.writer.size
    ensures PutIn(r, KWrites(data, r, 3), r.writer.data, r.writer.size) && KWrites(data, r, 3).rw == r.rw - 1
  {
    var w := r.writer;
    var a := r.(tail := RB.After(w.start, w.size, |r.buf|), writer := RB.WStored(w.size, w.data));
    var b := a.(actual := r.actual + w.size, accepted := r.accepted + w.data[..w.size], writer := RB.WExit(RB.Leaving));
    assert WriteStep(r, data) == a && WriteStep(a, data) == b;
    ThreeTimes(KWriting(data), r, a, b, WriteStep(b, data));
  }

  lemma WriteStores(a: Ring, data: seq<byte>, n: nat)
    requires Steady(a) && 0 < n <= |data| && a.writer == RB.WCopying(a.tail, n, data, 0)
    ensures PutIn(a, KWrites(data, a, n + 3), data, n) && KWrites(data, a, n + 3).rw == a.rw - 1
  {
    var b := KWrites(data, a, n);
    WritesBytes(a, data, n);
    WritesSteady(a, data, n);
    SteadyUsable(b);
    WriteGoesOut(b, data);
    WritesAdd(data, a, n, 3);
    assert PutIn(b, KWrites(data, b, 3), data, n);
  }

  lemma WritesAdd(data: seq<byte>, r: Ring, j: nat, k: nat)
    ensures KWrites(data, r, j + k) == KWrites(data, KWrites(data, r, j), k)
  {
    IterateAdd(KWriting(data), r, j, k);
  }

  /** An undisturbed write stores as many bytes as there is room for, if a reader has
      announced itself; otherwise it is turned away before it is counted. */
  lemma KernelWriteAlone(r: Ring, data: seq<byte>) returns (k: nat)
    requires Steady(r) && r.writer.WIdle?
    ensures r.mode == 2 ==>
              PutIn(r, KWrites(data, r, k), data, Min(|data|, |r.buf| - r.actual)) && KWrites(data, r, k).rw == r.rw
    ensures r.mode != 2 ==> k > 0 && KWrites(data, r, k) == r
  {
    if r.mode != 2 {
      k := 1;
      Once(KWriting(data), r);
    } else {
      SteadyUsable(r);
      var n := Min(|data|, |r.buf| - r.actual);
      WriteComesIn(r, data);
      WritesSteady(r, data, 4);
      var a := KWrites(data, r, 4);
      if n > 0 {
        k := 4 + (n + 3);
        WriteStores(a, data, n);
        WritesAdd(data, r, 4, n + 3);
      } else {
        k := 4 + 1;
        WriteTurnsBack(r, a, data);
        WritesAdd(data, r, 4, 1);
      }
    }
  }

  lemma WriteTurnsBack(r: Ring, a: Ring, data: seq<byte>)
    requires r.writer.WIdle? && a == r.(rw := r.rw + 1, writer := RB.WExit(RB.Leaving))
    ensures PutIn(r, KWrites(data, a, 1), data, 0) && KWrites(data, a, 1).rw == r.rw
  {
    Once(KWriting(data), a);
    assert r.accepted + data[..0] == r.accepted;
  }

  // ----- resetting ----------------------------------------------------------

  ghost function Resetting(): Ring -> Ring { r => ResetStep(r) }

  /** A reset that finds the ring stopped and without users empties it; a ring that is
      started refuses it. */
  lemma KernelResetAlone(r: Ring)
    requires r.resetter.Resting? && r.rw == 0
    ensures Iterate(Resetting(), r, 5) ==
            if r.mode == 0 then r.(actual := 0, head := 0, tail := 0, accepted := [], delivered := []) else r
  {
    if r.mode == 0 {
      var a := r.(resetter := Waiting);
      var b := r.(resetter := Storing(0));
      var c := r.(actual := 0, accepted := [], delivered := [], resetter := Storing(1));
      var d := c.(head := 0, resetter := Storing(2));
      assert ResetStep(r) == a && ResetStep(a) == b && ResetStep(b) == c && ResetStep(c) == d;
      FourTimes(Resetting(), a, b, c, d, ResetStep(d));
    } else {
      FourTimes(Resetting(), r, r, r, r, r);
    }
  }

  /** It waits for as long as somebody is inside. */
  lemma ResetWaits(r: Ring)
    requires r.resetter.Waiting?
    ensures ResetStep(r) == r <==> r.rw != 0
  {}
}
