/** As long as no transfer crosses a reset, the kernel's ring keeps its bytes. */
module KernelRingSafe {
  import opened Bytes
  import RB = RingBuffer
  import opened RingBufferData
  import opened KernelRing

  function ImageOf(w: RB.Writer): RB.Writer { if w.WCounted? then RB.WIdle else w }

  /** The same ring, with the reset as a purger of the other one. */
  function Image(r: Ring): RB.State {
    RB.State(r.buf, r.head, r.tail, r.actual, r.resetter.Storing?, r.rw, RB.Free, true,
             r.reader, ImageOf(r.writer), [if r.resetter.Storing? then RB.Resetting(r.resetter.stores) else RB.Away],
             r.accepted, r.delivered)
  }

  ghost predicate Good(r: Ring) { Counted(r) && Clean(r) && DataInv(Image(r)) }

  /** Away from the stores of a reset, positions mean what they say. */
  lemma NotStale(r: Ring)
    requires DataInv(Image(r))
    ensures !Between(r) ==> Settled(Image(r))
  {}

  /** A step of a user that moves nothing but its own place. */
  lemma OnlyMoves(r: Ring, t: Ring)
    requires DataInv(Image(r)) && t == r.(rw := t.rw, mode := t.mode, reader := t.reader, writer := t.writer)
    requires ReaderOk(t.reader, r.accepted, |r.delivered|, |r.buf|) && ReaderAhead(t.reader) == ReaderAhead(r.reader)
    requires WriterOk(ImageOf(t.writer), r.buf, |r.accepted|, |r.delivered|)
    requires WriterAhead(ImageOf(t.writer)) == WriterAhead(ImageOf(r.writer))
    ensures DataInv(Image(t))
  {
    RingKept(Image(r), Image(t));
  }

  // ----- the reader ---------------------------------------------------------

  /** Inside, the steps are those of the other ring. */
  lemma ReadsOn(r: Ring, want: nat)
    requires !r.reader.RIdle? && !r.reader.RExit? && !r.reader.RCounted? && r.actual >= 0
    ensures RB.ReaderStep(Image(r), want) == Image(ReadStep(r, want))
  {}

  lemma ReadTransfers(r: Ring, want: nat)
    requires Settled(Image(r)) && (r.reader.RInside? || r.reader.RSized? || ReaderLoaded(r))
    ensures DataInv(Image(ReadStep(r, want)))
  {
    var s := Image(r);
    ReadsOn(r, want);
    if r.reader.RCopying? {
      if |r.reader.got| < r.reader.size { ReaderCopiesByte(s, want); } else { ReaderStoresHead(s, want); }
    } else if r.reader.RStored? {
      ReaderPublishes(s, want);
    } else {
      ReaderElsewhere(s, want);
    }
  }

  lemma ReadGood(r: Ring, want: nat)
    requires Good(r)
    ensures DataInv(Image(ReadStep(r, want)))
  {
    if r.reader.RIdle? || r.reader.RExit? || Between(r) {
      OnlyMoves(r, ReadStep(r, want));
    } else {
      NotStale(r);
      ReadTransfers(r, want);
    }
  }

  // ----- the writer ---------------------------------------------------------

  lemma WritesOn(r: Ring, data: seq<byte>)
    requires !r.writer.WIdle? && !r.writer.WExit? && !r.writer.WCounted? && r.actual >= 0
    ensures RB.WriterStep(Image(r), data) == Image(WriteStep(r, data))
  {}

  lemma WriteTransfers(r: Ring, data: seq<byte>)
    requires Settled(Image(r)) && (r.writer.WInside? || r.writer.WSized? || WriterLoaded(r))
    ensures DataInv(Image(WriteStep(r, data)))
  {
    var s := Image(r);
    WritesOn(r, data);
    if r.writer.WCopying? {
      if r.writer.done < r.writer.size { WriterCopiesByte(s, data); } else { WriterStoresTail(s, data); }
    } else if r.writer.WStored? {
      WriterPublishes(s, data);
    } else {
      WriterElsewhere(s, data);
    }
  }

  lemma WriteGood(r: Ring, data: seq<byte>)
    requires Good(r) && !Harmful(r, Write(data))
    ensures DataInv(Image(WriteStep(r, data)))
  {
    if r.writer.WIdle? || r.writer.WCounted? || r.writer.WExit? || Between(r) {
      OnlyMoves(r, WriteStep(r, data));
    } else {
      NotStale(r);
      WriteTransfers(r, data);
    }
  }

  // ----- the reset ----------------------------------------------------------

  lemma ResetsSize(r: Ring)
    requires Good(r) && r.resetter == Storing(0) && !ReaderLoaded(r) && !WriterLoaded(r)
    ensures DataInv(Image(ResetStep(r)))
  {
    var t := Image(ResetStep(r));
    assert t.purgers[0] == RB.Resetting(1);
    assert Stale(t.purgers, 1, 1) && Stale(t.purgers, 1, 2);
  }

  lemma ResetsHead(r: Ring)
    requires Good(r) && r.resetter == Storing(1)
    ensures DataInv(Image(ResetStep(r)))
  {
    var s, t := Image(r), Image(ResetStep(r));
    assert s.purgers[0] == RB.Resetting(1) && t.purgers[0] == RB.Resetting(2);
    assert Stale(s.purgers, 1, 2) && Stale(t.purgers, 1, 2);
  }

  lemma ResetsTail(r: Ring)
    requires Good(r) && r.resetter == Storing(2)
    ensures DataInv(Image(ResetStep(r)))
  {
    var s := Image(r);
    assert s.purgers[0] == RB.Resetting(2);
    assert Stale(s.purgers, 1, 2) && !Stale(s.purgers, 1, 1);
  }

  lemma ResetGood(r: Ring)
    requires Good(r) && !Harmful(r, Reset)
    ensures DataInv(Image(ResetStep(r)))
  {
    match r.resetter
    case Storing(k) => if k == 0 { ResetsSize(r); } else if k == 1 { ResetsHead(r); } else { ResetsTail(r); }
    case _ => RingKept(Image(r), Image(ResetStep(r)));
  }

  // ----- main results -------------------------------------------------------

  lemma NextGood(r: Ring, m: Move)
    requires Good(r) && !Harmful(r, m)
    ensures Good(Next(r, m))
  {
    CountedStep(r, m);
    CleanStep(r, m);
    match m
    case Read(want) => ReadGood(r, want);
    case Write(data) => WriteGood(r, data);
    case Reset => ResetGood(r);
    case SetMode(mode) => assert Image(r.(mode := mode)) == Image(r);
  }

  lemma {:induction false} GoodUpTo(buf: seq<byte>, ms: seq<Move>, j: nat)
    requires j <= |ms| && NothingHarmful(buf, ms)
    ensures Good(Before(buf, ms, j))
  {
    if j == 0 {
      InvInit(buf, 1);
      RingKept(RB.Init(buf, 1), Image(Fresh(buf)));
    } else {
      GoodUpTo(buf, ms, j - 1);
      BeforeNext(buf, ms, j - 1);
      NextGood(Before(buf, ms, j - 1), ms[j - 1]);
    }
  }

  /** As long as no move is harmful, late or not: copies stay in the buffer and apart,
      bytes read are a prefix of the bytes accepted, and the size is their
      difference. */
  lemma SafeUnlessHarmful(buf: seq<byte>, ms: seq<Move>)
    requires NothingHarmful(buf, ms)
    ensures RB.DataSafe(Image(Run(Fresh(buf), ms)))
  {
    GoodUpTo(buf, ms, |ms|);
    assert ms[..|ms|] == ms;
    CopiesSafe(Image(Run(Fresh(buf), ms)));
  }

  /** As long as nobody is late, everything the other ring promises holds. */
  lemma SafeUnlessLate(buf: seq<byte>, ms: seq<Move>)
    requires NobodyLate(buf, ms)
    ensures RB.Safe(Image(Run(Fresh(buf), ms)))
  {
    HarmIsLate(buf, ms);
    SafeUnlessHarmful(buf, ms);
    AloneUpTo(buf, ms, |ms|);
    assert ms[..|ms|] == ms;
  }
}
