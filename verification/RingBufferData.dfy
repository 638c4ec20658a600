/** The bytes in the ring: what is stored where, and what stale copies still mean. */
module RingBufferData {
  import opened Bytes
  import opened RingBuffer
  import opened RingBufferProof

  /** The unread bytes lie in the ring in order, starting at position `t`. */
  ghost predicate Contents(buf: seq<byte>, accepted: seq<byte>, t: nat) {
    && t <= |accepted| <= t + |buf|
    && forall j :: t <= j < |accepted| ==> 0 <= Mod(j, |buf|) < |buf| && buf[Mod(j, |buf|)] == accepted[j]
  }

  /** Bytes of `data` stored behind the unread ones but not yet published. */
  ghost predicate Pending(buf: seq<byte>, w: nat, data: seq<byte>, done: nat) {
    done <= |data| && forall k :: 0 <= k < done ==> StoredAt(buf, w, data, k)
  }

  ghost predicate StoredAt(buf: seq<byte>, w: nat, data: seq<byte>, k: nat)
    requires k < |data|
  {
    Mod(w + k, |buf|) < |buf| && buf[Mod(w + k, |buf|)] == data[k]
  }

  ghost predicate ReaderOk(r: Reader, accepted: seq<byte>, t: nat, cap: nat)
    requires t <= |accepted|
  {
    match r
    case RSized(_, avail) => avail <= |accepted| - t
    case RCopying(start, size, got) =>
      start == Mod(t, cap) && 0 < size <= |accepted| - t && |got| <= size && got == accepted[t..t + |got|]
    case RStored(got) => |got| <= |accepted| - t && got == accepted[t..t + |got|]
    case _ => true
  }

  ghost predicate WriterOk(w: Writer, buf: seq<byte>, wpos: nat, t: nat)
    requires t <= wpos
  {
    match w
    case WSized(_, used) => wpos - t <= used <= |buf|
    case WCopying(start, size, data, done) =>
      start == Mod(wpos, |buf|) && 0 < size <= |data| && wpos - t + size <= |buf| && done <= size
      && Pending(buf, wpos, data, done)
    case WStored(size, data) => size <= |data| && wpos - t + size <= |buf| && Pending(buf, wpos, data, size)
    case _ => true
  }

  predicate Stale(ps: seq<Purger>, from: nat, to: nat) {
    exists i :: 0 <= i < |ps| && ps[i].Resetting? && from <= ps[i].stores <= to
  }

  function ReaderAhead(r: Reader): nat { if r.RStored? then |r.got| else 0 }
  function WriterAhead(w: Writer): nat { if w.WStored? then w.size else 0 }

  ghost predicate Positions(s: State) {
    && (Stale(s.purgers, 1, 1) || s.head == Mod(|s.delivered| + ReaderAhead(s.reader), |s.buf|))
    && (Stale(s.purgers, 1, 2) || s.tail == Mod(|s.accepted| + WriterAhead(s.writer), |s.buf|))
    && (forall i :: 0 <= i < |s.purgers| && s.purgers[i].Resetting? ==> s.purgers[i].stores <= 2)
    && (Stale(s.purgers, 1, 2) ==> s.accepted == [] && s.delivered == [])
  }

  ghost predicate DataInv(s: State) {
    && s.delivered <= s.accepted && s.actual == |s.accepted| - |s.delivered|
    && Contents(s.buf, s.accepted, |s.delivered|)
    && ReaderOk(s.reader, s.accepted, |s.delivered|, |s.buf|)
    && WriterOk(s.writer, s.buf, |s.accepted|, |s.delivered|)
    && Positions(s)
  }

  /** While someone is inside, nobody resets. */
  lemma InsideNotStale(s: State)
    requires CtlInv(Project(s)) && (ReaderInCopy(s.reader) || WriterInCopy(s.writer))
    ensures !Stale(s.purgers, 1, 1) && !Stale(s.purgers, 1, 2)
  {
    var c := Project(s);
    assert Handshake(c) && (c.rk.KIn? || c.wk.KIn?);
    forall i | 0 <= i < |s.purgers| ensures !s.purgers[i].Resetting? { assert !Quieted(c.purgers[i]); }
  }

  /** Reset() has begun to store. */
  predicate Touching(p: Purger) { p.Resetting? && p.stores >= 1 }

  /** The shared bytes and positions, and the purgers as far as they matter. */
  ghost predicate SameRing(s: State, t: State) {
    && t.buf == s.buf && t.head == s.head && t.tail == s.tail && t.actual == s.actual
    && t.accepted == s.accepted && t.delivered == s.delivered
    && |t.purgers| == |s.purgers|
    && (forall i :: 0 <= i < |s.purgers| ==>
          t.purgers[i] == s.purgers[i] || (!Touching(s.purgers[i]) && !Touching(t.purgers[i])))
  }

  lemma SameStale(s: State, t: State)
    requires SameRing(s, t)
    ensures Stale(t.purgers, 1, 1) == Stale(s.purgers, 1, 1) && Stale(t.purgers, 1, 2) == Stale(s.purgers, 1, 2)
  {
    if Stale(s.purgers, 1, 2) {
      var i :| 0 <= i < |s.purgers| && s.purgers[i].Resetting? && 1 <= s.purgers[i].stores <= 2;
      assert t.purgers[i] == s.purgers[i];
    }
    if Stale(s.purgers, 1, 1) {
      var i :| 0 <= i < |s.purgers| && s.purgers[i].Resetting? && 1 <= s.purgers[i].stores <= 1;
      assert t.purgers[i] == s.purgers[i];
    }
  }

  /** A step that touches neither bytes nor positions. */
  lemma RingKept(s: State, t: State)
    requires DataInv(s) && SameRing(s, t)
    requires ReaderOk(t.reader, s.accepted, |s.delivered|, |s.buf|) && ReaderAhead(t.reader) == ReaderAhead(s.reader)
    requires WriterOk(t.writer, s.buf, |s.accepted|, |s.delivered|) && WriterAhead(t.writer) == WriterAhead(s.writer)
    ensures DataInv(t)
  {
    SameStale(s, t);
    assert forall i :: 0 <= i < |t.purgers| && Touching(t.purgers[i]) ==> t.purgers[i] == s.purgers[i];
  }

  ghost predicate Settled(s: State) {
    DataInv(s) && !Stale(s.purgers, 1, 1) && !Stale(s.purgers, 1, 2)
  }

  // ----- the reader ---------------------------------------------------------

  lemma ReaderCopiesByte(s: State, want: nat)
    requires Settled(s) && s.reader.RCopying? && |s.reader.got| < s.reader.size
    ensures DataInv(ReaderStep(s, want)) && ReaderStep(s, want) != s
  {
    var RCopying(start, size, got) := s.reader;
    var t, cap := |s.delivered|, |s.buf|;
    AddressIsMod(t, size, |got|, cap);
    var next := got + [s.buf[Mod(t + |got|, cap)]];
    assert next == s.accepted[t..t + |next|];
    assert ReaderStep(s, want) == s.(reader := RCopying(start, size, next));
    RingKept(s, s.(reader := RCopying(start, size, next)));
  }

  lemma ReaderStoresHead(s: State, want: nat)
    requires Settled(s) && s.reader.RCopying? && |s.reader.got| == s.reader.size
    ensures DataInv(ReaderStep(s, want)) && ReaderStep(s, want) != s
  {
    AfterIsMod(|s.delivered|, s.reader.size, |s.buf|);
  }

  lemma ReaderPublishes(s: State, want: nat)
    requires Settled(s) && s.reader.RStored?
    ensures DataInv(ReaderStep(s, want))
  {
    var got, t := s.reader.got, |s.delivered|;
    assert s.accepted[..t] + s.accepted[t..t + |got|] == s.accepted[..t + |got|];
    assert s.delivered + got == s.accepted[..t + |got|];
  }

  lemma ReaderData(s: State, want: nat)
    requires CtlInv(Project(s)) && DataInv(s)
    ensures DataInv(ReaderStep(s, want))
  {
    if ReaderInCopy(s.reader) { InsideNotStale(s); }
    if s.reader.RCopying? {
      if |s.reader.got| < s.reader.size { ReaderCopiesByte(s, want); } else { ReaderStoresHead(s, want); }
    } else if s.reader.RStored? {
      ReaderPublishes(s, want);
    } else {
      ReaderElsewhere(s, want);
    }
  }

  /** Outside the copy a reader only moves its own place, or wakes purgers. */
  lemma ReaderPassing(s: State, want: nat)
    requires s.delivered <= s.accepted && s.actual == |s.accepted| - |s.delivered|
    requires !s.reader.RCopying? && !s.reader.RStored? && ReaderOk(s.reader, s.accepted, |s.delivered|, |s.buf|)
    requires s.reader.RSized? ==> s.head == Mod(|s.delivered|, |s.buf|)
    ensures var t := ReaderStep(s, want);
            && SameRing(s, t) && t.writer == s.writer
            && ReaderOk(t.reader, s.accepted, |s.delivered|, |s.buf|) && !t.reader.RStored?
  {
    match s.reader
    case RIdle =>
    case RCounted(n) =>
    case RInside(n) =>
    case RSized(n, avail) =>
    case RExit(phase) => match phase { case Leaving => case Testing => case Locking => case Notifying => }
  }

  lemma ReaderElsewhere(s: State, want: nat)
    requires DataInv(s) && !s.reader.RCopying? && !s.reader.RStored?
    requires ReaderInCopy(s.reader) ==> Settled(s)
    ensures DataInv(ReaderStep(s, want))
  {
    ReaderPassing(s, want);
    RingKept(s, ReaderStep(s, want));
  }

  // ----- the writer ---------------------------------------------------------

  /** A byte stored behind the unread ones disturbs none of them. */
  lemma StoreBehind(buf: seq<byte>, accepted: seq<byte>, t: nat, k: nat, b: byte)
    requires Contents(buf, accepted, t) && |accepted| - t + k < |buf|
    ensures Contents(buf[Mod(|accepted| + k, |buf|) := b], accepted, t)
  {
    var w, cap := |accepted|, |buf|;
    forall j | t <= j < w ensures Mod(j, cap) != Mod(w + k, cap) { ModDiffer(j, w + k, cap); }
  }

  lemma StoreNext(buf: seq<byte>, w: nat, data: seq<byte>, done: nat)
    requires Pending(buf, w, data, done) && done < |data| && done < |buf|
    ensures Pending(buf[Mod(w + done, |buf|) := data[done]], w, data, done + 1)
  {
    var a, cap := Mod(w + done, |buf|), |buf|;
    var now := buf[a := data[done]];
    forall k | 0 <= k < done + 1
      ensures StoredAt(now, w, data, k)
    {
      if k < done {
        assert StoredAt(buf, w, data, k);
        ModDiffer(w + k, w + done, cap);
      }
    }
  }

  lemma WriterCopiesByte(s: State, more: seq<byte>)
    requires Settled(s) && s.writer.WCopying? && s.writer.done < s.writer.size
    ensures DataInv(WriterStep(s, more)) && WriterStep(s, more) != s
  {
    var WCopying(start, size, data, done) := s.writer;
    var w, cap := |s.accepted|, |s.buf|;
    AddressIsMod(w, size, done, cap);
    assert WriterStep(s, more) == ByteStored(s);
    StoreBehind(s.buf, s.accepted, |s.delivered|, done, data[done]);
    StoreNext(s.buf, w, data, done);
    ByteStoredKeeps(s);
  }

  function ByteStored(s: State): State
    requires s.writer.WCopying? && s.writer.done < |s.writer.data|
    requires Mod(|s.accepted| + s.writer.done, |s.buf|) < |s.buf|
  {
    var WCopying(start, size, data, done) := s.writer;
    s.(buf := s.buf[Mod(|s.accepted| + done, |s.buf|) := data[done]], writer := WCopying(start, size, data, done + 1))
  }

  lemma ByteStoredKeeps(s: State)
    requires DataInv(s) && s.writer.WCopying? && s.writer.done < s.writer.size <= |s.writer.data|
    requires Mod(|s.accepted| + s.writer.done, |s.buf|) < |s.buf|
    requires var t := ByteStored(s);
             && Contents(t.buf, s.accepted, |s.delivered|)
             && Pending(t.buf, |s.accepted|, s.writer.data, s.writer.done + 1)
    ensures DataInv(ByteStored(s))
  {}

  lemma WriterStoresTail(s: State, more: seq<byte>)
    requires Settled(s) && s.writer.WCopying? && s.writer.done == s.writer.size
    ensures DataInv(WriterStep(s, more)) && WriterStep(s, more) != s
  {
    AfterIsMod(|s.accepted|, s.writer.size, |s.buf|);
  }

  /** Published bytes join the unread ones. */
  lemma ContentsGrow(buf: seq<byte>, accepted: seq<byte>, t: nat, data: seq<byte>, size: nat)
    requires Contents(buf, accepted, t) && Pending(buf, |accepted|, data, size) && |accepted| - t + size <= |buf|
    ensures Contents(buf, accepted + data[..size], t)
  {
    var w, cap, now := |accepted|, |buf|, accepted + data[..size];
    forall j | t <= j < |now| ensures 0 <= Mod(j, cap) < cap && buf[Mod(j, cap)] == now[j] {
      if j >= w { assert StoredAt(buf, w, data, j - w); }
    }
  }

  /** More bytes behind change nothing for a reader. */
  lemma ReaderUnmoved(r: Reader, accepted: seq<byte>, t: nat, cap: nat, more: seq<byte>)
    requires t <= |accepted| && ReaderOk(r, accepted, t, cap)
    ensures ReaderOk(r, accepted + more, t, cap)
  {
    if r.RCopying? || r.RStored? {
      var k := |r.got|;
      assert (accepted + more)[t..t + k] == accepted[t..t + k];
    }
  }

  lemma WriterPublishes(s: State, more: seq<byte>)
    requires Settled(s) && s.writer.WStored?
    ensures DataInv(WriterStep(s, more)) && WriterStep(s, more) != s
  {
    var WStored(size, data) := s.writer;
    ContentsGrow(s.buf, s.accepted, |s.delivered|, data, size);
    ReaderUnmoved(s.reader, s.accepted, |s.delivered|, |s.buf|, data[..size]);
  }

  /** Outside the copy a writer only moves its own place, or wakes purgers. */
  lemma WriterPassing(s: State, more: seq<byte>)
    requires s.delivered <= s.accepted && 0 <= s.actual == |s.accepted| - |s.delivered| <= |s.buf|
    requires !s.writer.WCopying? && !s.writer.WStored? && WriterOk(s.writer, s.buf, |s.accepted|, |s.delivered|)
    requires s.writer.WSized? ==> s.tail == Mod(|s.accepted|, |s.buf|)
    ensures var t := WriterStep(s, more);
            && SameRing(s, t) && t.reader == s.reader
            && WriterOk(t.writer, s.buf, |s.accepted|, |s.delivered|) && !t.writer.WStored?
  {
    match s.writer
    case WIdle =>
    case WCounted(d) =>
    case WInside(d) =>
    case WSized(d, used) =>
    case WExit(phase) => match phase { case Leaving => case Testing => case Locking => case Notifying => }
  }

  lemma WriterElsewhere(s: State, more: seq<byte>)
    requires DataInv(s) && !s.writer.WCopying? && !s.writer.WStored?
    requires WriterInCopy(s.writer) ==> Settled(s)
    ensures DataInv(WriterStep(s, more))
  {
    WriterPassing(s, more);
    RingKept(s, WriterStep(s, more));
  }

  lemma WriterData(s: State, more: seq<byte>)
    requires CtlInv(Project(s)) && DataInv(s)
    ensures DataInv(WriterStep(s, more))
  {
    if WriterInCopy(s.writer) { InsideNotStale(s); }
    if s.writer.WCopying? {
      if s.writer.done < s.writer.size { WriterCopiesByte(s, more); } else { WriterStoresTail(s, more); }
    } else if s.writer.WStored? {
      WriterPublishes(s, more);
    } else {
      WriterElsewhere(s, more);
    }
  }

  // ----- purgers ------------------------------------------------------------

  /** The first store, of the size. */
  lemma PurgerResetsSize(s: State, i: nat, choice: bool)
    requires CtlInv(Project(s)) && DataInv(s) && i < |s.purgers| && s.purgers[i] == Resetting(0)
    ensures DataInv(PurgerStep(s, i, choice))
  {
    OthersAway(Project(s), i);
    assert Quieted(Project(s).purgers[i]);
    var t := PurgerStep(s, i, choice);
    assert t.purgers[i] == Resetting(1);
    assert forall j :: 0 <= j < |s.purgers| && j != i ==> t.purgers[j].Away?;
    assert Stale(t.purgers, 1, 1) && Stale(t.purgers, 1, 2);
  }

  /** The second and the third, of the positions. */
  lemma PurgerResetsHead(s: State, i: nat, choice: bool)
    requires CtlInv(Project(s)) && DataInv(s) && i < |s.purgers| && s.purgers[i] == Resetting(1)
    ensures DataInv(PurgerStep(s, i, choice))
  {
    OthersAway(Project(s), i);
    assert Quieted(Project(s).purgers[i]);
    var t := PurgerStep(s, i, choice);
    assert t.purgers[i] == Resetting(2);
    assert forall j :: 0 <= j < |s.purgers| && j != i ==> t.purgers[j].Away?;
    assert Stale(s.purgers, 1, 2) && Stale(t.purgers, 1, 2);
  }

  lemma PurgerResetsTail(s: State, i: nat, choice: bool)
    requires CtlInv(Project(s)) && DataInv(s) && i < |s.purgers| && s.purgers[i] == Resetting(2)
    ensures DataInv(PurgerStep(s, i, choice))
  {
    OthersAway(Project(s), i);
    assert Quieted(Project(s).purgers[i]);
    var t := PurgerStep(s, i, choice);
    assert forall j :: 0 <= j < |s.purgers| && j != i ==> s.purgers[j].Away? && t.purgers[j].Away?;
    assert Stale(s.purgers, 1, 2) && !Stale(s.purgers, 1, 1);
  }

  lemma PurgerResets(s: State, i: nat, choice: bool)
    requires CtlInv(Project(s)) && DataInv(s) && i < |s.purgers| && s.purgers[i].Resetting?
    ensures DataInv(PurgerStep(s, i, choice))
  {
    var k := s.purgers[i].stores;
    assert k <= 2;
    if k == 0 { PurgerResetsSize(s, i, choice); }
    else if k == 1 { PurgerResetsHead(s, i, choice); }
    else { PurgerResetsTail(s, i, choice); }
  }

  lemma PurgerData(s: State, i: nat, choice: bool)
    requires CtlInv(Project(s)) && DataInv(s) && i < |s.purgers|
    ensures DataInv(PurgerStep(s, i, choice))
  {
    if s.purgers[i].Resetting? {
      PurgerResets(s, i, choice);
    } else {
      PurgerPassing(s, i, choice);
      RingKept(s, PurgerStep(s, i, choice));
    }
  }

  /** The steps of a purger that write nothing but its own place, the flag and the
      lock. */
  lemma PurgerPassing(s: State, i: nat, choice: bool)
    requires i < |s.purgers| && !s.purgers[i].Resetting?
    ensures var t := PurgerStep(s, i, choice);
            SameRing(s, t) && t.reader == s.reader && t.writer == s.writer
  {
    if s.purgers[i].Away? || s.purgers[i].Raised? || s.purgers[i].Asleep? || s.purgers[i].Woken? {
      PurgerPauses(s, i, choice);
    } else {
      var t := PurgerStep(s, i, choice);
      assert forall j :: 0 <= j < |s.purgers| && j != i ==> t.purgers[j] == s.purgers[j];
      match s.purgers[i] case Checking => case Dozing => case Quiet => case GaveUp => case Lowering =>
    }
  }

  lemma PurgerPauses(s: State, i: nat, choice: bool)
    requires i < |s.purgers|
    requires s.purgers[i].Away? || s.purgers[i].Raised? || s.purgers[i].Asleep? || s.purgers[i].Woken?
    ensures var t := PurgerStep(s, i, choice);
            SameRing(s, t) && t.reader == s.reader && t.writer == s.writer
  {
    var t := PurgerStep(s, i, choice);
    assert forall j :: 0 <= j < |s.purgers| && j != i ==> t.purgers[j] == s.purgers[j];
    match s.purgers[i] case Away => case Raised => case Asleep => case Woken =>
  }

  // ----- all interleavings --------------------------------------------------

  ghost predicate Inv(s: State) { CtlInv(Project(s)) && DataInv(s) }

  lemma InvStep(s: State, m: Move)
    requires Inv(s)
    ensures Inv(Next(s, m))
  {
    ControlStep(s, m);
    match m
    case Read(want) => ReaderData(s, want);
    case Write(data) => WriterData(s, data);
    case Purge(i, choice) => if i < |s.purgers| { PurgerData(s, i, choice); }
    case SetRunning(on) => RingKept(s, s.(running := on));
  }

  lemma InvInit(buf: seq<byte>, purgers: nat)
    ensures Inv(Init(buf, purgers))
  {}

  lemma CopiesInBuffer(pos: nat, size: nat, cap: nat)
    requires 0 < size <= cap
    ensures InBuffer(Mod(pos, cap), size, cap)
  {
    forall k | 0 <= k < size ensures 0 <= Address(Mod(pos, cap), size, k, cap) < cap {
      AddressIsMod(pos, size, k, cap);
    }
    AfterIsMod(pos, size, cap);
  }

  /** The reader works on bytes [t, t+m), the writer on [w, w+n), less than one
      capacity apart. */
  lemma CopiesApart(t: nat, m: nat, w: nat, n: nat, cap: nat)
    requires t + m <= w && w + n <= t + cap && 0 < m && 0 < n
    ensures forall j, k :: 0 <= j < m && 0 <= k < n ==>
              Address(Mod(t, cap), m, j, cap) != Address(Mod(w, cap), n, k, cap)
  {
    forall j, k | 0 <= j < m && 0 <= k < n
      ensures Address(Mod(t, cap), m, j, cap) != Address(Mod(w, cap), n, k, cap)
    {
      AddressIsMod(t, m, j, cap);
      AddressIsMod(w, n, k, cap);
      ModDiffer(t + j, w + k, cap);
    }
  }

  lemma CopiesSafe(s: State)
    requires DataInv(s)
    ensures s.reader.RCopying? ==> InBuffer(s.reader.start, s.reader.size, |s.buf|)
    ensures s.writer.WCopying? ==> InBuffer(s.writer.start, s.writer.size, |s.buf|) && s.writer.size <= |s.writer.data|
    ensures s.reader.RCopying? && s.writer.WCopying? ==>
              forall j, k :: 0 <= j < s.reader.size && 0 <= k < s.writer.size ==>
                Address(s.reader.start, s.reader.size, j, |s.buf|) != Address(s.writer.start, s.writer.size, k, |s.buf|)
  {
    var t, w, cap := |s.delivered|, |s.accepted|, |s.buf|;
    if s.reader.RCopying? { CopiesInBuffer(t, s.reader.size, cap); }
    if s.writer.WCopying? { CopiesInBuffer(w, s.writer.size, cap); }
    if s.reader.RCopying? && s.writer.WCopying? {
      CopiesApart(t, s.reader.size, w, s.writer.size, cap);
    }
  }

  lemma HandshakeSafe(s: State)
    requires CtlInv(Project(s))
    ensures forall i :: 0 <= i < |s.purgers| && s.purgers[i].Resetting? ==>
              !ReaderInCopy(s.reader) && !WriterInCopy(s.writer)
    ensures s.rw == 0 && !AboutToNotify(s) ==> forall i :: 0 <= i < |s.purgers| ==> !s.purgers[i].Asleep?
  {
    var c := Project(s);
    assert Handshake(c);
    forall i | 0 <= i < |s.purgers|
      ensures s.purgers[i].Resetting? ==> !ReaderInCopy(s.reader) && !WriterInCopy(s.writer)
      ensures s.rw == 0 && !AboutToNotify(s) ==> !s.purgers[i].Asleep?
    {
      assert Quieted(c.purgers[i]) ==> !c.rk.KIn? && !c.wk.KIn?;
      assert Sleeps(c.purgers[i]) && c.rw == 0 ==> Notifies(c.rk) || Notifies(c.wk);
    }
  }

  lemma InvSafe(s: State)
    requires Inv(s)
    ensures Safe(s)
  {
    CopiesSafe(s);
    HandshakeSafe(s);
  }

  /** Main theorem: every state of every interleaving of one reader, one writer and
      any number of purgers, whatever they are asked to do, is safe. */
  lemma {:induction false} AlwaysSafe(buf: seq<byte>, purgers: nat, ms: seq<Move>)
    ensures Inv(Run(Init(buf, purgers), ms)) && Safe(Run(Init(buf, purgers), ms))
  {
    if |ms| == 0 {
      InvInit(buf, purgers);
    } else {
      AlwaysSafe(buf, purgers, ms[..|ms| - 1]);
      InvStep(Run(Init(buf, purgers), ms[..|ms| - 1]), ms[|ms| - 1]);
    }
    InvSafe(Run(Init(buf, purgers), ms));
  }
}
