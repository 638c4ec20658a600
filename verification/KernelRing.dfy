/** The kernel's byte ring: one reader, one writer and a reset that waits for them
    but does not keep them out. A copy to the user is taken to be complete. */
module KernelRing {
  import opened Bytes
  import RB = RingBuffer

  /** ringbuffer_reset(): it waits until nobody is inside, then stores three times. */
  datatype Resetter = Resting | Waiting | Storing(stores: nat)

  /** The users go through the steps of the other ring, without its look at a flag:
      a reader is inside once it is counted; a writer first looks at `mode`
      (`WCounted`), and is counted then. */
  datatype Ring = Ring(
    buf: seq<byte>, head: nat, tail: nat, actual: int, rw: int, mode: nat,
    reader: RB.Reader, writer: RB.Writer, resetter: Resetter,
    accepted: seq<byte>, delivered: seq<byte>)

  function Fresh(buf: seq<byte>): Ring { Ring(buf, 0, 0, 0, 0, 0, RB.RIdle, RB.WIdle, Resting, [], []) }

  /** A signed counter read into an unsigned 64-bit size. */
  function SizeT(n: int): nat
    requires -0x8000_0000 <= n
  {
    if n >= 0 then n else n + 0x1_0000_0000_0000_0000
  }

  function ReadStep(r: Ring, want: nat): Ring {
    match r.reader
    case RIdle => r.(rw := r.rw + 1, reader := RB.RInside(want))
    case RInside(n) => if r.actual < -0x8000_0000 then r else r.(reader := RB.RSized(n, SizeT(r.actual)))
    case RSized(n, avail) =>
      var size := if n <= avail then n else avail;
      r.(reader := if size == 0 then RB.RExit(RB.Leaving) else RB.RCopying(r.head, size, []))
    case RCopying(start, size, got) =>
      var a := RB.Address(start, size, |got|, |r.buf|);
      if |got| < size then
        if 0 <= a < |r.buf| then r.(reader := RB.RCopying(start, size, got + [r.buf[a]])) else r
      else if RB.After(start, size, |r.buf|) < 0 then r
      else r.(head := RB.After(start, size, |r.buf|), reader := RB.RStored(got))
    case RStored(got) =>
      r.(actual := r.actual - |got|, delivered := r.delivered + got, reader := RB.RExit(RB.Leaving))
    case RExit(_) => r.(rw := r.rw - 1, reader := RB.RIdle)
    case RCounted(_) => r
  }

  /** A writer that meets a negative size is not followed any further. */
  function WriteStep(r: Ring, data: seq<byte>): Ring {
    match r.writer
    case WIdle => if r.mode == 2 then r.(writer := RB.WCounted(data)) else r
    case WCounted(d) => r.(rw := r.rw + 1, writer := RB.WInside(d))
    case WInside(d) => if r.actual < 0 then r else r.(writer := RB.WSized(d, r.actual))
    case WSized(d, used) =>
      var size := if used + |d| <= |r.buf| then |d| else |r.buf| - used;
      r.(writer := if size <= 0 then RB.WExit(RB.Leaving) else RB.WCopying(r.tail, size, d, 0))
    case WCopying(start, size, d, done) =>
      var a := RB.Address(start, size, done, |r.buf|);
      if done < size then
        if 0 <= a < |r.buf| && done < |d|
        then r.(buf := r.buf[a := d[done]], writer := RB.WCopying(start, size, d, done + 1)) else r
      else if RB.After(start, size, |r.buf|) < 0 then r
      else r.(tail := RB.After(start, size, |r.buf|), writer := RB.WStored(size, d))
    case WStored(size, d) =>
      if size > |d| then r
      else r.(actual := r.actual + size, accepted := r.accepted + d[..size], writer := RB.WExit(RB.Leaving))
    case WExit(_) => r.(rw := r.rw - 1, writer := RB.WIdle)
  }

  /** A reset is refused while the ring is started. */
  function ResetStep(r: Ring): Ring {
    match r.resetter
    case Resting => if r.mode == 0 then r.(resetter := Waiting) else r
    case Waiting => if r.rw == 0 then r.(resetter := Storing(0)) else r
    case Storing(k) =>
      if k == 0 then r.(actual := 0, accepted := [], delivered := [], resetter := Storing(1))
      else if k == 1 then r.(head := 0, resetter := Storing(2))
      else r.(tail := 0, resetter := Resting)
  }

  datatype Move = Read(want: nat) | Write(data: seq<byte>) | Reset | SetMode(mode: nat)

  function Next(r: Ring, m: Move): Ring {
    match m
    case Read(want) => ReadStep(r, want)
    case Write(data) => WriteStep(r, data)
    case Reset => ResetStep(r)
    case SetMode(mode) => r.(mode := mode)
  }

  function Run(r: Ring, ms: seq<Move>): Ring {
    if |ms| == 0 then r else Next(Run(r, ms[..|ms| - 1]), ms[|ms| - 1])
  }

  // ----- the property and its condition -------------------------------------

  predicate ReaderInside(r: Ring) { !r.reader.RIdle? }
  predicate WriterInside(r: Ring) { !r.writer.WIdle? && !r.writer.WCounted? }

  /** No store of a reset falls into a call. */
  predicate Alone(r: Ring) { r.resetter.Storing? ==> !ReaderInside(r) && !WriterInside(r) }

  /** The move counts a user in while a reset is past its check. */
  predicate Late(r: Ring, m: Move) {
    r.resetter.Storing? && ((m.Read? && r.reader.RIdle?) || (m.Write? && r.writer.WCounted?))
  }

  // ----- what really matters ------------------------------------------------

  /** The reset has stored the size, and not yet both positions. */
  predicate Between(r: Ring) { r.resetter.Storing? && r.resetter.stores >= 1 }

  /** A reader that has found bytes, a writer that has loaded its position. */
  predicate ReaderLoaded(r: Ring) {
    (r.reader.RSized? && r.reader.avail > 0) || r.reader.RCopying? || r.reader.RStored?
  }

  predicate WriterLoaded(r: Ring) { r.writer.WCopying? || r.writer.WStored? }

  /** No transfer crosses the stores of a reset. */
  predicate Clean(r: Ring) { Between(r) ==> r.actual == 0 && !ReaderLoaded(r) && !WriterLoaded(r) }

  /** A writer about to load its position for something to write. */
  predicate WriterStarts(r: Ring) { r.writer.WSized? && |r.writer.data| > 0 && r.writer.used < |r.buf| }

  /** The first store takes the size from under a transfer, or a transfer starts
      between the stores. */
  predicate Harmful(r: Ring, m: Move) {
    || (m.Reset? && r.resetter == Storing(0) && (ReaderLoaded(r) || WriterLoaded(r)))
    || (m.Write? && Between(r) && WriterStarts(r))
  }

  function Before(buf: seq<byte>, ms: seq<Move>, j: nat): Ring
    requires j <= |ms|
  {
    Run(Fresh(buf), ms[..j])
  }

  ghost predicate AlwaysAlone(buf: seq<byte>, ms: seq<Move>) {
    forall j :: 0 <= j <= |ms| ==> Alone(Before(buf, ms, j))
  }

  ghost predicate NobodyLate(buf: seq<byte>, ms: seq<Move>) {
    forall j :: 0 <= j < |ms| ==> !Late(Before(buf, ms, j), ms[j])
  }

  ghost predicate AlwaysClean(buf: seq<byte>, ms: seq<Move>) {
    forall j :: 0 <= j <= |ms| ==> Clean(Before(buf, ms, j))
  }

  ghost predicate NothingHarmful(buf: seq<byte>, ms: seq<Move>) {
    forall j :: 0 <= j < |ms| ==> !Harmful(Before(buf, ms, j), ms[j])
  }

  // ----- counting -----------------------------------------------------------

  function One(b: bool): nat { if b then 1 else 0 }

  predicate Counted(r: Ring) {
    && r.rw == One(ReaderInside(r)) + One(WriterInside(r)) && !r.reader.RCounted?
    && (r.resetter.Storing? ==> r.resetter.stores <= 2)
    && (r.reader.RExit? ==> r.reader.phase.Leaving?) && (r.writer.WExit? ==> r.writer.phase.Leaving?)
  }

  lemma CountedStep(r: Ring, m: Move)
    requires Counted(r)
    ensures Counted(Next(r, m))
    ensures Alone(r) ==> (Alone(Next(r, m)) <==> !Late(r, m))
  {}

  lemma BeforeNext(buf: seq<byte>, ms: seq<Move>, j: nat)
    requires j < |ms|
    ensures Before(buf, ms, j + 1) == Next(Before(buf, ms, j), ms[j])
  {
    assert ms[..j + 1][..j] == ms[..j];
  }

  lemma {:induction false} CountedRun(buf: seq<byte>, ms: seq<Move>, j: nat)
    requires j <= |ms|
    ensures Counted(Before(buf, ms, j))
  {
    if j > 0 {
      CountedRun(buf, ms, j - 1);
      BeforeNext(buf, ms, j - 1);
      CountedStep(Before(buf, ms, j - 1), ms[j - 1]);
    }
  }

  /** Up to step `j` the two conditions run in parallel. */
  lemma {:induction false} AloneUpTo(buf: seq<byte>, ms: seq<Move>, j: nat)
    requires j <= |ms| && forall i :: 0 <= i < j ==> !Late(Before(buf, ms, i), ms[i])
    ensures Alone(Before(buf, ms, j))
  {
    if j > 0 {
      AloneUpTo(buf, ms, j - 1);
      CountedRun(buf, ms, j - 1);
      BeforeNext(buf, ms, j - 1);
      CountedStep(Before(buf, ms, j - 1), ms[j - 1]);
    }
  }

  /** A reset runs outside all calls exactly when no call is counted in between its
      check and its last store: nothing in the ring keeps one out. */
  lemma AloneExactly(buf: seq<byte>, ms: seq<Move>)
    ensures AlwaysAlone(buf, ms) <==> NobodyLate(buf, ms)
  {
    if NobodyLate(buf, ms) {
      forall j | 0 <= j <= |ms| ensures Alone(Before(buf, ms, j)) { AloneUpTo(buf, ms, j); }
    }
    if AlwaysAlone(buf, ms) {
      forall j | 0 <= j < |ms| ensures !Late(Before(buf, ms, j), ms[j]) {
        CountedRun(buf, ms, j);
        BeforeNext(buf, ms, j);
        CountedStep(Before(buf, ms, j), ms[j]);
        assert Alone(Before(buf, ms, j)) && Alone(Before(buf, ms, j + 1));
      }
    }
  }

  lemma CleanStep(r: Ring, m: Move)
    requires Counted(r) && Clean(r)
    ensures Clean(Next(r, m)) <==> !Harmful(r, m)
  {
    match m
    case Read(want) =>
    case Write(data) => if r.writer.WSized? { assert WriterStarts(r) <==> WriteStep(r, data).writer.WCopying?; }
    case Reset =>
    case SetMode(mode) =>
  }

  lemma {:induction false} CleanUpTo(buf: seq<byte>, ms: seq<Move>, j: nat)
    requires j <= |ms| && forall i :: 0 <= i < j ==> !Harmful(Before(buf, ms, i), ms[i])
    ensures Clean(Before(buf, ms, j))
  {
    if j > 0 {
      CleanUpTo(buf, ms, j - 1);
      CountedRun(buf, ms, j - 1);
      BeforeNext(buf, ms, j - 1);
      CleanStep(Before(buf, ms, j - 1), ms[j - 1]);
    }
  }

  /** No transfer crosses the stores of a reset exactly when no first store meets a
      transfer and no transfer starts between the stores. */
  lemma CleanExactly(buf: seq<byte>, ms: seq<Move>)
    ensures AlwaysClean(buf, ms) <==> NothingHarmful(buf, ms)
  {
    if NothingHarmful(buf, ms) {
      forall j | 0 <= j <= |ms| ensures Clean(Before(buf, ms, j)) { CleanUpTo(buf, ms, j); }
    }
    if AlwaysClean(buf, ms) {
      forall j | 0 <= j < |ms| ensures !Harmful(Before(buf, ms, j), ms[j]) {
        CountedRun(buf, ms, j);
        BeforeNext(buf, ms, j);
        CleanStep(Before(buf, ms, j), ms[j]);
        assert Clean(Before(buf, ms, j)) && Clean(Before(buf, ms, j + 1));
      }
    }
  }

  /** Only late calls can do harm. */
  lemma HarmIsLate(buf: seq<byte>, ms: seq<Move>)
    requires NobodyLate(buf, ms)
    ensures NothingHarmful(buf, ms)
  {
    forall j | 0 <= j < |ms| ensures !Harmful(Before(buf, ms, j), ms[j]) { AloneUpTo(buf, ms, j); }
  }
}
