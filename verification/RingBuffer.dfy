/** The lock-free byte ring of the WinUSB host: one reader, one writer and any
    number of purgers, interleaved at every access to a shared variable. */
module RingBuffer {
  import opened Bytes

  // ----- threads ------------------------------------------------------------

  /** NotifyIdle(): leave the count, look at `wait_`, take the lock, notify. */
  datatype Phase = Leaving | Testing | Locking | Notifying

  /** Read(). Local copies of shared variables go stale as the others run. */
  datatype Reader =
    | RIdle
    | RCounted(want: nat)                                          // ++rw_count_ done
    | RInside(want: nat)                                           // wait_ was false
    | RSized(want: nat, avail: nat)                                // actual_size_ loaded
    | RCopying(start: nat, size: nat, got: seq<byte>)              // head_ loaded, bytes copied so far
    | RStored(got: seq<byte>)                                      // head_ stored
    | RExit(phase: Phase)

  datatype Writer =
    | WIdle
    | WCounted(data: seq<byte>)
    | WInside(data: seq<byte>)
    | WSized(data: seq<byte>, used: nat)
    | WCopying(start: nat, size: nat, data: seq<byte>, done: nat)
    | WStored(size: nat, data: seq<byte>)
    | WExit(phase: Phase)

  /** Purge(). */
  datatype Purger =
    | Away
    | Raised                      // wait_ set by the compare-exchange
    | Checking                    // holds wait_lock_, about to look at rw_count_
    | Dozing                      // holds it, saw users, about to sleep or to give up
    | Asleep                      // waits on wait_cond_
    | Woken                       // about to take the lock again
    | Quiet                       // holds it, saw no users
    | GaveUp                      // holds it, time is over
    | Resetting(stores: nat)      // lock released, so many stores of Reset() done
    | Lowering                    // about to clear wait_

  datatype Holder = Free | ByReader | ByWriter | ByPurger(index: nat)

  /** `accepted` and `delivered` record the bytes written and read since the last
      reset; no step looks at them. */
  datatype State = State(
    buf: seq<byte>, head: nat, tail: nat, actual: int,
    waiting: bool, rw: int, lock: Holder, running: bool,
    reader: Reader, writer: Writer, purgers: seq<Purger>,
    accepted: seq<byte>, delivered: seq<byte>)

  function Init(buf: seq<byte>, purgers: nat): State {
    State(buf, 0, 0, 0, false, 0, Free, false, RIdle, WIdle, seq(purgers, _ => Away), [], [])
  }

  // ----- the copy arithmetic ------------------------------------------------

  /** Bytes before the end of the buffer. */
  function FirstPart(start: nat, size: nat, cap: nat): int {
    if start + size <= cap then size else cap - start
  }

  /** Where byte `k` of a copy of `size` bytes from `start` lives. */
  function Address(start: nat, size: nat, k: nat, cap: nat): int {
    if k < FirstPart(start, size, cap) then start + k else k - FirstPart(start, size, cap)
  }

  /** The position stored back after the copy. */
  function After(start: nat, size: nat, cap: nat): int {
    if FirstPart(start, size, cap) < size then size - FirstPart(start, size, cap)
    else if start + size == cap then 0 else start + size
  }

  // ----- steps --------------------------------------------------------------

  /** Every sleeper is woken. */
  function WakeAll(ps: seq<Purger>): (r: seq<Purger>)
    ensures |r| == |ps| && forall i :: 0 <= i < |ps| ==> r[i] == (if ps[i].Asleep? then Woken else ps[i])
  {
    seq(|ps|, i requires 0 <= i < |ps| => if ps[i].Asleep? then Woken else ps[i])
  }

  function ReaderStep(s: State, want: nat): State {
    match s.reader
    case RIdle => s.(rw := s.rw + 1, reader := RCounted(want))
    case RCounted(n) => if s.waiting then s.(reader := RExit(Leaving)) else s.(reader := RInside(n))
    case RInside(n) => if s.actual < 0 then s else s.(reader := RSized(n, s.actual))
    case RSized(n, avail) =>
      var size := if n <= avail then n else avail;
      if size == 0 then s.(reader := RExit(Leaving)) else s.(reader := RCopying(s.head, size, []))
    case RCopying(start, size, got) =>
      var a := Address(start, size, |got|, |s.buf|);
      if |got| < size then
        if 0 <= a < |s.buf| then s.(reader := RCopying(start, size, got + [s.buf[a]])) else s
      else if After(start, size, |s.buf|) < 0 then s
      else s.(head := After(start, size, |s.buf|), reader := RStored(got))
    case RStored(got) =>
      s.(actual := s.actual - |got|, delivered := s.delivered + got, reader := RExit(Leaving))
    case RExit(Leaving) =>
      s.(rw := s.rw - 1, reader := if s.rw - 1 != 0 then RIdle else RExit(Testing))
    case RExit(Testing) => s.(reader := if s.waiting then RExit(Locking) else RIdle)
    case RExit(Locking) => if s.lock.Free? then s.(lock := ByReader, reader := RExit(Notifying)) else s
    case RExit(Notifying) => s.(lock := Free, purgers := WakeAll(s.purgers), reader := RIdle)
  }

  function WriterStep(s: State, data: seq<byte>): State {
    match s.writer
    case WIdle => if !s.running then s else s.(rw := s.rw + 1, writer := WCounted(data))
    case WCounted(d) => if s.waiting then s.(writer := WExit(Leaving)) else s.(writer := WInside(d))
    case WInside(d) => if s.actual < 0 then s else s.(writer := WSized(d, s.actual))
    case WSized(d, used) =>
      var size := if used + |d| <= |s.buf| then |d| else |s.buf| - used;
      if size <= 0 then s.(writer := WExit(Leaving)) else s.(writer := WCopying(s.tail, size, d, 0))
    case WCopying(start, size, d, done) =>
      var a := Address(start, size, done, |s.buf|);
      if done < size then
        if 0 <= a < |s.buf| && done < |d|
        then s.(buf := s.buf[a := d[done]], writer := WCopying(start, size, d, done + 1)) else s
      else if After(start, size, |s.buf|) < 0 then s
      else s.(tail := After(start, size, |s.buf|), writer := WStored(size, d))
    case WStored(size, d) =>
      if size > |d| then s
      else s.(actual := s.actual + size, accepted := s.accepted + d[..size], writer := WExit(Leaving))
    case WExit(Leaving) =>
      s.(rw := s.rw - 1, writer := if s.rw - 1 != 0 then WIdle else WExit(Testing))
    case WExit(Testing) => s.(writer := if s.waiting then WExit(Locking) else WIdle)
    case WExit(Locking) => if s.lock.Free? then s.(lock := ByWriter, writer := WExit(Notifying)) else s
    case WExit(Notifying) => s.(lock := Free, purgers := WakeAll(s.purgers), writer := WIdle)
  }

  function SetPurger(s: State, i: nat, p: Purger): State
    requires i < |s.purgers|
  {
    s.(purgers := s.purgers[i := p])
  }

  /** `choice` decides what the clock and the scheduler decide: to give up instead
      of sleeping, to wake without a notification, and whether the lock throws. */
  function PurgerStep(s: State, i: nat, choice: bool): State
    requires i < |s.purgers|
  {
    match s.purgers[i]
    case Away => if s.waiting then s else SetPurger(s, i, Raised).(waiting := true)
    case Raised =>
      if choice then SetPurger(s, i, Away)      // an exception: wait_ stays set
      else if s.lock.Free? then SetPurger(s, i, Checking).(lock := ByPurger(i)) else s
    case Checking => SetPurger(s, i, if s.rw == 0 then Quiet else Dozing)
    case Dozing => if choice then SetPurger(s, i, GaveUp) else SetPurger(s, i, Asleep).(lock := Free)
    case Asleep => if choice then SetPurger(s, i, Woken) else s
    case Woken => if s.lock.Free? then SetPurger(s, i, Checking).(lock := ByPurger(i)) else s
    case Quiet => SetPurger(s, i, Resetting(0)).(lock := Free)
    case GaveUp => SetPurger(s, i, Lowering).(lock := Free)
    case Resetting(k) =>
      if k == 0 then SetPurger(s, i, Resetting(1)).(actual := 0, accepted := [], delivered := [])
      else if k == 1 then SetPurger(s, i, Resetting(2)).(head := 0)
      else SetPurger(s, i, Lowering).(tail := 0)
    case Lowering => SetPurger(s, i, Away).(waiting := false)
  }

  datatype Move = Read(want: nat) | Write(data: seq<byte>) | Purge(index: nat, choice: bool) | SetRunning(on: bool)

  function Next(s: State, m: Move): State {
    match m
    case Read(want) => ReaderStep(s, want)
    case Write(data) => WriterStep(s, data)
    case Purge(i, choice) => if i < |s.purgers| then PurgerStep(s, i, choice) else s
    case SetRunning(on) => s.(running := on)
  }

  /** The state after any interleaving of moves. */
  function Run(s: State, ms: seq<Move>): State {
    if |ms| == 0 then s else Next(Run(s, ms[..|ms| - 1]), ms[|ms| - 1])
  }

  // ----- safety -------------------------------------------------------------

  predicate ReaderInCopy(r: Reader) { r.RInside? || r.RSized? || r.RCopying? || r.RStored? }
  predicate WriterInCopy(w: Writer) { w.WInside? || w.WSized? || w.WCopying? || w.WStored? }

  predicate AboutToNotify(s: State) {
    || s.reader in {RExit(Testing), RExit(Locking), RExit(Notifying)}
    || s.writer in {WExit(Testing), WExit(Locking), WExit(Notifying)}
  }

  ghost predicate InBuffer(start: nat, size: nat, cap: nat) {
    && (forall k :: 0 <= k < size ==> 0 <= Address(start, size, k, cap) < cap)
    && After(start, size, cap) >= 0
  }

  /** What concerns the bytes. */
  ghost predicate DataSafe(s: State) {
    // a copy stays inside the buffer (so no guard of a step above ever holds a
    // thread back), and the two copies never touch
    && (s.reader.RCopying? ==> InBuffer(s.reader.start, s.reader.size, |s.buf|))
    && (s.writer.WCopying? ==> InBuffer(s.writer.start, s.writer.size, |s.buf|) && s.writer.size <= |s.writer.data|)
    && (s.reader.RCopying? && s.writer.WCopying? ==>
          forall j, k :: 0 <= j < s.reader.size && 0 <= k < s.writer.size ==>
            Address(s.reader.start, s.reader.size, j, |s.buf|) != Address(s.writer.start, s.writer.size, k, |s.buf|))
    // what was read since the last purge is a prefix of what was written since then
    && s.delivered <= s.accepted
    && s.actual == |s.accepted| - |s.delivered| && s.actual <= |s.buf|
  }

  ghost predicate Safe(s: State) {
    && DataSafe(s)
    // Reset() runs alone
    && (forall i :: 0 <= i < |s.purgers| && s.purgers[i].Resetting? ==>
          !ReaderInCopy(s.reader) && !WriterInCopy(s.writer))
    // no purger sleeps through the departure of the last user
    && (s.rw == 0 && !AboutToNotify(s) ==> forall i :: 0 <= i < |s.purgers| ==> !s.purgers[i].Asleep?)
  }
}
