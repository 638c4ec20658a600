/** Every interleaving of the ring buffer is safe. */
module RingBufferProof {
  import opened Bytes
  import opened RingBuffer

  // ----- positions modulo the capacity --------------------------------------

  function Mod(j: nat, cap: nat): (r: nat)
    ensures 0 < cap ==> r < cap
  {
    if cap == 0 then 0 else j % cap
  }

  lemma ModAdd(j: nat, k: nat, cap: nat)
    requires 0 < cap && k <= cap
    ensures Mod(j + k, cap) == if Mod(j, cap) + k < cap then Mod(j, cap) + k else Mod(j, cap) + k - cap
  {
    var r, q := j % cap, j / cap;
    assert j + k == q * cap + (r + k);
    if r + k < cap {
      DivModIs(q, r + k, cap);
    } else {
      assert j + k == (q + 1) * cap + (r + k - cap) by { assert (q + 1) * cap == q * cap + cap; }
      DivModIs(q + 1, r + k - cap, cap);
    }
  }

  lemma DivModIs(q: nat, r: nat, cap: nat)
    requires r < cap
    ensures (q * cap + r) % cap == r
  {
    var x := q * cap + r;
    var e := x / cap - q;
    assert x == x / cap * cap + x % cap;
    assert e * cap == x / cap * cap - q * cap;
    OnlyZeroMultiple(e, cap);
  }

  lemma OnlyZeroMultiple(e: int, cap: int)
    requires -cap < e * cap < cap
    ensures e == 0
  {}

  lemma ModDiffer(i: nat, j: nat, cap: nat)
    requires i < j < i + cap
    ensures Mod(i, cap) != Mod(j, cap)
  {
    ModAdd(i, j - i, cap);
  }

  /** The two-part copy walks the ring. */
  lemma AddressIsMod(j: nat, size: nat, k: nat, cap: nat)
    requires k < size <= cap
    ensures Address(Mod(j, cap), size, k, cap) == Mod(j + k, cap)
    ensures 0 <= Mod(j + k, cap) < cap
  {
    ModAdd(j, k, cap);
  }

  lemma AfterIsMod(j: nat, size: nat, cap: nat)
    requires 0 < size <= cap
    ensures After(Mod(j, cap), size, cap) == Mod(j + size, cap)
  {
    ModAdd(j, size, cap);
  }

  // ----- who is where -------------------------------------------------------

  /** How far a user of the ring has come, as far as purgers are concerned. */
  datatype Kind = KOut | KCounted | KIn | KLeave | KTest | KLock | KNotify

  function ExitKind(p: Phase): Kind {
    match p case Leaving => KLeave case Testing => KTest case Locking => KLock case Notifying => KNotify
  }

  function ReaderKind(r: Reader): Kind {
    match r
    case RIdle => KOut
    case RCounted(_) => KCounted
    case RExit(p) => ExitKind(p)
    case _ => KIn
  }

  function WriterKind(w: Writer): Kind {
    match w
    case WIdle => KOut
    case WCounted(_) => KCounted
    case WExit(p) => ExitKind(p)
    case _ => KIn
  }

  /** The handshake alone: what `wait_`, `rw_count_` and the lock are used for. */
  datatype Ctl = Ctl(waiting: bool, rw: int, lock: Holder, rk: Kind, wk: Kind, purgers: seq<Purger>)

  function Project(s: State): Ctl {
    Ctl(s.waiting, s.rw, s.lock, ReaderKind(s.reader), WriterKind(s.writer), s.purgers)
  }

  function Weight(k: Kind): nat { if k.KCounted? || k.KIn? || k.KLeave? then 1 else 0 }
  predicate Notifies(k: Kind) { k.KTest? || k.KLock? || k.KNotify? }
  predicate Holds(p: Purger) { p.Checking? || p.Dozing? || p.Quiet? || p.GaveUp? }
  predicate Quieted(p: Purger) { p.Quiet? || p.Resetting? }
  predicate Sleeps(p: Purger) { p.Dozing? || p.Asleep? }

  ghost predicate LockOk(c: Ctl) {
    && (c.lock == ByReader <==> c.rk.KNotify?)
    && (c.lock == ByWriter <==> c.wk.KNotify?)
    && (forall i :: 0 <= i < |c.purgers| ==> (c.lock == ByPurger(i) <==> Holds(c.purgers[i])))
    && (c.lock.ByPurger? ==> c.lock.index < |c.purgers|)
  }

  /** At most one purger is past its compare-exchange, and `wait_` tells of it. */
  ghost predicate OneRaised(c: Ctl) {
    && (forall i, j :: 0 <= i < j < |c.purgers| ==> c.purgers[i].Away? || c.purgers[j].Away?)
    && (forall i :: 0 <= i < |c.purgers| && !c.purgers[i].Away? ==> c.waiting)
  }

  ghost predicate Handshake(c: Ctl) {
    && (forall i :: 0 <= i < |c.purgers| && Quieted(c.purgers[i]) ==> !c.rk.KIn? && !c.wk.KIn?)
    && (forall i :: 0 <= i < |c.purgers| && Sleeps(c.purgers[i]) && c.rw == 0 ==> Notifies(c.rk) || Notifies(c.wk))
  }

  ghost predicate CtlInv(c: Ctl) {
    && c.rw == Weight(c.rk) + Weight(c.wk)
    && LockOk(c) && OneRaised(c) && Handshake(c)
  }

  /** One step of a user; `moving` resolves how long it stays inside or waits. */
  function UserNext(c: Ctl, me: Kind, mine: Holder, moving: bool): (r: (Ctl, Kind)) {
    match me
    case KOut => if moving then (c.(rw := c.rw + 1), KCounted) else (c, KOut)
    case KCounted => (c, if c.waiting then KLeave else KIn)
    case KIn => (c, if moving then KLeave else KIn)
    case KLeave => (c.(rw := c.rw - 1), if c.rw - 1 != 0 then KOut else KTest)
    case KTest => (c, if c.waiting then KLock else KOut)
    case KLock => if c.lock.Free? then (c.(lock := mine), KNotify) else (c, KLock)
    case KNotify => (c.(lock := Free, purgers := WakeAll(c.purgers)), KOut)
  }

  /** Waking everybody keeps the purgers' places in order. */
  lemma NotifyKeeps(c: Ctl, d: Ctl)
    requires CtlInv(c) && (c.lock == ByReader || c.lock == ByWriter)
    requires d == (if c.lock == ByReader then c.(rk := KOut) else c.(wk := KOut))
                  .(lock := Free, purgers := WakeAll(c.purgers))
    ensures CtlInv(d)
  {
    assert LockOk(d);
    assert OneRaised(d);
  }

  lemma ReaderKeeps(c: Ctl, moving: bool)
    requires CtlInv(c)
    ensures var (d, k) := UserNext(c, c.rk, ByReader, moving); CtlInv(d.(rk := k))
  {
    match c.rk
    case KOut =>
    case KCounted =>
    case KIn =>
    case KLeave =>
    case KTest =>
    case KLock =>
    case KNotify => NotifyKeeps(c, c.(rk := KOut, lock := Free, purgers := WakeAll(c.purgers)));
  }

  lemma WriterKeeps(c: Ctl, moving: bool)
    requires CtlInv(c)
    ensures var (d, k) := UserNext(c, c.wk, ByWriter, moving); CtlInv(d.(wk := k))
  {
    match c.wk
    case KOut =>
    case KCounted =>
    case KIn =>
    case KLeave =>
    case KTest =>
    case KLock =>
    case KNotify => NotifyKeeps(c, c.(wk := KOut, lock := Free, purgers := WakeAll(c.purgers)));
  }

  /** A purger's step as the handshake sees it: its new place, `wait_`, the lock. */
  function PurgerNext(c: Ctl, i: nat, choice: bool): (r: (Purger, bool, Holder))
    requires i < |c.purgers|
  {
    match c.purgers[i]
    case Away => if c.waiting then (Away, c.waiting, c.lock) else (Raised, true, c.lock)
    case Raised =>
      if choice then (Away, c.waiting, c.lock)
      else if c.lock.Free? then (Checking, c.waiting, ByPurger(i)) else (Raised, c.waiting, c.lock)
    case Checking => (if c.rw == 0 then Quiet else Dozing, c.waiting, c.lock)
    case Dozing => if choice then (GaveUp, c.waiting, c.lock) else (Asleep, c.waiting, Free)
    case Asleep => (if choice then Woken else Asleep, c.waiting, c.lock)
    case Woken => if c.lock.Free? then (Checking, c.waiting, ByPurger(i)) else (Woken, c.waiting, c.lock)
    case Quiet => (Resetting(0), c.waiting, Free)
    case GaveUp => (Lowering, c.waiting, Free)
    case Resetting(k) => (if k == 0 then Resetting(1) else if k == 1 then Resetting(2) else Lowering, c.waiting, c.lock)
    case Lowering => (Away, false, c.lock)
  }

  lemma OthersAway(c: Ctl, i: nat)
    requires OneRaised(c) && i < |c.purgers| && (!c.purgers[i].Away? || !c.waiting)
    ensures forall j :: 0 <= j < |c.purgers| && j != i ==> c.purgers[j].Away?
  {}

  lemma PurgerLock(c: Ctl, i: nat, choice: bool)
    requires CtlInv(c) && i < |c.purgers|
    ensures var (p, w, l) := PurgerNext(c, i, choice); LockOk(c.(purgers := c.purgers[i := p], waiting := w, lock := l))
  {}

  lemma PurgerHandshake(c: Ctl, i: nat, choice: bool)
    requires CtlInv(c) && i < |c.purgers|
    ensures var (p, w, l) := PurgerNext(c, i, choice);
            var d := c.(purgers := c.purgers[i := p], waiting := w, lock := l);
            OneRaised(d) && Handshake(d)
  {
    if c.purgers[i].Away? && c.waiting {
      assert c.purgers[i := Away] == c.purgers;
    } else {
      OthersAway(c, i);
    }
  }

  lemma PurgerKeeps(c: Ctl, i: nat, choice: bool)
    requires CtlInv(c) && i < |c.purgers|
    ensures var (p, w, l) := PurgerNext(c, i, choice); CtlInv(c.(purgers := c.purgers[i := p], waiting := w, lock := l))
  {
    PurgerLock(c, i, choice);
    PurgerHandshake(c, i, choice);
  }

  /** The handshake is all that a thread's step does to `Project`. */
  predicate ReaderProjected(s: State, want: nat) {
    var c, t := Project(s), ReaderStep(s, want);
    var (d, k) := UserNext(c, c.rk, ByReader, ReaderKind(t.reader) != c.rk);
    Project(t) == d.(rk := k)
  }

  lemma ReaderLeaves(s: State, want: nat)
    requires s.reader.RExit?
    ensures ReaderProjected(s, want)
  {
    match s.reader.phase case Leaving => case Testing => case Locking => case Notifying =>
  }

  lemma ReaderProjects(s: State, want: nat)
    ensures ReaderProjected(s, want)
  {
    match s.reader
    case RIdle =>
    case RCounted(n) =>
    case RInside(n) =>
    case RSized(n, avail) =>
    case RCopying(start, size, got) =>
    case RStored(got) =>
    case RExit(phase) => ReaderLeaves(s, want);
  }

  predicate WriterProjected(s: State, data: seq<byte>) {
    var c, t := Project(s), WriterStep(s, data);
    var (d, k) := UserNext(c, c.wk, ByWriter, WriterKind(t.writer) != c.wk);
    Project(t) == d.(wk := k)
  }

  lemma WriterLeaves(s: State, data: seq<byte>)
    requires s.writer.WExit?
    ensures WriterProjected(s, data)
  {
    match s.writer.phase case Leaving => case Testing => case Locking => case Notifying =>
  }

  lemma WriterProjects(s: State, data: seq<byte>)
    ensures WriterProjected(s, data)
  {
    match s.writer
    case WIdle =>
    case WCounted(d) =>
    case WInside(d) =>
    case WSized(d, used) =>
    case WCopying(start, size, d, done) =>
    case WStored(size, d) =>
    case WExit(phase) => WriterLeaves(s, data);
  }

  predicate PurgerProjected(s: State, i: nat, choice: bool)
    requires i < |s.purgers|
  {
    var c := Project(s);
    var (p, w, l) := PurgerNext(c, i, choice);
    Project(PurgerStep(s, i, choice)) == c.(purgers := c.purgers[i := p], waiting := w, lock := l)
  }

  /** A step that leaves the purger where it is, or takes the lock. */
  lemma PurgerWaits(s: State, i: nat, choice: bool)
    requires i < |s.purgers|
    requires s.purgers[i].Away? || s.purgers[i].Raised? || s.purgers[i].Asleep? || s.purgers[i].Woken?
    ensures PurgerProjected(s, i, choice)
  {
    assert s.purgers[i := s.purgers[i]] == s.purgers;
    match s.purgers[i] case Away => case Raised => case Asleep => case Woken =>
  }

  lemma PurgerProjects(s: State, i: nat, choice: bool)
    requires i < |s.purgers|
    ensures PurgerProjected(s, i, choice)
  {
    match s.purgers[i]
    case Checking =>
    case Dozing =>
    case Quiet =>
    case GaveUp =>
    case Resetting(k) =>
    case Lowering =>
    case _ => PurgerWaits(s, i, choice);
  }

  lemma ControlStep(s: State, m: Move)
    requires CtlInv(Project(s))
    ensures CtlInv(Project(Next(s, m)))
  {
    var c := Project(s);
    match m
    case Read(want) =>
      ReaderProjects(s, want);
      ReaderKeeps(c, ReaderKind(ReaderStep(s, want).reader) != c.rk);
    case Write(data) =>
      WriterProjects(s, data);
      WriterKeeps(c, WriterKind(WriterStep(s, data).writer) != c.wk);
    case Purge(i, choice) =>
      if i < |s.purgers| {
        PurgerProjects(s, i, choice);
        PurgerKeeps(c, i, choice);
      }
    case SetRunning(on) =>
  }
}
