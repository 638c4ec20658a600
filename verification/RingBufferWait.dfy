/** The flag that keeps users out: raised as long as somebody purges, and no longer. */
module RingBufferWait {
  import opened Bytes
  import opened RingBuffer
  import opened RingBufferProof
  import opened RingBufferData
  import opened RingBufferSolo

  /** A purger that has raised the flag leaves by an exception. */
  predicate Throws(s: State, m: Move) {
    m.Purge? && m.index < |s.purgers| && s.purgers[m.index].Raised? && m.choice
  }

  ghost predicate Purged(s: State) { exists i :: 0 <= i < |s.purgers| && !s.purgers[i].Away? }

  /** Some purger has thrown in the run. */
  predicate Threw(s: State, ms: seq<Move>) {
    |ms| > 0 && (Threw(s, ms[..|ms| - 1]) || Throws(Run(s, ms[..|ms| - 1]), ms[|ms| - 1]))
  }

  /** Who is purging, and what the flag says. */
  ghost predicate Flagged(s: State, threw: bool) {
    if threw then s.waiting && !Purged(s) else s.waiting <==> Purged(s)
  }

  lemma FlagUnmoved(s: State, t: State, threw: bool)
    requires Flagged(s, threw) && t.waiting == s.waiting && |t.purgers| == |s.purgers|
    requires forall i :: 0 <= i < |s.purgers| ==> t.purgers[i].Away? == s.purgers[i].Away?
    ensures Flagged(t, threw)
  {
    if Purged(s) {
      var i :| 0 <= i < |s.purgers| && !s.purgers[i].Away?;
      assert !t.purgers[i].Away?;
    }
    if Purged(t) {
      var i :| 0 <= i < |t.purgers| && !t.purgers[i].Away?;
      assert !s.purgers[i].Away?;
    }
  }

  lemma ReaderFlag(s: State, want: nat, threw: bool)
    requires Flagged(s, threw)
    ensures Flagged(ReaderStep(s, want), threw)
  {
    ReaderProjects(s, want);
    var t := ReaderStep(s, want);
    assert Project(t).waiting == s.waiting && Project(t).purgers == t.purgers;
    FlagUnmoved(s, t, threw);
  }

  lemma WriterFlag(s: State, data: seq<byte>, threw: bool)
    requires Flagged(s, threw)
    ensures Flagged(WriterStep(s, data), threw)
  {
    WriterProjects(s, data);
    var t := WriterStep(s, data);
    assert Project(t).waiting == s.waiting && Project(t).purgers == t.purgers;
    FlagUnmoved(s, t, threw);
  }

  /** What the handshake says of a purger's step. */
  lemma PurgerPlace(s: State, i: nat, choice: bool)
    requires i < |s.purgers|
    ensures var (p, w, l) := PurgerNext(Project(s), i, choice); var t := PurgerStep(s, i, choice);
            t.purgers == s.purgers[i := p] && t.waiting == w
  {
    PurgerProjects(s, i, choice);
  }

  /** Purger `i` begins, or ends in one of its two ways. */
  lemma PurgerFlag(s: State, i: nat, choice: bool, threw: bool)
    requires CtlInv(Project(s)) && Flagged(s, threw) && i < |s.purgers|
    ensures Flagged(PurgerStep(s, i, choice), threw || Throws(s, Purge(i, choice)))
  {
    PurgerPlace(s, i, choice);
    PlaceFlag(s, PurgerStep(s, i, choice), i, choice, threw, PurgerNext(Project(s), i, choice).0);
  }

  lemma PlaceFlag(s: State, t: State, i: nat, choice: bool, threw: bool, p: Purger)
    requires CtlInv(Project(s)) && Flagged(s, threw) && i < |s.purgers|
    requires p == PurgerNext(Project(s), i, choice).0 && t.waiting == PurgerNext(Project(s), i, choice).1
    requires t.purgers == s.purgers[i := p]
    ensures Flagged(t, threw || Throws(s, Purge(i, choice)))
  {
    if s.purgers[i].Away? && !p.Away? {
      assert !t.purgers[i].Away?;
    } else if !s.purgers[i].Away? && p.Away? {
      OthersAway(Project(s), i);
      assert forall j :: 0 <= j < |s.purgers| ==> t.purgers[j].Away?;
    } else {
      FlagUnmoved(s, t, threw);
    }
  }

  /** In every run: unless some purger has thrown, the flag is raised exactly while
      somebody purges; once one has, it stays raised, and nobody purges ever again. */
  lemma {:induction false} FlagExactly(buf: seq<byte>, purgers: nat, ms: seq<Move>)
    ensures Flagged(Run(Init(buf, purgers), ms), Threw(Init(buf, purgers), ms))
  {
    if |ms| > 0 {
      var before, m := ms[..|ms| - 1], ms[|ms| - 1];
      var s := Run(Init(buf, purgers), before);
      var threw := Threw(Init(buf, purgers), before);
      FlagExactly(buf, purgers, before);
      AlwaysSafe(buf, purgers, before);
      match m
      case Read(want) => ReaderFlag(s, want, threw);
      case Write(data) => WriterFlag(s, data, threw);
      case Purge(i, choice) => if i < |s.purgers| { PurgerFlag(s, i, choice, threw); }
      case SetRunning(on) => FlagUnmoved(s, Next(s, m), threw);
    }
  }

  // ----- giving up ----------------------------------------------------------

  /** Six steps of a purge that sees users and whose time runs out. */
  lemma PurgeGivesUp(s: State, i: nat)
    requires i < |s.purgers| && s.purgers[i].Away? && !s.waiting && s.lock.Free? && s.rw != 0
    ensures var a := PurgerStep(PurgerStep(PurgerStep(s, i, false), i, false), i, false);
            PurgerStep(PurgerStep(PurgerStep(a, i, true), i, false), i, false) == s
  {
    var a := At(s, i, Raised).(waiting := true);
    var locked := s.(waiting := true, lock := ByPurger(i));
    PurgeRaises(s, i);
    Overwrite(s.purgers, i, Checking, Dozing);
    assert PurgerStep(At(locked, i, Checking), i, false) == At(locked, i, Dozing);
    GivesUp(s, i);
  }

  lemma GivesUp(s: State, i: nat)
    requires i < |s.purgers| && s.purgers[i].Away? && !s.waiting && s.lock.Free?
    ensures var a := At(s, i, Dozing).(waiting := true, lock := ByPurger(i));
            PurgerStep(PurgerStep(PurgerStep(a, i, true), i, false), i, false) == s
  {
    Overwrite(s.purgers, i, Dozing, GaveUp);
    Overwrite(s.purgers, i, GaveUp, Lowering);
    Overwrite(s.purgers, i, Lowering, Away);
    assert s.purgers[i := Away] == s.purgers;
  }

  // ----- a stopped ring -----------------------------------------------------

  /** Nothing starts the ring in these moves. */
  predicate StaysStopped(ms: seq<Move>) { forall k :: 0 <= k < |ms| ==> ms[k] != SetRunning(true) }

  /** From a stop with no write under way, nothing is accepted; what was accepted
      stays, until a purge empties the ring. */
  lemma {:induction false} StoppedAccepts(s: State, ms: seq<Move>)
    requires !s.running && s.writer.WIdle? && StaysStopped(ms)
    ensures var t := Run(s, ms);
            !t.running && t.writer.WIdle? && (t.accepted == s.accepted || t.accepted == []) && |t.buf| == |s.buf|
  {
    if |ms| > 0 {
      StoppedAccepts(s, ms[..|ms| - 1]);
      var t := Run(s, ms[..|ms| - 1]);
      StoppedStep(t, ms[|ms| - 1]);
    }
  }

  lemma StoppedStep(s: State, m: Move)
    requires !s.running && s.writer.WIdle? && m != SetRunning(true)
    ensures var t := Next(s, m);
            !t.running && t.writer.WIdle? && (t.accepted == s.accepted || t.accepted == []) && |t.buf| == |s.buf|
  {
    match m
    case Read(want) => StoppedReader(s, want);
    case Write(data) =>
    case Purge(i, choice) => if i < |s.purgers| { StoppedPurger(s, i, choice); }
    case SetRunning(on) =>
  }

  lemma StoppedReader(s: State, want: nat)
    ensures var t := ReaderStep(s, want);
            t.running == s.running && t.writer == s.writer && t.accepted == s.accepted && t.buf == s.buf
  {}

  lemma StoppedPurger(s: State, i: nat, choice: bool)
    requires i < |s.purgers|
    ensures var t := PurgerStep(s, i, choice);
            && t.running == s.running && t.writer == s.writer && t.buf == s.buf
            && (t.accepted == s.accepted || t.accepted == [])
  {
    if s.purgers[i].Resetting? {
      var k := s.purgers[i].stores;
      assert k == 0 || k == 1 || k >= 2;
    } else {
      PurgerPassing(s, i, choice);
      PurgerRuns(s, i, choice);
    }
  }

  lemma PurgerRuns(s: State, i: nat, choice: bool)
    requires i < |s.purgers| && !s.purgers[i].Resetting?
    ensures PurgerStep(s, i, choice).running == s.running
  {
    match s.purgers[i]
    case Away =>
    case Raised =>
    case Checking =>
    case Dozing =>
    case Asleep =>
    case Woken =>
    case Quiet =>
    case GaveUp =>
    case Lowering =>
  }
}
