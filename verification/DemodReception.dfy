/** The chip follows the record: what a successful command leaves, and what holds
    after every history. */
module DemodReception {
  import opened Bytes
  import opened DemodTables
  import opened DemodPlay
  import opened Demod
  import opened DemodRuns
  import opened DemodSettings
  import opened DemodOutput

  // ----- one command --------------------------------------------------------

  lemma Reset(back: seq<Page>, hw: Hw, fate: Fate, n: nat)
    requires Play(ResetOutput() + back, hw, fate, n).1 && AllClear(back, Main(0xc3))
    ensures Play(ResetOutput() + back, hw, fate, n).0.regs(Main(0xc3)) == 0x01
  {
    LeavesWritten(ResetOutput(), Main(0xc3), 0x01, 0, 0);
    LeavesThen(ResetOutput(), back, Main(0xc3), 0x01);
  }

  lemma BandsQuiet(six: bool)
    ensures QuietPages(ResetOutput()) && QuietPages(ResetOutput() + BandT(six)) && QuietPages(ResetOutput() + BandJ())
    ensures AllClear(BandT(six), Main(0xc3)) && AllClear(BandJ(), Main(0xc3)) && AllClear([], Main(0xc3))
  {
    BandTQuiet(six);
    BandJQuiet();
  }

  lemma BandTQuiet(six: bool)
    ensures QuietPages(ResetOutput() + BandT(six)) && AllClear(BandT(six), Main(0xc3))
  {}

  lemma BandJQuiet()
    ensures QuietPages(ResetOutput() + BandJ()) && AllClear(BandJ(), Main(0xc3))
  {}

  /** The short path holds the stream back and leaves the output itself alone. */
  lemma Retunes(d: Dev, six: bool, fate: Fate)
    ensures SameOutput(d.hw, Retune(d, six, fate).0.hw)
    ensures Retune(d, six, fate).1 ==> Retune(d, six, fate).0.hw.regs(Main(0xc3)) == 0x01
    ensures Retune(d, six, fate).1 && d.system.IsdbT? ==> SixMHz(Retune(d, six, fate).0.hw)
  {
    BandsQuiet(six);
    assert ResetOutput() + [] == ResetOutput();
    if !d.system.Unspecified? {
      var back := if d.system.IsdbT? then BandT(six) else if d.system.J83B? then BandJ() else [];
      Quiet(ResetOutput() + back, d.hw, fate, d.clock);
      if Retune(d, six, fate).1 {
        Reset(back, d.hw, fate, d.clock);
        if d.system.IsdbT? { BandSet(ResetOutput(), d.hw, fate, d.clock); }
      }
    }
  }

  /** What a successful wakeup leaves in the chip: by the long path, the settings of
      the system and its output switched on; by the short path, the stream held back
      and the output as it was. */
  ghost predicate WakesChip(d: Dev, sys: SystemKind, e: Dev) {
    if Short(d, sys) then
      && SameOutput(d.hw, e.hw) && e.hw.regs(Main(0xc3)) == 0x01 && (sys.IsdbT? ==> SixMHz(e.hw))
    else Receives(e.hw, sys)
  }

  lemma WakeStarts(d: Dev, sys: SystemKind, six: bool, fate: Fate)
    requires Wakeup(d, sys, six, fate).1
    ensures WakesChip(d, sys, Wakeup(d, sys, six, fate).0)
  {
    if Short(d, sys) {
      Retunes(d, six, fate);
    } else {
      var (e, ok) := Prepared(d, sys, fate);
      LongPath(d, sys, six, fate);
      Begins(e, sys, six, fate);
    }
  }

  /** The long path starts the system once nothing is active any more. */
  lemma LongPath(d: Dev, sys: SystemKind, six: bool, fate: Fate)
    requires !Short(d, sys)
    ensures var (e, ok) := Prepared(d, sys, fate);
            && (ok ==> !e.power.Active?)
            && Wakeup(d, sys, six, fate) == if ok then Begin(e, sys, six, fate) else (e, false)
  {
    if MustRestore(d, sys) { LongRestore(d, sys, six, fate); } else { WakeAtOnce(d, sys, six, fate); }
    if Prepared(d, sys, fate).1 { Settles(d, sys, fate); }
  }

  lemma Settles(d: Dev, sys: SystemKind, fate: Fate)
    requires !Short(d, sys) && Prepared(d, sys, fate).1
    ensures !Prepared(d, sys, fate).0.power.Active?
  {}

  lemma SleepEnds(d: Dev, fate: Fate)
    requires Sleep(d, fate).1
    ensures Sleep(d, fate).0.power.Asleep?
  {}

  lemma LongRestore(d: Dev, sys: SystemKind, six: bool, fate: Fate)
    requires MustRestore(d, sys)
    ensures Prepared(d, sys, fate) == Sleep(d, fate)
    ensures var (e, ok) := Sleep(d, fate);
            Wakeup(d, sys, six, fate) == if ok then Begin(e, sys, six, fate) else (e, false)
  {
    if Sleep(d, fate).1 { SleepEnds(d, fate); }
  }

  lemma Begins(f: Dev, sys: SystemKind, six: bool, fate: Fate)
    requires Begin(f, sys, six, fate).1
    ensures Receives(Begin(f, sys, six, fate).0.hw, sys)
  {
    Starts(f, sys, six, fate);
  }

  /** After a tuning the stream flows again; whatever fails, the output stays as it is. */
  lemma Watches(d: Dev, w: Watch, fate: Fate)
    ensures SameOutput(d.hw, Do(d, DoWatch(w), fate).0.hw)
    ensures w.Tuned? && Do(d, DoWatch(w), fate).1 ==>
              Do(d, DoWatch(w), fate).0.hw.regs(Main(0xc3)) == 0x00
              && Do(d, DoWatch(w), fate).0.hw.regs(Main(0xfe)) == 0x01
  {
    WatchQuiet(w);
    Quiet(WatchTable(w), d.hw, fate, d.clock);
    var e := PlayOn(d, WatchTable(w), fate).0;
    Quiet([Stay([W(0x01, 0x00)])], e.hw, fate, e.clock);
    if w.Tuned? && Do(d, DoWatch(w), fate).1 {
      PlayWrites(PostTune(), d.hw, fate, d.clock, Main(0xfe), 0x01, 0, 0);
      PlayWrites(PostTune(), d.hw, fate, d.clock, Main(0xc3), 0x00, 0, 1);
    }
  }

  lemma WatchQuiet(w: Watch)
    ensures QuietPages(WatchTable(w)) && QuietPages([Stay([W(0x01, 0x00)])])
  {
    if !w.Tuned? {
      assert |WatchTable(w)| <= 2;
      ReadingClear(w, Main(0x80));
      ReadingClear(w, Main(0x81));
      ReadingClear(w, Main(0xc4));
    }
  }

  lemma ReadingClear(w: Watch, a: Address)
    requires !w.Tuned? && a.bank == 0x00 && a.reg > 0x01
    ensures AllClear(WatchTable(w), a)
  {
    assert |WatchTable(w)| <= 2;
    assert Clear(WatchTable(w)[0], a);
    assert |WatchTable(w)| == 2 ==> Clear(WatchTable(w)[1], a);
  }

  // ----- whole histories ----------------------------------------------------

  /** Recorded as active, woken to the end. */
  predicate Awake(d: Dev) { d.power.Active? && !d.incomplete }

  /** The output follows the record. */
  ghost predicate InStep(d: Dev) { Awake(d) ==> OutputOn(d.hw, d.system) }

  lemma SameOutputOn(a: Hw, b: Hw, sys: SystemKind)
    requires SameOutput(a, b) && OutputOn(a, sys)
    ensures OutputOn(b, sys)
  {}

  /** The command woke a system by the long path, to the end. */
  predicate Restarted(d: Dev, cmd: Cmd, fate: Fate) {
    cmd.DoWake? && !Short(d, cmd.system) && Do(d, cmd, fate).1
  }

  lemma RestartInStep(d: Dev, cmd: Cmd, fate: Fate)
    requires Restarted(d, cmd, fate)
    ensures InStep(Do(d, cmd, fate).0) && Awake(Do(d, cmd, fate).0) && Do(d, cmd, fate).0.system == cmd.system
  {
    WakeStarts(d, cmd.system, cmd.six, fate);
    RestartRecorded(d, cmd.system, cmd.six, fate);
  }

  lemma RestartRecorded(d: Dev, sys: SystemKind, six: bool, fate: Fate)
    requires !Short(d, sys) && Wakeup(d, sys, six, fate).1
    ensures var e := Wakeup(d, sys, six, fate).0; Awake(e) && e.system == sys
  {
    LongPath(d, sys, six, fate);
  }

  /** A wakeup by the long path that failed, other than in leaving cable reception. */
  lemma FailedStart(d: Dev, sys: SystemKind, six: bool, fate: Fate)
    requires !Short(d, sys) && !Wakeup(d, sys, six, fate).1 && !FailedToLeave(d, DoWake(sys, six), fate)
    ensures !Awake(Wakeup(d, sys, six, fate).0)
  {
    var (e, ok) := Prepared(d, sys, fate);
    LongPath(d, sys, six, fate);
    if ok {
      FailedBegin(e, sys, six, fate);
    }
  }

  lemma FailedBegin(f: Dev, sys: SystemKind, six: bool, fate: Fate)
    requires !f.power.Active? && !Begin(f, sys, six, fate).1
    ensures !Awake(Begin(f, sys, six, fate).0)
  {}

  lemma StepInStep(d: Dev, cmd: Cmd, fate: Fate)
    requires InStep(d) && !FailedToLeave(d, cmd, fate)
    ensures InStep(Do(d, cmd, fate).0)
  {
    match cmd
    case DoSleep =>
    case DoWatch(w) => Watches(d, w, fate);
    case DoWake(sys, six) =>
      if Restarted(d, cmd, fate) { RestartInStep(d, cmd, fate); }
      else if Short(d, sys) { Retunes(d, six, fate); }
      else { FailedStart(d, sys, six, fate); }
  }

  /** A command has failed to leave cable reception, and nothing was woken by the long
      path since. */
  predicate Stranded(d: Dev, cmds: seq<Cmd>, fate: Fate) {
    |cmds| > 0 &&
    var prev, cmd := cmds[..|cmds| - 1], cmds[|cmds| - 1];
    var b := History(d, prev, fate);
    !Restarted(b, cmd, fate) && (FailedToLeave(b, cmd, fate) || Stranded(d, prev, fate))
  }

  /** Whatever else failed, after every history in which no attempt to leave cable
      reception failed since the last start by the long path: a demodulator that is
      recorded as active and was woken to the end puts out its stream, in the way of
      the recorded system. */
  lemma {:induction false} OutputFollows(d: Dev, cmds: seq<Cmd>, fate: Fate)
    requires Fresh(d) && !Stranded(d, cmds, fate)
    ensures InStep(History(d, cmds, fate))
    decreases |cmds|
  {
    if |cmds| > 0 {
      var prev, cmd := cmds[..|cmds| - 1], cmds[|cmds| - 1];
      var b := History(d, prev, fate);
      if Restarted(b, cmd, fate) {
        RestartInStep(b, cmd, fate);
      } else {
        OutputFollows(d, prev, fate);
        StepInStep(b, cmd, fate);
      }
    }
  }
}
