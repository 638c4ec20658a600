/** Exactly when cable reception has its settings in place. */
module DemodSettings {
  import opened DemodTables
  import opened DemodEffects
  import opened Demod
  import opened DemodTheorems
  import opened DemodRuns

  /** Cable reception that was woken to the end. */
  predicate Complete(d: Dev) { OnCable(d) && !d.incomplete }

  /** The command woke its cable system by the long path, to the end. */
  predicate Woke(d: Dev, cmd: Cmd, fate: Fate) {
    cmd.DoWake? && IsCable(cmd.system) && !Short(d, cmd.system) && Do(d, cmd, fate).1
  }

  /** Either the command woke the system, with all its settings, or the same
      reception goes on, and what is in place follows from what was undone. */
  ghost predicate Outcomes(d: Dev, cmd: Cmd, fate: Fate, undone: bool) {
    var e := Do(d, cmd, fate).0;
    Complete(e) ==>
      || (Woke(d, cmd, fate) && cmd.system == e.system && AllSet(e.hw, e.system))
      || (!Woke(d, cmd, fate) && Complete(d) && d.system == e.system && Settled(e, undone || Undoing(d, cmd, fate)))
  }

  lemma SleepOutcomes(d: Dev, fate: Fate, undone: bool)
    requires Inv(d) && Settled(d, undone)
    ensures var (e, ok) := Sleep(d, fate);
            Complete(e) ==>
              && !ok && Complete(d) && d.system == e.system
              && Settled(e, undone || ReachedA3(d.clock, e.clock, fate))
  {
    SleepKeeps(d, fate);
    if Complete(d) && !Sleep(d, fate).1 { FailedSleep(d.system, d.hw, fate, d.clock); }
  }

  /** A wakeup by the short path, which undoes nothing. */
  lemma ShortOutcomes(d: Dev, sys: SystemKind, six: bool, fate: Fate, undone: bool)
    requires Inv(d) && Settled(d, undone) && Short(d, sys)
    ensures var e := Wakeup(d, sys, six, fate).0;
            Complete(e) ==> Complete(d) && d.system == e.system && Settled(e, undone)
  {
    WakeSplit(d, sys, six, fate);
    PreparedKeeps(d, sys, fate);
    RetuneKeeps(d, six, fate);
  }

  /** A wakeup by the long path, once the way is clear. */
  lemma LongOutcomes(d: Dev, sys: SystemKind, six: bool, fate: Fate)
    requires Inv(d) && !Short(d, sys) && Prepared(d, sys, fate).1
    ensures var (e, ok) := Wakeup(d, sys, six, fate);
            Complete(e) ==> ok && IsCable(sys) && sys == e.system && AllSet(e.hw, sys)
  {
    WakeSplit(d, sys, six, fate);
    PreparedKeeps(d, sys, fate);
    var e := Prepared(d, sys, fate).0;
    if IsCable(sys) { StartCable(e, sys, six, fate); } else { StartOther(e, sys, six, fate); }
  }

  /** A wakeup that could not leave cable reception. */
  lemma StuckOutcomes(d: Dev, sys: SystemKind, six: bool, fate: Fate, undone: bool)
    requires Inv(d) && Settled(d, undone) && !Prepared(d, sys, fate).1
    ensures MustRestore(d, sys) && !Sleep(d, fate).1
    ensures Wakeup(d, sys, six, fate) == Sleep(d, fate)
    ensures var e := Sleep(d, fate).0;
            Complete(e) ==>
              && Complete(d) && d.system == e.system
              && Settled(e, undone || ReachedA3(d.clock, e.clock, fate))
  {
    SleepOutcomes(d, fate, undone);
  }

  lemma WakeOutcomes(d: Dev, sys: SystemKind, six: bool, fate: Fate, undone: bool)
    requires Inv(d) && Settled(d, undone)
    ensures Outcomes(d, DoWake(sys, six), fate, undone)
  {
    var cmd := DoWake(sys, six);
    assert Do(d, cmd, fate) == Wakeup(d, sys, six, fate);
    if Short(d, sys) {
      ShortOutcomes(d, sys, six, fate, undone);
      assert !Undoing(d, cmd, fate);
    } else if Prepared(d, sys, fate).1 {
      LongOutcomes(d, sys, six, fate);
    } else {
      StuckOutcomes(d, sys, six, fate, undone);
      assert Undoing(d, cmd, fate) == ReachedA3(d.clock, Sleep(d, fate).0.clock, fate);
    }
  }

  lemma WatchOutcomes(d: Dev, w: Watch, fate: Fate, undone: bool)
    requires Inv(d) && Settled(d, undone)
    ensures Outcomes(d, DoWatch(w), fate, undone)
  {
    WatchSame(d, w, fate);
  }

  lemma StepOutcomes(d: Dev, cmd: Cmd, fate: Fate, undone: bool)
    requires Inv(d) && Settled(d, undone)
    ensures Outcomes(d, cmd, fate, undone)
  {
    match cmd
    case DoSleep => SleepOutcomes(d, fate, undone);
    case DoWake(sys, six) => WakeOutcomes(d, sys, six, fate, undone);
    case DoWatch(w) => WatchOutcomes(d, w, fate, undone);
  }

  // ----- whole histories ----------------------------------------------------

  /** A command that tried to leave cable reception and reported failure. */
  predicate FailedToLeave(d: Dev, cmd: Cmd, fate: Fate) {
    OnCable(d) && (cmd.DoSleep? || (cmd.DoWake? && MustRestore(d, cmd.system))) && !Do(d, cmd, fate).1
  }

  lemma UndoingFails(d: Dev, cmd: Cmd, fate: Fate)
    requires Undoing(d, cmd, fate)
    ensures FailedToLeave(d, cmd, fate)
  {}

  /** What a command did: whether it woke a cable system to the end, by the long
      path, whether it undid the first setting of one, and whether it reported that
      it could not leave one. */
  datatype Mark = Mark(woke: bool, undid: bool, failed: bool)

  function Marks(d: Dev, cmds: seq<Cmd>, fate: Fate): (marks: seq<Mark>)
    ensures |marks| == |cmds|
  {
    if |cmds| == 0 then []
    else
      var prev, cmd := cmds[..|cmds| - 1], cmds[|cmds| - 1];
      var b := History(d, prev, fate);
      Marks(d, prev, fate) + [Mark(Woke(b, cmd, fate), Undoing(b, cmd, fate), FailedToLeave(b, cmd, fate))]
  }

  /** Command `k` is the last that woke a cable system to the end. */
  predicate LastWoken(marks: seq<Mark>, k: nat) {
    k < |marks| && marks[k].woke && forall j :: k < j < |marks| ==> !marks[j].woke
  }

  predicate UndoneSince(marks: seq<Mark>, k: nat) {
    exists j :: k < j < |marks| && marks[j].undid
  }

  lemma MarksGrow(marks: seq<Mark>, mark: Mark, k: nat)
    requires k < |marks|
    ensures UndoneSince(marks + [mark], k) == (UndoneSince(marks, k) || mark.undid)
    ensures LastWoken(marks, k) && !mark.woke ==> LastWoken(marks + [mark], k)
  {
    var all := marks + [mark];
    assert all[|marks|] == mark;
    assert forall j :: 0 <= j < |marks| ==> all[j] == marks[j];
  }

  lemma {:induction false} LastWake(d: Dev, cmds: seq<Cmd>, fate: Fate) returns (k: nat)
    requires Fresh(d) && Complete(History(d, cmds, fate))
    ensures LastWoken(Marks(d, cmds, fate), k) && cmds[k].DoWake? && cmds[k].system == History(d, cmds, fate).system
    ensures Settled(History(d, cmds, fate), UndoneSince(Marks(d, cmds, fate), k))
    decreases |cmds|
  {
    var n := |cmds| - 1;
    var prev, cmd := cmds[..n], cmds[n];
    var b := History(d, prev, fate);
    HistoryKeeps(d, prev, fate);
    var undone := false;
    if Complete(b) {
      k := LastWake(d, prev, fate);
      undone := UndoneSince(Marks(d, prev, fate), k);
    }
    StepOutcomes(b, cmd, fate, undone);
    if Woke(b, cmd, fate) {
      k := n;
    } else {
      MarksGrow(Marks(d, prev, fate), Mark(false, Undoing(b, cmd, fate), FailedToLeave(b, cmd, fate)), k);
    }
  }

  // ----- main results -------------------------------------------------------

  /** The settings of a cable system are all in place exactly when no failed sleep
      got as far as taking back the first since they were written. */
  ghost predicate InPlace(d: Dev, cmds: seq<Cmd>, fate: Fate, k: nat) {
    var e := History(d, cmds, fate);
    && LastWoken(Marks(d, cmds, fate), k) && cmds[k].DoWake? && cmds[k].system == e.system
    && (AllSet(e.hw, e.system) <==> !UndoneSince(Marks(d, cmds, fate), k))
  }

  /** Whenever the next wakeup for the recorded cable system would take the short
      path, its last wakeup by the long path was completed, and its settings are
      in place exactly when no sleep has undone them since. */
  lemma ShortPathExactly(d: Dev, cmds: seq<Cmd>, fate: Fate)
    requires Fresh(d)
    requires var e := History(d, cmds, fate); IsCable(e.system) && Short(e, e.system)
    ensures exists k :: InPlace(d, cmds, fate, k)
  {
    var k := LastWake(d, cmds, fate);
    assert SettingOf(History(d, cmds, fate).system, A3) == 0x14;
    assert InPlace(d, cmds, fate, k);
  }

  lemma {:induction false} OnlyFailuresUndo(d: Dev, cmds: seq<Cmd>, fate: Fate)
    ensures forall j :: 0 <= j < |cmds| && Marks(d, cmds, fate)[j].undid ==> Marks(d, cmds, fate)[j].failed
    decreases |cmds|
  {
    if |cmds| > 0 {
      var prev, cmd := cmds[..|cmds| - 1], cmds[|cmds| - 1];
      OnlyFailuresUndo(d, prev, fate);
      var b := History(d, prev, fate);
      if Undoing(b, cmd, fate) { UndoingFails(b, cmd, fate); }
    }
  }

  /** Seen from outside: as long as no sleep and no switch to another system has
      reported failure since the last wakeup by the long path, all settings of the
      recorded cable system are in place. */
  lemma SettingsKept(d: Dev, cmds: seq<Cmd>, fate: Fate)
    requires Fresh(d) && Complete(History(d, cmds, fate))
    ensures exists k :: InPlace(d, cmds, fate, k) && SettingsFollow(d, cmds, fate, k)
  {
    ShortPathExactly(d, cmds, fate);
    OnlyFailuresUndo(d, cmds, fate);
    var k :| InPlace(d, cmds, fate, k);
    assert SettingsFollow(d, cmds, fate, k);
  }

  ghost predicate SettingsFollow(d: Dev, cmds: seq<Cmd>, fate: Fate, k: nat) {
    var e := History(d, cmds, fate);
    (forall j :: k < j < |cmds| ==> !Marks(d, cmds, fate)[j].failed) ==> AllSet(e.hw, e.system)
  }

  /** A wakeup that reports success leaves the defaults for a system off the cable,
      and for a cable system its settings, if it took the long path. */
  lemma WakeDelivers(d: Dev, cmds: seq<Cmd>, fate: Fate, sys: SystemKind, six: bool)
    requires Fresh(d) && Wakeup(History(d, cmds, fate), sys, six, fate).1
    ensures var e := History(d, cmds, fate); var f := Wakeup(e, sys, six, fate).0;
            && f.power.Active? && f.system == sys && !f.incomplete
            && (!IsCable(sys) ==> AllDefault(f.hw))
            && (IsCable(sys) && !Short(e, sys) ==> AllSet(f.hw, sys))
            && (IsCable(sys) && Short(e, sys) ==> (AllSet(f.hw, sys) <==> AllSet(e.hw, sys)))
  {
    HistoryKeeps(d, cmds, fate);
    var e := History(d, cmds, fate);
    WakeSuccess(e, sys, six, fate);
    if IsCable(sys) && Short(e, sys) {
      var k := LastWake(d, cmds, fate);
      ShortWake(e, sys, six, fate, UndoneSince(Marks(d, cmds, fate), k));
    }
  }

  lemma WakeSuccess(d: Dev, sys: SystemKind, six: bool, fate: Fate)
    requires Inv(d) && Wakeup(d, sys, six, fate).1
    ensures var f := Wakeup(d, sys, six, fate).0;
            && f.power.Active? && f.system == sys && !f.incomplete
            && (!IsCable(sys) ==> AllDefault(f.hw))
            && (IsCable(sys) && !Short(d, sys) ==> AllSet(f.hw, sys))
  {
    WakeKeeps(d, sys, six, fate);
    WakeSplit(d, sys, six, fate);
    PreparedKeeps(d, sys, fate);
    var p := Prepared(d, sys, fate).0;
    if Short(d, sys) { RetuneKeeps(p, six, fate); }
    else if IsCable(sys) { StartCable(p, sys, six, fate); }
    else { StartOther(p, sys, six, fate); }
  }

  lemma ShortWake(d: Dev, sys: SystemKind, six: bool, fate: Fate, undone: bool)
    requires Inv(d) && IsCable(sys) && Short(d, sys) && Settled(d, undone)
    ensures AllSet(Wakeup(d, sys, six, fate).0.hw, sys) <==> AllSet(d.hw, sys)
  {
    RetuneKeeps(d, six, fate);
    assert SettingOf(sys, A3) == 0x14;
  }

  // ----- without failures ---------------------------------------------------

  lemma PlaySucceeds(pages: seq<Page>, hw: Hw, fate: Fate, n: nat)
    requires forall k :: fate(k).Done?
    ensures Play(pages, hw, fate, n).1
  {
    PlayFate(pages, hw, fate, n);
  }

  lemma SleepSucceeds(d: Dev, fate: Fate)
    requires (forall k :: fate(k).Done?) && !d.power.Asleep?
    ensures Sleep(d, fate).1
  {
    PlaySucceeds(SleepTable(d.system), d.hw, fate, d.clock);
  }

  lemma RetuneSucceeds(d: Dev, fate: Fate)
    requires (forall k :: fate(k).Done?) && !d.system.Unspecified?
    ensures Retune(d, true, fate).1
  {
    PlaySucceeds(ResetOutput() + BandT(true), d.hw, fate, d.clock);
    PlaySucceeds(ResetOutput(), d.hw, fate, d.clock);
    PlaySucceeds(ResetOutput() + BandJ(), d.hw, fate, d.clock);
  }

  lemma StartSucceeds(d: Dev, sys: SystemKind, fate: Fate)
    requires (forall k :: fate(k).Done?) && !sys.Unspecified?
    ensures Start(d, sys, true, fate).1
  {
    match sys {
      case IsdbT =>
        PlaySucceeds(WakeT() + BandT(true), d.hw, fate, d.clock);
        var e := PlayOn(d, WakeT() + BandT(true), fate).0;
        PlaySucceeds(StartOutput(0x08), e.hw, fate, e.clock);
      case IsdbS => PlaySucceeds(WakeS(), d.hw, fate, d.clock);
      case IsdbC => PlaySucceeds(WakeC(), d.hw, fate, d.clock);
      case J83B => PlaySucceeds(WakeJ(), d.hw, fate, d.clock);
    }
  }

  /** Without failures every system can be woken, with the 6 MHz that ISDB-T needs. */
  lemma WakeSucceeds(d: Dev, sys: SystemKind, fate: Fate)
    requires Inv(d) && (forall k :: fate(k).Done?) && !sys.Unspecified?
    ensures Wakeup(d, sys, true, fate).1
  {
    WakeSplit(d, sys, true, fate);
    PreparedKeeps(d, sys, fate);
    if MustRestore(d, sys) { SleepSucceeds(d, fate); }
    var e := Prepared(d, sys, fate).0;
    if Short(d, sys) { RetuneSucceeds(e, fate); } else { StartSucceeds(e, sys, fate); }
  }
}
