/** What every history of tunings keeps, whatever access fails. */
module DemodRuns {
  import opened DemodTables
  import opened DemodPlay
  import opened DemodEffects
  import opened Demod
  import opened DemodTheorems

  // ----- one table ----------------------------------------------------------

  /** The registers of interest are the same in both. */
  ghost predicate Same(a: Hw, b: Hw) { forall c :: Read(a, c) == Read(b, c) }

  lemma CalmTables(sys: SystemKind, six: bool)
    ensures forall c :: AllSpare(ResetOutput(), c) && AllSpare(BandT(six), c)
    ensures forall c :: AllSpare(WakeT(), c) && AllSpare(WakeS(), c) && AllSpare(StartOutput(0x08), c)
    ensures !IsCable(sys) ==> forall c :: AllSpare(SleepTable(sys), c)
  {
    forall c
      ensures AllSpare(ResetOutput(), c) && AllSpare(BandT(six), c)
      ensures AllSpare(WakeT(), c) && AllSpare(WakeS(), c) && AllSpare(StartOutput(0x08), c)
      ensures !IsCable(sys) ==> AllSpare(SleepTable(sys), c)
    {
      CalmParts(c, true, 0);
      CalmBandT(c, six);
      CalmWake(c);
      CalmOutput(c, 0x08);
      CalmSleep(c);
    }
  }

  lemma CalmJoin(a: seq<Page>, b: seq<Page>)
    requires forall c :: AllSpare(a, c) && AllSpare(b, c)
    ensures forall c :: AllSpare(a + b, c)
  {
    forall c ensures AllSpare(a + b, c) { SpareJoin(a, b, c); }
  }

  lemma PlayOnCalm(d: Dev, pages: seq<Page>, fate: Fate)
    requires forall c :: AllSpare(pages, c)
    ensures var e := PlayOn(d, pages, fate).0;
            Same(e.hw, d.hw) && e == d.(hw := e.hw, clock := e.clock)
  {
    CalmKept(pages, d.hw, fate, d.clock);
  }

  /** Playing a table that leaves the cable registers alone keeps the invariant. */
  lemma InvSame(d: Dev, e: Dev)
    requires Inv(d) && Same(d.hw, e.hw) && e == d.(hw := e.hw, clock := e.clock)
    ensures Inv(e)
  {}

  // ----- sleeping -----------------------------------------------------------

  lemma {:induction false} SleepKeeps(d: Dev, fate: Fate)
    requires Inv(d)
    ensures Inv(Sleep(d, fate).0)
    ensures Sleep(d, fate).1 ==> Sleep(d, fate).0.power.Asleep?
    ensures !IsCable(d.system) && d.power.Active? ==> Sleep(d, fate).1
  {
    if !d.power.Asleep? {
      var table := SleepTable(d.system);
      if IsCable(d.system) {
        CableSleepKeeps(d, fate);
      } else {
        CalmTables(d.system, true);
        PlayOnCalm(d, table, fate);
      }
    }
  }

  lemma CableSleepKeeps(d: Dev, fate: Fate)
    requires Inv(d) && OnCable(d)
    ensures Inv(Sleep(d, fate).0)
  {
    var sys, table := d.system, SleepTable(d.system);
    var (h, ok, m) := Play(table, d.hw, fate, d.clock);
    forall c
      ensures Foreign(sys, c) ==> Read(h, c) == Read(d.hw, c)
      ensures ok && !Foreign(sys, c) ==> Read(h, c) == DefaultOf(c)
    { CableSleep(sys, d.hw, fate, d.clock, c); }
    if ok {
      assert AllDefault(h);
    }
  }

  // ----- waking -------------------------------------------------------------

  lemma RetuneJ(hw: Hw, fate: Fate, n: nat)
    ensures var h := Play(ResetOutput() + BandJ(), hw, fate, n).0;
            && (forall c :: c != R14 ==> Read(h, c) == Read(hw, c))
            && (Read(hw, R14) == 0x10 ==> Read(h, R14) == 0x10)
  {
    forall c ensures AllSpare(ResetOutput(), c) { CalmParts(c, true, 0); }
    CalmKept(ResetOutput(), hw, fate, n);
    PlaySplit(ResetOutput(), BandJ(), hw, fate, n);
    var (h, ok, m) := Play(ResetOutput(), hw, fate, n);
    if ok {
      forall c | c != R14 ensures Read(Play(BandJ(), h, fate, m).0, c) == Read(h, c) {
        ForeignSpared(c);
        PlaySpares(BandJ(), h, fate, m, c);
      }
      if Read(h, R14) == 0x10 { BandHolds(h, fate, m); }
    }
  }

  /** Rewriting the band where it is already set changes nothing, even half way. */
  lemma BandHolds(hw: Hw, fate: Fate, n: nat)
    requires Read(hw, R14) == 0x10
    ensures Read(Play(BandJ(), hw, fate, n).0, R14) == 0x10
  {
    var first, second := [BandJ()[0]], [BandJ()[1]];
    assert BandJ() == first + second;
    PlaySplit(first, second, hw, fate, n);
    PlaySpares(first, hw, fate, n, R14);
    var (h, ok, m) := Play(first, hw, fate, n);
    if ok {
      assert second[1..] == [];
      var acts := second[0].acts;
      var g := h.(bank := 0x40);
      var p := Apply(g, acts[0]);
      assert Read(p, R14) == 0x10;
      ActsClear(acts[1..], p, fate, m + 2, At(R14));
    }
  }

  lemma RetuneKeeps(d: Dev, six: bool, fate: Fate)
    requires Inv(d) && d.power.Active?
    ensures var e := Retune(d, six, fate).0;
            && Inv(e) && e == d.(hw := e.hw, clock := e.clock)
            && forall u | Settled(d, u) :: Settled(e, u)
  {
    CalmTables(d.system, six);
    match d.system {
      case IsdbT => CalmJoin(ResetOutput(), BandT(six)); PlayOnCalm(d, ResetOutput() + BandT(six), fate);
      case IsdbS => PlayOnCalm(d, ResetOutput(), fate);
      case IsdbC => PlayOnCalm(d, ResetOutput(), fate);
      case J83B => RetuneJ(d.hw, fate, d.clock);
      case Unspecified =>
    }
  }

  /** How a woken system is recorded. */
  function Recorded(d: Dev, sys: SystemKind): Dev { d.(system := sys, power := Active, incomplete := false) }

  lemma StartCable(d: Dev, sys: SystemKind, six: bool, fate: Fate)
    requires Inv(d) && !d.power.Active? && IsCable(sys)
    ensures var (e, done) := Start(d, sys, six, fate);
            && Inv(e) && OnCable(e) && e.incomplete && e.system == sys
            && (done ==> AllSet(e.hw, sys))
  {
    var (h, ok, m) := Play(if sys.IsdbC? then WakeC() else WakeJ(), d.hw, fate, d.clock);
    forall c
      ensures Foreign(sys, c) ==> Read(h, c) == DefaultOf(c)
      ensures ok ==> Read(h, c) == SettingOf(sys, c)
    { CableWake(sys, d.hw, fate, d.clock, c); }
  }

  lemma StartOther(d: Dev, sys: SystemKind, six: bool, fate: Fate)
    requires Inv(d) && !d.power.Active? && !IsCable(sys)
    ensures var (e, done) := Start(d, sys, six, fate);
            Inv(e) && AllDefault(e.hw) && e == d.(hw := e.hw, clock := e.clock)
  {
    CalmTables(sys, six);
    match sys {
      case IsdbT =>
        CalmJoin(WakeT(), BandT(six));
        PlayOnCalm(d, WakeT() + BandT(six), fate);
        var e := PlayOn(d, WakeT() + BandT(six), fate).0;
        PlayOnCalm(e, StartOutput(0x08), fate);
      case IsdbS => PlayOnCalm(d, WakeS(), fate);
      case Unspecified =>
    }
  }

  /** The state in which the requested system is started, or retuned. */
  function Prepared(d: Dev, sys: SystemKind, fate: Fate): (r: (Dev, bool)) {
    var (e, ok) := if MustRestore(d, sys) then Sleep(d, fate) else (d, true);
    if ok && e.power.Active? && e.system != sys then (Sleep(e, fate).0, ok) else (e, ok)
  }

  /** The short path: taken for the recorded system when nothing has to be undone. */
  predicate Short(d: Dev, sys: SystemKind) { d.power.Active? && d.system == sys && !MustRestore(d, sys) }

  lemma PreparedKeeps(d: Dev, sys: SystemKind, fate: Fate)
    requires Inv(d)
    ensures var (e, ok) := Prepared(d, sys, fate);
            && Inv(e) && (Short(d, sys) ==> e == d && ok)
            && (!Short(d, sys) && ok ==> !e.power.Active?)
  {
    SleepKeeps(d, fate);
    var (e, ok) := if MustRestore(d, sys) then Sleep(d, fate) else (d, true);
    SleepKeeps(e, fate);
  }

  lemma WakeSplit(d: Dev, sys: SystemKind, six: bool, fate: Fate)
    requires Inv(d)
    ensures var (e, ok) := Prepared(d, sys, fate);
            Wakeup(d, sys, six, fate) ==
              if !ok then (e, false)
              else if Short(d, sys) then Retune(e, six, fate)
              else
                var (g, done) := Start(e, sys, six, fate);
                if done then (Recorded(g, sys), true) else (g, false)
  {
    PreparedKeeps(d, sys, fate);
    if MustRestore(d, sys) { WakeAfterRestore(d, sys, six, fate); } else { WakeAtOnce(d, sys, six, fate); }
  }

  lemma WakeAtOnce(d: Dev, sys: SystemKind, six: bool, fate: Fate)
    requires !MustRestore(d, sys)
    ensures var (e, ok) := Prepared(d, sys, fate);
            && ok
            && Wakeup(d, sys, six, fate) ==
               if Short(d, sys) then Retune(e, six, fate) else Begin(e, sys, six, fate)
  {}

  /** After a restoration nothing is active any more. */
  lemma WakeAfterRestore(d: Dev, sys: SystemKind, six: bool, fate: Fate)
    requires Inv(d) && MustRestore(d, sys)
    ensures var (e, ok) := Sleep(d, fate);
            && Prepared(d, sys, fate) == (e, ok)
            && Wakeup(d, sys, six, fate) == if ok then Begin(e, sys, six, fate) else (e, false)
  {
    SleepKeeps(d, fate);
  }

  lemma WakeKeeps(d: Dev, sys: SystemKind, six: bool, fate: Fate)
    requires Inv(d)
    ensures Inv(Wakeup(d, sys, six, fate).0)
  {
    WakeSplit(d, sys, six, fate);
    PreparedKeeps(d, sys, fate);
    var (e, ok) := Prepared(d, sys, fate);
    if ok {
      if Short(d, sys) { RetuneKeeps(e, six, fate); }
      else if IsCable(sys) { StartCable(e, sys, six, fate); }
      else { StartOther(e, sys, six, fate); }
    }
  }

  // ----- all commands -------------------------------------------------------

  lemma CalmWatch(w: Watch, c: CableReg)
    ensures AllSpare(WatchTable(w), c) && AllSpare([Stay([W(0x01, 0x00)])], c)
  {
    if w.Tuned? { CalmParts(c, true, 0); } else { CalmReadings(w, c); }
  }

  lemma CalmReadings(w: Watch, c: CableReg)
    requires !w.Tuned?
    ensures AllSpare(WatchTable(w), c)
  {
    assert |WatchTable(w)| <= 2;
    assert Clear(WatchTable(w)[0], At(c));
    assert |WatchTable(w)| == 2 ==> Clear(WatchTable(w)[1], At(c));
  }

  lemma WatchSame(d: Dev, w: Watch, fate: Fate)
    ensures var e := Do(d, DoWatch(w), fate).0;
            Same(d.hw, e.hw) && e == d.(hw := e.hw, clock := e.clock)
  {
    forall c ensures AllSpare(WatchTable(w), c) && AllSpare([Stay([W(0x01, 0x00)])], c) { CalmWatch(w, c); }
    PlayOnCalm(d, WatchTable(w), fate);
    PlayOnCalm(PlayOn(d, WatchTable(w), fate).0, [Stay([W(0x01, 0x00)])], fate);
  }

  lemma DoKeeps(d: Dev, cmd: Cmd, fate: Fate)
    requires Inv(d)
    ensures Inv(Do(d, cmd, fate).0)
  {
    match cmd
    case DoSleep => SleepKeeps(d, fate);
    case DoWake(sys, six) => WakeKeeps(d, sys, six, fate);
    case DoWatch(w) => WatchSame(d, w, fate); InvSame(d, Do(d, cmd, fate).0);
  }

  lemma {:induction false} HistoryKeeps(d: Dev, cmds: seq<Cmd>, fate: Fate)
    requires Inv(d)
    ensures Inv(History(d, cmds, fate))
    decreases |cmds|
  {
    if |cmds| > 0 {
      HistoryKeeps(d, cmds[..|cmds| - 1], fate);
      DoKeeps(History(d, cmds[..|cmds| - 1], fate), cmds[|cmds| - 1], fate);
    }
  }

  // ----- main results -------------------------------------------------------

  /** Whatever failed, outside recorded cable reception every cable register holds
      its default, and within it the registers of the other cable system do. */
  lemma NoLeak(d: Dev, cmds: seq<Cmd>, fate: Fate)
    requires Fresh(d)
    ensures var e := History(d, cmds, fate);
            && (!OnCable(e) ==> AllDefault(e.hw))
            && (OnCable(e) ==> ForeignDefault(e.hw, e.system))
  {
    HistoryKeeps(d, cmds, fate);
  }

}
