/** Cable settings never leak, and exactly when a retune finds them in place. */
module DemodTheorems {
  import opened DemodTables
  import opened DemodPlay
  import opened DemodEffects
  import opened Demod

  ghost predicate AllDefault(hw: Hw) { forall c :: Read(hw, c) == DefaultOf(c) }
  ghost predicate AllSet(hw: Hw, sys: SystemKind) { forall c :: Read(hw, c) == SettingOf(sys, c) }

  /** Registers that only the other cable system uses. */
  predicate Foreign(sys: SystemKind, c: CableReg) { if sys.IsdbC? then OnlyJ(c) else OnlyC(c) }

  ghost predicate ForeignDefault(hw: Hw, sys: SystemKind) {
    forall c :: Foreign(sys, c) ==> Read(hw, c) == DefaultOf(c)
  }

  ghost predicate Inv(d: Dev) {
    && (!OnCable(d) ==> AllDefault(d.hw) && !d.incomplete)
    && (OnCable(d) ==> ForeignDefault(d.hw, d.system))
    && (d.power.Asleep? ==> d.system.Unspecified?) && (IsCable(d.system) ==> d.power.Active?)
  }

  /** In cable reception that was woken to the end, the settings are in place, or
      a failed sleep has `undone` the first of them. */
  ghost predicate Settled(d: Dev, undone: bool) {
    OnCable(d) && !d.incomplete ==> if undone then Read(d.hw, A3) == 0x00 else AllSet(d.hw, d.system)
  }

  // ----- whole tables -------------------------------------------------------

  ghost predicate Kept(pages: seq<Page>, hw: Hw, fate: Fate, n: nat) {
    forall c :: Read(Play(pages, hw, fate, n).0, c) == Read(hw, c)
  }

  lemma CalmKept(pages: seq<Page>, hw: Hw, fate: Fate, n: nat)
    requires forall c :: AllSpare(pages, c)
    ensures Kept(pages, hw, fate, n)
  {
    forall c ensures Read(Play(pages, hw, fate, n).0, c) == Read(hw, c) { PlaySpares(pages, hw, fate, n, c); }
  }

  /** A cable sleep leaves foreign registers alone and, if it succeeds, leaves all
      others at their defaults. */
  lemma CableSleep(sys: SystemKind, hw: Hw, fate: Fate, n: nat, c: CableReg)
    requires IsCable(sys)
    ensures var (h, ok, m) := Play(SleepTable(sys), hw, fate, n);
            && (Foreign(sys, c) ==> Read(h, c) == Read(hw, c))
            && (ok && !Foreign(sys, c) ==> Read(h, c) == DefaultOf(c))
  {
    var restore := if sys.IsdbC? then RestoreC() else RestoreJ();
    PlaySplit(StopOutput() + restore, SleepCommon(), hw, fate, n);
    PlaySplit(StopOutput(), restore, hw, fate, n);
    CalmOutput(c, 0);
    CalmParts(c, true, 0);
    PlaySpares(StopOutput(), hw, fate, n, c);
    var (h, ok, m) := Play(StopOutput(), hw, fate, n);
    if ok {
      ForeignSpared(c);
      if Foreign(sys, c) { PlaySpares(restore, h, fate, m, c); }
      var (h2, ok2, m2) := Play(restore, h, fate, m);
      if ok2 {
        if !Foreign(sys, c) { if sys.IsdbC? { RestoresC(h, fate, m, c); } else { RestoresJ(h, fate, m, c); } }
        PlaySpares(SleepCommon(), h2, fate, m2, c);
      }
    }
  }

  lemma CableWake(sys: SystemKind, hw: Hw, fate: Fate, n: nat, c: CableReg)
    requires IsCable(sys)
    ensures var (h, ok, m) := Play(if sys.IsdbC? then WakeC() else WakeJ(), hw, fate, n);
            && (Foreign(sys, c) ==> Read(h, c) == Read(hw, c))
            && (ok && !Foreign(sys, c) ==> Read(h, c) == SettingOf(sys, c))
  {
    var before := if sys.IsdbC? then BeforeC() else BeforeJ();
    var config := if sys.IsdbC? then ConfigureC() else ConfigureJ();
    PlaySplit(before + config, StartOutput(0x08), hw, fate, n);
    PlaySplit(before, config, hw, fate, n);
    CalmBefore(c);
    CalmOutput(c, 0x08);
    PlaySpares(before, hw, fate, n, c);
    var (h, ok, m) := Play(before, hw, fate, n);
    if ok {
      ForeignSpared(c);
      if Foreign(sys, c) { PlaySpares(config, h, fate, m, c); }
      var (h2, ok2, m2) := Play(config, h, fate, m);
      if ok2 {
        if !Foreign(sys, c) { if sys.IsdbC? { ConfiguresC(h, fate, m, c); } else { ConfiguresJ(h, fate, m, c); } }
        PlaySpares(StartOutput(0x08), h2, fate, m2, c);
      }
    }
  }

  // ----- how far a failed sleep came ----------------------------------------

  /** Accesses of a table that is played to its end. */
  function Accesses(pages: seq<Page>): nat
    decreases |pages|
  {
    if |pages| == 0 then 0
    else |pages[0].acts| + (if pages[0].P? then 1 else 0) + Accesses(pages[1..])
  }

  lemma {:induction false} ActsCount(acts: seq<Act>, hw: Hw, fate: Fate, n: nat)
    ensures var (h, ok, m) := PlayActs(acts, hw, fate, n);
            if ok then m == n + |acts| else n < m <= n + |acts|
    decreases |acts|
  {
    if |acts| > 0 && fate(n).Done? { ActsCount(acts[1..], Apply(hw, acts[0]), fate, n + 1); }
  }

  lemma {:induction false} PlayCount(pages: seq<Page>, hw: Hw, fate: Fate, n: nat)
    ensures var (h, ok, m) := Play(pages, hw, fate, n);
            if ok then m == n + Accesses(pages) else n < m <= n + Accesses(pages)
    decreases |pages|
  {
    if |pages| > 0 {
      match pages[0] {
        case Stay(acts) => ActsCount(acts, hw, fate, n);
        case P(b, acts) => ActsCount(acts, hw.(bank := b), fate, n + 1);
      }
      var (h, ok, m) := PlayPage(pages[0], hw, fate, n);
      if ok { PlayCount(pages[1..], h, fate, m); }
    }
  }

  lemma {:induction false} ActsFate(acts: seq<Act>, hw: Hw, fate: Fate, n: nat)
    ensures var (h, ok, m) := PlayActs(acts, hw, fate, n);
            if ok then forall k :: n <= k < m ==> fate(k).Done? else m > n && !fate(m - 1).Done?
    decreases |acts|
  {
    if |acts| > 0 && fate(n).Done? { ActsFate(acts[1..], Apply(hw, acts[0]), fate, n + 1); }
  }

  /** Playing stops at the first access that fails. */
  lemma PageFate(page: Page, hw: Hw, fate: Fate, n: nat)
    ensures var (h, ok, m) := PlayPage(page, hw, fate, n);
            if ok then forall k :: n <= k < m ==> fate(k).Done? else m > n && !fate(m - 1).Done?
  {
    match page
    case Stay(acts) => ActsFate(acts, hw, fate, n);
    case P(b, acts) => ActsFate(acts, hw.(bank := b), fate, n + 1);
  }

  lemma {:induction false} PlayFate(pages: seq<Page>, hw: Hw, fate: Fate, n: nat)
    ensures var (h, ok, m) := Play(pages, hw, fate, n);
            if ok then forall k :: n <= k < m ==> fate(k).Done? else m > n && !fate(m - 1).Done?
    decreases |pages|
  {
    if |pages| > 0 {
      PageFate(pages[0], hw, fate, n);
      var (h, ok, m) := PlayPage(pages[0], hw, fate, n);
      if ok { PlayFate(pages[1..], h, fate, m); }
    }
  }

  function RestoreA3(): seq<Page> { [P(0x11, [W(0xa3, 0x00)])] }

  function AfterA3(sys: SystemKind): seq<Page>
    requires IsCable(sys)
  {
    (if sys.IsdbC? then RestoreC()[1..] else RestoreJ()[1..]) + SleepCommon()
  }

  lemma SleepParts(sys: SystemKind)
    requires IsCable(sys)
    ensures SleepTable(sys) == StopOutput() + (RestoreA3() + AfterA3(sys))
    ensures Accesses(StopOutput()) == A3_ACCESS - 1
    ensures AllSpare(AfterA3(sys), A3)
  {
    var restore := if sys.IsdbC? then RestoreC() else RestoreJ();
    assert restore == RestoreA3() + restore[1..];
    StopCount();
    if sys.IsdbC? { AfterC(); } else { AfterJ(); }
  }

  lemma StopCount()
    ensures Accesses(StopOutput()) == A3_ACCESS - 1
  {
    var stop := StopOutput();
    assert stop[1..] == TsPins(false);
    assert TsPins(false)[1..][1..] == [];
    assert Accesses(TsPins(false)) == 4;
  }

  lemma AfterC()
    ensures AllSpare(AfterA3(IsdbC), A3)
  {}

  lemma AfterJ()
    ensures AllSpare(AfterA3(J83B), A3)
  {}

  /** The one write that puts 0xa3 back. */
  lemma PlayA3(hw: Hw, fate: Fate, n: nat)
    ensures var (h, ok, m) := Play(RestoreA3(), hw, fate, n);
            && (ok ==> m == n + 2 && Read(h, A3) == 0x00)
            && (!ok ==> m <= n + 2)
            && (!ok && m == n + 2 && fate(n + 1).Late? ==> Read(h, A3) == 0x00)
            && (!ok && (m < n + 2 || !fate(n + 1).Late?) ==> h.regs == hw.regs)
  {
    var page := RestoreA3()[0];
    assert RestoreA3()[1..] == [];
    var g := hw.(bank := 0x11);
    assert PlayActs(page.acts[1..], Apply(g, page.acts[0]), fate, n + 2) == (Apply(g, page.acts[0]), true, n + 2);
    assert Read(Apply(g, page.acts[0]), A3) == 0x00;
  }

  /** A cable sleep that failed has put 0xa3 back if it came that far, and has
      changed no cable register otherwise. */
  lemma FailedSleep(sys: SystemKind, hw: Hw, fate: Fate, n: nat)
    requires IsCable(sys) && !Play(SleepTable(sys), hw, fate, n).1
    ensures var (h, ok, m) := Play(SleepTable(sys), hw, fate, n);
            if ReachedA3(n, m, fate) then Read(h, A3) == 0x00 else forall c :: Read(h, c) == Read(hw, c)
  {
    SleepParts(sys);
    var rest := RestoreA3() + AfterA3(sys);
    PlaySplit(StopOutput(), rest, hw, fate, n);
    PlayCount(StopOutput(), hw, fate, n);
    forall c ensures AllSpare(StopOutput(), c) { CalmOutput(c, 0); }
    CalmKept(StopOutput(), hw, fate, n);
    var (h, ok, m) := Play(StopOutput(), hw, fate, n);
    if ok {
      PlaySplit(RestoreA3(), AfterA3(sys), h, fate, m);
      PlayA3(h, fate, m);
      var (h2, ok2, m2) := Play(RestoreA3(), h, fate, m);
      if ok2 {
        PlayCount(AfterA3(sys), h2, fate, m2);
        PlaySpares(AfterA3(sys), h2, fate, m2, A3);
      }
    }
  }
}
