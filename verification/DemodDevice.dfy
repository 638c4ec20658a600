/** The demodulator object: accesses one after the other, returning at a failure. */
module DemodDevice {
  import opened DemodTables
  import opened Demod
  import opened DemodTheorems
  import opened DemodRuns
  import opened DemodSettings
  import opened DemodOutput
  import opened DemodReception

  lemma WakeResult(d: Dev, sys: SystemKind, six: bool, fate: Fate)
    requires Inv(d)
    ensures var (e, ok) := Demod.Wakeup(d, sys, six, fate);
            ok ==>
              && e.power.Active? && e.system == sys && !e.incomplete
              && (!IsCable(sys) ==> AllDefault(e.hw))
              && (IsCable(sys) && !Short(d, sys) ==> AllSet(e.hw, sys))
  {
    if Demod.Wakeup(d, sys, six, fate).1 { WakeSuccess(d, sys, six, fate); }
  }

  /** What a sleep leaves in the chip, as far as its accesses succeed. */
  ghost predicate SleepsChip(d: Dev, fate: Fate, hw: Hw) {
    !d.power.Asleep? && !d.system.Unspecified? ==>
      && (Play(StopOutput(), d.hw, fate, d.clock).1 ==> OutputOff(hw))
      && (Play(SleepTable(d.system), d.hw, fate, d.clock).1 ==> OutputOff(hw) && PoweredDown(hw))
  }

  lemma SleepResult(d: Dev, fate: Fate)
    ensures SleepsChip(d, fate, Demod.Sleep(d, fate).0.hw)
  {
    if !d.power.Asleep? && !d.system.Unspecified? { SleepStops(d, fate); }
  }

  lemma WakeEffect(d: Dev, sys: SystemKind, six: bool, fate: Fate)
    ensures Demod.Wakeup(d, sys, six, fate).1 ==> WakesChip(d, sys, Demod.Wakeup(d, sys, six, fate).0)
  {
    if Demod.Wakeup(d, sys, six, fate).1 { WakeStarts(d, sys, six, fate); }
  }

  class Demodulator {
    var hw: Hw
    var power: Power
    var system: SystemKind
    var incomplete: bool
    var clock: nat
    const fate: Fate

    constructor (hw: Hw, fate: Fate)
      ensures this.fate == fate && State() == Dev(hw, Asleep, Unspecified, false, 0)
      ensures AllDefault(hw) ==> Inv(State())
    {
      this.hw, this.fate, clock := hw, fate, 0;
      power, system, incomplete := Asleep, Unspecified, false;
    }

    function State(): Dev
      reads this
    {
      Dev(hw, power, system, incomplete, clock)
    }

    /** One register access. */
    method Access(act: Act) returns (ok: bool)
      modifies this`hw, this`clock
      ensures (hw, ok, clock) == PlayActs([act], old(hw), fate, old(clock))
    {
      ok := fate(clock).Done?;
      if !fate(clock).Lost? { hw := Apply(hw, act); }
      clock := clock + 1;
    }

    method SelectBank(bank: nat) returns (ok: bool)
      modifies this`hw, this`clock
      ensures ok == fate(old(clock)).Done? && clock == old(clock) + 1
      ensures hw == if fate(old(clock)).Lost? then old(hw) else old(hw).(bank := bank)
    {
      ok := fate(clock).Done?;
      if !fate(clock).Lost? { hw := hw.(bank := bank); }
      clock := clock + 1;
    }

    method PlayPage(page: Page) returns (ok: bool)
      modifies this`hw, this`clock
      ensures (hw, ok, clock) == DemodTables.PlayPage(page, old(hw), fate, old(clock))
    {
      if page.P? {
        ok := SelectBank(page.bank);
        if !ok { return; }
      }
      ghost var h, n := hw, clock;
      var i := 0;
      while i < |page.acts|
        invariant 0 <= i <= |page.acts|
        invariant PlayActs(page.acts, h, fate, n) == PlayActs(page.acts[i..], hw, fate, clock)
      {
        assert page.acts[i..][1..] == page.acts[i + 1..];
        ok := Access(page.acts[i]);
        if !ok { return; }
        i := i + 1;
      }
      ok := true;
    }

    method PlayTable(pages: seq<Page>) returns (ok: bool)
      modifies this`hw, this`clock
      ensures (hw, ok, clock) == Play(pages, old(hw), fate, old(clock))
    {
      var i := 0;
      while i < |pages|
        invariant 0 <= i <= |pages|
        invariant Play(pages, old(hw), fate, old(clock)) == Play(pages[i..], hw, fate, clock)
      {
        assert pages[i..][1..] == pages[i + 1..];
        ok := PlayPage(pages[i]);
        if !ok { return; }
        i := i + 1;
      }
      ok := true;
    }

    method Stop() returns (ok: bool)
      modifies this
      ensures (State(), ok) == Demod.Sleep(old(State()), fate)
    {
      if power.Asleep? { return false; }
      var done := PlayTable(SleepTable(system));
      if IsCable(system) && !done { return false; }
      incomplete, power, system := false, Asleep, Unspecified;
      return true;
    }

    /** Whatever fails, no cable setting outlives its record; the output is stopped and
        the demodulator powered down as far as the accesses succeed. */
    method Sleep() returns (ok: bool)
      requires Inv(State())
      modifies this
      ensures (State(), ok) == Demod.Sleep(old(State()), fate)
      ensures Inv(State()) && (ok ==> power.Asleep? && AllDefault(hw))
      ensures SleepsChip(old(State()), fate, hw)
    {
      SleepResult(State(), fate);
      SleepKeeps(State(), fate);
      ok := Stop();
    }

    method Retune(six: bool) returns (ok: bool)
      modifies this`hw, this`clock
      ensures (State(), ok) == Demod.Retune(old(State()), six, fate)
    {
      match system {
        case IsdbT => ok := PlayTable(ResetOutput() + BandT(six)); ok := ok && six;
        case IsdbS => ok := PlayTable(ResetOutput());
        case IsdbC => ok := PlayTable(ResetOutput());
        case J83B => ok := PlayTable(ResetOutput() + BandJ());
        case Unspecified => ok := false;
      }
    }

    method Start(sys: SystemKind, six: bool) returns (ok: bool)
      modifies this
      ensures (State(), ok) == Demod.Start(old(State()), sys, six, fate)
    {
      match sys {
        case IsdbT =>
          ok := PlayTable(WakeT() + BandT(six));
          if ok && six { ok := PlayTable(StartOutput(0x08)); } else { ok := false; }
        case IsdbS => ok := PlayTable(WakeS());
        case IsdbC =>
          incomplete, system, power := true, IsdbC, Active;
          ok := PlayTable(WakeC());
        case J83B =>
          incomplete, system, power := true, J83B, Active;
          ok := PlayTable(WakeJ());
        case Unspecified => ok := false;
      }
    }

    method Record(sys: SystemKind)
      modifies this`system, this`power, this`incomplete
      ensures State() == old(State()).(system := sys, power := Active, incomplete := false)
    {
      system, power, incomplete := sys, Active, false;
    }

    method Begin(sys: SystemKind, six: bool) returns (ok: bool)
      modifies this
      ensures (State(), ok) == Demod.Begin(old(State()), sys, six, fate)
    {
      ok := Start(sys, six);
      if ok { Record(sys); }
    }

    method Proceed(sys: SystemKind, six: bool) returns (ok: bool)
      modifies this
      ensures (State(), ok) == Demod.Proceed(old(State()), sys, six, fate)
    {
      if power.Active? {
        if system == sys {
          ok := Retune(six);
          return;
        }
        var _ := Stop();
      }
      ok := Begin(sys, six);
    }

    method Restart(sys: SystemKind, six: bool) returns (ok: bool)
      modifies this
      ensures (State(), ok) == Demod.Wakeup(old(State()), sys, six, fate)
    {
      if MustRestore(State(), sys) {
        ok := Stop();
        if !ok { return; }
      }
      ok := Proceed(sys, six);
    }

    /** Success leaves the defaults off the cable, all settings of a cable system that
        was not merely retuned, and the output on in the way of the system. */
    method Wakeup(sys: SystemKind, six: bool) returns (ok: bool)
      requires Inv(State())
      modifies this
      ensures (State(), ok) == Demod.Wakeup(old(State()), sys, six, fate)
      ensures Inv(State()) && (ok ==> power.Active? && system == sys && !incomplete)
      ensures ok && !IsCable(sys) ==> AllDefault(hw)
      ensures ok && IsCable(sys) && !Short(old(State()), sys) ==> AllSet(hw, sys)
      ensures ok ==> WakesChip(old(State()), sys, State())
    {
      WakeEffect(State(), sys, six, fate);
      WakeKeeps(State(), sys, six, fate);
      WakeResult(State(), sys, six, fate);
      ok := Restart(sys, six);
    }
  }
}
