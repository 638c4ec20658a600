/** What playing a table can do to the cable registers, whatever fails. */
module DemodEffects {
  import opened Bytes
  import opened DemodTables
  import opened DemodPlay

  function At(c: CableReg): Address { Address(BankOf(c), RegOf(c)) }

  /** No access of the table can reach `c`. */
  predicate AllSpare(pages: seq<Page>, c: CableReg) { AllClear(pages, At(c)) }

  /** Whatever fails, a table that spares a register leaves it as it was. */
  lemma PlaySpares(pages: seq<Page>, hw: Hw, fate: Fate, n: nat, c: CableReg)
    requires AllSpare(pages, c)
    ensures Read(Play(pages, hw, fate, n).0, c) == Read(hw, c)
  {
    PlayClear(pages, hw, fate, n, At(c));
  }

  // ----- the driver's tables ------------------------------------------------

  lemma SpareJoin(a: seq<Page>, b: seq<Page>, c: CableReg)
    requires AllSpare(a, c) && AllSpare(b, c)
    ensures AllSpare(a + b, c)
  {
    ClearJoin(a, b, At(c));
  }

  lemma CalmClock(c: CableReg, sys: SystemKind)
    ensures AllSpare(TsClock(sys), c)
  {}

  lemma CalmPins(c: CableReg, on: bool)
    ensures AllSpare(TsPins(on), c) && AllSpare(ResetOutput(), c) && AllSpare(PostTune(), c)
  {}

  lemma CalmPower(c: CableReg, val: byte)
    ensures AllSpare(SleepCommon(), c) && AllSpare(PowerAdc(val), c)
  {}

  lemma CalmParts(c: CableReg, on: bool, val: byte)
    ensures AllSpare(TsPins(on), c) && AllSpare(ResetOutput(), c)
    ensures AllSpare(SleepCommon(), c) && AllSpare(PowerAdc(val), c) && AllSpare(PostTune(), c)
  {
    CalmPins(c, on);
    CalmPower(c, val);
  }

  lemma CalmOutput(c: CableReg, val: byte)
    ensures AllSpare(StopOutput(), c) && AllSpare(StartOutput(val), c)
  {
    CalmParts(c, true, 0);
    CalmParts(c, false, 0);
    SpareJoin([P(0x00, [W(0xc3, 0x01), Set(0x80, 0x1f, 0x1f)])], TsPins(false), c);
    SpareJoin([P(0x00, [Set(0x80, val, 0x1f)])], TsPins(true), c);
  }

  lemma CalmPowerOff(c: CableReg)
    ensures AllSpare(PowerOffT(), c) && AllSpare(PowerOffS(), c)
  {}

  lemma CalmSleepT(c: CableReg)
    ensures AllSpare(SleepT(), c)
  {
    CalmOutput(c, 0);
    CalmPowerOff(c);
    SpareJoin(StopOutput(), PowerOffT(), c);
  }

  lemma CalmSleepS(c: CableReg)
    ensures AllSpare(SleepS(), c)
  {
    CalmOutput(c, 0);
    CalmPowerOff(c);
    SpareJoin(StopOutput(), PowerOffS(), c);
  }

  lemma CalmSleep(c: CableReg)
    ensures AllSpare(SleepT(), c) && AllSpare(SleepS(), c)
  {
    CalmSleepT(c);
    CalmSleepS(c);
  }

  lemma CalmBandT(c: CableReg, six: bool)
    ensures AllSpare(BandT(six), c)
  {}

  lemma CalmTune(c: CableReg)
    ensures AllSpare(TuneT(), c) && AllSpare(TuneS(), c)
  {}

  lemma CalmWake(c: CableReg)
    ensures AllSpare(WakeT(), c) && AllSpare(WakeS(), c)
  {
    CalmClock(c, IsdbT);
    CalmClock(c, IsdbS);
    CalmParts(c, true, 0x06);
    CalmTune(c);
    CalmOutput(c, 0x10);
    SpareJoin(TsClock(IsdbT), PowerAdc(0x06), c);
    SpareJoin(TsClock(IsdbT) + PowerAdc(0x06), TuneT(), c);
    SpareJoin(TsClock(IsdbS), TuneS(), c);
    SpareJoin(TsClock(IsdbS) + TuneS(), StartOutput(0x10), c);
  }

  lemma CalmBefore(c: CableReg)
    ensures AllSpare(BeforeC(), c) && AllSpare(BeforeJ(), c)
  {
    CalmClock(c, IsdbC);
    CalmClock(c, J83B);
    CalmParts(c, true, 0x09);
    CalmParts(c, true, 0x08);
  }

  // ----- the cable tables ---------------------------------------------------

  /** The registers that only one of the two cable systems uses. */
  predicate OnlyC(c: CableReg) { c.R2C? }
  predicate OnlyJ(c: CableReg) { c.R21? || c.RB3? || c.R8E? || c.CF? }

  /** The settings of the cable systems; other systems leave the defaults. */
  function SettingOf(sys: SystemKind, c: CableReg): byte {
    match sys
    case IsdbC => (match c case A3 => 0x14 case R14 => 0x14 case R1E => 0x80 case R2C => 0x03 case _ => DefaultOf(c))
    case J83B =>
      (match c
       case A3 => 0x14 case R14 => 0x10 case R1E => 0x80 case R21 => 0x04
       case RB3 => 0x05 case R8E => 0x58 case CF => 0x99 case R2C => DefaultOf(c))
    case _ => DefaultOf(c)
  }

  lemma ForeignSpared(c: CableReg)
    ensures OnlyJ(c) ==> AllSpare(RestoreC(), c) && AllSpare(ConfigureC(), c)
    ensures OnlyC(c) ==> AllSpare(RestoreJ(), c) && AllSpare(ConfigureJ(), c)
    ensures c != R14 ==> AllSpare(BandJ(), c)
  {
    if OnlyJ(c) { OnlyJSpared(c); }
    if OnlyC(c) { OnlyCSpared(c); }
  }

  lemma OnlyJSpared(c: CableReg)
    requires OnlyJ(c)
    ensures AllSpare(RestoreC(), c) && AllSpare(ConfigureC(), c)
  {}

  lemma OnlyCSpared(c: CableReg)
    requires OnlyC(c)
    ensures AllSpare(RestoreJ(), c) && AllSpare(ConfigureJ(), c)
  {}

  /** Where a sleep table puts each register back. */
  lemma RestoresC(hw: Hw, fate: Fate, n: nat, c: CableReg)
    requires Play(RestoreC(), hw, fate, n).1 && !OnlyJ(c)
    ensures Read(Play(RestoreC(), hw, fate, n).0, c) == DefaultOf(c)
  {
    match c
    case A3 => PlayWrites(RestoreC(), hw, fate, n, At(c), 0x00, 0, 0);
    case R2C => PlayWrites(RestoreC(), hw, fate, n, At(c), 0x01, 1, 0);
    case R14 => PlayWrites(RestoreC(), hw, fate, n, At(c), 0x1f, 2, 0);
    case R1E => PlayWrites(RestoreC(), hw, fate, n, At(c), 0x00, 2, 1);
  }

  lemma RestoresJA3(hw: Hw, fate: Fate, n: nat)
    requires Play(RestoreJ(), hw, fate, n).1
    ensures Read(Play(RestoreJ(), hw, fate, n).0, A3) == DefaultOf(A3)
  {
    PlayWrites(RestoreJ(), hw, fate, n, At(A3), 0x00, 0, 0);
  }

  lemma RestoresJFirst(hw: Hw, fate: Fate, n: nat, c: CableReg)
    requires Play(RestoreJ(), hw, fate, n).1 && (c.R21? || c.RB3?)
    ensures Read(Play(RestoreJ(), hw, fate, n).0, c) == DefaultOf(c)
  {
    match c
    case R21 => PlayWrites(RestoreJ(), hw, fate, n, At(c), 0x00, 1, 0);
    case RB3 => PlayWrites(RestoreJ(), hw, fate, n, At(c), 0x02, 1, 2);
  }

  lemma RestoresJThen(hw: Hw, fate: Fate, n: nat, c: CableReg)
    requires Play(RestoreJ(), hw, fate, n).1 && (c.R1E? || c.R8E?)
    ensures Read(Play(RestoreJ(), hw, fate, n).0, c) == DefaultOf(c)
  {
    match c
    case R1E => PlayWrites(RestoreJ(), hw, fate, n, At(c), 0x00, 1, 3);
    case R8E => PlayWrites(RestoreJ(), hw, fate, n, At(c), 0x0e, 1, 4);
  }

  lemma RestoresJ(hw: Hw, fate: Fate, n: nat, c: CableReg)
    requires Play(RestoreJ(), hw, fate, n).1 && !OnlyC(c)
    ensures Read(Play(RestoreJ(), hw, fate, n).0, c) == DefaultOf(c)
  {
    match c
    case A3 => RestoresJA3(hw, fate, n);
    case CF => PlayWrites(RestoreJ(), hw, fate, n, At(c), 0x77, 2, 0);
    case R14 => PlayWrites(RestoreJ(), hw, fate, n, At(c), 0x1f, 3, 0);
    case R1E => RestoresJThen(hw, fate, n, c);
    case R8E => RestoresJThen(hw, fate, n, c);
    case _ => RestoresJFirst(hw, fate, n, c);
  }

  lemma ConfiguresC(hw: Hw, fate: Fate, n: nat, c: CableReg)
    requires Play(ConfigureC(), hw, fate, n).1 && !OnlyJ(c)
    ensures Read(Play(ConfigureC(), hw, fate, n).0, c) == SettingOf(IsdbC, c)
  {
    match c
    case R2C => PlayWrites(ConfigureC(), hw, fate, n, At(c), 0x03, 0, 0);
    case A3 => PlayWrites(ConfigureC(), hw, fate, n, At(c), 0x14, 3, 0);
    case _ => ConfiguresCLast(hw, fate, n, c);
  }

  lemma ConfiguresCLast(hw: Hw, fate: Fate, n: nat, c: CableReg)
    requires Play(ConfigureC(), hw, fate, n).1 && (c.R14? || c.R1E?)
    ensures Read(Play(ConfigureC(), hw, fate, n).0, c) == SettingOf(IsdbC, c)
  {
    if c.R14? { PlayWrites(ConfigureC(), hw, fate, n, At(c), 0x14, 4, 0); }
    else { PlayWrites(ConfigureC(), hw, fate, n, At(c), 0x80, 4, 1); }
  }

  lemma SetsModeJ(hw: Hw, fate: Fate, n: nat, c: CableReg)
    requires Play(ModeJ(), hw, fate, n).1 && (c.R21? || c.RB3? || c.R1E? || c.R8E?)
    ensures Read(Play(ModeJ(), hw, fate, n).0, c) == SettingOf(J83B, c)
  {
    match c
    case R21 => PlayWrites(ModeJ(), hw, fate, n, At(c), 0x04, 0, 0);
    case RB3 => PlayWrites(ModeJ(), hw, fate, n, At(c), 0x05, 0, 1);
    case R1E => PlayWrites(ModeJ(), hw, fate, n, At(c), 0x80, 0, 2);
    case R8E => PlayWrites(ModeJ(), hw, fate, n, At(c), 0x58, 0, 3);
  }

  lemma SetsRestJ(hw: Hw, fate: Fate, n: nat, c: CableReg)
    requires Play(RestJ(), hw, fate, n).1 && (c.CF? || c.A3? || c.R14?)
    ensures Read(Play(RestJ(), hw, fate, n).0, c) == SettingOf(J83B, c)
  {
    match c
    case CF => PlayWrites(RestJ(), hw, fate, n, At(c), 0x99, 0, 0);
    case A3 => PlayWrites(RestJ(), hw, fate, n, At(c), 0x14, 1, 0);
    case R14 => SetsBandJ(hw, fate, n);
  }

  lemma SetsBandJ(hw: Hw, fate: Fate, n: nat)
    requires Play(RestJ(), hw, fate, n).1
    ensures Read(Play(RestJ(), hw, fate, n).0, R14) == SettingOf(J83B, R14)
  {
    PlayWrites(RestJ(), hw, fate, n, At(R14), 0x10, 5, 0);
  }

  lemma RestSparesMode(c: CableReg)
    requires c.R21? || c.RB3? || c.R1E? || c.R8E?
    ensures AllSpare(RestJ(), c)
  {}

  lemma ConfiguresJ(hw: Hw, fate: Fate, n: nat, c: CableReg)
    requires Play(ConfigureJ(), hw, fate, n).1 && !OnlyC(c)
    ensures Read(Play(ConfigureJ(), hw, fate, n).0, c) == SettingOf(J83B, c)
  {
    PlaySplit(ModeJ(), RestJ(), hw, fate, n);
    var (h, ok, m) := Play(ModeJ(), hw, fate, n);
    if c.CF? || c.A3? || c.R14? {
      SetsRestJ(h, fate, m, c);
    } else {
      SetsModeJ(hw, fate, n, c);
      RestSparesMode(c);
      PlaySpares(RestJ(), h, fate, m, c);
    }
  }
}
