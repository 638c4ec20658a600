/** The synthesizers of the two tuners, down to the register values. */
module PllTuners {
  import opened Bytes
  import opened Pll

  // ----- the integer part in registers --------------------------------------

  /** Truncating division by 4, as in C. */
  function Quarter(n: int): int { if n >= 0 then n / 4 else -((-n) / 4) }

  /** The swallow counter's setting, in 8 bits. */
  function Coarse(nint: nat): nat { Quarter(nint - 13) % 256 }
  function Fine(nint: nat): nat { (nint - 13 - Coarse(nint) * 4) % 256 }

  lemma Decodes(nint: nat)
    requires 13 <= nint <= 524
    ensures Coarse(nint) == (nint - 13) / 4 < 128 && Fine(nint) == (nint - 13) % 4
    ensures Coarse(nint) * 4 + Fine(nint) + 13 == nint
  {}

  // ----- RT710 --------------------------------------------------------------

  const RT_XTAL: nat := 24000
  const RT_VCO_MIN: nat := 2350000

  function Wrap32(n: nat): nat { n % 0x1_0000_0000 }

  /** Registers 0x05, 0x06 and 0x07, and the output divider. */
  datatype RtSetting = RtSetting(mix: nat, r05: byte, r06: byte, r07: byte)

  function RtInteger(r05: byte): nat { (r05 % 64) * 4 + r05 / 64 + 13 }
  function RtModulator(s: RtSetting): nat { s.r07 as int * 256 + s.r06 as int }

  predicate RtInBand(vco: nat) { RT_VCO_MIN <= vco <= 2 * RT_VCO_MIN }

  /** The output divider: the smallest that puts the VCO into its band. */
  method RtDivider(freq: nat) returns (mix: nat, vco: nat)
    requires freq < 0x1_0000_0000
    ensures 146875 <= freq <= RT_VCO_MIN ==>
              && mix in {2, 4, 8, 16} && vco == freq * mix && RtInBand(vco)
              && (mix > 2 ==> !RtInBand(freq * (mix / 2)))
    ensures vco == Wrap32(freq * mix)
  {
    mix := 2;
    vco := Wrap32(freq * mix);
    while mix <= 16
      invariant mix in {2, 4, 8, 16, 32} && vco == Wrap32(freq * mix)
      invariant 146875 <= freq <= RT_VCO_MIN && mix > 2 ==> freq * (mix / 2) < RT_VCO_MIN
      decreases 32 - mix
    {
      if RtInBand(vco) { break; }
      mix := mix * 2;
      vco := Wrap32(freq * mix);
    }
  }

  /** The register values decode to a VCO frequency near the wanted one. */
  ghost predicate RtTuned(freq: nat, s: RtSetting) {
    && s.mix in {2, 4, 8, 16} && RtInBand(freq * s.mix)
    && Divided(RT_XTAL, freq * s.mix, RtInteger(s.r05), RtModulator(s))
  }

  lemma Packs(coarse: nat, fine: nat, r05: byte)
    requires coarse < 64 && fine < 4 && r05 as int == coarse + fine * 64
    ensures RtInteger(r05) == coarse * 4 + fine + 13
  {}

  lemma RtDecodes(nint: nat)
    requires 13 <= nint < 256
    ensures RtInteger(IntegerByte(nint)) == nint
  {
    Decodes(nint);
    Packs(Coarse(nint), Fine(nint), IntegerByte(nint));
  }

  /** Register 0x05. */
  function IntegerByte(nint: nat): byte { Coarse(nint) % 64 + Fine(nint) % 4 * 64 }

  /** Below 12 GHz the widths of the driver lose nothing. */
  lemma RtWidths(vco: nat)
    requires vco < 12_000_000
    ensures vco / 2 / 24000 % 256 == vco / 48000
    ensures (vco - 48000 * (vco / 48000)) % 65536 == vco % 48000
  {}

  /** What the driver makes of a split frequency there. */
  lemma RtDivided(vco: nat, n: nat, f: nat, sdm: nat)
    requires vco < 12_000_000 && (n, f) == Snap(24000, vco / 48000, vco % 48000)
    requires f < 48000 ==> -7 * 65536 < 65536 * f - 48000 * sdm <= 2 * 65536
    requires f <= 1 ==> sdm == 0
    ensures n % 256 == n && Divided(24000, vco, n, sdm)
  {
    SnapFits(24000, vco / 48000, vco % 48000);
    DividedBound(24000, vco, n, f, sdm);
  }

  /** The division with the widths of the driver: 8 bits for the integer part, 16
      for the fraction. */
  method RtDivide(vco: nat) returns (nint: nat, sdm: nat)
    requires vco < 0x1_0000_0000
    ensures nint < 256 && sdm < 65536
    ensures vco < 12_000_000 ==> Divided(RT_XTAL, vco, nint, sdm)
  {
    nint := vco / 2 / RT_XTAL % 256;
    var fra: nat := (vco - RT_XTAL * 2 * nint) % 65536;
    if vco < 12_000_000 { RtWidths(vco); }
    var (n, f) := Snap(RT_XTAL, nint, fra);
    sdm := Expand(2 * RT_XTAL, f);
    Loss24();
    if vco < 12_000_000 { RtDivided(vco, n, f, sdm); }
    nint := n % 256;
  }

  /** For every frequency in the tuner's range; for others the registers hold what
      the widths leave. */
  method RtSetPll(freq: nat) returns (s: RtSetting)
    requires freq < 0x1_0000_0000
    ensures 146875 <= freq <= RT_VCO_MIN ==> RtTuned(freq, s)
  {
    var mix, vco := RtDivider(freq);
    var nint, sdm := RtDivide(vco);
    s := RtSetting(mix, IntegerByte(nint), sdm % 256, sdm / 256);
    if 146875 <= freq <= RT_VCO_MIN { RtDecodes(nint); }
  }

  // ----- R850 ---------------------------------------------------------------

  /** The first chip type starts its VCO band higher. */
  function VcoMin(chip: bool): nat { if chip then 2200000 else 2270000 }

  predicate InBand(chip: bool, vco: nat) { VcoMin(chip) <= vco < 2 * VcoMin(chip) }

  /** The fields of registers 0x1b, 0x1c, 0x1d, 0x1e and 0x22 that hold the dividers. */
  datatype Setting = Setting(coarse: nat, fine: nat, div: nat, clock: nat, low: byte, high: byte)

  /** The crystal that the clock field selects. */
  function CrystalOf(clock: nat): nat { if clock == 2 then 12000 else if clock == 3 then 6000 else 24000 }

  function Mix(div: nat): nat { 2 * Pow(div) }
  function Integer(s: Setting): nat { s.coarse * 4 + s.fine + 13 }
  function Modulator(s: Setting): nat { s.high as int * 256 + s.low as int }

  method Divider(chip: bool, lo: nat) returns (div: nat, vco: nat)
    requires 17735 <= lo < 2200000
    ensures div <= 6 && vco == lo * Mix(div) && InBand(chip, vco)
  {
    div := 0;
    var mix := 2;
    vco := lo * mix;
    while div < 6
      invariant div <= 6 && mix == Mix(div) && vco == lo * mix
      invariant vco < 2 * VcoMin(chip)
      decreases 6 - div
    {
      if InBand(chip, vco) { break; }
      mix := mix * 2;
      vco := lo * mix;
      div := div + 1;
    }
    if div == 6 { assert mix == 128 by { Powers(); } }
  }

  /** The crystal is divided below 380.5 MHz for even twelfths and, for ISDB-T, around
      478 MHz. The difference wraps around below it. */
  function Clock(lo: nat, ifreq: nat, terrestrial: bool): (clock: nat)
    ensures Crystal(CrystalOf(clock)) && clock < 4
  {
    if lo < 380500 then (if (lo + ifreq) / 1000 / 12 % 2 == 0 then 2 else 0)
    else if Wrap32(lo + ifreq + 0x1_0000_0000 - 478000) < 4000 && terrestrial then 3
    else 0
  }

  /** The crystal stands for itself above 380.5 MHz, but for the 4 MHz from 478 MHz on
      that an oscillator below the frequency makes the received ones in ISDB-T. */
  lemma ClockExactly(lo: nat, ifreq: nat, terrestrial: bool)
    requires lo < 2200000 && ifreq <= 5070
    ensures Clock(lo, ifreq, terrestrial) == 3 <==>
              terrestrial && lo >= 380500 && 478000 <= lo + ifreq < 482000
    ensures Clock(lo, ifreq, terrestrial) == 2 <==> lo < 380500 && (lo + ifreq) / 12000 % 2 == 0
    ensures Clock(lo, ifreq, terrestrial) in {0, 2, 3}
  {}

  ghost predicate Tuned(chip: bool, lo: nat, s: Setting) {
    && InBand(chip, lo * Mix(s.div)) && s.div < 8 && s.coarse < 128 && s.fine < 4 && s.clock < 4
    && Crystal(CrystalOf(s.clock))
    && Divided(CrystalOf(s.clock), lo * Mix(s.div), Integer(s), Modulator(s))
  }

  lemma IntegerRange(chip: bool, vco: nat, clock: nat, nint: nat)
    requires InBand(chip, vco) && Crystal(CrystalOf(clock))
    requires var x := 2 * CrystalOf(clock); vco / x <= nint <= vco / x + 1
    ensures 13 <= nint <= 524
  {}

  method SetPll(chip: bool, lo: nat, ifreq: nat, terrestrial: bool) returns (s: Setting)
    requires 17735 <= lo < 2200000
    ensures Tuned(chip, lo, s) && s.clock == Clock(lo, ifreq, terrestrial)
  {
    var div, vco := Divider(chip, lo);
    var clock := Clock(lo, ifreq, terrestrial);
    var nint, sdm := Divide(CrystalOf(clock), vco);
    IntegerRange(chip, vco, clock, nint);
    Decodes(nint);
    s := Setting(Coarse(nint), Fine(nint), div, clock, sdm % 256, sdm / 256);
  }

  datatype Result<T> = Ok(value: T) | InvalidArgument | Failed

  /** The local oscillator lies an intermediate frequency below the received frequency,
      or above it. */
  function LocalOscillator(rf: nat, ifreq: nat, below: bool): (lo: int)
    ensures if below then rf - lo == ifreq else lo - rf == ifreq
  {
    if below then rf - ifreq else rf + ifreq
  }

  /** What the tuner has to offer besides the frequency: the driver's own state, the
      rows of its tables, and the bus at its three turns. */
  datatype Conditions =
    Conditions(ready: bool, image: bool, systemRow: bool, filter: bool, frequencyRow: bool, written: bool)

  /** Every frequency in range is tuned, for every intermediate frequency of the
      driver's tables, unless something else is missing: an initialised tuner with a
      system, a row for the system once the image calibration is done, a row for the
      frequency once the filter calibration is done, or the bus. */
  method SetFrequency(chip: bool, rf: nat, ifreq: nat, below: bool, terrestrial: bool, c: Conditions)
    returns (r: Result<Setting>)
    requires 1900 <= ifreq <= 5070
    ensures r.InvalidArgument? <==>
              || !c.ready || rf < 40000 || rf > 1002000
              || (c.image && !c.systemRow) || (c.image && c.filter && !c.frequencyRow)
    ensures r.Failed? <==> !r.InvalidArgument? && !(c.image && c.filter && c.written)
    ensures r.Ok? ==>
              forall lo: nat :: (if below then rf - lo == ifreq else lo - rf == ifreq) ==>
                Tuned(chip, lo, r.value) && r.value.clock == Clock(lo, ifreq, terrestrial)
  {
    if !c.ready || rf < 40000 || rf > 1002000 { return InvalidArgument; }
    if !c.image { return Failed; }
    if !c.systemRow { return InvalidArgument; }
    if !c.filter { return Failed; }
    if !c.frequencyRow { return InvalidArgument; }
    var lo: nat := LocalOscillator(rf, ifreq, below);
    var s := SetPll(chip, lo, ifreq, terrestrial);
    r := if c.written then Ok(s) else Failed;
  }
}
