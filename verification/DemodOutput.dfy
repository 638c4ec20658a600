/** What waking and sleeping do to the chip: which system it is set to receive, and
    whether its transport stream output is on. */
module DemodOutput {
  import opened Bytes
  import opened ByteBits
  import opened DemodTables
  import opened DemodPlay
  import opened Demod
  import opened DemodRuns
  import opened DemodSettings

  function Main(reg: nat): Address { Address(0x00, reg) }

  // ----- the output ---------------------------------------------------------

  /** The pins that 0xc4 names are driven, or floating. */
  ghost predicate Pins(hw: Hw, driven: bool) {
    forall k :: 0 <= k < 8 && Bit(PinMask(hw.regs(Main(0xc4))), k) ==> Bit(hw.regs(Main(0x81)), k) == !driven
  }

  /** The stream is put out, in the way of the system. */
  ghost predicate OutputOn(hw: Hw, sys: SystemKind) {
    hw.regs(Main(0x80)) as int % 32 == (if sys.IsdbS? then 0x10 else 0x08) && Pins(hw, true)
  }

  ghost predicate OutputOff(hw: Hw) {
    hw.regs(Main(0xc3)) == 0x01 && hw.regs(Main(0x80)) as int % 32 == 0x1f && Pins(hw, false)
  }

  /** The registers that the output depends on are the same. */
  predicate SameOutput(a: Hw, b: Hw) {
    a.regs(Main(0x80)) == b.regs(Main(0x80)) && a.regs(Main(0x81)) == b.regs(Main(0x81))
    && a.regs(Main(0xc4)) == b.regs(Main(0xc4))
  }

  predicate QuietPages(pages: seq<Page>) {
    AllClear(pages, Main(0x80)) && AllClear(pages, Main(0x81)) && AllClear(pages, Main(0xc4))
  }

  lemma Quiet(pages: seq<Page>, hw: Hw, fate: Fate, n: nat)
    requires QuietPages(pages)
    ensures SameOutput(hw, Play(pages, hw, fate, n).0)
  {
    PlayClear(pages, hw, fate, n, Main(0x80));
    PlayClear(pages, hw, fate, n, Main(0x81));
    PlayClear(pages, hw, fate, n, Main(0xc4));
  }

  /** The low five bits of a byte that is written under 0x1f. */
  lemma LowFive(was: byte, val: byte)
    requires val < 32
    ensures Merge(was, val, 0x1f) as int % 32 == val && Merge(was, val, 0x1f) as int / 32 == was as int / 32
  {
    var m := Merge(was, val, 0x1f);
    ByteSplit(m);
    ByteSplit(was);
    ByteSplit(val);
    LowKept(was, val);
    HighKept(was, val);
  }

  lemma LowKept(was: byte, val: byte)
    ensures var m := Merge(was, val, 0x1f);
            && Bit(m, 0) == Bit(val, 0) && Bit(m, 1) == Bit(val, 1) && Bit(m, 2) == Bit(val, 2)
            && Bit(m, 3) == Bit(val, 3) && Bit(m, 4) == Bit(val, 4)
  {
    MaskFive();
    MergeBits(was, val, 0x1f, 0);
    MergeBits(was, val, 0x1f, 1);
    MergeBits(was, val, 0x1f, 2);
    MergeBits(was, val, 0x1f, 3);
    MergeBits(was, val, 0x1f, 4);
  }

  lemma HighKept(was: byte, val: byte)
    ensures var m := Merge(was, val, 0x1f);
            Bit(m, 5) == Bit(was, 5) && Bit(m, 6) == Bit(was, 6) && Bit(m, 7) == Bit(was, 7)
  {
    MaskFive();
    MergeBits(was, val, 0x1f, 5);
    MergeBits(was, val, 0x1f, 6);
    MergeBits(was, val, 0x1f, 7);
  }

  lemma ByteSplit(m: byte)
    ensures m as int / 32 == Weight(Bit(m, 7), 4) + Weight(Bit(m, 6), 2) + Weight(Bit(m, 5), 1)
    ensures m as int % 32 ==
            Weight(Bit(m, 4), 16) + Weight(Bit(m, 3), 8) + Weight(Bit(m, 2), 4) + Weight(Bit(m, 1), 2) +
            Weight(Bit(m, 0), 1)
  {
    ByteOfBits(m);
    SplitOctet(m as int, Bit(m, 7), Bit(m, 6), Bit(m, 5), Bit(m, 4), Bit(m, 3), Bit(m, 2), Bit(m, 1), Bit(m, 0));
  }

  lemma MaskFive()
    ensures Bit(0x1f, 0) && Bit(0x1f, 1) && Bit(0x1f, 2) && Bit(0x1f, 3) && Bit(0x1f, 4)
    ensures !Bit(0x1f, 5) && !Bit(0x1f, 6) && !Bit(0x1f, 7)
  {}

  lemma SplitOctet(m: int, a: bool, b: bool, c: bool, d: bool, e: bool, f: bool, g: bool, h: bool)
    requires m == Octet(a, b, c, d, e, f, g, h)
    ensures m / 32 == Weight(a, 4) + Weight(b, 2) + Weight(c, 1)
    ensures m % 32 == Weight(d, 16) + Weight(e, 8) + Weight(f, 4) + Weight(g, 2) + Weight(h, 1)
  {}

  /** The pins after the write that switches them. */
  lemma PinWritten(hw: Hw, on: bool)
    requires hw.bank == 0x00
    ensures Pins(Apply(hw, Pin(on)), on)
  {
    var h := Apply(hw, Pin(on));
    var mask := PinMask(hw.regs(Main(0xc4)));
    assert h.regs(Main(0xc4)) == hw.regs(Main(0xc4));
    forall k | 0 <= k < 8 && Bit(mask, k) ensures Bit(h.regs(Main(0x81)), k) == !on {
      MergeBits(hw.regs(Main(0x81)), if on then 0x00 else 0xff, mask, k);
      AllBits(k);
    }
  }

  lemma AllBits(k: nat)
    requires k < 8
    ensures Bit(0xff, k) && !Bit(0x00, k)
  {}

  /** A page with one access. */
  lemma OneAct(b: nat, act: Act, hw: Hw, fate: Fate, n: nat)
    requires PlayPage(P(b, [act]), hw, fate, n).1
    ensures PlayPage(P(b, [act]), hw, fate, n).0 == Apply(hw.(bank := b), act)
  {
    assert [act][1..] == [];
    assert PlayActs([act], hw.(bank := b), fate, n + 1).0 == Apply(hw.(bank := b), act);
  }

  lemma PinsSwitched(on: bool, hw: Hw, fate: Fate, n: nat)
    requires Play(TsPins(on), hw, fate, n).1
    ensures var h := Play(TsPins(on), hw, fate, n).0;
            Pins(h, on) && h.regs(Main(0x80)) == hw.regs(Main(0x80)) && h.regs(Main(0xc3)) == hw.regs(Main(0xc3))
  {
    var first, second := P(0x00, [Look(0xc4)]), P(0x00, [Pin(on)]);
    var (h, ok, m) := PlayPage(first, hw, fate, n);
    assert TsPins(on)[1..] == [second] && [second][1..] == [];
    OneAct(0x00, Pin(on), h, fate, m);
    PinWritten(h.(bank := 0x00), on);
    PlayClear(TsPins(on), hw, fate, n, Main(0x80));
    PlayClear(TsPins(on), hw, fate, n, Main(0xc3));
  }

  lemma OutputStarts(val: byte, hw: Hw, fate: Fate, n: nat)
    requires val < 32 && Play(StartOutput(val), hw, fate, n).1
    ensures var h := Play(StartOutput(val), hw, fate, n).0;
            h.regs(Main(0x80)) as int % 32 == val && Pins(h, true)
  {
    var page := P(0x00, [Set(0x80, val, 0x1f)]);
    assert StartOutput(val)[1..] == TsPins(true);
    var (h, ok, m) := PlayPage(page, hw, fate, n);
    OneAct(0x00, Set(0x80, val, 0x1f), hw, fate, n);
    LowFive(hw.regs(Main(0x80)), val);
    PinsSwitched(true, h, fate, m);
  }

  lemma OutputStops(hw: Hw, fate: Fate, n: nat)
    requires Play(StopOutput(), hw, fate, n).1
    ensures OutputOff(Play(StopOutput(), hw, fate, n).0)
  {
    var acts := [W(0xc3, 0x01), Set(0x80, 0x1f, 0x1f)];
    assert StopOutput()[1..] == TsPins(false);
    var (h, ok, m) := PlayPage(P(0x00, acts), hw, fate, n);
    var g := Apply(hw.(bank := 0x00), acts[0]);
    assert acts[1..] == [acts[1]] && acts[1..][1..] == [];
    assert h == Apply(g, acts[1]);
    LowFive(g.regs(Main(0x80)), 0x1f);
    PinsSwitched(false, h, fate, m);
  }

  // ----- the settings -------------------------------------------------------

  /** Played to its end, from whatever state, the table leaves `v` in the register. */
  ghost predicate Leaves(pages: seq<Page>, a: Address, v: byte) {
    forall hw, fate, n :: Play(pages, hw, fate, n).1 ==> Play(pages, hw, fate, n).0.regs(a) == v
  }

  lemma LeavesWritten(pages: seq<Page>, a: Address, v: byte, i: nat, k: nat)
    requires i < |pages| && Writes(pages[i], a, v, k) && forall j :: i < j < |pages| ==> Clear(pages[j], a)
    ensures Leaves(pages, a, v)
  {
    forall hw, fate, n | Play(pages, hw, fate, n).1 ensures Play(pages, hw, fate, n).0.regs(a) == v {
      PlayWrites(pages, hw, fate, n, a, v, i, k);
    }
  }

  /** A table followed by another one that does not reach the register. */
  lemma LeavesThen(a: seq<Page>, b: seq<Page>, at: Address, v: byte)
    requires Leaves(a, at, v) && AllClear(b, at)
    ensures Leaves(a + b, at, v)
  {
    forall hw, fate, n | Play(a + b, hw, fate, n).1 ensures Play(a + b, hw, fate, n).0.regs(at) == v {
      PlaySplit(a, b, hw, fate, n);
      var (h, ok, m) := Play(a, hw, fate, n);
      PlayClear(b, h, fate, m, at);
    }
  }

  lemma LeavesAfter(a: seq<Page>, b: seq<Page>, at: Address, v: byte)
    requires Leaves(b, at, v)
    ensures Leaves(a + b, at, v)
  {
    forall hw, fate, n | Play(a + b, hw, fate, n).1 ensures Play(a + b, hw, fate, n).0.regs(at) == v {
      PlaySplit(a, b, hw, fate, n);
    }
  }

  /** What tells the systems apart once one of them is woken: clock output, power of
      the two front ends, sequencer, and the source of the stream. */
  predicate SetFor(hw: Hw, sys: SystemKind) {
    && hw.regs(Main(0xd9)) == 0x10 && hw.regs(Main(0x2c)) == 0x01 && hw.regs(Main(0xa9)) == 0x00
    && hw.regs(Main(0x4b)) == (if sys.IsdbS? then 0x31 else 0x74)
    && hw.regs(Main(0xce)) == (if IsCable(sys) then 0x01 else 0x00)
    && (sys.IsdbT? ==> hw.regs(Address(0x11, 0x6a)) == 0x50 && hw.regs(Address(0x10, 0xd3)) == 0x06)
    && (IsCable(sys) ==> hw.regs(Address(0x11, 0x6a)) == 0x48 && hw.regs(Address(0x10, 0xa5)) == 0x01)
    && (sys.IsdbS? ==> hw.regs(Main(0x6a)) == 0x00 && hw.regs(Address(0xa0, 0xd7)) == 0x00)
  }

  /** The 6 MHz band of ISDB-T. */
  predicate SixMHz(hw: Hw) {
    hw.regs(Address(0x10, 0xd7)) == 0x04 && hw.regs(Address(0x12, 0x71)) == 0x07 && hw.regs(Address(0x15, 0xbe)) == 0x02
  }

  predicate PoweredDown(hw: Hw) {
    hw.regs(Main(0x4b)) == 0x21 && hw.regs(Main(0xfe)) == 0x01 && hw.regs(Main(0x2c)) == 0x00
  }

  // ----- one table after the other ------------------------------------------

  lemma ClockLeaves(sys: SystemKind)
    ensures Leaves(TsClock(sys), Main(0xd9), 0x10)
  {
    LeavesWritten(TsClock(sys), Main(0xd9), 0x10, 0, 6);
  }

  lemma AdcLeaves(clock: byte)
    ensures Leaves(PowerAdc(clock), Main(0xa9), 0x00) && Leaves(PowerAdc(clock), Main(0x2c), 0x01)
    ensures Leaves(PowerAdc(clock), Main(0x4b), 0x74)
  {
    LeavesWritten(PowerAdc(clock), Main(0xa9), 0x00, 1, 0);
    LeavesWritten(PowerAdc(clock), Main(0x2c), 0x01, 1, 1);
    LeavesWritten(PowerAdc(clock), Main(0x4b), 0x74, 1, 2);
  }

  /** The registers that the power and clock tables set. */
  predicate Early(a: Address) {
    a == Main(0xd9) || a == Main(0x2c) || a == Main(0xa9) || a == Main(0x4b)
  }

  function EarlyValue(a: Address): byte
    requires Early(a)
  {
    match a.reg case 0xd9 => 0x10 case 0x2c => 0x01 case 0xa9 => 0x00 case _ => 0x74
  }

  lemma ClockAdcLeaves(sys: SystemKind, clock: byte, a: Address)
    requires Early(a)
    ensures Leaves(TsClock(sys) + PowerAdc(clock), a, EarlyValue(a))
  {
    ClockLeaves(sys);
    AdcLeaves(clock);
    if a == Main(0xd9) { AdcClear(clock); LeavesThen(TsClock(sys), PowerAdc(clock), a, 0x10); }
    else { LeavesAfter(TsClock(sys), PowerAdc(clock), a, EarlyValue(a)); }
  }

  lemma AdcClear(clock: byte)
    ensures AllClear(PowerAdc(clock), Main(0xd9))
  {}

  /** Starting the output touches two registers of the first bank only. */
  lemma StartClear(val: byte, a: Address)
    requires a.bank != 0x00 || (a.reg != 0x80 && a.reg != 0x81)
    ensures AllClear(StartOutput(val), a)
  {}

  lemma BandClear(six: bool, a: Address)
    requires Early(a) || a == Main(0xce) || a == Address(0x11, 0x6a) || a == Address(0x10, 0xd3)
    ensures AllClear(BandT(six), a)
  {}

  lemma BandLeaves()
    ensures Leaves(BandT(true), Address(0x10, 0xd7), 0x04) && Leaves(BandT(true), Address(0x12, 0x71), 0x07)
    ensures Leaves(BandT(true), Address(0x15, 0xbe), 0x02)
  {
    LeavesWritten(BandT(true), Address(0x10, 0xd7), 0x04, 0, 3);
    LeavesWritten(BandT(true), Address(0x12, 0x71), 0x07, 1, 0);
    LeavesWritten(BandT(true), Address(0x15, 0xbe), 0x02, 2, 0);
  }

  // ----- ISDB-T -------------------------------------------------------------

  lemma TuneTClear(a: Address)
    requires Early(a)
    ensures AllClear(TuneT(), a)
  {}

  lemma TuneTLeaves()
    ensures Leaves(TuneT(), Address(0x11, 0x6a), 0x50) && Leaves(TuneT(), Address(0x10, 0xd3), 0x06)
    ensures Leaves(TuneT(), Main(0xce), 0x00)
  {
    LeavesWritten(TuneT(), Address(0x11, 0x6a), 0x50, 0, 0);
    LeavesWritten(TuneT(), Main(0xce), 0x00, 2, 0);
    LeavesWritten(TuneT(), Address(0x10, 0xd3), 0x06, 3, 3);
  }

  lemma WakeTEarly(a: Address)
    requires Early(a)
    ensures Leaves(WakeT(), a, EarlyValue(a))
  {
    ClockAdcLeaves(IsdbT, 0x06, a);
    TuneTClear(a);
    LeavesThen(TsClock(IsdbT) + PowerAdc(0x06), TuneT(), a, EarlyValue(a));
  }

  lemma WakeTLate(a: Address, v: byte)
    requires Leaves(TuneT(), a, v)
    ensures Leaves(WakeT(), a, v)
  {
    LeavesAfter(TsClock(IsdbT) + PowerAdc(0x06), TuneT(), a, v);
  }

  lemma LeavesWakeT(a: Address, v: byte)
    requires Leaves(WakeT(), a, v)
    requires Early(a) || a == Main(0xce) || a == Address(0x11, 0x6a) || a == Address(0x10, 0xd3)
    ensures Leaves(WakeT() + BandT(true), a, v)
  {
    BandClear(true, a);
    LeavesThen(WakeT(), BandT(true), a, v);
  }

  /** What a table leaves is there after it was played. */
  lemma Left(pages: seq<Page>, hw: Hw, fate: Fate, n: nat, a: Address, v: byte)
    requires Leaves(pages, a, v) && Play(pages, hw, fate, n).1
    ensures Play(pages, hw, fate, n).0.regs(a) == v
  {}

  lemma WokenT(hw: Hw, fate: Fate, n: nat)
    requires Play(WakeT() + BandT(true), hw, fate, n).1
    ensures SetFor(Play(WakeT() + BandT(true), hw, fate, n).0, IsdbT)
  {
    forall a | Early(a) ensures Play(WakeT() + BandT(true), hw, fate, n).0.regs(a) == EarlyValue(a) {
      WakeTEarly(a);
      LeavesWakeT(a, EarlyValue(a));
    }
    TuneTLeaves();
    WakeTLate(Main(0xce), 0x00);
    WakeTLate(Address(0x11, 0x6a), 0x50);
    WakeTLate(Address(0x10, 0xd3), 0x06);
    LeavesWakeT(Main(0xce), 0x00);
    LeavesWakeT(Address(0x11, 0x6a), 0x50);
    LeavesWakeT(Address(0x10, 0xd3), 0x06);
  }

  lemma BandSet(before: seq<Page>, hw: Hw, fate: Fate, n: nat)
    requires Play(before + BandT(true), hw, fate, n).1
    ensures SixMHz(Play(before + BandT(true), hw, fate, n).0)
  {
    BandLeaves();
    LeavesAfter(before, BandT(true), Address(0x10, 0xd7), 0x04);
    LeavesAfter(before, BandT(true), Address(0x12, 0x71), 0x07);
    LeavesAfter(before, BandT(true), Address(0x15, 0xbe), 0x02);
  }

  // ----- ISDB-S -------------------------------------------------------------

  lemma TuneSLeaves()
    ensures Leaves(TuneS(), Main(0x2c), 0x01) && Leaves(TuneS(), Main(0xa9), 0x00)
  {
    LeavesWritten(TuneS(), Main(0xa9), 0x00, 1, 1);
    LeavesWritten(TuneS(), Main(0x2c), 0x01, 1, 2);
  }

  lemma TuneSSwitches()
    ensures Leaves(TuneS(), Main(0x4b), 0x31) && Leaves(TuneS(), Main(0x6a), 0x00)
  {
    LeavesWritten(TuneS(), Main(0x4b), 0x31, 1, 4);
    LeavesWritten(TuneS(), Main(0x6a), 0x00, 1, 5);
  }

  lemma TuneSRoutes()
    ensures Leaves(TuneS(), Main(0xce), 0x00) && Leaves(TuneS(), Address(0xa0, 0xd7), 0x00)
  {
    LeavesWritten(TuneS(), Main(0xce), 0x00, 2, 1);
    LeavesWritten(TuneS(), Address(0xa0, 0xd7), 0x00, 4, 0);
  }

  lemma TuneSClear()
    ensures AllClear(TuneS(), Main(0xd9))
  {}

  lemma WakeSLeaves(a: Address, v: byte)
    requires (a == Main(0xd9) && v == 0x10) || Leaves(TuneS(), a, v)
    requires a.bank != 0x00 || (a.reg != 0x80 && a.reg != 0x81)
    ensures Leaves(WakeS(), a, v)
  {
    if a == Main(0xd9) && v == 0x10 {
      ClockLeaves(IsdbS);
      TuneSClear();
      LeavesThen(TsClock(IsdbS), TuneS(), a, v);
    } else {
      LeavesAfter(TsClock(IsdbS), TuneS(), a, v);
    }
    StartClear(0x10, a);
    LeavesThen(TsClock(IsdbS) + TuneS(), StartOutput(0x10), a, v);
  }

  lemma WokenS(hw: Hw, fate: Fate, n: nat)
    requires Play(WakeS(), hw, fate, n).1
    ensures SetFor(Play(WakeS(), hw, fate, n).0, IsdbS)
  {
    TuneSLeaves();
    TuneSSwitches();
    TuneSRoutes();
    WakeSLeaves(Main(0xd9), 0x10);
    WakeSLeaves(Main(0x2c), 0x01);
    WakeSLeaves(Main(0xa9), 0x00);
    WakeSLeaves(Main(0x4b), 0x31);
    WakeSLeaves(Main(0x6a), 0x00);
    WakeSLeaves(Main(0xce), 0x00);
    WakeSLeaves(Address(0xa0, 0xd7), 0x00);
  }

  // ----- cable --------------------------------------------------------------

  function Before(sys: SystemKind): seq<Page>
    requires IsCable(sys)
  {
    if sys.IsdbC? then BeforeC() else BeforeJ()
  }

  function Configure(sys: SystemKind): seq<Page>
    requires IsCable(sys)
  {
    if sys.IsdbC? then ConfigureC() else ConfigureJ()
  }

  function WakeCable(sys: SystemKind): seq<Page>
    requires IsCable(sys)
  {
    if sys.IsdbC? then WakeC() else WakeJ()
  }

  /** The end of the tables that come before the configuration. */
  function Tail(sys: SystemKind): seq<Page> {
    [P(0x11, [W(0x6a, 0x48)]), P(0x10, [W(0xa5, 0x01)])] +
    if sys.IsdbC? then [P(0x11, [Put(0x33, [0x00, 0x03, 0x3b])])] else []
  }

  lemma TailEffect(sys: SystemKind, a: Address)
    ensures Early(a) ==> AllClear(Tail(sys), a)
    ensures Leaves(Tail(sys), Address(0x11, 0x6a), 0x48) && Leaves(Tail(sys), Address(0x10, 0xa5), 0x01)
  {
    LeavesWritten(Tail(sys), Address(0x11, 0x6a), 0x48, 0, 0);
    LeavesWritten(Tail(sys), Address(0x10, 0xa5), 0x01, 1, 0);
  }

  lemma BeforeParts(sys: SystemKind)
    requires IsCable(sys)
    ensures Before(sys) ==
            (if sys.IsdbC? then [P(0x49, [Set(0x36, 0x00, 0x18)])] else [])
            + ((TsClock(sys) + PowerAdc(if sys.IsdbC? then 0x09 else 0x08)) + Tail(sys))
  {
    if sys.IsdbC? {
      AssocThrice([P(0x49, [Set(0x36, 0x00, 0x18)])], TsClock(sys), PowerAdc(0x09), Tail(sys));
    } else {
      assert Before(sys) == (TsClock(sys) + PowerAdc(0x08)) + Tail(sys);
    }
  }

  lemma AssocThrice<T>(a: seq<T>, b: seq<T>, c: seq<T>, d: seq<T>)
    ensures ((a + b) + c) + d == a + ((b + c) + d)
  {}

  lemma BeforeLeaves(sys: SystemKind, a: Address, v: byte)
    requires IsCable(sys)
    requires (Early(a) && v == EarlyValue(a)) || Leaves(Tail(sys), a, v)
    ensures Leaves(Before(sys), a, v)
  {
    var clock: byte := if sys.IsdbC? then 0x09 else 0x08;
    var first := if sys.IsdbC? then [P(0x49, [Set(0x36, 0x00, 0x18)])] else [];
    var both := TsClock(sys) + PowerAdc(clock);
    if Early(a) && v == EarlyValue(a) {
      ClockAdcLeaves(sys, clock, a);
      TailEffect(sys, a);
      LeavesThen(both, Tail(sys), a, v);
    } else {
      LeavesAfter(both, Tail(sys), a, v);
    }
    LeavesAfter(first, both + Tail(sys), a, v);
    BeforeParts(sys);
  }

  lemma ConfigureClear(sys: SystemKind, a: Address)
    requires IsCable(sys) && (Early(a) || a == Address(0x11, 0x6a) || a == Address(0x10, 0xa5))
    ensures AllClear(Configure(sys), a)
  {
    if sys.IsdbC? { ConfigureCClear(a); } else { ConfigureJClear(a); }
  }

  lemma ConfigureCClear(a: Address)
    requires Early(a) || a == Address(0x11, 0x6a) || a == Address(0x10, 0xa5)
    ensures AllClear(ConfigureC(), a)
  {}

  lemma ConfigureJClear(a: Address)
    requires Early(a) || a == Address(0x11, 0x6a) || a == Address(0x10, 0xa5)
    ensures AllClear(ConfigureJ(), a)
  {
    RestJClear(a);
    ClearJoin(ModeJ(), RestJ(), a);
  }

  lemma RestJClear(a: Address)
    requires Early(a) || a == Address(0x11, 0x6a) || a == Address(0x10, 0xa5)
    ensures AllClear(RestJ(), a) && AllClear(ModeJ(), a)
  {}

  lemma ConfigureLeaves(sys: SystemKind)
    requires IsCable(sys)
    ensures Leaves(Configure(sys), Main(0xce), 0x01)
  {
    if sys.IsdbC? {
      LeavesWritten(ConfigureC(), Main(0xce), 0x01, 1, 0);
    } else {
      LeavesWritten(RestJ(), Main(0xce), 0x01, 2, 0);
      LeavesAfter(ModeJ(), RestJ(), Main(0xce), 0x01);
    }
  }

  lemma CableLeaves(sys: SystemKind, a: Address, v: byte)
    requires IsCable(sys) && (a.bank != 0x00 || (a.reg != 0x80 && a.reg != 0x81))
    requires Leaves(Configure(sys), a, v) || (Leaves(Before(sys), a, v) && AllClear(Configure(sys), a))
    ensures Leaves(WakeCable(sys), a, v)
  {
    if Leaves(Configure(sys), a, v) { LeavesAfter(Before(sys), Configure(sys), a, v); }
    else { LeavesThen(Before(sys), Configure(sys), a, v); }
    StartClear(0x08, a);
    LeavesThen(Before(sys) + Configure(sys), StartOutput(0x08), a, v);
  }

  lemma CableEarly(sys: SystemKind, a: Address)
    requires IsCable(sys) && Early(a)
    ensures Leaves(WakeCable(sys), a, EarlyValue(a))
  {
    BeforeLeaves(sys, a, EarlyValue(a));
    ConfigureClear(sys, a);
    CableLeaves(sys, a, EarlyValue(a));
  }

  lemma CableTail(sys: SystemKind, a: Address, v: byte)
    requires IsCable(sys) && ((a == Address(0x11, 0x6a) && v == 0x48) || (a == Address(0x10, 0xa5) && v == 0x01))
    ensures Leaves(WakeCable(sys), a, v)
  {
    TailEffect(sys, a);
    BeforeLeaves(sys, a, v);
    ConfigureClear(sys, a);
    CableLeaves(sys, a, v);
  }

  lemma WokenCable(sys: SystemKind, hw: Hw, fate: Fate, n: nat)
    requires IsCable(sys) && Play(WakeCable(sys), hw, fate, n).1
    ensures SetFor(Play(WakeCable(sys), hw, fate, n).0, sys)
  {
    forall a | Early(a) ensures Play(WakeCable(sys), hw, fate, n).0.regs(a) == EarlyValue(a) { CableEarly(sys, a); }
    ConfigureLeaves(sys);
    CableLeaves(sys, Main(0xce), 0x01);
    CableTail(sys, Address(0x11, 0x6a), 0x48);
    CableTail(sys, Address(0x10, 0xa5), 0x01);
  }

  // ----- sleeping -----------------------------------------------------------

  /** What a sleep does after the output is stopped. */
  function PowerOff(sys: SystemKind): seq<Page>
    requires !sys.Unspecified?
  {
    match sys
    case IsdbC => RestoreC() + SleepCommon()
    case J83B => RestoreJ() + SleepCommon()
    case IsdbT => PowerOffT()
    case IsdbS => PowerOffS()
  }

  lemma SleepIsStopThenOff(sys: SystemKind)
    requires !sys.Unspecified?
    ensures SleepTable(sys) == StopOutput() + PowerOff(sys)
  {}

  /** The registers that stopping the output sets, and the one that names the pins. */
  predicate OutputReg(a: Address) {
    a == Main(0xc3) || a == Main(0x80) || a == Main(0x81) || a == Main(0xc4)
  }

  lemma OffClear(sys: SystemKind, a: Address)
    requires !sys.Unspecified? && OutputReg(a)
    ensures AllClear(PowerOff(sys), a)
  {
    match sys
    case IsdbC => RestClear(a); ClearJoin(RestoreC(), SleepCommon(), a);
    case J83B => RestClear(a); ClearJoin(RestoreJ(), SleepCommon(), a);
    case IsdbT => OffTClear(a);
    case IsdbS => OffSClear(a);
  }

  lemma RestClear(a: Address)
    requires OutputReg(a)
    ensures AllClear(RestoreC(), a) && AllClear(RestoreJ(), a) && AllClear(SleepCommon(), a)
  {}

  lemma OffTClear(a: Address)
    requires OutputReg(a)
    ensures AllClear(PowerOffT(), a)
  {}

  lemma OffSClear(a: Address)
    requires OutputReg(a)
    ensures AllClear(PowerOffS(), a)
  {}

  lemma CommonLeaves(a: Address, v: byte)
    requires (a == Main(0x4b) && v == 0x21) || (a == Main(0xfe) && v == 0x01) || (a == Main(0x2c) && v == 0x00)
    ensures Leaves(SleepCommon(), a, v)
  {
    if a == Main(0x4b) { LeavesWritten(SleepCommon(), a, v, 1, 1); }
    if a == Main(0xfe) { LeavesWritten(SleepCommon(), a, v, 1, 2); }
    if a == Main(0x2c) { LeavesWritten(SleepCommon(), a, v, 1, 3); }
  }

  lemma OffTLeaves(a: Address, v: byte)
    requires (a == Main(0x4b) && v == 0x21) || (a == Main(0xfe) && v == 0x01) || (a == Main(0x2c) && v == 0x00)
    ensures Leaves(PowerOffT(), a, v)
  {
    if a == Main(0x4b) { LeavesWritten(PowerOffT(), a, v, 5, 1); }
    if a == Main(0xfe) { LeavesWritten(PowerOffT(), a, v, 5, 2); }
    if a == Main(0x2c) { LeavesWritten(PowerOffT(), a, v, 5, 3); }
  }

  lemma OffSLeaves(a: Address, v: byte)
    requires (a == Main(0x4b) && v == 0x21) || (a == Main(0xfe) && v == 0x01) || (a == Main(0x2c) && v == 0x00)
    ensures Leaves(PowerOffS(), a, v)
  {
    if a == Main(0x4b) { LeavesWritten(PowerOffS(), a, v, 1, 1); }
    if a == Main(0xfe) { LeavesWritten(PowerOffS(), a, v, 1, 3); }
    if a == Main(0x2c) { LeavesWritten(PowerOffS(), a, v, 1, 4); }
  }

  lemma OffLeaves(sys: SystemKind, a: Address, v: byte)
    requires !sys.Unspecified?
    requires (a == Main(0x4b) && v == 0x21) || (a == Main(0xfe) && v == 0x01) || (a == Main(0x2c) && v == 0x00)
    ensures Leaves(PowerOff(sys), a, v)
  {
    match sys
    case IsdbC => CommonLeaves(a, v); LeavesAfter(RestoreC(), SleepCommon(), a, v);
    case J83B => CommonLeaves(a, v); LeavesAfter(RestoreJ(), SleepCommon(), a, v);
    case IsdbT => OffTLeaves(a, v);
    case IsdbS => OffSLeaves(a, v);
  }

  lemma OffPowersDown(sys: SystemKind, hw: Hw, fate: Fate, n: nat)
    requires !sys.Unspecified? && Play(PowerOff(sys), hw, fate, n).1
    ensures PoweredDown(Play(PowerOff(sys), hw, fate, n).0)
  {
    OffLeaves(sys, Main(0x4b), 0x21);
    OffLeaves(sys, Main(0xfe), 0x01);
    OffLeaves(sys, Main(0x2c), 0x00);
  }

  lemma OffKeeps(sys: SystemKind, hw: Hw, fate: Fate, n: nat)
    requires !sys.Unspecified? && OutputOff(hw)
    ensures OutputOff(Play(PowerOff(sys), hw, fate, n).0)
  {
    forall a | OutputReg(a) ensures Play(PowerOff(sys), hw, fate, n).0.regs(a) == hw.regs(a) {
      OffClear(sys, a);
      PlayClear(PowerOff(sys), hw, fate, n, a);
    }
  }

  /** A sleep that was played to its end has stopped the output and powered the
      demodulator down; a sleep that came past its first part has stopped the output,
      whatever failed then. */
  lemma SleepStops(d: Dev, fate: Fate)
    requires !d.power.Asleep? && !d.system.Unspecified?
    ensures Play(StopOutput(), d.hw, fate, d.clock).1 ==> OutputOff(Sleep(d, fate).0.hw)
    ensures Play(SleepTable(d.system), d.hw, fate, d.clock).1 ==>
              OutputOff(Sleep(d, fate).0.hw) && PoweredDown(Sleep(d, fate).0.hw)
  {
    SleepIsStopThenOff(d.system);
    PlaySplit(StopOutput(), PowerOff(d.system), d.hw, fate, d.clock);
    var (h, ok, m) := Play(StopOutput(), d.hw, fate, d.clock);
    if ok {
      OutputStops(d.hw, fate, d.clock);
      OffKeeps(d.system, h, fate, m);
      if Play(PowerOff(d.system), h, fate, m).1 { OffPowersDown(d.system, h, fate, m); }
    }
  }

  // ----- waking -------------------------------------------------------------

  /** The chip receives the system and puts its stream out. */
  ghost predicate Receives(hw: Hw, sys: SystemKind) {
    OutputOn(hw, sys) && SetFor(hw, sys) && (sys.IsdbT? ==> SixMHz(hw))
  }

  lemma StartKeepsSet(val: byte, hw: Hw, fate: Fate, n: nat, sys: SystemKind)
    requires SetFor(hw, sys) && SixMHz(hw)
    ensures SetFor(Play(StartOutput(val), hw, fate, n).0, sys) && SixMHz(Play(StartOutput(val), hw, fate, n).0)
  {
    forall a: Address | a.bank != 0x00 || (a.reg != 0x80 && a.reg != 0x81)
      ensures Play(StartOutput(val), hw, fate, n).0.regs(a) == hw.regs(a)
    {
      StartClear(val, a);
      PlayClear(StartOutput(val), hw, fate, n, a);
    }
  }

  lemma StartedT(hw: Hw, fate: Fate, n: nat)
    requires var (h, ok, m) := Play(WakeT() + BandT(true), hw, fate, n); ok && Play(StartOutput(0x08), h, fate, m).1
    ensures var (h, ok, m) := Play(WakeT() + BandT(true), hw, fate, n);
            Receives(Play(StartOutput(0x08), h, fate, m).0, IsdbT)
  {
    var (h, ok, m) := Play(WakeT() + BandT(true), hw, fate, n);
    WokenT(hw, fate, n);
    BandSet(WakeT(), hw, fate, n);
    StartKeepsSet(0x08, h, fate, m, IsdbT);
    OutputStarts(0x08, h, fate, m);
  }

  lemma EndsWithOutput(front: seq<Page>, val: byte, hw: Hw, fate: Fate, n: nat)
    requires val < 32 && Play(front + StartOutput(val), hw, fate, n).1
    ensures var h := Play(front + StartOutput(val), hw, fate, n).0;
            h.regs(Main(0x80)) as int % 32 == val && Pins(h, true)
  {
    PlaySplit(front, StartOutput(val), hw, fate, n);
    var (h, ok, m) := Play(front, hw, fate, n);
    OutputStarts(val, h, fate, m);
  }

  /** The long path, if it succeeds. */
  lemma Starts(d: Dev, sys: SystemKind, six: bool, fate: Fate)
    requires Start(d, sys, six, fate).1
    ensures Receives(Start(d, sys, six, fate).0.hw, sys)
  {
    match sys
    case IsdbT => StartedT(d.hw, fate, d.clock);
    case IsdbS =>
      WokenS(d.hw, fate, d.clock);
      EndsWithOutput(TsClock(IsdbS) + TuneS(), 0x10, d.hw, fate, d.clock);
    case IsdbC =>
      WokenCable(IsdbC, d.hw, fate, d.clock);
      EndsWithOutput(BeforeC() + ConfigureC(), 0x08, d.hw, fate, d.clock);
    case J83B =>
      WokenCable(J83B, d.hw, fate, d.clock);
      EndsWithOutput(BeforeJ() + ConfigureJ(), 0x08, d.hw, fate, d.clock);
  }
}
