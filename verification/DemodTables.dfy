/** The CXD2856ER's paged registers and the register sequences of the driver, as
    tables that are played until the first failing access. */
module DemodTables {
  import opened Bytes

  // ----- registers ----------------------------------------------------------

  /** The registers that cable reception changes, by bank and number. */
  datatype CableReg = A3 | R14 | R1E | R21 | RB3 | R8E | CF | R2C

  function BankOf(c: CableReg): nat {
    match c case A3 => 0x11 case CF => 0x41 case R2C => 0x48 case _ => 0x40
  }

  function RegOf(c: CableReg): nat {
    match c
    case A3 => 0xa3 case R14 => 0x14 case R1E => 0x1e case R21 => 0x21
    case RB3 => 0xb3 case R8E => 0x8e case CF => 0xcf case R2C => 0x2c
  }

  function DefaultOf(c: CableReg): byte {
    match c
    case A3 => 0x00 case R14 => 0x1f case R1E => 0x00 case R21 => 0x00
    case RB3 => 0x02 case R8E => 0x0e case CF => 0x77 case R2C => 0x01
  }

  datatype Address = Address(bank: nat, reg: nat)

  /** The demodulator's selected bank and the contents of all banks. */
  datatype Hw = Hw(bank: nat, regs: Address -> byte)

  function Read(hw: Hw, c: CableReg): byte { hw.regs(Address(BankOf(c), RegOf(c))) }

  // ----- accesses -----------------------------------------------------------

  datatype Act =
    | Put(reg: nat, data: seq<byte>)                // consecutive registers of the bank
    | Set(reg: nat, val: byte, mask: byte)          // read, change the masked bits, write
    | Pin(on: bool)                                 // 0x81 under a mask that 0xc4 decides
    | Look(reg: nat)
    | System(reg: nat, val: byte)                   // the other I2C target

  function Mix(was: byte, val: byte, mask: byte, k: nat, weight: nat): nat
    requires k < 8
  {
    if (if Bit(mask, k) then Bit(val, k) else Bit(was, k)) then weight else 0
  }

  function Merge(was: byte, val: byte, mask: byte): byte {
    (Mix(was, val, mask, 7, 128) + Mix(was, val, mask, 6, 64) + Mix(was, val, mask, 5, 32) +
     Mix(was, val, mask, 4, 16) + Mix(was, val, mask, 3, 8) + Mix(was, val, mask, 2, 4) +
     Mix(was, val, mask, 1, 2) + Mix(was, val, mask, 0, 1)) as int
  }

  function PinMask(c4: byte): byte {
    if Bit(c4, 7) && !Bit(c4, 3) then 0x01 else if Bit(c4, 7) && Bit(c4, 3) then 0x80 else 0xff
  }

  /** Whether an access to the selected bank may change register `reg` of it. */
  predicate Covers(act: Act, reg: nat) {
    match act
    case Put(r, data) => r <= reg < r + |data|
    case Set(r, _, _) => reg == r
    case Pin(_) => reg == 0x81
    case _ => false
  }

  /** What a register holds after an access to the selected bank. */
  function After(hw: Hw, act: Act, a: Address): byte {
    if a.bank != hw.bank || !Covers(act, a.reg) then hw.regs(a)
    else
      match act
      case Put(r, data) => data[a.reg - r]
      case Set(_, val, mask) => Merge(hw.regs(a), val, mask)
      case Pin(on) => Merge(hw.regs(a), if on then 0x00 else 0xff, PinMask(hw.regs(Address(0x00, 0xc4))))
  }

  /** The effect of an access that reaches the chip. */
  function Apply(hw: Hw, act: Act): Hw { hw.(regs := (a: Address) => After(hw, act, a)) }

  /** A failing access is reported either without having reached the chip or after. */
  datatype Outcome = Done | Lost | Late
  type Fate = nat -> Outcome

  // ----- tables -------------------------------------------------------------

  /** Accesses to one bank, which is selected first, or to the bank at hand. */
  datatype Page = P(bank: nat, acts: seq<Act>) | Stay(acts: seq<Act>)

  /** Accesses one after the other until one fails: the registers, whether all
      succeeded, and how many were made, counted from the `n`-th access ever. */
  function PlayActs(acts: seq<Act>, hw: Hw, fate: Fate, n: nat): (r: (Hw, bool, nat))
    ensures n <= r.2 <= n + |acts|
    decreases |acts|
  {
    if |acts| == 0 then (hw, true, n)
    else
      match fate(n)
      case Done => PlayActs(acts[1..], Apply(hw, acts[0]), fate, n + 1)
      case Lost => (hw, false, n + 1)
      case Late => (Apply(hw, acts[0]), false, n + 1)
  }

  /** The bank is selected by a write to register 0x00, which may fail as well. */
  function PlayPage(page: Page, hw: Hw, fate: Fate, n: nat): (r: (Hw, bool, nat))
    ensures n <= r.2
  {
    match page
    case Stay(acts) => PlayActs(acts, hw, fate, n)
    case P(b, acts) =>
      match fate(n)
      case Done => PlayActs(acts, hw.(bank := b), fate, n + 1)
      case Lost => (hw, false, n + 1)
      case Late => (hw.(bank := b), false, n + 1)
  }

  function Play(pages: seq<Page>, hw: Hw, fate: Fate, n: nat): (r: (Hw, bool, nat))
    ensures n <= r.2
    decreases |pages|
  {
    if |pages| == 0 then (hw, true, n)
    else
      var (h, ok, m) := PlayPage(pages[0], hw, fate, n);
      if ok then Play(pages[1..], h, fate, m) else (h, false, m)
  }

  // ----- the driver's sequences ---------------------------------------------

  datatype SystemKind = Unspecified | IsdbT | IsdbS | IsdbC | J83B

  function W(reg: nat, val: byte): Act { Put(reg, [val]) }

  function TsClock(sys: SystemKind): seq<Page> {
    [P(0x00, [Look(0xc4), Set(0xd3, if sys.J83B? then 0x00 else 0x01, 0x01), Set(0xde, 0x00, 0x01),
              Set(0xda, 0x00, 0x01), Set(0xc4, 0x00, 0x03), Set(0xd1, 0x02, 0x03), W(0xd9, 0x10),
              Set(0x32, 0x00, 0x01), Set(0x33, if sys.IsdbT? then 0x02 else 0x00, 0x03), Set(0x32, 0x01, 0x01)]),
     P(0x10, [Set(0x66, 0x01, 0x01)]),
     P(0x40, [Set(0x66, 0x01, 0x01)])]
  }

  function TsPins(on: bool): seq<Page> { [P(0x00, [Look(0xc4)]), P(0x00, [Pin(on)])] }

  /** Stopping the TS output, the head of every sleep sequence. */
  function StopOutput(): seq<Page> { [P(0x00, [W(0xc3, 0x01), Set(0x80, 0x1f, 0x1f)])] + TsPins(false) }
  function StartOutput(val: byte): seq<Page> { [P(0x00, [Set(0x80, val, 0x1f)])] + TsPins(true) }

  function Coefficients(): Act {
    Put(0xa6, [0x31, 0xa8, 0x29, 0x9b, 0x27, 0x9c, 0x28, 0x9e, 0x29, 0xa4, 0x29, 0xa2, 0x29, 0xa8])
  }

  function PowerOffT(): seq<Page> {
    [P(0x10, [W(0x69, 0x05), W(0x6b, 0x07), W(0x9d, 0x14), W(0xd3, 0x00),
              W(0xed, 0x01), W(0xe2, 0x4e), W(0xf2, 0x03), W(0xde, 0x32)]),
     P(0x15, [W(0xde, 0x03)]), P(0x17, [Put(0x38, [0x01, 0x00])]), P(0x1e, [W(0x73, 0x00)]),
     P(0x63, [W(0x81, 0x01), System(0x00, 0x00), System(0x18, 0x01)]),
     P(0x00, [W(0x49, 0x33), W(0x4b, 0x21), W(0xfe, 0x01), W(0x2c, 0x00), W(0xa9, 0x00), System(0x17, 0x01)])]
  }

  function PowerOffS(): seq<Page> {
    [Stay([System(0x00, 0x00), System(0x18, 0x01)]),
     P(0x00, [W(0x6a, 0x11), W(0x4b, 0x21), System(0x28, 0x13), W(0xfe, 0x01),
              W(0x2c, 0x00), W(0xa9, 0x00), W(0x2d, 0x00), System(0x17, 0x01)]),
     P(0xa0, [W(0xd7, 0x00)])]
  }

  function SleepCommon(): seq<Page> {
    [Stay([System(0x00, 0x00), System(0x18, 0x01)]),
     P(0x00, [W(0x49, 0x33), W(0x4b, 0x21), W(0xfe, 0x01), W(0x2c, 0x00), W(0xa9, 0x00), System(0x17, 0x01)])]
  }

  function RestoreC(): seq<Page> {
    [P(0x11, [W(0xa3, 0x00)]), P(0x48, [W(0x2c, 0x01)]), P(0x40, [W(0x14, 0x1f), W(0x1e, 0x00)])]
  }

  function RestoreJ(): seq<Page> {
    [P(0x11, [W(0xa3, 0x00)]),
     P(0x40, [W(0x21, 0x00), W(0xc3, 0x00), W(0xb3, 0x02), W(0x1e, 0x00), W(0x8e, 0x0e)]),
     P(0x41, [W(0xcf, 0x77)]),
     P(0x40, [W(0x14, 0x1f), Put(0x26, [0x09, 0x9a, 0x00, 0xee])])]
  }

  function SleepT(): seq<Page> { StopOutput() + PowerOffT() }
  function SleepS(): seq<Page> { StopOutput() + PowerOffS() }
  function SleepC(): seq<Page> { StopOutput() + RestoreC() + SleepCommon() }
  function SleepJ(): seq<Page> { StopOutput() + RestoreJ() + SleepCommon() }

  /** The band setting knows 6 MHz only; for others it stops after the bank. */
  function BandT(six: bool): seq<Page> {
    if !six then [P(0x10, [])]
    else
      [P(0x10, [Put(0x9f, [0x17, 0xa0, 0x80, 0x00, 0x00]), Coefficients(), Put(0xb6, [0x12, 0xee, 0xef]),
                W(0xd7, 0x04), Put(0xd9, [0x1f, 0x79])]),
       P(0x12, [W(0x71, 0x07)]), P(0x15, [W(0xbe, 0x02)])]
  }

  function PowerAdc(clock: byte): seq<Page> {
    [Stay([System(0x00, 0x00), System(0x17, clock)]),
     P(0x00, [W(0xa9, 0x00), W(0x2c, 0x01), W(0x4b, 0x74), W(0x49, 0x00), System(0x18, 0x00)])]
  }

  function TuneT(): seq<Page> {
    [P(0x11, [W(0x6a, 0x50)]), P(0x10, [W(0xa5, 0x01)]), P(0x00, [Put(0xce, [0x00, 0x00])]),
     P(0x10, [W(0x69, 0x04), W(0x6b, 0x03), W(0x9d, 0x50), W(0xd3, 0x06),
              W(0xed, 0x00), W(0xe2, 0xce), W(0xf2, 0x13), W(0xde, 0x2e)]),
     P(0x15, [W(0xde, 0x02)]), P(0x17, [Put(0x38, [0x00, 0x03])]), P(0x1e, [W(0x73, 0x68)]), P(0x63, [W(0x81, 0x00)]),
     P(0x11, [Put(0x33, [0x00, 0x03, 0x3b])]), P(0x60, [Put(0xa8, [0xb7, 0x1b])])]
  }

  function TuneS(): seq<Page> {
    [Stay([System(0x00, 0x00), System(0x17, 0x0c)]),
     P(0x00, [W(0x2d, 0x00), W(0xa9, 0x00), W(0x2c, 0x01), System(0x28, 0x31),
              W(0x4b, 0x31), W(0x6a, 0x00), System(0x18, 0x00)]),
     P(0x00, [W(0x20, 0x01), Put(0xce, [0x00, 0x00])]),
     P(0xae, [Put(0x20, [0x07, 0x37, 0x0a])]), P(0xa0, [W(0xd7, 0x00)])]
  }

  /** Up to the band setting. */
  function WakeT(): seq<Page> { TsClock(IsdbT) + PowerAdc(0x06) + TuneT() }
  function WakeS(): seq<Page> { TsClock(IsdbS) + TuneS() + StartOutput(0x10) }

  function ResetOutput(): seq<Page> { [P(0x00, [W(0xc3, 0x01)])] }

  function BandJ(): seq<Page> {
    [P(0x10, [Put(0xb6, [0x14, 0x00, 0x00])]), P(0x40, [W(0x14, 0x10), Put(0x26, [0x07, 0x77, 0x07, 0x77])])]
  }

  function ModeJ(): seq<Page> { [P(0x40, [W(0x21, 0x04), W(0xb3, 0x05), W(0x1e, 0x80), W(0x8e, 0x58)])] }

  function RestJ(): seq<Page> {
    [P(0x41, [W(0xcf, 0x99)]), P(0x11, [W(0xa3, 0x14), Put(0x33, [0x00, 0x03, 0x3b])]),
     P(0x00, [Put(0xce, [0x01, 0x01])]), P(0x10, [Coefficients()])] + BandJ()
  }

  function ConfigureJ(): seq<Page> { ModeJ() + RestJ() }

  function ConfigureC(): seq<Page> {
    [P(0x48, [W(0x2c, 0x03)]), P(0x00, [Put(0xce, [0x01, 0x01])]),
     P(0x10, [Coefficients(), Put(0xb6, [0x13, 0xbb, 0xbc])]), P(0x11, [W(0xa3, 0x14)]),
     P(0x40, [W(0x14, 0x14), W(0x1e, 0x80), Put(0x26, [0x07, 0x08, 0x07, 0x08])])]
  }

  function BeforeJ(): seq<Page> {
    TsClock(J83B) + PowerAdc(0x08) + [P(0x11, [W(0x6a, 0x48)]), P(0x10, [W(0xa5, 0x01)])]
  }

  function BeforeC(): seq<Page> {
    [P(0x49, [Set(0x36, 0x00, 0x18)])] + TsClock(IsdbC) + PowerAdc(0x09) +
    [P(0x11, [W(0x6a, 0x48)]), P(0x10, [W(0xa5, 0x01)]), P(0x11, [Put(0x33, [0x00, 0x03, 0x3b])])]
  }

  function WakeJ(): seq<Page> { BeforeJ() + ConfigureJ() + StartOutput(0x08) }
  function WakeC(): seq<Page> { BeforeC() + ConfigureC() + StartOutput(0x08) }

  function PostTune(): seq<Page> { [P(0x00, [W(0xfe, 0x01), W(0xc3, 0x00)])] }
}
