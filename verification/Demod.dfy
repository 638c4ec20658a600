/** The demodulator's wake and sleep bookkeeping, with any access allowed to fail. */
module Demod {
  import opened Bytes
  import opened DemodTables

  datatype Power = Unknown | Asleep | Active

  /** The chip, the driver's record of it, and the number of accesses made so far. */
  datatype Dev = Dev(hw: Hw, power: Power, system: SystemKind, incomplete: bool, clock: nat)

  predicate IsCable(sys: SystemKind) { sys.IsdbC? || sys.J83B? }

  /** Recorded active in a cable system. */
  predicate OnCable(d: Dev) { d.power.Active? && IsCable(d.system) }

  /** Right after a successful initialisation of a chip with default registers. */
  predicate Fresh(d: Dev) {
    && d.power.Asleep? && d.system.Unspecified? && !d.incomplete
    && forall c :: Read(d.hw, c) == DefaultOf(c)
  }

  function PlayOn(d: Dev, pages: seq<Page>, fate: Fate): (r: (Dev, bool)) {
    var (hw, ok, n) := Play(pages, d.hw, fate, d.clock);
    (d.(hw := hw, clock := n), ok)
  }

  function SleepTable(sys: SystemKind): seq<Page> {
    match sys
    case IsdbC => SleepC()
    case J83B => SleepJ()
    case IsdbT => SleepT()
    case IsdbS => SleepS()
    case Unspecified => []
  }

  /** cxd2856er_sleep(): whether it returned 0. */
  function Sleep(d: Dev, fate: Fate): (r: (Dev, bool)) {
    if d.power.Asleep? then (d, false)
    else
      var (e, ok) := PlayOn(d, SleepTable(d.system), fate);
      if IsCable(d.system) && !ok then (e, false)
      else (e.(incomplete := false, power := Asleep, system := Unspecified), true)
  }

  /** The short path: retuning within the recorded system. */
  function Retune(d: Dev, six: bool, fate: Fate): (r: (Dev, bool)) {
    match d.system
    case IsdbT => var (e, ok) := PlayOn(d, ResetOutput() + BandT(six), fate); (e, ok && six)
    case IsdbS => PlayOn(d, ResetOutput(), fate)
    case IsdbC => PlayOn(d, ResetOutput(), fate)
    case J83B => PlayOn(d, ResetOutput() + BandJ(), fate)
    case Unspecified => (d, false)
  }

  /** The long path. A cable system is recorded as active before its first access. */
  function Start(d: Dev, sys: SystemKind, six: bool, fate: Fate): (r: (Dev, bool)) {
    match sys
    case IsdbT =>
      var (e, ok) := PlayOn(d, WakeT() + BandT(six), fate);
      if ok && six then PlayOn(e, StartOutput(0x08), fate) else (e, false)
    case IsdbS => PlayOn(d, WakeS(), fate)
    case IsdbC => PlayOn(d.(incomplete := true, system := IsdbC, power := Active), WakeC(), fate)
    case J83B => PlayOn(d.(incomplete := true, system := J83B, power := Active), WakeJ(), fate)
    case Unspecified => (d, false)
  }

  predicate MustRestore(d: Dev, sys: SystemKind) { OnCable(d) && (sys != d.system || d.incomplete) }

  /** Starting a system and recording it. */
  function Begin(d: Dev, sys: SystemKind, six: bool, fate: Fate): (r: (Dev, bool)) {
    var (e, done) := Start(d, sys, six, fate);
    if done then (e.(system := sys, power := Active, incomplete := false), true) else (e, false)
  }

  /** The wakeup once cable settings that do not belong to it are restored. */
  function Proceed(d: Dev, sys: SystemKind, six: bool, fate: Fate): (r: (Dev, bool)) {
    if !d.power.Active? then Begin(d, sys, six, fate)
    else if d.system == sys then Retune(d, six, fate)
    else Begin(Sleep(d, fate).0, sys, six, fate)
  }

  /** cxd2856er_wakeup(): whether it returned 0. */
  function Wakeup(d: Dev, sys: SystemKind, six: bool, fate: Fate): (r: (Dev, bool)) {
    var (e, ok) := if MustRestore(d, sys) then Sleep(d, fate) else (d, true);
    if ok then Proceed(e, sys, six, fate) else (e, false)
  }

  // ----- histories ----------------------------------------------------------

  /** Reception control and monitoring between tunings. */
  datatype Watch = Tuned | Stream(a: byte, b: byte, c: byte) | LockT | LockS | LockC | CnrT | CnrS | CnrC

  function WatchTable(w: Watch): seq<Page> {
    match w
    case Tuned => PostTune()
    case Stream(a, b, c) => [P(0xc0, [Put(0xe9, [a, b, c])])]
    case LockT => [P(0x60, [Look(0x10)])]
    case LockS => [P(0xa0, [Look(0x12)])]
    case LockC => [P(0x40, [Look(0x88), Look(0x10)])]
    case CnrT => [Stay([W(0x01, 0x01)]), P(0x60, [Look(0x28), W(0x01, 0x00)])]
    case CnrS => [P(0xa1, [Look(0x10)])]
    case CnrC => [Stay([W(0x01, 0x01)]), P(0x40, [Look(0x4c)])]
  }

  datatype Cmd = DoSleep | DoWake(system: SystemKind, six: bool) | DoWatch(what: Watch)

  function Do(d: Dev, cmd: Cmd, fate: Fate): (r: (Dev, bool)) {
    match cmd
    case DoSleep => Sleep(d, fate)
    case DoWake(sys, six) => Wakeup(d, sys, six, fate)
    case DoWatch(w) =>
      var (e, ok) := PlayOn(d, WatchTable(w), fate);
      // the C/N reading of ISDB-C unfreezes the registers even after a failure
      if w.CnrC? && e.clock > d.clock + 1 then PlayOn(e, [Stay([W(0x01, 0x00)])], fate) else (e, ok)
  }

  function History(d: Dev, cmds: seq<Cmd>, fate: Fate): Dev {
    if |cmds| == 0 then d else Do(History(d, cmds[..|cmds| - 1], fate), cmds[|cmds| - 1], fate).0
  }

  // ----- failed sleeps ------------------------------------------------------

  /** The accesses before the one that writes 0xa3 of bank 0x11 in a cable sleep. */
  const A3_ACCESS: nat := 8

  /** A cable sleep that began at access `from` and failed at the last access before
      `clock` had by then written 0xa3. */
  predicate ReachedA3(from: nat, clock: nat, fate: Fate) {
    clock > from + A3_ACCESS + 1 || (clock == from + A3_ACCESS + 1 && fate(from + A3_ACCESS).Late?)
  }

  /** A command that tried to leave cable reception, failed, and by then had taken
      back the first of its settings. */
  predicate Undoing(d: Dev, cmd: Cmd, fate: Fate) {
    && OnCable(d) && (cmd.DoSleep? || (cmd.DoWake? && MustRestore(d, cmd.system)))
    && !Sleep(d, fate).1 && ReachedA3(d.clock, Sleep(d, fate).0.clock, fate)
  }
}
