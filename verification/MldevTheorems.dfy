/** What every run of requests keeps, with any power command allowed to fail. */
module MldevTheorems {
  import opened Collections
  import opened Mldev

  // ----- one board ----------------------------------------------------------

  /** A board's record against the policy: users have power, power has a reason,
      and a reason without power means that switching it on failed last. */
  predicate Fit(b: Board, needed: bool)
    requires |b.tuners| == 4
  {
    && (b.device.None? ==> b == Free)
    && (b.powered <==> b.last == Command(true, true))
    && (HasUser(b) ==> b.powered)
    && (b.powered ==> needed)
    && (b.device.Some? && needed && !b.powered ==> b.last == Command(true, false))
  }

  predicate Pair(mode: Mode, a: Board, b: Board) {
    && |a.tuners| == 4 && |b.tuners| == 4
    && Fit(a, HasUser(a) || Interlocks(mode, b)) && Fit(b, HasUser(b) || Interlocks(mode, a))
  }

  predicate Inv(s: State) { |s.boards| == 2 && Pair(s.mode, s.boards[0], s.boards[1]) }

  lemma InvPair(s: State, i: nat)
    requires Shaped(s) && i < 2
    ensures Inv(s) <==> Pair(s.mode, s.boards[i], s.boards[1 - i])
  {}

  predicate Switches(b: Board, needed: bool, on: bool) { b.device.Some? && needed == on && b.powered != on }

  function Switched(b: Board, needed: bool, on: bool, ok: bool): Board {
    if Switches(b, needed, on) then Commanded(b, on, ok) else b
  }

  lemma AdjustSwitches(s: State, i: nat, on: bool, fate: Fate)
    requires Shaped(s) && i < 2
    ensures var (t, c) := Adjust(s, i, on, fate);
            && t.mode == s.mode && t.boards[1 - i] == s.boards[1 - i]
            && t.boards[i] == Switched(s.boards[i], Needed(s, i), on, fate(s.clock))
            && c == if Switches(s.boards[i], Needed(s, i), on) then Command(on, fate(s.clock)) else NoCommand
  {}

  /** The board whose user comes or goes; a refused user leaves no trace. */
  lemma OwnFits(b: Board, c: Board, lock: bool, on: bool, ok: bool)
    requires |b.tuners| == 4 && |c.tuners| == 4 && Fit(b, HasUser(b) || lock)
    requires c == b.(tuners := c.tuners, card := c.card) && b.device.Some?
    requires if on then HasUser(c) else HasUser(b)
    ensures var d := Switched(c, HasUser(c) || lock, on, ok);
            if on && !b.powered && !ok
            then d == c.(last := Command(true, false)) && Fit(b.(last := d.last), HasUser(b) || lock)
            else Fit(d, HasUser(d) || lock)
  {}

  /** Its partner, which it may start or stop to interlock. */
  lemma PartnerFits(p: Board, before: bool, after: bool, on: bool, ok: bool)
    requires |p.tuners| == 4 && Fit(p, HasUser(p) || before)
    requires if on then before ==> after else after ==> before
    ensures var q := Switched(p, HasUser(p) || after, on, ok);
            HasUser(q) == HasUser(p) && Fit(q, HasUser(q) || after)
  {}

  // ----- requests -----------------------------------------------------------

  lemma AddKeeps(s: State, device: nat, i: nat, fate: Fate)
    requires Inv(s)
    ensures Inv(AddTo(s, device, i, fate).0)
  {
    if i <= 1 && s.boards[i].device.None? {
      var c, p := Free.(device := Some(device)), s.boards[1 - i];
      AdjustSwitches(SetBoard(s, i, c), i, true, fate);
      InvPair(s, i);
      InvPair(AddTo(s, device, i, fate).0, i);
    }
  }

  lemma RemovePair(mode: Mode, b: Board, p: Board, ok: bool)
    requires Pair(mode, b, p)
    ensures Pair(mode, Free, Switched(p, HasUser(p), false, ok))
  {
    PartnerFits(p, Interlocks(mode, b), false, false, ok);
  }

  lemma RemoveEffect(s: State, device: nat, i: nat, fate: Fate) returns (ok: bool)
    requires Shaped(s) && i <= 1 && s.boards[i].device == Some(device)
    ensures var t, p := RemoveFrom(s, device, i, fate).0, s.boards[1 - i];
            t.mode == s.mode && t.boards[i] == Free && t.boards[1 - i] == Switched(p, HasUser(p), false, ok)
  {
    var stopped := if s.boards[i].powered then s.(clock := s.clock + 1) else s;
    ok := fate(stopped.clock);
    AdjustSwitches(SetBoard(stopped, i, Free), 1 - i, false, fate);
  }

  lemma RemoveKeeps(s: State, device: nat, i: nat, fate: Fate)
    requires Inv(s)
    ensures Inv(RemoveFrom(s, device, i, fate).0)
  {
    if i <= 1 && s.boards[i].device == Some(device) {
      var ok := RemoveEffect(s, device, i, fate);
      InvPair(s, i);
      RemovePair(s.mode, s.boards[i], s.boards[1 - i], ok);
      InvPair(RemoveFrom(s, device, i, fate).0, i);
    }
  }

  lemma CardPair(mode: Mode, b: Board, p: Board, on: bool, ok: bool)
    requires Pair(mode, b, p) && b.device.Some? && b.card != on
    ensures var c := b.(card := on);
            var d := Switched(c, HasUser(c) || Interlocks(mode, p), on, ok);
            Pair(mode, if on && !b.powered && !ok then d.(card := b.card) else d, p)
  {
    OwnFits(b, b.(card := on), Interlocks(mode, p), on, ok);
  }

  lemma CardKeeps(s: State, device: nat, i: nat, on: bool, fate: Fate)
    requires Inv(s)
    ensures Inv(SetCard(s, device, i, on, fate).0)
  {
    if i <= 1 && s.boards[i].device == Some(device) && s.boards[i].card != on {
      var b := s.boards[i];
      InvPair(s, i);
      AdjustSwitches(SetBoard(s, i, b.(card := on)), i, on, fate);
      CardPair(s.mode, b, s.boards[1 - i], on, fate(s.clock));
      InvPair(SetCard(s, device, i, on, fate).0, i);
    }
  }

  lemma TunerPair(mode: Mode, b: Board, p: Board, k: nat, on: bool, ok: bool, okp: bool)
    requires Pair(mode, b, p) && b.device.Some? && k < 4 && b.tuners[k] != on
    ensures var c := b.(tuners := b.tuners[k := on]);
            var d := Switched(c, HasUser(c) || Interlocks(mode, p), on, ok);
            if on && !b.powered && !ok then Pair(mode, d.(tuners := b.tuners), p)
            else Pair(mode, d, Switched(p, HasUser(p) || Interlocks(mode, c), on, okp))
  {
    var c := b.(tuners := b.tuners[k := on]);
    OwnFits(b, c, Interlocks(mode, p), on, ok);
    PartnerFits(p, Interlocks(mode, b), Interlocks(mode, c), on, okp);
  }

  /** The request took its full course. */
  predicate Changes(s: State, device: nat, i: nat, k: nat, on: bool)
    requires Shaped(s)
  {
    i <= 1 && k <= 3 && s.boards[i].device == Some(device) && s.boards[i].tuners[k] != on
  }

  /** What a tuner request does to the two boards. */
  lemma TunerEffect(s: State, device: nat, i: nat, k: nat, on: bool, fate: Fate) returns (ok: bool)
    requires Shaped(s) && Changes(s, device, i, k, on)
    ensures var b, p := s.boards[i], s.boards[1 - i];
            var c := b.(tuners := b.tuners[k := on]);
            var d := Switched(c, HasUser(c) || Interlocks(s.mode, p), on, fate(s.clock));
            var t := SetTuner(s, device, i, k, on, fate).0;
            && t.mode == s.mode
            && if on && !b.powered && !fate(s.clock) then t.boards[i] == d.(tuners := b.tuners) && t.boards[1 - i] == p
               else t.boards[i] == d && t.boards[1 - i] == Switched(p, HasUser(p) || Interlocks(s.mode, c), on, ok)
  {
    var b := s.boards[i];
    var c := SetBoard(s, i, b.(tuners := b.tuners[k := on]));
    var (t, own) := Adjust(c, i, on, fate);
    AdjustSwitches(c, i, on, fate);
    ok := fate(t.clock);
    if !RefusedPower(own) { PartnerFollows(t, 1 - i, on, fate); }
  }

  /** The partner's part of a tuner request. */
  lemma PartnerFollows(t: State, i: nat, on: bool, fate: Fate)
    requires Shaped(t) && i < 2
    ensures var (u, p) := (Adjust(t, i, on, fate).0, t.boards[i]);
            && u.mode == t.mode && u.boards[1 - i] == t.boards[1 - i]
            && u.boards[i] == Switched(p, HasUser(p) || Interlocks(t.mode, t.boards[1 - i]), on, fate(t.clock))
  {
    AdjustSwitches(t, i, on, fate);
  }

  lemma TunerKeeps(s: State, device: nat, i: nat, k: nat, on: bool, fate: Fate)
    requires Inv(s)
    ensures Inv(SetTuner(s, device, i, k, on, fate).0)
  {
    if Changes(s, device, i, k, on) {
      var ok := TunerEffect(s, device, i, k, on, fate);
      InvPair(s, i);
      TunerPair(s.mode, s.boards[i], s.boards[1 - i], k, on, fate(s.clock), ok);
      InvPair(SetTuner(s, device, i, k, on, fate).0, i);
    }
  }

  lemma DoKeeps(s: State, r: Request, fate: Fate)
    requires Inv(s)
    ensures Inv(Do(s, r, fate).0)
  {
    match r
    case Add(d, i) => AddKeeps(s, d, i, fate);
    case Remove(d, i) => RemoveKeeps(s, d, i, fate);
    case Tuner(d, i, k, on) => TunerKeeps(s, d, i, k, on, fate);
    case Card(d, i, on) => CardKeeps(s, d, i, on, fate);
  }

  // ----- main results -------------------------------------------------------

  lemma {:induction false} RunKeeps(s: State, rs: seq<Request>, fate: Fate)
    requires Inv(s)
    ensures Inv(Run(s, rs, fate))
    decreases |rs|
  {
    if |rs| > 0 {
      DoKeeps(s, rs[0], fate);
      RunKeeps(Do(s, rs[0], fate).0, rs[1..], fate);
    }
  }

  /** After any requests and failures: a board in use is powered; a powered board is
      in use or interlocked, and its last command switched it on successfully; an
      attached board that is needed and not powered could not be switched on. */
  lemma PowerHasReason(mode: Mode, device: nat, first: nat, rs: seq<Request>, fate: Fate, i: nat)
    requires first < 2 && i < 2
    ensures var s := Run(Allocated(mode, device, first), rs, fate); var b := s.boards[i];
            && (HasUser(b) ==> b.powered)
            && (b.powered ==> Needed(s, i) && b.device.Some?)
            && (b.powered <==> b.last == Command(true, true))
            && (b.device.Some? && Needed(s, i) && !b.powered ==> b.last == Command(true, false))
  {
    var s := Allocated(mode, device, first);
    InvPair(s, first);
    RunKeeps(s, rs, fate);
    InvPair(Run(s, rs, fate), i);
  }

  predicate NoneFailed(s: State) { |s.boards| == 2 && !Failed(s.boards[0].last) && !Failed(s.boards[1].last) }

  lemma AdjustSucceeds(s: State, i: nat, on: bool, fate: Fate)
    requires Shaped(s) && i < 2 && NoneFailed(s) && forall n :: fate(n)
    ensures NoneFailed(Adjust(s, i, on, fate).0) && !Failed(Adjust(s, i, on, fate).1)
  {}

  lemma TunerSucceeds(s: State, device: nat, i: nat, k: nat, on: bool, fate: Fate)
    requires Shaped(s) && NoneFailed(s) && forall n :: fate(n)
    ensures NoneFailed(SetTuner(s, device, i, k, on, fate).0)
  {
    if Changes(s, device, i, k, on) {
      var b := s.boards[i];
      var c := SetBoard(s, i, b.(tuners := b.tuners[k := on]));
      AdjustSucceeds(c, i, on, fate);
      AdjustSucceeds(Adjust(c, i, on, fate).0, 1 - i, on, fate);
    }
  }

  lemma DoSucceeds(s: State, r: Request, fate: Fate)
    requires Shaped(s) && NoneFailed(s) && forall n :: fate(n)
    ensures NoneFailed(Do(s, r, fate).0)
  {
    match r
    case Add(d, i) => if i <= 1 { AdjustSucceeds(SetBoard(s, i, Free.(device := Some(d))), i, true, fate); }
    case Remove(d, i) =>
    case Tuner(d, i, k, on) => TunerSucceeds(s, d, i, k, on, fate);
    case Card(d, i, on) => if i <= 1 { AdjustSucceeds(SetBoard(s, i, s.boards[i].(card := on)), i, on, fate); }
  }

  lemma {:induction false} RunSucceeds(s: State, rs: seq<Request>, fate: Fate)
    requires Shaped(s) && NoneFailed(s) && forall n :: fate(n)
    ensures NoneFailed(Run(s, rs, fate))
    decreases |rs|
  {
    if |rs| > 0 {
      DoSucceeds(s, rs[0], fate);
      RunSucceeds(Do(s, rs[0], fate).0, rs[1..], fate);
    }
  }

  /** Without failures the record, the policy and the last command agree. */
  lemma PowerIsNeed(mode: Mode, device: nat, first: nat, rs: seq<Request>, fate: Fate, i: nat)
    requires first < 2 && i < 2 && forall n :: fate(n)
    ensures var s := Run(Allocated(mode, device, first), rs, fate); var b := s.boards[i];
            && (b.device.Some? ==> (b.powered <==> Needed(s, i)))
            && (b.last == Command(true, true) <==> b.powered)
            && (!b.powered ==> b.last.NoCommand? || b.last == Command(false, true))
  {
    PowerHasReason(mode, device, first, rs, fate, i);
    RunSucceeds(Allocated(mode, device, first), rs, fate);
  }

  /** Switching a tuner on reports failure and is recorded all the same exactly when
      its own board has or gets power, and the partner, which is attached, off and
      now needed, does not get it. */
  lemma FailedButRecorded(s: State, device: nat, i: nat, k: nat, fate: Fate)
    requires Inv(s) && Changes(s, device, i, k, true)
    ensures var b, p := s.boards[i], s.boards[1 - i];
            var (t, a) := SetTuner(s, device, i, k, true, fate);
            !a.ok && t.boards[i].tuners[k] <==>
              && (b.powered || fate(s.clock))
              && p.device.Some? && !p.powered && Interlocks(s.mode, b.(tuners := b.tuners[k := true]))
              && !fate(if b.powered then s.clock else s.clock + 1)
  {
    InvPair(s, i);
    var b := s.boards[i];
    var c := b.(tuners := b.tuners[k := true]);
    AdjustSwitches(SetBoard(s, i, c), i, true, fate);
    var (t, own) := Adjust(SetBoard(s, i, c), i, true, fate);
    AdjustSwitches(t, 1 - i, true, fate);
  }

  /** Asked again, a recorded request reports success, changes nothing and does not
      ask for the initialisation that the failed one left undone. */
  lemma RepeatedTuner(s: State, device: nat, i: nat, k: nat, fate: Fate)
    requires Inv(s) && Changes(s, device, i, k, true)
    ensures var (t, a) := SetTuner(s, device, i, k, true, fate);
            t.boards[i].tuners[k] ==> SetTuner(t, device, i, k, true, fate) == (t, Answer(true, false))
  {
    var ok := TunerEffect(s, device, i, k, true, fate);
  }

  /** A request that succeeds asks for the board's initialisation exactly when it
      switches a tuner on and no tuner of the board was recorded before. */
  lemma TunerFirst(s: State, device: nat, i: nat, k: nat, on: bool, fate: Fate)
    requires Inv(s) && SetTuner(s, device, i, k, on, fate).1.ok
    ensures i <= 1 && k <= 3
    ensures SetTuner(s, device, i, k, on, fate).1.first <==> on && !TunerOpen(s.boards[i])
  {
    if s.boards[i].tuners[k] == on && on { assert TunerOpen(s.boards[i]); }
  }

  /** Two boards, the second one refusing power: the first tuner ever opened. */
  lemma FailedTunerRun(fate: Fate)
    requires fate(0) && !fate(1)
    ensures var s := Run(Allocated(AllTuners, 0, 0), [Add(1, 1)], fate);
            var (t, a) := SetTuner(s, 0, 0, 0, true, fate);
            && !a.ok && t.boards[0].tuners[0]
            && SetTuner(t, 0, 0, 0, true, fate) == (t, Answer(true, false))
  {
    var start, request := Allocated(AllTuners, 0, 0), [Add(1, 1)];
    InvPair(start, 0);
    RunKeeps(start, request, fate);
    assert request[1..] == [];
    var s := Run(start, request, fate);
    assert s == Do(start, Add(1, 1), fate).0;
    FailedButRecorded(s, 0, 0, 0, fate);
    RepeatedTuner(s, 0, 0, 0, fate);
  }

  /** A tuner request is recorded unless its own board refuses power, and changes no
      other user of either board. */
  lemma TunerRecorded(s: State, device: nat, i: nat, k: nat, on: bool, fate: Fate)
    requires Inv(s) && Changes(s, device, i, k, on)
    ensures var b, p := s.boards[i], s.boards[1 - i]; var t := SetTuner(s, device, i, k, on, fate).0;
            && t.boards[i].tuners == (if on && !b.powered && !fate(s.clock) then b.tuners else b.tuners[k := on])
            && t.boards[i].card == b.card && t.boards[i].device == b.device
            && t.boards[1 - i].tuners == p.tuners && t.boards[1 - i].card == p.card
            && t.boards[1 - i].device == p.device
  {
    InvPair(s, i);
    var ok := TunerEffect(s, device, i, k, on, fate);
  }

  /** Attaching succeeds exactly when the place is free and the power that the partner's
      tuners ask for comes on; it then adds a board without users, and otherwise
      changes neither board. */
  lemma AddAttaches(s: State, device: nat, i: nat, fate: Fate)
    requires Inv(s)
    ensures var (t, a) := AddTo(s, device, i, fate);
            && (a.ok <==> i <= 1 && s.boards[i].device.None?
                          && (Interlocks(s.mode, s.boards[1 - i]) ==> fate(s.clock)))
            && (!a.ok ==> t.boards == s.boards)
            && (a.ok ==> && t.boards[i].device == Some(device) && !HasUser(t.boards[i])
                         && t.boards[1 - i] == s.boards[1 - i])
  {
    if i <= 1 && s.boards[i].device.None? {
      InvPair(s, i);
      AdjustSwitches(SetBoard(s, i, Free.(device := Some(device))), i, true, fate);
      assert !(AddTo(s, device, i, fate).1.ok) ==> AddTo(s, device, i, fate).0.boards[1 - i] == s.boards[1 - i];
    }
  }

  /** Detaching succeeds exactly for the board in its place, and keeps the partner's users. */
  lemma RemoveDetaches(s: State, device: nat, i: nat, fate: Fate)
    requires Inv(s)
    ensures var (t, a) := RemoveFrom(s, device, i, fate);
            && (a.ok <==> i <= 1 && s.boards[i].device == Some(device))
            && (!a.ok ==> t == s)
            && (a.ok ==> var p, q := s.boards[1 - i], t.boards[1 - i];
                         && t.boards[i].device.None? && !HasUser(t.boards[i]) && !t.boards[i].powered
                         && q.device == p.device && q.tuners == p.tuners && q.card == p.card)
  {
    if i <= 1 && s.boards[i].device == Some(device) { var ok := RemoveEffect(s, device, i, fate); }
  }

  /** The card's request: recorded unless its board refuses power; it fails if its board
      refuses power, or does not switch off for the last user to go. */
  lemma CardRecorded(s: State, device: nat, i: nat, on: bool, fate: Fate)
    requires Inv(s) && i <= 1 && s.boards[i].device == Some(device) && s.boards[i].card != on
    ensures var b, p := s.boards[i], s.boards[1 - i]; var (t, a) := SetCard(s, device, i, on, fate);
            && (t.boards[i].card <==> if on then b.powered || fate(s.clock) else false)
            && t.boards[i].tuners == b.tuners && t.boards[i].device == b.device && t.boards[1 - i] == p
            && (on ==> (a.ok <==> b.powered || fate(s.clock)))
            && (!on ==> (a.ok <==> TunerOpen(b) || Interlocks(s.mode, p) || fate(s.clock)))
  {
    InvPair(s, i);
    AdjustSwitches(SetBoard(s, i, s.boards[i].(card := on)), i, on, fate);
  }

  // ----- which tuners wake the partner --------------------------------------

  /** Tuners 0 and 1 receive satellite channels. */
  predicate WakesPartner(mode: Mode, k: nat) {
    if mode.AllTuners? then true else if mode.SatelliteOnly? then k <= 1 else k == if mode.FirstOnly? then 0 else 1
  }

  lemma InterlocksExactly(mode: Mode, b: Board)
    requires |b.tuners| == 4
    ensures Interlocks(mode, b) <==> exists k: nat :: k < 4 && b.tuners[k] && WakesPartner(mode, k)
  {
    if Interlocks(mode, b) {
      var k :| 0 <= k < 4 && b.tuners[k] && WakesPartner(mode, k);
    }
  }

  lemma DoMode(s: State, r: Request, fate: Fate)
    requires Shaped(s)
    ensures Do(s, r, fate).0.mode == s.mode
  {
    match r
    case Add(d, i) =>
    case Remove(d, i) => if i <= 1 && s.boards[i].device == Some(d) { var ok := RemoveEffect(s, d, i, fate); }
    case Tuner(d, i, k, on) => if Changes(s, d, i, k, on) { var ok := TunerEffect(s, d, i, k, on, fate); }
    case Card(d, i, on) =>
  }

  lemma {:induction false} RunMode(s: State, rs: seq<Request>, fate: Fate)
    requires Shaped(s)
    ensures Run(s, rs, fate).mode == s.mode
    decreases |rs|
  {
    if |rs| > 0 {
      DoMode(s, rs[0], fate);
      RunMode(Do(s, rs[0], fate).0, rs[1..], fate);
    }
  }

  /** Without failures a board that nobody uses is powered exactly while its partner has
      one of the tuners in use that the mode lets wake it. */
  lemma PartnerPowered(mode: Mode, device: nat, first: nat, rs: seq<Request>, fate: Fate, i: nat)
    requires first < 2 && i < 2 && forall n :: fate(n)
    ensures var s := Run(Allocated(mode, device, first), rs, fate); var b, p := s.boards[i], s.boards[1 - i];
            b.device.Some? && !HasUser(b) ==>
              (b.powered <==> exists k: nat :: k < 4 && p.tuners[k] && WakesPartner(mode, k))
  {
    PowerIsNeed(mode, device, first, rs, fate, i);
    RunMode(Allocated(mode, device, first), rs, fate);
    InterlocksExactly(mode, Run(Allocated(mode, device, first), rs, fate).boards[1 - i]);
  }
}
