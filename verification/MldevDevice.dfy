/** The shared power manager as an object, step by step. */
module MldevDevice {
  import opened Collections
  import opened Mldev
  import opened MldevTheorems

  lemma SameBoards(a: seq<Board>, b: seq<Board>, i: nat)
    requires |a| == 2 && |b| == 2 && i < 2 && a[i] == b[i] && a[1 - i] == b[1 - i]
    ensures a == b
  {}

  // ----- what the requests come to, in the order of the code ----------------

  lemma AddIs(s: State, device: nat, i: nat, fate: Fate)
    requires Inv(s) && i < 2 && s.boards[i].device.None?
    ensures var (t, a) := AddTo(s, device, i, fate);
            var ask, ok := Interlocks(s.mode, s.boards[1 - i]), fate(s.clock);
            && t.mode == s.mode && t.boards[1 - i] == s.boards[1 - i] && t.clock == s.clock + (if ask then 1 else 0)
            && a == Answer(!ask || ok, false)
            && t.boards[i] == if !ask then Free.(device := Some(device))
                              else if ok
                              then Free.(device := Some(device), powered := true, last := Command(true, true))
                              else Free
  {
    InvPair(s, i);
    var c := SetBoard(s, i, Free.(device := Some(device)));
    AdjustSwitches(c, i, true, fate);
    assert Needed(c, i) == Interlocks(s.mode, s.boards[1 - i]);
  }

  lemma RemoveIs(s: State, device: nat, i: nat, fate: Fate)
    requires Inv(s) && i < 2 && s.boards[i].device == Some(device)
    ensures var (t, a) := RemoveFrom(s, device, i, fate);
            var p, own := s.boards[1 - i], if s.boards[i].powered then 1 else 0;
            var idle := p.device.Some? && !HasUser(p) && p.powered;
            && t.mode == s.mode && t.boards[i] == Free && a == Answer(true, false)
            && t.boards[1 - i] == (if idle then Commanded(p, false, fate(s.clock + own)) else p)
            && t.clock == s.clock + own + if idle then 1 else 0
  {
    var own := if s.boards[i].powered then 1 else 0;
    RemoveThen(SetBoard(s.(clock := s.clock + own), i, Free), 1 - i, fate);
  }

  /** The partner of a board that is gone. */
  lemma RemoveThen(s: State, i: nat, fate: Fate)
    requires Shaped(s) && i < 2 && s.boards[1 - i] == Free
    ensures var (t, p) := (Adjust(s, i, false, fate).0, s.boards[i]);
            var idle := p.device.Some? && !HasUser(p) && p.powered;
            && t.mode == s.mode && t.boards[1 - i] == Free
            && t.boards[i] == (if idle then Commanded(p, false, fate(s.clock)) else p)
            && t.clock == s.clock + if idle then 1 else 0
  {}

  /** The own board's part of a tuner request. */
  lemma OwnIs(s: State, i: nat, k: nat, on: bool, fate: Fate)
    requires Inv(s) && i < 2 && k < 4 && s.boards[i].device.Some? && s.boards[i].tuners[k] != on
    ensures var b, p, ok := s.boards[i], s.boards[1 - i], fate(s.clock);
            var c := b.(tuners := b.tuners[k := on]);
            var (t, own) := Adjust(SetBoard(s, i, c), i, on, fate);
            var ask := && !TunerOpen(if on then b else c) && b.powered != on
                       && (on || (!b.card && !Interlocks(s.mode, p)));
            && t.mode == s.mode && t.boards[1 - i] == p && t.clock == s.clock + (if ask then 1 else 0)
            && own == (if ask then Command(on, ok) else NoCommand)
            && t.boards[i] == if ask then Commanded(c, on, ok) else c
  {
    InvPair(s, i);
    var b := s.boards[i];
    var c := b.(tuners := b.tuners[k := on]);
    AdjustSwitches(SetBoard(s, i, c), i, on, fate);
    assert HasUser(b) ==> b.powered;
  }

  lemma CardIs(s: State, device: nat, i: nat, on: bool, fate: Fate)
    requires Inv(s) && i < 2 && s.boards[i].device == Some(device) && s.boards[i].card != on
    ensures var (t, a) := SetCard(s, device, i, on, fate);
            var b, power, ok := s.boards[i], on || Interlocks(s.mode, s.boards[1 - i]), fate(s.clock);
            var ask := !TunerOpen(b) && b.powered != power;
            && t.mode == s.mode && t.boards[1 - i] == s.boards[1 - i] && t.clock == s.clock + (if ask then 1 else 0)
            && a == Answer(!ask || ok, false)
            && t.boards[i] == if !ask then b.(card := on)
                              else if !ok && power then b.(last := Command(power, ok))
                              else b.(card := on, powered := power, last := Command(power, ok))
  {
    InvPair(s, i);
    var b := s.boards[i];
    AdjustSwitches(SetBoard(s, i, b.(card := on)), i, on, fate);
  }

  lemma FirstIs(s: State, device: nat, i: nat, k: nat, on: bool, fate: Fate)
    requires Inv(s)
    ensures var a := SetTuner(s, device, i, k, on, fate).1;
            a.ok ==> i <= 1 && (a.first <==> on && !TunerOpen(s.boards[i]))
  {
    if SetTuner(s, device, i, k, on, fate).1.ok { TunerFirst(s, device, i, k, on, fate); }
  }

  class MultiDevice {
    const mode: Mode
    const fate: Fate
    var boards: seq<Board>
    var clock: nat

    constructor (mode: Mode, fate: Fate, device: nat, i: nat)
      requires i < 2
      ensures this.mode == mode && this.fate == fate && State() == Allocated(mode, device, i)
      ensures Inv(State())
    {
      this.mode, this.fate, clock := mode, fate, 0;
      boards := [Free, Free][i := Free.(device := Some(device))];
    }

    function State(): State
      reads this
    {
      Mldev.State(mode, boards, clock)
    }

    /** Gives board `i` a power command. */
    method Backend(i: nat, on: bool) returns (ok: bool)
      requires i < |boards|
      modifies this
      ensures ok == fate(old(clock)) && clock == old(clock) + 1
      ensures boards == old(boards)[i := old(boards)[i].(last := Command(on, ok))]
    {
      ok := fate(clock);
      clock := clock + 1;
      boards := boards[i := boards[i].(last := Command(on, ok))];
    }

    method Add(device: nat, i: nat) returns (ok: bool)
      requires Inv(State())
      modifies this
      ensures (State(), Answer(ok, false)) == AddTo(old(State()), device, i, fate)
    {
      ghost var s := State();
      if i > 1 { return false; }
      if boards[i].device.Some? { return false; }
      ok := true;
      if Interlocks(mode, boards[1 - i]) {
        ok := Backend(i, true);
        boards := boards[i := if ok then boards[i].(powered := true) else Free];
      }
      if ok { boards := boards[i := boards[i].(device := Some(device))]; }
      AddIs(s, device, i, fate);
      SameBoards(boards, AddTo(s, device, i, fate).0.boards, i);
    }

    method Remove(device: nat, i: nat) returns (ok: bool)
      requires Inv(State())
      modifies this
      ensures (State(), Answer(ok, false)) == RemoveFrom(old(State()), device, i, fate)
    {
      ghost var s := State();
      if i > 1 { return false; }
      if boards[i].device != Some(device) { return false; }
      if boards[i].powered { var _ := Backend(i, false); }
      boards := boards[i := Free];
      var other := boards[1 - i];
      if other.device.Some? && !HasUser(other) && other.powered {
        var _ := Backend(1 - i, false);
        boards := boards[1 - i := boards[1 - i].(powered := false)];
      }
      ok := true;
      RemoveIs(s, device, i, fate);
      SameBoards(boards, RemoveFrom(s, device, i, fate).0.boards, i);
    }

    /** Powers the partner of board `i` up or down with it. */
    method Interlock(i: nat, on: bool) returns (c: Command)
      requires Shaped(State()) && i < 2 && (HasUser(boards[1 - i]) ==> boards[1 - i].powered)
      modifies this
      ensures (State(), c) == Adjust(old(State()), 1 - i, on, fate)
    {
      ghost var s := State();
      c := NoCommand;
      var other := boards[1 - i];
      if other.device.Some? {
        var interlocking := Interlocks(mode, boards[i]);
        if interlocking == on && other.powered != interlocking && (on || !HasUser(other)) {
          var ok := Backend(1 - i, on);
          if ok || !on { boards := boards[1 - i := boards[1 - i].(powered := on)]; }
          c := Command(on, ok);
        }
      }
      SameBoards(boards, Adjust(s, 1 - i, on, fate).0.boards, i);
    }

    /** A tuner of board `i` comes or goes: the record and its own board's power. */
    method OwnTuner(i: nat, k: nat, on: bool) returns (c: Command, first: bool)
      requires Inv(State()) && i < 2 && k < 4 && boards[i].device.Some? && boards[i].tuners[k] != on
      modifies this
      ensures var b := old(boards)[i];
              var (t, own) := Adjust(SetBoard(old(State()), i, b.(tuners := b.tuners[k := on])), i, on, fate);
              && c == own
              && State() == (if RefusedPower(own) then SetBoard(t, i, t.boards[i].(tuners := b.tuners)) else t)
              && (!RefusedPower(own) ==> first == (on && !TunerOpen(b)))
    {
      ghost var s, b := State(), boards[i];
      ghost var (t, own) := Adjust(SetBoard(s, i, b.(tuners := b.tuners[k := on])), i, on, fate);
      OwnIs(s, i, k, on, fate);
      c, first := NoCommand, false;
      if !on { boards := boards[i := boards[i].(tuners := boards[i].tuners[k := false])]; }
      if !TunerOpen(boards[i]) {
        if boards[i].powered != on && (on || (!boards[i].card && !Interlocks(mode, boards[1 - i]))) {
          var ok := Backend(i, on);
          c := Command(on, ok);
          if !ok && on {
            SameBoards(boards, SetBoard(t, i, t.boards[i].(tuners := b.tuners)).boards, i);
            return;
          }
          boards := boards[i := boards[i].(powered := on)];
        }
        first := on;
      }
      if on { boards := boards[i := boards[i].(tuners := boards[i].tuners[k := true])]; }
      SameBoards(boards, t.boards, i);
    }

    method SetPower(device: nat, i: nat, k: nat, on: bool) returns (ok: bool, first: bool)
      requires Inv(State())
      modifies this
      ensures (State(), Answer(ok, first)) == SetTuner(old(State()), device, i, k, on, fate)
      ensures ok ==> i <= 1 && (first <==> on && !TunerOpen(old(State()).boards[i]))
    {
      FirstIs(State(), device, i, k, on, fate);
      ok, first := false, false;
      if i > 1 || k > 3 { return; }
      if boards[i].device != Some(device) { return; }
      if boards[i].tuners[k] == on { ok := true; return; }
      var own, partner: Command;
      own, first := OwnTuner(i, k, on);
      if RefusedPower(own) { first := false; return; }
      partner := Interlock(i, on);
      ok := if partner.Command? then partner.ok else !Failed(own);
    }

    method SetCardPower(device: nat, i: nat, on: bool) returns (ok: bool)
      requires Inv(State())
      modifies this
      ensures (State(), Answer(ok, false)) == SetCard(old(State()), device, i, on, fate)
    {
      ghost var s := State();
      if i > 1 { return false; }
      if boards[i].device != Some(device) { return false; }
      ok := true;
      if boards[i].card == on { return; }
      var previous := boards[i].card;
      boards := boards[i := boards[i].(card := on)];
      var power := on || Interlocks(mode, boards[1 - i]);
      if !TunerOpen(boards[i]) && boards[i].powered != power {
        ok := Backend(i, power);
        boards := boards[i := if !ok && power then boards[i].(card := previous) else boards[i].(powered := power)];
      }
      CardIs(s, device, i, on, fate);
      SameBoards(boards, SetCard(s, device, i, on, fate).0.boards, i);
    }
  }
}
