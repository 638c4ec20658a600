/** Two boards that share one power policy: who may keep a board powered, and what
    each request does about it. Powering a board may fail at any time. */
module Mldev {
  import opened Collections

  datatype Mode = AllTuners | SatelliteOnly | FirstOnly | SecondOnly

  /** The last power command a board was given, and whether it succeeded. */
  datatype Command = NoCommand | Command(on: bool, ok: bool)

  datatype Board = Board(device: Option<nat>, tuners: seq<bool>, card: bool, powered: bool, last: Command)

  const Free: Board := Board(None, [false, false, false, false], false, false, NoCommand)

  datatype State = State(mode: Mode, boards: seq<Board>, clock: nat)

  /** Whether the n-th power command succeeds. */
  type Fate = nat -> bool

  predicate Shaped(s: State) {
    |s.boards| == 2 && |s.boards[0].tuners| == 4 && |s.boards[1].tuners| == 4
  }

  predicate TunerOpen(b: Board)
    requires |b.tuners| == 4
  {
    b.tuners[0] || b.tuners[1] || b.tuners[2] || b.tuners[3]
  }

  predicate HasUser(b: Board)
    requires |b.tuners| == 4
  {
    TunerOpen(b) || b.card
  }

  /** The partner of such a board must be powered as well. */
  predicate Interlocks(mode: Mode, b: Board)
    requires |b.tuners| == 4
  {
    match mode
    case SatelliteOnly => b.tuners[0] || b.tuners[1]
    case FirstOnly => b.tuners[0]
    case SecondOnly => b.tuners[1]
    case AllTuners => TunerOpen(b)
  }

  /** The policy: a board is needed by its own users or by its partner's. */
  predicate Needed(s: State, i: nat)
    requires Shaped(s) && i < 2
  {
    HasUser(s.boards[i]) || Interlocks(s.mode, s.boards[1 - i])
  }

  // ----- requests -----------------------------------------------------------

  function SetBoard(s: State, i: nat, b: Board): State
    requires Shaped(s) && i < 2
  {
    s.(boards := s.boards[i := b])
  }

  /** A board after a power command: switching off is recorded even if it failed. */
  function Commanded(b: Board, on: bool, ok: bool): Board {
    b.(last := Command(on, ok), powered := if ok || !on then on else b.powered)
  }

  /** Switches an attached board if the policy asks for that state and it is not
      the recorded one. */
  function Adjust(s: State, i: nat, on: bool, fate: Fate): (r: (State, Command))
    requires Shaped(s) && i < 2
    ensures Shaped(r.0)
  {
    var b := s.boards[i];
    if b.device.Some? && Needed(s, i) == on && b.powered != on then
      var ok := fate(s.clock);
      (SetBoard(s, i, Commanded(b, on, ok)).(clock := s.clock + 1), Command(on, ok))
    else (s, NoCommand)
  }

  predicate Failed(c: Command) { c.Command? && !c.ok }
  predicate RefusedPower(c: Command) { Failed(c) && c.on }

  datatype Request =
    | Add(device: nat, board: nat)
    | Remove(device: nat, board: nat)
    | Tuner(device: nat, board: nat, tuner: nat, on: bool)
    | Card(device: nat, board: nat, on: bool)

  /** What a request answers: whether it returned 0, and whether the tuner is the
      first one on its board, which then has to be initialised. */
  datatype Answer = Answer(ok: bool, first: bool)

  function AddTo(s: State, device: nat, i: nat, fate: Fate): (r: (State, Answer))
    requires Shaped(s)
    ensures Shaped(r.0)
  {
    if i > 1 || s.boards[i].device.Some? then (s, Answer(false, false))
    else
      var attached := SetBoard(s, i, Free.(device := Some(device)));
      var (t, c) := Adjust(attached, i, true, fate);
      if Failed(c) then (SetBoard(t, i, Free), Answer(false, false)) else (t, Answer(true, false))
  }

  function RemoveFrom(s: State, device: nat, i: nat, fate: Fate): (r: (State, Answer))
    requires Shaped(s)
    ensures Shaped(r.0)
  {
    if i > 1 || s.boards[i].device != Some(device) then (s, Answer(false, false))
    else
      var stopped := if s.boards[i].powered then s.(clock := s.clock + 1) else s;
      (Adjust(SetBoard(stopped, i, Free), 1 - i, false, fate).0, Answer(true, false))
  }

  function SetTuner(s: State, device: nat, i: nat, k: nat, on: bool, fate: Fate): (r: (State, Answer))
    requires Shaped(s)
    ensures Shaped(r.0)
  {
    if i > 1 || k > 3 || s.boards[i].device != Some(device) then (s, Answer(false, false))
    else if s.boards[i].tuners[k] == on then (s, Answer(true, false))
    else
      var b := s.boards[i];
      var (t, own) := Adjust(SetBoard(s, i, b.(tuners := b.tuners[k := on])), i, on, fate);
      if RefusedPower(own) then (SetBoard(t, i, t.boards[i].(tuners := b.tuners)), Answer(false, false))
      else
        var (u, partner) := Adjust(t, 1 - i, on, fate);
        (u, Answer(if partner.Command? then partner.ok else !Failed(own), on && !TunerOpen(b)))
  }

  function SetCard(s: State, device: nat, i: nat, on: bool, fate: Fate): (r: (State, Answer))
    requires Shaped(s)
    ensures Shaped(r.0)
  {
    if i > 1 || s.boards[i].device != Some(device) then (s, Answer(false, false))
    else if s.boards[i].card == on then (s, Answer(true, false))
    else
      var b := s.boards[i];
      var (t, own) := Adjust(SetBoard(s, i, b.(card := on)), i, on, fate);
      if RefusedPower(own) then (SetBoard(t, i, t.boards[i].(card := b.card)), Answer(false, false))
      else (t, Answer(!Failed(own), false))
  }

  function Do(s: State, r: Request, fate: Fate): (t: (State, Answer))
    requires Shaped(s)
    ensures Shaped(t.0)
  {
    match r
    case Add(d, i) => AddTo(s, d, i, fate)
    case Remove(d, i) => RemoveFrom(s, d, i, fate)
    case Tuner(d, i, k, on) => SetTuner(s, d, i, k, on, fate)
    case Card(d, i, on) => SetCard(s, d, i, on, fate)
  }

  function Run(s: State, rs: seq<Request>, fate: Fate): (t: State)
    requires Shaped(s)
    ensures Shaped(t)
    decreases |rs|
  {
    if |rs| == 0 then s else Run(Do(s, rs[0], fate).0, rs[1..], fate)
  }

  /** The object as allocated for its first device. */
  function Allocated(mode: Mode, device: nat, i: nat): State
    requires i < 2
  {
    State(mode, [Free, Free][i := Free.(device := Some(device))], 0)
  }
}
