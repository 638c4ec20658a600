/** Device files on top of the shared power: which of the recorded tuners are open. */
module MldevFiles {
  import opened Collections
  import opened Mldev
  import opened MldevTheorems

  /** A tuner of a board. */
  datatype TunerId = TunerId(board: nat, number: nat)

  /** The power manager, the tuners whose files are open, those whose last open failed
      although it was recorded, the boards whose receivers are initialised, and the
      boards whose first open file met a tuner left behind. */
  datatype Files = Files(s: State, open: set<TunerId>, left: set<TunerId>, ready: set<nat>, spoilt: set<nat>)

  /** `starts` is whether everything after the power succeeds in an open. */
  datatype Event =
    | Open(device: nat, tuner: TunerId, starts: bool)
    | Close(tuner: TunerId)
    | Other(request: Request)

  /** An open that will fail and be recorded all the same. */
  predicate Leaves(s: State, device: nat, i: nat, k: nat, fate: Fate)
    requires Shaped(s)
  {
    && Changes(s, device, i, k, true)
    && var b, p := s.boards[i], s.boards[1 - i];
    && (b.powered || fate(s.clock))
    && p.device.Some? && !p.powered && Interlocks(s.mode, b.(tuners := b.tuners[k := true]))
    && !fate(if b.powered then s.clock else s.clock + 1)
  }

  predicate OnBoard(us: set<TunerId>, i: nat) { exists u :: u in us && u.board == i }

  function Elsewhere(us: set<TunerId>, i: nat): set<TunerId> { set u | u in us && u.board != i }

  /** The boards initialised once the files open are `open`: a board without an open
      file is shut down. */
  function StillReady(ready: set<nat>, open: set<TunerId>, i: nat): set<nat> {
    if OnBoard(open, i) then ready else ready - {i}
  }

  function NowSpoilt(f: Files, i: nat): set<nat> {
    if OnBoard(f.open, i) then f.spoilt else if OnBoard(f.left, i) then f.spoilt + {i} else f.spoilt - {i}
  }

  /** px4_chrdev_open(): a failure of the power request is not undone, a later one is.
      A file is opened once at a time. The board is initialised if the power request
      asks for it, and shut down after a failure that leaves no file open on it. */
  function DoOpen(f: Files, device: nat, u: TunerId, starts: bool, fate: Fate): (g: Files)
    requires Shaped(f.s)
    ensures Shaped(g.s)
  {
    if u in f.open then f
    else
      var (t, a) := SetTuner(f.s, device, u.board, u.number, true, fate);
      if !a.ok then f.(s := t, left := if Leaves(f.s, device, u.board, u.number, fate) then f.left + {u} else f.left)
      else if starts then
        Files(t, f.open + {u}, f.left - {u}, if a.first then f.ready + {u.board} else f.ready, NowSpoilt(f, u.board))
      else
        f.(s := SetTuner(t, device, u.board, u.number, false, fate).0, left := f.left - {u},
           ready := StillReady(f.ready, f.open, u.board))
  }

  /** px4_chrdev_release(), of a file that is open; the last one shuts its board down. */
  function DoClose(f: Files, u: TunerId, fate: Fate): (g: Files)
    requires Shaped(f.s)
    ensures Shaped(g.s)
  {
    if u in f.open && u.board < 2 && f.s.boards[u.board].device.Some?
    then
      f.(s := SetTuner(f.s, f.s.boards[u.board].device.value, u.board, u.number, false, fate).0, open := f.open - {u},
         ready := StillReady(f.ready, f.open - {u}, u.board))
    else f
  }

  /** Attaching, detaching and the card. What was open on a board that is gone is no
      longer counted. */
  function DoOther(f: Files, r: Request, fate: Fate): (g: Files)
    requires Shaped(f.s)
    ensures Shaped(g.s)
  {
    match r
    case Tuner(_, _, _, _) => f
    case Remove(d, i) =>
      var (t, a) := Do(f.s, r, fate);
      if a.ok
      then Files(t, Elsewhere(f.open, i), Elsewhere(f.left, i), f.ready - {i}, f.spoilt)
      else f.(s := t)
    case _ => f.(s := Do(f.s, r, fate).0)
  }

  function Step(f: Files, e: Event, fate: Fate): (g: Files)
    requires Shaped(f.s)
    ensures Shaped(g.s)
  {
    match e
    case Open(d, u, starts) => DoOpen(f, d, u, starts, fate)
    case Close(u) => DoClose(f, u, fate)
    case Other(r) => DoOther(f, r, fate)
  }

  function Run(f: Files, es: seq<Event>, fate: Fate): (g: Files)
    requires Shaped(f.s)
    ensures Shaped(g.s)
    decreases |es|
  {
    if |es| == 0 then f else Run(Step(f, es[0], fate), es[1..], fate)
  }

  // ----- the invariant ------------------------------------------------------

  predicate Recorded(s: State, u: TunerId)
    requires Shaped(s)
  {
    u.board < 2 && u.number < 4 && s.boards[u.board].tuners[u.number]
  }

  /** The recorded tuners are the open ones and those left behind, and no others. */
  ghost predicate Exact(f: Files) {
    Inv(f.s) && (forall u :: Recorded(f.s, u) <==> u in f.open || u in f.left) && f.open !! f.left
  }

  /** Only the tuner asked for may change. */
  lemma OthersKept(s: State, device: nat, u: TunerId, on: bool, fate: Fate)
    requires Inv(s)
    ensures var t := SetTuner(s, device, u.board, u.number, on, fate).0;
            Inv(t) && forall v :: v != u ==> (Recorded(t, v) <==> Recorded(s, v))
  {
    TunerKeeps(s, device, u.board, u.number, on, fate);
    if Changes(s, device, u.board, u.number, on) {
      TunerRecorded(s, device, u.board, u.number, on, fate);
      OneTuner(s, SetTuner(s, device, u.board, u.number, on, fate).0, u, on);
    }
  }

  lemma OneTuner(s: State, t: State, u: TunerId, on: bool)
    requires Shaped(s) && Shaped(t) && u.board < 2 && u.number < 4
    requires var b, c := s.boards[u.board].tuners, t.boards[u.board].tuners; c == b || c == b[u.number := on]
    requires t.boards[1 - u.board].tuners == s.boards[1 - u.board].tuners
    ensures forall v :: v != u ==> (Recorded(t, v) <==> Recorded(s, v))
  {}

  /** Switching a recorded tuner off always erases it. */
  lemma OffErases(s: State, device: nat, u: TunerId, fate: Fate)
    requires Inv(s) && Recorded(s, u) && s.boards[u.board].device == Some(device)
    ensures !Recorded(SetTuner(s, device, u.board, u.number, false, fate).0, u)
  {
    TunerRecorded(s, device, u.board, u.number, false, fate);
  }

  /** Switching on: success records; failure records exactly in the one case. */
  lemma OnRecords(s: State, device: nat, u: TunerId, fate: Fate)
    requires Inv(s)
    ensures var (t, a) := SetTuner(s, device, u.board, u.number, true, fate);
            if a.ok then Recorded(t, u) && t.boards[u.board].device == Some(device)
            else Recorded(t, u) <==> Recorded(s, u) || Leaves(s, device, u.board, u.number, fate)
  {
    if Changes(s, device, u.board, u.number, true) {
      TunerRecorded(s, device, u.board, u.number, true, fate);
      FailedButRecorded(s, device, u.board, u.number, fate);
      if !s.boards[u.board].powered && !fate(s.clock) { RefusalFails(s, device, u.board, u.number, fate); }
    }
  }

  /** A board that refuses power makes the request fail. */
  lemma RefusalFails(s: State, device: nat, i: nat, k: nat, fate: Fate)
    requires Inv(s) && Changes(s, device, i, k, true) && !s.boards[i].powered && !fate(s.clock)
    ensures !SetTuner(s, device, i, k, true, fate).1.ok
  {
    var b := s.boards[i];
    AdjustSwitches(SetBoard(s, i, b.(tuners := b.tuners[k := true])), i, true, fate);
  }

  // ----- what every event keeps ---------------------------------------------

  lemma OpenKeeps(f: Files, device: nat, u: TunerId, starts: bool, fate: Fate)
    requires Exact(f)
    ensures Exact(DoOpen(f, device, u, starts, fate))
  {
    if u !in f.open {
      var (t, a) := SetTuner(f.s, device, u.board, u.number, true, fate);
      OthersKept(f.s, device, u, true, fate);
      OnRecords(f.s, device, u, fate);
      if a.ok && !starts {
        OthersKept(t, device, u, false, fate);
        OffErases(t, device, u, fate);
        ExactWithout(f, SetTuner(t, device, u.board, u.number, false, fate).0, u, DoOpen(f, device, u, starts, fate));
      } else if a.ok {
        ExactWith(f, t, u, DoOpen(f, device, u, starts, fate));
      }
    }
  }

  /** The record gained or lost one tuner. */
  lemma ExactWith(f: Files, t: State, u: TunerId, g: Files)
    requires Exact(f) && Inv(t) && Recorded(t, u) && u !in f.open
    requires forall v :: v != u ==> (Recorded(t, v) <==> Recorded(f.s, v))
    requires g.s == t && g.open == f.open + {u} && g.left == f.left - {u}
    ensures Exact(g)
  {}

  lemma ExactWithout(f: Files, t: State, u: TunerId, g: Files)
    requires Exact(f) && Inv(t) && !Recorded(t, u) && u !in f.open
    requires forall v :: v != u ==> (Recorded(t, v) <==> Recorded(f.s, v))
    requires g.s == t && g.open == f.open && g.left == f.left - {u}
    ensures Exact(g)
  {}

  lemma CloseKeeps(f: Files, u: TunerId, fate: Fate)
    requires Exact(f)
    ensures Exact(DoClose(f, u, fate))
  {
    if u in f.open && u.board < 2 && f.s.boards[u.board].device.Some? {
      var device := f.s.boards[u.board].device.value;
      assert Recorded(f.s, u);
      OthersKept(f.s, device, u, false, fate);
      OffErases(f.s, device, u, fate);
    }
  }

  /** The other requests leave the tuners alone, except on a board that is removed. */
  lemma AddTuners(s: State, device: nat, i: nat, fate: Fate)
    requires Inv(s)
    ensures var t := AddTo(s, device, i, fate).0;
            Inv(t) && forall u :: Recorded(t, u) <==> Recorded(s, u)
  {
    AddKeeps(s, device, i, fate);
    if i <= 1 && s.boards[i].device.None? {
      InvPair(s, i);
      AdjustSwitches(SetBoard(s, i, Free.(device := Some(device))), i, true, fate);
    }
  }

  lemma CardTuners(s: State, device: nat, i: nat, on: bool, fate: Fate)
    requires Inv(s)
    ensures var t := SetCard(s, device, i, on, fate).0;
            Inv(t) && forall u :: Recorded(t, u) <==> Recorded(s, u)
  {
    CardKeeps(s, device, i, on, fate);
    if i <= 1 && s.boards[i].device == Some(device) && s.boards[i].card != on {
      AdjustSwitches(SetBoard(s, i, s.boards[i].(card := on)), i, on, fate);
      SameTuners(s, SetCard(s, device, i, on, fate).0, i);
    }
  }

  lemma SameTuners(s: State, t: State, i: nat)
    requires Shaped(s) && Shaped(t) && i < 2
    requires t.boards[i].tuners == s.boards[i].tuners && t.boards[1 - i].tuners == s.boards[1 - i].tuners
    ensures forall u :: Recorded(t, u) <==> Recorded(s, u)
  {}

  lemma RemoveTuners(s: State, device: nat, i: nat, fate: Fate)
    requires Inv(s)
    ensures var (t, a) := RemoveFrom(s, device, i, fate);
            Inv(t) && forall u :: Recorded(t, u) <==> Recorded(s, u) && !(a.ok && u.board == i)
  {
    RemoveKeeps(s, device, i, fate);
    if i <= 1 && s.boards[i].device == Some(device) { var ok := RemoveEffect(s, device, i, fate); }
  }

  lemma OtherKeeps(f: Files, r: Request, fate: Fate)
    requires Exact(f)
    ensures Exact(DoOther(f, r, fate))
  {
    match r
    case Add(d, i) => AddTuners(f.s, d, i, fate);
    case Remove(d, i) => RemoveTuners(f.s, d, i, fate);
    case Card(d, i, on) => CardTuners(f.s, d, i, on, fate);
    case Tuner(_, _, _, _) =>
  }

  lemma StepExact(f: Files, e: Event, fate: Fate)
    requires Exact(f)
    ensures Exact(Step(f, e, fate))
  {
    match e
    case Open(d, u, starts) => OpenKeeps(f, d, u, starts, fate);
    case Close(u) => CloseKeeps(f, u, fate);
    case Other(r) => OtherKeeps(f, r, fate);
  }

  lemma {:induction false} RunExact(f: Files, es: seq<Event>, fate: Fate)
    requires Exact(f)
    ensures Exact(Run(f, es, fate))
    decreases |es|
  {
    if |es| > 0 {
      StepExact(f, es[0], fate);
      RunExact(Step(f, es[0], fate), es[1..], fate);
    }
  }

  // ----- initialised boards -------------------------------------------------

  /** Only boards with an open file are initialised, and such a board is exactly when
      no tuner was left behind on it when its first open file was opened. */
  ghost predicate Initialised(f: Files) {
    forall i :: (i in f.ready ==> OnBoard(f.open, i)) && (OnBoard(f.open, i) ==> (i in f.ready <==> i !in f.spoilt))
  }

  lemma BoardRecords(f: Files, i: nat)
    requires Exact(f) && i < 2
    ensures TunerOpen(f.s.boards[i]) <==> OnBoard(f.open, i) || OnBoard(f.left, i)
  {
    var ts := f.s.boards[i].tuners;
    forall k: nat | k < 4 && ts[k] ensures OnBoard(f.open, i) || OnBoard(f.left, i) {
      assert Recorded(f.s, TunerId(i, k));
    }
    if OnBoard(f.open, i) || OnBoard(f.left, i) {
      var u :| (u in f.open || u in f.left) && u.board == i;
      assert Recorded(f.s, u);
    }
  }

  lemma OpenPrepares(f: Files, device: nat, u: TunerId, starts: bool, fate: Fate)
    requires Exact(f) && Initialised(f)
    ensures Initialised(DoOpen(f, device, u, starts, fate))
  {
    var a := SetTuner(f.s, device, u.board, u.number, true, fate).1;
    var g := DoOpen(f, device, u, starts, fate);
    if u !in f.open && a.ok {
      TunerFirst(f.s, device, u.board, u.number, true, fate);
      BoardRecords(f, u.board);
      if starts { FileAdded(f, g, u, a.first); }
    }
  }

  lemma FileAdded(f: Files, g: Files, u: TunerId, first: bool)
    requires Initialised(f) && (first <==> !OnBoard(f.open, u.board) && !OnBoard(f.left, u.board))
    requires g.open == f.open + {u} && g.ready == (if first then f.ready + {u.board} else f.ready)
    requires g.spoilt == NowSpoilt(f, u.board)
    ensures Initialised(g)
  {
    forall i ensures OnBoard(g.open, i) <==> OnBoard(f.open, i) || i == u.board {
      if OnBoard(f.open, i) { var v :| v in f.open && v.board == i; assert v in g.open; }
      if i == u.board { assert u in g.open; }
    }
  }

  lemma FileRemoved(f: Files, g: Files, u: TunerId)
    requires Initialised(f) && g.open == f.open - {u} && g.spoilt == f.spoilt
    requires g.ready == StillReady(f.ready, g.open, u.board)
    ensures Initialised(g)
  {
    forall i | i != u.board ensures OnBoard(g.open, i) <==> OnBoard(f.open, i) {
      if OnBoard(f.open, i) { var v :| v in f.open && v.board == i; assert v in g.open; }
    }
    if OnBoard(g.open, u.board) { var v :| v in g.open && v.board == u.board; assert v in f.open; }
  }

  lemma BoardRemoved(f: Files, g: Files, b: nat)
    requires Initialised(f) && g.open == Elsewhere(f.open, b)
    requires g.ready == f.ready - {b} && g.spoilt == f.spoilt
    ensures Initialised(g)
  {
    forall i ensures OnBoard(g.open, i) <==> OnBoard(f.open, i) && i != b {
      if OnBoard(f.open, i) && i != b { var v :| v in f.open && v.board == i; assert v in g.open; }
    }
  }

  lemma StepPrepares(f: Files, e: Event, fate: Fate)
    requires Exact(f) && Initialised(f)
    ensures Initialised(Step(f, e, fate))
  {
    var g := Step(f, e, fate);
    match e
    case Open(d, u, starts) => OpenPrepares(f, d, u, starts, fate);
    case Close(u) => if g != f { FileRemoved(f, g, u); }
    case Other(r) => if r.Remove? && Do(f.s, r, fate).1.ok { BoardRemoved(f, g, r.board); }
  }

  lemma {:induction false} RunPrepares(f: Files, es: seq<Event>, fate: Fate)
    requires Exact(f) && Initialised(f)
    ensures Initialised(Run(f, es, fate))
    decreases |es|
  {
    if |es| > 0 {
      StepExact(f, es[0], fate);
      StepPrepares(f, es[0], fate);
      RunPrepares(Step(f, es[0], fate), es[1..], fate);
    }
  }

  // ----- main results -------------------------------------------------------

  function Fresh(mode: Mode, device: nat, first: nat): Files
    requires first < 2
  {
    Files(Allocated(mode, device, first), {}, {}, {}, {})
  }

  lemma FreshExact(mode: Mode, device: nat, first: nat)
    requires first < 2
    ensures Exact(Fresh(mode, device, first))
  {
    InvPair(Allocated(mode, device, first), first);
  }

  /** After any opens, releases and other requests, whatever fails: a tuner is recorded
      as a user of its board exactly when its file is open or its last open failed on
      the partner's power. So the record is the open files exactly when no open has
      failed that way since. */
  lemma RecordedExactly(mode: Mode, device: nat, first: nat, es: seq<Event>, fate: Fate)
    requires first < 2
    ensures var f := Run(Fresh(mode, device, first), es, fate);
            && (forall u :: Recorded(f.s, u) <==> u in f.open || u in f.left)
            && ((forall u :: Recorded(f.s, u) <==> u in f.open) <==> f.left == {})
  {
    FreshExact(mode, device, first);
    RunExact(Fresh(mode, device, first), es, fate);
    var f := Run(Fresh(mode, device, first), es, fate);
    if f.left != {} {
      var u :| u in f.left;
      assert Recorded(f.s, u) && u !in f.open;
    }
  }

  /** After any opens, releases and other requests, whatever fails: the board of every
      open file is powered, and its receivers were initialised since its power came on
      exactly when the first of its files now open met no tuner left behind there. */
  lemma InitialisedExactly(mode: Mode, device: nat, first: nat, es: seq<Event>, fate: Fate, u: TunerId)
    requires first < 2 && u in Run(Fresh(mode, device, first), es, fate).open
    ensures var f := Run(Fresh(mode, device, first), es, fate);
            && u.board < 2 && f.s.boards[u.board].powered
            && (u.board in f.ready <==> u.board !in f.spoilt)
  {
    FreshExact(mode, device, first);
    RunExact(Fresh(mode, device, first), es, fate);
    RunPrepares(Fresh(mode, device, first), es, fate);
    FileIsServed(Run(Fresh(mode, device, first), es, fate), u);
  }

  lemma FileIsServed(f: Files, u: TunerId)
    requires Exact(f) && Initialised(f) && u in f.open
    ensures u.board < 2 && f.s.boards[u.board].powered && (u.board in f.ready <==> u.board !in f.spoilt)
  {
    assert Recorded(f.s, u) && OnBoard(f.open, u.board);
    InvPair(f.s, u.board);
    BoardRecords(f, u.board);
  }

  /** No open of the run has failed on the partner's power. */
  predicate NothingLeft(f: Files, es: seq<Event>, fate: Fate)
    requires Shaped(f.s)
    decreases |es|
  {
    f.left == {} && (|es| > 0 ==> NothingLeft(Step(f, es[0], fate), es[1..], fate))
  }

  lemma {:induction false} NothingSpoilt(f: Files, es: seq<Event>, fate: Fate)
    requires Shaped(f.s) && f.spoilt == {} && NothingLeft(f, es, fate)
    ensures Run(f, es, fate).spoilt == {}
    decreases |es|
  {
    if |es| > 0 { NothingSpoilt(Step(f, es[0], fate), es[1..], fate); }
  }

  /** So as long as no tuner is ever left behind, no file is open on a board that was
      not initialised. */
  lemma OpenIsInitialised(mode: Mode, device: nat, first: nat, es: seq<Event>, fate: Fate, u: TunerId)
    requires first < 2 && u in Run(Fresh(mode, device, first), es, fate).open
    requires NothingLeft(Fresh(mode, device, first), es, fate)
    ensures u.board in Run(Fresh(mode, device, first), es, fate).ready
  {
    NothingSpoilt(Fresh(mode, device, first), es, fate);
    InitialisedExactly(mode, device, first, es, fate, u);
  }

  /** A board that is powered with no file open and no card in use is powered for an
      open that failed. */
  lemma PoweredForNothing(mode: Mode, device: nat, first: nat, es: seq<Event>, fate: Fate, i: nat)
    requires first < 2 && i < 2
    ensures var f := Run(Fresh(mode, device, first), es, fate);
            f.open == {} && f.s.boards[i].powered && !f.s.boards[i].card ==> f.left != {}
  {
    FreshExact(mode, device, first);
    RunExact(Fresh(mode, device, first), es, fate);
    var f := Run(Fresh(mode, device, first), es, fate);
    InvPair(f.s, i);
    if f.open == {} && f.left == {} {
      forall j, k | 0 <= j < 2 && 0 <= k < 4 ensures !f.s.boards[j].tuners[k] {
        assert !Recorded(f.s, TunerId(j, k));
      }
    }
  }

  /** Two boards, the second one refusing power: one open that fails leaves the first
      board powered with no file open. */
  lemma LeftPowered(fate: Fate, starts: bool)
    requires fate(0) && !fate(1)
    ensures var f := Step(Step(Fresh(AllTuners, 0, 0), Other(Add(1, 1)), fate), Open(0, TunerId(0, 0), starts), fate);
            f.open == {} && f.left == {TunerId(0, 0)} && f.s.boards[0].powered
  {
    var f := Step(Fresh(AllTuners, 0, 0), Other(Add(1, 1)), fate);
    FreshExact(AllTuners, 0, 0);
    OtherKeeps(Fresh(AllTuners, 0, 0), Add(1, 1), fate);
    assert f.open == {} && f.left == {};
    assert Leaves(f.s, 0, 0, 0, fate);
    LeavesPowered(f, 0, TunerId(0, 0), starts, fate);
  }

  /** The next open of that tuner then succeeds on a board that nothing initialised. */
  lemma OpensUninitialised(fate: Fate)
    requires fate(0) && !fate(1)
    ensures var f := Step(Step(Fresh(AllTuners, 0, 0), Other(Add(1, 1)), fate), Open(0, TunerId(0, 0), true), fate);
            var g := Step(f, Open(0, TunerId(0, 0), true), fate);
            g.open == {TunerId(0, 0)} && g.s.boards[0].powered && g.ready == {} && g.s == f.s
  {
    var f := Step(Step(Fresh(AllTuners, 0, 0), Other(Add(1, 1)), fate), Open(0, TunerId(0, 0), true), fate);
    LeftPowered(fate, true);
    FailedFirst(fate);
    ReopensLeft(f, 0, TunerId(0, 0), fate);
  }

  lemma FailedFirst(fate: Fate)
    requires fate(0) && !fate(1)
    ensures var f := Step(Step(Fresh(AllTuners, 0, 0), Other(Add(1, 1)), fate), Open(0, TunerId(0, 0), true), fate);
            && Exact(f) && f.ready == {} && f.s.boards[0].device == Some(0)
  {
    var f := Step(Fresh(AllTuners, 0, 0), Other(Add(1, 1)), fate);
    FreshExact(AllTuners, 0, 0);
    OtherKeeps(Fresh(AllTuners, 0, 0), Add(1, 1), fate);
    FailedButRecorded(f.s, 0, 0, 0, fate);
    TunerRecorded(f.s, 0, 0, 0, true, fate);
    OpenKeeps(f, 0, TunerId(0, 0), true, fate);
  }

  lemma ReopensLeft(f: Files, device: nat, u: TunerId, fate: Fate)
    requires Exact(f) && u in f.left && f.s.boards[u.board].device == Some(device)
    ensures var g := DoOpen(f, device, u, true, fate);
            g.s == f.s && g.open == f.open + {u} && g.ready == f.ready
  {
    assert Recorded(f.s, u);
  }

  /** What such an open comes to, in any state. */
  lemma LeavesPowered(f: Files, device: nat, u: TunerId, starts: bool, fate: Fate)
    requires Exact(f) && u !in f.open && Leaves(f.s, device, u.board, u.number, fate)
    ensures var g := DoOpen(f, device, u, starts, fate);
            g.open == f.open && g.left == f.left + {u} && g.s.boards[u.board].powered
  {
    FailedButRecorded(f.s, device, u.board, u.number, fate);
    OpenKeeps(f, device, u, starts, fate);
    var g := DoOpen(f, device, u, starts, fate);
    assert Recorded(g.s, u);
    InvPair(g.s, u.board);
  }
}
