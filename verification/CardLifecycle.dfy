/** Opening, using, closing and removing card readers, in any interleaving. Each
    section under a lock is one step; between the sections anything may happen. */
module CardLifecycle {

  /** How far the removal of a reader has come. Once it is over, the device behind
      the reader may be freed. */
  datatype Phase = Listed | Delisted | Cut | Over

  /** A reader object. `cdev` is the address of its kernel device, which may be used
      again once nothing refers to it. */
  datatype Card = Card(minor: nat, cdev: nat, phase: Phase, refs: nat, held: bool, disconnected: bool, freed: bool)

  /** A process. `Begun` holds the kernel device of the node it opens; `origin` is
      the reader it was looked up for. */
  datatype Process =
    | Begun(minor: nat, cdev: nat, origin: nat)
    | Found(card: nat, origin: nat)
    | File(card: nat)
    | Closed(card: nat)
    | Ended

  datatype State = State(cards: seq<Card>, procs: seq<Process>)

  datatype Step =
    | Register(minor: nat, cdev: nat)
    | Begin(card: nat)
    | LookUp(proc: nat)
    | Attach(proc: nat, interrupted: bool)
    | Use(proc: nat)
    | Close(proc: nat)
    | Put(proc: nat)
    | Delist(card: nat)
    | Disconnect(card: nat)
    | Finish(card: nat)

  /** Some process is opening through this kernel device and keeps its address. */
  predicate Pinned(s: State, cdev: nat) {
    exists k :: 0 <= k < |s.procs| && s.procs[k].Begun? && s.procs[k].cdev == cdev
  }

  predicate ListedAt(s: State, i: nat, minor: nat, cdev: nat) {
    i < |s.cards| && s.cards[i].phase.Listed? && s.cards[i].minor == minor && s.cards[i].cdev == cdev
  }

  /** The search of the list by number and kernel device. */
  function Find(s: State, minor: nat, cdev: nat, from: nat): (i: nat)
    requires from <= |s.cards|
    ensures from <= i <= |s.cards| && (i < |s.cards| ==> ListedAt(s, i, minor, cdev))
    ensures forall j :: from <= j < i ==> !ListedAt(s, j, minor, cdev)
    decreases |s.cards| - from
  {
    if from == |s.cards| || ListedAt(s, from, minor, cdev) then from else Find(s, minor, cdev, from + 1)
  }

  predicate Enabled(s: State, a: Step) {
    match a
    case Register(minor, cdev) =>
      !Pinned(s, cdev) && forall i :: 0 <= i < |s.cards| && s.cards[i].phase.Listed? ==> s.cards[i].cdev != cdev
    case Begin(c) => c < |s.cards| && s.cards[c].phase.Listed?
    case LookUp(k) => k < |s.procs| && s.procs[k].Begun?
    case Attach(k, _) => k < |s.procs| && s.procs[k].Found? && s.procs[k].card < |s.cards|
    case Use(k) => k < |s.procs| && s.procs[k].File? && s.procs[k].card < |s.cards|
    case Close(k) => k < |s.procs| && s.procs[k].File? && s.procs[k].card < |s.cards|
    case Put(k) => k < |s.procs| && s.procs[k].Closed? && s.procs[k].card < |s.cards|
    case Delist(c) => c < |s.cards| && s.cards[c].phase.Listed?
    case Disconnect(c) => c < |s.cards| && s.cards[c].phase.Delisted?
    case Finish(c) => c < |s.cards| && s.cards[c].phase.Cut?
  }

  function SetProc(s: State, k: nat, p: Process): State
    requires k < |s.procs|
  {
    s.(procs := s.procs[k := p])
  }

  function SetCard(s: State, c: nat, x: Card): State
    requires c < |s.cards|
  {
    s.(cards := s.cards[c := x])
  }

  function Get(x: Card): Card { x.(refs := x.refs + 1) }

  /** The last reference frees the object. */
  function Drop(x: Card): Card {
    if x.refs <= 1 then x.(refs := 0, freed := true) else x.(refs := x.refs - 1)
  }

  function Next(s: State, a: Step): State
    requires Enabled(s, a)
  {
    match a
    case Register(minor, cdev) =>
      s.(cards := s.cards + [Card(minor, cdev, Listed, 1, false, false, false)])
    case Begin(c) => s.(procs := s.procs + [Begun(s.cards[c].minor, s.cards[c].cdev, c)])
    case LookUp(k) =>
      var p := s.procs[k];
      var i := Find(s, p.minor, p.cdev, 0);
      if i < |s.cards| then SetProc(SetCard(s, i, Get(s.cards[i])), k, Found(i, p.origin)) else SetProc(s, k, Ended)
    case Attach(k, interrupted) =>
      var p := s.procs[k];
      var x := s.cards[p.card];
      if interrupted || x.disconnected || x.held then SetProc(SetCard(s, p.card, Drop(x)), k, Ended)
      else SetProc(SetCard(s, p.card, x.(held := true)), k, File(p.card))
    case Use(k) => s
    case Close(k) =>
      var c := s.procs[k].card;
      SetProc(SetCard(s, c, s.cards[c].(held := false)), k, Closed(c))
    case Put(k) =>
      var c := s.procs[k].card;
      SetProc(SetCard(s, c, Drop(s.cards[c])), k, Ended)
    case Delist(c) => SetCard(s, c, s.cards[c].(phase := Delisted))
    case Disconnect(c) => SetCard(s, c, s.cards[c].(phase := Cut, disconnected := true))
    case Finish(c) => SetCard(s, c, Drop(s.cards[c]).(phase := Over))
  }

  // ----- what may be touched ------------------------------------------------

  /** The objects a step reads or writes after it has left the list. */
  predicate Touches(s: State, a: Step, c: nat)
    requires Enabled(s, a)
  {
    match a
    case Attach(k, _) => c == s.procs[k].card
    case Use(k) => c == s.procs[k].card
    case Close(k) => c == s.procs[k].card
    case Put(k) => c == s.procs[k].card
    case Delist(d) => c == d
    case Disconnect(d) => c == d
    case Finish(d) => c == d
    case LookUp(k) => c == Find(s, s.procs[k].minor, s.procs[k].cdev, 0)
    case _ => false
  }

  /** The steps that operate the device behind the reader. */
  predicate Operates(s: State, a: Step, c: nat)
    requires Enabled(s, a)
  {
    match a
    case Use(k) => c == s.procs[k].card && !s.cards[c].disconnected
    case Close(k) => c == s.procs[k].card && !s.cards[c].disconnected
    case Disconnect(d) => c == d
    case _ => false
  }

  /** No freed object is touched, no device is operated after the removal of its
      reader is over, and an open ends at the reader it was begun for. */
  ghost predicate Safe(s: State, a: Step)
    requires Enabled(s, a)
  {
    && (forall c :: 0 <= c < |s.cards| && Touches(s, a, c) ==> !s.cards[c].freed)
    && (forall c :: 0 <= c < |s.cards| && Operates(s, a, c) ==> !s.cards[c].phase.Over?)
    && (a.LookUp? ==> var t := Next(s, a); t.procs[a.proc].Found? ==> t.procs[a.proc].card == s.procs[a.proc].origin)
  }

  // ----- invariant ----------------------------------------------------------

  predicate Refers(p: Process, c: nat) { (p.Found? || p.File? || p.Closed?) && p.card == c }
  predicate IsFile(p: Process, c: nat) { p.File? && p.card == c }

  function One(b: bool): nat { if b then 1 else 0 }

  function Refs(procs: seq<Process>, c: nat): nat {
    if |procs| == 0 then 0 else One(Refers(procs[0], c)) + Refs(procs[1..], c)
  }

  function Files(procs: seq<Process>, c: nat): nat {
    if |procs| == 0 then 0 else One(IsFile(procs[0], c)) + Files(procs[1..], c)
  }

  /** The references to a reader are its registration and the processes that have
      found it, and at most one of them has it open. */
  ghost predicate CardFits(x: Card, refs: int, files: int) {
    && x.refs == One(!x.phase.Over?) + refs
    && files == One(x.held)
    && (x.disconnected <==> x.phase.Cut? || x.phase.Over?)
    && (x.freed <==> x.refs == 0)
  }

  ghost predicate ProcFits(s: State, p: Process) {
    match p
    case Begun(minor, cdev, origin) =>
      && origin < |s.cards| && s.cards[origin].minor == minor && s.cards[origin].cdev == cdev
      && forall i :: 0 <= i < |s.cards| && s.cards[i].phase.Listed? && s.cards[i].cdev == cdev ==> i == origin
    case Found(c, origin) => c < |s.cards| && c == origin
    case File(c) => c < |s.cards|
    case Closed(c) => c < |s.cards|
    case Ended => true
  }

  ghost predicate Inv(s: State) {
    && (forall c :: 0 <= c < |s.cards| ==> CardFits(s.cards[c], Refs(s.procs, c), Files(s.procs, c)))
    && (forall k :: 0 <= k < |s.procs| ==> ProcFits(s, s.procs[k]))
    && (forall i, j :: 0 <= i < j < |s.cards| && s.cards[i].phase.Listed? && s.cards[j].phase.Listed? ==>
          s.cards[i].cdev != s.cards[j].cdev)
  }

  // ----- counting -----------------------------------------------------------

  lemma {:induction false} CountUpdate(procs: seq<Process>, k: nat, p: Process, c: nat)
    requires k < |procs|
    ensures Refs(procs[k := p], c) == Refs(procs, c) - One(Refers(procs[k], c)) + One(Refers(p, c))
    ensures Files(procs[k := p], c) == Files(procs, c) - One(IsFile(procs[k], c)) + One(IsFile(p, c))
    decreases |procs|
  {
    if k == 0 {
      assert procs[k := p][1..] == procs[1..];
    } else {
      assert procs[k := p][1..] == procs[1..][k - 1 := p];
      CountUpdate(procs[1..], k - 1, p, c);
    }
  }

  lemma {:induction false} CountAppend(procs: seq<Process>, p: Process, c: nat)
    ensures Refs(procs + [p], c) == Refs(procs, c) + One(Refers(p, c))
    ensures Files(procs + [p], c) == Files(procs, c) + One(IsFile(p, c))
    decreases |procs|
  {
    if |procs| == 0 {
      assert (procs + [p])[1..] == [];
    } else {
      assert (procs + [p])[1..] == procs[1..] + [p];
      CountAppend(procs[1..], p, c);
    }
  }

  lemma {:induction false} CountBounds(procs: seq<Process>, k: nat, c: nat)
    requires k < |procs|
    ensures One(Refers(procs[k], c)) <= Refs(procs, c) && One(IsFile(procs[k], c)) <= Files(procs, c)
    decreases |procs|
  {
    if k > 0 { CountBounds(procs[1..], k - 1, c); }
  }

  lemma {:induction false} CountNone(procs: seq<Process>, c: nat)
    requires forall k :: 0 <= k < |procs| ==> !Refers(procs[k], c)
    ensures Refs(procs, c) == 0 && Files(procs, c) == 0
    decreases |procs|
  {
    if |procs| > 0 { CountNone(procs[1..], c); }
  }

  // ----- steps --------------------------------------------------------------

  /** What a process is told by still holds while the readers keep their identity. */
  lemma StillFits(s: State, t: State, p: Process)
    requires |t.cards| == |s.cards| && ProcFits(s, p)
    requires forall i :: 0 <= i < |s.cards| ==>
      t.cards[i].phase == s.cards[i].phase && t.cards[i].cdev == s.cards[i].cdev && t.cards[i].minor == s.cards[i].minor
    ensures ProcFits(t, p)
  {}

  /** A step by which process `k` moves to `p` while reader `c` becomes `x`. */
  lemma Moves(s: State, k: nat, p: Process, c: nat, x: Card)
    requires Inv(s) && k < |s.procs| && c < |s.cards|
    requires forall d :: d != c ==> Refers(s.procs[k], d) == Refers(p, d) && IsFile(s.procs[k], d) == IsFile(p, d)
    requires CardFits(x, Refs(s.procs, c) - One(Refers(s.procs[k], c)) + One(Refers(p, c)),
                         Files(s.procs, c) - One(IsFile(s.procs[k], c)) + One(IsFile(p, c)))
    requires x.phase == s.cards[c].phase && x.cdev == s.cards[c].cdev && x.minor == s.cards[c].minor && ProcFits(s, p)
    ensures Inv(SetProc(SetCard(s, c, x), k, p))
  {
    var t := SetProc(SetCard(s, c, x), k, p);
    forall d | 0 <= d < |t.cards| ensures CardFits(t.cards[d], Refs(t.procs, d), Files(t.procs, d)) {
      CountUpdate(s.procs, k, p, d);
      assert CardFits(s.cards[d], Refs(s.procs, d), Files(s.procs, d));
    }
    MovesProcs(s, t, k, p);
  }

  lemma MovesProcs(s: State, t: State, k: nat, p: Process)
    requires (forall j :: 0 <= j < |s.procs| ==> ProcFits(s, s.procs[j])) && ProcFits(s, p)
    requires k < |s.procs| && t.procs == s.procs[k := p] && |t.cards| == |s.cards|
    requires forall i :: 0 <= i < |s.cards| ==>
      t.cards[i].phase == s.cards[i].phase && t.cards[i].cdev == s.cards[i].cdev && t.cards[i].minor == s.cards[i].minor
    ensures forall j :: 0 <= j < |t.procs| ==> ProcFits(t, t.procs[j])
  {
    forall j | 0 <= j < |t.procs| ensures ProcFits(t, t.procs[j]) {
      assert j != k ==> ProcFits(s, s.procs[j]);
      StillFits(s, t, t.procs[j]);
    }
  }

  lemma LookUpKeeps(s: State, k: nat)
    requires Inv(s) && Enabled(s, LookUp(k))
    ensures Inv(Next(s, LookUp(k))) && Safe(s, LookUp(k))
  {
    var p := s.procs[k];
    assert ProcFits(s, p);
    var i := Find(s, p.minor, p.cdev, 0);
    if i < |s.cards| {
      Moves(s, k, Found(i, p.origin), i, Get(s.cards[i]));
    } else {
      EndKeeps(s, k);
    }
  }

  lemma EndKeeps(s: State, k: nat)
    requires Inv(s) && k < |s.procs| && s.procs[k].Begun?
    ensures Inv(SetProc(s, k, Ended))
  {
    var t := SetProc(s, k, Ended);
    forall d | 0 <= d < |t.cards| ensures CardFits(t.cards[d], Refs(t.procs, d), Files(t.procs, d)) {
      CountUpdate(s.procs, k, Ended, d);
    }
  }

  /** A process that refers to a reader keeps it from being freed. */
  lemma Alive(s: State, k: nat, c: nat)
    requires Inv(s) && k < |s.procs| && Refers(s.procs[k], c)
    ensures c < |s.cards| && s.cards[c].refs > 0 && !s.cards[c].freed
  {
    assert ProcFits(s, s.procs[k]);
    CountBounds(s.procs, k, c);
  }

  lemma AttachKeeps(s: State, k: nat, interrupted: bool)
    requires Inv(s) && Enabled(s, Attach(k, interrupted))
    ensures Inv(Next(s, Attach(k, interrupted))) && Safe(s, Attach(k, interrupted))
  {
    var c := s.procs[k].card;
    Alive(s, k, c);
    var x := s.cards[c];
    if interrupted || x.disconnected || x.held { Moves(s, k, Ended, c, Drop(x)); }
    else { Moves(s, k, File(c), c, x.(held := true)); }
  }

  lemma CloseKeeps(s: State, k: nat)
    requires Inv(s) && Enabled(s, Close(k))
    ensures Inv(Next(s, Close(k))) && Safe(s, Close(k))
  {
    var c := s.procs[k].card;
    Alive(s, k, c);
    CountBounds(s.procs, k, c);
    Moves(s, k, Closed(c), c, s.cards[c].(held := false));
  }

  lemma PutKeeps(s: State, k: nat)
    requires Inv(s) && Enabled(s, Put(k))
    ensures Inv(Next(s, Put(k))) && Safe(s, Put(k))
  {
    var c := s.procs[k].card;
    Alive(s, k, c);
    Moves(s, k, Ended, c, Drop(s.cards[c]));
  }

  lemma UseKeeps(s: State, k: nat)
    requires Inv(s) && Enabled(s, Use(k))
    ensures Inv(Next(s, Use(k))) && Safe(s, Use(k))
  {
    Alive(s, k, s.procs[k].card);
  }

  /** The three steps of a removal. */
  lemma RemovalKeeps(s: State, a: Step)
    requires Inv(s) && Enabled(s, a) && (a.Delist? || a.Disconnect? || a.Finish?)
    ensures Inv(Next(s, a)) && Safe(s, a)
  {
    var t := Next(s, a);
    assert CardFits(s.cards[a.card], Refs(s.procs, a.card), Files(s.procs, a.card));
    assert forall d :: 0 <= d < |s.cards| && d != a.card ==> t.cards[d] == s.cards[d];
    assert CardFits(t.cards[a.card], Refs(s.procs, a.card), Files(s.procs, a.card));
    forall k | 0 <= k < |t.procs| ensures ProcFits(t, t.procs[k]) { assert ProcFits(s, s.procs[k]); }
  }

  lemma BeginKeeps(s: State, c: nat)
    requires Inv(s) && Enabled(s, Begin(c))
    ensures Inv(Next(s, Begin(c)))
  {
    var t := Next(s, Begin(c));
    var p := t.procs[|s.procs|];
    forall d | 0 <= d < |t.cards| ensures CardFits(t.cards[d], Refs(t.procs, d), Files(t.procs, d)) {
      CountAppend(s.procs, p, d);
    }
    forall k | 0 <= k < |t.procs| ensures ProcFits(t, t.procs[k]) {
      if k < |s.procs| { assert ProcFits(s, s.procs[k]); }
    }
  }

  lemma RegisterKeeps(s: State, minor: nat, cdev: nat)
    requires Inv(s) && Enabled(s, Register(minor, cdev))
    ensures Inv(Next(s, Register(minor, cdev)))
  {
    var t := Next(s, Register(minor, cdev));
    var n := |s.cards|;
    forall k | 0 <= k < |s.procs| ensures ProcFits(t, s.procs[k]) && !Refers(s.procs[k], n) {
      assert ProcFits(s, s.procs[k]);
    }
    CountNone(s.procs, n);
    assert forall d :: 0 <= d < n ==> t.cards[d] == s.cards[d];
  }

  lemma NextKeeps(s: State, a: Step)
    requires Inv(s) && Enabled(s, a)
    ensures Inv(Next(s, a)) && Safe(s, a)
  {
    match a
    case Register(minor, cdev) => RegisterKeeps(s, minor, cdev);
    case Begin(c) => BeginKeeps(s, c);
    case LookUp(k) => LookUpKeeps(s, k);
    case Attach(k, i) => AttachKeeps(s, k, i);
    case Use(k) => UseKeeps(s, k);
    case Close(k) => CloseKeeps(s, k);
    case Put(k) => PutKeeps(s, k);
    case Delist(c) => RemovalKeeps(s, a);
    case Disconnect(c) => RemovalKeeps(s, a);
    case Finish(c) => RemovalKeeps(s, a);
  }

  // ----- main result --------------------------------------------------------

  /** Takes the steps in order, passing over those that are not possible. */
  function Run(s: State, steps: seq<Step>): State
    decreases |steps|
  {
    if |steps| == 0 then s
    else Run(if Enabled(s, steps[0]) then Next(s, steps[0]) else s, steps[1..])
  }

  lemma {:induction false} RunKeeps(s: State, steps: seq<Step>)
    requires Inv(s)
    ensures Inv(Run(s, steps))
    decreases |steps|
  {
    if |steps| > 0 {
      if Enabled(s, steps[0]) { NextKeeps(s, steps[0]); }
      RunKeeps(if Enabled(s, steps[0]) then Next(s, steps[0]) else s, steps[1..]);
    }
  }

  lemma {:induction false} TwoFiles(procs: seq<Process>, i: nat, j: nat, c: nat)
    requires i < j < |procs| && IsFile(procs[i], c) && IsFile(procs[j], c)
    ensures Files(procs, c) >= 2
    decreases |procs|
  {
    if i > 0 { TwoFiles(procs[1..], i - 1, j - 1, c); } else { CountBounds(procs[1..], j - 1, c); }
  }

  /** After any interleaving: the next step is safe, no two processes have the same
      reader open, and a reader is freed exactly when its removal is over and no
      process refers to it. */
  lemma AlwaysSafe(steps: seq<Step>, a: Step)
    ensures var s := Run(State([], []), steps);
            && (Enabled(s, a) ==> Safe(s, a))
            && (forall i, j, c :: 0 <= i < j < |s.procs| ==> !(IsFile(s.procs[i], c) && IsFile(s.procs[j], c)))
            && (forall c :: 0 <= c < |s.cards| ==>
                  (s.cards[c].freed <==> s.cards[c].phase.Over? && Refs(s.procs, c) == 0))
  {
    var s := Run(State([], []), steps);
    RunKeeps(State([], []), steps);
    if Enabled(s, a) { NextKeeps(s, a); }
    forall i, j, c | 0 <= i < j < |s.procs| ensures !(IsFile(s.procs[i], c) && IsFile(s.procs[j], c)) {
      assert ProcFits(s, s.procs[i]);
      if IsFile(s.procs[i], c) && IsFile(s.procs[j], c) { TwoFiles(s.procs, i, j, c); }
    }
  }

  /** An open that is not interrupted gets the reader exactly when it is not yet
      disconnected and nobody has it open. */
  lemma OpensExactly(s: State, k: nat)
    requires Inv(s) && Enabled(s, Attach(k, false))
    ensures var c := s.procs[k].card;
            Next(s, Attach(k, false)).procs[k] == File(c) <==>
              (s.cards[c].phase.Listed? || s.cards[c].phase.Delisted?) && Files(s.procs, c) == 0
  {
    Alive(s, k, s.procs[k].card);
  }

  /** A lookup finds the reader that its open was begun for exactly when that reader is
      still listed, and then holds a reference to it. */
  lemma LookUpFinds(s: State, k: nat)
    requires Inv(s) && Enabled(s, LookUp(k))
    ensures var t, c := Next(s, LookUp(k)), s.procs[k].origin;
            if c < |s.cards| && s.cards[c].phase.Listed?
            then t.procs[k] == Found(c, c) && t.cards[c] == s.cards[c].(refs := s.cards[c].refs + 1)
            else t.procs[k] == Ended && t.cards == s.cards
  {
    var p := s.procs[k];
    assert ProcFits(s, p);
    if s.cards[p.origin].phase.Listed? { assert ListedAt(s, p.origin, p.minor, p.cdev); }
  }

  /** Whatever processes are at work, a listed reader can be removed to the end. */
  lemma RemovalEnds(s: State, c: nat)
    requires c < |s.cards| && s.cards[c].phase.Listed?
    ensures Enabled(s, Delist(c))
    ensures var t := Next(s, Delist(c)); Enabled(t, Disconnect(c)) && Enabled(Next(t, Disconnect(c)), Finish(c))
    ensures var u := Run(s, [Delist(c), Disconnect(c), Finish(c)]);
            |u.cards| == |s.cards| && u.cards[c].phase.Over? && u.cards[c].disconnected && u.procs == s.procs
  {
    var steps := [Delist(c), Disconnect(c), Finish(c)];
    var t := Next(s, Delist(c));
    var v := Next(t, Disconnect(c));
    assert steps[1..] == [Disconnect(c), Finish(c)] && steps[1..][1..] == [Finish(c)] && steps[1..][1..][1..] == [];
    assert Run(s, steps) == Run(t, steps[1..]) == Run(v, steps[1..][1..]);
    assert Run(v, [Finish(c)]) == Next(v, Finish(c));
  }

  /** A reader just registered can be opened, whoever else is at work. */
  lemma OpenAfterRegister(s: State, minor: nat, cdev: nat)
    requires Inv(s) && Enabled(s, Register(minor, cdev))
    ensures var t := Next(s, Register(minor, cdev));
            && Enabled(t, Begin(|s.cards|))
            && var u := Next(t, Begin(|s.cards|));
            && Enabled(u, LookUp(|s.procs|))
            && var v := Next(u, LookUp(|s.procs|));
            && Enabled(v, Attach(|s.procs|, false))
            && Next(v, Attach(|s.procs|, false)).procs[|s.procs|] == File(|s.cards|)
  {
    var c, k := |s.cards|, |s.procs|;
    RegisterKeeps(s, minor, cdev);
    var t := Next(s, Register(minor, cdev));
    BeginKeeps(t, c);
    var u := Next(t, Begin(c));
    LookUpFinds(u, k);
  }

  /** Once a file is closed, the reader can be opened again, if it is still there. */
  lemma CloseLetsIn(s: State, k: nat, j: nat)
    requires Inv(s) && Enabled(s, Close(k)) && j < |s.procs| && s.procs[j] == Found(s.procs[k].card, s.procs[k].card)
    requires !s.cards[s.procs[k].card].disconnected
    ensures var t := Next(s, Close(k));
            && t.procs[k] == Closed(s.procs[k].card) && Enabled(t, Attach(j, false))
            && Next(t, Attach(j, false)).procs[j] == File(s.procs[k].card)
  {}
}
