/** Connections that share card readers, in any interleaving of their steps. */
module CardServer {
  import opened Collections

  datatype ShareMode = Undefined | Shared | Exclusive

  /** A reader: its connections, and the recursive mutex of its I/O. */
  datatype Card = Card(shared: nat, exclusive: bool, owner: Option<nat>, depth: nat)

  /** A connection: its reader, and the reader a command of it is operating. */
  datatype Connection = Connection(card: Option<nat>, mode: ShareMode, transaction: bool, busy: Option<nat>)

  const Idle: Connection := Connection(None, Undefined, false, None)

  datatype State = State(cards: seq<Card>, conns: seq<Connection>)

  datatype Step =
    | OpenCard                                        // a reader is used for the first time
    | OpenConnection
    | Acquire(conn: nat, card: nat, mode: ShareMode)  // the end of CONNECT
    | Change(conn: nat, mode: ShareMode)              // RECONNECT
    | Begin(conn: nat)                                // BEGIN_TRANSACTION
    | End(conn: nat)                                  // END_TRANSACTION, or the start of a release
    | Release(conn: nat)                              // DISCONNECT, CONNECT, or the end of the connection
    | Operate(conn: nat, card: nat)                   // STATUS, RESET or TRANSMIT takes the mutex
    | Operated(conn: nat)

  // ----- share modes --------------------------------------------------------

  function AcquireCard(x: Card, mode: ShareMode): (Card, bool) {
    match mode
    case Exclusive => if x.exclusive || x.shared > 0 then (x, false) else (x.(exclusive := true), true)
    case Shared => if x.exclusive then (x, false) else (x.(shared := x.shared + 1), true)
    case Undefined => (x, false)
  }

  function ReleaseCard(x: Card, mode: ShareMode): Card {
    match mode
    case Exclusive => x.(exclusive := false)
    case Shared => if x.shared > 0 then x.(shared := x.shared - 1) else x
    case Undefined => x
  }

  function ChangeMode(x: Card, current: ShareMode, requested: ShareMode): (Card, bool) {
    if current == requested then (x, true)
    else
      match requested
      case Exclusive => if x.exclusive || x.shared != 1 then (x, false) else (x.(shared := 0, exclusive := true), true)
      case Shared => if x.exclusive then (x.(exclusive := false, shared := 1), true) else (x, false)
      case Undefined => (x, false)
  }

  // ----- the recursive mutex ------------------------------------------------

  predicate CanLock(x: Card, k: nat) { x.owner.None? || x.owner == Some(k) }

  function Lock(x: Card, k: nat): Card { x.(owner := Some(k), depth := x.depth + 1) }

  function Unlock(x: Card): Card {
    if x.depth <= 1 then x.(owner := None, depth := 0) else x.(depth := x.depth - 1)
  }

  // ----- steps --------------------------------------------------------------

  predicate HasCard(s: State, k: nat) {
    k < |s.conns| && s.conns[k].card.Some? && s.conns[k].card.value < |s.cards|
  }

  /** A connection carries out one command at a time; taking the mutex waits. */
  predicate Enabled(s: State, a: Step) {
    match a
    case OpenCard => true
    case OpenConnection => true
    case Acquire(k, c, mode) => k < |s.conns| && s.conns[k].card.None? && c < |s.cards|
    case Change(k, mode) => HasCard(s, k)
    case Begin(k) =>
      && HasCard(s, k) && !s.conns[k].transaction && s.conns[k].busy.None?
      && CanLock(s.cards[s.conns[k].card.value], k)
    case End(k) => HasCard(s, k) && s.conns[k].transaction && s.conns[k].busy.None?
    case Release(k) => HasCard(s, k) && !s.conns[k].transaction
    case Operate(k, c) => k < |s.conns| && c < |s.cards| && s.conns[k].busy.None? && CanLock(s.cards[c], k)
    case Operated(k) => k < |s.conns| && s.conns[k].busy.Some? && s.conns[k].busy.value < |s.cards|
  }

  function Set(s: State, c: nat, x: Card, k: nat, n: Connection): State
    requires c < |s.cards| && k < |s.conns|
  {
    State(s.cards[c := x], s.conns[k := n])
  }

  function Next(s: State, a: Step): State
    requires Enabled(s, a)
  {
    match a
    case OpenCard => s.(cards := s.cards + [Card(0, false, None, 0)])
    case OpenConnection => s.(conns := s.conns + [Idle])
    case Acquire(k, c, mode) =>
      var (x, ok) := AcquireCard(s.cards[c], mode);
      if ok then Set(s, c, x, k, s.conns[k].(card := Some(c), mode := mode)) else s
    case Change(k, mode) =>
      var n := s.conns[k];
      var (x, ok) := ChangeMode(s.cards[n.card.value], n.mode, mode);
      if ok then Set(s, n.card.value, x, k, n.(mode := mode)) else s
    case Begin(k) =>
      var n := s.conns[k];
      Set(s, n.card.value, Lock(s.cards[n.card.value], k), k, n.(transaction := true))
    case End(k) =>
      var n := s.conns[k];
      Set(s, n.card.value, Unlock(s.cards[n.card.value]), k, n.(transaction := false))
    case Release(k) =>
      var n := s.conns[k];
      Set(s, n.card.value, ReleaseCard(s.cards[n.card.value], n.mode), k, n.(card := None, mode := Undefined))
    case Operate(k, c) => Set(s, c, Lock(s.cards[c], k), k, s.conns[k].(busy := Some(c)))
    case Operated(k) =>
      var c := s.conns[k].busy.value;
      Set(s, c, Unlock(s.cards[c]), k, s.conns[k].(busy := None))
  }

  // ----- invariant ----------------------------------------------------------

  predicate Holds(n: Connection, c: nat, mode: ShareMode) { n.card == Some(c) && n.mode == mode }

  function One(b: bool): nat { if b then 1 else 0 }

  /** How many connections hold reader `c` in a mode. */
  function Holders(conns: seq<Connection>, c: nat, mode: ShareMode): nat {
    if |conns| == 0 then 0 else One(Holds(conns[0], c, mode)) + Holders(conns[1..], c, mode)
  }

  /** How often a connection has locked reader `c`. */
  function Locks(n: Connection, c: nat): nat {
    One(n.transaction && n.card == Some(c)) + One(n.busy == Some(c))
  }

  predicate CardFits(x: Card, shared: int, exclusive: int) {
    && x.shared == shared && One(x.exclusive) == exclusive
    && !(x.exclusive && x.shared > 0)
    && (x.owner.Some? <==> x.depth > 0)
  }

  predicate LockFits(x: Card, n: Connection, c: nat, k: nat) {
    Locks(n, c) == if x.owner == Some(k) then x.depth else 0
  }

  predicate ConnFits(s: State, n: Connection) {
    && (n.card.Some? ==> n.card.value < |s.cards| && !n.mode.Undefined?)
    && (n.card.None? ==> !n.transaction && n.mode.Undefined?)
    && (n.busy.Some? ==> n.busy.value < |s.cards|)
  }

  ghost predicate Inv(s: State) {
    && (forall c :: 0 <= c < |s.cards| ==>
          CardFits(s.cards[c], Holders(s.conns, c, Shared), Holders(s.conns, c, Exclusive)))
    && (forall c, k :: 0 <= c < |s.cards| && 0 <= k < |s.conns| ==> LockFits(s.cards[c], s.conns[k], c, k))
    && (forall c :: 0 <= c < |s.cards| && s.cards[c].owner.Some? ==> s.cards[c].owner.value < |s.conns|)
    && (forall k :: 0 <= k < |s.conns| ==> ConnFits(s, s.conns[k]))
  }

  // ----- counting -----------------------------------------------------------

  lemma {:induction false} HoldersUpdate(conns: seq<Connection>, k: nat, n: Connection, c: nat, mode: ShareMode)
    requires k < |conns|
    ensures Holders(conns[k := n], c, mode) ==
            Holders(conns, c, mode) - One(Holds(conns[k], c, mode)) + One(Holds(n, c, mode))
    decreases |conns|
  {
    if k == 0 {
      assert conns[k := n][1..] == conns[1..];
    } else {
      assert conns[k := n][1..] == conns[1..][k - 1 := n];
      HoldersUpdate(conns[1..], k - 1, n, c, mode);
    }
  }

  lemma {:induction false} HoldersAppend(conns: seq<Connection>, c: nat, mode: ShareMode)
    ensures Holders(conns + [Idle], c, mode) == Holders(conns, c, mode)
    decreases |conns|
  {
    if |conns| == 0 {
      assert (conns + [Idle])[1..] == [];
    } else {
      assert (conns + [Idle])[1..] == conns[1..] + [Idle];
      HoldersAppend(conns[1..], c, mode);
    }
  }

  lemma {:induction false} HoldersNone(conns: seq<Connection>, c: nat, mode: ShareMode)
    requires forall k :: 0 <= k < |conns| ==> conns[k].card != Some(c)
    ensures Holders(conns, c, mode) == 0
    decreases |conns|
  {
    if |conns| > 0 { HoldersNone(conns[1..], c, mode); }
  }

  lemma {:induction false} HolderCounts(conns: seq<Connection>, k: nat, c: nat, mode: ShareMode)
    requires k < |conns|
    ensures One(Holds(conns[k], c, mode)) <= Holders(conns, c, mode)
    decreases |conns|
  {
    if k > 0 { HolderCounts(conns[1..], k - 1, c, mode); }
  }

  // ----- what each step keeps -----------------------------------------------

  /** A reader's mutex moves only to and from connection `k`, or within it. */
  predicate LockMoves(x: Card, y: Card, k: nat) {
    || (CanLock(x, k) && CanLock(y, k))
    || (x.owner == y.owner && x.depth == y.depth)
  }

  lemma LockOfOthers(x: Card, y: Card, n: Connection, c: nat, j: nat, k: nat)
    requires j != k && LockMoves(x, y, k) && LockFits(x, n, c, j)
    ensures LockFits(y, n, c, j)
  {}

  lemma LocksKept(s: State, c: nat, x: Card, k: nat, n: Connection, d: nat, j: nat)
    requires Inv(s) && c < |s.cards| && k < |s.conns| && d < |s.cards| && j < |s.conns|
    requires LockFits(x, n, c, k) && LockMoves(s.cards[c], x, k)
    requires d != c ==> Locks(s.conns[k], d) == Locks(n, d)
    ensures LockFits(Set(s, c, x, k, n).cards[d], Set(s, c, x, k, n).conns[j], d, j)
  {
    assert LockFits(s.cards[d], s.conns[j], d, j);
    if d == c && j != k { LockOfOthers(s.cards[c], x, s.conns[j], c, j, k); }
  }

  lemma CountsKept(s: State, c: nat, x: Card, k: nat, n: Connection, d: nat)
    requires Inv(s) && c < |s.cards| && k < |s.conns| && d < |s.cards|
    requires d != c ==> Holds(s.conns[k], d, Shared) == Holds(n, d, Shared)
    requires d != c ==> Holds(s.conns[k], d, Exclusive) == Holds(n, d, Exclusive)
    requires CardFits(x, Holders(s.conns, c, Shared) - One(Holds(s.conns[k], c, Shared)) + One(Holds(n, c, Shared)),
                         Holders(s.conns, c, Exclusive) - One(Holds(s.conns[k], c, Exclusive)) +
                         One(Holds(n, c, Exclusive)))
    ensures var t := Set(s, c, x, k, n);
            CardFits(t.cards[d], Holders(t.conns, d, Shared), Holders(t.conns, d, Exclusive))
  {
    HoldersUpdate(s.conns, k, n, d, Shared);
    HoldersUpdate(s.conns, k, n, d, Exclusive);
  }

  /** Connection `k` becomes `n` while reader `c` becomes `x`. */
  lemma SetKeeps(s: State, c: nat, x: Card, k: nat, n: Connection)
    requires Inv(s) && c < |s.cards| && k < |s.conns|
    requires ConnFits(s, n)
    requires forall d :: d != c ==> Holds(s.conns[k], d, Shared) == Holds(n, d, Shared)
    requires forall d :: d != c ==> Holds(s.conns[k], d, Exclusive) == Holds(n, d, Exclusive)
    requires forall d :: d != c ==> Locks(s.conns[k], d) == Locks(n, d)
    requires CardFits(x, Holders(s.conns, c, Shared) - One(Holds(s.conns[k], c, Shared)) + One(Holds(n, c, Shared)),
                         Holders(s.conns, c, Exclusive) - One(Holds(s.conns[k], c, Exclusive)) +
                         One(Holds(n, c, Exclusive)))
    requires LockFits(x, n, c, k) && LockMoves(s.cards[c], x, k)
    ensures Inv(Set(s, c, x, k, n))
  {
    var t := Set(s, c, x, k, n);
    forall d | 0 <= d < |t.cards|
      ensures CardFits(t.cards[d], Holders(t.conns, d, Shared), Holders(t.conns, d, Exclusive))
    {
      CountsKept(s, c, x, k, n, d);
    }
    forall d, j | 0 <= d < |t.cards| && 0 <= j < |t.conns| ensures LockFits(t.cards[d], t.conns[j], d, j) {
      LocksKept(s, c, x, k, n, d, j);
    }
    assert forall j :: 0 <= j < |t.conns| ==> ConnFits(s, t.conns[j]);
  }

  lemma AcquireKeeps(s: State, k: nat, c: nat, mode: ShareMode)
    requires Inv(s) && Enabled(s, Acquire(k, c, mode))
    ensures Inv(Next(s, Acquire(k, c, mode)))
  {
    var (x, ok) := AcquireCard(s.cards[c], mode);
    assert ConnFits(s, s.conns[k]) && LockFits(s.cards[c], s.conns[k], c, k);
    if ok { SetKeeps(s, c, x, k, s.conns[k].(card := Some(c), mode := mode)); }
  }

  lemma ChangeKeeps(s: State, k: nat, mode: ShareMode)
    requires Inv(s) && Enabled(s, Change(k, mode))
    ensures Inv(Next(s, Change(k, mode)))
  {
    var n := s.conns[k];
    var c := n.card.value;
    var (x, ok) := ChangeMode(s.cards[c], n.mode, mode);
    assert ConnFits(s, n) && LockFits(s.cards[c], n, c, k);
    HolderCounts(s.conns, k, c, n.mode);
    if ok { SetKeeps(s, c, x, k, n.(mode := mode)); }
  }

  lemma ReleaseKeeps(s: State, k: nat)
    requires Inv(s) && Enabled(s, Release(k))
    ensures Inv(Next(s, Release(k)))
  {
    var n := s.conns[k];
    var c := n.card.value;
    assert ConnFits(s, n) && LockFits(s.cards[c], n, c, k);
    HolderCounts(s.conns, k, c, n.mode);
    SetKeeps(s, c, ReleaseCard(s.cards[c], n.mode), k, n.(card := None, mode := Undefined));
  }

  lemma LockKeeps(s: State, a: Step)
    requires Inv(s) && Enabled(s, a) && (a.Begin? || a.Operate?)
    ensures Inv(Next(s, a))
  {
    var n := s.conns[a.conn];
    var c := if a.Begin? then n.card.value else a.card;
    assert ConnFits(s, n) && LockFits(s.cards[c], n, c, a.conn);
    SetKeeps(s, c, Lock(s.cards[c], a.conn), a.conn, if a.Begin? then n.(transaction := true) else n.(busy := Some(c)));
  }

  lemma UnlockKeeps(s: State, a: Step)
    requires Inv(s) && Enabled(s, a) && (a.End? || a.Operated?)
    ensures Inv(Next(s, a))
  {
    var n := s.conns[a.conn];
    var c := if a.End? then n.card.value else n.busy.value;
    assert ConnFits(s, n) && LockFits(s.cards[c], n, c, a.conn);
    SetKeeps(s, c, Unlock(s.cards[c]), a.conn, if a.End? then n.(transaction := false) else n.(busy := None));
  }

  lemma OpenCardKeeps(s: State)
    requires Inv(s)
    ensures Inv(Next(s, OpenCard))
  {
    var t, n := Next(s, OpenCard), |s.cards|;
    forall k | 0 <= k < |s.conns| ensures ConnFits(t, s.conns[k]) && LockFits(t.cards[n], s.conns[k], n, k) {
      assert ConnFits(s, s.conns[k]);
    }
    HoldersNone(s.conns, n, Shared);
    HoldersNone(s.conns, n, Exclusive);
    assert forall c :: 0 <= c < n ==> t.cards[c] == s.cards[c];
  }

  lemma OpenConnectionKeeps(s: State)
    requires Inv(s)
    ensures Inv(Next(s, OpenConnection))
  {
    var t, n := Next(s, OpenConnection), |s.conns|;
    forall c | 0 <= c < |s.cards|
      ensures CardFits(t.cards[c], Holders(t.conns, c, Shared), Holders(t.conns, c, Exclusive))
      ensures LockFits(t.cards[c], t.conns[n], c, n)
    {
      HoldersAppend(s.conns, c, Shared);
      HoldersAppend(s.conns, c, Exclusive);
    }
    forall k | 0 <= k < |t.conns| ensures ConnFits(t, t.conns[k]) {
      if k < n { assert ConnFits(s, s.conns[k]); }
    }
    assert forall k :: 0 <= k < n ==> t.conns[k] == s.conns[k];
  }

  lemma NextKeeps(s: State, a: Step)
    requires Inv(s) && Enabled(s, a)
    ensures Inv(Next(s, a))
  {
    match a
    case OpenCard => OpenCardKeeps(s);
    case OpenConnection => OpenConnectionKeeps(s);
    case Acquire(k, c, mode) => AcquireKeeps(s, k, c, mode);
    case Change(k, mode) => ChangeKeeps(s, k, mode);
    case Begin(k) => LockKeeps(s, a);
    case End(k) => UnlockKeeps(s, a);
    case Release(k) => ReleaseKeeps(s, k);
    case Operate(k, c) => LockKeeps(s, a);
    case Operated(k) => UnlockKeeps(s, a);
  }

  // ----- main result --------------------------------------------------------

  /** Takes the steps in order, passing over those that are not possible. */
  function Run(s: State, steps: seq<Step>): State
    decreases |steps|
  {
    if |steps| == 0 then s
    else Run(if Enabled(s, steps[0]) then Next(s, steps[0]) else s, steps[1..])
  }

  lemma {:induction false} RunKeeps(s: State, steps: seq<Step>)
    requires Inv(s)
    ensures Inv(Run(s, steps))
    decreases |steps|
  {
    if |steps| > 0 {
      if Enabled(s, steps[0]) { NextKeeps(s, steps[0]); }
      RunKeeps(if Enabled(s, steps[0]) then Next(s, steps[0]) else s, steps[1..]);
    }
  }

  /** After any interleaving: the counters are the numbers of connections that hold
      the reader in each mode, the modes exclude each other, and the mutex belongs
      to exactly the connection in a transaction or command on that reader. */
  lemma SharingIsExact(steps: seq<Step>, c: nat, k: nat)
    requires c < |Run(State([], []), steps).cards| && k < |Run(State([], []), steps).conns|
    ensures var s := Run(State([], []), steps); var x, n := s.cards[c], s.conns[k];
            && x.shared == Holders(s.conns, c, Shared)
            && x.exclusive == (Holders(s.conns, c, Exclusive) == 1) && Holders(s.conns, c, Exclusive) <= 1
            && !(x.exclusive && x.shared > 0)
            && (x.owner == Some(k) <==> (n.transaction && n.card == Some(c)) || n.busy == Some(c))
            && (x.owner == Some(k) ==> x.depth == Locks(n, c))
            && (n.transaction ==> n.card.Some?)
  {
    RunKeeps(State([], []), steps);
    var s := Run(State([], []), steps);
    assert CardFits(s.cards[c], Holders(s.conns, c, Shared), Holders(s.conns, c, Exclusive));
    assert LockFits(s.cards[c], s.conns[k], c, k) && ConnFits(s, s.conns[k]);
  }

  /** The reader a connection asks for is granted exactly when no holder stands in
      the way; a share mode is changed exactly when no other holder does. */
  lemma AdmitsExactly(s: State, k: nat, c: nat, mode: ShareMode)
    requires Inv(s) && c < |s.cards| && k < |s.conns|
    ensures s.conns[k].card.None? ==>
              (Holds(Next(s, Acquire(k, c, mode)).conns[k], c, mode) <==>
                || (mode.Shared? && Holders(s.conns, c, Exclusive) == 0)
                || (mode.Exclusive? && Holders(s.conns, c, Exclusive) + Holders(s.conns, c, Shared) == 0))
    ensures s.conns[k].card == Some(c) ==>
              (Holds(Next(s, Change(k, mode)).conns[k], c, mode) <==>
                || mode.Shared? || s.conns[k].mode == mode
                || (mode.Exclusive? && Holders(s.conns, c, Exclusive) + Holders(s.conns, c, Shared) == 1))
  {
    var n := s.conns[k];
    assert ConnFits(s, n) && CardFits(s.cards[c], Holders(s.conns, c, Shared), Holders(s.conns, c, Exclusive));
    HolderCounts(s.conns, k, c, n.mode);
  }

  /** A command or a transaction on a reader waits exactly while another connection is in
      one there. */
  lemma WaitsExactly(s: State, k: nat, c: nat)
    requires Inv(s) && c < |s.cards| && k < |s.conns|
    ensures CanLock(s.cards[c], k) <==>
            forall j :: 0 <= j < |s.conns| && j != k ==>
              s.conns[j].busy != Some(c) && !(s.conns[j].transaction && s.conns[j].card == Some(c))
  {
    forall j | 0 <= j < |s.conns| ensures LockFits(s.cards[c], s.conns[j], c, j) {}
    if s.cards[c].owner.Some? {
      var j := s.cards[c].owner.value;
      assert LockFits(s.cards[c], s.conns[j], c, j);
    }
  }

  /** A transaction locks its reader once more, and its end undoes that. */
  lemma TransactionLocks(s: State, k: nat)
    requires Inv(s) && Enabled(s, Begin(k))
    ensures var t, c := Next(s, Begin(k)), s.conns[k].card.value;
            && t.conns[k].transaction && Locks(t.conns[k], c) == Locks(s.conns[k], c) + 1
            && t.cards[c].owner == Some(k) && Enabled(t, End(k)) && Next(t, End(k)) == s
  {
    var c := s.conns[k].card.value;
    assert CardFits(s.cards[c], Holders(s.conns, c, Shared), Holders(s.conns, c, Exclusive));
    LockUndone(s.cards[c], k);
    UndoneSet(s, c, Lock(s.cards[c], k), k, s.conns[k].(transaction := true));
  }

  /** So does a command, whether or not its connection is in a transaction. */
  lemma CommandLocks(s: State, k: nat, c: nat)
    requires Inv(s) && Enabled(s, Operate(k, c))
    ensures var t := Next(s, Operate(k, c));
            && t.conns[k].busy == Some(c) && Locks(t.conns[k], c) == Locks(s.conns[k], c) + 1
            && t.cards[c].owner == Some(k) && Enabled(t, Operated(k)) && Next(t, Operated(k)) == s
  {
    assert CardFits(s.cards[c], Holders(s.conns, c, Shared), Holders(s.conns, c, Exclusive));
    LockUndone(s.cards[c], k);
    UndoneSet(s, c, Lock(s.cards[c], k), k, s.conns[k].(busy := Some(c)));
  }

  lemma LockUndone(x: Card, k: nat)
    requires CanLock(x, k) && (x.owner.Some? <==> x.depth > 0)
    ensures Unlock(Lock(x, k)) == x
  {}

  lemma UndoneSet(s: State, c: nat, x: Card, k: nat, n: Connection)
    requires c < |s.cards| && k < |s.conns|
    ensures Set(Set(s, c, x, k, n), c, s.cards[c], k, s.conns[k]) == s
  {}

  /** A release gives up what its connection held, and nothing else: the other
      connections stand in the way of one less. */
  lemma ReleaseGivesUp(s: State, k: nat, c: nat, mode: ShareMode)
    requires Inv(s) && Enabled(s, Release(k)) && c < |s.cards|
    ensures var t := Next(s, Release(k));
            && t.conns[k].card.None? && |t.conns| == |s.conns|
            && Holders(t.conns, c, mode) == Holders(s.conns, c, mode) - One(Holds(s.conns[k], c, mode))
            && forall j :: 0 <= j < |s.conns| && j != k ==> t.conns[j] == s.conns[j]
  {
    var n := s.conns[k];
    HoldersUpdate(s.conns, k, n.(card := None, mode := Undefined), c, mode);
  }
}
