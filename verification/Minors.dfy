/** Device numbers: a table of cells, searched for runs, and the groups that own them. */
module Minors {
  import opened Collections

  datatype Cell = Unused | Reserved | InUse

  datatype Group = Group(base: nat, num: nat)

  datatype State = State(table: seq<Cell>, groups: seq<Group>)

  // ----- runs of cells ------------------------------------------------------

  predicate Fits(table: seq<Cell>, base: nat, num: nat, cell: Cell) {
    base + num <= |table| && forall c :: base <= c < base + num ==> table[c] == cell
  }

  /** First fit by definition: the lowest base from which `num` cells match. */
  function First(table: seq<Cell>, num: nat, cell: Cell, from: nat): (r: Option<nat>)
    ensures r.Some? ==> from <= r.value && Fits(table, r.value, num, cell)
    ensures forall b :: from <= b && (r.Some? ==> b < r.value) ==> !Fits(table, b, num, cell)
    decreases |table| - from
  {
    if from + num > |table| then None
    else if Fits(table, from, num, cell) then Some(from)
    else First(table, num, cell, from + 1)
  }

  function Fill(table: seq<Cell>, base: nat, num: nat, cell: Cell): seq<Cell> {
    seq(|table|, c requires 0 <= c < |table| => if base <= c < base + num then cell else table[c])
  }

  /** A base in front of a cell that does not match does not fit, so the search may
      go on behind that cell. */
  lemma SkipAhead(table: seq<Cell>, num: nat, cell: Cell, from: nat, bad: nat)
    requires from <= bad < from + num && bad < |table| && table[bad] != cell
    ensures First(table, num, cell, from) == First(table, num, cell, bad + 1)
    decreases bad - from
  {
    if from < bad {
      SkipAhead(table, num, cell, from + 1, bad);
    }
  }

  // ----- the search ---------------------------------------------------------

  /** What the source's search answers; `stray` is what lies behind the table. A
      request for no number at all is searched like one for a single number, and one
      cell too far. */
  function Find(table: seq<Cell>, num: nat, cell: Cell, stray: Cell): Option<nat> {
    if num == 0 then First(table + [stray], 1, cell, 0) else First(table, num, cell, 0)
  }

  predicate ReadsBehind(table: seq<Cell>, num: nat, cell: Cell) { num == 0 && cell !in table }

  /** Inside the table the two searches for a single cell agree. */
  lemma {:induction false} FirstInside(table: seq<Cell>, cell: Cell, stray: Cell, from: nat)
    requires from <= |table|
    ensures var r := First(table, 1, cell, from);
            First(table + [stray], 1, cell, from) ==
              if r.Some? then r else if stray == cell then Some(|table|) else None
    decreases |table| - from
  {
    var all := table + [stray];
    if from < |table| {
      assert all[from] == table[from];
      FirstInside(table, cell, stray, from + 1);
    } else if stray != cell {
      assert all[from] != cell;
    }
  }

  lemma FirstHasCell(table: seq<Cell>, cell: Cell)
    ensures First(table, 1, cell, 0).Some? ==> cell in table
  {
    var r := First(table, 1, cell, 0);
    if r.Some? { assert table[r.value] == cell; }
  }

  /** The answer depends on what lies behind the table exactly when no number is
      asked for and no cell has the wanted state. */
  lemma AnswerFromBehind(table: seq<Cell>, num: nat, cell: Cell)
    ensures ReadsBehind(table, num, cell) <==>
            exists a, b :: Find(table, num, cell, a) != Find(table, num, cell, b)
    ensures ReadsBehind(table, num, cell) ==>
            forall a :: Find(table, num, cell, a) == if a == cell then Some(|table|) else None
  {
    FirstHasCell(table, cell);
    if num == 0 {
      forall a ensures Find(table, 0, cell, a) ==
          var r := First(table, 1, cell, 0); if r.Some? then r else if a == cell then Some(|table|) else None
      {
        FirstInside(table, cell, a, 0);
      }
      if cell in table {
        var k :| 0 <= k < |table| && table[k] == cell;
        assert Fits(table, k, 1, cell);
      } else {
        var other := if cell.Unused? then InUse else Unused;
        assert Find(table, 0, cell, cell) != Find(table, 0, cell, other);
      }
    }
  }

  /** What one round of the search may leave: a hit, or a later place to go on. */
  predicate Looked(cells: seq<Cell>, length: nat, cell: Cell, i: nat, next: nat, hit: bool) {
    if hit then Fits(cells, i, length, cell)
    else i < next && First(cells, length, cell, i) == First(cells, length, cell, next)
  }

  lemma FindStarts(table: seq<Cell>, num: nat, cell: Cell, stray: Cell)
    ensures Find(table, num, cell, stray) == First(Searched(table, num, stray), Length(num), cell, 0)
  {}

  /** The search at an end of its loop. */
  lemma FindEnds(table: seq<Cell>, num: nat, cell: Cell, stray: Cell, i: nat)
    requires num <= |table|
    ensures var cells, length := Searched(table, num, stray), Length(num);
            && (i >= |table| - num + 1 ==> First(cells, length, cell, i) == None)
            && (Fits(cells, i, length, cell) ==> First(cells, length, cell, i) == Some(i))
  {}

  /** The cells the search looks at, and the length of the run it looks for. */
  function Searched(table: seq<Cell>, num: nat, stray: Cell): seq<Cell> {
    if num == 0 then table + [stray] else table
  }

  function Length(num: nat): nat { if num == 0 then 1 else num }

  /** A table with every number in use, asked for none. */
  lemma FullTableAnswersFromBehind()
    ensures Find([InUse, InUse], 0, Unused, Unused) == Some(2)
    ensures Find([InUse, InUse], 0, Unused, InUse) == None
  {
    AnswerFromBehind([InUse, InUse], 0, Unused);
  }

  // ----- requests -----------------------------------------------------------

  /** `at` is a reserved base, if the caller has one; `works` is whether everything
      after the choice of numbers succeeds; `stray` is what lies behind the table. */
  datatype Request =
    | Reserve(num: nat, stray: Cell)
    | Add(num: nat, at: Option<nat>, works: bool, stray: Cell)
    | Release(index: nat)

  /** Where a new group goes. */
  function Place(table: seq<Cell>, num: nat, at: Option<nat>, stray: Cell): Option<nat> {
    match at
    case None => Find(table, num, Unused, stray)
    case Some(b) => if Fits(table, b, num, Reserved) then Some(b) else None
  }

  function DoReserve(s: State, num: nat, stray: Cell): (State, Option<nat>) {
    match Find(s.table, num, Unused, stray)
    case None => (s, None)
    case Some(b) => (s.(table := Fill(s.table, b, num, Reserved)), Some(b))
  }

  function DoAdd(s: State, num: nat, at: Option<nat>, works: bool, stray: Cell): (State, Option<nat>) {
    match Place(s.table, num, at, stray)
    case None => (s, None)
    case Some(b) =>
      if works then (State(Fill(s.table, b, num, InUse), s.groups + [Group(b, num)]), Some(b))
      else (s.(table := Fill(s.table, b, num, if at.Some? then Reserved else Unused)), None)
  }

  function DoRelease(s: State, i: nat): State {
    if i < |s.groups| then State(Fill(s.table, s.groups[i].base, s.groups[i].num, Unused), Without(s.groups, i)) else s
  }

  function Do(s: State, r: Request): State {
    match r
    case Reserve(num, stray) => DoReserve(s, num, stray).0
    case Add(num, at, works, stray) => DoAdd(s, num, at, works, stray).0
    case Release(i) => DoRelease(s, i)
  }

  function Run(s: State, rs: seq<Request>): State
    decreases |rs|
  {
    if |rs| == 0 then s else Run(Do(s, rs[0]), rs[1..])
  }

  // ----- ownership ----------------------------------------------------------

  predicate Owns(g: Group, c: nat) { g.base <= c < g.base + g.num }

  function Owners(groups: seq<Group>, c: nat): nat {
    if |groups| == 0 then 0 else (if Owns(groups[0], c) then 1 else 0) + Owners(groups[1..], c)
  }

  /** Every cell in use has exactly one owner, and no other cell has any. */
  ghost predicate Inv(s: State) {
    && (forall c :: 0 <= c < |s.table| ==> Owners(s.groups, c) == if s.table[c].InUse? then 1 else 0)
    && forall i :: 0 <= i < |s.groups| ==> s.groups[i].base + s.groups[i].num <= |s.table|
  }

  lemma {:induction false} OwnersJoin(a: seq<Group>, b: seq<Group>, c: nat)
    ensures Owners(a + b, c) == Owners(a, c) + Owners(b, c)
    decreases |a|
  {
    if |a| == 0 {
      assert a + b == b;
    } else {
      assert (a + b)[1..] == a[1..] + b;
      OwnersJoin(a[1..], b, c);
    }
  }

  lemma OwnersOne(g: Group, c: nat)
    ensures Owners([g], c) == if Owns(g, c) then 1 else 0
  {
    assert [g][1..] == [];
  }

  /** Taking one group away takes its ownership away. */
  lemma OwnersWithout(groups: seq<Group>, i: nat, c: nat)
    requires i < |groups|
    ensures Owners(groups, c) == Owners(Without(groups, i), c) + if Owns(groups[i], c) then 1 else 0
  {
    var front, back := groups[..i], groups[i + 1..];
    assert groups == front + ([groups[i]] + back);
    OwnersJoin(front, [groups[i]] + back, c);
    OwnersJoin([groups[i]], back, c);
    OwnersOne(groups[i], c);
    OwnersJoin(front, back, c);
  }

  lemma AddKeeps(s: State, num: nat, at: Option<nat>, works: bool, stray: Cell)
    requires Inv(s)
    ensures Inv(DoAdd(s, num, at, works, stray).0)
  {
    var place := Place(s.table, num, at, stray);
    if place.Some? {
      var g := Group(place.value, num);
      forall c | 0 <= c < |s.table|
        ensures Owners(s.groups + [g], c) == Owners(s.groups, c) + if Owns(g, c) then 1 else 0
      {
        OwnersJoin(s.groups, [g], c);
        OwnersOne(g, c);
      }
    }
  }

  lemma ReleaseKeeps(s: State, i: nat)
    requires Inv(s)
    ensures Inv(DoRelease(s, i))
  {
    if i < |s.groups| {
      forall c | 0 <= c < |s.table|
        ensures Owners(s.groups, c) == Owners(Without(s.groups, i), c) + if Owns(s.groups[i], c) then 1 else 0
      {
        OwnersWithout(s.groups, i, c);
      }
    }
  }

  lemma {:induction false} RunKeeps(s: State, rs: seq<Request>)
    requires Inv(s)
    ensures Inv(Run(s, rs))
    decreases |rs|
  {
    if |rs| > 0 {
      match rs[0] {
        case Reserve(num, stray) =>
        case Add(num, at, works, stray) => AddKeeps(s, num, at, works, stray);
        case Release(i) => ReleaseKeeps(s, i);
      }
      RunKeeps(Do(s, rs[0]), rs[1..]);
    }
  }

  // ----- main results -------------------------------------------------------

  lemma {:induction false} OwnerExists(groups: seq<Group>, c: nat)
    ensures Owners(groups, c) > 0 <==> exists i :: 0 <= i < |groups| && Owns(groups[i], c)
    decreases |groups|
  {
    if |groups| > 0 {
      OwnerExists(groups[1..], c);
      assert forall i :: 0 < i < |groups| ==> groups[i] == groups[1..][i - 1];
    }
  }

  lemma TwoOwners(groups: seq<Group>, i: nat, j: nat, c: nat)
    requires i < j < |groups| && Owns(groups[i], c) && Owns(groups[j], c)
    ensures Owners(groups, c) >= 2
  {
    OwnersWithout(groups, j, c);
    assert Without(groups, j)[i] == groups[i];
    OwnerExists(Without(groups, j), c);
  }

  function Fresh(n: nat): State { State(seq(n, _ => Unused), []) }

  /** After any requests, the ranges of two live groups share no number, and the
      numbers in use are exactly those of the live groups. */
  lemma LiveGroups(n: nat, rs: seq<Request>, c: nat)
    requires c < n
    ensures var s := Run(Fresh(n), rs);
            && |s.table| == n
            && (s.table[c].InUse? <==> exists i :: 0 <= i < |s.groups| && Owns(s.groups[i], c))
            && forall i, j :: 0 <= i < j < |s.groups| ==> !(Owns(s.groups[i], c) && Owns(s.groups[j], c))
  {
    var s := Run(Fresh(n), rs);
    RunSize(Fresh(n), rs);
    RunKeeps(Fresh(n), rs);
    OwnerExists(s.groups, c);
    forall i, j | 0 <= i < j < |s.groups| ensures !(Owns(s.groups[i], c) && Owns(s.groups[j], c)) {
      if Owns(s.groups[i], c) && Owns(s.groups[j], c) { TwoOwners(s.groups, i, j, c); }
    }
  }

  lemma {:induction false} RunSize(s: State, rs: seq<Request>)
    ensures |Run(s, rs).table| == |s.table|
    decreases |rs|
  {
    if |rs| > 0 { RunSize(Do(s, rs[0]), rs[1..]); }
  }

  /** A reservation takes the lowest run of free cells that is long enough, and fails
      exactly when there is none. */
  lemma ReserveTakes(s: State, num: nat, stray: Cell)
    requires num > 0
    ensures var (t, base) := DoReserve(s, num, stray);
            && t.groups == s.groups
            && (base.None? <==> forall b: nat :: !Fits(s.table, b, num, Unused))
            && (base.None? ==> t == s)
            && (base.Some? ==> Takes(s.table, t.table, base.value, num, Unused, Reserved))
            && (base.Some? ==> forall b: nat :: b < base.value ==> !Fits(s.table, b, num, Unused))
  {}

  /** The run changes from one status to the other, and the other cells stay. */
  ghost predicate Takes(before: seq<Cell>, after: seq<Cell>, base: nat, num: nat, was: Cell, cell: Cell) {
    && |after| == |before| && Fits(before, base, num, was) && Fits(after, base, num, cell)
    && forall c :: 0 <= c < |before| && !(base <= c < base + num) ==> after[c] == before[c]
  }

  /** Where a group may go: on free numbers, or on the ones reserved for it. */
  predicate MayGo(table: seq<Cell>, num: nat, at: Option<nat>, b: nat) {
    if at.Some? then b == at.value && Fits(table, b, num, Reserved) else Fits(table, b, num, Unused)
  }

  /** A group is added exactly when there is a place for it, reserved if one was, and
      everything else works. */
  lemma AddExactly(s: State, num: nat, at: Option<nat>, works: bool, stray: Cell)
    requires num > 0
    ensures DoAdd(s, num, at, works, stray).1.Some? <==>
              works && exists b: nat :: MayGo(s.table, num, at, b)
    ensures var (t, base) := DoAdd(s, num, at, works, stray);
            base.Some? ==>
              && Takes(s.table, t.table, base.value, num, if at.Some? then Reserved else Unused, InUse)
              && t.groups == s.groups + [Group(base.value, num)]
  {
    AddTakes(s, num, at, works, stray);
    var place := Place(s.table, num, at, stray);
    assert place.Some? ==> MayGo(s.table, num, at, place.value);
  }

  /** What was reserved can be used. */
  lemma ReserveThenAdd(s: State, num: nat, stray: Cell, later: Cell)
    ensures var (t, base) := DoReserve(s, num, stray);
            base.Some? && base.value + num <= |s.table| ==> DoAdd(t, num, base, true, later).1 == base
  {}

  /** Releasing frees the group's cells and no others. */
  lemma ReleaseFrees(s: State, i: nat)
    requires Inv(s) && i < |s.groups|
    ensures var t, g := DoRelease(s, i), s.groups[i];
            && Takes(s.table, t.table, g.base, g.num, InUse, Unused)
            && t.groups == Without(s.groups, i)
  {
    var g := s.groups[i];
    forall c | g.base <= c < g.base + g.num ensures s.table[c] == InUse {
      OwnersWithout(s.groups, i, c);
    }
  }

  /** Releasing the group just added undoes the addition, but for its reservation. */
  lemma AddThenRelease(s: State, num: nat, at: Option<nat>, stray: Cell)
    ensures var (t, base) := DoAdd(s, num, at, true, stray);
            base.Some? ==>
              var u := DoRelease(t, |s.groups|);
              u.groups == s.groups && (at.None? ==> u == s)
  {
    var (t, base) := DoAdd(s, num, at, true, stray);
    if base.Some? {
      assert Without(t.groups, |s.groups|) == s.groups;
      if at.None? {
        AddTakes(s, num, at, true, stray);
        assert Fill(t.table, base.value, num, Unused) == s.table;
      }
    }
  }

  /** A failed request changes nothing, and a successful one takes a run of cells
      that were free, or reserved for it. */
  lemma AddTakes(s: State, num: nat, at: Option<nat>, works: bool, stray: Cell)
    ensures var (t, base) := DoAdd(s, num, at, works, stray);
            && (base.None? ==> t == s)
            && (base.Some? ==> Fits(s.table, base.value, num, if at.Some? then Reserved else Unused))
            && (base.Some? ==> Fits(t.table, base.value, num, InUse))
  {
    var place := Place(s.table, num, at, stray);
    if place.Some? {
      var cell := if at.Some? then Reserved else Unused;
      assert Fill(s.table, place.value, num, cell) == s.table;
    }
  }
}
