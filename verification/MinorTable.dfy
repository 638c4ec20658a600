/** The table of device numbers as the object that updates it in place. */
module MinorTable {
  import opened Collections
  import opened Minors

  class Context {
    const table: array<Cell>
    var groups: seq<Group>

    constructor (num: nat)
      ensures State() == Fresh(num) && fresh(table)
    {
      table := new Cell[num](_ => Unused);
      groups := [];
    }

    ghost function State(): State
      reads this, table
    {
      Minors.State(table[..], groups)
    }

    /** How many cells match from the `i`-th on, which is known to. */
    method Matching(i: nat, num: nat, cell: Cell) returns (j: nat)
      requires i + num <= table.Length && (num > 0 ==> table[i] == cell)
      ensures num == 0 ==> j == 1
      ensures num > 0 ==> 1 <= j <= num && forall c :: i <= c < i + j ==> table[c] == cell
      ensures j < num ==> table[i + j] != cell
    {
      j := 1;
      while j < num
        invariant 1 <= j && (num == 0 ==> j == 1)
        invariant num > 0 ==> j <= num && forall c :: i <= c < i + j ==> table[c] == cell
      {
        if table[i + j] != cell { break; }
        j := j + 1;
      }
    }

    /** One round of the search, at cell `i`. */
    method Look(i: nat, num: nat, cell: Cell, stray: Cell) returns (next: nat, hit: bool)
      requires i + num <= table.Length
      ensures Looked(Searched(table[..], num, stray), Length(num), cell, i, next, hit)
      ensures num == 0 ==> next == i + 1 && hit == ((if i == table.Length then stray else table[i]) == cell)
    {
      ghost var cells, length := Searched(table[..], num, stray), Length(num);
      var first := if i == table.Length then stray else table[i];
      next, hit := i + 1, first == cell;
      if !hit {
        SkipAhead(cells, length, cell, i, i);
        return;
      }
      var j := Matching(i, num, cell);
      hit := j >= num;
      if !hit {
        SkipAhead(cells, length, cell, i, i + j);
        next := i + j + 1;
      }
    }

    /** The skip-ahead search is first fit. It reads `stray`, behind the table, only
        when no number is asked for and no cell has the wanted state. */
    method Search(num: nat, cell: Cell, stray: Cell) returns (base: Option<nat>, behind: bool)
      ensures base == Find(table[..], num, cell, stray)
      ensures behind <==> ReadsBehind(table[..], num, cell)
    {
      behind := false;
      if num > table.Length { return None, false; }
      ghost var cells, length := Searched(table[..], num, stray), Length(num);
      var i := 0;
      ghost var answer := Find(table[..], num, cell, stray);
      FindStarts(table[..], num, cell, stray);
      while i < table.Length - num + 1
        invariant answer == First(cells, length, cell, i)
        invariant behind == (num == 0 && i == table.Length + 1)
        invariant num == 0 ==> i <= table.Length + 1 && forall c :: 0 <= c < i && c < table.Length ==> table[c] != cell
      {
        behind := i == table.Length;
        var next, hit := Look(i, num, cell, stray);
        if hit {
          FindEnds(table[..], num, cell, stray, i);
          return Some(i), behind;
        }
        i := next;
      }
      FindEnds(table[..], num, cell, stray, i);
      return None, behind;
    }

    method CheckStatus(base: nat, num: nat, cell: Cell) returns (all: Option<bool>)
      ensures all.None? <==> base + num > table.Length
      ensures all.Some? ==> all.value == Fits(table[..], base, num, cell)
    {
      if base + num > table.Length { return None; }
      var i := 0;
      while i < num
        invariant 0 <= i <= num && forall c :: base <= c < base + i ==> table[c] == cell
      {
        if table[base + i] != cell {
          assert table[..][base + i] != cell;
          return Some(false);
        }
        i := i + 1;
      }
      return Some(true);
    }

    method SetStatus(base: nat, num: nat, cell: Cell) returns (ok: bool)
      modifies table
      ensures ok == (base + num <= table.Length)
      ensures table[..] == if ok then Fill(old(table[..]), base, num, cell) else old(table[..])
    {
      if base + num > table.Length { return false; }
      var i := 0;
      while i < num
        invariant 0 <= i <= num
        invariant forall c :: 0 <= c < table.Length ==> table[c] == if base <= c < base + i then cell else old(table[c])
      {
        table[base + i] := cell;
        i := i + 1;
      }
      ok := true;
    }

    method Reserve(num: nat, stray: Cell) returns (base: Option<nat>)
      modifies table
      ensures (State(), base) == DoReserve(old(State()), num, stray)
    {
      var behind;
      base, behind := Search(num, Unused, stray);
      if base.Some? { var _ := SetStatus(base.value, num, Reserved); }
    }

    /** The choice of the numbers, which are then marked as in use. */
    method Take(num: nat, at: Option<nat>, stray: Cell) returns (base: Option<nat>)
      modifies table
      ensures base == Place(old(table[..]), num, at, stray)
      ensures table[..] == if base.Some? then Fill(old(table[..]), base.value, num, InUse) else old(table[..])
    {
      ghost var before := table[..];
      if at.Some? {
        var all := CheckStatus(at.value, num, Reserved);
        base := if all == Some(true) then at else None;
      } else {
        var behind;
        base, behind := Search(num, Unused, stray);
        if base.Some? { var _ := SetStatus(base.value, num, Reserved); }
      }
      if base.Some? {
        var _ := SetStatus(base.value, num, InUse);
        assert table[..] == Fill(before, base.value, num, InUse);
      }
    }

    method Add(num: nat, at: Option<nat>, works: bool, stray: Cell) returns (base: Option<nat>)
      modifies this, table
      ensures (State(), base) == DoAdd(old(State()), num, at, works, stray)
    {
      ghost var before := table[..];
      base := Take(num, at, stray);
      if base.None? { return; }
      if !works {
        var _ := SetStatus(base.value, num, if at.Some? then Reserved else Unused);
        assert table[..] == Fill(before, base.value, num, if at.Some? then Reserved else Unused);
        return None;
      }
      groups := groups + [Group(base.value, num)];
    }

    method Release(i: nat)
      requires i < |groups| && groups[i].base + groups[i].num <= table.Length
      modifies this, table
      ensures State() == DoRelease(old(State()), i)
    {
      var g := groups[i];
      groups := Without(groups, i);
      var _ := SetStatus(g.base, g.num, Unused);
    }
  }
}
