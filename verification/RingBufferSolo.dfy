/** What a call does when nobody interferes: the ring is a bounded queue. */
module RingBufferSolo {
  import opened Bytes
  import opened RingBuffer
  import opened RingBufferProof
  import opened RingBufferData

  function Min(a: int, b: int): int { if a <= b then a else b }

  /** What the calls below need of the invariant. */
  ghost predicate Usable(s: State) {
    && s.delivered <= s.accepted && s.actual == |s.accepted| - |s.delivered| && s.actual <= |s.buf|
    && (s.reader.RCopying? ==>
          && InBuffer(s.reader.start, s.reader.size, |s.buf|)
          && |s.delivered| + |s.reader.got| <= |s.accepted| && |s.reader.got| <= s.reader.size
          && s.reader.got == s.accepted[|s.delivered|..|s.delivered| + |s.reader.got|])
    && (s.writer.WCopying? ==>
          && InBuffer(s.writer.start, s.writer.size, |s.buf|)
          && s.writer.done <= s.writer.size <= |s.writer.data|)
  }

  lemma InvUsable(s: State)
    requires DataInv(s)
    ensures Usable(s)
  {
    CopiesSafe(s);
  }

  lemma Follows(s: State, m: Move, t: State)
    requires Inv(s) && t == Next(s, m)
    ensures Inv(t)
  {
    InvStep(s, m);
  }

  // ----- repetition ---------------------------------------------------------

  function Iterate<S>(f: S -> S, s: S, k: nat): S
    decreases k
  {
    if k == 0 then s else Iterate(f, f(s), k - 1)
  }

  lemma {:induction false} IterateAdd<S>(f: S -> S, s: S, j: nat, k: nat)
    ensures Iterate(f, s, j + k) == Iterate(f, Iterate(f, s, j), k)
    decreases j
  {
    if j > 0 { IterateAdd(f, f(s), j - 1, k); }
  }

  lemma {:induction false} IterateKeeps(f: State -> State, s: State, k: nat)
    requires Inv(s) && forall t :: Inv(t) ==> Inv(f(t))
    ensures Inv(Iterate(f, s, k))
    decreases k
  {
    if k > 0 { IterateKeeps(f, f(s), k - 1); }
  }

  // ----- reading ------------------------------------------------------------

  ghost function Reading(want: nat): State -> State { s => ReaderStep(s, want) }

  /** `k` steps of the reader alone. */
  ghost function Reads(s: State, want: nat, k: nat): State { Iterate(Reading(want), s, k) }

  lemma ReadsKeep(s: State, want: nat, k: nat)
    requires Inv(s)
    ensures Inv(Reads(s, want, k))
  {
    forall t | Inv(t) ensures Inv(Reading(want)(t)) { Follows(t, Read(want), Reading(want)(t)); }
    IterateKeeps(Reading(want), s, k);
  }

  lemma ReadByte(s: State, want: nat)
    requires Usable(s) && s.reader.RCopying? && |s.reader.got| < s.reader.size
    ensures var t := ReaderStep(s, want);
            && t == s.(reader := t.reader) && t.reader.RCopying?
            && t.reader.size == s.reader.size && |t.reader.got| == |s.reader.got| + 1
  {}

  lemma {:induction false} ReadCopies(s: State, want: nat, k: nat)
    requires Inv(s) && s.reader.RCopying? && k == s.reader.size - |s.reader.got|
    ensures var t := Reads(s, want, k);
            t == s.(reader := t.reader) && t.reader.RCopying? && t.reader.size == s.reader.size == |t.reader.got|
    decreases k
  {
    if k > 0 {
      InvUsable(s);
      ReadByte(s, want);
      InvStep(s, Read(want));
      ReadCopies(ReaderStep(s, want), want, k - 1);
    }
  }

  /** The four steps in front of the copy. */
  lemma ReadEnters(s: State, want: nat)
    requires s.actual >= 0 && s.reader.RIdle? && !s.waiting
    ensures var n := Min(want, s.actual);
            Reads(s, want, 4) ==
              s.(rw := s.rw + 1, reader := if n == 0 then RExit(Leaving) else RCopying(s.head, n, []))
  {
    var a := s.(rw := s.rw + 1, reader := RCounted(want));
    var b := a.(reader := RInside(want));
    var c := b.(reader := RSized(want, s.actual));
    assert Reads(s, want, 4) == Reads(a, want, 3) == Reads(b, want, 2) == Reads(c, want, 1) == ReaderStep(c, want);
  }

  /** The two steps behind it: the position, then the size. */
  lemma ReadPublishes(s: State, want: nat)
    requires Usable(s) && s.reader.RCopying? && s.reader.size == |s.reader.got|
    ensures var t, n := Reads(s, want, 2), s.reader.size;
            && t.reader == RExit(Leaving) && t.rw == s.rw && t.waiting == s.waiting && t.writer == s.writer
            && t.accepted == s.accepted && |s.delivered| + n <= |s.accepted|
            && t.delivered == s.accepted[..|s.delivered| + n]
  {
    var got, n := s.reader.got, |s.delivered|;
    var a := s.(head := After(s.reader.start, s.reader.size, |s.buf|), reader := RStored(got));
    assert ReaderStep(s, want) == a;
    assert Reads(s, want, 2) == Reads(a, want, 1) == ReaderStep(a, want);
    assert s.delivered == s.accepted[..n];
    assert s.accepted[..n + |got|] == s.accepted[..n] + s.accepted[n..n + |got|];
  }

  lemma ReadLeaves(s: State, want: nat) returns (k: nat)
    requires s.reader == RExit(Leaving) && !s.waiting
    ensures Reads(s, want, k) == s.(reader := RIdle, rw := s.rw - 1)
  {
    var a := ReaderStep(s, want);
    if a.reader.RIdle? {
      k := 1;
      assert Reads(s, want, 1) == Reads(a, want, 0);
    } else {
      k := 2;
      assert Reads(s, want, 2) == Reads(a, want, 1) == ReaderStep(a, want);
    }
  }

  /** The copy and its publication. */
  lemma ReadMoves(a: State, want: nat, n: nat)
    requires Inv(a) && n > 0 && a.reader == RCopying(a.head, n, [])
    ensures var t := Reads(a, want, n + 2);
            && t.reader == RExit(Leaving) && t.rw == a.rw && t.waiting == a.waiting && t.writer == a.writer
            && t.accepted == a.accepted && |a.delivered| + n <= |a.accepted|
            && t.delivered == a.accepted[..|a.delivered| + n]
  {
    ReadCopies(a, want, n);
    ReadsUsable(a, want, n);
    ReadPublishes(Reads(a, want, n), want);
    IterateAdd(Reading(want), a, n, 2);
  }

  lemma ReadsUsable(a: State, want: nat, n: nat)
    requires Inv(a)
    ensures Usable(Reads(a, want, n))
  {
    ReadsKeep(a, want, n);
    InvUsable(Reads(a, want, n));
  }

  /** Everything between entering and leaving. */
  lemma ReadWorks(s: State, want: nat) returns (k: nat)
    requires Inv(s) && s.reader.RIdle? && !s.waiting
    ensures var t, n := Reads(s, want, k), Min(want, s.actual);
            && t.reader == RExit(Leaving) && t.rw == s.rw + 1 && !t.waiting
            && t.writer == s.writer && t.accepted == s.accepted
            && 0 <= n <= |s.accepted| - |s.delivered|
            && t.delivered == s.accepted[..|s.delivered| + n]
  {
    InvUsable(s);
    var n := Min(want, s.actual);
    ReadEnters(s, want);
    if n > 0 {
      ReadsKeep(s, want, 4);
      ReadMoves(Reads(s, want, 4), want, n);
      IterateAdd(Reading(want), s, 4, n + 2);
      k := 4 + (n + 2);
    } else {
      k := 4;
      assert s.delivered == s.accepted[..|s.delivered|];
    }
  }

  /** An undisturbed read that is not turned away takes the oldest bytes, as many as
      are wanted and there. */
  lemma ReadAlone(s: State, want: nat) returns (k: nat)
    requires Inv(s) && s.reader.RIdle? && !s.waiting
    ensures var t, n := Reads(s, want, k), Min(want, s.actual);
            && t.reader.RIdle? && t.rw == s.rw && t.writer == s.writer && t.accepted == s.accepted
            && 0 <= n <= |s.accepted| - |s.delivered|
            && t.delivered == s.accepted[..|s.delivered| + n]
  {
    var steps := ReadWorks(s, want);
    var last := ReadLeaves(Reads(s, want, steps), want);
    IterateAdd(Reading(want), s, steps, last);
    k := steps + last;
  }

  // ----- writing ------------------------------------------------------------

  ghost function Writing(data: seq<byte>): State -> State { s => WriterStep(s, data) }

  /** `k` steps of the writer alone. */
  ghost function Writes(s: State, data: seq<byte>, k: nat): State { Iterate(Writing(data), s, k) }

  lemma WritesKeep(s: State, data: seq<byte>, k: nat)
    requires Inv(s)
    ensures Inv(Writes(s, data, k))
  {
    forall t | Inv(t) ensures Inv(Writing(data)(t)) { Follows(t, Write(data), Writing(data)(t)); }
    IterateKeeps(Writing(data), s, k);
  }

  lemma WriteByte(s: State, data: seq<byte>)
    requires Usable(s) && s.writer.WCopying? && s.writer.done < s.writer.size
    ensures var t := WriterStep(s, data);
            t == s.(writer := s.writer.(done := s.writer.done + 1), buf := t.buf)
  {}

  lemma {:induction false} WriteCopies(s: State, data: seq<byte>, k: nat)
    requires Inv(s) && s.writer.WCopying? && k == s.writer.size - s.writer.done
    ensures var t := Writes(s, data, k);
            t == s.(writer := s.writer.(done := s.writer.size), buf := t.buf)
    decreases k
  {
    if k > 0 {
      InvUsable(s);
      WriteByte(s, data);
      InvStep(s, Write(data));
      WriteCopies(WriterStep(s, data), data, k - 1);
    }
  }

  lemma WriteEnters(s: State, data: seq<byte>)
    requires 0 <= s.actual <= |s.buf| && s.writer.WIdle? && !s.waiting && s.running
    ensures var n := Min(|data|, |s.buf| - s.actual);
            Writes(s, data, 4) ==
              s.(rw := s.rw + 1, writer := if n == 0 then WExit(Leaving) else WCopying(s.tail, n, data, 0))
  {
    var a := s.(rw := s.rw + 1, writer := WCounted(data));
    var b := a.(writer := WInside(data));
    var c := b.(writer := WSized(data, s.actual));
    assert Writes(s, data, 4) == Writes(a, data, 3) == Writes(b, data, 2) == Writes(c, data, 1) == WriterStep(c, data);
  }

  lemma WritePublishes(s: State, data: seq<byte>)
    requires Usable(s) && s.writer.WCopying? && s.writer.done == s.writer.size
    ensures var t, n := Writes(s, data, 2), s.writer.size;
            && t.writer == WExit(Leaving) && t.rw == s.rw && t.waiting == s.waiting && t.reader == s.reader
            && t.accepted == s.accepted + s.writer.data[..n] && t.delivered == s.delivered
  {
    var w := s.writer;
    var a := s.(tail := After(w.start, w.size, |s.buf|), writer := WStored(w.size, w.data));
    assert WriterStep(s, data) == a;
    assert Writes(s, data, 2) == Writes(a, data, 1) == WriterStep(a, data);
  }

  lemma WriteLeaves(s: State, data: seq<byte>) returns (k: nat)
    requires s.writer == WExit(Leaving) && !s.waiting
    ensures Writes(s, data, k) == s.(writer := WIdle, rw := s.rw - 1)
  {
    var a := WriterStep(s, data);
    if a.writer.WIdle? {
      k := 1;
      assert Writes(s, data, 1) == Writes(a, data, 0);
    } else {
      k := 2;
      assert Writes(s, data, 2) == Writes(a, data, 1) == WriterStep(a, data);
    }
  }

  lemma WriteMoves(a: State, data: seq<byte>, n: nat)
    requires Inv(a) && 0 < n <= |data| && a.writer == WCopying(a.tail, n, data, 0)
    ensures var t := Writes(a, data, n + 2);
            && t.writer == WExit(Leaving) && t.rw == a.rw && t.waiting == a.waiting && t.reader == a.reader
            && t.accepted == a.accepted + data[..n] && t.delivered == a.delivered
  {
    WriteCopies(a, data, n);
    WritesUsable(a, data, n);
    WritePublishes(Writes(a, data, n), data);
    IterateAdd(Writing(data), a, n, 2);
  }

  lemma WritesUsable(a: State, data: seq<byte>, n: nat)
    requires Inv(a)
    ensures Usable(Writes(a, data, n))
  {
    WritesKeep(a, data, n);
    InvUsable(Writes(a, data, n));
  }

  lemma WriteWorks(s: State, data: seq<byte>) returns (k: nat)
    requires Inv(s) && s.writer.WIdle? && !s.waiting && s.running
    ensures var t, n := Writes(s, data, k), Min(|data|, |s.buf| - s.actual);
            && t.writer == WExit(Leaving) && t.rw == s.rw + 1 && !t.waiting
            && t.reader == s.reader && t.delivered == s.delivered
            && 0 <= n <= |data| && t.accepted == s.accepted + data[..n]
  {
    InvUsable(s);
    var n := Min(|data|, |s.buf| - s.actual);
    WriteEnters(s, data);
    if n > 0 {
      WritesKeep(s, data, 4);
      WriteMoves(Writes(s, data, 4), data, n);
      IterateAdd(Writing(data), s, 4, n + 2);
      k := 4 + (n + 2);
    } else {
      k := 4;
      assert s.accepted + data[..0] == s.accepted;
    }
  }

  /** An undisturbed write that is not turned away stores as many bytes as there is
      room for. */
  lemma WriteAlone(s: State, data: seq<byte>) returns (k: nat)
    requires Inv(s) && s.writer.WIdle? && !s.waiting && s.running
    ensures var t, n := Writes(s, data, k), Min(|data|, |s.buf| - s.actual);
            && t.writer.WIdle? && t.rw == s.rw && t.reader == s.reader && t.delivered == s.delivered
            && 0 <= n <= |data| && t.accepted == s.accepted + data[..n]
  {
    var steps := WriteWorks(s, data);
    var last := WriteLeaves(Writes(s, data, steps), data);
    IterateAdd(Writing(data), s, steps, last);
    k := steps + last;
  }

  // ----- purging ------------------------------------------------------------

  ghost function Purging(i: nat): State -> State {
    (s: State) => if i < |s.purgers| then PurgerStep(s, i, false) else s
  }

  lemma FourTimes<S>(f: S -> S, s: S, a: S, b: S, c: S, d: S)
    requires f(s) == a && f(a) == b && f(b) == c && f(c) == d
    ensures Iterate(f, s, 4) == d
  {
    assert Iterate(f, s, 4) == Iterate(f, a, 3) == Iterate(f, b, 2) == Iterate(f, c, 1) == Iterate(f, d, 0);
  }

  lemma Overwrite(ps: seq<Purger>, i: nat, p: Purger, q: Purger)
    requires i < |ps|
    ensures ps[i := p][i := q] == ps[i := q]
  {}

  /** State `s` with purger `i` at `p`. */
  function At(s: State, i: nat, p: Purger): State
    requires i < |s.purgers|
  {
    s.(purgers := s.purgers[i := p])
  }

  lemma PurgeRaises(s: State, i: nat)
    requires i < |s.purgers| && s.purgers[i].Away? && !s.waiting && s.lock.Free?
    ensures var a := At(s, i, Raised).(waiting := true);
            var b := At(s, i, Checking).(waiting := true, lock := ByPurger(i));
            Purging(i)(s) == a && Purging(i)(a) == b
  {
    Overwrite(s.purgers, i, Raised, Checking);
  }

  lemma PurgeQuiets(s: State, i: nat)
    requires i < |s.purgers| && s.rw == 0
    ensures var b := At(s, i, Checking); var c := At(s, i, Quiet); var d := At(s, i, Resetting(0)).(lock := Free);
            Purging(i)(b) == c && Purging(i)(c) == d
  {
    Overwrite(s.purgers, i, Checking, Quiet);
    Overwrite(s.purgers, i, Quiet, Resetting(0));
  }

  /** The first half of a purge that finds no users: up to the decision. */
  lemma PurgeDecides(s: State, i: nat)
    requires i < |s.purgers| && s.purgers[i].Away? && !s.waiting && s.lock.Free? && s.rw == 0
    ensures Iterate(Purging(i), s, 4) == At(s, i, Resetting(0)).(waiting := true)
  {
    var locked := s.(waiting := true, lock := ByPurger(i));
    PurgeRaises(s, i);
    PurgeQuiets(locked, i);
    FourTimes(Purging(i), s, At(s, i, Raised).(waiting := true), At(locked, i, Checking), At(locked, i, Quiet),
              At(s, i, Resetting(0)).(waiting := true));
  }

  /** The second half: the three stores, and the flag. */
  lemma PurgeResets(s: State, i: nat)
    requires i < |s.purgers| && s.purgers[i] == Resetting(0)
    ensures Iterate(Purging(i), s, 4) ==
            At(s, i, Away).(actual := 0, head := 0, tail := 0, accepted := [], delivered := [], waiting := false)
  {
    var a := At(s, i, Resetting(1)).(actual := 0, accepted := [], delivered := []);
    var b := At(a, i, Resetting(2)).(head := 0);
    var c := At(b, i, Lowering).(tail := 0);
    var d := At(c, i, Away).(waiting := false);
    FourTimes(Purging(i), s, a, b, c, d);
    Overwrite(s.purgers, i, Resetting(1), Resetting(2));
    Overwrite(s.purgers, i, Resetting(2), Lowering);
    Overwrite(s.purgers, i, Lowering, Away);
  }

  /** A purge that finds no users empties the ring and lets users in again. */
  lemma PurgeAlone(s: State, i: nat)
    requires i < |s.purgers| && s.purgers[i].Away? && !s.waiting && s.lock.Free? && s.rw == 0
    ensures Iterate(Purging(i), s, 8) == s.(actual := 0, head := 0, tail := 0, accepted := [], delivered := [])
  {
    PurgeDecides(s, i);
    PurgeResets(Iterate(Purging(i), s, 4), i);
    IterateAdd(Purging(i), s, 4, 4);
    assert s.purgers[i := Resetting(0)][i := Away] == s.purgers;
  }
}
