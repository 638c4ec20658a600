/** What the demultiplexer misses: exactly the positions that open no run of four, and
    the carried bytes of a call that gives them up. */
module DemuxLosses {
  import opened Bytes
  import opened Demux
  import opened DemuxTheorems

  ghost predicate Covered(ps: seq<nat>, q: nat) {
    exists k :: 0 <= k < |ps| && ps[k] <= q < ps[k] + PACKET
  }

  /** One of the next four packets from `q` on is at hand and has no sync byte. */
  ghost predicate Broken(s: seq<byte>, q: nat) {
    exists i: nat :: i < SYNC_COUNT && Grid(q, i) + PACKET <= |s| && !Tagged(s[Grid(q, i)])
  }

  /** Every position of [from, to) that no packet covers opens no run of four. */
  ghost predicate MissesNothing(s: seq<byte>, ps: seq<nat>, from: nat, to: nat) {
    forall q: nat :: from <= q < to && !Covered(ps, q) ==> Broken(s, q)
  }

  /** Every packet follows another one directly or opens a run of four. */
  ghost predicate Rooted(s: seq<byte>, ps: seq<nat>) {
    forall k :: 0 <= k < |ps| ==> RootedAt(s, ps, k)
  }

  ghost predicate RootedAt(s: seq<byte>, ps: seq<nat>, k: nat)
    requires k < |ps|
  {
    (k > 0 && ps[k] == ps[k - 1] + PACKET) || OpensRun(s, ps[k])
  }

  /** Four whole packets, each with its sync byte. */
  ghost predicate OpensRun(s: seq<byte>, p: nat) { Grid(p, SYNC_COUNT) <= |s| && !Broken(s, p) }

  lemma CoveredJoin(ps: seq<nat>, qs: seq<nat>, q: nat)
    ensures Covered(ps + qs, q) <==> Covered(ps, q) || Covered(qs, q)
  {
    if Covered(ps, q) {
      var k :| 0 <= k < |ps| && ps[k] <= q < ps[k] + PACKET;
      assert (ps + qs)[k] == ps[k];
    }
    if Covered(qs, q) {
      var k :| 0 <= k < |qs| && qs[k] <= q < qs[k] + PACKET;
      assert (ps + qs)[|ps| + k] == qs[k];
    }
  }

  lemma NotCovered(ps: seq<nat>, from: nat, to: nat, q: nat)
    requires Apart(ps, from, to) && !(from <= q < to)
    ensures !Covered(ps, q)
  {}

  lemma MissesJoin(s: seq<byte>, ps: seq<nat>, qs: seq<nat>, a: nat, b: nat, c: nat)
    requires MissesNothing(s, ps, a, b) && MissesNothing(s, qs, b, c)
    ensures MissesNothing(s, ps + qs, a, c)
  {
    forall q: nat | a <= q < c && !Covered(ps + qs, q) ensures Broken(s, q) {
      CoveredJoin(ps, qs, q);
    }
  }

  lemma RootedJoin(s: seq<byte>, ps: seq<nat>, qs: seq<nat>)
    requires Rooted(s, ps) && Rooted(s, qs)
    ensures Rooted(s, ps + qs)
  {
    forall k | 0 <= k < |ps + qs| ensures RootedAt(s, ps + qs, k) {
      if k < |ps| { assert RootedAt(s, ps, k); } else { assert RootedAt(s, qs, k - |ps|); }
    }
  }

  // ----- one scan -----------------------------------------------------------

  lemma {:induction false} MissIsBroken(s: seq<byte>, p: nat, i: nat)
    requires p <= |s| && i <= SYNC_COUNT && ProbeFrom(s, p, i) == Miss
    ensures Broken(s, p)
    decreases SYNC_COUNT - i
  {
    if !Tagged(s[Grid(p, i)]) {} else { MissIsBroken(s, p, i + 1); }
  }

  lemma {:induction false} MoreIsUnbroken(s: seq<byte>, p: nat, i: nat)
    requires p <= |s| && i <= SYNC_COUNT && ProbeFrom(s, p, i) == More
    ensures forall j: nat :: i <= j < SYNC_COUNT && Grid(p, j) + PACKET <= |s| ==> Tagged(s[Grid(p, j)])
    decreases SYNC_COUNT - i
  {
    if p + (i + 1) * PACKET <= |s| {
      assert Tagged(s[Grid(p, i)]);
      MoreIsUnbroken(s, p, i + 1);
    }
  }

  lemma LockIsWhole(s: seq<byte>, p: nat)
    requires p <= |s| && ProbeFrom(s, p, 0) == Lock
    ensures OpensRun(s, p)
  {
    LockMoves(s, p);
    forall i: nat | i < SYNC_COUNT ensures Tagged(s[Grid(p, i)]) { assert Grid(p, i) == p + i * PACKET; }
  }

  lemma {:induction false} RowCovers(s: seq<byte>, p: nat)
    requires p <= |s|
    ensures MissesNothing(s, Row(s, p), p, RowEnd(s, p))
    decreases |s| - p
  {
    if p + PACKET <= |s| && Tagged(s[p]) {
      RowCovers(s, p + PACKET);
      forall q: nat | p <= q < p + PACKET ensures Covered([p], q) { assert [p][0] <= q; }
      MissesJoin(s, [p], Row(s, p + PACKET), p, p + PACKET, RowEnd(s, p));
    }
  }

  lemma {:induction false} RowRooted(s: seq<byte>, p: nat)
    requires p <= |s|
    ensures forall k :: 0 <= k < |Row(s, p)| ==> Row(s, p)[k] == Grid(p, k)
    decreases |s| - p
  {
    if p + PACKET <= |s| && Tagged(s[p]) {
      RowRooted(s, p + PACKET);
      forall k | 0 <= k < |Row(s, p)| ensures Row(s, p)[k] == Grid(p, k) {
        if k > 0 { assert Row(s, p)[k] == Row(s, p + PACKET)[k - 1]; }
      }
    }
  }

  /** A scan passes over no run of four: whatever it leaves out opens none, whatever it
      takes begins with one, and it stops only where the bytes at hand leave that open. */
  lemma {:induction false} ScanMissesNothing(s: seq<byte>, p: nat)
    requires p <= |s|
    ensures MissesNothing(s, Scan(s, p).0, p, Scan(s, p).1) && Rooted(s, Scan(s, p).0)
    ensures Scan(s, p).1 < |s| ==> !Broken(s, Scan(s, p).1)
    decreases |s| - p
  {
    if p < |s| {
      match ProbeFrom(s, p, 0)
      case More => MoreIsUnbroken(s, p, 0);
      case Miss =>
        ScanMissesNothing(s, p + 1);
        MissIsBroken(s, p, 0);
      case Lock =>
        LockMoves(s, p);
        LockIsWhole(s, p);
        var e := RowEnd(s, p);
        ScanMissesNothing(s, e);
        RowCovers(s, p);
        RowRooted(s, p);
        assert Rooted(s, Row(s, p));
        MissesJoin(s, Row(s, p), Scan(s, e).0, p, e, Scan(s, e).1);
        RootedJoin(s, Row(s, p), Scan(s, e).0);
    }
  }

  lemma BrokenLater(s: seq<byte>, t: seq<byte>, q: nat)
    requires s <= t && Broken(s, q)
    ensures Broken(t, q)
  {
    var i: nat :| i < SYNC_COUNT && Grid(q, i) + PACKET <= |s| && !Tagged(s[Grid(q, i)]);
    assert t[Grid(q, i)] == s[Grid(q, i)];
  }

  /** Junk that holds no run of four is passed over byte by byte, and from the first
      run of four on nothing of a stream in sync is lost. */
  lemma {:induction false} JunkThenSync(s: seq<byte>, p: nat, q: nat)
    requires p <= q && Grid(q, SYNC_COUNT) <= |s| && InSync(s, q)
    requires forall r: nat :: p <= r < q ==> Broken(s, r)
    ensures var m := (|s| - q) / PACKET; Scan(s, p) == (Steps(q, m), Grid(q, m))
    decreases q - p
  {
    if p == q {
      ScanInSync(s, q);
    } else {
      FullIsDecided(s, p, 0);
      if ProbeFrom(s, p, 0) == Lock { LockIsWhole(s, p); }
      JunkThenSync(s, p + 1, q);
    }
  }

  // ----- one call -----------------------------------------------------------

  /** The call cannot lock on the first carried byte and drops all the others, too. */
  ghost predicate GivesUp(carry: seq<byte>, chunk: seq<byte>) {
    carry != [] && |carry| + |chunk| >= SYNC_SIZE && Broken(carry + chunk, 0)
  }

  lemma WholeCarry(carry: seq<byte>, chunk: seq<byte>)
    requires carry != [] && |carry| < SYNC_SIZE <= |carry| + |chunk|
    ensures Scan(carry + chunk[..SYNC_SIZE - |carry|], 0).1 == SYNC_SIZE <==> !Broken(carry + chunk, 0)
  {
    var filled := carry + chunk[..SYNC_SIZE - |carry|];
    CarryAllOrNone(filled);
    forall i: nat | i < SYNC_COUNT
      ensures Grid(0, i) == i * PACKET < SYNC_SIZE && filled[i * PACKET] == (carry + chunk)[i * PACKET] {}
  }

  /** One call: as for a scan, but for the carried bytes when they are given up, of
      which none is taken then. */
  lemma HandleMisses(carry: seq<byte>, chunk: seq<byte>)
    requires |carry| < SYNC_SIZE
    ensures var (ps, stop) := Handle(carry, chunk);
            var all := carry + chunk;
            && Rooted(all, ps)
            && (GivesUp(carry, chunk) ==> stop >= |carry| && Apart(ps, |carry|, stop))
            && MissesNothing(all, ps, if GivesUp(carry, chunk) then |carry| else 0, stop)
  {
    var all := carry + chunk;
    if carry == [] {
      assert all == chunk;
      ScanMissesNothing(chunk, 0);
    } else if |all| >= SYNC_SIZE {
      var filled := carry + chunk[..SYNC_SIZE - |carry|];
      assert filled <= all;
      CarryAllOrNone(filled);
      WholeCarry(carry, chunk);
      var ps := Scan(filled, 0).0;
      var from := if GivesUp(carry, chunk) then |carry| else SYNC_SIZE;
      ScanMissesNothing(all, from);
      ScanApart(all, from);
      var (qs, stop) := Scan(all, from);
      if GivesUp(carry, chunk) {
        assert ps + qs == qs;
      } else {
        forall q: nat | q < SYNC_SIZE ensures Covered(ps, q) { assert ps[q / PACKET] <= q < ps[q / PACKET] + PACKET; }
        MissesJoin(all, ps, qs, 0, SYNC_SIZE, stop);
        RootedJoin(all, ps, qs);
      }
    }
  }

  // ----- any sequence of chunks ---------------------------------------------

  /** The call with chunk `n` gives up the carried bytes, and `q` lies among them. */
  ghost predicate DropsAt(chunks: seq<seq<byte>>, n: nat, q: nat) {
    && n < |chunks|
    && Lies(Flat(chunks[..n]), Feed(chunks[..n]).1, chunks[n], q)
  }

  ghost predicate Lies(s: seq<byte>, c: nat, chunk: seq<byte>, q: nat) {
    c <= |s| && |s| - c <= q < |s| && GivesUp(s[|s| - c..], chunk)
  }

  ghost predicate Dropped(chunks: seq<seq<byte>>, q: nat) { exists n: nat :: DropsAt(chunks, n, q) }

  /** Everything before the carry that is neither covered nor dropped is broken, and
      nothing dropped is covered. */
  ghost predicate Accounts(chunks: seq<seq<byte>>, s: seq<byte>, ps: seq<nat>, c: nat) {
    && c <= |s|
    && (forall q: nat :: q < |s| - c && !Covered(ps, q) && !Dropped(chunks, q) ==> Broken(s, q))
    && (forall q: nat :: Dropped(chunks, q) ==> q < |s| - c && !Covered(ps, q))
    && Rooted(s, ps)
  }

  lemma DroppedNext(chunks: seq<seq<byte>>, q: nat)
    requires |chunks| > 0
    ensures var n := |chunks| - 1;
            Dropped(chunks, q) <==> Dropped(chunks[..n], q) || DropsAt(chunks, n, q)
  {
    var n := |chunks| - 1;
    forall k: nat | k < n ensures DropsAt(chunks, k, q) <==> DropsAt(chunks[..n], k, q) {
      assert chunks[..n][..k] == chunks[..k];
    }
    if Dropped(chunks, q) {
      var k: nat :| DropsAt(chunks, k, q);
      if k < n { assert DropsAt(chunks[..n], k, q); }
    }
    if Dropped(chunks[..n], q) {
      var k: nat :| DropsAt(chunks[..n], k, q);
      assert DropsAt(chunks, k, q);
    }
  }

  lemma CoveredShift(ps: seq<nat>, d: nat, q: nat)
    ensures Covered(Shift(ps, d), q) <==> q >= d && Covered(ps, q - d)
  {
    if Covered(Shift(ps, d), q) {
      var k :| 0 <= k < |Shift(ps, d)| && Shift(ps, d)[k] <= q < Shift(ps, d)[k] + PACKET;
      assert ps[k] <= q - d < ps[k] + PACKET;
    }
    if q >= d && Covered(ps, q - d) {
      var k :| 0 <= k < |ps| && ps[k] <= q - d < ps[k] + PACKET;
      assert Shift(ps, d)[k] <= q;
    }
  }

  lemma BrokenShift(s: seq<byte>, d: nat, q: nat)
    requires d <= |s|
    ensures Broken(s[d..], q) <==> Broken(s, q + d)
  {
    forall i: nat | i < SYNC_COUNT
      ensures Grid(q + d, i) == Grid(q, i) + d && (Grid(q, i) < |s| - d ==> s[d..][Grid(q, i)] == s[Grid(q + d, i)])
    {}
    if Broken(s[d..], q) {
      var i: nat :| i < SYNC_COUNT && Grid(q, i) + PACKET <= |s[d..]| && !Tagged(s[d..][Grid(q, i)]);
      assert !Tagged(s[Grid(q + d, i)]);
    }
    if Broken(s, q + d) {
      var i: nat :| i < SYNC_COUNT && Grid(q + d, i) + PACKET <= |s| && !Tagged(s[Grid(q + d, i)]);
      assert !Tagged(s[d..][Grid(q, i)]);
    }
  }

  lemma RootedShift(s: seq<byte>, d: nat, ps: seq<nat>)
    requires d <= |s| && Rooted(s[d..], ps)
    ensures Rooted(s, Shift(ps, d))
  {
    forall k | 0 <= k < |ps| ensures RootedAt(s, Shift(ps, d), k) {
      assert RootedAt(s[d..], ps, k);
      BrokenShift(s, d, ps[k]);
    }
  }

  lemma RunLater(s: seq<byte>, t: seq<byte>, p: nat)
    requires s <= t && OpensRun(s, p)
    ensures OpensRun(t, p)
  {
    forall i: nat | i < SYNC_COUNT ensures Tagged(t[Grid(p, i)]) { assert s[Grid(p, i)] == t[Grid(p, i)]; }
  }

  lemma RootedLater(s: seq<byte>, t: seq<byte>, ps: seq<nat>)
    requires s <= t && Rooted(s, ps)
    ensures Rooted(t, ps)
  {
    forall k | 0 <= k < |ps| ensures RootedAt(t, ps, k) {
      assert RootedAt(s, ps, k);
      if OpensRun(s, ps[k]) { RunLater(s, t, ps[k]); }
    }
  }

  /** One more chunk after the stream `s`: what holds of each position. */
  lemma MissesStep(s: seq<byte>, ps: seq<nat>, c: nat, last: seq<byte>, q: nat)
    requires c <= |s| && c < SYNC_SIZE && Apart(ps, 0, |s| - c)
    ensures var (rs, d) := FeedNext(s, ps, c, last);
            var all := s + last;
            && (|s| - c <= q < |all| - d && !Covered(rs, q) && !Lies(s, c, last, q) ==> Broken(all, q))
            && (Lies(s, c, last, q) ==> q < |all| - d && !Covered(rs, q))
            && (q < |s| - c ==> q < |all| - d && (Covered(rs, q) <==> Covered(ps, q)))
  {
    var base, all := |s| - c, s + last;
    var carry := s[base..];
    var (qs, stop) := Handle(carry, last);
    assert carry + last == all[base..];
    HandleMisses(carry, last);
    CoveredJoin(ps, Shift(qs, base), q);
    CoveredShift(qs, base, q);
    if q >= base {
      BrokenShift(all, base, q - base);
      NotCovered(ps, 0, base, q);
      if GivesUp(carry, last) && q < |s| { NotCovered(qs, |carry|, stop, q - base); }
    }
  }

  lemma RootedStep(s: seq<byte>, ps: seq<nat>, c: nat, last: seq<byte>)
    requires c <= |s| && c < SYNC_SIZE && Rooted(s, ps)
    ensures Rooted(s + last, FeedNext(s, ps, c, last).0)
  {
    var base, all := |s| - c, s + last;
    assert s[base..] + last == all[base..];
    HandleMisses(s[base..], last);
    RootedShift(all, base, Handle(s[base..], last).0);
    RootedLater(s, all, ps);
    RootedJoin(all, ps, Shift(Handle(s[base..], last).0, base));
  }

  lemma AccountsStep(chunks: seq<seq<byte>>, s: seq<byte>, ps: seq<nat>, c: nat)
    requires |chunks| > 0 && c < SYNC_SIZE && c <= |s| && Apart(ps, 0, |s| - c)
    requires s == Flat(chunks[..|chunks| - 1]) && Feed(chunks[..|chunks| - 1]) == (ps, c)
    requires Accounts(chunks[..|chunks| - 1], s, ps, c)
    ensures Accounts(chunks, Flat(chunks), Feed(chunks).0, Feed(chunks).1)
  {
    var n := |chunks| - 1;
    var all := s + chunks[n];
    var (rs, d) := FeedNext(s, ps, c, chunks[n]);
    RootedStep(s, ps, c, chunks[n]);
    forall q: nat | q < |all| - d && !Covered(rs, q) && !Dropped(chunks, q) ensures Broken(all, q) {
      DroppedNext(chunks, q);
      MissesStep(s, ps, c, chunks[n], q);
      if q < |s| - c { BrokenLater(s, all, q); }
    }
    forall q: nat | Dropped(chunks, q) ensures q < |all| - d && !Covered(rs, q) {
      DroppedNext(chunks, q);
      MissesStep(s, ps, c, chunks[n], q);
    }
  }

  lemma {:induction false} FeedAccounts(chunks: seq<seq<byte>>)
    ensures Accounts(chunks, Flat(chunks), Feed(chunks).0, Feed(chunks).1)
  {
    if |chunks| > 0 {
      FeedAccounts(chunks[..|chunks| - 1]);
      FeedApart(chunks[..|chunks| - 1]);
      var before := chunks[..|chunks| - 1];
      AccountsStep(chunks, Flat(before), Feed(before).0, Feed(before).1);
    }
  }

  /** Of any stream, cut in any way: a place that opens a run of four and is not carried
      any more is covered by a packet taken unless its bytes were given up in a carry;
      and every packet taken follows another one directly or opens a run of four. */
  lemma TakenExactly(chunks: seq<seq<byte>>, q: nat)
    requires q + Feed(chunks).1 < |Flat(chunks)| && !Broken(Flat(chunks), q)
    ensures Covered(Feed(chunks).0, q) <==> !Dropped(chunks, q)
    ensures Rooted(Flat(chunks), Feed(chunks).0)
  {
    FeedAccounts(chunks);
  }

  // ----- a stream that comes into sync --------------------------------------

  lemma StepsFollowFrom(ps: seq<nat>, g: nat, k: nat, n: nat)
    ensures ps + Steps(g, k) + Shift(Steps(0, n), Grid(g, k)) == ps + Steps(g, k + n)
  {
    assert Shift(Steps(0, n), Grid(g, k)) == Steps(Grid(g, k), n);
    StepsJoin(g, k, n);
    assert ps + Steps(g, k) + Steps(Grid(g, k), n) == ps + (Steps(g, k) + Steps(Grid(g, k), n));
  }

  lemma LockedStep(s: seq<byte>, ps: seq<nat>, g: nat, k: nat, last: seq<byte>) returns (n: nat)
    requires Grid(g, k) <= |s| < Grid(g, k) + SYNC_SIZE && InSync(s + last, g)
    ensures Grid(g, k + n) <= |s + last|
    ensures FeedNext(s, ps + Steps(g, k), |s| - Grid(g, k), last)
         == (ps + Steps(g, k + n), |s + last| - Grid(g, k + n))
  {
    var base, all := Grid(g, k), s + last;
    InSyncLater(all, g, k);
    SuffixInSync(all, base);
    assert s[base..] + last == all[base..];
    n := HandleInSync(s[base..], last);
    StepsFollowFrom(ps, g, k, n);
  }

  /** Once the bytes carried begin with a packet of a stream that stays in sync, nothing
      is lost any more, however the rest is cut. */
  lemma {:induction false} OnceLocked(chunks: seq<seq<byte>>, n: nat, ps: seq<nat>, g: nat) returns (m: nat)
    requires n <= |chunks| && Feed(chunks[..n]).0 == ps && g + Feed(chunks[..n]).1 == |Flat(chunks[..n])|
    requires InSync(Flat(chunks), g)
    ensures Feed(chunks).0 == ps + Steps(g, m) && Grid(g, m) + Feed(chunks).1 == |Flat(chunks)|
    decreases |chunks|
  {
    if n == |chunks| {
      assert chunks[..n] == chunks;
      assert Steps(g, 0) == [];
      m := 0;
    } else {
      var before := chunks[..|chunks| - 1];
      assert before[..n] == chunks[..n];
      InSyncPrefix(Flat(before), Flat(chunks), g);
      var k := OnceLocked(before, n, ps, g);
      m := StaysLocked(chunks, ps, g, k);
    }
  }

  lemma StaysLocked(chunks: seq<seq<byte>>, ps: seq<nat>, g: nat, k: nat) returns (m: nat)
    requires |chunks| > 0 && InSync(Flat(chunks), g)
    requires var before := chunks[..|chunks| - 1];
             Feed(before).0 == ps + Steps(g, k) && Grid(g, k) + Feed(before).1 == |Flat(before)|
    ensures Feed(chunks).0 == ps + Steps(g, m) && Grid(g, m) + Feed(chunks).1 == |Flat(chunks)|
  {
    var before, last := chunks[..|chunks| - 1], chunks[|chunks| - 1];
    FeedApart(before);
    var n := LockedStep(Flat(before), ps, g, k, last);
    m := k + n;
  }

  /** A first chunk of junk without a run of four, followed by at least four packets in
      sync: every packet behind the junk is taken or carried, however the rest is cut. */
  lemma JoinsInSync(chunks: seq<seq<byte>>, q: nat) returns (m: nat)
    requires |chunks| > 0 && Grid(q, SYNC_COUNT) <= |chunks[0]| && InSync(Flat(chunks), q)
    requires forall r: nat :: r < q ==> Broken(chunks[0], r)
    ensures Feed(chunks).0 == Steps(q, m) && Grid(q, m) + Feed(chunks).1 == |Flat(chunks)|
    ensures Feed(chunks).1 < SYNC_SIZE
  {
    FeedApart(chunks);
    var k := FirstLocks(chunks, q, chunks[0]);
    var n := StaysJoined(chunks, q, k);
    m := k + n;
    StepsJoin(q, k, n);
    GridAdds(q, k, n);
  }

  lemma StaysJoined(chunks: seq<seq<byte>>, q: nat, k: nat) returns (n: nat)
    requires |chunks| > 0 && InSync(Flat(chunks), q)
    requires Feed(chunks[..1]).0 == Steps(q, k) && Grid(q, k) + Feed(chunks[..1]).1 == |Flat(chunks[..1])|
    ensures Feed(chunks).0 == Steps(q, k) + Steps(Grid(q, k), n)
    ensures Grid(Grid(q, k), n) + Feed(chunks).1 == |Flat(chunks)|
  {
    InSyncLater(Flat(chunks), q, k);
    n := OnceLocked(chunks, 1, Steps(q, k), Grid(q, k));
  }

  lemma GridAdds(q: nat, k: nat, n: nat)
    ensures Grid(Grid(q, k), n) == Grid(q, k + n)
  {}

  lemma FirstLocks(chunks: seq<seq<byte>>, q: nat, first: seq<byte>) returns (k: nat)
    requires |chunks| > 0 && chunks[0] == first && Grid(q, SYNC_COUNT) <= |first| && InSync(Flat(chunks), q)
    requires forall r: nat :: r < q ==> Broken(first, r)
    ensures Feed(chunks[..1]).0 == Steps(q, k) && Grid(q, k) + Feed(chunks[..1]).1 == |Flat(chunks[..1])|
  {
    k := (|first| - q) / PACKET;
    FirstChunk(chunks);
    FlatPrefix(chunks, 1);
    InSyncPrefix(first, Flat(chunks), q);
    JunkThenSync(first, 0, q);
  }

  lemma FirstChunk(chunks: seq<seq<byte>>)
    requires |chunks| > 0
    ensures Flat(chunks[..1]) == chunks[0]
    ensures Feed(chunks[..1]).0 == Scan(chunks[0], 0).0 && Feed(chunks[..1]).1 == |chunks[0]| - Scan(chunks[0], 0).1
  {
    assert chunks[..1][..0] == [];
    assert Flat([]) == [] && [] + chunks[0] == chunks[0];
    var ps := Scan(chunks[0], 0).0;
    assert Shift(ps, 0) == ps && [] + ps == ps;
  }

  lemma {:induction false} FlatPrefix(chunks: seq<seq<byte>>, n: nat)
    requires n <= |chunks|
    ensures Flat(chunks[..n]) <= Flat(chunks)
    decreases |chunks|
  {
    if n == |chunks| {
      assert chunks[..n] == chunks;
    } else {
      FlatPrefix(chunks[..|chunks| - 1], n);
      assert chunks[..|chunks| - 1][..n] == chunks[..n];
    }
  }

  /** A stream in sync from its second byte on, whose first byte looks like a sync byte. */
  function LateStream(): (s: seq<byte>)
    ensures |s| == 1505 && forall k :: 0 <= k < 1505 ==> (Tagged(s[k]) <==> k == 0 || k % PACKET == 1)
  {
    seq(1505, k requires 0 <= k < 1505 => if k == 0 || k % PACKET == 1 then 0x17 else 0)
  }

  lemma LateInSync(s: seq<byte>, j: nat)
    requires s == LateStream()
    ensures InSync(s, Grid(1, j))
  {
    forall k: nat | Grid(Grid(1, j), k) < |s| ensures Tagged(s[Grid(Grid(1, j), k)]) {
      assert Grid(Grid(1, j), k) == PACKET * (j + k) + 1;
    }
  }

  lemma LateBroken(s: seq<byte>, r: nat)
    requires s == LateStream() && r + 2 * PACKET <= |s| && r % PACKET != 1
    ensures Broken(s, r)
  {
    if r == 0 { assert !Tagged(s[Grid(r, 1)]); } else { assert !Tagged(s[Grid(r, 0)]); }
  }

  lemma BetweenGrid(r: nat, t: nat, j: nat)
    requires t == r / PACKET && Grid(1, j) - PACKET < r < Grid(1, j)
    ensures r % PACKET != 1
  {
    assert r == PACKET * t + r % PACKET;
  }

  lemma LateScan(s: seq<byte>, from: nat, j: nat, q: nat, m: nat)
    requires s == LateStream() && q == Grid(1, j) && m == 8 - j && m >= SYNC_COUNT
    requires from <= q < from + PACKET
    ensures Scan(s, from).0 == Steps(q, m)
  {
    LateInSync(s, j);
    forall r: nat | from <= r < q ensures Broken(s, r) {
      BetweenGrid(r, r / PACKET, j);
      LateBroken(s, r);
    }
    JunkThenSync(s, from, q);
  }

  /** Where a stream is cut can cost packets when it does not begin in sync: the carried
      bytes are given up together with the two packets that they hold. */
  lemma CutLosesPackets(s: seq<byte>)
    requires s == LateStream()
    ensures Feed([s]).0 == Steps(1, 8)
    ensures Flat([s[..200], s[200..]]) == s && Feed([s[..200], s[200..]]).0 == Steps(377, 6)
  {
    InOnePiece(s, [s], 0);
    CutAt200(s, s[..200], s[200..]);
  }

  lemma InOnePiece(s: seq<byte>, chunks: seq<seq<byte>>, start: nat)
    requires chunks == [s] && s == LateStream() && start == 0
    ensures Feed(chunks).0 == Steps(1, 8)
  {
    FirstChunk(chunks);
    assert chunks[..1] == chunks;
    LateScan(s, start, 0, 1, 8);
  }

  lemma CutAt200(s: seq<byte>, a: seq<byte>, b: seq<byte>)
    requires s == LateStream() && a == s[..200] && b == s[200..]
    ensures Flat([a, b]) == s && Feed([a, b]).0 == Steps(377, 6)
  {
    var chunks := [a, b];
    FirstChunk(chunks);
    assert chunks[..1] == [a];
    assert a + b == s;
    assert ProbeFrom(a, 0, 0) == ProbeFrom(a, 0, 1) == More;
    assert Scan(a, 0) == ([], 0);
    assert a[|a| - 200..] == a;
    TailOfCut(s, a, b);
    var ps := Steps(377, 6);
    assert Shift(ps, 0) == ps && [] + ps == ps;
  }

  lemma TailOfCut(s: seq<byte>, a: seq<byte>, b: seq<byte>)
    requires s == LateStream() && a == s[..200] && b == s[200..]
    ensures Handle(a, b).0 == Steps(377, 6)
  {
    assert a + b == s;
    var filled := a + b[..SYNC_SIZE - 200];
    LateBroken(s, 0);
    WholeCarry(a, b);
    CarryAllOrNone(filled);
    LateScan(s, 200, 2, 377, 6);
    assert [] + Steps(377, 6) == Steps(377, 6);
  }

  // ----- what is handed on --------------------------------------------------

  /** A tagged byte is 0x07, 0x17, ..., 0x77, and the tag is its upper digit. */
  lemma TagDigits(b: byte)
    ensures Tagged(b) <==> b == 16 * TagOf(b) + 7
    ensures TagOf(b) < 8
  {}

  /** A packet as it is handed on: 0x47 in front, the other 187 bytes as they came, to
      the receiver that the tagged byte names. */
  ghost predicate IsPacketAt(s: seq<byte>, p: nat, d: Delivery)
    requires p + PACKET <= |s|
  {
    && s[p] == 16 * (d.receiver + 1) + 7 && |d.packet| == PACKET && d.packet[0] == 0x47
    && forall j :: 1 <= j < PACKET ==> d.packet[j] == s[p + j]
  }

  lemma RoutedPacket(s: seq<byte>, p: nat, receivers: nat)
    requires p + PACKET <= |s| && Tagged(s[p])
    ensures Routed(TagOf(s[p]), receivers) <==> 23 <= s[p] <= 16 * receivers + 7
    ensures |Route(s, p, receivers)| == if Routed(TagOf(s[p]), receivers) then 1 else 0
    ensures Routed(TagOf(s[p]), receivers) ==> IsPacketAt(s, p, Route(s, p, receivers)[0])
  {
    TagDigits(s[p]);
  }

  function RoutedCount(s: seq<byte>, ps: seq<nat>, receivers: nat): (n: nat)
    requires Within(ps, |s|)
  {
    if |ps| == 0 then 0
    else RoutedCount(s, ps[..|ps| - 1], receivers) + if Routed(TagOf(s[ps[|ps| - 1]]), receivers) then 1 else 0
  }

  /** Packets tagged 1 to `receivers` are handed on in order, nothing between them; the
      packets tagged otherwise are left out. */
  lemma {:induction false} DeliveredExactly(s: seq<byte>, ps: seq<nat>, receivers: nat, k: nat)
    requires Within(ps, |s|) && AllTagged(s, ps) && k < |ps|
    ensures var n := RoutedCount(s, ps[..k], receivers);
            if 23 <= s[ps[k]] <= 16 * receivers + 7
            then && n < |Deliver(s, ps, receivers)|
                 && IsPacketAt(s, ps[k], Deliver(s, ps, receivers)[n])
            else RoutedCount(s, ps[..k + 1], receivers) == n
  {
    var m := |ps| - 1;
    CountDelivered(s, ps, receivers);
    RoutedPacket(s, ps[k], receivers);
    if k < m {
      DeliveredExactly(s, ps[..m], receivers, k);
      assert ps[..m][..k] == ps[..k] && ps[..m][..k + 1] == ps[..k + 1];
    } else {
      assert ps[..k + 1] == ps;
      CountDelivered(s, ps[..m], receivers);
    }
  }

  lemma {:induction false} CountDelivered(s: seq<byte>, ps: seq<nat>, receivers: nat)
    requires Within(ps, |s|)
    ensures |Deliver(s, ps, receivers)| == RoutedCount(s, ps, receivers)
  {
    if |ps| > 0 { CountDelivered(s, ps[..|ps| - 1], receivers); }
  }
}
