/** What the demultiplexer guarantees however the stream is cut into chunks. */
module DemuxTheorems {
  import opened Bytes
  import opened Demux

  // ----- scanning -----------------------------------------------------------

  /** Packets at rising positions, at least a packet apart, within [from, to]. */
  ghost predicate Apart(ps: seq<nat>, from: nat, to: nat) {
    && (forall k :: 0 <= k < |ps| ==> from <= ps[k] && ps[k] + PACKET <= to)
    && (forall j, k :: 0 <= j < k < |ps| ==> ps[j] + PACKET <= ps[k])
  }

  ghost predicate AllTagged(s: seq<byte>, ps: seq<nat>) {
    forall k :: 0 <= k < |ps| ==> ps[k] < |s| && Tagged(s[ps[k]])
  }

  lemma ApartJoin(ps: seq<nat>, qs: seq<nat>, a: nat, b: nat, c: nat)
    requires Apart(ps, a, b) && Apart(qs, b, c) && a <= b <= c
    ensures Apart(ps + qs, a, c)
  {}

  lemma ApartWiden(ps: seq<nat>, a: nat, b: nat, c: nat)
    requires Apart(ps, b, c) && a <= b
    ensures Apart(ps, a, c)
  {}

  lemma TaggedJoin(s: seq<byte>, ps: seq<nat>, qs: seq<nat>)
    requires AllTagged(s, ps) && AllTagged(s, qs)
    ensures AllTagged(s, ps + qs)
  {}

  lemma {:induction false} RowApart(s: seq<byte>, p: nat)
    requires p <= |s|
    ensures Apart(Row(s, p), p, RowEnd(s, p)) && AllTagged(s, Row(s, p))
    decreases |s| - p
  {
    if p + PACKET <= |s| && Tagged(s[p]) {
      RowApart(s, p + PACKET);
      ApartJoin([p], Row(s, p + PACKET), p, p + PACKET, RowEnd(s, p));
    }
  }

  /** A scan takes tagged packets at rising positions and leaves fewer than four
      packets' worth of bytes. */
  lemma {:induction false} ScanApart(s: seq<byte>, p: nat)
    requires p <= |s|
    ensures var (ps, end) := Scan(s, p);
            Apart(ps, p, end) && AllTagged(s, ps) && |s| - end < SYNC_SIZE
    decreases |s| - p
  {
    if p < |s| {
      match ProbeFrom(s, p, 0)
      case More => MoreIsShort(s, p, 0);
      case Miss =>
        ScanApart(s, p + 1);
        ApartWiden(Scan(s, p + 1).0, p, p + 1, Scan(s, p + 1).1);
      case Lock =>
        LockMoves(s, p);
        var e := RowEnd(s, p);
        RowApart(s, p);
        ScanApart(s, e);
        ApartJoin(Row(s, p), Scan(s, e).0, p, e, Scan(s, e).1);
        TaggedJoin(s, Row(s, p), Scan(s, e).0);
    }
  }

  lemma {:induction false} MoreIsShort(s: seq<byte>, p: nat, i: nat)
    requires p <= |s| && i <= SYNC_COUNT && ProbeFrom(s, p, i) == More
    ensures |s| - p < SYNC_SIZE
    decreases SYNC_COUNT - i
  {
    if p + (i + 1) * PACKET <= |s| { MoreIsShort(s, p, i + 1); }
  }

  function Shift(ps: seq<nat>, d: nat): (qs: seq<nat>)
    ensures |qs| == |ps| && forall k :: 0 <= k < |ps| ==> qs[k] == ps[k] + d
  {
    seq(|ps|, k requires 0 <= k < |ps| => ps[k] + d)
  }

  lemma ShiftJoin(ps: seq<nat>, qs: seq<nat>, d: nat)
    ensures Shift(ps + qs, d) == Shift(ps, d) + Shift(qs, d)
  {}

  lemma {:induction false} ProbeShift(a: seq<byte>, s: seq<byte>, p: nat, i: nat)
    requires p <= |s| && i <= SYNC_COUNT
    ensures ProbeFrom(a + s, |a| + p, i) == ProbeFrom(s, p, i)
    decreases SYNC_COUNT - i
  {
    if i < SYNC_COUNT && p + (i + 1) * PACKET <= |s| {
      assert (a + s)[|a| + p + i * PACKET] == s[p + i * PACKET];
      ProbeShift(a, s, p, i + 1);
    }
  }

  lemma {:induction false} RowShift(a: seq<byte>, s: seq<byte>, p: nat)
    requires p <= |s|
    ensures Row(a + s, |a| + p) == Shift(Row(s, p), |a|) && RowEnd(a + s, |a| + p) == |a| + RowEnd(s, p)
    decreases |s| - p
  {
    if p + PACKET <= |s| {
      assert (a + s)[|a| + p] == s[p];
      if Tagged(s[p]) {
        RowShift(a, s, p + PACKET);
        ShiftJoin([p], Row(s, p + PACKET), |a|);
        assert Shift([p], |a|) == [|a| + p];
      }
    }
  }

  /** Bytes in front of the scanned part do not matter. */
  lemma {:induction false} ScanShift(a: seq<byte>, s: seq<byte>, p: nat)
    requires p <= |s|
    ensures Scan(a + s, |a| + p) == (Shift(Scan(s, p).0, |a|), |a| + Scan(s, p).1)
    decreases |s| - p
  {
    if p < |s| {
      ProbeShift(a, s, p, 0);
      match ProbeFrom(s, p, 0)
      case More =>
      case Miss => ScanShift(a, s, p + 1);
      case Lock =>
        LockMoves(s, p);
        RowShift(a, s, p);
        ScanShift(a, s, RowEnd(s, p));
        var rest := Scan(s, RowEnd(s, p)).0;
        ShiftJoin(Row(s, p), rest, |a|);
    }
  }

  // ----- the carry buffer ---------------------------------------------------

  /** A full carry buffer yields exactly four packets or none. */
  lemma CarryAllOrNone(s: seq<byte>)
    requires |s| == SYNC_SIZE
    ensures Scan(s, 0) == ([0, 188, 376, 564], SYNC_SIZE)
         || (Scan(s, 0).0 == [] && Scan(s, 0).1 < SYNC_SIZE)
    ensures Scan(s, 0).1 == SYNC_SIZE <==> forall i :: 0 <= i < SYNC_COUNT ==> Tagged(s[i * PACKET])
  {
    ProbeMeaning(s);
    if ProbeFrom(s, 0, 0) == Lock {
      assert Tagged(s[0 * PACKET]) && Tagged(s[1 * PACKET]) && Tagged(s[2 * PACKET]) && Tagged(s[3 * PACKET]);
      RowOfFour(s);
      assert Scan(s, SYNC_SIZE) == ([], SYNC_SIZE);
      assert Row(s, 0) + [] == Row(s, 0);
    } else {
      FullIsDecided(s, 0, 0);
      ShortYieldsNothing(s, 1);
    }
  }

  lemma {:induction false} FullIsDecided(s: seq<byte>, p: nat, i: nat)
    requires p + SYNC_SIZE <= |s| && i <= SYNC_COUNT
    ensures ProbeFrom(s, p, i) != More
    decreases SYNC_COUNT - i
  {
    if i < SYNC_COUNT { FullIsDecided(s, p, i + 1); }
  }

  lemma ProbeMeaning(s: seq<byte>)
    requires |s| == SYNC_SIZE
    ensures ProbeFrom(s, 0, 0) == Lock <==> forall i :: 0 <= i < SYNC_COUNT ==> Tagged(s[i * PACKET])
  {
    var all := forall i :: 0 <= i < SYNC_COUNT ==> Tagged(s[i * PACKET]);
    assert all ==> Tagged(s[0 * PACKET]) && Tagged(s[1 * PACKET]) && Tagged(s[2 * PACKET]) && Tagged(s[3 * PACKET]);
    assert ProbeFrom(s, 0, 0) == Lock <==> Tagged(s[0]) && Tagged(s[188]) && Tagged(s[376]) && Tagged(s[564]);
    if ProbeFrom(s, 0, 0) == Lock { LockMoves(s, 0); }
  }

  lemma RowOfFour(s: seq<byte>)
    requires |s| == SYNC_SIZE && Tagged(s[0]) && Tagged(s[188]) && Tagged(s[376]) && Tagged(s[564])
    ensures Row(s, 0) == [0, 188, 376, 564] && RowEnd(s, 0) == SYNC_SIZE
  {
    assert Row(s, 752) == [] && RowEnd(s, 752) == 752;
    assert Row(s, 564) == [564] && RowEnd(s, 564) == 752;
    assert Row(s, 376) == [376, 564] && RowEnd(s, 376) == 752;
    assert Row(s, 188) == [188, 376, 564] && RowEnd(s, 188) == 752;
    assert Row(s, 0) == [0] + Row(s, 188);
  }

  lemma {:induction false} ShortYieldsNothing(s: seq<byte>, p: nat)
    requires p <= |s| && |s| - p < SYNC_SIZE
    ensures Scan(s, p).0 == [] && (p < |s| ==> Scan(s, p).1 < |s|)
    decreases |s| - p
  {
    if p < |s| {
      if ProbeFrom(s, p, 0) == Lock { LockMoves(s, p); }
      if ProbeFrom(s, p, 0) == Miss { ShortYieldsNothing(s, p + 1); }
    }
  }

  // ----- one chunk ----------------------------------------------------------

  /** The first 752 of the bytes at hand; scanning them is scanning the buffer. */
  lemma PrefixTagged(filled: seq<byte>, all: seq<byte>, ps: seq<nat>)
    requires filled <= all && AllTagged(filled, ps)
    ensures AllTagged(all, ps)
  {}

  lemma HandleApart(carry: seq<byte>, chunk: seq<byte>)
    requires |carry| < SYNC_SIZE
    ensures var (ps, stop) := Handle(carry, chunk);
            var all := carry + chunk;
            Apart(ps, 0, stop) && AllTagged(all, ps) && |all| - stop < SYNC_SIZE
  {
    var all := carry + chunk;
    if carry == [] {
      assert all == chunk;
      ScanApart(chunk, 0);
    } else if |all| >= SYNC_SIZE {
      var filled := carry + chunk[..SYNC_SIZE - |carry|];
      assert filled <= all;
      CarryAllOrNone(filled);
      ScanApart(filled, 0);
      var (ps, end) := Scan(filled, 0);
      PrefixTagged(filled, all, ps);
      var from := if end == SYNC_SIZE then SYNC_SIZE else |carry|;
      ScanApart(all, from);
      var (qs, stop) := Scan(all, from);
      ApartJoin(ps, qs, 0, from, stop);
    }
  }

  // ----- any sequence of chunks ---------------------------------------------

  function Flat(chunks: seq<seq<byte>>): seq<byte> {
    if |chunks| == 0 then [] else Flat(chunks[..|chunks| - 1]) + chunks[|chunks| - 1]
  }

  /** One more chunk after the stream `s`, whose last `c` bytes are carried. */
  function FeedNext(s: seq<byte>, ps: seq<nat>, c: nat, last: seq<byte>): (r: (seq<nat>, nat))
    requires c <= |s|
    ensures r.1 <= |s| + |last|
  {
    var (qs, stop) := Handle(s[|s| - c..], last);
    (ps + Shift(qs, |s| - c), c + |last| - stop)
  }

  /** Positions, in the whole stream, of all packets taken so far, and the number
      of bytes carried. */
  function Feed(chunks: seq<seq<byte>>): (r: (seq<nat>, nat))
    ensures r.1 <= |Flat(chunks)|
  {
    if |chunks| == 0 then ([], 0)
    else
      var before := chunks[..|chunks| - 1];
      FeedNext(Flat(before), Feed(before).0, Feed(before).1, chunks[|chunks| - 1])
  }

  lemma ApartShift(ps: seq<nat>, a: nat, b: nat, d: nat)
    requires Apart(ps, a, b)
    ensures Apart(Shift(ps, d), a + d, b + d)
  {}

  lemma TaggedShift(s: seq<byte>, base: nat, qs: seq<nat>)
    requires base <= |s| && AllTagged(s[base..], qs)
    ensures AllTagged(s, Shift(qs, base))
  {
    forall k | 0 <= k < |qs| ensures qs[k] + base < |s| && Tagged(s[qs[k] + base]) {
      assert s[base..][qs[k]] == s[qs[k] + base];
    }
  }

  lemma ApartStep(s: seq<byte>, ps: seq<nat>, c: nat, last: seq<byte>)
    requires c <= |s| && c < SYNC_SIZE && Apart(ps, 0, |s| - c) && AllTagged(s, ps)
    ensures var (rs, d) := FeedNext(s, ps, c, last);
            var all := s + last;
            Apart(rs, 0, |all| - d) && AllTagged(all, rs) && d < SYNC_SIZE
  {
    var base, all := |s| - c, s + last;
    HandleApart(s[base..], last);
    var (qs, stop) := Handle(s[base..], last);
    assert s[base..] + last == all[base..];
    ApartShift(qs, 0, stop, base);
    ApartJoin(ps, Shift(qs, base), 0, base, base + stop);
    TaggedShift(all, base, qs);
    PrefixTagged(s, all, ps);
  }

  /** For arbitrary bytes in arbitrary chunks: the packets taken are tagged pieces of
      the stream at strictly rising positions that never overlap each other or the
      carried tail, and fewer than 752 bytes are carried. */
  lemma {:induction false} FeedApart(chunks: seq<seq<byte>>)
    ensures var (ps, c) := Feed(chunks);
            var s := Flat(chunks);
            Apart(ps, 0, |s| - c) && AllTagged(s, ps) && c < SYNC_SIZE
  {
    if |chunks| > 0 {
      var before, last := chunks[..|chunks| - 1], chunks[|chunks| - 1];
      FeedApart(before);
      ApartStep(Flat(before), Feed(before).0, Feed(before).1, last);
    }
  }

  // ----- a stream in sync ---------------------------------------------------

  function Grid(p: nat, k: nat): nat { p + PACKET * k }

  /** A tagged sync byte every 188 bytes from `p` on. */
  ghost predicate InSync(s: seq<byte>, p: nat) {
    forall k: nat :: Grid(p, k) < |s| ==> Tagged(s[Grid(p, k)])
  }

  function Steps(p: nat, m: nat): (r: seq<nat>)
    ensures |r| == m && forall k :: 0 <= k < m ==> r[k] == Grid(p, k)
  {
    seq(m, k requires 0 <= k < m => Grid(p, k))
  }

  lemma StepsJoin(p: nat, m: nat, n: nat)
    ensures Steps(p, m) + Steps(Grid(p, m), n) == Steps(p, m + n)
  {}

  lemma InSyncLater(s: seq<byte>, p: nat, m: nat)
    requires InSync(s, p)
    ensures InSync(s, Grid(p, m))
  {
    forall k: nat | Grid(Grid(p, m), k) < |s| ensures Tagged(s[Grid(Grid(p, m), k)]) {
      assert Grid(Grid(p, m), k) == Grid(p, m + k);
    }
  }

  lemma {:induction false} RowInSync(s: seq<byte>, p: nat)
    requires p <= |s| && InSync(s, p)
    ensures var m := (|s| - p) / PACKET; Row(s, p) == Steps(p, m) && RowEnd(s, p) == Grid(p, m)
    decreases |s| - p
  {
    var m := (|s| - p) / PACKET;
    if p + PACKET <= |s| {
      assert Tagged(s[Grid(p, 0)]);
      InSyncLater(s, p, 1);
      RowInSync(s, p + PACKET);
      StepsJoin(p, 1, m - 1);
      assert Steps(p, 1) == [p];
    }
  }

  lemma ScanInSync(s: seq<byte>, p: nat)
    requires p <= |s| && InSync(s, p)
    ensures var m := if |s| - p < SYNC_SIZE then 0 else (|s| - p) / PACKET;
            Scan(s, p) == (Steps(p, m), Grid(p, m))
  {
    ProbeInSync(s, p, 0);
    if |s| - p >= SYNC_SIZE {
      RowInSync(s, p);
      var e := RowEnd(s, p);
      assert e == |s| || ProbeFrom(s, e, 0) == More;
      assert Scan(s, e) == ([], e);
      assert Row(s, p) + [] == Row(s, p);
    } else {
      assert Steps(p, 0) == [];
    }
  }

  lemma {:induction false} ProbeInSync(s: seq<byte>, p: nat, i: nat)
    requires p <= |s| && InSync(s, p) && i <= SYNC_COUNT
    ensures ProbeFrom(s, p, i) == if |s| - p < SYNC_SIZE && i < SYNC_COUNT then More else Lock
    decreases SYNC_COUNT - i
  {
    if i < SYNC_COUNT && p + (i + 1) * PACKET <= |s| {
      assert Tagged(s[Grid(p, i)]);
      ProbeInSync(s, p, i + 1);
    }
  }

  lemma InSyncPrefix(s: seq<byte>, t: seq<byte>, p: nat)
    requires s <= t && InSync(t, p)
    ensures InSync(s, p)
  {
    forall k: nat | Grid(p, k) < |s| ensures Tagged(s[Grid(p, k)]) { assert Tagged(t[Grid(p, k)]); }
  }

  /** Each call takes whole packets from the front of the bytes at hand. */
  lemma HandleInSync(carry: seq<byte>, chunk: seq<byte>) returns (m: nat)
    requires |carry| < SYNC_SIZE && InSync(carry + chunk, 0)
    ensures Handle(carry, chunk) == (Steps(0, m), PACKET * m)
  {
    var all := carry + chunk;
    if carry == [] {
      assert all == chunk;
      ScanInSync(chunk, 0);
      m := if |chunk| < SYNC_SIZE then 0 else |chunk| / PACKET;
    } else if |all| < SYNC_SIZE {
      m := 0;
      assert Steps(0, 0) == [];
    } else {
      var filled := carry + chunk[..SYNC_SIZE - |carry|];
      assert filled <= all;
      InSyncPrefix(filled, all, 0);
      ScanInSync(filled, 0);
      InSyncLater(all, 0, SYNC_COUNT);
      ScanInSync(all, SYNC_SIZE);
      var n := if |all| - SYNC_SIZE < SYNC_SIZE then 0 else (|all| - SYNC_SIZE) / PACKET;
      StepsJoin(0, SYNC_COUNT, n);
      m := SYNC_COUNT + n;
    }
  }

  lemma InSyncStep(s: seq<byte>, k: nat, last: seq<byte>) returns (n: nat)
    requires PACKET * k <= |s| < PACKET * k + SYNC_SIZE && InSync(s + last, 0)
    ensures PACKET * (k + n) <= |s + last|
    ensures FeedNext(s, Steps(0, k), |s| - PACKET * k, last) == (Steps(0, k + n), |s + last| - PACKET * (k + n))
  {
    var base, all := PACKET * k, s + last;
    InSyncLater(all, 0, k);
    SuffixInSync(all, base);
    assert s[base..] + last == all[base..];
    n := HandleInSync(s[base..], last);
    StepsFollow(k, n);
  }

  lemma StepsFollow(k: nat, n: nat)
    ensures Steps(0, k) + Shift(Steps(0, n), PACKET * k) == Steps(0, k + n)
  {
    assert Shift(Steps(0, n), PACKET * k) == Steps(Grid(0, k), n);
    StepsJoin(0, k, n);
  }

  /** For a stream in sync, however it is cut: the packets taken are exactly the
      first ones of the stream, one after the other, and what follows them is
      carried; nothing is lost. */
  lemma {:induction false} FeedInSync(chunks: seq<seq<byte>>) returns (m: nat)
    requires InSync(Flat(chunks), 0)
    ensures Feed(chunks) == (Steps(0, m), |Flat(chunks)| - PACKET * m) && PACKET * m <= |Flat(chunks)|
    ensures |Flat(chunks)| - PACKET * m < SYNC_SIZE
  {
    FeedApart(chunks);
    if |chunks| == 0 {
      m := 0;
      assert Steps(0, 0) == [];
    } else {
      var before, last := chunks[..|chunks| - 1], chunks[|chunks| - 1];
      InSyncPrefix(Flat(before), Flat(chunks), 0);
      var k := FeedInSync(before);
      var n := InSyncStep(Flat(before), k, last);
      m := k + n;
    }
  }

  lemma SuffixInSync(s: seq<byte>, p: nat)
    requires p <= |s| && InSync(s, p)
    ensures InSync(s[p..], 0)
  {
    forall k: nat | Grid(0, k) < |s[p..]| ensures Tagged(s[p..][Grid(0, k)]) {
      assert s[p..][Grid(0, k)] == s[Grid(p, k)];
    }
  }

  /** Two ways of cutting the same stream deliver the same packets, except that one
      may be up to three packets behind the other. */
  lemma ChunkingDoesNotMatter(a: seq<seq<byte>>, b: seq<seq<byte>>)
    requires Flat(a) == Flat(b) && InSync(Flat(a), 0) && |Feed(a).0| <= |Feed(b).0|
    ensures Feed(a).0 <= Feed(b).0 && |Feed(b).0| <= |Feed(a).0| + 3
  {
    var m := FeedInSync(a);
    var n := FeedInSync(b);
    StepsCompare(m, n, |Flat(a)|);
  }

  lemma StepsCompare(m: nat, n: nat, length: nat)
    requires PACKET * m <= length < PACKET * m + SYNC_SIZE && PACKET * n <= length < PACKET * n + SYNC_SIZE
    requires m <= n
    ensures Steps(0, m) <= Steps(0, n) && n <= m + 3
  {}
}
