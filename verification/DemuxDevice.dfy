/** The stream handler of a device: buffers scanned and rewritten in place. */
module DemuxDevice {
  import opened Collections
  import opened Bytes
  import opened Demux
  import opened DemuxTheorems

  class StreamContext {
    const receivers: nat
    const remainBuf: array<byte>
    var remainLen: nat
    /** The packets handed to the receivers, in order. */
    var sink: seq<Delivery>

    ghost predicate Valid()
      reads this
    {
      remainBuf.Length == SYNC_SIZE && remainLen < SYNC_SIZE
    }

    ghost function Carry(): seq<byte>
      reads this, remainBuf
      requires Valid()
    {
      remainBuf[..remainLen]
    }

    constructor (receivers: nat)
      ensures Valid() && remainLen == 0 && sink == [] && this.receivers == receivers && fresh(remainBuf)
    {
      this.receivers := receivers;
      remainBuf := new byte[SYNC_SIZE];
      remainLen := 0;
      sink := [];
    }

    /** Looks for four sync bytes in a row; false with `more` set means too few bytes. */
    method FindRow(buf: array<byte>, p: nat, len: nat) returns (locked: bool, more: bool)
      requires p <= len <= buf.Length
      ensures ProbeFrom(buf[..len], p, 0) == if more then More else if locked then Lock else Miss
      ensures !(locked && more)
    {
      var i := 0;
      while i < SYNC_COUNT
        invariant 0 <= i <= SYNC_COUNT
        invariant ProbeFrom(buf[..len], p, 0) == ProbeFrom(buf[..len], p, i)
      {
        if p + (i + 1) * PACKET <= len {
          if !Tagged(buf[p + i * PACKET]) {
            return false, false;
          }
        } else {
          return false, true;
        }
        i := i + 1;
      }
      return true, false;
    }

    /** Hands on one packet, rewriting its sync byte in place. */
    method TakePacket(buf: array<byte>, p: nat, len: nat, ghost s: seq<byte>)
      requires p + PACKET <= len == |s| && len <= buf.Length && buf[p..len] == s[p..]
      modifies this`sink, buf
      ensures sink == old(sink) + Route(s, p, receivers)
      ensures buf[p + PACKET..len] == s[p + PACKET..]
    {
      assert buf[p] == buf[p..len][0] == s[p];
      assert buf[p..len][1..PACKET] == buf[p + 1..p + PACKET] == s[p + 1..p + PACKET];
      assert buf[p..len][PACKET..] == buf[p + PACKET..len] == s[p + PACKET..];
      var id := TagOf(buf[p]);
      if 1 <= id <= receivers {
        buf[p] := 0x47;
        assert buf[p..p + PACKET] == Piece(s, p);
        sink := sink + [Delivery(id - 1, buf[p..p + PACKET])];
        assert buf[p + PACKET..len] == s[p + PACKET..];
      }
    }

    /** Hands on the packets of a row. */
    method TakeRow(buf: array<byte>, start: nat, len: nat, ghost s: seq<byte>) returns (p: nat)
      requires start <= len == |s| && len <= buf.Length && buf[start..len] == s[start..]
      modifies this`sink, buf
      ensures p == RowEnd(s, start)
      ensures sink == old(sink) + RowOut(s, start, receivers)
      ensures buf[p..len] == s[p..]
    {
      ghost var end, goal := RowEnd(s, start), sink + RowOut(s, start, receivers);
      p := start;
      while len - p >= PACKET && Tagged(buf[p])
        invariant start <= p <= len
        invariant buf[p..len] == s[p..]
        invariant RowEnd(s, p) == end && sink + RowOut(s, p, receivers) == goal
      {
        assert buf[p] == buf[p..len][0] == s[p];
        RowOutNext(s, p, receivers, sink);
        TakePacket(buf, p, len, s);
        p := p + PACKET;
      }
      if p < len { assert buf[p] == buf[p..len][0] == s[p]; }
      RowStops(s, p, receivers, sink);
    }

    /** One buffer: everything a scan finds is handed on. */
    method Process(buf: array<byte>, start: nat, len: nat, ghost s: seq<byte>) returns (p: nat)
      requires start <= len == |s| && len <= buf.Length && buf[start..len] == s[start..]
      modifies this`sink, buf
      ensures p == Scan(s, start).1
      ensures sink == old(sink) + ScanOut(s, start, receivers)
      ensures buf[p..len] == s[p..]
    {
      ghost var goal := sink + ScanOut(s, start, receivers);
      p := start;
      while p < len
        invariant start <= p <= len
        invariant buf[p..len] == s[p..]
        invariant Scan(s, start).1 == Scan(s, p).1
        invariant sink + ScanOut(s, p, receivers) == goal
        decreases len - p
      {
        assert buf[..len][p..] == buf[p..len];
        SameProbe(buf[..len], s, p, 0);
        var locked, more := FindRow(buf, p, len);
        if more {
          break;
        }
        if !locked {
          assert buf[p..len][1..] == buf[p + 1..len];
          p := p + 1;
          continue;
        }
        LockMoves(s, p);
        ScanOutNext(s, p, receivers, sink);
        p := TakeRow(buf, p, len, s);
      }
      assert ScanOut(s, p, receivers) == [];
    }

    /** memcpy into the carry buffer. */
    method Keep(at: nat, data: seq<byte>)
      requires at + |data| <= remainBuf.Length
      modifies remainBuf
      ensures remainBuf[..at + |data|] == old(remainBuf[..at]) + data
    {
      for i := 0 to |data|
        invariant remainBuf[..at] == old(remainBuf[..at])
        invariant forall k :: 0 <= k < i ==> remainBuf[at + k] == data[k]
      {
        remainBuf[at + i] := data[i];
      }
      assert remainBuf[at..at + |data|] == data;
      assert remainBuf[..at + |data|] == remainBuf[..at] + remainBuf[at..at + |data|];
    }

    /** Completes the carried bytes to four packets' worth; returns how many bytes of
        the chunk that used up. */
    method UseCarry(buf: array<byte>, len: nat) returns (p: nat)
      requires Valid() && len <= buf.Length && buf != remainBuf
      requires 0 < remainLen && remainLen + len >= SYNC_SIZE
      modifies this`sink, this`remainLen, remainBuf
      ensures Valid() && remainLen == 0 && p <= len
      ensures var carry := old(Carry());
              var filled := Filled(carry, buf[..len]);
              && sink == old(sink) + ScanOut(filled, 0, receivers)
              && p == (if Scan(filled, 0).1 == SYNC_SIZE then SYNC_SIZE - |carry| else 0)
    {
      var t := SYNC_SIZE - remainLen;
      ghost var filled := Filled(Carry(), buf[..len]);
      assert buf[..len][..t] == buf[..t];
      Keep(remainLen, buf[..t]);
      assert remainBuf[0..SYNC_SIZE] == remainBuf[..SYNC_SIZE] == filled[0..];
      var q := Process(remainBuf, 0, SYNC_SIZE, filled);
      p := if q == SYNC_SIZE then t else 0;
      remainLen := 0;
    }

    /** The rest of the chunk; what is left of it becomes the carry. */
    method UseChunk(buf: array<byte>, from: nat, len: nat)
      requires Valid() && remainLen == 0 && from <= len <= buf.Length && buf != remainBuf
      modifies this`remainLen, this`sink, remainBuf, buf
      ensures Valid()
      ensures var chunk := old(buf[..len]);
              sink == old(sink) + ScanOut(chunk, from, receivers) && Carry() == chunk[Scan(chunk, from).1..]
    {
      ghost var chunk := buf[..len];
      ScanApart(chunk, from);
      assert buf[from..len] == chunk[from..];
      var p := Process(buf, from, len, chunk);
      if p < len {
        Keep(0, buf[p..len]);
        remainLen := len - p;
        assert remainBuf[..0] + chunk[p..] == chunk[p..];
      } else {
        assert chunk[p..] == [] == remainBuf[..0];
      }
    }

    /** One chunk from the bus. */
    method HandleChunk(buf: array<byte>, len: nat)
      requires Valid() && len <= buf.Length && buf != remainBuf
      modifies this`remainLen, this`sink, remainBuf, buf
      ensures Valid()
      ensures var carry, chunk := old(Carry()), old(buf[..len]);
              && sink == old(sink) + HandleOut(carry, chunk, receivers)
              && Carry() == (carry + chunk)[Handle(carry, chunk).1..]
    {
      ghost var carry, chunk, was := Carry(), buf[..len], sink;
      if remainLen > 0 {
        if remainLen + len >= SYNC_SIZE {
          var p := UseCarry(buf, len);
          HandleWithCarry(carry, chunk, p, receivers);
          Assoc(was, ScanOut(Filled(carry, chunk), 0, receivers), ScanOut(chunk, p, receivers));
          Behind(carry, chunk, Scan(chunk, p).1);
          UseChunk(buf, p, len);
        } else {
          HandleShort(carry, chunk, receivers);
          Keep(remainLen, buf[..len]);
          remainLen := remainLen + len;
        }
      } else {
        HandleNoCarry(chunk, receivers);
        Behind(carry, chunk, Scan(chunk, 0).1);
        UseChunk(buf, 0, len);
      }
    }
  }

  lemma Behind<T>(a: seq<T>, b: seq<T>, k: nat)
    requires k <= |b|
    ensures (a + b)[|a| + k..] == b[k..]
  {}

  lemma HandleShort(carry: seq<byte>, chunk: seq<byte>, receivers: nat)
    requires carry != [] && |carry| + |chunk| < SYNC_SIZE
    ensures HandleOut(carry, chunk, receivers) == [] && Handle(carry, chunk).1 == 0
  {}

  // ----- deliveries of a row, a scan, a call --------------------------------

  ghost function RowOut(s: seq<byte>, p: nat, receivers: nat): seq<Delivery>
    requires p <= |s|
  {
    RowApart(s, p);
    Deliver(s, Row(s, p), receivers)
  }

  ghost function ScanOut(s: seq<byte>, p: nat, receivers: nat): seq<Delivery>
    requires p <= |s|
  {
    ScanApart(s, p);
    Deliver(s, Scan(s, p).0, receivers)
  }

  /** Everything one call hands on. */
  ghost function HandleOut(carry: seq<byte>, chunk: seq<byte>, receivers: nat): seq<Delivery>
    requires |carry| < SYNC_SIZE
  {
    HandleApart(carry, chunk);
    Deliver(carry + chunk, Handle(carry, chunk).0, receivers)
  }

  lemma RowOutNext(s: seq<byte>, p: nat, receivers: nat, sink: seq<Delivery>)
    requires p + PACKET <= |s| && Tagged(s[p])
    ensures sink + RowOut(s, p, receivers) == (sink + Route(s, p, receivers)) + RowOut(s, p + PACKET, receivers)
    ensures RowEnd(s, p) == RowEnd(s, p + PACKET)
  {
    RowApart(s, p + PACKET);
    var rest := Row(s, p + PACKET);
    assert Row(s, p) == [p] + rest;
    DeliverJoin(s, [p], rest, receivers);
    DeliverOne(s, p, receivers);
    Assoc(sink, Route(s, p, receivers), Deliver(s, rest, receivers));
  }

  lemma RowStops(s: seq<byte>, p: nat, receivers: nat, sink: seq<Delivery>)
    requires p <= |s| && (p + PACKET > |s| || !Tagged(s[p]))
    ensures RowEnd(s, p) == p && sink + RowOut(s, p, receivers) == sink
  {
    assert RowOut(s, p, receivers) == [];
  }

  lemma ScanOutNext(s: seq<byte>, p: nat, receivers: nat, sink: seq<Delivery>)
    requires p < |s| && ProbeFrom(s, p, 0) == Lock
    ensures sink + ScanOut(s, p, receivers) ==
            (sink + RowOut(s, p, receivers)) + ScanOut(s, RowEnd(s, p), receivers)
  {
    LockMoves(s, p);
    RowApart(s, p);
    ScanApart(s, RowEnd(s, p));
    DeliverJoin(s, Row(s, p), Scan(s, RowEnd(s, p)).0, receivers);
    Assoc(sink, RowOut(s, p, receivers), ScanOut(s, RowEnd(s, p), receivers));
  }

  lemma {:induction false} DeliverPrefix(s: seq<byte>, t: seq<byte>, ps: seq<nat>, receivers: nat)
    requires s <= t && Within(ps, |s|)
    ensures Within(ps, |t|) && Deliver(s, ps, receivers) == Deliver(t, ps, receivers)
  {
    if |ps| > 0 {
      DeliverPrefix(s, t, ps[..|ps| - 1], receivers);
      var p := ps[|ps| - 1];
      assert s[p + 1..p + PACKET] == t[p + 1..p + PACKET];
    }
  }

  lemma RouteShift(a: seq<byte>, s: seq<byte>, p: nat, receivers: nat)
    requires p + PACKET <= |s|
    ensures Route(a + s, p + |a|, receivers) == Route(s, p, receivers)
  {
    var q := p + |a|;
    assert (a + s)[q + 1..q + PACKET] == s[p + 1..p + PACKET];
  }

  /** The same packets, found `|a|` bytes further on. */
  lemma {:induction false} DeliverBehind(a: seq<byte>, s: seq<byte>, ps: seq<nat>, qs: seq<nat>, receivers: nat)
    requires Within(ps, |s|) && Within(qs, |a + s|)
    requires |qs| == |ps| && forall k :: 0 <= k < |ps| ==> qs[k] == ps[k] + |a|
    ensures Deliver(a + s, qs, receivers) == Deliver(s, ps, receivers)
    decreases |ps|
  {
    if |ps| > 0 {
      var n := |ps| - 1;
      DeliverBehind(a, s, ps[..n], qs[..n], receivers);
      RouteShift(a, s, ps[n], receivers);
    }
  }

  lemma DeliverShift(a: seq<byte>, s: seq<byte>, ps: seq<nat>, receivers: nat)
    requires Within(ps, |s|)
    ensures Within(Shift(ps, |a|), |a + s|)
    ensures Deliver(a + s, Shift(ps, |a|), receivers) == Deliver(s, ps, receivers)
  {
    DeliverBehind(a, s, ps, Shift(ps, |a|), receivers);
  }

  lemma HandleNoCarry(chunk: seq<byte>, receivers: nat)
    ensures HandleOut([], chunk, receivers) == ScanOut(chunk, 0, receivers)
    ensures Handle([], chunk).1 == Scan(chunk, 0).1
  {
    assert [] + chunk == chunk;
  }

  ghost function Filled(carry: seq<byte>, chunk: seq<byte>): (r: seq<byte>)
    requires |carry| < SYNC_SIZE <= |carry| + |chunk|
    ensures |r| == SYNC_SIZE && r <= carry + chunk
  {
    carry + chunk[..SYNC_SIZE - |carry|]
  }

  /** A call with carried bytes is the scan of the completed carry and a scan of the
      rest of the chunk. */
  lemma HandleWithCarry(carry: seq<byte>, chunk: seq<byte>, from: nat, receivers: nat)
    requires carry != [] && |carry| < SYNC_SIZE <= |carry| + |chunk|
    requires from == if Scan(Filled(carry, chunk), 0).1 == SYNC_SIZE then SYNC_SIZE - |carry| else 0
    ensures HandleOut(carry, chunk, receivers) ==
            ScanOut(Filled(carry, chunk), 0, receivers) + ScanOut(chunk, from, receivers)
    ensures Handle(carry, chunk).1 == |carry| + Scan(chunk, from).1
  {
    HandlePositions(carry, chunk, from);
    ScanApart(chunk, from);
    ScanApart(Filled(carry, chunk), 0);
    DeliverBoth(carry, chunk, Filled(carry, chunk), Scan(Filled(carry, chunk), 0).0, Scan(chunk, from).0, receivers);
  }

  lemma HandlePositions(carry: seq<byte>, chunk: seq<byte>, from: nat)
    requires carry != [] && |carry| < SYNC_SIZE <= |carry| + |chunk|
    requires from == if Scan(Filled(carry, chunk), 0).1 == SYNC_SIZE then SYNC_SIZE - |carry| else 0
    ensures Handle(carry, chunk) ==
            (Scan(Filled(carry, chunk), 0).0 + Shift(Scan(chunk, from).0, |carry|), |carry| + Scan(chunk, from).1)
  {
    ScanShift(carry, chunk, from);
  }

  /** Deliveries from the completed carry and from the chunk, seen in one piece. */
  lemma DeliverBoth(carry: seq<byte>, chunk: seq<byte>, filled: seq<byte>, ps: seq<nat>, qs: seq<nat>, receivers: nat)
    requires filled <= carry + chunk && Within(ps, |filled|) && Within(qs, |chunk|)
    ensures Within(ps + Shift(qs, |carry|), |carry + chunk|)
    ensures Deliver(carry + chunk, ps + Shift(qs, |carry|), receivers) ==
            Deliver(filled, ps, receivers) + Deliver(chunk, qs, receivers)
  {
    DeliverShift(carry, chunk, qs, receivers);
    DeliverPrefix(filled, carry + chunk, ps, receivers);
    DeliverJoin(carry + chunk, ps, Shift(qs, |carry|), receivers);
  }

  /** A probe looks only at bytes from `p` on. */
  lemma {:induction false} SameProbe(a: seq<byte>, b: seq<byte>, p: nat, i: nat)
    requires |a| == |b| && p <= |a| && a[p..] == b[p..] && i <= SYNC_COUNT
    ensures ProbeFrom(a, p, i) == ProbeFrom(b, p, i)
    decreases SYNC_COUNT - i
  {
    if i < SYNC_COUNT && p + (i + 1) * PACKET <= |a| {
      assert a[p + i * PACKET] == a[p..][i * PACKET] == b[p + i * PACKET];
      SameProbe(a, b, p, i + 1);
    }
  }

  // ----- a whole stream -----------------------------------------------------

  /** Everything handed on for a sequence of chunks. */
  ghost function FeedOut(chunks: seq<seq<byte>>, receivers: nat): seq<Delivery> {
    FeedApart(chunks);
    Deliver(Flat(chunks), Feed(chunks).0, receivers)
  }

  /** One more chunk adds what its call hands on. */
  lemma FeedOutNext(s: seq<byte>, ps: seq<nat>, c: nat, last: seq<byte>, receivers: nat)
    requires c <= |s| && c < SYNC_SIZE && Within(ps, |s|)
    ensures var rs := FeedNext(s, ps, c, last).0;
            && Within(rs, |s + last|)
            && Deliver(s + last, rs, receivers)
            == Deliver(s, ps, receivers) + HandleOut(s[|s| - c..], last, receivers)
  {
    var base := |s| - c;
    var front, back := s[..base], s[base..] + last;
    var qs := Handle(s[base..], last).0;
    assert front + back == s + last;
    HandleApart(s[base..], last);
    DeliverShift(front, back, qs, receivers);
    DeliverPrefix(s, s + last, ps, receivers);
    DeliverJoin(s + last, ps, Shift(qs, base), receivers);
  }

  ghost function Kept(chunks: seq<seq<byte>>): seq<byte> {
    var s := Flat(chunks); s[|s| - Feed(chunks).1..]
  }

  /** What is known after `n` chunks: the stream so far, the packets, the carry. */
  ghost predicate Fed(chunks: seq<seq<byte>>, n: nat, s: seq<byte>, ps: seq<nat>, c: nat) {
    && n <= |chunks| && Flat(chunks[..n]) == s && Feed(chunks[..n]) == (ps, c)
    && c <= |s| && c < SYNC_SIZE && Within(ps, |s|)
  }

  lemma FedStarts(chunks: seq<seq<byte>>)
    ensures Fed(chunks, 0, [], [], 0)
  {
    assert chunks[..0] == [];
  }

  lemma FedNext(chunks: seq<seq<byte>>, n: nat, s: seq<byte>, ps: seq<nat>, c: nat)
    requires n < |chunks| && Fed(chunks, n, s, ps, c)
    ensures var (rs, d) := FeedNext(s, ps, c, chunks[n]);
            Fed(chunks, n + 1, s + chunks[n], rs, d)
  {
    assert chunks[..n + 1][..n] == chunks[..n];
    FeedApart(chunks[..n + 1]);
  }

  lemma FedEnds(chunks: seq<seq<byte>>, s: seq<byte>, ps: seq<nat>, c: nat, receivers: nat)
    requires Fed(chunks, |chunks|, s, ps, c)
    ensures FeedOut(chunks, receivers) == Deliver(s, ps, receivers) && Kept(chunks) == s[|s| - c..]
  {
    assert chunks[..|chunks|] == chunks;
  }

  /** A context that has seen the stream `s`. */
  ghost predicate Serves(ctx: StreamContext, receivers: nat, s: seq<byte>, ps: seq<nat>, c: nat)
    reads ctx, ctx.remainBuf
  {
    && ctx.Valid() && ctx.receivers == receivers && c <= |s| && Within(ps, |s|)
    && ctx.sink == Deliver(s, ps, receivers) && ctx.Carry() == s[|s| - c..]
  }

  /** One call on such a context. */
  method FeedChunk(ctx: StreamContext, chunk: seq<byte>, ghost receivers: nat,
                   ghost s: seq<byte>, ghost ps: seq<nat>, ghost c: nat, ghost rs: seq<nat>, ghost d: nat)
    requires Serves(ctx, receivers, s, ps, c) && c < SYNC_SIZE && (rs, d) == FeedNext(s, ps, c, chunk)
    modifies ctx, ctx.remainBuf
    ensures Serves(ctx, receivers, s + chunk, rs, d)
  {
    FeedOutNext(s, ps, c, chunk, receivers);
    Suffix(s, c, chunk, Handle(s[|s| - c..], chunk).1);
    var buf := new byte[|chunk|](i requires 0 <= i < |chunk| => chunk[i]);
    assert buf[..|chunk|] == chunk;
    ctx.HandleChunk(buf, |chunk|);
  }

  /** Feeding a stream chunk by chunk hands on exactly the packets that `Feed` names
      and keeps exactly the bytes behind them. */
  method FeedStream(chunks: seq<seq<byte>>, receivers: nat) returns (sink: seq<Delivery>, kept: seq<byte>)
    ensures sink == FeedOut(chunks, receivers) && kept == Kept(chunks)
  {
    var ctx := new StreamContext(receivers);
    ghost var s: seq<byte>, ps: seq<nat>, c: nat := [], [], 0;
    FedStarts(chunks);
    for n := 0 to |chunks|
      invariant fresh(ctx) && fresh(ctx.remainBuf)
      invariant Fed(chunks, n, s, ps, c) && Serves(ctx, receivers, s, ps, c)
    {
      FedNext(chunks, n, s, ps, c);
      ghost var (rs, d) := FeedNext(s, ps, c, chunks[n]);
      FeedChunk(ctx, chunks[n], receivers, s, ps, c, rs, d);
      s, ps, c := s + chunks[n], rs, d;
    }
    FedEnds(chunks, s, ps, c, receivers);
    sink, kept := ctx.sink, ctx.remainBuf[..ctx.remainLen];
  }

  lemma Suffix(s: seq<byte>, c: nat, chunk: seq<byte>, stop: nat)
    requires c <= |s| && stop <= c + |chunk|
    ensures (s[|s| - c..] + chunk)[stop..] == (s + chunk)[|s + chunk| - (c + |chunk| - stop)..]
  {}
}
