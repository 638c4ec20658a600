/** The chunk demultiplexer as functions on byte strings: where packets are found,
    where they go, and what is carried to the next chunk. */
module Demux {
  import opened Collections
  import opened Bytes

  const PACKET: nat := 188
  const SYNC_COUNT: nat := 4
  const SYNC_SIZE: nat := PACKET * SYNC_COUNT

  /** A sync byte whose upper bits name the receiver. */
  predicate Tagged(b: byte) { b / 128 == 0 && b % 16 == 7 }
  function TagOf(b: byte): nat { b / 16 % 8 }

  // ----- scanning one buffer ------------------------------------------------

  datatype Probe = More | Miss | Lock

  /** Looks for sync bytes `i`, `i + 1`, ... of a run of four that starts at `p`. */
  function ProbeFrom(s: seq<byte>, p: nat, i: nat): Probe
    requires p <= |s| && i <= SYNC_COUNT
    decreases SYNC_COUNT - i
  {
    if i == SYNC_COUNT then Lock
    else if p + (i + 1) * PACKET > |s| then More
    else if !Tagged(s[p + i * PACKET]) then Miss
    else ProbeFrom(s, p, i + 1)
  }

  /** The packets taken in a row from `p` on, and where the row ends. */
  function Row(s: seq<byte>, p: nat): (r: seq<nat>)
    requires p <= |s|
    decreases |s| - p
  {
    if p + PACKET <= |s| && Tagged(s[p]) then [p] + Row(s, p + PACKET) else []
  }

  function RowEnd(s: seq<byte>, p: nat): (q: nat)
    requires p <= |s|
    ensures p <= q <= |s|
    decreases |s| - p
  {
    if p + PACKET <= |s| && Tagged(s[p]) then RowEnd(s, p + PACKET) else p
  }

  lemma LockMoves(s: seq<byte>, p: nat)
    requires p <= |s| && ProbeFrom(s, p, 0) == Lock
    ensures p + SYNC_SIZE <= |s| && forall i :: 0 <= i < SYNC_COUNT ==> Tagged(s[p + i * PACKET])
    ensures RowEnd(s, p) > p
  {
    assert ProbeFrom(s, p, 1) == Lock && ProbeFrom(s, p, 2) == Lock && ProbeFrom(s, p, 3) == Lock;
  }

  /** Positions of the packets taken from `s[p..]`, and where scanning stops. */
  function Scan(s: seq<byte>, p: nat): (r: (seq<nat>, nat))
    requires p <= |s|
    ensures p <= r.1 <= |s|
    decreases |s| - p
  {
    if p == |s| then ([], p)
    else match ProbeFrom(s, p, 0)
      case More => ([], p)
      case Miss => Scan(s, p + 1)
      case Lock =>
        LockMoves(s, p);
        var (rest, end) := Scan(s, RowEnd(s, p));
        (Row(s, p) + rest, end)
  }

  // ----- delivery -----------------------------------------------------------

  datatype Delivery = Delivery(receiver: nat, packet: seq<byte>)

  /** Tag 0 and tags above the number of receivers are skipped. */
  predicate Routed(tag: nat, receivers: nat) { 1 <= tag <= receivers }

  function Piece(s: seq<byte>, p: nat): (r: seq<byte>)
    requires p + PACKET <= |s|
    ensures |r| == PACKET
  {
    [0x47] + s[p + 1..p + PACKET]
  }

  /** What the packet at `p` becomes. */
  function Route(s: seq<byte>, p: nat, receivers: nat): (r: seq<Delivery>)
    requires p + PACKET <= |s|
  {
    if Routed(TagOf(s[p]), receivers) then [Delivery(TagOf(s[p]) - 1, Piece(s, p))] else []
  }

  ghost predicate Within(ps: seq<nat>, n: nat) { forall k :: 0 <= k < |ps| ==> ps[k] + PACKET <= n }

  /** What the packets at the given positions become. */
  function Deliver(s: seq<byte>, ps: seq<nat>, receivers: nat): (r: seq<Delivery>)
    requires Within(ps, |s|)
  {
    if |ps| == 0 then []
    else Deliver(s, ps[..|ps| - 1], receivers) + Route(s, ps[|ps| - 1], receivers)
  }

  lemma DeliverSnoc(s: seq<byte>, ps: seq<nat>, p: nat, receivers: nat)
    requires Within(ps, |s|) && p + PACKET <= |s|
    ensures Within(ps + [p], |s|)
    ensures Deliver(s, ps + [p], receivers) == Deliver(s, ps, receivers) + Route(s, p, receivers)
  {
    assert (ps + [p])[..|ps|] == ps;
  }

  lemma {:induction false} DeliverJoin(s: seq<byte>, ps: seq<nat>, qs: seq<nat>, receivers: nat)
    requires Within(ps, |s|) && Within(qs, |s|)
    ensures Within(ps + qs, |s|)
    ensures Deliver(s, ps + qs, receivers) == Deliver(s, ps, receivers) + Deliver(s, qs, receivers)
  {
    if |qs| == 0 {
      assert ps + qs == ps;
    } else {
      var rs, q := qs[..|qs| - 1], qs[|qs| - 1];
      assert qs == rs + [q];
      DeliverJoin(s, ps, rs, receivers);
      DeliverSnoc(s, rs, q, receivers);
      DeliverSnoc(s, ps + rs, q, receivers);
      Assoc(ps, rs, [q]);
      Assoc(Deliver(s, ps, receivers), Deliver(s, rs, receivers), Route(s, q, receivers));
    }
  }

  lemma DeliverOne(s: seq<byte>, p: nat, receivers: nat)
    requires p + PACKET <= |s|
    ensures Deliver(s, [p], receivers) == Route(s, p, receivers)
  {
    assert [p][..0] == [];
    assert Deliver(s, [p][..0], receivers) == [];
  }

  // ----- one chunk ----------------------------------------------------------

  /** Where the packets of one call lie, counted from the first carried byte, and
      how many of the bytes at hand are dropped or taken; the rest is carried. */
  function Handle(carry: seq<byte>, chunk: seq<byte>): (r: (seq<nat>, nat))
    ensures r.1 <= |carry| + |chunk|
  {
    if carry == [] then Scan(chunk, 0)
    else if |carry| + |chunk| < SYNC_SIZE then ([], 0)
    else if |carry| > SYNC_SIZE then ([], 0)
    else
      var filled := carry + chunk[..SYNC_SIZE - |carry|];
      var (ps, end) := Scan(filled, 0);
      // either the carried bytes open a run of four, or they are given up
      var from := if end == SYNC_SIZE then SYNC_SIZE else |carry|;
      var (qs, stop) := Scan(carry + chunk, from);
      (ps + qs, stop)
  }
}
