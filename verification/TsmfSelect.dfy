/** The filter object fed with a whole recording. */
module TsmfSelect {
  import opened Bytes
  import opened TsmfPacket
  import opened TsmfSelector
  import opened TsmfOffline
  import TsmfFilter
  import TsmfTheorems
  import Transducer

  ghost function Events(packets: seq<Packet>): (es: seq<Event>)
    ensures |es| == |packets|
  {
    if |packets| == 0 then [] else Events(packets[..|packets| - 1]) + [EventOf(packets[|packets| - 1])]
  }

  /** One call, with the emitted bytes copied out of the filter's buffer. */
  method Feed(filter: TsmfFilter.Filter, packet: Packet) returns (o: seq<byte>)
    requires filter.Valid()
    modifies filter, filter.slotStream, filter.frame, filter.tlvBuf, filter.tlvOut
    ensures filter.Valid() && filter.Cfg() == old(filter.Cfg())
    ensures (filter.Abs(), o) == Step(old(filter.Cfg()), old(filter.Abs()), EventOf(packet))
  {
    ghost var r := Step(filter.Cfg(), filter.Abs(), EventOf(packet));
    var out, size := filter.FilterPacket(packet);
    filter.AbsIs(r.0);
    o := if size > 0 then out[..size] else [];
  }

  /** Tuning in and feeding every packet yields the offline reading. */
  method Select(index: int, discard: bool, stale: nat, packets: seq<Packet>) returns (total: seq<byte>)
    ensures total == Offline(Config(index, discard, stale), Drop(Events(packets), stale))
  {
    var filter := new TsmfFilter.Filter(index, discard, stale);
    ghost var cfg := Config(index, discard, stale);
    ghost var slots := filter.slotStream[..];
    ghost var s0 := Init(cfg, slots);
    filter.AbsIs(s0);
    total := [];
    for n := 0 to |packets|
      invariant fresh(filter) && fresh(filter.slotStream) && fresh(filter.frame)
      invariant fresh(filter.tlvBuf) && fresh(filter.tlvOut)
      invariant filter.Valid() && filter.Cfg() == cfg
      invariant Run(cfg, s0, Events(packets[..n])) == (filter.Abs(), total)
    {
      var packet := packets[n];
      assert packets[..n + 1][..n] == packets[..n];
      Transducer.RunSnoc(StepOf(cfg), s0, Events(packets[..n]), EventOf(packet));
      var o := Feed(filter, packet);
      total := total + o;
    }
    assert packets[..|packets|] == packets;
    TsmfTheorems.SelectorIsOffline(cfg, slots, Events(packets));
  }
}
