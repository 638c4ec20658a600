/** What the selector promises for every sequence of events. */
module TsmfTheorems {
  import opened Bytes
  import opened TsmfPacket
  import opened TsmfSelector
  import opened TsmfOffline
  import opened TsmfRefinement
  import Transducer

  ghost function Fresh(cfg: Config, slots: Slots, skip: nat): State { Init(cfg, slots).(skip := skip) }

  lemma StepTracks(cfg: Config, es: seq<Event>, n: nat, s: State)
    requires n < |es| && Inv(cfg, es, n, s)
    ensures StepOk(cfg, es, n, s)
  {
    if LastHeader(es, n) < 0 {
      if HeaderAt(es, n) { FirstHeaderStep(cfg, es, n, s); } else { SearchStep(cfg, es, n, s); }
    } else if es[n].Resync? {
      ResyncStep(cfg, es, n, s);
    } else if HeaderAt(es, n) {
      if s.slot == SLOT_NUM { FullHeaderStep(cfg, es, n, s); } else { EarlyHeaderStep(cfg, es, n, s); }
    } else if s.slot < 0 {
      LostStep(cfg, es, n, s);
    } else if s.slot < SLOT_NUM {
      SlotStep(cfg, es, n, s);
    } else if Closes(es[n]) {
      DamagedHeaderStep(cfg, es, n, s);
    } else {
      StrayStep(cfg, es, n, s);
    }
  }

  lemma RunStarts(cfg: Config, slots: Slots, es: seq<Event>)
    ensures Inv(cfg, es, 0, Fresh(cfg, slots, 0)) && OutputAt(cfg, es, 0) == []
  {
    assert es[..0] == [];
    NothingPassed(cfg, es[..0], DETECT_PACKETS - 1);
  }

  lemma NothingPassed(cfg: Config, none: seq<Event>, k: nat)
    requires none == []
    ensures PassOut(cfg, Drop(none, k)) == [] && PassHeld(cfg, Drop(none, k)) == [] && Packets(none) == 0
  {
    assert Drop(none, k) == none && FirstResync(none) == 0 && none[..0] == none;
    assert Kept(cfg, none) == [];
    assert Whole(Kept(cfg, none)) == [] == Partial(Kept(cfg, none));
  }

  /** After every event the selector stands where the reading says. */
  lemma RunTracks(cfg: Config, slots: Slots, es: seq<Event>, n: nat)
    requires n <= |es|
    ensures var (s, out) := Run(cfg, Fresh(cfg, slots, 0), es[..n]);
            Inv(cfg, es, n, s) && out == OutputAt(cfg, es, n)
  {
    var inv := (k: nat, s: State, out: seq<byte>) => k <= |es| && Inv(cfg, es, k, s) && out == OutputAt(cfg, es, k);
    RunStarts(cfg, slots, es);
    forall k: nat, s, out | k < |es| && inv(k, s, out)
      ensures inv(k + 1, StepOf(cfg)(s, es[k]).0, out + StepOf(cfg)(s, es[k]).1)
    {
      TracksNext(cfg, es, k, s, out);
    }
    Transducer.RunInvariant(StepOf(cfg), Fresh(cfg, slots, 0), es, n, inv);
  }

  lemma TracksNext(cfg: Config, es: seq<Event>, n: nat, s: State, out: seq<byte>)
    requires n < |es| && Inv(cfg, es, n, s) && out == OutputAt(cfg, es, n)
    ensures var (t, o) := Step(cfg, s, es[n]);
            Inv(cfg, es, n + 1, t) && out + o == OutputAt(cfg, es, n + 1)
  {
    StepTracks(cfg, es, n, s);
  }

  /** Frames still open at the end contribute nothing. */
  lemma {:induction false} OpenFrames(cfg: Config, es: seq<Event>, m: nat, n: nat)
    requires m <= n && |es| <= m + SLOT_NUM + 1
    ensures Frames(cfg, es, n) == Frames(cfg, es, m)
  {
    if m < n {
      OpenFrames(cfg, es, m, n - 1);
      assert !Complete(es, n - 1);
    }
  }

  lemma ReadingAtEnd(cfg: Config, es: seq<Event>)
    ensures OutputAt(cfg, es, |es|) == Offline(cfg, es)
  {
    var n := |es|;
    OpenFrames(cfg, es, Closed(n), n);
    if LastHeader(es, n) < 0 {
      assert FirstHeader(es) == n;
      NoFramesYet(cfg, es, n, n);
      var p := Passed(cfg, es[..n]);
      assert p + [] == p;
    }
  }

  // ----- stale packets ------------------------------------------------------

  lemma FreshSkips(cfg: Config, slots: Slots, k: nat, e: Event)
    requires k > 0
    ensures Step(cfg, Fresh(cfg, slots, k), e) == (Fresh(cfg, slots, if e.Arrive? then k - 1 else k), [])
  {}

  /** Stale packets only count down. */
  lemma {:induction false} StaleRun(cfg: Config, slots: Slots, k: nat, es: seq<Event>)
    ensures var (s, out) := Run(cfg, Fresh(cfg, slots, k), es);
            var (t, o) := Run(cfg, Fresh(cfg, slots, 0), Drop(es, k));
            && out == o
            && s == (if Packets(es) < k then Fresh(cfg, slots, k - Packets(es)) else t)
            && (Packets(es) < k ==> Drop(es, k) == [])
  {
    if k > 0 && |es| > 0 {
      var e, rest := es[0], es[1..];
      FreshSkips(cfg, slots, k, e);
      var j := if e.Arrive? then k - 1 else k;
      StaleRun(cfg, slots, j, rest);
      assert [e] + rest == es;
      OneStep(cfg, slots, k, e);
      Transducer.RunSplit(StepOf(cfg), Fresh(cfg, slots, k), [e], rest);
    }
  }

  lemma OneStep(cfg: Config, slots: Slots, k: nat, e: Event)
    requires k > 0
    ensures Transducer.Run(StepOf(cfg), Fresh(cfg, slots, k), [e]) ==
            (Fresh(cfg, slots, if e.Arrive? then k - 1 else k), [])
  {
    FreshSkips(cfg, slots, k, e);
    var none: seq<Event>, silent: seq<byte> := [], [];
    Transducer.RunSnoc(StepOf(cfg), Fresh(cfg, slots, k), none, e);
    assert none + [e] == [e] && silent + silent == silent;
  }

  // ----- main results -------------------------------------------------------

  /** Main theorem: whatever arrives, the selector's total output is the offline
      reading of what arrived after the stale packets. */
  lemma SelectorIsOffline(cfg: Config, slots: Slots, es: seq<Event>)
    ensures Run(cfg, Init(cfg, slots), es).1 == Offline(cfg, Drop(es, cfg.stale))
  {
    var rest := Drop(es, cfg.stale);
    StaleRun(cfg, slots, cfg.stale, es);
    RunTracks(cfg, slots, rest, |rest|);
    assert rest[..|rest|] == rest;
    ReadingAtEnd(cfg, rest);
  }

  /** The filter is still searching exactly as long as no header and fewer than
      424 packets have come since the stale ones; so it leaves that state within
      stale + 424 packets and never returns. */
  lemma SearchingExactly(cfg: Config, slots: Slots, es: seq<Event>)
    ensures var rest := Drop(es, cfg.stale);
            StatusOf(Run(cfg, Init(cfg, slots), es).0) == Searching <==>
            Packets(rest) < DETECT_PACKETS && forall i :: 0 <= i < |rest| ==> !HeaderAt(rest, i)
  {
    var rest := Drop(es, cfg.stale);
    StaleRun(cfg, slots, cfg.stale, es);
    if Packets(es) >= cfg.stale {
      RunTracks(cfg, slots, rest, |rest|);
      assert rest[..|rest|] == rest;
      if LastHeader(rest, |rest|) >= 0 { assert HeaderAt(rest, LastHeader(rest, |rest|)); }
    }
  }

  /** The recording's own answer: with a header, whether the last one has the pinned
      stream as a valid one; without, whether enough packets have come to give up, and
      only stream 0 is then found. */
  ghost function Standing(cfg: Config, es: seq<Event>): Status {
    var h := LastHeader(es, |es|);
    if h >= 0 then (if StreamAt(cfg, es, h) >= 0 then Found else NotFound)
    else if Packets(es) < DETECT_PACKETS then Searching
    else if cfg.streamIndex == 0 then Found
    else NotFound
  }

  /** What the filter reports is what the recording says. */
  lemma StatusExactly(cfg: Config, slots: Slots, es: seq<Event>)
    ensures StatusOf(Run(cfg, Init(cfg, slots), es).0) == Standing(cfg, Drop(es, cfg.stale))
  {
    var rest := Drop(es, cfg.stale);
    StaleRun(cfg, slots, cfg.stale, es);
    if Packets(es) >= cfg.stale {
      RunTracks(cfg, slots, rest, |rest|);
      assert rest[..|rest|] == rest;
    }
  }

  /** Leaving is for good: more events keep the condition false. */
  lemma SearchingEnds(cfg: Config, slots: Slots, a: seq<Event>, b: seq<Event>)
    requires StatusOf(Run(cfg, Init(cfg, slots), a).0) != Searching
    ensures StatusOf(Run(cfg, Init(cfg, slots), a + b).0) != Searching
  {
    SearchingExactly(cfg, slots, a);
    SearchingExactly(cfg, slots, a + b);
    DropAdd(a, b, cfg.stale);
    var x, y := Drop(a, cfg.stale), Drop(a + b, cfg.stale);
    if i :| 0 <= i < |x| && HeaderAt(x, i) {
      assert Drop(a, cfg.stale) != [];
      assert HeaderAt(y, i);
    } else {
      PacketsAdd(x, b);
    }
  }

  lemma {:induction false} DropAdd(a: seq<Event>, b: seq<Event>, k: nat)
    ensures Drop(a, k) != [] ==> Drop(a + b, k) == Drop(a, k) + b
  {
    if k > 0 && |a| > 0 {
      DropAdd(a[1..], b, if a[0].Arrive? then k - 1 else k);
      assert (a + b)[1..] == a[1..] + b;
    }
  }

  lemma {:induction false} PacketsAdd(a: seq<Event>, b: seq<Event>)
    ensures Packets(a + b) == Packets(a) + Packets(b)
  {
    if |a| == 0 {
      assert a + b == b;
    } else {
      PacketsAdd(a[1..], b);
      assert (a + b)[1..] == a[1..] + b;
    }
  }

  /** The pinned number was chosen by some header as the valid stream with exactly
      `streamIndex` valid streams before it, no earlier header could choose, and
      no later event changes it. */
  lemma {:induction false} PinnedForGood(cfg: Config, es: seq<Event>, n: nat)
    requires n <= |es|
    ensures Pinned(cfg, es, n) < 0 <==>
            forall i: nat, r: nat :: i < n && HeaderAt(es, i) ==> !Resolves(es[i].packet, cfg.streamIndex, r)
    ensures Pinned(cfg, es, n) >= 0 ==>
            exists i: nat :: i < n && HeaderAt(es, i) && Pinned(cfg, es, i) < 0 &&
              Resolves(es[i].packet, cfg.streamIndex, Pinned(cfg, es, n))
    ensures forall m: nat :: m <= n && Pinned(cfg, es, m) >= 0 ==> Pinned(cfg, es, m) == Pinned(cfg, es, n)
  {
    if n > 0 {
      PinnedForGood(cfg, es, n - 1);
      if Pinned(cfg, es, n - 1) < 0 && Pinned(cfg, es, n) >= 0 {
        assert HeaderAt(es, n - 1) && Resolves(es[n - 1].packet, cfg.streamIndex, Pinned(cfg, es, n));
      }
    }
  }

  /** The run's own record of the pinned number is that one. */
  lemma RelativeIsPinned(cfg: Config, slots: Slots, es: seq<Event>)
    ensures var rest := Drop(es, cfg.stale);
            Run(cfg, Init(cfg, slots), es).0.relative == Pinned(cfg, rest, |rest|)
  {
    var rest := Drop(es, cfg.stale);
    StaleRun(cfg, slots, cfg.stale, es);
    if Packets(es) >= cfg.stale {
      RunTracks(cfg, slots, rest, |rest|);
      assert rest[..|rest|] == rest;
      if LastHeader(rest, |rest|) < 0 { NoHeaderNothing(cfg, rest, |rest|); }
    }
  }

  // ----- TLV that turned out to be MPEG-2 -----------------------------------

  /** Some complete frame typed as TLV carried something else. */
  ghost predicate SawMpeg(cfg: Config, es: seq<Event>) { exists j :: Unmasks(cfg, es, j) }

  /** The filter's own verdict says exactly that. */
  lemma RejectedExactly(cfg: Config, slots: Slots, es: seq<Event>)
    ensures var rest := Drop(es, cfg.stale);
            Run(cfg, Init(cfg, slots), es).0.tlvRejected <==> SawMpeg(cfg, rest)
  {
    var rest := Drop(es, cfg.stale);
    StaleRun(cfg, slots, cfg.stale, es);
    if Packets(es) >= cfg.stale {
      RunTracks(cfg, slots, rest, |rest|);
      assert rest[..|rest|] == rest;
      if LastHeader(rest, |rest|) < 0 { NoHeaderNothing(cfg, rest, |rest|); }
      assert forall j :: Unmasks(cfg, rest, j) ==> HeaderAt(rest, j) && j + SLOT_NUM + 1 < |rest|;
    }
  }

  /** The packets that may still be handed on; a frame is dead once its slots are lost. */
  function Live(s: State): seq<Packet> { if s.slot >= 0 || !s.headerFound then s.frame else [] }

  /** After the verdict: no TLV, no pass-through. */
  predicate Sealed(s: State) { s.tlvRejected && !s.outputTlv && s.headerFound && !s.passthrough }

  /** How a step may change the packets at hand. */
  predicate LiveMoves(s: State, e: Event, t: State) {
    || Live(t) == Live(s) || Live(t) == []
    || (e.Arrive? && Live(t) == Live(s) + [e.packet])
  }

  lemma LiveHeader(cfg: Config, s: State, e: Event)
    requires e.Arrive? && e.header && s.skip == 0
    ensures Live(OnHeader(cfg, s, e).0) == []
  {}

  lemma LivePacket(cfg: Config, s: State, e: Event)
    requires e.Arrive? && !e.header && s.skip == 0
    ensures LiveMoves(s, e, OnPacket(cfg, s, e).0)
  {
    var t := TsmfSelector.Detect(cfg, s);
    assert Live(t) == Live(s);
    if !t.passthrough { LiveSlot(cfg, t, e.packet); } else { LivePassing(cfg, t, e.packet); }
  }

  lemma LiveSlot(cfg: Config, s: State, p: Packet)
    requires !s.passthrough
    ensures LiveMoves(s, Arrive(p, false), OnSlot(cfg, s, p).0)
  {}

  lemma LivePassing(cfg: Config, s: State, p: Packet)
    ensures LiveMoves(s, Arrive(p, false), Passthrough(cfg, s, p).0)
  {}

  lemma LiveStep(cfg: Config, s: State, e: Event)
    ensures LiveMoves(s, e, Step(cfg, s, e).0)
  {
    if e.Arrive? && s.skip == 0 {
      if e.header { LiveHeader(cfg, s, e); } else { LivePacket(cfg, s, e); }
    }
  }

  /** A verdict and TLV output exclude each other. */
  predicate Consistent(s: State) { s.tlvRejected ==> Sealed(s) }

  lemma SealedHeader(cfg: Config, s: State, e: Event)
    requires Sealed(s) && e.Arrive? && e.header && s.skip == 0
    ensures var (t, out) := OnHeader(cfg, s, e);
            Sealed(t) && (out == [] || out == Flatten(Live(s)))
  {}

  lemma SealedPacket(cfg: Config, s: State, e: Event)
    requires Sealed(s) && e.Arrive? && !e.header && s.skip == 0
    ensures var (t, out) := OnPacket(cfg, s, e);
            Sealed(t) && (out == [] || (out == Flatten(Live(s)) && Live(t) == []))
  {
    assert TsmfSelector.Detect(cfg, s) == s;
  }

  /** After the verdict a step hands on the frame at hand, as packets, or nothing. */
  lemma SealedStep(cfg: Config, s: State, e: Event)
    requires Sealed(s)
    ensures var (t, out) := Step(cfg, s, e);
            Sealed(t) && (out == [] || (out == Flatten(Live(s)) && Live(t) == []))
  {
    if e.Arrive? && s.skip == 0 {
      if e.header { SealedHeader(cfg, s, e); LiveHeader(cfg, s, e); } else { SealedPacket(cfg, s, e); }
    }
  }

  // ----- where packets come from --------------------------------------------

  /** The packets arrived in this order, at these positions. */
  ghost predicate Arrived(es: seq<Event>, at: seq<nat>, ps: seq<Packet>) {
    && |at| == |ps|
    && (forall k :: 0 <= k < |at| ==> at[k] < |es| && es[at[k]].Arrive? && es[at[k]].packet == ps[k])
    && (forall j, k :: 0 <= j < k < |at| ==> at[j] < at[k])
  }

  lemma ArrivedMore(es: seq<Event>, more: seq<Event>, at: seq<nat>, ps: seq<Packet>)
    requires Arrived(es, at, ps)
    ensures Arrived(es + more, at, ps)
  {}

  lemma ArrivedNext(es: seq<Event>, e: Event, at: seq<nat>, ps: seq<Packet>)
    requires Arrived(es, at, ps) && e.Arrive?
    ensures Arrived(es + [e], at + [|es|], ps + [e.packet])
  {}

  lemma ArrivedPart(es: seq<Event>, at: seq<nat>, ps: seq<Packet>, n: nat)
    requires Arrived(es, at, ps) && n <= |ps|
    ensures Arrived(es, at[..n], ps[..n])
  {}

  /** One more event: what was handed on, and then what is at hand. */
  lemma LiveArrives(es: seq<Event>, e: Event, at: seq<nat>, ps: seq<Packet>, s: State, t: State) returns (ns: seq<nat>)
    requires Arrived(es, at, ps + Live(s)) && LiveMoves(s, e, t)
    ensures Arrived(es + [e], ns, ps + Live(t))
  {
    if Live(t) == Live(s) {
      ns := at;
      ArrivedMore(es, [e], at, ps + Live(s));
    } else if Live(t) == [] {
      ns := at[..|ps|];
      ArrivedPart(es, at, ps + Live(s), |ps|);
      ArrivedMore(es, [e], ns, ps);
      assert (ps + Live(s))[..|ps|] == ps == ps + [];
    } else {
      ns := at + [|es|];
      ArrivedNext(es, e, at, ps + Live(s));
      assert (ps + Live(s)) + [e.packet] == ps + Live(t);
    }
  }

  ghost predicate LiveArrived(es: seq<Event>, n: nat, s: State) {
    n <= |es| && exists at :: Arrived(es[..n], at, Live(s))
  }

  lemma LiveArrivedNext(cfg: Config, es: seq<Event>, n: nat, s: State)
    requires n < |es| && LiveArrived(es, n, s)
    ensures LiveArrived(es, n + 1, Step(cfg, s, es[n]).0)
  {
    var at :| Arrived(es[..n], at, Live(s));
    LiveStep(cfg, s, es[n]);
    assert [] + Live(s) == Live(s) && es[..n] + [es[n]] == es[..n + 1];
    var t := Step(cfg, s, es[n]).0;
    var ns := LiveArrives(es[..n], es[n], at, [], s, t);
    assert [] + Live(t) == Live(t);
  }

  /** At any time the packets at hand arrived one after the other. */
  lemma TrackLive(cfg: Config, slots: Slots, es: seq<Event>) returns (at: seq<nat>)
    ensures Arrived(es, at, Live(Run(cfg, Init(cfg, slots), es).0))
  {
    var inv := (k: nat, s: State, out: seq<byte>) => LiveArrived(es, k, s);
    assert Arrived(es[..0], [], Live(Init(cfg, slots)));
    forall k: nat, s, out | k < |es| && inv(k, s, out)
      ensures inv(k + 1, StepOf(cfg)(s, es[k]).0, out + StepOf(cfg)(s, es[k]).1)
    {
      LiveArrivedNext(cfg, es, k, s);
    }
    Transducer.RunInvariant(StepOf(cfg), Init(cfg, slots), es, |es|, inv);
    assert es[..|es|] == es;
    at :| Arrived(es, at, Live(Run(cfg, Init(cfg, slots), es).0));
  }

  /** One more event after the verdict. */
  lemma SealedNext(cfg: Config, es: seq<Event>, e: Event, s: State, at: seq<nat>, ps: seq<Packet>)
    returns (ns: seq<nat>, qs: seq<Packet>)
    requires Sealed(s) && Arrived(es, at, ps + Live(s))
    ensures var (t, out) := Step(cfg, s, e);
            Flatten(qs) == Flatten(ps) + out && Arrived(es + [e], ns, qs + Live(t))
  {
    var (t, out) := Step(cfg, s, e);
    SealedStep(cfg, s, e);
    if out == [] {
      LiveStep(cfg, s, e);
      qs := ps;
      ns := LiveArrives(es, e, at, ps, s, t);
    } else {
      qs, ns := ps + Live(s), at;
      FlattenAdd(ps, Live(s));
      ArrivedMore(es, [e], at, qs);
      assert qs + [] == qs;
    }
  }

  lemma {:induction false} SealedRun(cfg: Config, a: seq<Event>, s: State, b: seq<Event>, was: seq<nat>)
    returns (at: seq<nat>, ps: seq<Packet>)
    requires Sealed(s) && Arrived(a, was, Live(s))
    ensures var (t, out) := Run(cfg, s, b);
            Sealed(t) && out == Flatten(ps) && Arrived(a + b, at, ps + Live(t))
    decreases |b|
  {
    if |b| == 0 {
      at, ps := was, [];
      assert a + b == a && [] + Live(s) == Live(s);
    } else {
      var n := |b| - 1;
      var before, qs := SealedRun(cfg, a, s, b[..n], was);
      var t := Run(cfg, s, b[..n]).0;
      SealedStep(cfg, t, b[n]);
      at, ps := SealedNext(cfg, a + b[..n], b[n], t, before, qs);
      assert (a + b[..n]) + [b[n]] == a + b;
    }
  }

  lemma VerdictSeals(cfg: Config, slots: Slots, es: seq<Event>)
    requires SawMpeg(cfg, Drop(es, cfg.stale))
    ensures Sealed(Run(cfg, Init(cfg, slots), es).0)
  {
    RejectedExactly(cfg, slots, es);
    ConsistentRun(cfg, slots, es);
  }

  lemma ConsistentStep(cfg: Config, s: State, e: Event)
    requires Consistent(s) && (s.slot >= 0 ==> s.headerFound && !s.passthrough)
    ensures var t := Step(cfg, s, e).0;
            Consistent(t) && (t.slot >= 0 ==> t.headerFound && !t.passthrough)
  {
    if s.tlvRejected {
      SealedStep(cfg, s, e);
    } else if e.Arrive? && s.skip == 0 && !e.header {
      ConsistentPacket(cfg, s, e);
    }
  }

  lemma ConsistentPacket(cfg: Config, s: State, e: Event)
    requires !s.tlvRejected && e.Arrive? && !e.header && s.skip == 0
    requires s.slot >= 0 ==> s.headerFound && !s.passthrough
    ensures var t := OnPacket(cfg, s, e).0;
            Consistent(t) && (t.slot >= 0 ==> t.headerFound && !t.passthrough)
  {}

  lemma {:induction false} ConsistentRun(cfg: Config, slots: Slots, es: seq<Event>)
    ensures var s := Run(cfg, Init(cfg, slots), es).0;
            Consistent(s) && (s.slot >= 0 ==> s.headerFound && !s.passthrough)
  {
    if |es| > 0 {
      ConsistentRun(cfg, slots, es[..|es| - 1]);
      ConsistentStep(cfg, Run(cfg, Init(cfg, slots), es[..|es| - 1]).0, es[|es| - 1]);
    }
  }

  /** Once a frame typed as TLV was seen to carry MPEG-2 packets, all that the filter
      ever hands on, whatever arrives, is packets as they arrived, each at most once
      and in their order; and the verdict stands. */
  lemma OnceMpegAlwaysMpeg(cfg: Config, slots: Slots, a: seq<Event>, b: seq<Event>)
    returns (at: seq<nat>, ps: seq<Packet>)
    requires SawMpeg(cfg, Drop(a, cfg.stale))
    ensures Run(cfg, Init(cfg, slots), a + b).1 == Run(cfg, Init(cfg, slots), a).1 + Flatten(ps)
    ensures Arrived(a + b, at, ps)
    ensures Run(cfg, Init(cfg, slots), a + b).0.tlvRejected
  {
    var s := Run(cfg, Init(cfg, slots), a).0;
    VerdictSeals(cfg, slots, a);
    var was := TrackLive(cfg, slots, a);
    var all;
    all, ps := SealedRun(cfg, a, s, b, was);
    var t := Run(cfg, s, b).0;
    at := all[..|ps|];
    ArrivedPart(a + b, all, ps + Live(t), |ps|);
    assert (ps + Live(t))[..|ps|] == ps;
    Transducer.RunSplit(StepOf(cfg), Init(cfg, slots), a, b);
  }
}
