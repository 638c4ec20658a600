/** Runs of a machine that answers each input with a stretch of output. */
module Transducer {
  ghost function Run<S, E, O>(step: (S, E) -> (S, seq<O>), s: S, es: seq<E>): (r: (S, seq<O>)) {
    if |es| == 0 then (s, [])
    else
      var (t, out) := Run(step, s, es[..|es| - 1]);
      var (u, o) := step(t, es[|es| - 1]);
      (u, out + o)
  }

  lemma RunSnoc<S, E, O>(step: (S, E) -> (S, seq<O>), s: S, es: seq<E>, e: E)
    ensures var (t, out) := Run(step, s, es);
            var (u, o) := step(t, e);
            Run(step, s, es + [e]) == (u, out + o)
  {
    assert (es + [e])[..|es|] == es;
  }

  /** Running on is running again from where the first run stopped. */
  lemma {:induction false} RunSplit<S, E, O>(step: (S, E) -> (S, seq<O>), s: S, a: seq<E>, b: seq<E>)
    ensures var (t, x) := Run(step, s, a);
            var (u, y) := Run(step, t, b);
            Run(step, s, a + b) == (u, x + y)
  {
    var (t, x) := Run(step, s, a);
    if |b| == 0 {
      assert a + b == a && x + [] == x;
    } else {
      var c, e := b[..|b| - 1], b[|b| - 1];
      RunSplit(step, s, a, c);
      assert b == c + [e] && a + b == (a + c) + [e];
      RunSnoc(step, s, a + c, e);
      RunSnoc(step, t, c, e);
      var (v, y) := Run(step, t, c);
      var o := step(v, e).1;
      assert (x + y) + o == x + (y + o);
    }
  }

  function Concat<O>(ss: seq<seq<O>>): (s: seq<O>) {
    if |ss| == 0 then [] else Concat(ss[..|ss| - 1]) + ss[|ss| - 1]
  }

  /** A run that passes through given states with given answers ends in the last
      state, and its output is the answers in order. */
  lemma {:induction false} RunTracks<S, E, O>(step: (S, E) -> (S, seq<O>), es: seq<E>,
                                              states: seq<S>, outs: seq<seq<O>>)
    requires |states| == |es| + 1 && |outs| == |es|
    requires forall n :: 0 <= n < |es| ==> step(states[n], es[n]) == (states[n + 1], outs[n])
    ensures Run(step, states[0], es) == (states[|es|], Concat(outs))
  {
    if |es| > 0 {
      RunTracks(step, es[..|es| - 1], states[..|es|], outs[..|es| - 1]);
    }
  }

  /** What holds at the start and is kept by every step holds after every input. */
  lemma {:induction false} RunInvariant<S, E, O>(step: (S, E) -> (S, seq<O>), s: S, es: seq<E>, n: nat,
                                                 inv: (nat, S, seq<O>) -> bool)
    requires n <= |es| && inv(0, s, [])
    requires forall k: nat, t, out :: k < |es| && inv(k, t, out) ==>
               inv(k + 1, step(t, es[k]).0, out + step(t, es[k]).1)
    ensures var (t, out) := Run(step, s, es[..n]); inv(n, t, out)
  {
    if n > 0 {
      RunInvariant(step, s, es, n - 1, inv);
      var k: nat := n - 1;
      assert es[..n] == es[..k] + [es[k]];
      RunSnoc(step, s, es[..k], es[k]);
      var (t, out) := Run(step, s, es[..k]);
      assert inv(k + 1, step(t, es[k]).0, out + step(t, es[k]).1);
    } else {
      assert es[..n] == [];
    }
  }
}
