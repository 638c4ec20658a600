/** The arithmetic both tuners share: splitting the VCO frequency into an integer
    and a fractional part of the crystal, and expanding the fraction in powers of
    two. Frequencies are in kHz; errors are stated in 1/65536 kHz. */
module Pll {
  // ----- the expansion of the fraction --------------------------------------

  function Pow(k: nat): (n: nat)
    ensures n >= 1
  {
    if k == 0 then 1 else 2 * Pow(k - 1)
  }

  lemma Regroup(m: nat, n: nat)
    ensures (2 * m) * n == 2 * (m * n)
  {}

  lemma {:induction false} PowSum(a: nat, b: nat)
    ensures Pow(a) * Pow(b) == Pow(a + b)
  {
    if a > 0 {
      PowSum(a - 1, b);
      Regroup(Pow(a - 1), Pow(b));
    }
  }

  lemma Pow16()
    ensures Pow(16) == 65536 && Pow(15) == 0x8000
  {
    assert Pow(4) == 16;
    PowSum(4, 4);
    PowSum(8, 8);
  }

  /** What rounding `x / n` down costs, counted for `q` steps of the modulator. */
  function Rounding(x: nat, n: nat, q: nat): (r: nat)
    requires n > 0
  {
    Nonnegative(x % n, q);
    x % n * q
  }

  lemma Nonnegative(a: nat, b: nat)
    ensures a * b >= 0
  {}

  /** What rounding can lose over the steps j = 1, ..., k - 1. */
  function Loss(x: nat, k: nat): nat
    requires k <= 16
  {
    if k <= 1 then 0 else Loss(x, k - 1) + Rounding(x, Pow(k - 1), Pow(17 - k))
  }

  /** A step of the expansion: `q` steps of the modulator make up `x / n`. */
  lemma StepTaken(x: nat, n: nat, q: nat, fra: nat, loss: nat, s: int)
    requires n > 0 && n * q == 65536 && s == 65536 * fra - loss
    ensures s - x * q == 65536 * (fra - x / n) - (loss + x % n * q)
  {
    var t := x / n;
    assert x == t * n + x % n;
    assert x * q == t * (n * q) + x % n * q by { assert x * q == (t * n + x % n) * q; }
  }

  lemma StepSkipped(x: nat, n: nat, q: nat, fra: nat, loss: nat, s: int)
    requires n > 0 && n * q == 65536 && s == 65536 * fra - loss && fra <= x / n
    ensures s <= x * q
  {
    var t := x / n;
    assert x == t * n + x % n;
    assert x * q == t * (n * q) + x % n * q by { assert x * q == (t * n + x % n) * q; }
    assert x % n * q >= 0;
  }

  /** What the code adds to the modulator value in step `k`. */
  lemma Weight(k: nat)
    requires 1 <= k <= 15
    ensures Pow(k) / 2 > 0 && 0x8000 / (Pow(k) / 2) == Pow(16 - k)
    ensures Pow(k) * Pow(16 - k) == 65536 && Pow(16 - k) == 2 * Pow(15 - k)
    ensures Pow(k) <= 0x8000 && (k < 15 ==> Pow(k) < 0x8000)
  {
    Pow16();
    PowSum(k, 16 - k);
    PowSum(k - 1, 16 - k);
    PowSum(k, 15 - k);
    var m, q := Pow(k - 1), Pow(16 - k);
    assert Pow(k) / 2 == m;
    Quotient(m, q);
    Product(Pow(k), Pow(15 - k));
  }

  lemma Quotient(m: nat, q: nat)
    requires m > 0 && m * q == 0x8000
    ensures 0x8000 / m == q
  {}

  lemma Product(n: nat, m: nat)
    requires n > 0 && m >= 1 && n * m == 0x8000
    ensures n <= 0x8000 && (m >= 2 ==> n < 0x8000)
  {}

  lemma Double(x: nat, q: nat, r: nat)
    requires q == 2 * r
    ensures x * q == 2 * (x * r)
  {}

  lemma QuotientBounds(x: nat, n: nat)
    requires n > 0
    ensures x / n >= 0
  {}

  lemma Distribute(x: nat, a: nat, b: nat)
    ensures x * (a + b) == x * a + x * b
  {}

  /** In the last step every remaining fraction is taken. */
  lemma LastStep(x: nat, fra: nat)
    requires x < 65536 && fra > 1
    ensures fra > x / Pow(15)
  {
    Pow16();
  }

  lemma {:induction false} LossGrows(x: nat, k: nat, m: nat)
    requires k <= m <= 16
    ensures Loss(x, k) <= Loss(x, m)
    decreases m - k
  {
    if k < m { LossGrows(x, k + 1, m); }
  }

  /** Between the steps: what the modulator value leaves open is the rest `fra` up
      to the rounding so far, and fits into the steps to come, but for `excess`. */
  ghost predicate Expanding(x: nat, k: nat, fra: nat, sdm: nat, open: int, excess: nat) {
    && 1 <= k <= 16 && sdm + 2 * Pow(16 - k) <= 65536
    && 65536 * fra - Loss(x, k) <= open <= 65536 * fra
    && open <= 2 * (x * Pow(16 - k)) + excess
  }

  lemma TakeStep(x: nat, k: nat, fra: nat, sdm: nat, open: int, excess: nat)
    requires Expanding(x, k, fra, sdm, open, excess) && k <= 15 && fra > x / Pow(k)
    ensures Expanding(x, k + 1, fra - x / Pow(k), sdm + Pow(16 - k), open - x * Pow(16 - k), excess)
  {
    Weight(k);
    var n, q := Pow(k), Pow(16 - k);
    StepTaken(x, n, q, fra, 65536 * fra - open, open);
    Double(x, q, Pow(15 - k));
    LossNext(x, k, Rounding(x, n, q));
    TakeSums(x * q, x / n, Rounding(x, n, q), Loss(x, k), fra, open, excess);
  }

  lemma LossNext(x: nat, k: nat, cost: nat)
    requires 1 <= k <= 15 && cost == Rounding(x, Pow(k), Pow(16 - k))
    ensures Loss(x, k + 1) == Loss(x, k) + cost
  {}

  /** The arithmetic of a step, with its products named. */
  lemma TakeSums(share: int, t: int, cost: nat, loss: nat, fra: nat, open: int, excess: nat)
    requires 65536 * fra - loss <= open <= 65536 * fra && open <= 2 * share + excess
    requires open - share == 65536 * (fra - t) - (65536 * fra - open + cost)
    ensures 65536 * (fra - t) - (loss + cost) <= open - share <= 65536 * (fra - t)
    ensures open - share <= share + excess
  {}

  lemma SkipStep(x: nat, k: nat, fra: nat, sdm: nat, open: int, excess: nat)
    requires Expanding(x, k, fra, sdm, open, excess) && k <= 15 && fra <= x / Pow(k)
    ensures Expanding(x, k + 1, fra, sdm, open, excess)
  {
    Weight(k);
    StepSkipped(x, Pow(k), Pow(16 - k), fra, 65536 * fra - open, open);
    Double(x, Pow(16 - k), Pow(15 - k));
    LossGrows(x, k, k + 1);
  }

  lemma Finish(x: nat, k: nat, fra: nat, sdm: nat, open: int, excess: nat)
    requires x < 65536 && Expanding(x, k, fra, sdm, open, excess) && (fra <= 1 || k == 16)
    ensures sdm < 65536 && 0 - Loss(x, 16) <= open <= 2 * 65536 + excess
  {
    LossGrows(x, k, 16);
    assert Pow(0) == 1;
    assert k == 16 ==> x * Pow(16 - k) == x;
  }

  /** What a fraction exceeds `x` by. */
  function Excess(x: nat, fraction: nat): nat { if fraction < x then 0 else 65536 * (fraction - x) }

  /** The loop's state in front of step `k`. */
  ghost predicate Round(x: nat, fraction: nat, k: nat, nsdm: nat, fra: nat, sdm: nat) {
    && nsdm == Pow(k) && fra <= fraction
    && Expanding(x, k, fra, sdm, 65536 * fraction - x * sdm, Excess(x, fraction))
  }

  lemma FirstRound(x: nat, fraction: nat)
    ensures Round(x, fraction, 1, 2, fraction, 0)
  {
    Pow16();
    assert Pow(1) == 2 && x * 0 == 0;
  }

  /** The numbers of the code in step `k`. */
  lemma CodeStep(x: nat, k: nat, nsdm: nat)
    requires 1 <= k <= 15 && nsdm == Pow(k)
    ensures nsdm >= 2 && x / nsdm >= 0 && 0x8000 / (nsdm / 2) == Pow(16 - k)
  {
    Weight(k);
    QuotientBounds(x, nsdm);
  }

  /** A step that is taken: `t` kHz for the weight `w`. */
  lemma RoundTaken(x: nat, fraction: nat, k: nat, nsdm: nat, fra: nat, sdm: nat, t: nat, w: nat)
    requires Round(x, fraction, k, nsdm, fra, sdm) && k <= 15 && fra > t == x / Pow(k) && w == Pow(16 - k)
    ensures Round(x, fraction, k + 1, nsdm * 2, fra - t, sdm + w)
  {
    TakeStep(x, k, fra, sdm, 65536 * fraction - x * sdm, Excess(x, fraction));
    Distribute(x, sdm, w);
  }

  lemma RoundSkipped(x: nat, fraction: nat, k: nat, nsdm: nat, fra: nat, sdm: nat, t: nat)
    requires x < 65536 && Round(x, fraction, k, nsdm, fra, sdm) && k <= 15 && 1 < fra <= t == x / Pow(k)
    ensures k < 15 && Round(x, fraction, k + 1, nsdm * 2, fra, sdm)
  {
    SkipStep(x, k, fra, sdm, 65536 * fraction - x * sdm, Excess(x, fraction));
    LastStep(x, fra);
  }

  /** The last round leaves what the caller is promised. */
  lemma RoundEnds(x: nat, fraction: nat, k: nat, nsdm: nat, fra: nat, sdm: nat)
    requires x < 65536 && Round(x, fraction, k, nsdm, fra, sdm) && (fra <= 1 || k == 16)
    ensures sdm < 65536 && 0 - Loss(x, 16) <= 65536 * fraction - x * sdm
    ensures fraction < x ==> 65536 * fraction - x * sdm <= 2 * 65536
  {
    Finish(x, k, fra, sdm, 65536 * fraction - x * sdm, Excess(x, fraction));
  }

  /** One round of the loop: the step is taken if the rest exceeds it. */
  method Advance(x: nat, nsdm: nat, fra: nat, sdm: nat, ghost fraction: nat, ghost k: nat)
    returns (rest: nat, value: nat, taken: bool)
    requires x < 65536 && k <= 15 && fra > 1 && Round(x, fraction, k, nsdm, fra, sdm)
    ensures Round(x, fraction, k + 1, nsdm * 2, rest, value) && (k == 15 ==> taken)
  {
    CodeStep(x, k, nsdm);
    var t: nat := x / nsdm;
    taken := fra > t;
    if taken {
      value := sdm + 0x8000 / (nsdm / 2);
      rest := fra - t;
      RoundTaken(x, fraction, k, nsdm, fra, sdm, t, Pow(16 - k));
    } else {
      value, rest := sdm, fra;
      RoundSkipped(x, fraction, k, nsdm, fra, sdm, t);
    }
  }

  /** The modulator value: at most 16 bits, whose share of `x` misses a fraction of
      it by no more than the rounding loss below and two kHz above. The step `nsdm`
      never leaves its 16 bits, so the search ends, for any fraction. */
  method Expand(x: nat, fraction: nat) returns (sdm: nat)
    requires x < 65536
    ensures sdm < 65536 && (fraction <= 1 ==> sdm == 0)
    ensures 0 - Loss(x, 16) <= 65536 * fraction - x * sdm
    ensures fraction < x ==> 65536 * fraction - x * sdm <= 2 * 65536
  {
    sdm := 0;
    var fra: nat, nsdm: nat := fraction, 2;
    ghost var k: nat := 1;
    FirstRound(x, fraction);
    while fra > 1
      invariant k <= 15 && 2 <= nsdm <= 0x8000 && (nsdm == 0x8000 <==> k == 15)
      invariant Round(x, fraction, k, nsdm, fra, sdm)
      invariant fraction <= 1 ==> sdm == 0 && fra == fraction
      decreases 15 - k
    {
      var taken;
      fra, sdm, taken := Advance(x, nsdm, fra, sdm, fraction, k);
      k := k + 1;
      if taken && nsdm >= 0x8000 {
        RoundEnds(x, fraction, k, nsdm * 2, fra, sdm);
        return;
      }
      nsdm := nsdm * 2;
      StepBelow(k);
    }
    RoundEnds(x, fraction, k, nsdm, fra, sdm);
  }

  lemma StepBelow(k: nat)
    requires 1 <= k <= 15
    ensures 2 <= Pow(k) <= 0x8000 && (Pow(k) == 0x8000 <==> k == 15)
  {
    Weight(k);
    Pow16();
  }

  // ----- the bound for the crystals in use ----------------------------------

  lemma RoundingSmall(x: nat, n: nat, q: nat)
    requires n > 0 && n * q == 65536
    ensures Rounding(x, n, q) <= 65536
  {
    assert x % n * q <= n * q;
  }

  /** Whatever the crystal, rounding loses at most one kHz in each step. */
  lemma {:induction false} LossBound(x: nat, k: nat)
    requires 1 <= k <= 16
    ensures Loss(x, k) <= 65536 * (k - 1)
  {
    if k > 1 {
      LossBound(x, k - 1);
      Weight(k - 1);
      RoundingSmall(x, Pow(k - 1), Pow(17 - k));
    }
  }

  /** Crystals that the tuners' dividers can make of 24 MHz. */
  predicate Crystal(xtal: nat) { xtal == 24000 || xtal == 12000 || xtal == 6000 }

  lemma Powers()
    ensures Pow(1) == 2 && Pow(2) == 4 && Pow(3) == 8 && Pow(4) == 16 && Pow(5) == 32
    ensures Pow(6) == 64 && Pow(7) == 128 && Pow(8) == 256 && Pow(9) == 512 && Pow(10) == 1024
    ensures Pow(11) == 2048 && Pow(12) == 4096 && Pow(13) == 8192 && Pow(14) == 16384 && Pow(15) == 32768
  {}

  lemma LossStep(x: nat, k: nat, n: nat, q: nat)
    requires 1 <= k <= 15 && n == Pow(k) && q == Pow(16 - k)
    ensures Loss(x, k + 1) == Loss(x, k) + x % n * q
  {}

  lemma Loss24()
    ensures Loss(48000, 16) < 7 * 65536
  {
    Powers();
    LossStep(48000, 1, 2, 32768); LossStep(48000, 2, 4, 16384);
    LossStep(48000, 3, 8, 8192); LossStep(48000, 4, 16, 4096);
    LossStep(48000, 5, 32, 2048); LossStep(48000, 6, 64, 1024);
    LossStep(48000, 7, 128, 512); LossStep(48000, 8, 256, 256);
    LossStep(48000, 9, 512, 128); LossStep(48000, 10, 1024, 64);
    LossStep(48000, 11, 2048, 32); LossStep(48000, 12, 4096, 16);
    LossStep(48000, 13, 8192, 8); LossStep(48000, 14, 16384, 4); LossStep(48000, 15, 32768, 2);
  }

  lemma Loss12()
    ensures Loss(24000, 16) < 7 * 65536
  {
    Powers();
    LossStep(24000, 1, 2, 32768); LossStep(24000, 2, 4, 16384);
    LossStep(24000, 3, 8, 8192); LossStep(24000, 4, 16, 4096);
    LossStep(24000, 5, 32, 2048); LossStep(24000, 6, 64, 1024);
    LossStep(24000, 7, 128, 512); LossStep(24000, 8, 256, 256);
    LossStep(24000, 9, 512, 128); LossStep(24000, 10, 1024, 64);
    LossStep(24000, 11, 2048, 32); LossStep(24000, 12, 4096, 16);
    LossStep(24000, 13, 8192, 8); LossStep(24000, 14, 16384, 4); LossStep(24000, 15, 32768, 2);
  }

  lemma Loss6()
    ensures Loss(12000, 16) < 7 * 65536
  {
    Powers();
    LossStep(12000, 1, 2, 32768); LossStep(12000, 2, 4, 16384);
    LossStep(12000, 3, 8, 8192); LossStep(12000, 4, 16, 4096);
    LossStep(12000, 5, 32, 2048); LossStep(12000, 6, 64, 1024);
    LossStep(12000, 7, 128, 512); LossStep(12000, 8, 256, 256);
    LossStep(12000, 9, 512, 128); LossStep(12000, 10, 1024, 64);
    LossStep(12000, 11, 2048, 32); LossStep(12000, 12, 4096, 16);
    LossStep(12000, 13, 8192, 8); LossStep(12000, 14, 16384, 4); LossStep(12000, 15, 32768, 2);
  }

  // ----- integer and fraction -----------------------------------------------

  /** Fractions near a multiple of the crystal are moved away from it or onto it. */
  function Snap(xtal: nat, nint: nat, fra: nat): (nat, nat) {
    if fra < xtal / 64 then (nint, 0)
    else if fra > xtal * 127 / 64 then (nint + 1, 0)
    else if fra > xtal * 127 / 128 && fra < xtal then (nint, xtal * 127 / 128)
    else if fra > xtal && fra < xtal * 129 / 128 then (nint, xtal * 129 / 128)
    else (nint, fra)
  }

  /** A fraction that is programmed as it is. */
  predicate PlainFraction(xtal: nat, fra: nat) {
    && xtal / 64 <= fra <= xtal * 127 / 64
    && !(xtal * 127 / 128 < fra < xtal) && !(xtal < fra < xtal * 129 / 128)
  }

  predicate Plain(xtal: nat, vco: nat)
    requires xtal > 0
  {
    PlainFraction(xtal, vco % (2 * xtal))
  }

  function Abs(a: int): nat { if a < 0 then -a else a }

  lemma SnapNear(xtal: nat, fra: nat)
    requires Crystal(xtal) && fra < 2 * xtal
    ensures var (n, f) := Snap(xtal, 0, fra);
            && f < 2 * xtal && n <= 1
            && (f == 0 ==> Abs(2 * xtal * n - fra) <= xtal / 64)
            && (f != 0 ==> n == 0 && Abs(f - fra) <= xtal / 64 - 7)
  {}

  /** What the programmed dividers miss of the wanted frequency, in 1/65536 kHz. */
  function Miss(xtal: nat, vco: nat, nint: nat, sdm: nat): int {
    65536 * vco - 2 * xtal * (65536 * nint + sdm)
  }

  lemma MissParts(xtal: nat, nint: nat, fra: nat, n: nat, f: nat, sdm: nat)
    ensures Miss(xtal, 2 * xtal * nint + fra, nint + n, sdm) ==
            65536 * (fra - f - 2 * xtal * n) + (65536 * f - 2 * xtal * sdm)
  {
    var x := 2 * xtal;
    assert x * (65536 * (nint + n) + sdm) == 65536 * (x * nint) + 65536 * (x * n) + x * sdm;
  }

  lemma Wholes(xtal: nat, vco: nat)
    requires Crystal(xtal)
    ensures vco / 2 / xtal == vco / (2 * xtal)
    ensures vco == 2 * xtal * (vco / (2 * xtal)) + vco % (2 * xtal)
  {}

  /** The error: what snapping moves and what the expansion misses. */
  lemma MissBound(xtal: nat, nint: nat, fra: nat, n: nat, f: nat, sdm: nat)
    requires Crystal(xtal) && fra < 2 * xtal && (n, f) == Snap(xtal, 0, fra)
    requires f <= 1 ==> sdm == 0
    requires -7 * 65536 < 65536 * f - 2 * xtal * sdm <= 2 * 65536
    ensures var miss := Miss(xtal, 2 * xtal * nint + fra, nint + n, sdm);
            Abs(miss) <= 65536 * (xtal / 64) && (n == 0 && f == fra ==> Abs(miss) < 7 * 65536)
  {
    SnapNear(xtal, fra);
    MissParts(xtal, nint, fra, n, f, sdm);
  }

  lemma SnapShift(xtal: nat, nint: nat, fra: nat)
    ensures var (n, f) := Snap(xtal, 0, fra);
            Snap(xtal, nint, fra) == (nint + n, f)
  {}

  /** What the caller may rely on. */
  ghost predicate Divided(xtal: nat, vco: nat, nint: nat, sdm: nat)
    requires xtal > 0
  {
    && vco / (2 * xtal) <= nint <= vco / (2 * xtal) + 1
    && Abs(Miss(xtal, vco, nint, sdm)) <= 65536 * (xtal / 64)
    && (Plain(xtal, vco) ==> Abs(Miss(xtal, vco, nint, sdm)) < 7 * 65536)
  }

  lemma PlainSnaps(xtal: nat, nint: nat, fra: nat)
    requires PlainFraction(xtal, fra)
    ensures Snap(xtal, nint, fra) == (nint, fra)
  {}

  /** The same for a frequency that is already split. */
  lemma SplitBound(xtal: nat, whole: nat, fra: nat, nint: nat, f: nat, sdm: nat)
    requires Crystal(xtal) && fra < 2 * xtal && (nint, f) == Snap(xtal, whole, fra)
    requires f <= 1 ==> sdm == 0
    requires -7 * 65536 < 65536 * f - 2 * xtal * sdm <= 2 * 65536
    ensures whole <= nint <= whole + 1
    ensures var miss := Miss(xtal, 2 * xtal * whole + fra, nint, sdm);
            Abs(miss) <= 65536 * (xtal / 64) && (PlainFraction(xtal, fra) ==> Abs(miss) < 7 * 65536)
  {
    SnapShift(xtal, whole, fra);
    SnapNear(xtal, fra);
    MissBound(xtal, whole, fra, nint - whole, f, sdm);
    if PlainFraction(xtal, fra) { PlainSnaps(xtal, whole, fra); }
  }

  lemma DividedBound(xtal: nat, vco: nat, nint: nat, f: nat, sdm: nat)
    requires Crystal(xtal) && (nint, f) == Snap(xtal, vco / (2 * xtal), vco % (2 * xtal))
    requires f <= 1 ==> sdm == 0
    requires -7 * 65536 < 65536 * f - 2 * xtal * sdm <= 2 * 65536
    ensures Divided(xtal, vco, nint, sdm)
  {
    Wholes(xtal, vco);
    SplitBound(xtal, vco / (2 * xtal), vco % (2 * xtal), nint, f, sdm);
  }

  lemma LossOfCrystal(xtal: nat)
    requires Crystal(xtal)
    ensures Loss(2 * xtal, 16) < 7 * 65536
  {
    if xtal == 24000 { Loss24(); } else if xtal == 12000 { Loss12(); } else { Loss6(); }
  }

  lemma SnapFits(xtal: nat, nint: nat, fra: nat)
    requires Crystal(xtal) && fra < 2 * xtal
    ensures Snap(xtal, nint, fra).1 < 2 * xtal < 65536
  {
    SnapNear(xtal, fra);
    SnapShift(xtal, nint, fra);
  }

  /** The integer part and the modulator value of a VCO frequency: within a 64th of
      the crystal, and within 7 kHz where the fraction is not moved. */
  method Divide(xtal: nat, vco: nat) returns (nint: nat, sdm: nat)
    requires Crystal(xtal)
    ensures sdm < 65536 && Divided(xtal, vco, nint, sdm)
  {
    Wholes(xtal, vco);
    nint := vco / 2 / xtal;
    var fra: nat := vco - xtal * 2 * nint;
    SnapFits(xtal, nint, fra);
    var (n, f) := Snap(xtal, nint, fra);
    nint, fra := n, f;
    sdm := Expand(2 * xtal, fra);
    LossOfCrystal(xtal);
    DividedBound(xtal, vco, nint, fra, sdm);
  }
}
