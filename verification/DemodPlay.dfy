/** What playing a table can do to the registers, whatever fails. */
module DemodPlay {
  import opened Bytes
  import opened ByteBits
  import opened DemodTables

  // ----- registers a table leaves alone -------------------------------------

  /** No access of the page can reach the register. */
  predicate Clear(page: Page, a: Address) {
    page.Stay? || page.bank == a.bank ==> forall j :: 0 <= j < |page.acts| ==> !Covers(page.acts[j], a.reg)
  }

  predicate AllClear(pages: seq<Page>, a: Address) {
    forall i :: 0 <= i < |pages| ==> Clear(pages[i], a)
  }

  lemma ClearJoin(a: seq<Page>, b: seq<Page>, at: Address)
    requires AllClear(a, at) && AllClear(b, at)
    ensures AllClear(a + b, at)
  {}

  lemma {:induction false} ActsClear(acts: seq<Act>, hw: Hw, fate: Fate, n: nat, a: Address)
    requires hw.bank == a.bank ==> forall j :: 0 <= j < |acts| ==> !Covers(acts[j], a.reg)
    ensures PlayActs(acts, hw, fate, n).0.regs(a) == hw.regs(a)
    decreases |acts|
  {
    if |acts| > 0 {
      if fate(n).Done? { ActsClear(acts[1..], Apply(hw, acts[0]), fate, n + 1, a); }
    }
  }

  lemma PageClear(page: Page, hw: Hw, fate: Fate, n: nat, a: Address)
    requires Clear(page, a)
    ensures PlayPage(page, hw, fate, n).0.regs(a) == hw.regs(a)
  {
    match page
    case Stay(acts) => ActsClear(acts, hw, fate, n, a);
    case P(b, acts) => ActsClear(acts, hw.(bank := b), fate, n + 1, a);
  }

  /** Whatever fails, a table that does not reach a register leaves it as it was. */
  lemma {:induction false} PlayClear(pages: seq<Page>, hw: Hw, fate: Fate, n: nat, a: Address)
    requires AllClear(pages, a)
    ensures Play(pages, hw, fate, n).0.regs(a) == hw.regs(a)
    decreases |pages|
  {
    if |pages| > 0 {
      PageClear(pages[0], hw, fate, n, a);
      var (h, ok, m) := PlayPage(pages[0], hw, fate, n);
      if ok { PlayClear(pages[1..], h, fate, m, a); }
    }
  }

  // ----- registers a table sets ---------------------------------------------

  /** The access writes `v` to register `reg` of the selected bank. */
  predicate Puts(act: Act, reg: nat, v: byte) {
    act.Put? && act.reg <= reg < act.reg + |act.data| && act.data[reg - act.reg] == v
  }

  /** The page writes `v` to the register at act `k` and does not touch it afterwards. */
  predicate Writes(page: Page, a: Address, v: byte, k: nat) {
    && page.P? && page.bank == a.bank && k < |page.acts|
    && Puts(page.acts[k], a.reg, v)
    && forall j :: k < j < |page.acts| ==> !Covers(page.acts[j], a.reg)
  }

  lemma {:induction false} ActsWrite(acts: seq<Act>, hw: Hw, fate: Fate, n: nat, a: Address, v: byte, k: nat)
    requires hw.bank == a.bank && k < |acts| && Puts(acts[k], a.reg, v)
    requires forall j :: k < j < |acts| ==> !Covers(acts[j], a.reg)
    requires PlayActs(acts, hw, fate, n).1
    ensures PlayActs(acts, hw, fate, n).0.regs(a) == v
    decreases |acts|
  {
    var h := Apply(hw, acts[0]);
    if k > 0 {
      ActsWrite(acts[1..], h, fate, n + 1, a, v, k - 1);
    } else {
      assert h.regs(a) == v;
      ActsClear(acts[1..], h, fate, n + 1, a);
    }
  }

  /** A table that was played to its end leaves in a register what its last page
      for that register writes. */
  lemma {:induction false} PlayWrites(pages: seq<Page>, hw: Hw, fate: Fate, n: nat,
                                      a: Address, v: byte, i: nat, k: nat)
    requires Play(pages, hw, fate, n).1
    requires i < |pages| && Writes(pages[i], a, v, k) && forall j :: i < j < |pages| ==> Clear(pages[j], a)
    ensures Play(pages, hw, fate, n).0.regs(a) == v
    decreases |pages|
  {
    var (h, ok, m) := PlayPage(pages[0], hw, fate, n);
    if i > 0 {
      PlayWrites(pages[1..], h, fate, m, a, v, i - 1, k);
    } else {
      ActsWrite(pages[0].acts, hw.(bank := pages[0].bank), fate, n + 1, a, v, k);
      PlayClear(pages[1..], h, fate, m, a);
    }
  }

  lemma {:induction false} PlaySplit(a: seq<Page>, b: seq<Page>, hw: Hw, fate: Fate, n: nat)
    ensures var (h, ok, m) := Play(a, hw, fate, n);
            Play(a + b, hw, fate, n) == if ok then Play(b, h, fate, m) else (h, false, m)
    decreases |a|
  {
    if |a| == 0 {
      assert a + b == b;
    } else {
      assert (a + b)[1..] == a[1..] + b;
      var (h, ok, m) := PlayPage(a[0], hw, fate, n);
      if ok { PlaySplit(a[1..], b, h, fate, m); }
    }
  }

  // ----- bits a table sets --------------------------------------------------

  predicate Mixed(was: byte, val: byte, mask: byte, k: nat)
    requires k < 8
  {
    if Bit(mask, k) then Bit(val, k) else Bit(was, k)
  }

  lemma MergeOctet(was: byte, val: byte, mask: byte)
    ensures Merge(was, val, mask) as int ==
            Octet(Mixed(was, val, mask, 7), Mixed(was, val, mask, 6), Mixed(was, val, mask, 5),
                  Mixed(was, val, mask, 4), Mixed(was, val, mask, 3), Mixed(was, val, mask, 2),
                  Mixed(was, val, mask, 1), Mixed(was, val, mask, 0))
  {}

  lemma OctetBits(m: byte, p: bool, q: bool, r: bool, s: bool, t: bool, u: bool, v: bool, w: bool)
    requires m as int == Octet(p, q, r, s, t, u, v, w)
    ensures Bit(m, 7) == p && Bit(m, 6) == q && Bit(m, 5) == r && Bit(m, 4) == s
    ensures Bit(m, 3) == t && Bit(m, 2) == u && Bit(m, 1) == v && Bit(m, 0) == w
  {
    ByteOfBits(m);
    OctetUnique(Bit(m, 7), Bit(m, 6), Bit(m, 5), Bit(m, 4), Bit(m, 3), Bit(m, 2), Bit(m, 1), Bit(m, 0),
                p, q, r, s, t, u, v, w);
  }

  lemma OctetUnique(a: bool, b: bool, c: bool, d: bool, e: bool, f: bool, g: bool, h: bool,
                    p: bool, q: bool, r: bool, s: bool, t: bool, u: bool, v: bool, w: bool)
    requires Octet(a, b, c, d, e, f, g, h) == Octet(p, q, r, s, t, u, v, w)
    ensures a == p && b == q && c == r && d == s && e == t && f == u && g == v && h == w
  {}

  /** Changing the masked bits of a byte: each of them takes its new value, and the
      others stay. */
  lemma MergeBits(was: byte, val: byte, mask: byte, k: nat)
    requires k < 8
    ensures Bit(Merge(was, val, mask), k) == if Bit(mask, k) then Bit(val, k) else Bit(was, k)
  {
    MergeOctet(was, val, mask);
    OctetBits(Merge(was, val, mask),
              Mixed(was, val, mask, 7), Mixed(was, val, mask, 6), Mixed(was, val, mask, 5), Mixed(was, val, mask, 4),
              Mixed(was, val, mask, 3), Mixed(was, val, mask, 2), Mixed(was, val, mask, 1), Mixed(was, val, mask, 0));
  }
}
