/** A history after which the short path reports success without the settings. */
module DemodDefect {
  import opened DemodTables
  import opened DemodEffects
  import opened Demod
  import opened DemodTheorems
  import opened DemodSettings

  lemma {:induction false} AccessesJoin(a: seq<Page>, b: seq<Page>)
    ensures Accesses(a + b) == Accesses(a) + Accesses(b)
    decreases |a|
  {
    if |a| == 0 { assert a + b == b; } else { assert (a + b)[1..] == a[1..] + b; AccessesJoin(a[1..], b); }
  }

  /** Only access `at` fails. */
  function OnlyLost(at: nat): Fate { (k: nat) => if k == at then Lost else Done }

  /** The one failing access lies behind the restored 0xa3. */
  lemma SleepInterrupted(hw: Hw, n: nat)
    ensures var (h, ok, m) := Play(SleepTable(IsdbC), hw, OnlyLost(n + 9), n);
            !ok && m == n + 10 && Read(h, A3) == 0x00
  {
    SleepLong();
    StopsAtTenth(SleepTable(IsdbC), hw, n);
    FailedSleep(IsdbC, hw, OnlyLost(n + 9), n);
  }

  /** A table of more than nine accesses stops at the one that fails. */
  lemma StopsAtTenth(pages: seq<Page>, hw: Hw, n: nat)
    requires Accesses(pages) > 9
    ensures !Play(pages, hw, OnlyLost(n + 9), n).1 && Play(pages, hw, OnlyLost(n + 9), n).2 == n + 10
  {
    var fate := OnlyLost(n + 9);
    PlayFate(pages, hw, fate, n);
    PlayCount(pages, hw, fate, n);
    assert !fate(n + 9).Done?;
  }

  lemma SleepLong()
    ensures Accesses(SleepTable(IsdbC)) > 9
  {
    SleepParts(IsdbC);
    AccessesJoin(StopOutput(), RestoreA3() + AfterA3(IsdbC));
    AccessesJoin(RestoreA3(), AfterA3(IsdbC));
    assert Accesses(RestoreA3()) == 2;
    assert AfterA3(IsdbC)[0].P?;
  }

  lemma PlaysThrough(pages: seq<Page>, hw: Hw, at: nat, n: nat)
    requires n + Accesses(pages) <= at
    ensures Play(pages, hw, OnlyLost(at), n).1 && Play(pages, hw, OnlyLost(at), n).2 == n + Accesses(pages)
  {
    PlayFate(pages, hw, OnlyLost(at), n);
    PlayCount(pages, hw, OnlyLost(at), n);
  }

  lemma FirstWake(d: Dev, at: nat)
    requires Fresh(d) && d.clock + Accesses(WakeC()) <= at
    ensures var (e, ok) := Wakeup(d, IsdbC, true, OnlyLost(at));
            ok && Complete(e) && e.system == IsdbC && e.clock == d.clock + Accesses(WakeC())
  {
    PlaysThrough(WakeC(), d.hw, at, d.clock);
    StartsC(d, OnlyLost(at), WakeC());
  }

  lemma StartsC(d: Dev, fate: Fate, table: seq<Page>)
    requires Fresh(d) && table == WakeC() && Play(table, d.hw, fate, d.clock).1
    ensures var (e, ok) := Wakeup(d, IsdbC, true, fate);
            ok && Complete(e) && e.system == IsdbC && e.clock == Play(table, d.hw, fate, d.clock).2
  {}

  lemma ThenLeave(d: Dev, fate: Fate)
    requires Complete(d) && d.system == IsdbC && fate == OnlyLost(d.clock + 9)
    ensures var (e, ok) := Wakeup(d, IsdbT, true, fate);
            !ok && Complete(e) && e.system == IsdbC && e.clock == d.clock + 10 && Read(e.hw, A3) == 0x00
  {
    SleepInterrupted(d.hw, d.clock);
  }

  lemma ThenReturn(d: Dev, fate: Fate, at: nat)
    requires Complete(d) && d.system == IsdbC && fate == OnlyLost(at) && at < d.clock
    ensures var (e, ok) := Wakeup(d, IsdbC, true, fate);
            ok && Read(e.hw, A3) == Read(d.hw, A3)
  {
    PlayFate(ResetOutput(), d.hw, fate, d.clock);
    CalmParts(A3, true, 0);
    PlaySpares(ResetOutput(), d.hw, fate, d.clock, A3);
  }

  lemma TwoCommands(d: Dev, a: Cmd, b: Cmd, fate: Fate)
    ensures History(d, [a, b], fate) == Do(Do(d, a, fate).0, b, fate).0
  {
    var cmds := [a, b];
    assert cmds[..1] == [a] && cmds[..1][..0] == [];
    assert History(d, cmds[..1][..0], fate) == d;
    assert History(d, cmds[..1], fate) == Do(d, a, fate).0;
  }

  lemma LeaveAndReturn(d: Dev, wake: Cmd, leave: Cmd, fate: Fate, at: nat)
    requires wake == DoWake(IsdbC, true) && leave == DoWake(IsdbT, true)
    requires Complete(d) && d.system == IsdbC && fate == OnlyLost(at) && at == d.clock + 9
    ensures var (f, ok) := Do(Do(d, leave, fate).0, wake, fate);
            ok && Read(f.hw, A3) == 0x00 && !AllSet(f.hw, IsdbC)
  {
    ThenLeave(d, fate);
    ThenReturn(Wakeup(d, IsdbT, true, fate).0, fate, d.clock + 9);
    assert SettingOf(IsdbC, A3) == 0x14;
  }

  lemma WakeFirst(d: Dev, wake: Cmd, fate: Fate, at: nat, length: nat)
    requires fate == OnlyLost(at) && Fresh(d) && wake == DoWake(IsdbC, true)
    requires length == Accesses(WakeC()) && d.clock + length <= at
    ensures var e := Do(d, wake, fate).0;
            Complete(e) && e.system == IsdbC && e.clock == d.clock + length
  {
    FirstWake(d, at);
  }

  lemma WakeLeaveReturn(d: Dev, wake: Cmd, leave: Cmd, fate: Fate, at: nat)
    requires wake == DoWake(IsdbC, true) && leave == DoWake(IsdbT, true)
    requires Fresh(d) && at == d.clock + Accesses(WakeC()) + 9 && fate == OnlyLost(at)
    ensures var (f, ok) := Do(History(d, [wake, leave], fate), wake, fate);
            ok && Read(f.hw, A3) == 0x00 && !AllSet(f.hw, IsdbC)
  {
    TwoCommands(d, wake, leave, fate);
    WakeFirst(d, wake, fate, at, at - 9 - d.clock);
    LeaveAndReturn(Do(d, wake, fate).0, wake, leave, fate, at);
  }

  /** A completed ISDB-C wakeup, a switch to ISDB-T whose sleep fails behind the
      write that restores 0xa3, and ISDB-C again: the last wakeup succeeds, and
      0xa3 is not set. */
  lemma RetunesUndoneReception(d: Dev) returns (wake: Cmd, leave: Cmd, at: nat)
    requires Fresh(d)
    ensures wake == DoWake(IsdbC, true) && leave == DoWake(IsdbT, true)
    ensures var (f, ok) := Do(History(d, [wake, leave], OnlyLost(at)), wake, OnlyLost(at));
            ok && Read(f.hw, A3) == 0x00 && !AllSet(f.hw, IsdbC)
  {
    wake, leave := DoWake(IsdbC, true), DoWake(IsdbT, true);
    at := d.clock + Accesses(WakeC()) + 9;
    WakeLeaveReturn(d, wake, leave, OnlyLost(at), at);
  }
}
