/** Names and numbers of the registered card readers. */
module CardRegistry {
  import opened Collections

  const MAX_DEVICES: nat := 1024

  datatype Entry = Entry(name: string, minor: nat)

  /** The registered readers, latest first, and the numbers taken. */
  datatype State = State(entries: seq<Entry>, taken: seq<bool>)

  // ----- names --------------------------------------------------------------

  function Digit(d: nat): char
    requires d < 10
  {
    '0' + d as char
  }

  function Decimal(n: nat): (s: string)
    ensures |s| > 0
  {
    if n < 10 then [Digit(n)] else Decimal(n / 10) + [Digit(n % 10)]
  }

  /** The number that a string of digits is read as. */
  function Value(s: string): int {
    if |s| == 0 then 0 else 10 * Value(s[..|s| - 1]) + (s[|s| - 1] as int - '0' as int)
  }

  /** A number is printed in decimal digits, without a zero in front. */
  lemma {:induction false} DecimalValue(n: nat)
    ensures Value(Decimal(n)) == n
    ensures forall i :: 0 <= i < |Decimal(n)| ==> '0' <= Decimal(n)[i] <= '9'
    ensures n > 0 ==> Decimal(n)[0] != '0'
  {
    var s := Decimal(n);
    if n < 10 {
      assert s[..0] == [];
    } else {
      DecimalValue(n / 10);
      assert s[..|s| - 1] == Decimal(n / 10);
    }
  }

  lemma {:induction false} DecimalInjective(a: nat, b: nat)
    requires Decimal(a) == Decimal(b)
    ensures a == b
    decreases a
  {
    var s, t := Decimal(a), Decimal(b);
    assert s[|s| - 1] == Digit(a % 10) && t[|t| - 1] == Digit(b % 10);
    assert a >= 10 ==> |s| >= 2;
    assert b >= 10 ==> |t| >= 2;
    if a >= 10 {
      assert s[..|s| - 1] == Decimal(a / 10) && t[..|t| - 1] == Decimal(b / 10);
      DecimalInjective(a / 10, b / 10);
    }
  }

  /** The plain identifier first, then numbered ones. */
  function Candidate(id: string, k: nat): string { if k == 0 then id else id + "-" + Decimal(k) }

  lemma CandidateInjective(id: string, j: nat, k: nat)
    requires Candidate(id, j) == Candidate(id, k)
    ensures j == k
  {
    assert j > 0 ==> |Candidate(id, j)| > |id|;
    assert k > 0 ==> |Candidate(id, k)| > |id|;
    if j > 0 {
      var n := |id + "-"|;
      assert Candidate(id, j)[n..] == Decimal(j) && Candidate(id, k)[n..] == Decimal(k);
      DecimalInjective(j, k);
    }
  }

  /** The first candidate from the k-th on that no reader has. Each one that is in
      use rules out one name, so the search ends. */
  function FreeSuffix(names: set<string>, id: string, k: nat): (r: nat)
    ensures k <= r
    decreases |names|
  {
    if Candidate(id, k) in names then FreeSuffix(names - {Candidate(id, k)}, id, k + 1) else k
  }

  /** It is free, the smallest, and no larger than the number of readers. */
  lemma {:induction false} FreeSuffixSmallest(names: set<string>, id: string, k: nat)
    ensures var r := FreeSuffix(names, id, k);
            && Candidate(id, r) !in names && r <= k + |names|
            && forall j :: k <= j < r ==> Candidate(id, j) in names
    decreases |names|
  {
    var c := Candidate(id, k);
    if c in names {
      FreeSuffixSmallest(names - {c}, id, k + 1);
      var r := FreeSuffix(names, id, k);
      if Candidate(id, r) == c { CandidateInjective(id, r, k); }
    }
  }

  function NamesOf(entries: seq<Entry>): set<string> { set i | 0 <= i < |entries| :: entries[i].name }

  function NewName(entries: seq<Entry>, id: string): string { Candidate(id, FreeSuffix(NamesOf(entries), id, 0)) }

  /** The first number not taken, or the size of the table. */
  function FirstZero(taken: seq<bool>, from: nat): (r: nat)
    requires from <= |taken|
    ensures from <= r <= |taken| && (r < |taken| ==> !taken[r])
    ensures forall j :: from <= j < r ==> taken[j]
    decreases |taken| - from
  {
    if from == |taken| || !taken[from] then from else FirstZero(taken, from + 1)
  }

  // ----- registration -------------------------------------------------------

  /** Which of the kernel's calls fails, if any. */
  datatype Fate = NoMemory | NoDevice | Works
  datatype Event = Register(id: string, fate: Fate) | Unregister(index: nat)

  function DoRegister(s: State, id: string, fate: Fate): (State, bool) {
    var minor := FirstZero(s.taken, 0);
    if fate.Works? && minor < |s.taken| then
      (State([Entry(NewName(s.entries, id), minor)] + s.entries, s.taken[minor := true]), true)
    else (s, false)
  }

  function DoUnregister(s: State, i: nat): State {
    if i < |s.entries| && s.entries[i].minor < |s.taken|
    then State(Without(s.entries, i), s.taken[s.entries[i].minor := false])
    else s
  }

  ghost predicate HasMinor(entries: seq<Entry>, m: nat) { exists i :: 0 <= i < |entries| && entries[i].minor == m }

  ghost predicate Distinct(entries: seq<Entry>) {
    && (forall i, j :: 0 <= i < j < |entries| ==> entries[i].name != entries[j].name)
    && (forall i, j :: 0 <= i < j < |entries| ==> entries[i].minor != entries[j].minor)
  }

  /** Names and numbers tell the readers apart, and the taken numbers are theirs. */
  ghost predicate Inv(s: State) {
    && |s.taken| == MAX_DEVICES && Distinct(s.entries)
    && (forall i :: 0 <= i < |s.entries| ==> s.entries[i].minor < MAX_DEVICES)
    && (forall m :: 0 <= m < MAX_DEVICES ==> (s.taken[m] <==> HasMinor(s.entries, m)))
  }

  lemma DistinctCons(e: Entry, entries: seq<Entry>)
    requires Distinct(entries) && e.name !in NamesOf(entries) && !HasMinor(entries, e.minor)
    ensures Distinct([e] + entries)
  {
    var all := [e] + entries;
    forall i | 0 <= i < |entries| ensures entries[i].name != e.name { assert entries[i].name in NamesOf(entries); }
    assert forall i :: 0 < i < |all| ==> all[i] == entries[i - 1];
  }

  lemma HasMinorCons(e: Entry, entries: seq<Entry>, m: nat)
    ensures HasMinor([e] + entries, m) <==> m == e.minor || HasMinor(entries, m)
  {
    var all := [e] + entries;
    assert all[0] == e && forall i :: 0 <= i < |entries| ==> all[i + 1] == entries[i];
    if HasMinor(entries, m) {
      var i :| 0 <= i < |entries| && entries[i].minor == m;
      assert all[i + 1].minor == m;
    }
    if HasMinor(all, m) && m != e.minor {
      var i :| 0 <= i < |all| && all[i].minor == m;
      assert entries[i - 1].minor == m;
    }
  }

  lemma RegisterKeeps(s: State, id: string, fate: Fate)
    requires Inv(s)
    ensures Inv(DoRegister(s, id, fate).0)
  {
    var (t, ok) := DoRegister(s, id, fate);
    if ok {
      FreeSuffixSmallest(NamesOf(s.entries), id, 0);
      var e := t.entries[0];
      assert !s.taken[e.minor];
      DistinctCons(e, s.entries);
      forall m | 0 <= m < MAX_DEVICES ensures t.taken[m] <==> HasMinor(t.entries, m) { HasMinorCons(e, s.entries, m); }
      assert forall i :: 0 < i < |t.entries| ==> t.entries[i] == s.entries[i - 1];
    }
  }

  lemma HasMinorWithout(entries: seq<Entry>, k: nat, m: nat)
    requires k < |entries| && Distinct(entries)
    ensures HasMinor(Without(entries, k), m) <==> HasMinor(entries, m) && m != entries[k].minor
  {
    var rest := Without(entries, k);
    assert forall i :: 0 <= i < |rest| ==> rest[i] == entries[if i < k then i else i + 1];
    if HasMinor(entries, m) && m != entries[k].minor {
      var i :| 0 <= i < |entries| && entries[i].minor == m;
      assert rest[if i < k then i else i - 1].minor == m;
    }
  }

  lemma UnregisterKeeps(s: State, k: nat)
    requires Inv(s)
    ensures Inv(DoUnregister(s, k))
  {
    if k < |s.entries| {
      var t := DoUnregister(s, k);
      assert forall i :: 0 <= i < |t.entries| ==> t.entries[i] == s.entries[if i < k then i else i + 1];
      forall m | 0 <= m < MAX_DEVICES ensures t.taken[m] <==> HasMinor(t.entries, m) {
        HasMinorWithout(s.entries, k, m);
      }
    }
  }

  /** A reader is registered exactly when the kernel's calls work and a number is left.
      It takes the smallest one, and its identifier for a name unless a reader has that. */
  lemma RegistersExactly(s: State, id: string, fate: Fate)
    requires Inv(s)
    ensures var (t, ok) := DoRegister(s, id, fate);
            && (ok <==> fate.Works? && exists m: nat :: m < MAX_DEVICES && !HasMinor(s.entries, m))
            && (!ok ==> t == s)
            && (ok ==> && |t.entries| == |s.entries| + 1 && t.entries[1..] == s.entries
                       && TakesSmallest(s, t.entries[0].minor) && t.entries[0].name !in NamesOf(s.entries)
                       && (id !in NamesOf(s.entries) ==> t.entries[0].name == id))
  {
    var m := FirstZero(s.taken, 0);
    FreeSuffixSmallest(NamesOf(s.entries), id, 0);
    if m < |s.taken| { assert !HasMinor(s.entries, m); }
  }

  ghost predicate TakesSmallest(s: State, minor: nat) {
    minor < MAX_DEVICES && !HasMinor(s.entries, minor) && forall m: nat :: m < minor ==> HasMinor(s.entries, m)
  }

  /** Removing a reader makes its number free, and no other. */
  lemma UnregisterFrees(s: State, k: nat)
    requires Inv(s) && k < |s.entries|
    ensures var t := DoUnregister(s, k);
            && t.entries == Without(s.entries, k) && |t.taken| == |s.taken|
            && forall m: nat :: HasMinor(t.entries, m) <==> HasMinor(s.entries, m) && m != s.entries[k].minor
  {
    forall m: nat
      ensures HasMinor(Without(s.entries, k), m) <==> HasMinor(s.entries, m) && m != s.entries[k].minor
    {
      HasMinorWithout(s.entries, k, m);
    }
  }

  function Do(s: State, e: Event): State {
    match e
    case Register(id, fate) => DoRegister(s, id, fate).0
    case Unregister(i) => DoUnregister(s, i)
  }

  function Run(s: State, events: seq<Event>): State
    decreases |events|
  {
    if |events| == 0 then s else Run(Do(s, events[0]), events[1..])
  }

  lemma {:induction false} RunKeeps(s: State, events: seq<Event>)
    requires Inv(s)
    ensures Inv(Run(s, events))
    decreases |events|
  {
    if |events| > 0 {
      match events[0] {
        case Register(id, fate) => RegisterKeeps(s, id, fate);
        case Unregister(i) => UnregisterKeeps(s, i);
      }
      RunKeeps(Do(s, events[0]), events[1..]);
    }
  }

  function Empty(): State { State([], seq(MAX_DEVICES, _ => false)) }

  /** After any registrations, failed ones included, and removals: no two readers
      share a name or a number, and the numbers taken are those of the readers. */
  lemma ReadersApart(events: seq<Event>)
    ensures var s := Run(Empty(), events);
            |s.taken| == MAX_DEVICES &&
            Distinct(s.entries) && forall m :: 0 <= m < MAX_DEVICES ==> (s.taken[m] <==> HasMinor(s.entries, m))
  {
    assert forall m :: 0 <= m < MAX_DEVICES ==> !HasMinor([], m);
    RunKeeps(Empty(), events);
  }

  // ----- the registry in place ----------------------------------------------

  class Registry {
    var entries: seq<Entry>
    var taken: seq<bool>

    constructor ()
      ensures Contents() == Empty()
    {
      entries, taken := [], seq(MAX_DEVICES, _ => false);
    }

    ghost function Contents(): State
      reads this
    {
      State(entries, taken)
    }

    /** The suffix search; it ends within the number of readers. */
    method SetName(id: string) returns (name: string)
      ensures name == NewName(entries, id)
    {
      ghost var free := FreeSuffix(NamesOf(entries), id, 0);
      FreeSuffixSmallest(NamesOf(entries), id, 0);
      var suffix := 0;
      while true
        invariant suffix <= free
        decreases free - suffix
      {
        name := Candidate(id, suffix);
        var duplicate, i := false, 0;
        while i < |entries|
          invariant 0 <= i <= |entries| && !duplicate && forall j :: 0 <= j < i ==> entries[j].name != name
        {
          if entries[i].name == name {
            duplicate := true;
            break;
          }
          i := i + 1;
        }
        assert duplicate <==> name in NamesOf(entries);
        if !duplicate { return; }
        suffix := suffix + 1;
      }
    }

    method FindFirstZero() returns (minor: nat)
      ensures minor == FirstZero(taken, 0)
    {
      minor := 0;
      while minor < |taken| && taken[minor]
        invariant minor <= |taken| && FirstZero(taken, 0) == FirstZero(taken, minor)
      {
        minor := minor + 1;
      }
    }

    /** The reader is listed before the kernel's calls that may fail, and taken off
        the list again if they do. */
    method Add(id: string, fate: Fate) returns (ok: bool)
      requires Inv(Contents())
      modifies this
      ensures (Contents(), ok) == DoRegister(old(Contents()), id, fate) && Inv(Contents())
    {
      RegisterKeeps(Contents(), id, fate);
      if fate.NoMemory? { return false; }
      var name := SetName(id);
      var minor := FindFirstZero();
      if minor >= MAX_DEVICES { return false; }
      entries := [Entry(name, minor)] + entries;
      if fate.NoDevice? {
        entries := entries[1..];
        return false;
      }
      taken := taken[minor := true];
      ok := true;
    }

    method Remove(i: nat)
      requires Inv(Contents()) && i < |entries|
      modifies this
      ensures Contents() == DoUnregister(old(Contents()), i) && Inv(Contents())
    {
      UnregisterKeeps(Contents(), i);
      var minor := entries[i].minor;
      entries := Without(entries, i);
      taken := taken[minor := false];
    }
  }
}
