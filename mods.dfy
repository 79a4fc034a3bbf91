/** The `Mod` enum of src/performance_calculator/mod.rs: the twelve
    osu!standard mods, their calculator argument strings and display strings,
    the order derived from their declaration, and the `mods!` macro that
    collects a list of mods into an ordered set. */
module Mods {

  datatype Mod = HD | HR | DT | NC | FL | NF | EZ | HT | SO | SD | PF | TD

  /** The number of mods. */
  const ModCount: nat := 12

  /** The declaration index, on which the derived `Ord` compares. */
  function Rank(m: Mod): (n: nat)
    ensures n < ModCount
  {
    match m
    case HD => 0 case HR => 1 case DT => 2 case NC => 3
    case FL => 4 case NF => 5 case EZ => 6 case HT => 7
    case SO => 8 case SD => 9 case PF => 10 case TD => 11
  }

  /** The mod declared at index n. */
  function FromRank(n: nat): (m: Mod)
    requires n < ModCount
    ensures Rank(m) == n
  {
    if n == 0 then HD else if n == 1 then HR else if n == 2 then DT
    else if n == 3 then NC else if n == 4 then FL else if n == 5 then NF
    else if n == 6 then EZ else if n == 7 then HT else if n == 8 then SO
    else if n == 9 then SD else if n == 10 then PF else TD
  }

  /** Rank and FromRank are inverse: the declaration index identifies a mod. */
  lemma RankRoundTrip(m: Mod)
    ensures FromRank(Rank(m)) == m
  {
  }

  /** The derived `<` on mods. */
  predicate Less(a: Mod, b: Mod) {
    Rank(a) < Rank(b)
  }

  /** `Mod::to_arg`: the argument string passed to the calculator. */
  function ToArg(m: Mod): (s: string)
    ensures |s| == 2
    ensures s == AsciiLower(ToString(m))
  {
    match m
    case HD => "hd" case HR => "hr" case DT => "dt" case NC => "nc"
    case FL => "fl" case NF => "nf" case EZ => "ez" case HT => "ht"
    case SO => "so" case SD => "sd" case PF => "pf" case TD => "td"
  }

  /** `Mod::to_string`: the human-readable name, in capitals. */
  function ToString(m: Mod): (s: string)
    ensures |s| == 2 && forall i :: 0 <= i < |s| ==> 'A' <= s[i] <= 'Z'
  {
    match m
    case HD => "HD" case HR => "HR" case DT => "DT" case NC => "NC"
    case FL => "FL" case NF => "NF" case EZ => "EZ" case HT => "HT"
    case SO => "SO" case SD => "SD" case PF => "PF" case TD => "TD"
  }

  /** ASCII lower-casing of one character. */
  function LowerChar(c: char): char {
    if 'A' <= c <= 'Z' then (c as int + 32) as char else c
  }

  function AsciiLower(s: string): (r: string)
    ensures |r| == |s| && forall i :: 0 <= i < |s| ==> r[i] == LowerChar(s[i])
  {
    if s == [] then [] else [LowerChar(s[0])] + AsciiLower(s[1..])
  }

  /** Different mods have different argument strings. */
  lemma ToArgInjective(a: Mod, b: Mod)
    ensures ToArg(a) == ToArg(b) ==> a == b
  {
  }

  /** Different mods have different display strings. */
  lemma ToStringInjective(a: Mod, b: Mod)
    ensures ToString(a) == ToString(b) ==> a == b
  {
  }

  /** The derived order is a strict total order. */
  lemma LessIsStrictTotalOrder(a: Mod, b: Mod, c: Mod)
    ensures !Less(a, a)
    ensures a != b ==> Less(a, b) || Less(b, a)
    ensures Less(a, b) && Less(b, c) ==> Less(a, c)
  {
    if a != b {
      RankRoundTrip(a);
      RankRoundTrip(b);
    }
  }

  /** The `mods!` macro: insert each listed mod in turn into an empty set. */
  function ModSet(ms: seq<Mod>): (r: set<Mod>)
    ensures forall m :: m in r <==> m in ms
  {
    if ms == [] then {} else ModSet(ms[..|ms| - 1]) + {ms[|ms| - 1]}
  }

  predicate StrictlyAscending(ms: seq<Mod>) {
    forall i, j :: 0 <= i < j < |ms| ==> Less(ms[i], ms[j])
  }

  /** The elements of `s` of rank n or more, in ascending rank. */
  function KeepFrom(n: nat, s: set<Mod>): (r: seq<Mod>)
    requires n <= ModCount
    ensures forall m :: m in r <==> m in s && Rank(m) >= n
    ensures forall i :: 0 <= i < |r| ==> Rank(r[i]) >= n
    ensures StrictlyAscending(r)
    decreases ModCount - n
  {
    if n == ModCount then []
    else
      var m := FromRank(n);
      var rest := KeepFrom(n + 1, s);
      assert forall x :: Rank(x) == n ==> x == m by {
        forall x | Rank(x) == n ensures x == m { RankRoundTrip(x); }
      }
      if m in s then ConsAscending(m, rest); [m] + rest else rest
  }

  /** Iterating over a `BTreeSet<Mod>`: its elements, each once, in ascending
      order. */
  function InOrder(s: set<Mod>): (r: seq<Mod>)
    ensures forall m :: m in r <==> m in s
    ensures StrictlyAscending(r)
  {
    KeepFrom(0, s)
  }

  /** Putting a mod in front of an ascending sequence of higher-ranked mods
      keeps it ascending. */
  lemma ConsAscending(m: Mod, rest: seq<Mod>)
    requires StrictlyAscending(rest)
    requires forall i :: 0 <= i < |rest| ==> Rank(rest[i]) > Rank(m)
    ensures StrictlyAscending([m] + rest)
  {
    var r := [m] + rest;
    forall i, j | 0 <= i < j < |r| ensures Less(r[i], r[j]) {
      assert r[j] == rest[j - 1];
      if i > 0 {
        assert r[i] == rest[i - 1];
      }
    }
  }

  /** Two ascending sequences with the same elements are equal: the
      iteration order of a set is determined by the set. */
  lemma {:induction false} AscendingUnique(a: seq<Mod>, b: seq<Mod>)
    requires StrictlyAscending(a) && StrictlyAscending(b)
    requires forall m :: m in a <==> m in b
    ensures a == b
  {
    assert a != [] ==> a[0] in a;
    assert b != [] ==> b[0] in b;
    if a != [] && b != [] {
      var i :| 0 <= i < |b| && b[i] == a[0];
      var j :| 0 <= j < |a| && a[j] == b[0];
      assert i == 0;
      forall m ensures m in a[1..] <==> m in b[1..] {
        AscendingTail(a, m);
        AscendingTail(b, m);
      }
      AscendingUnique(a[1..], b[1..]);
      assert a == [a[0]] + a[1..] && b == [b[0]] + b[1..];
    }
  }

  lemma AscendingTail(a: seq<Mod>, m: Mod)
    requires StrictlyAscending(a) && a != []
    ensures m in a[1..] <==> m in a && m != a[0]
  {
    if m in a[1..] {
      var k :| 0 <= k < |a[1..]| && a[1..][k] == m;
      assert Less(a[0], a[k + 1]);
    }
    if m in a && m != a[0] {
      var k :| 0 <= k < |a| && a[k] == m;
      assert a[1..][k - 1] == m;
    }
  }

  /** The unit test `mod_order`: inserting DT, HR and HD and iterating gives
      HD, HR, DT. */
  lemma ModOrderExample()
    ensures InOrder(ModSet([DT, HR, HD])) == [HD, HR, DT]
  {
    var s := ModSet([DT, HR, HD]);
    AscendingUnique(InOrder(s), [HD, HR, DT]);
  }
}
