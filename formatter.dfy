/**
 * Labels of distance pairs: the position `"(i+1)-(i+2)"` of the pair at
 * index i, and the configured prefix put in front of it.
 */
module Formatter {
  import opened Values

  /** The decimal digits of n, as PHP's string conversion writes an integer. */
  function NatToString(n: nat): (r: string)
    ensures |r| >= 1 && IsDigits(r)
    decreases n
  {
    if n < 10 then [Digit(n)]
    else NatToString(n / 10) + [Digit(n % 10)]
  }

  function Digit(d: nat): (c: char)
    requires d < 10
    ensures '0' <= c <= '9'
  {
    ('0' as int + d) as char
  }

  predicate IsDigits(s: string) {
    forall i :: 0 <= i < |s| ==> '0' <= s[i] <= '9'
  }

  /** The number a string of decimal digits denotes. */
  function ParseNat(s: string): nat
    requires IsDigits(s)
    decreases |s|
  {
    if |s| == 0 then 0
    else
      ParseNat(s[..|s| - 1]) * 10 + (s[|s| - 1] as int - '0' as int)
  }

  /** Reading back the digits of n gives n. */
  lemma {:induction false} NatToStringRoundTrip(n: nat)
    ensures ParseNat(NatToString(n)) == n
    decreases n
  {
    var s := NatToString(n);
    if n >= 10 {
      assert s[..|s| - 1] == NatToString(n / 10);
      NatToStringRoundTrip(n / 10);
    } else {
      assert s[..|s| - 1] == [];
    }
  }

  /** The position label `($index + 1) . '-' . ($index + 2)` of the pair at `index`. */
  function Position(index: nat): (r: string)
    ensures '-' in r
  {
    NatToString(index + 1) + "-" + NatToString(index + 2)
  }

  /** The index of the first dash in s. */
  function FirstDash(s: string): (r: nat)
    requires '-' in s
    ensures r < |s| && s[r] == '-' && '-' !in s[..r]
  {
    if s[0] == '-' then 0
    else
      var r := 1 + FirstDash(s[1..]);
      assert s[..r] == [s[0]] + s[1..][..r - 1];
      r
  }

  lemma {:induction false} FirstDashAfter(a: string, b: string)
    requires '-' !in a
    ensures FirstDash(a + "-" + b) == |a|
  {
    if |a| > 0 {
      assert (a + "-" + b)[1..] == a[1..] + "-" + b;
      FirstDashAfter(a[1..], b);
    }
  }

  /** The pair index a position label names: the number before the dash, less one. */
  function PositionIndex(s: string): int
    requires '-' in s
  {
    var head := s[..FirstDash(s)];
    if IsDigits(head) then ParseNat(head) - 1 else -1
  }

  /** A position label names the pair it was made for. */
  lemma PositionRoundTrip(i: nat)
    ensures PositionIndex(Position(i)) == i
  {
    var a := NatToString(i + 1);
    FirstDashAfter(a, NatToString(i + 2));
    assert Position(i)[..|a|] == a;
    NatToStringRoundTrip(i + 1);
  }

  /** The prefix text: a missing (null) prefix concatenates as the empty string. */
  function PrefixText(prefix: Option<string>): string {
    if prefix.Some? then prefix.value else ""
  }

  /** `formatDistanceKey`: the configured prefix, then the key. */
  function FormatDistanceKey(prefix: Option<string>, key: string): (r: string)
    ensures |r| == |PrefixText(prefix)| + |key|
    ensures r[..|PrefixText(prefix)|] == PrefixText(prefix)
    ensures r[|PrefixText(prefix)|..] == key
    ensures prefix.None? ==> r == key
  {
    PrefixText(prefix) + key
  }

  /** The result label of the pair at `index`. */
  function Label(prefix: Option<string>, index: nat): string {
    FormatDistanceKey(prefix, Position(index))
  }

  /** The pair index a result label names. */
  function LabelIndex(prefix: Option<string>, s: string): int {
    var p := |PrefixText(prefix)|;
    if p <= |s| && '-' in s[p..] then PositionIndex(s[p..]) else -1
  }

  /** With any prefix, a label names the pair it was made for. */
  lemma LabelRoundTrip(prefix: Option<string>, i: nat)
    ensures LabelIndex(prefix, Label(prefix, i)) == i
  {
    PositionRoundTrip(i);
  }

  /** Different pairs get different labels. */
  lemma LabelInjective(prefix: Option<string>, i: nat, j: nat)
    requires Label(prefix, i) == Label(prefix, j)
    ensures i == j
  {
    LabelRoundTrip(prefix, i);
    LabelRoundTrip(prefix, j);
  }
}
