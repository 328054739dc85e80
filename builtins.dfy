/** Models of the few Python built-ins the core relies on: None, abs, range,
    str of a non-negative int, sum and max. */
module Builtins {

  /** Python's "a value or None". */
  datatype Option<T> = None | Some(value: T)

  /** abs() on a real. */
  function Abs(x: real): (r: real)
    ensures r >= 0.0
    ensures r == x || r == -x
  {
    if x < 0.0 then -x else x
  }

  /** range(start, stop, step) for a positive step: the ascending run
      start, start + step, ... of the values below stop. */
  function Range(start: int, stop: int, step: nat): (r: seq<int>)
    requires step > 0
    ensures r == [] <==> stop <= start
    ensures r != [] ==> r[0] == start
    ensures forall i :: 0 <= i < |r| ==> start <= r[i] < stop
    ensures forall i :: 0 <= i < |r| - 1 ==> r[i + 1] == r[i] + step
    ensures r != [] ==> stop <= r[|r| - 1] + step
    decreases stop - start
  {
    if start < stop then [start] + Range(start + step, stop, step) else []
  }

  function Digit(d: nat): (c: char)
    requires d < 10
    ensures '0' <= c <= '9'
    ensures c as int - '0' as int == d
  {
    "0123456789"[d]
  }

  /** The value a string of decimal digits denotes (the inverse of NatToString). */
  function DigitsValue(s: string): int
  {
    if s == [] then 0 else 10 * DigitsValue(s[..|s| - 1]) + (s[|s| - 1] as int - '0' as int)
  }

  /** f"{n}" for a non-negative integer n: its decimal digits, no leading zero. */
  function NatToString(n: nat): (s: string)
    ensures |s| >= 1
    ensures forall i :: 0 <= i < |s| ==> '0' <= s[i] <= '9'
    ensures |s| > 1 ==> s[0] != '0'
  {
    if n < 10 then [Digit(n)] else NatToString(n / 10) + [Digit(n % 10)]
  }

  /** The digits NatToString writes denote the number itself. */
  lemma {:induction false} NatToStringValue(n: nat)
    ensures DigitsValue(NatToString(n)) == n
  {
    if n >= 10 {
      NatToStringValue(n / 10);
      var s := NatToString(n);
      assert s[..|s| - 1] == NatToString(n / 10);
    }
  }

  /** sum() of a sequence, added up left to right: zero for the empty list,
      and no element exceeds the total. */
  function Sum(s: seq<nat>): (t: nat)
    ensures s == [] ==> t == 0
    ensures forall i :: 0 <= i < |s| ==> s[i] <= t
  {
    if s == [] then 0
    else
      var t' := Sum(s[..|s| - 1]);
      assert forall i :: 0 <= i < |s| - 1 ==> s[..|s| - 1][i] == s[i];
      t' + s[|s| - 1]
  }

  /** max() of a non-empty sequence. */
  function Max(s: seq<nat>): (m: nat)
    requires |s| > 0
    ensures m in s
    ensures forall i :: 0 <= i < |s| ==> s[i] <= m
  {
    if |s| == 1 then s[0]
    else
      var m' := Max(s[..|s| - 1]);
      assert forall i :: 0 <= i < |s| - 1 ==> s[..|s| - 1][i] == s[i];
      if s[|s| - 1] > m' then s[|s| - 1] else m'
  }

  /** Summing a longer prefix adds the next element. */
  lemma SumPrefixStep(s: seq<nat>, k: nat)
    requires k < |s|
    ensures Sum(s[..k + 1]) == Sum(s[..k]) + s[k]
  {
    assert s[..k + 1][..k] == s[..k];
  }

  /** No prefix sums to more than the whole sequence. */
  lemma {:induction false} SumPrefixBound(s: seq<nat>, k: nat)
    requires k <= |s|
    ensures Sum(s[..k]) <= Sum(s)
  {
    if k < |s| {
      SumPrefixBound(s[..|s| - 1], k);
      assert s[..|s| - 1][..k] == s[..k];
      assert s == s[..|s|];
    } else {
      assert s[..k] == s;
    }
  }
}
