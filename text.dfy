/** Decimal rendering and reading of integers, and the first-occurrence string
    search and replace that template expansion and argument rendering rely on.
    Strings are sequences of characters, as everywhere in this model. */
module Text {

  datatype Option<T> = None | Some(value: T)

  predicate IsDigit(c: char) { '0' <= c <= '9' }

  predicate AllDigits(s: string) { forall i :: 0 <= i < |s| ==> IsDigit(s[i]) }

  /** True when `s` does not begin with a digit, so a digit run ends before it. */
  predicate NoLeadingDigit(s: string) { s == [] || !IsDigit(s[0]) }

  function DigitChar(d: nat): (c: char)
    requires d < 10
    ensures IsDigit(c) && c as int - '0' as int == d
  {
    (d + '0' as int) as char
  }

  function DigitValue(c: char): nat
    requires IsDigit(c)
  {
    c as int - '0' as int
  }

  /** `String(n)` for a non-negative integer: shortest decimal, no sign. */
  function NatStr(n: nat): (s: string)
    ensures |s| >= 1 && AllDigits(s)
    ensures (n < 10) == (|s| == 1)
  {
    if n < 10 then [DigitChar(n)] else NatStr(n / 10) + [DigitChar(n % 10)]
  }

  /** `String(k)` for any integer. */
  function IntStr(k: int): string
  {
    if k < 0 then "-" + NatStr(-k) else NatStr(k)
  }

  /** The number a run of digits denotes. */
  function Value(ds: string): nat
    requires AllDigits(ds)
  {
    if ds == [] then 0 else Value(ds[..|ds| - 1]) * 10 + DigitValue(ds[|ds| - 1])
  }

  /** Splits off the longest prefix of digits. */
  function ReadDigits(s: string): (r: (string, string))
    ensures AllDigits(r.0) && r.0 + r.1 == s && NoLeadingDigit(r.1)
  {
    if s != [] && IsDigit(s[0]) then
      var (d, rest) := ReadDigits(s[1..]);
      assert ([s[0]] + d) + rest == [s[0]] + (d + rest);
      assert forall i :: 1 <= i <= |d| ==> ([s[0]] + d)[i] == d[i - 1];
      ([s[0]] + d, rest)
    else
      ([], s)
  }

  /** Reads a decimal number at the start of `s`: the digits it was written with
      and what follows them, or None when `s` does not start with a digit. */
  function ReadNat(s: string): Option<(nat, string)>
  {
    var (d, rest) := ReadDigits(s);
    if d == [] then None else Some((Value(d), rest))
  }

  lemma {:induction false} ReadDigitsOfDigits(ds: string, rest: string)
    requires AllDigits(ds) && NoLeadingDigit(rest)
    ensures ReadDigits(ds + rest) == (ds, rest)
  {
    if ds != [] {
      var s := ds + rest;
      assert s[0] == ds[0] && s[1..] == ds[1..] + rest;
      ReadDigitsOfDigits(ds[1..], rest);
      assert [ds[0]] + ds[1..] == ds;
    } else {
      assert ds + rest == rest;
    }
  }

  lemma {:induction false} ValueOfNatStr(n: nat)
    ensures Value(NatStr(n)) == n
  {
    if n >= 10 {
      var s := NatStr(n);
      assert s[..|s| - 1] == NatStr(n / 10);
      ValueOfNatStr(n / 10);
    }
  }

  /** Reading back a rendered number recovers it, whatever non-digit text follows. */
  lemma ReadNatStr(n: nat, rest: string)
    requires NoLeadingDigit(rest)
    ensures ReadNat(NatStr(n) + rest) == Some((n, rest))
  {
    ReadDigitsOfDigits(NatStr(n), rest);
    ValueOfNatStr(n);
  }

  /** Distinct numbers render to distinct strings. */
  lemma NatStrInjective(m: nat, n: nat)
    requires NatStr(m) == NatStr(n)
    ensures m == n
  {
    ValueOfNatStr(m);
    ValueOfNatStr(n);
  }

  predicate StartsWith(s: string, p: string) { |p| <= |s| && s[..|p|] == p }

  predicate EndsWith(s: string, p: string) { |p| <= |s| && s[|s| - |p|..] == p }

  predicate OccursAt(s: string, p: string, k: nat) { k + |p| <= |s| && s[k..k + |p|] == p }

  /** `s.indexOf(p, from)`: the first position at or after `from` where `p` occurs. */
  function IndexOfFrom(s: string, p: string, from: nat): (r: Option<nat>)
    requires from <= |s|
    decreases |s| - from
    ensures r.Some? ==> from <= r.value && OccursAt(s, p, r.value)
    ensures r.Some? ==> forall k :: from <= k < r.value ==> !OccursAt(s, p, k)
    ensures r.None? ==> forall k :: from <= k <= |s| ==> !OccursAt(s, p, k)
  {
    if OccursAt(s, p, from) then Some(from)
    else if from == |s| then None
    else IndexOfFrom(s, p, from + 1)
  }

  function IndexOf(s: string, p: string): (r: Option<nat>)
    ensures r.Some? ==> OccursAt(s, p, r.value) && forall k :: 0 <= k < r.value ==> !OccursAt(s, p, k)
    ensures r.None? ==> forall k :: 0 <= k <= |s| ==> !OccursAt(s, p, k)
  {
    IndexOfFrom(s, p, 0)
  }

  /** `s.replace(p, rep)` with a string pattern: only the first occurrence is
      replaced. Replacement texts in this model never hold `$`, so the special
      replacement patterns of `String.prototype.replace` never apply. */
  function ReplaceFirst(s: string, p: string, rep: string): (r: string)
    ensures IndexOf(s, p).None? ==> r == s
    ensures IndexOf(s, p).Some? ==>
      var k := IndexOf(s, p).value;
      r == s[..k] + rep + s[k + |p|..] && |r| == |s| - |p| + |rep|
  {
    match IndexOf(s, p)
    case None => s
    case Some(k) => s[..k] + rep + s[k + |p|..]
  }

  /** `String(n).padStart(2, "0")`. */
  function PadTwo(s: string): (r: string)
    ensures |s| >= 2 ==> r == s
    ensures |s| < 2 ==> |r| == 2 && r[2 - |s|..] == s && forall i :: 0 <= i < 2 - |s| ==> r[i] == '0'
  {
    if |s| == 0 then "00" else if |s| == 1 then "0" + s else s
  }

  lemma PadTwoKeepsValue(n: nat)
    ensures AllDigits(PadTwo(NatStr(n))) && Value(PadTwo(NatStr(n))) == n
  {
    ValueOfNatStr(n);
    var s := NatStr(n);
    if |s| == 1 {
      var r := PadTwo(s);
      assert r[..1] == "0";
    }
  }

  function LowerChar(c: char): char
  {
    if 'A' <= c <= 'Z' then (c as int + 32) as char else c
  }

  /** `toLowerCase` on the ASCII letters this model's identifiers use. */
  function Lower(s: string): (r: string)
    ensures |r| == |s| && forall i :: 0 <= i < |s| ==> r[i] == LowerChar(s[i])
  {
    seq(|s|, i requires 0 <= i < |s| => LowerChar(s[i]))
  }
}
