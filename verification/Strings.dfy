/**
 String operations shared by the text, PDF and AMI modules. A character stands
 for one UTF-16 code unit.
 */
module Strings {
  /** The characters matched by \s and removed by trim. */
  predicate IsSpace(c: char) {
    var n := c as int;
    || 9 <= n <= 13 || n == 32 || n == 0xa0 || n == 0x1680 || 0x2000 <= n <= 0x200a
    || n == 0x2028 || n == 0x2029 || n == 0x202f || n == 0x205f || n == 0x3000 || n == 0xfeff
  }

  function TrimStart(s: string): string {
    if s != [] && IsSpace(s[0]) then TrimStart(s[1..]) else s
  }

  function TrimEnd(s: string): string {
    if s != [] && IsSpace(s[|s| - 1]) then TrimEnd(s[..|s| - 1]) else s
  }

  function Trim(s: string): string {
    TrimEnd(TrimStart(s))
  }

  /** No white space at either end. */
  predicate IsTrimmed(s: string) {
    s != [] ==> !IsSpace(s[0]) && !IsSpace(s[|s| - 1])
  }

  lemma {:induction false} TrimEndKeeps(s: string)
    ensures TrimEnd(s) != [] ==> TrimEnd(s)[0] == s[0] && !IsSpace(TrimEnd(s)[|TrimEnd(s)| - 1])
    ensures TrimEnd(s) == s <==> (s != [] ==> !IsSpace(s[|s| - 1]))
    ensures |TrimEnd(s)| <= |s|
  {
    if |s| > 0 && IsSpace(s[|s| - 1]) {
      TrimEndKeeps(s[..|s| - 1]);
    }
  }

  lemma {:induction false} TrimStartKeeps(s: string)
    ensures TrimStart(s) != [] ==> !IsSpace(TrimStart(s)[0])
    ensures TrimStart(s) == s <==> (s != [] ==> !IsSpace(s[0]))
    ensures |TrimStart(s)| <= |s|
  {
    if |s| > 0 && IsSpace(s[0]) {
      TrimStartKeeps(s[1..]);
    }
  }

  /** Trimming gives a trimmed string, and changes no other. */
  lemma TrimTrims(s: string)
    ensures IsTrimmed(Trim(s)) && (Trim(s) == s <==> IsTrimmed(s))
  {
    hide TrimStart, TrimEnd;
    TrimStartKeeps(s);
    TrimEndKeeps(TrimStart(s));
    TrimEndKeeps(s);
  }

  predicate StartsWith(s: string, p: string) {
    |p| <= |s| && s[..|p|] == p
  }

  // ---- decimal numerals ----

  predicate IsDigit(c: char) {
    '0' <= c <= '9'
  }

  predicate AllDigits(s: string) {
    forall i :: 0 <= i < |s| ==> IsDigit(s[i])
  }

  function DigitChar(d: nat): char
    requires d < 10
  {
    '0' + d as char
  }

  function Dec(n: nat): (s: string)
    ensures s != [] && AllDigits(s)
  {
    if n < 10 then [DigitChar(n)] else Dec(n / 10) + [DigitChar(n % 10)]
  }

  function ParseDec(s: string): nat
    requires AllDigits(s)
  {
    if s == [] then 0 else 10 * ParseDec(s[..|s| - 1]) + (s[|s| - 1] as int - '0' as int)
  }

  lemma {:induction false} DecRoundTrip(n: nat)
    ensures ParseDec(Dec(n)) == n
    decreases n
  {
    if n >= 10 {
      DecRoundTrip(n / 10);
      var s := Dec(n);
      assert s[..|s| - 1] == Dec(n / 10);
      assert s[|s| - 1] == DigitChar(n % 10);
    } else {
      assert Dec(n)[..0] == [];
      assert ParseDec([]) == 0;
    }
  }

  /** String(n).padStart(width, "0"). */
  function PadStart(s: string, width: nat): (r: string)
    ensures |r| == if |s| >= width then |s| else width
    ensures AllDigits(s) ==> AllDigits(r)
    decreases width - |s|
  {
    if |s| >= width then s else PadStart(['0'] + s, width)
  }

  lemma {:induction false} ParseLeadingZero(s: string)
    requires AllDigits(s)
    ensures AllDigits(['0'] + s) && ParseDec(['0'] + s) == ParseDec(s)
  {
    var z := ['0'] + s;
    if s == [] {
      assert z[..|z| - 1] == [];
    } else {
      assert z[..|z| - 1] == ['0'] + s[..|s| - 1];
      ParseLeadingZero(s[..|s| - 1]);
    }
  }

  lemma {:induction false} PadRoundTrip(s: string, width: nat)
    requires AllDigits(s)
    ensures ParseDec(PadStart(s, width)) == ParseDec(s)
    decreases width - |s|
  {
    if |s| < width {
      ParseLeadingZero(s);
      PadRoundTrip(['0'] + s, width);
    }
  }

  function Pow10(k: nat): nat {
    if k == 0 then 1 else 10 * Pow10(k - 1)
  }

  lemma {:induction false} DecLength(n: nat, k: nat)
    requires k > 0
    ensures |Dec(n)| <= k <==> n < Pow10(k)
    decreases n
  {
    if n < 10 {
      PowPositive(k - 1);
    } else if k == 1 {
      assert Pow10(1) == 10 * Pow10(0);
    } else {
      DecLength(n / 10, k - 1);
    }
  }

  lemma {:induction false} PowPositive(k: nat)
    ensures Pow10(k) >= 1
  {
    if k > 0 { PowPositive(k - 1); }
  }

  /** Length of the longest prefix of digits. */
  function LeadingDigits(s: string): (n: nat)
    ensures n <= |s| && AllDigits(s[..n])
  {
    if s == [] || !IsDigit(s[0]) then 0 else 1 + LeadingDigits(s[1..])
  }

  lemma {:induction false} LeadingDigitsStop(d: string, c: char, rest: string)
    requires AllDigits(d) && !IsDigit(c)
    ensures LeadingDigits(d + [c] + rest) == |d|
  {
    if d == [] {
      assert d + [c] + rest == [c] + rest;
    } else {
      assert (d + [c] + rest)[1..] == d[1..] + [c] + rest;
      LeadingDigitsStop(d[1..], c, rest);
    }
  }

  /** Length of the longest suffix of digits. */
  function TrailingDigits(s: string): (n: nat)
    ensures n <= |s| && AllDigits(s[|s| - n..])
  {
    if s == [] || !IsDigit(s[|s| - 1]) then 0 else 1 + TrailingDigits(s[..|s| - 1])
  }

  lemma {:induction false} TrailingDigitsStop(before: string, c: char, d: string)
    requires AllDigits(d) && !IsDigit(c)
    ensures TrailingDigits(before + [c] + d) == |d|
  {
    var s := before + [c] + d;
    if d == [] {
      assert s[|s| - 1] == c;
    } else {
      assert s[..|s| - 1] == before + [c] + d[..|d| - 1];
      assert s[|s| - 1] == d[|d| - 1];
      TrailingDigitsStop(before, c, d[..|d| - 1]);
    }
  }
}
