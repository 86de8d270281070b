/**
 * The JavaScript built-ins that both source files lean on, stated over
 * Dafny strings (`seq<char>`): Number#toString and parseInt for decimal
 * integers, String#padStart, String#trim, String#toLowerCase (ASCII letters
 * only), Array#sort on strings, Array#join, and Set as an insertion-ordered
 * sequence without duplicates.
 */
module JsText {

  datatype Option<T> = None | Some(value: T)

  // ---------------------------------------------------------------------
  // Decimal digits: Number#toString and its inverse
  // ---------------------------------------------------------------------

  predicate IsDigit(c: char) { '0' <= c <= '9' }

  predicate AllDigits(s: string) { forall i :: 0 <= i < |s| ==> IsDigit(s[i]) }

  function DigitChar(d: nat): (c: char)
    requires d < 10
    ensures IsDigit(c)
  {
    (('0' as int) + d) as char
  }

  function DigitValue(c: char): (d: nat)
    requires IsDigit(c)
    ensures d < 10
  {
    (c as int) - ('0' as int)
  }

  /** Math.max of two integers. */
  function Max(a: int, b: int): int { if a >= b then a else b }

  /** `n.toString()` for a non-negative integer: its decimal digits, no leading zero. */
  function NatToString(n: nat): (s: string)
    ensures 1 <= |s| && AllDigits(s)
    ensures |s| > 1 ==> s[0] != '0'
  {
    if n < 10 then [DigitChar(n)] else NatToString(n / 10) + [DigitChar(n % 10)]
  }

  /** `i.toString()` for any integer: a minus sign before the digits of a negative value. */
  function IntToString(i: int): string
  {
    if i < 0 then "-" + NatToString(-i) else NatToString(i)
  }

  /** The value of a string of decimal digits, read most significant digit first. */
  function ParseDigits(s: string): nat
    requires AllDigits(s)
  {
    if s == [] then 0 else ParseDigits(s[..|s| - 1]) * 10 + DigitValue(s[|s| - 1])
  }

  lemma {:induction false} ParseNatToString(n: nat)
    ensures ParseDigits(NatToString(n)) == n
  {
    if n >= 10 {
      var s := NatToString(n / 10);
      var t := s + [DigitChar(n % 10)];
      assert t[..|t| - 1] == s;
      ParseNatToString(n / 10);
    }
  }

  function Pow10(k: nat): (p: nat)
    ensures p >= 1
  {
    if k == 0 then 1 else 10 * Pow10(k - 1)
  }

  /** The number of digits `n.toString()` has is at most `k` exactly when `n < 10^k`. */
  lemma {:induction false} NatToStringLength(n: nat, k: nat)
    requires k >= 1
    ensures |NatToString(n)| <= k <==> n < Pow10(k)
  {
    if n >= 10 {
      if k == 1 {
        assert |NatToString(n)| == |NatToString(n / 10)| + 1;
      } else {
        NatToStringLength(n / 10, k - 1);
      }
    } else if k > 1 {
      PowMonotone(1, k);
    }
  }

  lemma {:induction false} PowMonotone(j: nat, k: nat)
    requires j <= k
    ensures Pow10(j) <= Pow10(k)
  {
    if j < k {
      PowMonotone(j, k - 1);
    }
  }

  /** Zeros written in front of a string of digits do not change its value. */
  lemma {:induction false} LeadingZerosIgnored(z: nat, s: string)
    requires AllDigits(s)
    ensures AllDigits(Repeat('0', z) + s)
    ensures ParseDigits(Repeat('0', z) + s) == ParseDigits(s)
  {
    var t := Repeat('0', z) + s;
    if s == [] {
      assert t == Repeat('0', z);
      ZerosParseToZero(z);
    } else {
      var s' := s[..|s| - 1];
      assert t[..|t| - 1] == Repeat('0', z) + s';
      LeadingZerosIgnored(z, s');
    }
  }

  lemma {:induction false} ZerosParseToZero(z: nat)
    ensures AllDigits(Repeat('0', z)) && ParseDigits(Repeat('0', z)) == 0
  {
    if z > 0 {
      assert Repeat('0', z)[..z - 1] == Repeat('0', z - 1);
      ZerosParseToZero(z - 1);
    }
  }

  // ---------------------------------------------------------------------
  // parseInt (radix 10)
  // ---------------------------------------------------------------------

  /** Number of leading decimal digits of `s`. */
  function DigitRun(s: string): (k: nat)
    ensures k <= |s| && AllDigits(s[..k])
    ensures k < |s| ==> !IsDigit(s[k])
  {
    if s == [] || !IsDigit(s[0]) then 0
    else
      var k := 1 + DigitRun(s[1..]);
      assert s[..k] == [s[0]] + s[1..][..k - 1];
      k
  }

  /**
   * `parseInt(s)`: skip leading white space, read an optional sign and the
   * longest run of decimal digits after it; no digit at all is NaN (`None`).
   */
  function ParseInt(s: string): Option<int>
  {
    var t := TrimStart(s);
    var signed := |t| > 0 && (t[0] == '-' || t[0] == '+');
    var u := if signed then t[1..] else t;
    var k := DigitRun(u);
    if k == 0 then None
    else
      var magnitude: int := ParseDigits(u[..k]);
      Some(if signed && t[0] == '-' then -magnitude else magnitude)
  }

  /** Writing an integer out and parsing it back gives the same integer. */
  lemma ParseIntToString(i: int)
    ensures ParseInt(IntToString(i)) == Some(i)
  {
    var s := IntToString(i);
    var digits := NatToString(if i < 0 then -i else i);
    assert LeadingSpaces(s) == 0 by {
      assert |s| > 0 && !IsJsSpace(s[0]);
    }
    var u := if i < 0 then s[1..] else s;
    assert u == digits;
    AllDigitsRun(digits);
    assert u[..DigitRun(u)] == digits;
    ParseNatToString(if i < 0 then -i else i);
  }

  lemma {:induction false} AllDigitsRun(s: string)
    requires AllDigits(s)
    ensures DigitRun(s) == |s|
  {
    if s != [] {
      AllDigitsRun(s[1..]);
    }
  }

  // ---------------------------------------------------------------------
  // padStart, trim, toLowerCase
  // ---------------------------------------------------------------------

  function Repeat(c: char, n: nat): (r: string)
    ensures |r| == n && forall i :: 0 <= i < n ==> r[i] == c
  {
    seq(n, _ => c)
  }

  /** `s.padStart(len, c)`: fill on the left up to `len` characters; never truncates. */
  function PadStart(s: string, len: nat, c: char): (r: string)
    ensures |r| == if |s| >= len then |s| else len
    ensures r[|r| - |s|..] == s
    ensures forall i :: 0 <= i < |r| - |s| ==> r[i] == c
  {
    if |s| >= len then s else Repeat(c, len - |s|) + s
  }

  /**
   * The characters String#trim removes: the WhiteSpace production (tab,
   * vertical tab, form feed, byte order mark and every Unicode space
   * separator) and the LineTerminator production.
   */
  predicate IsJsSpace(c: char)
  {
    c == '\t' || c == '\U{B}' || c == '\U{C}' || c == ' ' || c == '\U{A0}' || c == '\U{FEFF}'
    || c == '\U{1680}' || ('\U{2000}' <= c <= '\U{200A}') || c == '\U{202F}' || c == '\U{205F}'
    || c == '\U{3000}' || c == '\n' || c == '\r' || c == '\U{2028}' || c == '\U{2029}'
  }

  /** How many white-space characters `s` starts with. */
  function LeadingSpaces(s: string): (k: nat)
    ensures k <= |s| && (k == |s| || !IsJsSpace(s[k]))
    ensures forall i :: 0 <= i < k ==> IsJsSpace(s[i])
  {
    if s != [] && IsJsSpace(s[0]) then
      var k := 1 + LeadingSpaces(s[1..]);
      assert forall i :: 1 <= i < k ==> s[i] == s[1..][i - 1];
      k
    else 0
  }

  /** How many white-space characters `s[lo..hi]` ends with. */
  function SpacesBefore(s: string, lo: nat, hi: nat): (k: nat)
    requires lo <= hi <= |s|
    ensures k <= hi - lo && (k == hi - lo || !IsJsSpace(s[hi - 1 - k]))
    ensures forall i :: hi - k <= i < hi ==> IsJsSpace(s[i])
    decreases hi - lo
  {
    if lo < hi && IsJsSpace(s[hi - 1]) then 1 + SpacesBefore(s, lo, hi - 1) else 0
  }

  /** `s.trimStart()`. */
  function TrimStart(s: string): string
  {
    s[LeadingSpaces(s)..]
  }

  /**
   * `s.trim()`: the slice of `s` that is left when the white space at both
   * ends is cut away.
   */
  function Trim(s: string): (r: string)
    ensures r == [] || (!IsJsSpace(r[0]) && !IsJsSpace(r[|r| - 1]))
    ensures var k := LeadingSpaces(s);
      && k + |r| <= |s| && r == s[k..k + |r|]
      && (forall i :: 0 <= i < k ==> IsJsSpace(s[i]))
      && (forall i :: k + |r| <= i < |s| ==> IsJsSpace(s[i]))
  {
    var k := LeadingSpaces(s);
    s[k..|s| - SpacesBefore(s, k, |s|)]
  }

  function LowerChar(c: char): char
  {
    if 'A' <= c <= 'Z' then ((c as int) + 32) as char else c
  }

  /** `s.toLowerCase()` on the ASCII letters. */
  function ToLowerAscii(s: string): (r: string)
    ensures |r| == |s| && forall i :: 0 <= i < |s| ==> r[i] == LowerChar(s[i])
  {
    seq(|s|, i requires 0 <= i < |s| => LowerChar(s[i]))
  }

  lemma ToLowerAsciiIdempotent(s: string)
    ensures ToLowerAscii(ToLowerAscii(s)) == ToLowerAscii(s)
  {
    var once := ToLowerAscii(s);
    forall i | 0 <= i < |s|
      ensures LowerChar(once[i]) == once[i]
    {
    }
  }

  // ---------------------------------------------------------------------
  // Array#sort on strings and Array#join
  // ---------------------------------------------------------------------

  /** The default sort order of strings: character by character, a prefix first. */
  predicate LexLe(a: string, b: string)
  {
    a == [] || (b != [] && (a[0] < b[0] || (a[0] == b[0] && LexLe(a[1..], b[1..]))))
  }

  lemma {:induction false} LexLeTotal(a: string, b: string)
    ensures LexLe(a, b) || LexLe(b, a)
  {
    if a != [] && b != [] && a[0] == b[0] {
      LexLeTotal(a[1..], b[1..]);
    }
  }

  lemma {:induction false} LexLeAntisymmetric(a: string, b: string)
    requires LexLe(a, b) && LexLe(b, a)
    ensures a == b
  {
    if a != [] {
      LexLeAntisymmetric(a[1..], b[1..]);
      assert a == [a[0]] + a[1..] && b == [b[0]] + b[1..];
    }
  }

  lemma {:induction false} LexLeTransitive(a: string, b: string, c: string)
    requires LexLe(a, b) && LexLe(b, c)
    ensures LexLe(a, c)
  {
    if a != [] && a[0] == b[0] && b[0] == c[0] {
      LexLeTransitive(a[1..], b[1..], c[1..]);
    }
  }

  predicate Sorted(s: seq<string>)
  {
    forall i, j :: 0 <= i < j < |s| ==> LexLe(s[i], s[j])
  }

  function Insert(x: string, s: seq<string>): (r: seq<string>)
    ensures multiset(r) == multiset(s) + multiset{x}
  {
    if s == [] then [x]
    else if LexLe(x, s[0]) then [x] + s
    else
      assert s == [s[0]] + s[1..];
      [s[0]] + Insert(x, s[1..])
  }

  lemma {:induction false} InsertSorted(x: string, s: seq<string>)
    requires Sorted(s)
    ensures Sorted(Insert(x, s))
  {
    if s == [] {
    } else if LexLe(x, s[0]) {
      forall k | 0 <= k < |s| ensures LexLe(x, s[k]) {
        if k > 0 { LexLeTransitive(x, s[0], s[k]); }
      }
    } else {
      LexLeTotal(x, s[0]);
      var rest := Insert(x, s[1..]);
      InsertSorted(x, s[1..]);
      forall j | 0 <= j < |rest| ensures LexLe(s[0], rest[j]) {
        assert rest[j] in multiset(rest);
        if rest[j] != x {
          assert rest[j] in multiset(s[1..]);
          var k :| 0 <= k < |s[1..]| && s[1..][k] == rest[j];
          assert s[k + 1] == rest[j];
        }
      }
    }
  }

  /** `[...xs].sort()`: the elements of `xs` in ascending order. */
  function SortStrings(s: seq<string>): (r: seq<string>)
    ensures Sorted(r) && multiset(r) == multiset(s)
  {
    if s == [] then [] else
      assert s == [s[0]] + s[1..];
      InsertSorted(s[0], SortStrings(s[1..]));
      Insert(s[0], SortStrings(s[1..]))
  }

  /** Two sorted sequences with the same elements are the same sequence. */
  lemma {:induction false} SortedUnique(a: seq<string>, b: seq<string>)
    requires Sorted(a) && Sorted(b) && multiset(a) == multiset(b)
    ensures a == b
  {
    if a != [] {
      assert a[0] in multiset(b) && b[0] in multiset(a);
      if a[0] != b[0] {
        var i :| 0 <= i < |b| && b[i] == a[0];
        var j :| 0 <= j < |a| && a[j] == b[0];
        assert LexLe(b[0], b[i]) && LexLe(a[0], a[j]);
        LexLeAntisymmetric(a[0], b[0]);
        assert false;
      }
      assert a == [a[0]] + a[1..] && b == [b[0]] + b[1..];
      assert multiset(a[1..]) == multiset(a) - multiset{a[0]};
      assert multiset(b[1..]) == multiset(b) - multiset{b[0]};
      SortedUnique(a[1..], b[1..]);
    }
  }

  /** `xs.join(sep)`. */
  function JoinWith(xs: seq<string>, sep: string): string
  {
    if xs == [] then "" else if |xs| == 1 then xs[0] else xs[0] + sep + JoinWith(xs[1..], sep)
  }

  // ---------------------------------------------------------------------
  // Set<string> as an insertion-ordered sequence without duplicates
  // ---------------------------------------------------------------------

  predicate Distinct(s: seq<string>)
  {
    forall i, j :: 0 <= i < j < |s| ==> s[i] != s[j]
  }

  /** `set.add(x)`: appends `x` unless it is already there. */
  function SetAdd(s: seq<string>, x: string): (r: seq<string>)
    requires Distinct(s)
    ensures Distinct(r) && forall y :: y in r <==> y in s || y == x
  {
    if x in s then s else s + [x]
  }

  /** `new Set(xs)`: the elements of `xs` in order of first occurrence. */
  function SetOf(xs: seq<string>): (r: seq<string>)
    ensures Distinct(r) && forall y :: y in r <==> y in xs
  {
    if xs == [] then [] else SetAdd(SetOf(xs[..|xs| - 1]), xs[|xs| - 1])
  }

  /** A sequence without duplicates holds each of its elements exactly once. */
  lemma {:induction false} DistinctMultiplicity(s: seq<string>, x: string)
    requires Distinct(s)
    ensures multiset(s)[x] == if x in s then 1 else 0
  {
    if s != [] {
      var t := s[1..];
      assert s == [s[0]] + t;
      assert s[0] !in t;
      DistinctMultiplicity(t, x);
    }
  }

  /** Sorting a set's elements does not depend on the order they were added in. */
  lemma SortedSetElements(a: seq<string>, b: seq<string>)
    requires Distinct(a) && Distinct(b)
    requires forall x :: x in a <==> x in b
    ensures SortStrings(a) == SortStrings(b)
  {
    forall x ensures multiset(a)[x] == multiset(b)[x] {
      DistinctMultiplicity(a, x);
      DistinctMultiplicity(b, x);
    }
    assert multiset(a) == multiset(b);
    SortedUnique(SortStrings(a), SortStrings(b));
  }
}
