/** Character and string helpers: the code-unit order in which JavaScript and
    IndexedDB compare strings, decimal and hexadecimal formatting as
    `Number.prototype.toString` does it, and their inverses. */
module Strings {

  /** Strict lexicographic order on code units (`a < b` on JavaScript strings). */
  predicate StrLess(a: string, b: string)
  {
    if a == [] then b != []
    else if b == [] then false
    else if a[0] != b[0] then a[0] < b[0]
    else StrLess(a[1..], b[1..])
  }

  lemma {:induction false} StrLessIrreflexive(a: string)
    ensures !StrLess(a, a)
  {
    if a != [] {
      StrLessIrreflexive(a[1..]);
    }
  }

  lemma {:induction false} StrLessTransitive(a: string, b: string, c: string)
    requires StrLess(a, b) && StrLess(b, c)
    ensures StrLess(a, c)
  {
    if a != [] && b != [] && c != [] && a[0] == b[0] && b[0] == c[0] {
      StrLessTransitive(a[1..], b[1..], c[1..]);
    }
  }

  /** Two different strings are always ordered one way or the other, never both. */
  lemma {:induction false} StrLessTrichotomy(a: string, b: string)
    ensures a == b || StrLess(a, b) || StrLess(b, a)
    ensures !(StrLess(a, b) && StrLess(b, a))
  {
    if a != [] && b != [] && a[0] == b[0] {
      StrLessTrichotomy(a[1..], b[1..]);
      if a[1..] == b[1..] {
        assert a == [a[0]] + a[1..] && b == [b[0]] + b[1..];
      }
    }
  }

  /** Comparing two strings that start with prefixes of equal length compares
      the prefixes first, and the rests only when the prefixes agree. */
  lemma {:induction false} StrLessConcat(x: string, y: string, x': string, y': string)
    requires |x| == |x'|
    ensures StrLess(x + y, x' + y') <==> StrLess(x, x') || (x == x' && StrLess(y, y'))
  {
    if x != [] {
      assert (x + y)[1..] == x[1..] + y;
      assert (x' + y')[1..] == x'[1..] + y';
      StrLessConcat(x[1..], y, x'[1..], y');
      if x[0] == x'[0] && x[1..] == x'[1..] {
        assert x == [x[0]] + x[1..] && x' == [x'[0]] + x'[1..];
      }
      if x == x' {
        assert x[1..] == x'[1..];
      }
    } else {
      assert x + y == y && x' + y' == y';
      StrLessIrreflexive(x');
    }
  }

  predicate IsDigit(c: char)
  {
    '0' <= c <= '9'
  }

  predicate AllDigits(s: string)
  {
    forall i :: 0 <= i < |s| ==> IsDigit(s[i])
  }

  function DigitChar(d: int): (c: char)
    requires 0 <= d < 10
    ensures IsDigit(c)
  {
    ('0' as int + d) as char
  }

  function DigitValue(c: char): (d: int)
    requires IsDigit(c)
    ensures 0 <= d < 10 && DigitChar(d) == c
  {
    c as int - '0' as int
  }

  /** The value of a string of decimal digits. */
  function DigitsValue(s: string): nat
    requires AllDigits(s)
  {
    if s == [] then 0 else 10 * DigitsValue(s[..|s| - 1]) + DigitValue(s[|s| - 1])
  }

  /** Decimal representation without leading zeros (`String(n)` for an integer). */
  function NatToString(n: nat): (s: string)
    ensures |s| >= 1 && AllDigits(s)
  {
    if n < 10 then [DigitChar(n)] else NatToString(n / 10) + [DigitChar(n % 10)]
  }

  lemma {:induction false} NatToStringRoundTrip(n: nat)
    ensures DigitsValue(NatToString(n)) == n
  {
    if n >= 10 {
      var s := NatToString(n);
      assert s[..|s| - 1] == NatToString(n / 10);
      NatToStringRoundTrip(n / 10);
    }
  }

  function Pow10(w: nat): (p: nat)
    ensures p >= 1
  {
    if w == 0 then 1 else 10 * Pow10(w - 1)
  }

  /** The last `w` decimal digits of `n`, padded with leading zeros
      (`String(n).padStart(w, "0")` when `n < 10^w`). */
  function FixedDigits(n: nat, w: nat): (s: string)
    ensures |s| == w && AllDigits(s)
  {
    if w == 0 then [] else FixedDigits(n / 10, w - 1) + [DigitChar(n % 10)]
  }

  lemma {:induction false} FixedDigitsRoundTrip(n: nat, w: nat)
    requires n < Pow10(w)
    ensures DigitsValue(FixedDigits(n, w)) == n
  {
    if w > 0 {
      var s := FixedDigits(n, w);
      assert s[..|s| - 1] == FixedDigits(n / 10, w - 1);
      FixedDigitsRoundTrip(n / 10, w - 1);
    }
  }

  /** For numbers of the same width, the order of their fixed-width digit
      strings is the numeric order. */
  lemma {:induction false} FixedDigitsOrder(a: nat, b: nat, w: nat)
    requires a < Pow10(w) && b < Pow10(w)
    ensures StrLess(FixedDigits(a, w), FixedDigits(b, w)) <==> a < b
  {
    if w == 0 {
      StrLessIrreflexive([]);
    } else {
      FixedDigitsOrder(a / 10, b / 10, w - 1);
      FixedDigitsOrderStep(a, b, w);
    }
  }

  /** The last digit decides between numbers whose other digits agree. */
  lemma FixedDigitsOrderStep(a: nat, b: nat, w: nat)
    requires w > 0 && a < Pow10(w) && b < Pow10(w)
    requires StrLess(FixedDigits(a / 10, w - 1), FixedDigits(b / 10, w - 1)) <==> a / 10 < b / 10
    ensures StrLess(FixedDigits(a, w), FixedDigits(b, w)) <==> a < b
  {
    var pa, pb := FixedDigits(a / 10, w - 1), FixedDigits(b / 10, w - 1);
    StrLessConcat(pa, [DigitChar(a % 10)], pb, [DigitChar(b % 10)]);
    if pa == pb {
      FixedDigitsRoundTrip(a / 10, w - 1);
      FixedDigitsRoundTrip(b / 10, w - 1);
      assert a / 10 == b / 10;
    }
    assert DigitValue(DigitChar(a % 10)) == a % 10;
    assert DigitValue(DigitChar(b % 10)) == b % 10;
  }

  /** Lower-case hexadecimal digit. */
  function HexDigitChar(d: int): (c: char)
    requires 0 <= d < 16
    ensures c in "0123456789abcdef"
  {
    "0123456789abcdef"[d]
  }

  predicate IsHexDigit(c: char)
  {
    c in "0123456789abcdef"
  }

  function HexDigitValue(c: char): (d: int)
    requires IsHexDigit(c)
    ensures 0 <= d < 16 && HexDigitChar(d) == c
  {
    if '0' <= c <= '9' then c as int - '0' as int else c as int - 'a' as int + 10
  }

  /** Hexadecimal representation without leading zeros (`n.toString(16)`). */
  function ToHex(n: nat): (s: string)
    ensures |s| >= 1
  {
    if n < 16 then [HexDigitChar(n)] else ToHex(n / 16) + [HexDigitChar(n % 16)]
  }

  /** The last two characters (`s.substr(-2)`). */
  function LastTwo(s: string): (r: string)
  {
    if |s| <= 2 then s else s[|s| - 2..]
  }

  /** Two lower-case hexadecimal digits for a byte (`('0' + b.toString(16)).substr(-2)`). */
  function HexByte(b: nat): (s: string)
    requires b < 256
  {
    LastTwo("0" + ToHex(b))
  }

  /** The two digits are the high and the low nibble of the byte. */
  lemma HexByteDigits(b: nat)
    requires b < 256
    ensures HexByte(b) == [HexDigitChar(b / 16), HexDigitChar(b % 16)]
  {
    if b >= 16 {
      assert ToHex(b) == ToHex(b / 16) + [HexDigitChar(b % 16)];
      assert ToHex(b / 16) == [HexDigitChar(b / 16)];
    }
  }

  /** Reading the two digits back gives the byte. */
  lemma HexByteRoundTrip(b: nat)
    requires b < 256
    ensures |HexByte(b)| == 2 && IsHexDigit(HexByte(b)[0]) && IsHexDigit(HexByte(b)[1])
    ensures 16 * HexDigitValue(HexByte(b)[0]) + HexDigitValue(HexByte(b)[1]) == b
  {
    HexByteDigits(b);
    var d0, d1 := HexDigitValue(HexDigitChar(b / 16)), HexDigitValue(HexDigitChar(b % 16));
    HexDigitInverse(b / 16);
    HexDigitInverse(b % 16);
  }

  lemma HexDigitInverse(d: int)
    requires 0 <= d < 16
    ensures HexDigitValue(HexDigitChar(d)) == d
  {
  }
}
