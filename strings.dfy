/** Text helpers the logger relies on: Go's `%d`, `%0Nd` and `%x` integer
    formatting, and `strings.Split` on a one-character separator, each with
    the parser or joiner that undoes it. */
module Strings {

  /** The lowercase digit for `d` in any base up to 16. */
  function Digit(d: nat): (c: char)
    requires d < 16
  {
    if d < 10 then ('0' as int + d) as char else ('a' as int + d - 10) as char
  }

  /** The value of a lowercase hexadecimal digit, or -1 for any other character. */
  function DigitValue(c: char): (v: int)
    ensures -1 <= v < 16
  {
    if '0' <= c <= '9' then c as int - '0' as int
    else if 'a' <= c <= 'f' then c as int - 'a' as int + 10
    else -1
  }

  predicate IsDigitIn(c: char, base: nat)
  {
    0 <= DigitValue(c) < base
  }

  predicate AllDigits(s: string, base: nat)
  {
    forall i :: 0 <= i < |s| ==> IsDigitIn(s[i], base)
  }

  function Pow(b: nat, k: nat): nat
  {
    if k == 0 then 1 else b * Pow(b, k - 1)
  }

  /** One step of positional notation: `n` is its last digit plus `base` times the rest. */
  lemma DivStep(n: nat, base: nat)
    requires 2 <= base <= n
    ensures 1 <= n / base < n && 0 <= n % base < base
    ensures n == n / base * base + n % base
  {
  }

  /** `n` written in `base` without leading zeros (Go's `%d` / `%x` of a non-negative value). */
  function NatToBase(n: nat, base: nat): (s: string)
    requires 2 <= base <= 16
    ensures 1 <= |s|
    ensures AllDigits(s, base)
    ensures s[0] == '0' <==> n == 0
    decreases n
  {
    if n < base then [Digit(n)]
    else
      DivStep(n, base);
      NatToBase(n / base, base) + [Digit(n % base)]
  }

  /** Reads a string of digits in `base`, most significant first. */
  function ParseBase(s: string, base: nat): nat
    requires 2 <= base <= 16
    requires AllDigits(s, base)
  {
    if s == [] then 0 else ParseBase(s[..|s| - 1], base) * base + DigitValue(s[|s| - 1])
  }

  /** Writing a number and reading it back gives the number. */
  lemma {:induction false} ParseNatToBase(n: nat, base: nat)
    requires 2 <= base <= 16
    ensures ParseBase(NatToBase(n, base), base) == n
    decreases n
  {
    var s := NatToBase(n, base);
    if n >= base {
      DivStep(n, base);
      assert s[..|s| - 1] == NatToBase(n / base, base);
      ParseNatToBase(n / base, base);
    }
  }

  /** A number below `base^k` takes at most `k` digits. */
  lemma {:induction false} NatToBaseLength(n: nat, base: nat, k: nat)
    requires 2 <= base <= 16
    requires 1 <= k && n < Pow(base, k)
    ensures |NatToBase(n, base)| <= k
    decreases k
  {
    if n >= base {
      assert n / base < Pow(base, k - 1) by {
        assert Pow(base, k) == base * Pow(base, k - 1);
        assert n / base * base <= n;
      }
      NatToBaseLength(n / base, base, k - 1);
    }
  }

  /** Go's `%d`: an optional minus sign followed by decimal digits. */
  function Decimal(i: int): (s: string)
    ensures 1 <= |s|
    ensures s[0] == '-' <==> i < 0
  {
    if i < 0 then "-" + NatToBase(-i, 10) else NatToBase(i, 10)
  }

  /** Reads what `Decimal` writes: an optional minus sign and decimal digits. */
  function ParseDecimal(s: string): int
    requires s != [] && s[0] == '-' ==> AllDigits(s[1..], 10)
    requires s == [] || s[0] != '-' ==> AllDigits(s, 10)
  {
    if s != [] && s[0] == '-' then 0 - ParseBase(s[1..], 10) else ParseBase(s, 10)
  }

  /** Every integer survives `%d` formatting and reading back. */
  lemma DecimalRoundTrip(i: int)
    ensures var s := Decimal(i);
      && (s[0] == '-' ==> AllDigits(s[1..], 10))
      && (s[0] != '-' ==> AllDigits(s, 10))
      && ParseDecimal(s) == i
  {
    if i < 0 {
      assert Decimal(i)[1..] == NatToBase(-i, 10);
      ParseNatToBase(-i, 10);
    } else {
      ParseNatToBase(i, 10);
    }
  }

  function Zeros(k: int): (s: string)
    ensures |s| == if k < 0 then 0 else k
    ensures forall i :: 0 <= i < |s| ==> s[i] == '0'
  {
    if k <= 0 then "" else Zeros(k - 1) + "0"
  }

  /** Go's `%0<width>d`: zeros are inserted after any sign until the text is `width` long. */
  function ZeroPad(i: int, width: nat): (s: string)
  {
    if i < 0 then
      var digits := NatToBase(-i, 10);
      "-" + Zeros(width - 1 - |digits|) + digits
    else
      var digits := NatToBase(i, 10);
      Zeros(width - |digits|) + digits
  }

  /** Leading zeros do not change the value of a digit string. */
  lemma {:induction false} ParseLeadingZeros(k: nat, s: string)
    requires AllDigits(s, 10)
    ensures AllDigits(Zeros(k) + s, 10)
    ensures ParseBase(Zeros(k) + s, 10) == ParseBase(s, 10)
    decreases |s|
  {
    var z := Zeros(k);
    assert forall i :: 0 <= i < |z| ==> z[i] == '0';
    if s == [] {
      assert z + s == z;
      ParseZeros(k);
    } else {
      assert (z + s)[..|z + s| - 1] == z + s[..|s| - 1];
      ParseLeadingZeros(k, s[..|s| - 1]);
    }
  }

  lemma {:induction false} ParseZeros(k: nat)
    ensures AllDigits(Zeros(k), 10)
    ensures ParseBase(Zeros(k), 10) == 0
    decreases k
  {
    if k > 0 {
      var z := Zeros(k);
      assert z[..|z| - 1] == Zeros(k - 1);
      ParseZeros(k - 1);
    }
  }

  /** A padded non-negative field below `10^width` is exactly `width` digits and reads back to
      its value: the fixed-width columns of a date stamp. */
  lemma ZeroPadField(i: nat, width: nat)
    requires 1 <= width && i < Pow(10, width)
    ensures |ZeroPad(i, width)| == width
    ensures AllDigits(ZeroPad(i, width), 10)
    ensures ParseBase(ZeroPad(i, width), 10) == i
  {
    var digits := NatToBase(i, 10);
    NatToBaseLength(i, 10, width);
    ParseNatToBase(i, 10);
    ParseLeadingZeros(width - |digits|, digits);
  }

  /** How many times `c` occurs in `s`. */
  function Count(s: string, c: char): nat
  {
    if s == [] then 0 else (if s[0] == c then 1 else 0) + Count(s[1..], c)
  }

  /** Go's `strings.Split` with a one-character separator: the pieces between
      separators, one more than there are separators, none containing one. */
  function Split(s: string, sep: char): (parts: seq<string>)
    ensures |parts| == Count(s, sep) + 1
    ensures forall i :: 0 <= i < |parts| ==> sep !in parts[i]
  {
    if s == [] then [""]
    else
      var rest := Split(s[1..], sep);
      if s[0] == sep then [""] + rest else [[s[0]] + rest[0]] + rest[1..]
  }

  /** Go's `strings.Join` with a one-character separator. */
  function Join(parts: seq<string>, sep: char): string
  {
    if parts == [] then ""
    else if |parts| == 1 then parts[0]
    else parts[0] + [sep] + Join(parts[1..], sep)
  }

  /** Joining the pieces of a split restores the original text. */
  lemma {:induction false} JoinSplit(s: string, sep: char)
    ensures Join(Split(s, sep), sep) == s
    decreases |s|
  {
    if s != [] {
      var rest := Split(s[1..], sep);
      JoinSplit(s[1..], sep);
      if s[0] == sep {
        assert Split(s, sep) == [""] + rest;
        assert Join([""] + rest, sep) == "" + [sep] + Join(rest, sep);
        assert s == [s[0]] + s[1..];
      } else {
        var parts := [[s[0]] + rest[0]] + rest[1..];
        assert Split(s, sep) == parts;
        if |rest| == 1 {
          assert Join(parts, sep) == [s[0]] + rest[0];
          assert s == [s[0]] + s[1..];
        } else {
          assert parts[1..] == rest[1..];
          assert Join(rest, sep) == rest[0] + [sep] + Join(rest[1..], sep);
          assert s == [s[0]] + s[1..];
        }
      }
    }
  }

  /** Splitting a join of separator-free pieces gives the pieces back. */
  lemma {:induction false} SplitJoin(parts: seq<string>, sep: char)
    requires 1 <= |parts|
    requires forall i :: 0 <= i < |parts| ==> sep !in parts[i]
    ensures Split(Join(parts, sep), sep) == parts
    decreases |parts|
  {
    if |parts| == 1 {
      SplitFree(parts[0], sep);
    } else {
      var tail := Join(parts[1..], sep);
      SplitJoin(parts[1..], sep);
      SplitAfter(parts[0], sep, tail);
    }
  }

  /** A separator-free string splits into itself. */
  lemma {:induction false} SplitFree(p: string, sep: char)
    requires sep !in p
    ensures Split(p, sep) == [p]
    decreases |p|
  {
    if p != [] {
      assert sep !in p[1..] by {
        assert forall i :: 0 <= i < |p| - 1 ==> p[1..][i] == p[i + 1];
      }
      SplitFree(p[1..], sep);
      assert [p[0]] + p[1..] == p;
    }
  }

  /** Splitting `p + sep + t` for a separator-free `p` puts `p` in front of the pieces of `t`. */
  lemma {:induction false} SplitAfter(p: string, sep: char, t: string)
    requires sep !in p
    ensures Split(p + [sep] + t, sep) == [p] + Split(t, sep)
    decreases |p|
  {
    var s := p + [sep] + t;
    if p == [] {
      assert s[0] == sep && s[1..] == t;
    } else {
      assert s[0] == p[0] && s[0] != sep;
      assert s[1..] == p[1..] + [sep] + t;
      assert sep !in p[1..] by {
        assert forall i :: 0 <= i < |p| - 1 ==> p[1..][i] == p[i + 1];
      }
      SplitAfter(p[1..], sep, t);
      assert [p[0]] + p[1..] == p;
    }
  }

  /** `last`, the final piece of `parts`, is what follows the final separator of `s`. */
  predicate EndsWithLastPiece(s: string, sep: char, parts: seq<string>)
    requires |parts| >= 1
  {
    var last := parts[|parts| - 1];
    && |last| <= |s|
    && s[|s| - |last|..] == last
    && (|parts| > 1 ==> |last| < |s| && s[|s| - |last| - 1] == sep)
    && (|parts| == 1 ==> last == s)
  }

  /** The last piece of a split is the text after the last separator. */
  lemma {:induction false} SplitLast(s: string, sep: char)
    ensures var parts := Split(s, sep);
      var last := parts[|parts| - 1];
      && |last| <= |s|
      && s[|s| - |last|..] == last
      && (|parts| > 1 ==> |last| < |s| && s[|s| - |last| - 1] == sep)
      && (|parts| == 1 ==> last == s)
    decreases |s|
  {
    if s != [] {
      SplitLast(s[1..], sep);
      LastPieceStep(s, sep, Split(s[1..], sep), Split(s, sep));
    }
  }

  /** One step of the split, seen from its last piece: putting the first
      character in front keeps the last piece at the end. */
  lemma LastPieceStep(s: string, sep: char, rest: seq<string>, parts: seq<string>)
    requires s != [] && |rest| >= 1
    requires parts == if s[0] == sep then [""] + rest else [[s[0]] + rest[0]] + rest[1..]
    requires EndsWithLastPiece(s[1..], sep, rest)
    ensures EndsWithLastPiece(s, sep, parts)
  {
    var tail := s[1..];
    var last := rest[|rest| - 1];
    assert s[|s| - |last|..] == tail[|tail| - |last|..];
    if s[0] == sep {
      assert parts[|parts| - 1] == last;
      if |rest| == 1 {
        assert s[|s| - |last| - 1] == s[0];
      } else {
        assert s[|s| - |last| - 1] == tail[|tail| - |last| - 1];
      }
    } else if |rest| == 1 {
      assert parts == [[s[0]] + rest[0]];
      assert [s[0]] + tail == s;
    } else {
      assert parts[|parts| - 1] == last;
      assert s[|s| - |last| - 1] == tail[|tail| - |last| - 1];
    }
  }
}
