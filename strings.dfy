/** Python string behaviour the dashboards rely on: comparison (used by every
    `groupby` and `sort_values` on a text column), `str.upper()`, a
    case-insensitive `str.contains`, and zero-padded decimal text. */
module Strings {

  /** Python's `a < b` on `str`: lexicographic by code point. */
  predicate StrLess(a: string, b: string) {
    if a == [] then b != []
    else if b == [] then false
    else if a[0] != b[0] then a[0] < b[0]
    else StrLess(a[1..], b[1..])
  }

  lemma {:induction false} StrLessIrreflexive(a: string)
    ensures !StrLess(a, a)
  {
    if a != [] {
      StrLessIrreflexive(a[1..]);
    }
  }

  lemma {:induction false} StrLessTransitive(a: string, b: string, c: string)
    requires StrLess(a, b) && StrLess(b, c)
    ensures StrLess(a, c)
  {
    if a != [] && a[0] == b[0] && b[0] == c[0] {
      StrLessTransitive(a[1..], b[1..], c[1..]);
    }
  }

  lemma {:induction false} StrLessTotal(a: string, b: string)
    ensures a == b || StrLess(a, b) || StrLess(b, a)
  {
    if a != [] && b != [] && a[0] == b[0] {
      StrLessTotal(a[1..], b[1..]);
      if a[1..] == b[1..] {
        assert a == [a[0]] + a[1..] && b == [b[0]] + b[1..];
      }
    }
  }

  /** Comparing two texts that start with equally long parts: the first
      parts decide, and only when they are equal do the rest. */
  lemma {:induction false} StrLessConcat(x: string, y: string, x': string, y': string)
    requires |x| == |x'|
    ensures StrLess(x + y, x' + y') <==> StrLess(x, x') || (x == x' && StrLess(y, y'))
  {
    if x == [] {
      assert x + y == y && x' + y' == y';
    } else {
      assert (x + y)[0] == x[0] && (x' + y')[0] == x'[0];
      assert (x + y)[1..] == x[1..] + y && (x' + y')[1..] == x'[1..] + y';
      StrLessConcat(x[1..], y, x'[1..], y');
      if x[0] == x'[0] && x[1..] == x'[1..] {
        assert x == [x[0]] + x[1..] && x' == [x'[0]] + x'[1..];
      }
    }
  }

  // ---------------------------------------------------------------------
  // Case

  /** `str.upper()` of one character, for the code points below U+0100:
      ASCII and Latin-1 letters (`ñ`, `á`, ...) map to their capitals,
      `ß` to "SS", `ÿ` to `Ÿ` and `µ` to Greek capital mu. */
  function UpperChar(c: char): (r: string)
    ensures 'a' <= c <= 'z' ==> r == [(c as int - 32) as char]
    ensures 'A' <= c <= 'Z' || '0' <= c <= '9' || c == ' ' ==> r == [c]
  {
    if 'a' <= c <= 'z' then [(c as int - 32) as char]
    else if 'à' <= c <= 'þ' && c != '÷' then [(c as int - 32) as char]
    else if c == 'ß' then "SS"
    else if c == 'ÿ' then ['Ÿ']
    else if c == 'µ' then ['Μ']
    else [c]
  }

  /** `str.upper()` for text whose letters are ASCII or Latin-1; letters
      beyond U+00FF are left as they are. */
  function Upper(s: string): string {
    if s == [] then [] else UpperChar(s[0]) + Upper(s[1..])
  }

  lemma {:induction false} UpperAppend(a: string, b: string)
    ensures Upper(a + b) == Upper(a) + Upper(b)
  {
    if a == [] {
      assert a + b == b;
    } else {
      assert (a + b)[0] == a[0] && (a + b)[1..] == a[1..] + b;
      UpperAppend(a[1..], b);
    }
  }

  /** Case folding of one character for a case-insensitive match: ASCII
      and Latin-1 capitals map to their small letters. */
  function FoldChar(c: char): (r: char)
    ensures 'A' <= c <= 'Z' ==> r as int == c as int + 32
    ensures 'a' <= c <= 'z' ==> r == c
  {
    if 'A' <= c <= 'Z' then (c as int + 32) as char
    else if 'À' <= c <= 'Þ' && c != '×' then (c as int + 32) as char
    else c
  }

  function Fold(s: string): (r: string)
    ensures |r| == |s|
    ensures forall i :: 0 <= i < |s| ==> r[i] == FoldChar(s[i])
  {
    if s == [] then [] else [FoldChar(s[0])] + Fold(s[1..])
  }

  /** `pattern` occurs in `s` as a contiguous piece. */
  predicate Contains(s: string, pattern: string) {
    (|pattern| <= |s| && s[..|pattern|] == pattern) || (s != [] && Contains(s[1..], pattern))
  }

  /** `s.str.contains(pattern, case=False)` for a pattern without regular
      expression syntax. */
  predicate ContainsIgnoringCase(s: string, pattern: string) {
    Contains(Fold(s), Fold(pattern))
  }

  // ---------------------------------------------------------------------
  // Decimal text

  function Pow10(w: nat): (p: nat)
    ensures p >= 1
  {
    if w == 0 then 1 else 10 * Pow10(w - 1)
  }

  function DigitChar(d: int): (c: char)
    requires 0 <= d < 10
    ensures '0' <= c <= '9'
    ensures c as int == '0' as int + d
  {
    ('0' as int + d) as char
  }

  /** The last `w` decimal digits of `n`, zero-padded (`%04d`, `%02d`). */
  function Pad(n: nat, w: nat): (r: string)
    ensures |r| == w
    ensures forall i :: 0 <= i < w ==> '0' <= r[i] <= '9'
  {
    if w == 0 then [] else Pad(n / 10, w - 1) + [DigitChar(n % 10)]
  }

  /** Zero-padded numbers of one width compare as text exactly as they
      compare as numbers, and equal text means equal numbers. */
  lemma {:induction false} PadOrder(n: nat, m: nat, w: nat)
    requires n < Pow10(w) && m < Pow10(w)
    ensures StrLess(Pad(n, w), Pad(m, w)) <==> n < m
    ensures Pad(n, w) == Pad(m, w) <==> n == m
  {
    if w == 0 {
      assert n == 0 && m == 0;
    } else {
      PadOrder(n / 10, m / 10, w - 1);
      var dn, dm := [DigitChar(n % 10)], [DigitChar(m % 10)];
      StrLessConcat(Pad(n / 10, w - 1), dn, Pad(m / 10, w - 1), dm);
      assert StrLess(dn, dm) <==> n % 10 < m % 10 by {
        assert dn[1..] == [] && dm[1..] == [];
      }
      assert n == 10 * (n / 10) + n % 10 && m == 10 * (m / 10) + m % 10;
      if Pad(n, w) == Pad(m, w) {
        assert Pad(n / 10, w - 1) == Pad(n, w)[..w - 1] == Pad(m, w)[..w - 1] == Pad(m / 10, w - 1);
        assert Pad(n, w)[w - 1] == DigitChar(n % 10) && Pad(m, w)[w - 1] == DigitChar(m % 10);
      }
    }
  }

  /** A zero-padded number followed by more text: the numbers decide, and
      only equal numbers let the rest decide. */
  lemma PadThen(n: nat, m: nat, w: nat, y: string, y': string)
    requires n < Pow10(w) && m < Pow10(w)
    ensures StrLess(Pad(n, w) + y, Pad(m, w) + y') <==> n < m || (n == m && StrLess(y, y'))
    ensures Pad(n, w) + y == Pad(m, w) + y' <==> n == m && y == y'
  {
    PadOrder(n, m, w);
    StrLessConcat(Pad(n, w), y, Pad(m, w), y');
    if Pad(n, w) + y == Pad(m, w) + y' {
      assert Pad(n, w) == (Pad(n, w) + y)[..w] && Pad(m, w) == (Pad(m, w) + y')[..w];
      assert y == (Pad(n, w) + y)[w..] && y' == (Pad(m, w) + y')[w..];
    }
  }

  /** A shared separator in front changes neither order nor equality. */
  lemma SeparatorThen(c: char, y: string, y': string)
    ensures StrLess([c] + y, [c] + y') <==> StrLess(y, y')
    ensures [c] + y == [c] + y' <==> y == y'
  {
    assert ([c] + y)[1..] == y && ([c] + y')[1..] == y';
  }

  /** `str(n)` for a natural number. */
  function NatToString(n: nat): (r: string)
    ensures |r| >= 1 && '0' <= r[0] <= '9'
    decreases n
  {
    if n < 10 then [DigitChar(n)] else NatToString(n / 10) + [DigitChar(n % 10)]
  }

  /** `str(i)` for an integer. */
  function IntToString(i: int): (r: string)
    ensures |r| >= 1
    ensures i < 0 <==> r[0] == '-'
  {
    if i < 0 then "-" + NatToString(-i) else NatToString(i)
  }

  lemma {:induction false} NatToStringDigits(n: nat)
    ensures forall k :: 0 <= k < |NatToString(n)| ==> '0' <= NatToString(n)[k] <= '9'
  {
    if n >= 10 {
      NatToStringDigits(n / 10);
    }
  }
}
