/** The string and byte-string operations the decoder and the exporter rely
    on: Go's `bytes.Trim`, `strings.TrimSpace` and `string([]byte)`, and
    Python's ctypes `c_char` array read, `bytes.decode`, `str.strip`,
    `str.replace`, `str(int)` and `int(str)`. */
module Text {
  import opened Bytes

  /** The characters Go's `unicode.IsSpace` accepts among one-byte characters. */
  predicate GoSpace(c: char)
  {
    c == '\t' || c == '\n' || c == '\U{B}' || c == '\U{C}' || c == '\r' || c == ' '
  }

  /** The characters Python's `str.isspace` accepts below U+0100: the
      ASCII ones above, the separators U+001C..U+001F, U+0085 and U+00A0. */
  predicate PySpace(c: char)
  {
    GoSpace(c) || ('\U{1C}' <= c <= '\U{1F}') || c == '\U{85}' || c == '\U{A0}'
  }

  predicate IsNul(b: byte)
  {
    b == 0
  }

  predicate NotNul(b: byte)
  {
    b != 0
  }

  predicate IsDigit(c: char)
  {
    '0' <= c <= '9'
  }

  /** Drop the leading elements that satisfy `drop`. */
  function TrimLeft<T>(s: seq<T>, drop: T -> bool): (r: seq<T>)
    ensures |r| <= |s| && r == s[|s| - |r|..]
    ensures r != [] ==> !drop(r[0])
    ensures forall i :: 0 <= i < |s| - |r| ==> drop(s[i])
  {
    if s != [] && drop(s[0]) then
      var r := TrimLeft(s[1..], drop);
      assert s[1..][|s| - 1 - |r|..] == s[|s| - |r|..];
      assert forall i :: 1 <= i < |s| - |r| ==> s[i] == s[1..][i - 1];
      r
    else s
  }

  /** Drop the trailing elements that satisfy `drop`. */
  function TrimRight<T>(s: seq<T>, drop: T -> bool): (r: seq<T>)
    ensures |r| <= |s| && r == s[..|r|]
    ensures r != [] ==> !drop(r[|r| - 1])
    ensures forall i :: |r| <= i < |s| ==> drop(s[i])
  {
    if s != [] && drop(s[|s| - 1]) then
      var r := TrimRight(s[..|s| - 1], drop);
      assert s[..|s| - 1][..|r|] == s[..|r|];
      assert forall i :: |r| <= i < |s| - 1 ==> s[i] == s[..|s| - 1][i];
      r
    else s
  }

  /** Drop both ends: Go's `bytes.Trim(s, "\x00")` and `strings.TrimSpace`,
      Python's `str.strip()`, each with its own `drop`. */
  function Trim<T>(s: seq<T>, drop: T -> bool): (r: seq<T>)
    ensures |r| <= |s|
    ensures r != [] ==> !drop(r[0]) && !drop(r[|r| - 1])
  {
    TrimRight(TrimLeft(s, drop), drop)
  }

  lemma {:induction false} TrimLeftOf<T>(a: seq<T>, m: seq<T>, drop: T -> bool)
    requires forall i :: 0 <= i < |a| ==> drop(a[i])
    requires m != [] ==> !drop(m[0])
    ensures TrimLeft(a + m, drop) == m
  {
    if a != [] {
      assert (a + m)[1..] == a[1..] + m;
      TrimLeftOf(a[1..], m, drop);
    }
  }

  lemma {:induction false} TrimRightOf<T>(m: seq<T>, b: seq<T>, drop: T -> bool)
    requires forall i :: 0 <= i < |b| ==> drop(b[i])
    requires m != [] ==> !drop(m[|m| - 1])
    ensures TrimRight(m + b, drop) == m
  {
    if b != [] {
      var b' := b[..|b| - 1];
      assert (m + b)[..|m + b| - 1] == m + b';
      TrimRightOf(m, b', drop);
    }
  }

  /** Trim is characterised by what it removes: if `s` is droppable padding,
      a core whose two ends are not droppable, and droppable padding again,
      Trim returns the core. */
  lemma TrimOf<T>(a: seq<T>, m: seq<T>, b: seq<T>, drop: T -> bool)
    requires forall i :: 0 <= i < |a| ==> drop(a[i])
    requires forall i :: 0 <= i < |b| ==> drop(b[i])
    requires m != [] ==> !drop(m[0]) && !drop(m[|m| - 1])
    ensures Trim(a + m + b, drop) == m
  {
    assert a + m + b == a + (m + b);
    if m == [] {
      assert a + m + b == a + b;
    } else {
      TrimLeftOf(a, m + b, drop);
      TrimRightOf(m, b, drop);
    }
  }

  lemma TrimIdempotent<T>(s: seq<T>, drop: T -> bool)
    ensures Trim(Trim(s, drop), drop) == Trim(s, drop)
  {
    TrimFixed(Trim(s, drop), drop);
  }

  /** A sequence whose two ends are not droppable is left alone. */
  lemma TrimFixed<T>(r: seq<T>, drop: T -> bool)
    requires r != [] ==> !drop(r[0]) && !drop(r[|r| - 1])
    ensures Trim(r, drop) == r
  {
    assert TrimLeft(r, drop) == r;
    assert TrimRight(r, drop) == r;
  }

  /** The length of the longest prefix whose elements all satisfy `keep`. */
  function Span<T>(s: seq<T>, keep: T -> bool): (n: nat)
    ensures n <= |s|
    ensures forall i :: 0 <= i < n ==> keep(s[i])
    ensures n < |s| ==> !keep(s[n])
  {
    if s != [] && keep(s[0]) then 1 + Span(s[1..], keep) else 0
  }

  /** Span stops at the first element outside the class. */
  lemma SpanStops<T>(a: seq<T>, b: seq<T>, keep: T -> bool)
    requires forall i :: 0 <= i < |a| ==> keep(a[i])
    requires b != [] && !keep(b[0])
    ensures Span(a + b, keep) == |a|
  {
    assert (a + b)[|a|] == b[0];
    assert forall i :: 0 <= i < |a| ==> (a + b)[i] == a[i];
  }

  lemma SpanAll<T>(a: seq<T>, keep: T -> bool)
    requires forall i :: 0 <= i < |a| ==> keep(a[i])
    ensures Span(a, keep) == |a|
  {
  }

  /** Go's `string(b)`: one character per byte. The same mapping stands for
      Python's `b.decode()`, which agrees with it on ASCII bytes. */
  function Chars(b: seq<byte>): (s: string)
    ensures |s| == |b| && forall i :: 0 <= i < |b| ==> s[i] as int == b[i] && s[i] == b[i] as char
  {
    seq(|b|, i requires 0 <= i < |b| => b[i] as char)
  }

  /** `Chars` maps a concatenation piece by piece. */
  lemma CharsConcat(a: seq<byte>, b: seq<byte>)
    ensures Chars(a + b) == Chars(a) + Chars(b)
  {
    assert forall i :: 0 <= i < |a + b| ==> Chars(a + b)[i] == (Chars(a) + Chars(b))[i];
  }

  /** Go's `strings.HasPrefix` and Python's `str.startswith`. */
  predicate HasPrefix(s: string, p: string)
  {
    |p| <= |s| && s[..|p|] == p
  }

  predicate IsLatin1(s: string)
  {
    forall i :: 0 <= i < |s| ==> s[i] as int < 0x100
  }

  /** The bytes of a string whose characters all fit in a byte. */
  function Latin1(s: string): (b: seq<byte>)
    requires IsLatin1(s)
    ensures |b| == |s| && Chars(b) == s
  {
    seq(|s|, i requires 0 <= i < |s| => s[i] as int)
  }

  /** What ctypes returns for a `c_char * n` field: the bytes before the
      first NUL. */
  function CString(b: seq<byte>): (r: seq<byte>)
    ensures |r| <= |b| && r == b[..|r|]
    ensures forall i :: 0 <= i < |r| ==> r[i] != 0
    ensures |r| < |b| ==> b[|r|] == 0
  {
    b[..Span(b, NotNul)]
  }

  /** Python's `s.replace(pat, rep)` for a non-empty pattern: occurrences
      are found left to right and do not overlap. */
  function ReplaceAll(s: string, pat: string, rep: string): string
    requires pat != []
    decreases |s|
  {
    if |s| < |pat| then s
    else if s[..|pat|] == pat then rep + ReplaceAll(s[|pat|..], pat, rep)
    else [s[0]] + ReplaceAll(s[1..], pat, rep)
  }

  /** Replacing one character by another maps the string character by character. */
  lemma {:induction false} ReplaceCharAt(s: string, pat: string, rep: string)
    requires |pat| == 1 && |rep| == 1
    ensures |ReplaceAll(s, pat, rep)| == |s|
    ensures forall i :: 0 <= i < |s| ==>
      ReplaceAll(s, pat, rep)[i] == (if s[i] == pat[0] then rep[0] else s[i])
  {
    if |s| >= 1 {
      ReplaceCharAt(s[1..], pat, rep);
      if s[..1] == pat {
        assert s[0] == pat[0];
      } else {
        assert s[0] != pat[0];
      }
    }
  }

  /** Deleting occurrences of a pattern never introduces a character. */
  lemma {:induction false} DeleteKeepsCharacters(s: string, pat: string, c: char)
    requires pat != []
    requires c in ReplaceAll(s, pat, "")
    ensures c in s
  {
    if |s| >= |pat| {
      if s[..|pat|] == pat {
        assert ReplaceAll(s, pat, "") == ReplaceAll(s[|pat|..], pat, "");
        DeleteKeepsCharacters(s[|pat|..], pat, c);
      } else {
        var rest := ReplaceAll(s[1..], pat, "");
        assert ReplaceAll(s, pat, "") == [s[0]] + rest;
        if c != s[0] {
          DeleteKeepsCharacters(s[1..], pat, c);
        }
      }
    }
  }

  /** A string that does not contain the pattern's first character is left alone. */
  lemma {:induction false} ReplaceAbsent(s: string, pat: string, rep: string)
    requires pat != [] && pat[0] !in s
    ensures ReplaceAll(s, pat, rep) == s
  {
    if |s| >= |pat| {
      assert s[..|pat|] != pat by { assert s[0] != pat[0]; }
      ReplaceAbsent(s[1..], pat, rep);
    }
  }

  /** Python's `str(n)` for a non-negative integer. */
  function Decimal(n: nat): (s: string)
    ensures |s| > 0 && forall i :: 0 <= i < |s| ==> IsDigit(s[i])
  {
    if n < 10 then [('0' as int + n) as char]
    else Decimal(n / 10) + [('0' as int + n % 10) as char]
  }

  /** Python's `int(s)` for a string of ASCII digits. */
  function ParseDecimal(s: string): nat
    requires forall i :: 0 <= i < |s| ==> IsDigit(s[i])
  {
    if s == [] then 0
    else
      assert IsDigit(s[|s| - 1]);
      10 * ParseDecimal(s[..|s| - 1]) + (s[|s| - 1] as int - '0' as int)
  }

  lemma {:induction false} ParseDecimalOfDecimal(n: nat)
    ensures ParseDecimal(Decimal(n)) == n
  {
    if n >= 10 {
      var s := Decimal(n);
      assert s[..|s| - 1] == Decimal(n / 10);
      ParseDecimalOfDecimal(n / 10);
    }
  }
}
