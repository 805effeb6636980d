/** The JavaScript string built-ins that the user interface relies on:
    `split` with a one-character separator, `trim`, `replace` with a string
    pattern (first occurrence only), `length` in UTF-16 code units, an ASCII
    `toUpperCase`, and `String(n)` for integral numbers. Strings are
    sequences of Unicode scalar values. */
module JsString {

  /** ECMAScript WhiteSpace and LineTerminator code points: exactly the
      characters `String.prototype.trim` removes. */
  predicate IsWhitespace(c: char) {
    var n := c as int;
    n == 0x09 || n == 0x0A || n == 0x0B || n == 0x0C || n == 0x0D || n == 0x20
    || n == 0xA0 || n == 0x1680 || (0x2000 <= n <= 0x200A)
    || n == 0x2028 || n == 0x2029 || n == 0x202F || n == 0x205F
    || n == 0x3000 || n == 0xFEFF
  }

  predicate AllWhitespace(s: string) {
    forall i :: 0 <= i < |s| ==> IsWhitespace(s[i])
  }

  /** Number of occurrences of `c` in `s`. */
  function Count(s: string, c: char): nat {
    if s == [] then 0 else (if s[0] == c then 1 else 0) + Count(s[1..], c)
  }

  // ---------------------------------------------------------------- trim

  /** `trimStart`: the longest suffix of `s` that does not start with
      whitespace; every character dropped is whitespace. */
  function TrimStart(s: string): (r: string)
    ensures |r| <= |s| && r == s[|s| - |r|..]
    ensures r == [] || !IsWhitespace(r[0])
    ensures forall i :: 0 <= i < |s| - |r| ==> IsWhitespace(s[i])
  {
    if s != [] && IsWhitespace(s[0]) then TrimStart(s[1..]) else s
  }

  /** `trimEnd`: the longest prefix of `s` that does not end with
      whitespace; every character dropped is whitespace. */
  function TrimEnd(s: string): (r: string)
    ensures |r| <= |s| && r == s[..|r|]
    ensures r == [] || !IsWhitespace(r[|r| - 1])
    ensures forall i :: |r| <= i < |s| ==> IsWhitespace(s[i])
  {
    if s != [] && IsWhitespace(s[|s| - 1]) then TrimEnd(s[..|s| - 1]) else s
  }

  /** `String.prototype.trim`: the middle of `s` left after dropping the
      whitespace at both ends. */
  function Trim(s: string): (r: string)
    ensures |r| <= |s|
    ensures r == [] || (!IsWhitespace(r[0]) && !IsWhitespace(r[|r| - 1]))
  {
    TrimEnd(TrimStart(s))
  }

  /** What `trim` keeps is a slice of `s`, and everything it cuts off on
      either side is whitespace. */
  lemma TrimIsMiddle(s: string)
    ensures exists a | 0 <= a <= |s| - |Trim(s)| ::
      && Trim(s) == s[a..a + |Trim(s)|]
      && AllWhitespace(s[..a])
      && AllWhitespace(s[a + |Trim(s)|..])
  {
    var t := TrimStart(s);
    var r := TrimEnd(t);
    var a := |s| - |t|;
    StartDropsWhitespace(s);
    EndDropsWhitespace(t);
    assert s[a + |r|..] == t[|r|..];
    assert r == s[a..a + |r|];
  }

  /** What `trimStart` drops is whitespace. */
  lemma StartDropsWhitespace(s: string)
    ensures AllWhitespace(s[..|s| - |TrimStart(s)|])
  {
    var a := |s| - |TrimStart(s)|;
    assert forall i :: 0 <= i < a ==> s[..a][i] == s[i];
  }

  /** What `trimEnd` drops is whitespace. */
  lemma EndDropsWhitespace(s: string)
    ensures AllWhitespace(s[|TrimEnd(s)|..])
  {
    var b := |TrimEnd(s)|;
    assert forall j :: 0 <= j < |s| - b ==> s[b..][j] == s[b + j];
  }

  /** A string trims to `''` (a falsy value) exactly when every character
      of it is whitespace. */
  lemma TrimEmptyIffBlank(s: string)
    ensures Trim(s) == [] <==> AllWhitespace(s)
  {
    var t := TrimStart(s);
    if Trim(s) == [] {
      assert t == [];
    } else {
      var k := |s| - |t|;
      assert !IsWhitespace(t[0]) && s[k] == t[0];
    }
  }

  // ------------------------------------------------------- split and join

  /** `s.split(sep)` for a one-character separator: the pieces between
      separators, empty pieces included, never fewer than one. */
  function Split(s: string, sep: char): (r: seq<string>)
    ensures |r| == Count(s, sep) + 1
    ensures forall i :: 0 <= i < |r| ==> sep !in r[i]
  {
    if s == [] then [""]
    else
      var rest := Split(s[1..], sep);
      if s[0] == sep then [""] + rest
      else [[s[0]] + rest[0]] + rest[1..]
  }

  /** `pieces.join(sep)` with a one-character separator. */
  function Join(pieces: seq<string>, sep: char): string {
    if |pieces| == 0 then ""
    else if |pieces| == 1 then pieces[0]
    else pieces[0] + [sep] + Join(pieces[1..], sep)
  }

  /** Joining the pieces of a split with the same separator gives back the
      original string. */
  lemma {:induction false} JoinSplit(s: string, sep: char)
    ensures Join(Split(s, sep), sep) == s
  {
    if s != [] {
      var rest := Split(s[1..], sep);
      JoinSplit(s[1..], sep);
      if s[0] == sep {
        assert s == [sep] + s[1..];
      } else if |rest| == 1 {
        assert s == [s[0]] + s[1..];
      } else {
        assert Join(rest, sep) == rest[0] + [sep] + Join(rest[1..], sep);
        assert s == [s[0]] + s[1..];
      }
    }
  }

  /** Splitting text that begins with a separator-free piece `p`. */
  lemma {:induction false} SplitAfterPiece(p: string, t: string, sep: char)
    requires sep !in p
    ensures Split(p + t, sep) == [p + Split(t, sep)[0]] + Split(t, sep)[1..]
  {
    if p != [] {
      SplitAfterPiece(p[1..], t, sep);
      var st := Split(t, sep);
      var rest := Split(p[1..] + t, sep);
      assert (p + t)[1..] == p[1..] + t;
      assert (p + t)[0] == p[0] && p[0] != sep;
      assert Split(p + t, sep) == [[p[0]] + rest[0]] + rest[1..];
      assert rest[0] == p[1..] + st[0] && rest[1..] == st[1..];
      assert [p[0]] + (p[1..] + st[0]) == p + st[0];
    } else {
      var st := Split(t, sep);
      assert p + t == t && p + st[0] == st[0];
      assert st == [st[0]] + st[1..];
    }
  }

  /** Splitting a join of separator-free pieces gives back the pieces. */
  lemma {:induction false} SplitJoin(pieces: seq<string>, sep: char)
    requires |pieces| >= 1
    requires forall i :: 0 <= i < |pieces| ==> sep !in pieces[i]
    ensures Split(Join(pieces, sep), sep) == pieces
  {
    if |pieces| == 1 {
      SplitAfterPiece(pieces[0], "", sep);
      assert pieces[0] + "" == pieces[0];
    } else {
      var u := Join(pieces[1..], sep);
      SplitJoin(pieces[1..], sep);
      SplitAfterPiece(pieces[0], [sep] + u, sep);
      assert pieces[0] + [sep] + u == pieces[0] + ([sep] + u);
      assert Split([sep] + u, sep) == [""] + Split(u, sep) by {
        assert ([sep] + u)[1..] == u;
      }
      var x := Split([sep] + u, sep);
      assert Join(pieces, sep) == pieces[0] + [sep] + u;
      assert x[0] == "" && x[1..] == pieces[1..];
      assert pieces[0] + x[0] == pieces[0];
      assert pieces == [pieces[0]] + pieces[1..];
    }
  }

  // ------------------------------------------------------------ replace

  /** `s.indexOf(c)`: the first position of `c`, or -1 when there is none. */
  function IndexOf(s: string, c: char): (k: int)
    ensures -1 <= k < |s|
    ensures k == -1 <==> c !in s
    ensures 0 <= k ==> s[k] == c && forall i :: 0 <= i < k ==> s[i] != c
  {
    if s == [] then -1
    else if s[0] == c then 0
    else
      var k := IndexOf(s[1..], c);
      assert forall i :: 1 <= i < |s| ==> s[i] == s[1..][i - 1];
      if k == -1 then -1 else k + 1
  }

  /** `s.replace(from, to)` with a one-character string pattern: only the
      first occurrence of `from` is replaced. */
  function ReplaceFirst(s: string, from: char, to: char): (r: string)
    ensures |r| == |s|
    ensures from !in s ==> r == s
  {
    if s == [] then []
    else if s[0] == from then [to] + s[1..]
    else [s[0]] + ReplaceFirst(s[1..], from, to)
  }

  /** The one character replaced is the first occurrence of `from`. */
  lemma {:induction false} ReplaceFirstAtIndex(s: string, from: char, to: char)
    ensures from in s ==>
      ReplaceFirst(s, from, to) == s[..IndexOf(s, from)] + [to] + s[IndexOf(s, from) + 1..]
  {
    if from in s && s[0] != from {
      var k := IndexOf(s[1..], from);
      assert from in s[1..];
      ReplaceFirstAtIndex(s[1..], from, to);
      assert s[..k + 1] == [s[0]] + s[1..][..k];
      assert s[k + 2..] == s[1..][k + 1..];
    }
  }

  // ------------------------------------------------------------ suffixes

  predicate EndsWith(s: string, suffix: string) {
    |suffix| <= |s| && s[|s| - |suffix|..] == suffix
  }

  // --------------------------------------------------------- UTF-16 size

  /** `s.length`: JavaScript counts UTF-16 code units, so a character
      outside the Basic Multilingual Plane counts twice. */
  function Utf16Length(s: string): (n: nat)
    ensures |s| <= n <= 2 * |s|
  {
    if s == [] then 0
    else (if s[0] as int > 0xFFFF then 2 else 1) + Utf16Length(s[1..])
  }

  /** A single character is one code unit, or a surrogate pair (two code
      units) when it lies above U+FFFF. */
  lemma Utf16LengthOfChar(c: char)
    ensures Utf16Length([c]) == if c as int > 0xFFFF then 2 else 1
  {
  }

  /** `(a + b).length == a.length + b.length`: together with
      `Utf16LengthOfChar` this fixes the code-unit count of every string. */
  lemma {:induction false} Utf16LengthAppend(a: string, b: string)
    ensures Utf16Length(a + b) == Utf16Length(a) + Utf16Length(b)
  {
    if a != [] {
      assert (a + b)[1..] == a[1..] + b;
      Utf16LengthAppend(a[1..], b);
    } else {
      assert a + b == b;
    }
  }

  lemma {:induction false} Utf16LengthOfBmp(s: string)
    requires forall i :: 0 <= i < |s| ==> s[i] as int <= 0xFFFF
    ensures Utf16Length(s) == |s|
  {
    if s != [] {
      Utf16LengthOfBmp(s[1..]);
    }
  }

  // ------------------------------------------------------- upper casing

  /** `toUpperCase` restricted to ASCII letters. */
  function ToUpperChar(c: char): (u: char)
    ensures !('a' <= u <= 'z')
    ensures 'a' <= c <= 'z' ==> u as int == c as int - 32 && 'A' <= u <= 'Z'
    ensures !('a' <= c <= 'z') ==> u == c
  {
    if 'a' <= c <= 'z' then (c as int - 32) as char else c
  }

  function ToUpper(s: string): string {
    seq(|s|, i requires 0 <= i < |s| => ToUpperChar(s[i]))
  }

  /** Upper-casing keeps the length and leaves no lower-case ASCII letter;
      doing it twice changes nothing more. */
  lemma ToUpperProperties(s: string)
    ensures |ToUpper(s)| == |s|
    ensures forall i :: 0 <= i < |s| ==> !('a' <= ToUpper(s)[i] <= 'z')
    ensures ToUpper(ToUpper(s)) == ToUpper(s)
  {
  }

  // ------------------------------------------------------ number text

  function DigitChar(d: nat): char
    requires d < 10
  {
    ('0' as int + d) as char
  }

  predicate IsDigit(c: char) {
    '0' <= c <= '9'
  }

  /** Decimal digits of a natural number, most significant first. */
  function NatDigits(n: nat): (r: string)
    ensures r != []
    ensures forall i :: 0 <= i < |r| ==> IsDigit(r[i])
    ensures |r| > 1 ==> r[0] != '0'
  {
    if n < 10 then [DigitChar(n)] else NatDigits(n / 10) + [DigitChar(n % 10)]
  }

  /** The number a string of decimal digits denotes. */
  function DigitsValue(s: string): nat
    requires forall i :: 0 <= i < |s| ==> IsDigit(s[i])
  {
    if s == [] then 0 else DigitsValue(s[..|s| - 1]) * 10 + DigitOf(s[|s| - 1])
  }

  function DigitOf(c: char): nat
    requires IsDigit(c)
  {
    c as int - '0' as int
  }

  lemma {:induction false} DigitsRoundTrip(n: nat)
    ensures DigitsValue(NatDigits(n)) == n
  {
    if n >= 10 {
      DigitsRoundTrip(n / 10);
      var r := NatDigits(n);
      assert r[..|r| - 1] == NatDigits(n / 10);
    }
  }

  /** `String(n)` for an integral number. */
  function NumberToString(n: int): (r: string)
    ensures r != []
    ensures n < 0 <==> r[0] == '-'
    ensures var u := if n < 0 then r[1..] else r;
      && u != []
      && (forall i :: 0 <= i < |u| ==> IsDigit(u[i]))
      && (|u| > 1 ==> u[0] != '0')
      && DigitsValue(u) == if n < 0 then -n else n
  {
    DigitsRoundTrip(if n < 0 then -n else n);
    if n < 0 then "-" + NatDigits(-n) else NatDigits(n)
  }
}
