/** `process_text` from the text-cleaning script: `' '.join(text.split())`,
    which collapses every run of whitespace to one space and drops leading
    and trailing whitespace. */
module TextPy {

  /** The characters Python's `str.split()` (no argument) splits on: those
      for which `str.isspace()` holds. */
  predicate IsSpace(c: char) {
    var n := c as int;
    (0x09 <= n <= 0x0D) || (0x1C <= n <= 0x20)
    || n == 0x85 || n == 0xA0 || n == 0x1680 || (0x2000 <= n <= 0x200A)
    || n == 0x2028 || n == 0x2029 || n == 0x202F || n == 0x205F || n == 0x3000
  }

  predicate AllSpace(s: string) {
    forall i :: 0 <= i < |s| ==> IsSpace(s[i])
  }

  /** A token of `str.split()`: a non-empty run of non-whitespace. */
  predicate IsToken(t: string) {
    t != [] && forall i :: 0 <= i < |t| ==> !IsSpace(t[i])
  }

  /** Length of the longest whitespace-free prefix of `s`. */
  function TokenLength(s: string): (n: nat)
    ensures n <= |s|
    ensures forall i :: 0 <= i < n ==> !IsSpace(s[i])
    ensures n < |s| ==> IsSpace(s[n])
  {
    if s == [] || IsSpace(s[0]) then 0 else 1 + TokenLength(s[1..])
  }

  /** `s.split()`: the maximal runs of non-whitespace, in order. */
  function SplitWhitespace(s: string): (tokens: seq<string>)
    ensures forall i :: 0 <= i < |tokens| ==> IsToken(tokens[i])
    decreases |s|
  {
    if s == [] then []
    else if IsSpace(s[0]) then SplitWhitespace(s[1..])
    else
      var n := TokenLength(s);
      [s[..n]] + SplitWhitespace(s[n..])
  }

  /** `' '.join(tokens)`. */
  function JoinSpace(tokens: seq<string>): string {
    if |tokens| == 0 then ""
    else if |tokens| == 1 then tokens[0]
    else tokens[0] + " " + JoinSpace(tokens[1..])
  }

  /** Whitespace in `r` occurs only as a single `' '` strictly between two
      non-whitespace characters. */
  predicate SingleSpaced(r: string) {
    forall i :: 0 <= i < |r| && IsSpace(r[i]) ==>
      r[i] == ' ' && 0 < i < |r| - 1 && !IsSpace(r[i - 1]) && !IsSpace(r[i + 1])
  }

  /** `process_text`. Its result has no leading or trailing whitespace, no
      two whitespace characters in a row, and splits into the same tokens as
      the input. */
  function ProcessText(text: string): (r: string)
    ensures SingleSpaced(r)
    ensures r == [] || (!IsSpace(r[0]) && !IsSpace(r[|r| - 1]))
    ensures forall i :: 0 <= i < |r| - 1 ==> !(r[i] == ' ' && r[i + 1] == ' ')
    ensures SplitWhitespace(r) == SplitWhitespace(text)
  {
    var tokens := SplitWhitespace(text);
    JoinSingleSpaced(tokens);
    SplitJoinSpace(tokens);
    JoinSpace(tokens)
  }

  /** Joining tokens with one space gives a single-spaced string, empty
      exactly when there are no tokens. */
  lemma {:induction false} JoinSingleSpaced(tokens: seq<string>)
    requires forall i :: 0 <= i < |tokens| ==> IsToken(tokens[i])
    ensures SingleSpaced(JoinSpace(tokens))
    ensures JoinSpace(tokens) == [] <==> tokens == []
  {
    if |tokens| == 1 {
      assert JoinSpace(tokens) == tokens[0];
    } else if |tokens| > 1 {
      var t := tokens[0];
      var j := JoinSpace(tokens[1..]);
      JoinSingleSpaced(tokens[1..]);
      var r := t + " " + j;
      assert JoinSpace(tokens) == r;
      assert j != [] && !IsSpace(j[0]) && !IsSpace(j[|j| - 1]);
      forall i | 0 <= i < |r| && IsSpace(r[i])
        ensures r[i] == ' ' && 0 < i < |r| - 1 && !IsSpace(r[i - 1]) && !IsSpace(r[i + 1])
      {
        if i > |t| {
          assert r[i] == j[i - |t| - 1];
          assert r[i - 1] == (if i - 1 == |t| then ' ' else j[i - |t| - 2]);
        }
      }
    }
  }

  /** Splitting a token followed by whitespace (or nothing). */
  lemma SplitAfterToken(t: string, rest: string)
    requires IsToken(t)
    requires rest == [] || IsSpace(rest[0])
    ensures SplitWhitespace(t + rest) == [t] + SplitWhitespace(rest)
  {
    var s := t + rest;
    var n := TokenLength(s);
    assert s[..|t|] == t && s[|t|..] == rest;
  }

  /** Splitting a one-space join of tokens gives back the tokens. */
  lemma {:induction false} SplitJoinSpace(tokens: seq<string>)
    requires forall i :: 0 <= i < |tokens| ==> IsToken(tokens[i])
    ensures SplitWhitespace(JoinSpace(tokens)) == tokens
  {
    if |tokens| == 1 {
      SplitAfterToken(tokens[0], "");
      assert tokens[0] + "" == tokens[0];
    } else if |tokens| > 1 {
      var j := JoinSpace(tokens[1..]);
      SplitJoinSpace(tokens[1..]);
      SplitAfterToken(tokens[0], " " + j);
      assert tokens[0] + " " + j == tokens[0] + (" " + j);
      assert SplitWhitespace(" " + j) == SplitWhitespace(j) by {
        assert (" " + j)[1..] == j;
      }
      assert tokens == [tokens[0]] + tokens[1..];
    }
  }

  /** Applying `process_text` twice is the same as applying it once. */
  lemma ProcessTextIdempotent(text: string)
    ensures ProcessText(ProcessText(text)) == ProcessText(text)
  {
    var tokens := SplitWhitespace(text);
    SplitJoinSpace(tokens);
  }

  /** `str.split()` finds no token exactly in whitespace-only text. */
  lemma {:induction false} SplitWhitespaceEmpty(s: string)
    ensures SplitWhitespace(s) == [] <==> AllSpace(s)
    decreases |s|
  {
    if s != [] && IsSpace(s[0]) {
      SplitWhitespaceEmpty(s[1..]);
      assert forall i :: 1 <= i < |s| ==> s[i] == s[1..][i - 1];
    }
  }

  /** `process_text` yields the empty string exactly for empty or
      whitespace-only input. */
  lemma ProcessTextEmpty(text: string)
    ensures ProcessText(text) == [] <==> AllSpace(text)
  {
    SplitWhitespaceEmpty(text);
    JoinSingleSpaced(SplitWhitespace(text));
  }

  /** The non-whitespace characters of `s`, in order. */
  function RemoveSpaces(s: string): string {
    if s == [] then [] else (if IsSpace(s[0]) then [] else [s[0]]) + RemoveSpaces(s[1..])
  }

  function Concat(tokens: seq<string>): string {
    if tokens == [] then [] else tokens[0] + Concat(tokens[1..])
  }

  lemma {:induction false} RemoveSpacesAppend(a: string, b: string)
    ensures RemoveSpaces(a + b) == RemoveSpaces(a) + RemoveSpaces(b)
  {
    if a != [] {
      RemoveSpacesAppend(a[1..], b);
      assert (a + b)[0] == a[0] && (a + b)[1..] == a[1..] + b;
    } else {
      assert a + b == b;
    }
  }

  lemma {:induction false} RemoveSpacesOfToken(t: string)
    requires forall i :: 0 <= i < |t| ==> !IsSpace(t[i])
    ensures RemoveSpaces(t) == t
  {
    if t != [] {
      RemoveSpacesOfToken(t[1..]);
    }
  }

  /** The tokens hold every non-whitespace character of the input, in
      order, and nothing else. */
  lemma {:induction false} SplitKeepsContent(s: string)
    ensures Concat(SplitWhitespace(s)) == RemoveSpaces(s)
    decreases |s|
  {
    if s != [] {
      if IsSpace(s[0]) {
        SplitKeepsContent(s[1..]);
      } else {
        var n := TokenLength(s);
        SplitKeepsContent(s[n..]);
        RemoveSpacesOfToken(s[..n]);
        RemoveSpacesAppend(s[..n], s[n..]);
        assert s == s[..n] + s[n..];
        assert ([s[..n]] + SplitWhitespace(s[n..]))[1..] == SplitWhitespace(s[n..]);
      }
    }
  }

  /** `process_text` removes whitespace only: without whitespace, output
      and input hold the same characters in the same order. */
  lemma ProcessTextKeepsContent(text: string)
    ensures RemoveSpaces(ProcessText(text)) == RemoveSpaces(text)
  {
    SplitKeepsContent(text);
    SplitKeepsContent(ProcessText(text));
  }

  // ------------------------------------------- character-by-character view

  /** Where a left-to-right scan stands: before the first token, inside a
      token, or in a gap after a token. */
  datatype ScanState = BeforeText | InToken | InGap

  /** A scan that emits every non-whitespace character, and one `' '`
      before a character that follows a gap; leading and trailing gaps emit
      nothing. An independent reference for `process_text`. */
  function Squeeze(s: string, st: ScanState): string {
    if s == [] then []
    else if IsSpace(s[0]) then Squeeze(s[1..], if st == BeforeText then BeforeText else InGap)
    else (if st == InGap then " " else "") + [s[0]] + Squeeze(s[1..], InToken)
  }

  function Collapse(s: string): string {
    Squeeze(s, BeforeText)
  }

  /** A one-character token followed by whitespace or nothing. */
  lemma SplitSingleChar(s: string)
    requires s != [] && !IsSpace(s[0]) && (|s| == 1 || IsSpace(s[1]))
    ensures SplitWhitespace(s) == [[s[0]]] + SplitWhitespace(s[1..])
  {
    assert TokenLength(s) == 1 + TokenLength(s[1..]);
    assert s[..1] == [s[0]];
  }

  /** The first token of `s` grows by one character when a non-whitespace
      character is put in front of it. */
  lemma SplitExtendsToken(s: string)
    requires |s| > 1 && !IsSpace(s[0]) && !IsSpace(s[1])
    ensures SplitWhitespace(s[1..]) != []
    ensures SplitWhitespace(s) == [[s[0]] + SplitWhitespace(s[1..])[0]] + SplitWhitespace(s[1..])[1..]
  {
    var r := s[1..];
    var n := TokenLength(s);
    var m := TokenLength(r);
    assert n == 1 + m;
    assert SplitWhitespace(s) == [s[..n]] + SplitWhitespace(s[n..]);
    assert SplitWhitespace(r) == [r[..m]] + SplitWhitespace(r[m..]);
    assert s[..n] == [s[0]] + r[..m];
    assert s[n..] == r[m..];
  }

  /** Joining after extending the first token extends the join. */
  lemma JoinSpaceExtendFirst(c: char, tokens: seq<string>)
    requires tokens != []
    ensures JoinSpace([[c] + tokens[0]] + tokens[1..]) == [c] + JoinSpace(tokens)
  {
    var t := [[c] + tokens[0]] + tokens[1..];
    if |tokens| > 1 {
      assert t[1..] == tokens[1..];
    }
  }

  /** What the scan emits from each state, in terms of the tokens. */
  ghost predicate SqueezeMatches(s: string) {
    && Squeeze(s, BeforeText) == JoinSpace(SplitWhitespace(s))
    && Squeeze(s, InGap) ==
         (if SplitWhitespace(s) == [] then [] else " " + JoinSpace(SplitWhitespace(s)))
    && Squeeze(s, InToken) ==
         (if SplitWhitespace(s) == [] then []
          else (if IsSpace(s[0]) then " " else "") + JoinSpace(SplitWhitespace(s)))
  }

  /** A leading whitespace character: every state but the first moves to a gap. */
  lemma SqueezeSpaceStep(s: string)
    requires s != [] && IsSpace(s[0]) && SqueezeMatches(s[1..])
    ensures SqueezeMatches(s)
  {
  }

  /** A leading non-whitespace character is emitted, after a space when it
      ends a gap. */
  lemma SqueezeCharStep(s: string)
    requires s != [] && !IsSpace(s[0]) && SqueezeMatches(s[1..])
    ensures SqueezeMatches(s)
  {
    var r := s[1..];
    var q := Squeeze(r, InToken);
    var tr := SplitWhitespace(r);
    if |s| > 1 && !IsSpace(s[1]) {
      assert q == JoinSpace(tr);
      SqueezeCharExtends(s, q);
    } else {
      assert q == if tr == [] then [] else " " + JoinSpace(tr);
      SqueezeCharAlone(s, q);
    }
    var j := JoinSpace(SplitWhitespace(s));
    assert Squeeze(s, BeforeText) == [s[0]] + q;
    assert Squeeze(s, InGap) == " " + j;
    assert Squeeze(s, InToken) == j;
  }

  /** The character ends its token: it becomes a token of its own. */
  lemma SqueezeCharAlone(s: string, q: string)
    requires s != [] && !IsSpace(s[0]) && (|s| == 1 || IsSpace(s[1]))
    requires q == if SplitWhitespace(s[1..]) == [] then [] else " " + JoinSpace(SplitWhitespace(s[1..]))
    ensures SplitWhitespace(s) != []
    ensures JoinSpace(SplitWhitespace(s)) == [s[0]] + q
  {
    var tr := SplitWhitespace(s[1..]);
    SplitSingleChar(s);
    var t := [[s[0]]] + tr;
    assert t[1..] == tr;
    if tr != [] {
      assert JoinSpace(t) == [s[0]] + " " + JoinSpace(tr);
    }
  }

  /** The character starts a longer token: it joins the next token. */
  lemma SqueezeCharExtends(s: string, q: string)
    requires |s| > 1 && !IsSpace(s[0]) && !IsSpace(s[1])
    requires q == JoinSpace(SplitWhitespace(s[1..]))
    ensures SplitWhitespace(s) != []
    ensures JoinSpace(SplitWhitespace(s)) == [s[0]] + q
  {
    SplitExtendsToken(s);
    JoinSpaceExtendFirst(s[0], SplitWhitespace(s[1..]));
  }

  lemma {:induction false} SqueezeJoins(s: string)
    ensures SqueezeMatches(s)
    ensures Collapse(s) == JoinSpace(SplitWhitespace(s))
    decreases |s|
  {
    if s != [] {
      SqueezeJoins(s[1..]);
      if IsSpace(s[0]) {
        SqueezeSpaceStep(s);
      } else {
        SqueezeCharStep(s);
      }
    }
  }

  /** `process_text` is the character-by-character collapse: every run of
      whitespace between two tokens becomes exactly one space, and leading
      and trailing runs disappear. */
  lemma ProcessTextIsCollapse(text: string)
    ensures ProcessText(text) == Collapse(text)
  {
    SqueezeJoins(text);
  }

  lemma CollapseExamples()
    ensures Collapse("a  b") == "a b"
    ensures Collapse(" a\t\nb ") == "a b"
  {
  }
}
