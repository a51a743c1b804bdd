/**
 * The few Python `str` built-ins the bot relies on (`lower`, `strip`,
 * `split`, `join`, `isdigit`, `startswith`, `int` and `str` on integers),
 * restricted to ASCII letters, digits and whitespace.
 */
module Text {

  /** The ASCII characters Python's `str.isspace` (and the regex `\s`) accept. */
  predicate IsSpace(c: char) {
    c == ' ' || c == '\t' || c == '\n' || c == '\r' || c == '\U{0B}' || c == '\U{0C}'
    || c == '\U{1C}' || c == '\U{1D}' || c == '\U{1E}' || c == '\U{1F}'
  }

  predicate IsDigit(c: char) {
    '0' <= c <= '9'
  }

  predicate IsUpper(c: char) {
    'A' <= c <= 'Z'
  }

  predicate AllSpace(s: string) {
    forall i :: 0 <= i < |s| ==> IsSpace(s[i])
  }

  /** `str.isdigit()`: true of a non-empty run of digits. */
  predicate IsDigits(s: string) {
    |s| > 0 && forall i :: 0 <= i < |s| ==> IsDigit(s[i])
  }

  /** ASCII `lower()` of one character: a capital becomes the small letter at the same place in the alphabet. */
  function LowerChar(c: char): (r: char)
    ensures !IsUpper(r)
    ensures IsUpper(c) || r == c
    ensures IsUpper(c) ==> 'a' <= r <= 'z' && r as int - 'a' as int == c as int - 'A' as int
  {
    if IsUpper(c) then (c as int + 32) as char else c
  }

  /** `str.lower()` on ASCII letters. */
  function Lower(s: string): (r: string)
    ensures |r| == |s|
    ensures forall i :: 0 <= i < |s| ==> r[i] == LowerChar(s[i])
  {
    seq(|s|, i requires 0 <= i < |s| => LowerChar(s[i]))
  }

  /** The length of the longest prefix of `s` whose characters all satisfy `p`. */
  function Span(s: string, p: char -> bool): (n: nat)
    ensures n <= |s|
    ensures forall i :: 0 <= i < n ==> p(s[i])
    ensures n < |s| ==> !p(s[n])
  {
    if |s| > 0 && p(s[0]) then 1 + Span(s[1..], p) else 0
  }

  /** `str.lstrip()`. */
  function TrimLeft(s: string): (r: string)
    ensures |r| <= |s| && r == s[|s| - |r|..]
    ensures AllSpace(s[..|s| - |r|])
    ensures r == [] || !IsSpace(r[0])
  {
    s[Span(s, IsSpace)..]
  }

  /** `str.rstrip()`. */
  function TrimRight(s: string): (r: string)
    ensures |r| <= |s| && r == s[..|r|]
    ensures AllSpace(s[|r|..])
    ensures r == [] || !IsSpace(r[|r| - 1])
  {
    if |s| > 0 && IsSpace(s[|s| - 1]) then
      var r := TrimRight(s[..|s| - 1]);
      AllSpaceSnoc(s[..|s| - 1][|r|..], s[|s| - 1]);
      assert s[..|s| - 1][|r|..] + [s[|s| - 1]] == s[|r|..];
      r
    else
      s
  }

  /** A run of spaces followed by one more space is still a run of spaces. */
  lemma AllSpaceSnoc(w: string, c: char)
    requires AllSpace(w) && IsSpace(c)
    ensures AllSpace(w + [c])
  {
    forall i | 0 <= i < |w + [c]| ensures IsSpace((w + [c])[i]) {
      if i < |w| {
        assert (w + [c])[i] == w[i];
      }
    }
  }

  /** `str.strip()`. */
  function Strip(s: string): (r: string)
    ensures r == [] || (!IsSpace(r[0]) && !IsSpace(r[|r| - 1]))
  {
    TrimRight(TrimLeft(s))
  }

  predicate IsWordChar(c: char) {
    !IsSpace(c)
  }

  /** A non-empty run of non-space characters. */
  predicate IsWord(w: string) {
    |w| > 0 && forall j :: 0 <= j < |w| ==> IsWordChar(w[j])
  }

  /** `str.split()` with no separator: the maximal runs of non-space characters. */
  function Words(s: string): (ws: seq<string>)
    ensures forall i :: 0 <= i < |ws| ==> IsWord(ws[i])
    decreases |s|
  {
    var t := TrimLeft(s);
    if t == [] then []
    else
      var n := Span(t, IsWordChar);
      assert IsWord(t[..n]) by {
        assert n > 0;
        forall j | 0 <= j < n ensures IsWordChar(t[..n][j]) {
          assert IsWordChar(t[j]);
        }
      }
      [t[..n]] + Words(t[n..])
  }

  /** `sep.join(parts)`. */
  function Join(sep: string, parts: seq<string>): string
  {
    if parts == [] then []
    else if |parts| == 1 then parts[0]
    else parts[0] + sep + Join(sep, parts[1..])
  }

  /** `s.startswith(prefix)` for a one-character prefix. */
  predicate StartsWith(s: string, c: char) {
    |s| > 0 && s[0] == c
  }

  /** `s[:n]`: Python slicing clamps the bound to the length. */
  function Take(s: string, n: nat): (r: string)
    ensures |r| == if |s| < n then |s| else n
    ensures r == s[..|r|]
  {
    if |s| < n then s else s[..n]
  }

  function DigitValue(c: char): nat
    requires IsDigit(c)
  {
    c as int - '0' as int
  }

  function DigitChar(d: nat): (c: char)
    requires d < 10
    ensures IsDigit(c) && DigitValue(c) == d
  {
    ('0' as int + d) as char
  }

  /** `int(s)` on a string of decimal digits. */
  function DigitsValue(s: string): nat
    requires forall i :: 0 <= i < |s| ==> IsDigit(s[i])
  {
    if s == [] then 0 else 10 * DigitsValue(s[..|s| - 1]) + DigitValue(s[|s| - 1])
  }

  /** `str(n)` for a natural number: canonical, so it starts with '0' only for zero itself. */
  function NatToString(n: nat): (s: string)
    ensures IsDigits(s)
    ensures s[0] == '0' <==> n == 0
  {
    if n < 10 then [DigitChar(n)] else NatToString(n / 10) + [DigitChar(n % 10)]
  }

  /** `str(i)` for any integer: a minus sign exactly for a negative number, then the digits of its magnitude. */
  function IntToString(i: int): (s: string)
    ensures |s| > 0 && (IsDigit(s[0]) || s[0] == '-')
    ensures (s[0] == '-') == (i < 0)
    ensures IsDigits(if i < 0 then s[1..] else s)
    ensures DigitsValue(if i < 0 then s[1..] else s) == if i < 0 then -i else i
    ensures (if i < 0 then s[1..] else s)[0] == '0' <==> i == 0
  {
    if i < 0 then
      var digits := NatToString(-i);
      DigitsValueOfNatToString(-i);
      assert ("-" + digits)[1..] == digits;
      "-" + digits
    else
      DigitsValueOfNatToString(i);
      NatToString(i)
  }

  /** Printing a number and reading it back gives the number again. */
  lemma {:induction false} DigitsValueOfNatToString(n: nat)
    ensures DigitsValue(NatToString(n)) == n
  {
    if n >= 10 {
      var s := NatToString(n);
      assert s[..|s| - 1] == NatToString(n / 10);
      DigitsValueOfNatToString(n / 10);
    }
  }

  /** Leading whitespace does not survive `lstrip`. */
  lemma {:induction false} TrimLeftSpacePrefix(w: string, x: string)
    requires AllSpace(w)
    ensures TrimLeft(w + x) == TrimLeft(x)
  {
    if w != [] {
      assert (w + x)[1..] == w[1..] + x;
      TrimLeftSpacePrefix(w[1..], x);
    } else {
      assert w + x == x;
    }
  }

  /** Trailing whitespace does not survive `rstrip`. */
  lemma {:induction false} TrimRightSpaceSuffix(x: string, w: string)
    requires AllSpace(w)
    ensures TrimRight(x + w) == TrimRight(x)
  {
    if w != [] {
      var w' := w[..|w| - 1];
      assert (x + w)[..|x + w| - 1] == x + w';
      TrimRightSpaceSuffix(x, w');
    } else {
      assert x + w == x;
    }
  }

  /** The run of `p` characters at the front of `x + w` stops inside `x`, or covers `x` and goes on into `w`. */
  lemma {:induction false} SpanAppend(x: string, w: string, p: char -> bool)
    ensures Span(x, p) < |x| ==> Span(x + w, p) == Span(x, p)
    ensures Span(x, p) == |x| ==> Span(x + w, p) == |x| + Span(w, p)
  {
    if x == [] {
      assert x + w == w;
    } else if p(x[0]) {
      assert (x + w)[1..] == x[1..] + w;
      SpanAppend(x[1..], w, p);
    }
  }

  /** `lstrip` of `x + w` is `lstrip(x) + w` once `x` holds a non-space character. */
  lemma TrimLeftAppend(x: string, w: string)
    ensures TrimLeft(x) != [] ==> TrimLeft(x + w) == TrimLeft(x) + w
    ensures TrimLeft(x) == [] ==> TrimLeft(x + w) == TrimLeft(w)
  {
    SpanAppend(x, w, IsSpace);
    var n := Span(x, IsSpace);
    if n < |x| {
      assert (x + w)[n..] == x[n..] + w;
    } else {
      assert (x + w)[|x| + Span(w, IsSpace)..] == w[Span(w, IsSpace)..];
    }
  }

  /** Surrounding whitespace does not change what `strip` returns. */
  lemma StripPadded(w1: string, x: string, w2: string)
    requires AllSpace(w1) && AllSpace(w2)
    ensures Strip(w1 + x + w2) == Strip(x)
  {
    assert w1 + x + w2 == w1 + (x + w2);
    TrimLeftSpacePrefix(w1, x + w2);
    TrimLeftAppend(x, w2);
    if TrimLeft(x) != [] {
      TrimRightSpaceSuffix(TrimLeft(x), w2);
    } else {
      assert TrimLeft(w2) == [] by { TrimLeftSpacePrefix(w2, []); assert w2 + [] == w2; }
    }
  }

  /** A string that neither starts nor ends with whitespace is its own `strip`. */
  lemma StripUnpadded(t: string)
    requires t == [] || (!IsSpace(t[0]) && !IsSpace(t[|t| - 1]))
    ensures Strip(t) == t
  {
  }

  /** `lower` of a concatenation. */
  lemma LowerAppend(x: string, y: string)
    ensures Lower(x + y) == Lower(x) + Lower(y)
  {
  }

  /** The run of `p` at the start of `x + y` is `x` when `x` is all `p` and `y` does not start with one. */
  lemma {:induction false} SpanExact(x: string, y: string, p: char -> bool)
    requires forall i :: 0 <= i < |x| ==> p(x[i])
    requires y == [] || !p(y[0])
    ensures Span(x + y, p) == |x|
  {
    if x != [] {
      assert (x + y)[1..] == x[1..] + y;
      SpanExact(x[1..], y, p);
    } else {
      assert x + y == y;
    }
  }

  /** The digit run of `ds + y` is `ds` when `y` does not start with a digit. */
  lemma SpanDigits(ds: string, y: string)
    requires forall i :: 0 <= i < |ds| ==> IsDigit(ds[i])
    requires y == [] || !IsDigit(y[0])
    ensures Span(ds + y, IsDigit) == |ds|
  {
    SpanExact(ds, y, IsDigit);
  }

  /** `split()` of whitespace alone is empty. */
  lemma WordsOfSpace(s: string)
    requires AllSpace(s)
    ensures Words(s) == []
  {
    assert Span(s, IsSpace) == |s|;
  }

  /** Leading whitespace does not change what `split()` returns. */
  lemma WordsSkipSpace(w: string, s: string)
    requires AllSpace(w)
    ensures Words(w + s) == Words(s)
  {
    TrimLeftSpacePrefix(w, s);
  }

  /** `split()` of a word followed by whitespace or nothing and the rest: the word, then the words of the rest. */
  lemma WordsFirst(x: string, y: string)
    requires IsWord(x)
    requires y == [] || IsSpace(y[0])
    ensures Words(x + y) == [x] + Words(y)
  {
    var t := x + y;
    assert !IsSpace(t[0]);
    assert TrimLeft(t) == t;
    SpanExact(x, y, IsWordChar);
    assert t[..|x|] == x && t[|x|..] == y;
  }

  /**
   * `split()` of whitespace, a word, then whitespace or nothing and the rest:
   * the word first, then the words of the rest.
   */
  lemma WordsCons(w: string, x: string, y: string)
    requires AllSpace(w) && IsWord(x)
    requires y == [] || IsSpace(y[0])
    ensures Words(w + x + y) == [x] + Words(y)
  {
    assert w + x + y == w + (x + y);
    WordsSkipSpace(w, x + y);
    WordsFirst(x, y);
  }

  /** `' '.join` of two or more parts: the first, a space, then the join of the rest. */
  lemma JoinCons(ws: seq<string>)
    requires |ws| > 1
    ensures Join(" ", ws) == ws[0] + (" " + Join(" ", ws[1..]))
  {
    assert Join(" ", ws) == ws[0] + " " + Join(" ", ws[1..]);
  }

  /** A non-empty list is its head followed by its tail. */
  lemma HeadTail(ws: seq<string>)
    requires ws != []
    ensures [ws[0]] + ws[1..] == ws
  {
  }

  /** A single word splits into itself. */
  lemma WordsOfWord(x: string)
    requires IsWord(x)
    ensures Words(x) == [x]
  {
    var empty: string := [];
    assert x + empty == x;
    WordsFirst(x, empty);
    WordsOfSpace(empty);
  }

  /** One word in front of a space and an already-splittable rest splits into that word and the rest's words. */
  lemma WordsOfJoinStep(x: string, rest: string, tail: seq<string>)
    requires IsWord(x) && Words(rest) == tail
    ensures Words(x + (" " + rest)) == [x] + tail
  {
    WordsFirst(x, " " + rest);
    WordsSkipSpace(" ", rest);
  }

  /** Dropping the first of a list of words leaves words. */
  lemma AllWordsTail(ws: seq<string>)
    requires ws != [] && forall i :: 0 <= i < |ws| ==> IsWord(ws[i])
    ensures forall i :: 0 <= i < |ws[1..]| ==> IsWord(ws[1..][i])
  {
    forall i | 0 <= i < |ws[1..]| ensures IsWord(ws[1..][i]) {
      assert ws[1..][i] == ws[i + 1];
    }
  }

  /** One word: the join is the word itself and splits back into it. */
  lemma WordsOfJoinOne(ws: seq<string>)
    requires |ws| == 1 && IsWord(ws[0])
    ensures Words(Join(" ", ws)) == ws
  {
    WordsOfWord(ws[0]);
    assert [ws[0]] == ws;
  }

  /** Two or more words: the join splits into the first word and the words of the rest's join. */
  lemma WordsOfJoinCons(ws: seq<string>)
    requires |ws| > 1 && IsWord(ws[0])
    requires Words(Join(" ", ws[1..])) == ws[1..]
    ensures Words(Join(" ", ws)) == ws
  {
    var tail := ws[1..];
    JoinCons(ws);
    WordsOfJoinStep(ws[0], Join(" ", tail), tail);
    HeadTail(ws);
  }

  /** Joining words with single spaces and splitting again gives the words back. */
  lemma {:induction false} WordsOfJoin(ws: seq<string>)
    requires forall i :: 0 <= i < |ws| ==> IsWord(ws[i])
    ensures Words(Join(" ", ws)) == ws
  {
    if ws == [] {
      var empty: string := [];
      WordsOfSpace(empty);
    } else if |ws| == 1 {
      WordsOfJoinOne(ws);
    } else {
      AllWordsTail(ws);
      WordsOfJoin(ws[1..]);
      WordsOfJoinCons(ws);
    }
  }
}
