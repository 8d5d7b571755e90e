/**
 * The pieces of Rust's string handling the readers rely on: splitting on
 * whitespace (`str::split_whitespace`) and on one character
 * (`str::split`), and reading a `u16` (`str::parse::<u16>`).
 */
module Text {
  import opened Base

  /** `char::is_whitespace`: the characters with the Unicode White_Space property. */
  predicate IsWhitespace(c: char)
  {
    ('\t' <= c <= '\r') || c == ' ' || c == '\U{85}' || c == '\U{A0}' || c == '\U{1680}'
    || ('\U{2000}' <= c <= '\U{200A}') || c == '\U{2028}' || c == '\U{2029}'
    || c == '\U{202F}' || c == '\U{205F}' || c == '\U{3000}'
  }

  /** A non-empty run of non-whitespace characters. */
  predicate IsWord(w: string)
  {
    |w| > 0 && forall i :: 0 <= i < |w| ==> !IsWhitespace(w[i])
  }

  // ---------------------------------------------------------------------
  // Splitting on whitespace.

  /** `split_whitespace`: the maximal runs of non-whitespace characters, in order. */
  function SplitWhitespace(s: string): (words: seq<string>)
    ensures forall i :: 0 <= i < |words| ==> IsWord(words[i])
    ensures (forall i :: 0 <= i < |s| ==> IsWhitespace(s[i])) ==> words == []
  {
    Words(s, [])
  }

  /** The words of `s`, the first of them prefixed by the partial word `cur`. */
  function Words(s: string, cur: string): (words: seq<string>)
    requires cur == [] || IsWord(cur)
    ensures forall i :: 0 <= i < |words| ==> IsWord(words[i])
    ensures cur == [] && (forall i :: 0 <= i < |s| ==> IsWhitespace(s[i])) ==> words == []
    decreases |s|
  {
    if s == [] then
      if cur == [] then [] else [cur]
    else if IsWhitespace(s[0]) then
      if cur == [] then Words(s[1..], []) else [cur] + Words(s[1..], [])
    else
      Words(s[1..], cur + [s[0]])
  }

  /** The words joined by single spaces. */
  function Unwords(words: seq<string>): string
  {
    if words == [] then []
    else if |words| == 1 then words[0]
    else words[0] + " " + Unwords(words[1..])
  }

  /** Splitting words joined by spaces gives the words back. */
  lemma {:induction false} SplitUnwords(words: seq<string>)
    requires forall i :: 0 <= i < |words| ==> IsWord(words[i])
    ensures SplitWhitespace(Unwords(words)) == words
  {
    if words == [] {
    } else if |words| == 1 {
      assert words[0] + [] == words[0];
      assert [] + words[0] == words[0];
      WordAbsorbed(words[0], [], []);
      assert Words([], words[0]) == [words[0]];
    } else {
      var rest := Unwords(words[1..]);
      assert Unwords(words) == words[0] + (" " + rest);
      WordAbsorbed(words[0], " " + rest, []);
      assert [] + words[0] == words[0];
      assert (" " + rest)[1..] == rest;
      SplitUnwords(words[1..]);
    }
  }

  /** Reading the characters of a word extends the partial word. */
  lemma {:induction false} WordAbsorbed(w: string, t: string, cur: string)
    requires cur == [] || IsWord(cur)
    requires forall i :: 0 <= i < |w| ==> !IsWhitespace(w[i])
    ensures cur + w == [] || IsWord(cur + w)
    ensures Words(w + t, cur) == Words(t, cur + w)
    decreases |w|
  {
    if w == [] {
      assert w + t == t;
      assert cur + w == cur;
    } else {
      assert (w + t)[0] == w[0];
      assert (w + t)[1..] == w[1..] + t;
      WordAbsorbed(w[1..], t, cur + [w[0]]);
      assert cur + [w[0]] + w[1..] == cur + w;
    }
  }

  // ---------------------------------------------------------------------
  // Splitting on one character.

  /** The parts joined with the separator between each two. */
  function Join(parts: seq<string>, sep: char): string
    requires |parts| >= 1
  {
    if |parts| == 1 then parts[0] else parts[0] + [sep] + Join(parts[1..], sep)
  }

  /**
   * `str::split` on one character: one part more than there are
   * separators, none containing the separator, and joining them restores
   * the text.
   */
  function Split(s: string, sep: char): (parts: seq<string>)
    ensures |parts| >= 1
    ensures |parts| == Occurrences(s, sep) + 1
    ensures forall i :: 0 <= i < |parts| ==> sep !in parts[i]
    ensures Join(parts, sep) == s
  {
    if s == [] then [[]]
    else
      var rest := Split(s[1..], sep);
      if s[0] == sep then
        assert [sep] + Join(rest, sep) == s;
        [[]] + rest
      else
        JoinPrepend(s[0], rest, sep);
        [[s[0]] + rest[0]] + rest[1..]
  }

  /** How many times `c` occurs in `s`. */
  function Occurrences(s: string, c: char): nat
  {
    if s == [] then 0 else (if s[0] == c then 1 else 0) + Occurrences(s[1..], c)
  }

  lemma JoinPrepend(c: char, parts: seq<string>, sep: char)
    requires |parts| >= 1
    ensures Join([[c] + parts[0]] + parts[1..], sep) == [c] + Join(parts, sep)
  {
    var ps := [[c] + parts[0]] + parts[1..];
    assert ps[1..] == parts[1..];
  }

  /** Splitting parts joined by a separator they do not contain gives them back. */
  lemma {:induction false} SplitJoin(parts: seq<string>, sep: char)
    requires |parts| >= 1
    requires forall i :: 0 <= i < |parts| ==> sep !in parts[i]
    ensures Split(Join(parts, sep), sep) == parts
    decreases |parts|, |parts[0]|
  {
    if parts[0] == [] {
      if |parts| == 1 {
      } else {
        var s := Join(parts, sep);
        assert s == [sep] + Join(parts[1..], sep);
        assert s[1..] == Join(parts[1..], sep);
        SplitJoin(parts[1..], sep);
      }
    } else {
      var c := parts[0][0];
      var tail := [parts[0][1..]] + parts[1..];
      assert tail[1..] == parts[1..];
      assert Join(parts, sep) == [c] + Join(tail, sep) by {
        JoinPrepend(c, tail, sep);
        assert [c] + parts[0][1..] == parts[0];
        assert [[c] + tail[0]] + tail[1..] == parts;
      }
      assert sep !in tail[0] by { assert forall x :: x in tail[0] ==> x in parts[0]; }
      SplitJoin(tail, sep);
      assert c != sep by { assert c in parts[0]; }
      assert ([c] + Join(tail, sep))[1..] == Join(tail, sep);
      assert [c] + parts[0][1..] == parts[0];
      assert [[c] + tail[0]] + tail[1..] == parts;
    }
  }

  // ---------------------------------------------------------------------
  // Decimal numbers.

  predicate IsDigit(c: char)
  {
    '0' <= c <= '9'
  }

  predicate AllDigits(s: string)
  {
    forall i :: 0 <= i < |s| ==> IsDigit(s[i])
  }

  /** `char::to_digit(10)`. */
  function DigitValue(c: char): (d: nat)
    requires IsDigit(c)
    ensures d < 10
  {
    (c - '0') as nat
  }

  /** The character of a digit; the inverse of `DigitValue`. */
  function DigitChar(d: nat): (c: char)
    requires d < 10
    ensures IsDigit(c) && DigitValue(c) == d
  {
    ('0' as int + d) as char
  }

  /** The value of a string of decimal digits, most significant first. */
  function DigitsValue(s: string): nat
    requires AllDigits(s)
  {
    if s == [] then 0 else 10 * DigitsValue(s[..|s| - 1]) + DigitValue(s[|s| - 1])
  }

  /** The decimal digits of a number, without leading zeros. */
  function Decimal(n: nat): (s: string)
    ensures |s| >= 1 && AllDigits(s)
  {
    if n < 10 then [DigitChar(n)] else Decimal(n / 10) + [DigitChar(n % 10)]
  }

  /** The digits a `u16` parse reads: all of `s` after at most one leading '+'. */
  function UnsignedDigits(s: string): string
  {
    if |s| > 0 && s[0] == '+' then s[1..] else s
  }

  /**
   * `str::parse::<u16>`: an optional '+', then at least one decimal digit,
   * with a value that fits in 16 bits.
   */
  function ParseU16(s: string): (r: Option<nat>)
    ensures r.Some? ==> r.value <= U16_MAX
    ensures r.Some? <==> |UnsignedDigits(s)| > 0 && AllDigits(UnsignedDigits(s)) && DigitsValue(UnsignedDigits(s)) <= U16_MAX
    ensures r.Some? ==> r.value == DigitsValue(UnsignedDigits(s))
  {
    var d := UnsignedDigits(s);
    if |d| > 0 && AllDigits(d) && DigitsValue(d) <= U16_MAX then Some(DigitsValue(d)) else None
  }

  /** Reading the digits a number prints gives the number. */
  lemma {:induction false} DecimalValue(n: nat)
    ensures DigitsValue(Decimal(n)) == n
  {
    if n >= 10 {
      var s := Decimal(n);
      assert s[..|s| - 1] == Decimal(n / 10);
      DecimalValue(n / 10);
    }
  }

  /**
   * Every `u16`, printed in decimal with or without a '+', parses back, and
   * nothing beyond `u16::MAX` does.
   */
  lemma ParseU16RoundTrip(n: nat)
    ensures n <= U16_MAX ==> ParseU16(Decimal(n)) == Some(n) && ParseU16("+" + Decimal(n)) == Some(n)
    ensures n > U16_MAX ==> ParseU16(Decimal(n)) == None
  {
    DecimalValue(n);
    assert UnsignedDigits(Decimal(n)) == Decimal(n);
    assert ("+" + Decimal(n))[1..] == Decimal(n);
  }
}
