/**
 * The few operations of Python's `str` and `int` that the core relies on:
 * `isspace`, `split()[0]`, `split(c)[0]`, `strip`, `splitlines`, `startswith`,
 * `str(n)`, `int(s)` and `sep.join(...)`, over code points.
 */
module PyText {
  import opened Base

  /** The characters for which Python's `str.isspace()` holds. */
  predicate IsSpace(c: char)
  {
    ('\t' <= c <= '\r') || ('\U{1c}' <= c <= '\U{1f}') || c == ' ' || c == '\U{85}' || c == '\U{a0}'
    || c == '\U{1680}' || ('\U{2000}' <= c <= '\U{200a}') || c == '\U{2028}' || c == '\U{2029}'
    || c == '\U{202f}' || c == '\U{205f}' || c == '\U{3000}'
  }

  /** The characters at which Python's `str.splitlines()` ends a line. */
  predicate IsLineBreak(c: char)
  {
    c == '\n' || c == '\r' || c == '\U{0b}' || c == '\U{0c}' || ('\U{1c}' <= c <= '\U{1e}')
    || c == '\U{85}' || c == '\U{2028}' || c == '\U{2029}'
  }

  predicate IsDigit(c: char)
  {
    '0' <= c <= '9'
  }

  predicate AllDigits(s: string)
  {
    forall i :: 0 <= i < |s| ==> IsDigit(s[i])
  }

  /** `s.startswith(prefix)` */
  predicate StartsWith(s: string, prefix: string)
  {
    |prefix| <= |s| && s[..|prefix|] == prefix
  }

  // ---------------------------------------------------------------- stripping

  /**
   * The whitespace that `int()` ignores around its digits: the ASCII
   * characters " \t\n\v\f\r" and every non-ASCII `isspace` character. The
   * ASCII separators U+001C..U+001F, which `isspace` accepts, are not skipped.
   */
  predicate IsIntSpace(c: char)
  {
    IsSpace(c) && !('\U{1c}' <= c <= '\U{1f}')
  }

  /** `s.lstrip()` with `ws` as the whitespace. */
  function LStrip(s: string, ws: char -> bool): (r: string)
    ensures |r| <= |s| && r == s[|s| - |r|..]
    ensures forall i :: 0 <= i < |s| - |r| ==> ws(s[i])
    ensures r == [] || !ws(r[0])
  {
    if s != [] && ws(s[0]) then LStrip(s[1..], ws) else s
  }

  /** `s.rstrip()` with `ws` as the whitespace. */
  function RStrip(s: string, ws: char -> bool): (r: string)
    ensures |r| <= |s| && r == s[..|r|]
    ensures forall i :: |r| <= i < |s| ==> ws(s[i])
    ensures r == [] || !ws(r[|r| - 1])
  {
    if s != [] && ws(s[|s| - 1]) then RStrip(s[..|s| - 1], ws) else s
  }

  /** `s.strip()` with `ws` as the whitespace. */
  function Strip(s: string, ws: char -> bool): (r: string)
    ensures r == [] || (!ws(r[0]) && !ws(r[|r| - 1]))
  {
    RStrip(LStrip(s, ws), ws)
  }

  // ---------------------------------------------------------------- split()[0]

  /** The longest prefix of `s` without whitespace. */
  function TakeWord(s: string): (w: string)
    ensures |w| <= |s| && w == s[..|w|]
    ensures forall i :: 0 <= i < |w| ==> !IsSpace(w[i])
    ensures |w| == |s| || IsSpace(s[|w|])
  {
    if s == [] || IsSpace(s[0]) then [] else [s[0]] + TakeWord(s[1..])
  }

  /** `w` is the first whitespace-separated word of `s` and starts at offset `k`. */
  predicate FirstWordAt(s: string, k: nat, w: string)
  {
    && k + |w| <= |s|
    && (forall i :: 0 <= i < k ==> IsSpace(s[i]))
    && w != []
    && s[k..k + |w|] == w
    && (forall i :: 0 <= i < |w| ==> !IsSpace(w[i]))
    && (k + |w| == |s| || IsSpace(s[k + |w|]))
  }

  /**
   * `s.split()[0]`: the first maximal run of non-whitespace characters, or
   * None where Python raises IndexError because `s` holds no word at all.
   */
  function FirstWord(s: string): (r: Option<string>)
    ensures r.None? <==> forall i :: 0 <= i < |s| ==> IsSpace(s[i])
    ensures r.Some? ==> exists k :: FirstWordAt(s, k, r.value)
  {
    var t := LStrip(s, IsSpace);
    var k := |s| - |t|;
    assert t != [] ==> t[0] == s[k];
    if t == [] then None
    else
      var w := TakeWord(t);
      assert s[k..k + |w|] == t[..|w|] == w;
      assert FirstWordAt(s, k, w);
      Some(w)
  }

  // ---------------------------------------------------------------- split(c)[0]

  /** `s.split(c)[0]`: everything before the first `c`, or all of `s` when there is none. */
  function BeforeFirst(s: string, c: char): (r: string)
    ensures |r| <= |s| && r == s[..|r|]
    ensures c !in r
    ensures |r| == |s| || s[|r|] == c
  {
    if s == [] || s[0] == c then [] else [s[0]] + BeforeFirst(s[1..], c)
  }

  // ---------------------------------------------------------------- join

  /** `sep.join(parts)` */
  function Join(parts: seq<string>, sep: string): (r: string)
  {
    if parts == [] then ""
    else if |parts| == 1 then parts[0]
    else parts[0] + sep + Join(parts[1..], sep)
  }

  // ---------------------------------------------------------------- str(n) and int(s)

  function DigitChar(d: nat): (c: char)
    requires d < 10
    ensures IsDigit(c)
  {
    ['0', '1', '2', '3', '4', '5', '6', '7', '8', '9'][d]
  }

  function DigitValue(c: char): (d: nat)
    requires IsDigit(c)
    ensures d < 10
  {
    c as int - '0' as int
  }

  /** The number that a string of decimal digits denotes. */
  function DigitsValue(ds: string): (v: nat)
    requires AllDigits(ds)
  {
    if ds == [] then 0 else DigitsValue(ds[..|ds| - 1]) * 10 + DigitValue(ds[|ds| - 1])
  }

  /** `str(n)` for a natural number: non-empty, all digits, no leading zero, denotes `n`. */
  function NatToString(n: nat): (r: string)
    ensures r != [] && AllDigits(r)
    ensures DigitsValue(r) == n
    ensures r[0] == '0' ==> n == 0
  {
    if n < 10 then [DigitChar(n)]
    else
      var p := NatToString(n / 10);
      var r := p + [DigitChar(n % 10)];
      assert r[..|r| - 1] == p;
      r
  }

  /** `str(i)` for an integer: an optional '-', then the digits of its magnitude. */
  function IntToString(i: int): (r: string)
    ensures r != [] && (r[0] == '-' <==> i < 0)
    ensures var digits := if i < 0 then r[1..] else r;
      AllDigits(digits) && DigitsValue(digits) == (if i < 0 then -i else i) && (digits[0] == '0' ==> i == 0)
  {
    if i < 0 then
      var r := "-" + NatToString(-i);
      assert r[1..] == NatToString(-i);
      r
    else NatToString(i)
  }

  /**
   * CPython's limit on the number of decimal digits that `int(s)` reads and
   * `str(i)` writes (`sys.int_info.default_max_str_digits`); past it both
   * raise ValueError.
   */
  const MaxStrDigits := 4300

  /** The ValueError message of `str(i)` past the limit, as CPython 3.12 words it. */
  const StrLimitMessage := "Exceeds the limit (4300 digits) for integer string conversion; use sys.set_int_max_str_digits() to increase the limit"

  /** `str(i)` raises ValueError: the magnitude of `i` has more than `MaxStrDigits` digits. */
  predicate StrRaises(i: int)
  {
    |NatToString(if i < 0 then -i else i)| > MaxStrDigits
  }

  /** `10 ** k` */
  function Pow10(k: nat): (p: nat)
    ensures p >= 1
  {
    if k == 0 then 1 else 10 * Pow10(k - 1)
  }

  /** A natural number has at most `k` decimal digits exactly when it is below `10 ** k`. */
  lemma {:induction false} NatToStringLength(n: nat, k: nat)
    requires k >= 1
    ensures |NatToString(n)| <= k <==> n < Pow10(k)
  {
    if n >= 10 {
      assert |NatToString(n)| == |NatToString(n / 10)| + 1;
      if k == 1 {
        assert Pow10(1) == 10;
      } else {
        NatToStringLength(n / 10, k - 1);
        assert n / 10 < Pow10(k - 1) <==> n < 10 * Pow10(k - 1);
      }
    } else {
      assert Pow10(k) == 10 * Pow10(k - 1);
    }
  }

  /** `str(i)` succeeds exactly for the integers whose magnitude is below `10 ** 4300`. */
  lemma StrRaisesIffLarge(i: int)
    ensures StrRaises(i) <==> (if i < 0 then -i else i) >= Pow10(MaxStrDigits)
  {
    NatToStringLength(if i < 0 then -i else i, MaxStrDigits);
  }

  /** The digits of `s`, with the underscores that Python allows between digits removed. */
  function WithoutUnderscores(s: string): (r: string)
    ensures |r| <= |s|
  {
    if s == [] then [] else (if s[0] == '_' then [] else [s[0]]) + WithoutUnderscores(s[1..])
  }

  /** A decimal literal as `int` accepts it: digits, single underscores only between digits. */
  predicate DecimalDigits(s: string)
  {
    && s != []
    && IsDigit(s[0]) && IsDigit(s[|s| - 1])
    && (forall i :: 0 <= i < |s| ==> IsDigit(s[i]) || s[i] == '_')
    && (forall i :: 0 <= i < |s| - 1 ==> s[i] == '_' ==> s[i + 1] != '_')
  }

  lemma {:induction false} WithoutUnderscoresDigits(s: string)
    requires forall i :: 0 <= i < |s| ==> IsDigit(s[i]) || s[i] == '_'
    ensures AllDigits(WithoutUnderscores(s))
  {
    if s != [] {
      WithoutUnderscoresDigits(s[1..]);
    }
  }

  lemma {:induction false} WithoutUnderscoresOfDigits(s: string)
    requires AllDigits(s)
    ensures WithoutUnderscores(s) == s
  {
    if s != [] {
      WithoutUnderscoresOfDigits(s[1..]);
      assert s == [s[0]] + s[1..];
    }
  }

  /** The text after an optional leading sign. */
  function Unsigned(t: string): (u: string)
    ensures u == t || (t != [] && (t[0] == '-' || t[0] == '+') && u == t[1..])
  {
    if t != [] && (t[0] == '-' || t[0] == '+') then t[1..] else t
  }

  /**
   * `int(s)` in base 10: surrounding whitespace, an optional sign, then decimal
   * digits, at most `MaxStrDigits` of them; None where Python raises ValueError.
   */
  function ParseInt(s: string): (r: Option<int>)
    ensures r.Some? <==> var u := Unsigned(Strip(s, IsIntSpace));
      DecimalDigits(u) && |WithoutUnderscores(u)| <= MaxStrDigits
    ensures r.Some? && r.value < 0 ==> Strip(s, IsIntSpace)[0] == '-'
    ensures (forall i :: 0 <= i < |s| ==> IsIntSpace(s[i])) ==> r.None?
  {
    ParseSigned(Strip(s, IsIntSpace))
  }

  /** `int(t)` for text without surrounding whitespace: an optional sign, then at most `MaxStrDigits` decimal digits. */
  function ParseSigned(t: string): (r: Option<int>)
    ensures r.Some? <==> DecimalDigits(Unsigned(t)) && |WithoutUnderscores(Unsigned(t))| <= MaxStrDigits
    ensures r.Some? ==> t != [] && (r.value < 0 ==> t[0] == '-')
  {
    match ParseDigits(Unsigned(t))
    case None => None
    case Some(v) =>
      if |WithoutUnderscores(Unsigned(t))| > MaxStrDigits then None
      else Some(if t[0] == '-' then -(v as int) else v)
  }

  /** The value of an unsigned decimal literal, None when `s` is not one. */
  function ParseDigits(s: string): (r: Option<nat>)
    ensures r.Some? <==> DecimalDigits(s)
  {
    if !DecimalDigits(s) then None
    else
      WithoutUnderscoresDigits(s);
      Some(DigitsValue(WithoutUnderscores(s)))
  }

  /** Plain digits read as the number they denote. */
  lemma ParseDigitsOfDigits(ds: string)
    requires ds != [] && AllDigits(ds)
    ensures ParseDigits(ds) == Some(DigitsValue(ds))
  {
    assert DecimalDigits(ds);
    WithoutUnderscoresOfDigits(ds);
  }

  /** A string with no whitespace at either end is its own `strip()`. */
  lemma StripUnpadded(s: string, ws: char -> bool)
    requires s != [] && !ws(s[0]) && !ws(s[|s| - 1])
    ensures Strip(s, ws) == s
  {
    assert LStrip(s, ws) == s;
    assert RStrip(s, ws) == s;
  }

  /** `int(str(i)) == i` wherever `str(i)` does not raise: the decimal text of an integer reads back as that integer. */
  lemma ParseIntOfIntToString(i: int)
    requires !StrRaises(i)
    ensures ParseInt(IntToString(i)) == Some(i)
  {
    if i < 0 {
      ParseIntOfNegative(NatToString(-i));
    } else {
      ParseIntOfNatural(NatToString(i));
    }
  }

  /** Plain digits read as the number they denote. */
  lemma ParseIntOfNatural(digits: string)
    requires digits != [] && AllDigits(digits) && |digits| <= MaxStrDigits
    ensures ParseInt(digits) == Some(DigitsValue(digits))
  {
    assert IsDigit(digits[0]) && IsDigit(digits[|digits| - 1]);
    StripUnpadded(digits, IsIntSpace);
    ParseIntOfStripped(digits, digits);
  }

  /** Digits after a '-' sign read as the negation of the number they denote. */
  lemma ParseIntOfNegative(digits: string)
    requires digits != [] && AllDigits(digits) && |digits| <= MaxStrDigits
    ensures ParseInt("-" + digits) == Some(-(DigitsValue(digits) as int))
  {
    var s := "-" + digits;
    assert IsDigit(digits[|digits| - 1]) && s[|s| - 1] == digits[|digits| - 1];
    assert s[0] == '-' && s[1..] == digits;
    StripUnpadded(s, IsIntSpace);
    ParseSignedOfDigits(s, digits);
  }

  /** Stripped text made of an optional sign and plain digits reads as the signed number. */
  lemma ParseSignedOfDigits(t: string, digits: string)
    requires digits != [] && AllDigits(digits) && |digits| <= MaxStrDigits
    requires Unsigned(t) == digits
    ensures ParseSigned(t) == Some(if t[0] == '-' then -(DigitsValue(digits) as int) else DigitsValue(digits))
  {
    ParseDigitsOfDigits(digits);
    WithoutUnderscoresOfDigits(digits);
  }

  /** `lstrip` removes exactly a leading run of whitespace. */
  lemma {:induction false} LStripPadding(pad: string, rest: string, ws: char -> bool)
    requires forall i :: 0 <= i < |pad| ==> ws(pad[i])
    requires rest == [] || !ws(rest[0])
    ensures LStrip(pad + rest, ws) == rest
  {
    if pad != [] {
      assert (pad + rest)[1..] == pad[1..] + rest;
      LStripPadding(pad[1..], rest, ws);
    }
  }

  /** `rstrip` removes exactly a trailing run of whitespace. */
  lemma {:induction false} RStripPadding(rest: string, pad: string, ws: char -> bool)
    requires forall i :: 0 <= i < |pad| ==> ws(pad[i])
    requires rest == [] || !ws(rest[|rest| - 1])
    ensures RStrip(rest + pad, ws) == rest
  {
    if pad != [] {
      var s := rest + pad;
      assert s[|s| - 1] == pad[|pad| - 1];
      assert s[..|s| - 1] == rest + pad[..|pad| - 1];
      RStripPadding(rest, pad[..|pad| - 1], ws);
    }
  }

  /** Text whose `int()`-stripped form is plain digits reads as the number they denote. */
  lemma ParseIntOfStripped(x: string, digits: string)
    requires digits != [] && AllDigits(digits)
    requires Strip(x, IsIntSpace) == digits
    ensures ParseInt(x) == if |digits| <= MaxStrDigits then Some(DigitsValue(digits)) else None
  {
    assert IsDigit(digits[0]);
    assert Unsigned(digits) == digits;
    ParseDigitsOfDigits(digits);
    WithoutUnderscoresOfDigits(digits);
  }

  /** Stripping whitespace runs off both ends of a word leaves the word. */
  lemma StripPadding(left: string, w: string, right: string, ws: char -> bool)
    requires forall i :: 0 <= i < |left| ==> ws(left[i])
    requires forall i :: 0 <= i < |right| ==> ws(right[i])
    requires w != [] && !ws(w[0]) && !ws(w[|w| - 1])
    ensures Strip(left + w + right, ws) == w
  {
    assert left + w + right == left + (w + right);
    assert (w + right)[0] == w[0];
    LStripPadding(left, w + right, ws);
    RStripPadding(w, right, ws);
  }

  /**
   * `int()` ignores any whitespace it skips on either side of the digits: they
   * read as the number they denote when there are at most `MaxStrDigits` of
   * them, leading zeros included, and raise ValueError when there are more.
   */
  lemma ParseIntSkipsSpace(left: string, digits: string, right: string)
    requires forall i :: 0 <= i < |left| ==> IsIntSpace(left[i])
    requires forall i :: 0 <= i < |right| ==> IsIntSpace(right[i])
    requires digits != [] && AllDigits(digits)
    ensures |digits| <= MaxStrDigits ==> ParseInt(left + digits + right) == Some(DigitsValue(digits))
    ensures |digits| > MaxStrDigits ==> ParseInt(left + digits + right).None?
  {
    assert IsDigit(digits[0]) && IsDigit(digits[|digits| - 1]);
    StripPadding(left, digits, right, IsIntSpace);
    ParseIntOfStripped(left + digits + right, digits);
  }

  /**
   * `int()` rejects text led by one of U+001C..U+001F, although `str.isspace`
   * counts these as whitespace.
   */
  lemma ParseIntRejectsSeparator(s: string)
    requires s != [] && '\U{1c}' <= s[0] <= '\U{1f}'
    ensures IsSpace(s[0])
    ensures ParseInt(s).None?
  {
    assert LStrip(s, IsIntSpace) == s;
    var t := Strip(s, IsIntSpace);
    assert t != [] && t[0] == s[0];
    assert Unsigned(t) == t;
  }

  /** Decimal text determines the number: `str` is injective on integers. */
  lemma IntToStringInjective(a: int, b: int)
    requires IntToString(a) == IntToString(b)
    ensures a == b
  {
    var s := IntToString(a);
    if a < 0 {
      assert DigitsValue(s[1..]) == -a == -b;
    } else {
      assert DigitsValue(s) == a == b;
    }
  }

  // ---------------------------------------------------------------- splitlines

  /** The index of the first line break in `s`, or `|s|`. */
  function LineEnd(s: string): (i: nat)
    ensures i <= |s|
    ensures i < |s| ==> IsLineBreak(s[i])
    ensures forall k :: 0 <= k < i ==> !IsLineBreak(s[k])
  {
    if s == [] || IsLineBreak(s[0]) then 0 else 1 + LineEnd(s[1..])
  }

  /**
   * `s.splitlines()`: the lines of `s` without their terminators; "\r\n" ends
   * one line, and a final terminator does not start an empty last line.
   */
  function SplitLines(s: string): (lines: seq<string>)
    ensures forall j, k :: 0 <= j < |lines| && 0 <= k < |lines[j]| ==> !IsLineBreak(lines[j][k])
    ensures lines == [] <==> s == []
    decreases |s|
  {
    if s == [] then []
    else
      var i := LineEnd(s);
      if i == |s| then [s]
      else
        var next := if s[i] == '\r' && i + 1 < |s| && s[i + 1] == '\n' then i + 2 else i + 1;
        [s[..i]] + SplitLines(s[next..])
  }

  predicate NoLineBreak(line: string)
  {
    forall k :: 0 <= k < |line| ==> !IsLineBreak(line[k])
  }

  /** The lines, each followed by `terminator`. */
  function Terminated(lines: seq<string>, terminator: string): (r: string)
  {
    if lines == [] then "" else lines[0] + terminator + Terminated(lines[1..], terminator)
  }

  lemma LineEndAfterLine(line: string, rest: string)
    requires NoLineBreak(line)
    requires rest != [] && IsLineBreak(rest[0])
    ensures LineEnd(line + rest) == |line|
  {
    var s := line + rest;
    assert s[|line|] == rest[0];
  }

  /** One line and its terminator are split off the front of the text. */
  lemma SplitLinesStep(line: string, terminator: string, tail: string)
    requires NoLineBreak(line)
    requires terminator == "\n" || terminator == "\r\n" || terminator == "\r"
    requires terminator == "\r" ==> tail == [] || tail[0] != '\n'
    ensures SplitLines(line + terminator + tail) == [line] + SplitLines(tail)
  {
    var s := line + terminator + tail;
    assert s == line + (terminator + tail);
    LineEndAfterLine(line, terminator + tail);
    var i := |line|;
    assert s[..i] == line;
    assert s[i] == terminator[0];
    if terminator == "\r" && tail != [] {
      assert s[i + 1] == tail[0];
    }
    if terminator == "\r\n" {
      assert s[i + 1] == '\n';
    }
    assert s[i + |terminator|..] == tail;
  }

  lemma TerminatedStart(lines: seq<string>, terminator: string)
    requires forall j :: 0 <= j < |lines| ==> NoLineBreak(lines[j])
    requires terminator == "\r"
    ensures var t := Terminated(lines, terminator); t == [] || t[0] != '\n'
  {
    if lines != [] {
      var t := Terminated(lines, terminator);
      if lines[0] != [] {
        assert t[0] == lines[0][0];
      } else {
        assert t[0] == '\r';
      }
    }
  }

  /**
   * Round trip of `splitlines`: lines without line breaks, each ended by "\n",
   * "\r\n" or "\r", split back into exactly those lines.
   */
  lemma {:induction false} SplitLinesOfTerminated(lines: seq<string>, terminator: string)
    requires forall j :: 0 <= j < |lines| ==> NoLineBreak(lines[j])
    requires terminator == "\n" || terminator == "\r\n" || terminator == "\r"
    ensures SplitLines(Terminated(lines, terminator)) == lines
  {
    if lines != [] {
      var tail := Terminated(lines[1..], terminator);
      if terminator == "\r" {
        TerminatedStart(lines[1..], terminator);
      }
      assert Terminated(lines, terminator) == lines[0] + terminator + tail;
      SplitLinesStep(lines[0], terminator, tail);
      assert forall j :: 0 <= j < |lines[1..]| ==> lines[1..][j] == lines[j + 1];
      SplitLinesOfTerminated(lines[1..], terminator);
      assert lines == [lines[0]] + lines[1..];
    }
  }
}
