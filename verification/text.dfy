/** The string conversions the bot relies on: decimal rendering of integers,
    integer parsing, slicing of mention strings, substring search and the
    quoted rendering of string lists that f-strings produce. */
module Text {
  import opened Wrappers

  predicate IsDigit(c: char) {
    '0' <= c <= '9'
  }

  function DigitChar(d: nat): (c: char)
    requires d < 10
    ensures IsDigit(c)
  {
    ['0', '1', '2', '3', '4', '5', '6', '7', '8', '9'][d]
  }

  function DigitValue(c: char): (d: nat)
    requires IsDigit(c)
    ensures d < 10
  {
    (c as int - '0' as int) as nat
  }

  lemma DigitRoundTrip(d: nat)
    requires d < 10
    ensures DigitValue(DigitChar(d)) == d
  {
  }

  predicate AllDigits(s: string) {
    forall i :: 0 <= i < |s| ==> IsDigit(s[i])
  }

  /** Decimal digits of a natural number, most significant first, no leading zeros. */
  function NatToString(n: nat): (s: string)
    ensures |s| > 0 && AllDigits(s)
    ensures n >= 10 ==> s[0] != '0'
  {
    if n < 10 then [DigitChar(n)] else NatToString(n / 10) + [DigitChar(n % 10)]
  }

  /** `str(n)` for an integer. */
  function IntToString(n: int): (s: string)
    ensures |s| > 0
    ensures n >= 0 <==> s[0] != '-'
  {
    if n < 0 then "-" + NatToString(-n) else NatToString(n)
  }

  /** Value of a digit string read most significant first. */
  function DigitsValue(s: string): nat
    requires AllDigits(s)
  {
    if |s| == 0 then 0 else DigitsValue(s[..|s| - 1]) * 10 + DigitValue(s[|s| - 1])
  }

  /** `int(s)` restricted to an optional sign followed by ASCII digits;
      anything else is the ValueError the interpreter raises. */
  function ParseInt(s: string): (r: Option<int>)
    ensures r.Some? ==> |s| > 0
  {
    if |s| > 0 && (s[0] == '-' || s[0] == '+') then
      var digits := s[1..];
      if |digits| > 0 && AllDigits(digits) then
        Some(if s[0] == '-' then -(DigitsValue(digits) as int) else DigitsValue(digits))
      else None
    else if |s| > 0 && AllDigits(s) then Some(DigitsValue(s))
    else None
  }

  /** `int(s)` as a `Result`, the form the engine consumes. */
  function ToInt(s: string): (r: Result<int>)
    ensures r.Ok? <==> ParseInt(s).Some?
    ensures r.Err? ==> r.fault == ValueError
  {
    match ParseInt(s)
    case Some(n) => Ok(n)
    case None => Err(ValueError)
  }

  lemma {:induction false} NatToStringValue(n: nat)
    ensures DigitsValue(NatToString(n)) == n
  {
    if n >= 10 {
      var s := NatToString(n);
      assert s[..|s| - 1] == NatToString(n / 10);
      NatToStringValue(n / 10);
      DigitRoundTrip(n % 10);
    } else {
      DigitRoundTrip(n);
    }
  }

  /** Parsing the decimal rendering of any integer gives the integer back. */
  lemma IntRoundTrip(n: int)
    ensures ParseInt(IntToString(n)) == Some(n)
  {
    if n < 0 {
      NegativeRoundTrip(n);
    } else {
      NatRoundTrip(n);
    }
  }

  lemma NegativeRoundTrip(n: int)
    requires n < 0
    ensures ParseInt("-" + NatToString(-n)) == Some(n)
  {
    NatToStringValue(-n);
    ParseNegative(NatToString(-n));
  }

  lemma ParseNegative(digits: string)
    requires |digits| > 0 && AllDigits(digits)
    ensures ParseInt("-" + digits) == Some(-(DigitsValue(digits) as int))
  {
    assert ("-" + digits)[1..] == digits;
  }


  lemma NatRoundTrip(n: nat)
    ensures ParseInt(NatToString(n)) == Some(n)
  {
    var s := NatToString(n);
    assert IsDigit(s[0]);
    NatToStringValue(n);
  }



  /** `s[front:-1]`: drop the first `front` characters and the last one,
      with the interpreter's clamping (too short a string gives ""). */
  function Strip(s: string, front: nat): (r: string)
    ensures |s| > front ==> |r| == |s| - front - 1
    ensures |s| <= front ==> r == ""
  {
    if |s| > front then s[front..|s| - 1] else ""
  }

  lemma StripWrapped(open: string, body: string, close: char)
    ensures Strip(open + body + [close], |open|) == body
  {
    var s := open + body + [close];
    assert s[|open|..|s| - 1] == body;
  }

  /** `needle` occurs in `hay` starting at position `i`. */
  predicate OccursAt(hay: string, needle: string, i: int) {
    0 <= i && i + |needle| <= |hay| && hay[i..i + |needle|] == needle
  }

  /** `needle in hay` for strings. */
  predicate Contains(hay: string, needle: string) {
    exists i | 0 <= i <= |hay| - |needle| :: OccursAt(hay, needle, i)
  }

  /** Concatenation of a list of strings. */
  function Concat(parts: seq<string>): (r: string)
    ensures parts == [] ==> r == ""
  {
    if |parts| == 0 then "" else parts[0] + Concat(parts[1..])
  }

  lemma {:induction false} ConcatAppend(a: seq<string>, b: seq<string>)
    ensures Concat(a + b) == Concat(a) + Concat(b)
  {
    if |a| == 0 {
      assert a + b == b;
    } else {
      assert (a + b)[1..] == a[1..] + b;
      ConcatAppend(a[1..], b);
    }
  }

  /** The quote character `repr` picks for a string. */
  function QuoteFor(s: string): (q: char)
    ensures q == '"' || q == '\''
  {
    if '\'' in s && '"' !in s then '"' else '\''
  }

  /** The assigned characters the interpreter's `str.isprintable` rejects
      (Unicode 15.0): controls, format characters, separators other than
      the space, and the private-use areas, as inclusive ranges of code
      points. */
  predicate NonPrintable(c: char) {
    var n := c as int;
    n <= 0x1f || 0x7f <= n <= 0xa0 || n == 0xad || 0x600 <= n <= 0x605
    || n == 0x61c || n == 0x6dd || n == 0x70f || 0x890 <= n <= 0x891 || n == 0x8e2
    || n == 0x1680 || n == 0x180e || 0x2000 <= n <= 0x200f || 0x2028 <= n <= 0x202f
    || 0x205f <= n <= 0x2064 || 0x2066 <= n <= 0x206f || n == 0x3000
    || 0xe000 <= n <= 0xf8ff || n == 0xfeff || 0xfff9 <= n <= 0xfffb
    || n == 0x110bd || n == 0x110cd || 0x13430 <= n <= 0x1343f
    || 0x1bca0 <= n <= 0x1bca3 || 0x1d173 <= n <= 0x1d17a
    || n == 0xe0001 || 0xe0020 <= n <= 0xe007f || 0xf0000 <= n <= 0xffffd
    || 0x100000 <= n <= 0x10fffd
  }

  /** A lower-case hexadecimal digit. */
  function HexDigit(d: nat): (c: char)
    requires d < 16
    ensures '0' <= c <= '9' || 'a' <= c <= 'f'
  {
    if d < 10 then (('0' as int) + d) as char else (('a' as int) + d - 10) as char
  }

  /** `n` in exactly `width` lower-case hexadecimal digits. */
  function Hex(n: nat, width: nat): (s: string)
    ensures |s| == width
    ensures forall k :: 0 <= k < |s| ==> '0' <= s[k] <= '9' || 'a' <= s[k] <= 'f'
  {
    if width == 0 then "" else Hex(n / 16, width - 1) + [HexDigit(n % 16)]
  }

  /** A backslash, a letter and hexadecimal digits: the shape of an
      escape sequence, printable throughout. */
  lemma EscapeSequencePrintable(letter: char, h: string)
    requires 'A' <= letter <= 'z'
    requires forall k :: 0 <= k < |h| ==> '0' <= h[k] <= '9' || 'a' <= h[k] <= 'f'
    ensures forall k :: 0 <= k < |['\\', letter] + h| ==> !NonPrintable((['\\', letter] + h)[k])
  {
  }

  /** How `repr` writes one character inside quotes `q`: backslash and the
      quote are escaped, tab, line feed and carriage return get their
      letters, every other non-printable character its code point in
      hexadecimal (`\xNN`, `\uNNNN` or `\UNNNNNNNN`), and the rest stands
      for itself. */
  function EscapeChar(c: char, q: char): (r: string)
    requires q == '"' || q == '\''
    ensures !NonPrintable(c) && c != '\\' && c != q ==> r == [c]
    ensures forall k :: 0 <= k < |r| ==> !NonPrintable(r[k])
  {
    if c == '\\' then "\\\\"
    else if c == q then ['\\', q]
    else if c == '\n' then "\\n"
    else if c == '\r' then "\\r"
    else if c == '\t' then "\\t"
    else if NonPrintable(c) then
      var n := c as int;
      var (letter, h) := if n < 0x100 then ('x', Hex(n, 2))
        else if n < 0x10000 then ('u', Hex(n, 4))
        else ('U', Hex(n, 8));
      EscapeSequencePrintable(letter, h);
      ['\\', letter] + h
    else [c]
  }

  function Escape(s: string, q: char): (r: string)
    requires q == '"' || q == '\''
    ensures forall k :: 0 <= k < |r| ==> !NonPrintable(r[k])
  {
    if |s| == 0 then "" else EscapeChar(s[0], q) + Escape(s[1..], q)
  }

  /** `repr(s)`: quoted, with backslash and the chosen quote escaped and
      every non-printable character written as an escape sequence, so that
      the result is printable throughout. */
  function Repr(s: string): (r: string)
    ensures |r| >= 2 && r[0] == r[|r| - 1] == QuoteFor(s)
    ensures forall k :: 0 <= k < |r| ==> !NonPrintable(r[k])
  {
    var q := QuoteFor(s);
    [q] + Escape(s, q) + [q]
  }

  /** A zero-width joiner, as inside a family emoji, is written as its
      escape. */
  lemma JoinerEscaped()
    ensures Repr(['\U{200D}']) == "'\\u200d'"
  {
    var j := '\U{200D}';
    assert Hex(0x200D, 4) == "200d" by {
      assert Hex(0x2, 1) == "2";
      assert Hex(0x20, 2) == "20";
      assert Hex(0x200, 3) == "200";
    }
    assert EscapeChar(j, '\'') == "\\u200d";
    assert QuoteFor([j]) == '\'';
    assert Escape([j], '\'') == "\\u200d" by {
      assert [j][1..] == "";
    }
  }

  function ReprItems(xs: seq<string>): string {
    if |xs| == 0 then ""
    else if |xs| == 1 then Repr(xs[0])
    else Repr(xs[0]) + ", " + ReprItems(xs[1..])
  }

  /** `str(xs)` for a list of strings, e.g. `['a', 'b']`. */
  function ListRepr(xs: seq<string>): (r: string)
    ensures |r| >= 2 && r[0] == '[' && r[|r| - 1] == ']'
    ensures xs == [] <==> r == "[]"
  {
    "[" + ReprItems(xs) + "]"
  }
}
