/** The string operations of Rust's standard library that the service relies on:
    `str::to_uppercase`, `Display` for integers, `str::parse::<i32>`, the `{:.2}`
    format of prices, `str::split_whitespace` and `join`. */
module Text {
  import opened Common

  // ---------------------------------------------------------------------------
  // Upper-casing

  predicate IsAsciiLower(c: char) { 'a' <= c <= 'z' }

  predicate IsAsciiUpper(c: char) { 'A' <= c <= 'Z' }

  /** The upper case of one character, as `char::to_uppercase` yields it, for the
      ASCII letters and for every non-ASCII character whose upper case is pure
      ASCII (dotless i, long s, sharp s and the Latin ligatures). Any other
      character is kept as it is. */
  function UpperOf(c: char): (u: string)
    ensures 1 <= |u| <= 3
  {
    if IsAsciiLower(c) then [(c as int - 32) as char]
    else if c == '\U{131}' then "I"
    else if c == '\U{17F}' then "S"
    else if c == '\U{DF}' then "SS"
    else if c == '\U{FB00}' then "FF"
    else if c == '\U{FB01}' then "FI"
    else if c == '\U{FB02}' then "FL"
    else if c == '\U{FB03}' then "FFI"
    else if c == '\U{FB04}' then "FFL"
    else if c == '\U{FB05}' || c == '\U{FB06}' then "ST"
    else [c]
  }

  /** `str::to_uppercase`: each character replaced by its upper case, in order. */
  function ToUpper(s: string): string
  {
    if s == [] then [] else UpperOf(s[0]) + ToUpper(s[1..])
  }

  lemma {:induction false} ToUpperAppend(a: string, b: string)
    ensures ToUpper(a + b) == ToUpper(a) + ToUpper(b)
  {
    if a == [] {
      assert a + b == b;
    } else {
      assert (a + b)[0] == a[0] && (a + b)[1..] == a[1..] + b;
      ToUpperAppend(a[1..], b);
    }
  }

  /** A string of characters that upper-case to themselves is its own upper case. */
  lemma {:induction false} ToUpperOfFixedChars(s: string)
    requires forall i :: 0 <= i < |s| ==> UpperOf(s[i]) == [s[i]]
    ensures ToUpper(s) == s
  {
    if s != [] {
      ToUpperOfFixedChars(s[1..]);
      assert s == [s[0]] + s[1..];
    }
  }

  /** An upper-cased character is left alone by a second upper-casing. */
  lemma UpperOfIsFixed(c: char)
    ensures ToUpper(UpperOf(c)) == UpperOf(c)
  {
    ToUpperOfFixedChars(UpperOf(c));
  }

  /** Upper-casing is idempotent: validation after a second `to_uppercase` sees the same string. */
  lemma {:induction false} ToUpperIdempotent(s: string)
    ensures ToUpper(ToUpper(s)) == ToUpper(s)
  {
    if s != [] {
      ToUpperAppend(UpperOf(s[0]), ToUpper(s[1..]));
      UpperOfIsFixed(s[0]);
      ToUpperIdempotent(s[1..]);
    }
  }

  /** A non-empty string of upper-case ASCII letters, the shape of every ticker symbol. */
  predicate IsUpperWord(s: string)
  {
    s != [] && forall i :: 0 <= i < |s| ==> IsAsciiUpper(s[i])
  }

  /** ASCII lower-casing, used to state that a lower-case symbol is accepted. */
  function AsciiLower(s: string): (r: string)
    ensures |r| == |s|
  {
    if s == [] then []
    else [if IsAsciiUpper(s[0]) then (s[0] as int + 32) as char else s[0]] + AsciiLower(s[1..])
  }

  /** An upper-case letter is its own upper case and that of its lower case. */
  lemma UpperOfAsciiLetter(c: char)
    requires IsAsciiUpper(c)
    ensures UpperOf(c) == [c]
    ensures UpperOf((c as int + 32) as char) == [c]
  {
  }

  /** Upper-casing fixes an upper-case word and undoes its ASCII lower-casing. */
  lemma {:induction false} UpperWordCaseInsensitive(s: string)
    requires forall i :: 0 <= i < |s| ==> IsAsciiUpper(s[i])
    ensures ToUpper(s) == s
    ensures ToUpper(AsciiLower(s)) == s
  {
    if s != [] {
      UpperWordCaseInsensitive(s[1..]);
      UpperOfAsciiLetter(s[0]);
      var l := AsciiLower(s);
      assert l[0] == (s[0] as int + 32) as char;
      assert l[1..] == AsciiLower(s[1..]);
      assert ToUpper(l) == UpperOf(l[0]) + ToUpper(l[1..]);
      assert ToUpper(s) == UpperOf(s[0]) + ToUpper(s[1..]);
      assert s == [s[0]] + s[1..];
    }
  }

  // ---------------------------------------------------------------------------
  // Decimal integers

  predicate IsDigit(c: char) { '0' <= c <= '9' }

  predicate IsDigits(s: string) { forall i :: 0 <= i < |s| ==> IsDigit(s[i]) }

  function DigitChar(d: nat): (c: char)
    requires d < 10
    ensures IsDigit(c)
  {
    ('0' as int + d) as char
  }

  function DigitValue(c: char): (d: nat)
    requires IsDigit(c)
    ensures d < 10 && DigitChar(d) == c
  {
    c as int - '0' as int
  }

  /** `Display` of a natural number: its decimal digits, without leading zeros. */
  function NatToString(n: nat): (s: string)
    ensures s != [] && IsDigits(s)
    ensures n >= 10 ==> s[0] != '0'
  {
    if n < 10 then [DigitChar(n)] else NatToString(n / 10) + [DigitChar(n % 10)]
  }

  /** `Display` of an integer: a minus sign before the digits of a negative value. */
  function IntToString(i: int): string
  {
    if i < 0 then "-" + NatToString(-i) else NatToString(i)
  }

  /** The value of a string of decimal digits, most significant first. */
  function DigitsValue(s: string): nat
    requires IsDigits(s)
  {
    if s == [] then 0 else 10 * DigitsValue(s[..|s| - 1]) + DigitValue(s[|s| - 1])
  }

  lemma {:induction false} NatToStringValue(n: nat)
    ensures DigitsValue(NatToString(n)) == n
  {
    if n >= 10 {
      NatToStringValue(n / 10);
      var s := NatToString(n);
      assert s[..|s| - 1] == NatToString(n / 10);
    }
  }

  /** One or more decimal digits, read as a natural number. */
  function ParseDigits(s: string): (r: Option<nat>)
    ensures r.Some? <==> s != [] && IsDigits(s)
  {
    if s != [] && IsDigits(s) then Some(DigitsValue(s)) else None
  }

  /** `str::parse::<i32>`: an optional `+` or `-`, then at least one ASCII digit;
      a value outside the i32 range is an error, as is anything else. */
  function ParseI32(s: string): Option<i32>
  {
    if s != [] && s[0] == '-' then
      match ParseDigits(s[1..])
      case Some(v) => if v <= 0x8000_0000 then Some((-(v as int)) as i32) else None
      case None => None
    else
      var digits := if s != [] && s[0] == '+' then s[1..] else s;
      match ParseDigits(digits)
      case Some(v) => if v < 0x8000_0000 then Some(v as i32) else None
      case None => None
  }

  /** Printing an i32 and parsing it back gives the same number. */
  lemma ParseI32RoundTrip(n: i32)
    ensures ParseI32(IntToString(n as int)) == Some(n)
  {
    if n < 0 {
      ParseNegative(-(n as int));
    } else {
      ParseNonNegative(n as int);
    }
  }

  lemma ParseNegative(v: nat)
    requires 0 < v <= 0x8000_0000
    ensures ParseI32("-" + NatToString(v)) == Some((-(v as int)) as i32)
  {
    var s := "-" + NatToString(v);
    assert s[0] == '-';
    assert s[1..] == NatToString(v);
    NatToStringValue(v);
    assert ParseDigits(s[1..]) == Some(v);
  }

  lemma ParseNonNegative(v: nat)
    requires v < 0x8000_0000
    ensures ParseI32(NatToString(v)) == Some(v as i32)
  {
    var s := NatToString(v);
    NatToStringValue(v);
    assert IsDigit(s[0]);
    assert ParseDigits(s) == Some(v);
  }

  /** Anything that is not an optional sign followed by digits does not parse. */
  lemma ParseI32RejectsNonNumeral(s: string)
    requires forall i :: 0 <= i < |s| ==> !IsDigit(s[i])
    ensures ParseI32(s) == None
  {
    if s != [] && (s[0] == '-' || s[0] == '+') {
      assert s[1..] == [] || !IsDigit(s[1..][0]);
    }
  }

  // ---------------------------------------------------------------------------
  // Prices with two decimals

  /** Two decimals of a non-negative amount, rounded half up. */
  function Fixed2NonNegative(x: real): (s: string)
    requires x >= 0.0
    ensures forall i :: 0 <= i < |s| ==> IsDigit(s[i]) || s[i] == '.'
  {
    var cents: int := (x * 100.0 + 0.5).Floor;
    assert cents >= 0;
    NatToString(cents / 100) + "." + [DigitChar(cents % 100 / 10), DigitChar(cents % 10)]
  }

  /** The `{:.2}` format of an amount: a sign for a negative amount, then two decimals. */
  function Fixed2(x: real): (s: string)
    ensures forall i :: 0 <= i < |s| ==> IsDigit(s[i]) || s[i] == '.' || s[i] == '-'
  {
    if x < 0.0 then "-" + Fixed2NonNegative(-x) else Fixed2NonNegative(x)
  }

  // ---------------------------------------------------------------------------
  // Splitting on whitespace

  /** `char::is_whitespace`: the characters with Unicode's White_Space property. */
  predicate IsWhitespace(c: char)
  {
    || '\t' <= c <= '\r'
    || c == ' '
    || c == '\U{85}'
    || c == '\U{A0}'
    || c == '\U{1680}'
    || '\U{2000}' <= c <= '\U{200A}'
    || c == '\U{2028}'
    || c == '\U{2029}'
    || c == '\U{202F}'
    || c == '\U{205F}'
    || c == '\U{3000}'
  }

  /** A token of `split_whitespace`: non-empty, without whitespace. */
  predicate IsWord(w: string)
  {
    w != [] && forall i :: 0 <= i < |w| ==> !IsWhitespace(w[i])
  }

  /** The length of the longest prefix of `s` without whitespace. */
  function WordLength(s: string): (n: nat)
    ensures n <= |s|
    ensures forall i :: 0 <= i < n ==> !IsWhitespace(s[i])
    ensures n < |s| ==> IsWhitespace(s[n])
  {
    if s == [] || IsWhitespace(s[0]) then 0 else 1 + WordLength(s[1..])
  }

  /** `str::split_whitespace`: the maximal runs of non-whitespace characters, in order. */
  function SplitWhitespace(s: string): (ws: seq<string>)
    ensures forall i :: 0 <= i < |ws| ==> IsWord(ws[i])
    decreases |s|
  {
    if s == [] then []
    else if IsWhitespace(s[0]) then SplitWhitespace(s[1..])
    else
      var n := WordLength(s);
      [s[..n]] + SplitWhitespace(s[n..])
  }

  /** `join(sep)`: the strings with `sep` between each two neighbours. */
  function Join(ws: seq<string>, sep: string): string
  {
    if |ws| == 0 then ""
    else if |ws| == 1 then ws[0]
    else ws[0] + sep + Join(ws[1..], sep)
  }

  lemma WordThenRest(w: string, rest: string)
    requires IsWord(w)
    ensures SplitWhitespace(w) == [w]
    ensures SplitWhitespace(w + " " + rest) == [w] + SplitWhitespace(rest)
  {
    assert WordLength(w) == |w|;
    assert w[..|w|] == w && w[|w|..] == [];
    var s := w + " " + rest;
    assert WordLength(s) == |w| by {
      var n := WordLength(s);
      assert s[|w|] == ' ';
      assert forall i :: 0 <= i < |w| ==> s[i] == w[i];
    }
    assert s[..|w|] == w;
    assert s[|w|..] == " " + rest;
    assert (" " + rest)[1..] == rest;
  }

  /** Splitting words joined by single spaces gives the words back. */
  lemma {:induction false} SplitJoinRoundTrip(ws: seq<string>)
    requires forall i :: 0 <= i < |ws| ==> IsWord(ws[i])
    ensures SplitWhitespace(Join(ws, " ")) == ws
  {
    if |ws| == 1 {
      WordThenRest(ws[0], "");
    } else if |ws| > 1 {
      SplitJoinRoundTrip(ws[1..]);
      WordThenRest(ws[0], Join(ws[1..], " "));
      assert ws == [ws[0]] + ws[1..];
    }
  }

  /** `str::starts_with`. */
  predicate StartsWith(s: string, prefix: string)
  {
    |prefix| <= |s| && s[..|prefix|] == prefix
  }
}
