/** The `%q` verb of Go's `fmt` package (`strconv.Quote`) for the user ids the earlier
    repositories put into their error texts, with its inverse. */
module GoFormat {
  import opened Wrappers

  const HexDigits := "0123456789abcdef"

  /** Characters `%q` writes as `\x` and two lower-case hex digits: the control
      characters without a short escape, and DEL. */
  predicate IsHexEscaped(c: char) {
    (c as int < 0x20 && !IsShortEscaped(c)) || c as int == 0x7f
  }

  /** Characters with a one-letter escape. */
  predicate IsShortEscaped(c: char) {
    c as int in {7, 8, 9, 10, 11, 12, 13}
  }

  /** The letter of a one-letter escape. */
  function ShortEscapeLetter(c: char): char
    requires IsShortEscaped(c)
  {
    if c as int == 7 then 'a'
    else if c as int == 8 then 'b'
    else if c as int == 9 then 't'
    else if c as int == 10 then 'n'
    else if c as int == 11 then 'v'
    else if c as int == 12 then 'f'
    else 'r'
  }

  /** The character a one-letter escape stands for, if the letter is one. */
  function ShortEscapeChar(letter: char): Option<char> {
    if letter == 'a' then Some(7 as char)
    else if letter == 'b' then Some(8 as char)
    else if letter == 't' then Some(9 as char)
    else if letter == 'n' then Some(10 as char)
    else if letter == 'v' then Some(11 as char)
    else if letter == 'f' then Some(12 as char)
    else if letter == 'r' then Some(13 as char)
    else None
  }

  /** One character as `%q` writes it inside the quotes. */
  function EscapeChar(c: char): (r: string)
    ensures 0 < |r| <= 4
  {
    if c == '"' then ['\\', '"']
    else if c == '\\' then ['\\', '\\']
    else if IsShortEscaped(c) then ['\\', ShortEscapeLetter(c)]
    else if IsHexEscaped(c) then ['\\', 'x', HexDigits[c as int / 16], HexDigits[c as int % 16]]
    else [c]
  }

  function Escape(s: string): string {
    if s == [] then [] else EscapeChar(s[0]) + Escape(s[1..])
  }

  /** `fmt.Sprintf("%q", s)`. */
  function Quote(s: string): (q: string)
    ensures |q| >= 2 && q[0] == '"' && q[|q| - 1] == '"'
  {
    "\"" + Escape(s) + "\""
  }

  function HexValue(c: char): Option<nat> {
    if '0' <= c <= '9' then Some(c as int - '0' as int)
    else if 'a' <= c <= 'f' then Some(c as int - 'a' as int + 10)
    else None
  }

  /** Puts a decoded character in front of a decoded body. */
  function Prepend(c: char, r: Option<(string, string)>): Option<(string, string)> {
    match r
    case None => None
    case Some((body, rest)) => Some(([c] + body, rest))
  }

  /** Reads an escaped body up to its closing quote: the decoded body and the text
      after the quote, or `None` when an escape is unknown or no quote closes it. */
  function ReadEscaped(s: string): Option<(string, string)>
    decreases |s|
  {
    if s == [] then None
    else if s[0] == '"' then Some(([], s[1..]))
    else if s[0] != '\\' then Prepend(s[0], ReadEscaped(s[1..]))
    else if |s| < 2 then None
    else if s[1] == '"' || s[1] == '\\' then Prepend(s[1], ReadEscaped(s[2..]))
    else if ShortEscapeChar(s[1]).Some? then Prepend(ShortEscapeChar(s[1]).value, ReadEscaped(s[2..]))
    else if s[1] == 'x' && |s| >= 4 && HexValue(s[2]).Some? && HexValue(s[3]).Some? then
      Prepend((HexValue(s[2]).value * 16 + HexValue(s[3]).value) as char, ReadEscaped(s[4..]))
    else None
  }

  /** Reads a quoted string at the start of a text: the string and what follows it. */
  function Unquote(s: string): Option<(string, string)> {
    if |s| > 0 && s[0] == '"' then ReadEscaped(s[1..]) else None
  }

  lemma HexDigitValue(i: nat)
    requires i < 16
    ensures HexValue(HexDigits[i]) == Some(i)
  {
  }

  /** Decoding the escape of one character yields that character. */
  lemma ReadEscapeChar(c: char, rest: string)
    ensures ReadEscaped(EscapeChar(c) + rest) == Prepend(c, ReadEscaped(rest))
  {
    if c == '"' || c == '\\' {
      ReadQuotedEscape(c, rest);
    } else if IsShortEscaped(c) {
      ShortEscapeInverse(c);
      ReadShortEscape(ShortEscapeLetter(c), rest);
    } else if IsHexEscaped(c) {
      HexDigitValue(c as int / 16);
      HexDigitValue(c as int % 16);
      ReadHexEscape(HexDigits[c as int / 16], HexDigits[c as int % 16], rest);
    } else {
      ReadPlainChar(c, rest);
    }
  }

  lemma ReadQuotedEscape(c: char, rest: string)
    requires c == '"' || c == '\\'
    ensures ReadEscaped(['\\', c] + rest) == Prepend(c, ReadEscaped(rest))
  {
    assert (['\\', c] + rest)[2..] == rest;
  }

  lemma ShortEscapeInverse(c: char)
    requires IsShortEscaped(c)
    ensures ShortEscapeChar(ShortEscapeLetter(c)) == Some(c)
    ensures ShortEscapeLetter(c) != '"' && ShortEscapeLetter(c) != '\\'
  {
  }

  lemma ReadShortEscape(letter: char, rest: string)
    requires ShortEscapeChar(letter).Some? && letter != '"' && letter != '\\'
    ensures ReadEscaped(['\\', letter] + rest) == Prepend(ShortEscapeChar(letter).value, ReadEscaped(rest))
  {
    assert (['\\', letter] + rest)[2..] == rest;
  }

  lemma ReadHexEscape(hi: char, lo: char, rest: string)
    requires HexValue(hi).Some? && HexValue(lo).Some? && HexValue(hi).value * 16 + HexValue(lo).value < 0x80
    ensures ReadEscaped(['\\', 'x', hi, lo] + rest)
            == Prepend((HexValue(hi).value * 16 + HexValue(lo).value) as char, ReadEscaped(rest))
  {
    assert ShortEscapeChar('x') == None;
    assert (['\\', 'x', hi, lo] + rest)[4..] == rest;
  }

  lemma ReadPlainChar(c: char, rest: string)
    requires c != '"' && c != '\\'
    ensures ReadEscaped([c] + rest) == Prepend(c, ReadEscaped(rest))
  {
    assert ([c] + rest)[1..] == rest;
  }

  /** An escaped body followed by its closing quote reads back as that body, and the
      reading stops right after the quote. */
  lemma {:induction false} ReadEscapedBody(s: string, x: string)
    ensures ReadEscaped(Escape(s) + "\"" + x) == Some((s, x))
  {
    if s == [] {
      assert Escape(s) + "\"" + x == "\"" + x;
      assert ("\"" + x)[1..] == x;
    } else {
      assert Escape(s) + "\"" + x == EscapeChar(s[0]) + (Escape(s[1..]) + "\"" + x);
      ReadEscapeChar(s[0], Escape(s[1..]) + "\"" + x);
      ReadEscapedBody(s[1..], x);
      assert [s[0]] + s[1..] == s;
    }
  }

  /** `Unquote` inverts `Quote`, whatever text follows the closing quote. */
  lemma UnquoteQuote(s: string, x: string)
    ensures Unquote(Quote(s) + x) == Some((s, x))
  {
    assert (Quote(s) + x)[1..] == Escape(s) + "\"" + x;
    ReadEscapedBody(s, x);
  }

  /** Distinct strings quote differently, and a quoted string is never a proper
      prefix of another: a quoted id at the start of a text names one id. */
  lemma QuotedPrefixUnique(a: string, x: string, b: string, y: string)
    requires Quote(a) + x == Quote(b) + y
    ensures a == b && x == y
  {
    UnquoteQuote(a, x);
    UnquoteQuote(b, y);
  }

  /** A string of printable ASCII without quotes or backslashes is quoted as is. */
  lemma {:induction false} QuotePlain(s: string)
    requires forall i :: 0 <= i < |s| ==> ' ' <= s[i] <= '~' && s[i] != '"' && s[i] != '\\'
    ensures Quote(s) == "\"" + s + "\""
    ensures Escape(s) == s
  {
    if s != [] {
      QuotePlain(s[1..]);
      assert [s[0]] + s[1..] == s;
    }
  }
}
