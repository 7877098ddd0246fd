/** How Python's json module reads strings and numbers (sections 7 and 6 of RFC 8259, with lone
    surrogates allowed). */
module JsonStrings {
  import opened Orders

  /** A code point, surrogates included, as in a Python str. */
  type Code = c: int | 0 <= c < 0x11_0000
  type Text = seq<Code>

  /** A value read off the front of a text, and what is left. */
  datatype Parsed<+T> = Parsed(value: T, rest: Text)

  const QUOTE: Code := 34
  const BACKSLASH: Code := 92
  const LOWER_U: Code := 117
  const MINUS: Code := 45
  const DOT: Code := 46

  predicate StartsWith(s: Text, c: Code) {
    |s| > 0 && s[0] == c
  }

  // ----- hexadecimal escapes ---------------------------------------------------

  /** Upper and lower case alike. */
  function HexValue(c: Code): Option<int> {
    if 48 <= c <= 57 then Some(c - 48)
    else if 97 <= c <= 102 then Some(c - 87)
    else if 65 <= c <= 70 then Some(c - 55)
    else None
  }

  /** The number four hex digits at the front of s stand for. */
  function FromHex4(s: Text): (r: Option<Code>)
    ensures r.Some? ==> |s| >= 4 && r.value < 0x1_0000
  {
    if |s| < 4 || HexValue(s[0]).None? || HexValue(s[1]).None? || HexValue(s[2]).None? || HexValue(s[3]).None? then None
    else Some(HexNumber(HexValue(s[0]).value, HexValue(s[1]).value, HexValue(s[2]).value, HexValue(s[3]).value))
  }

  function HexNumber(a: int, b: int, c: int, d: int): (n: Code)
    requires 0 <= a < 16 && 0 <= b < 16 && 0 <= c < 16 && 0 <= d < 16
    ensures n < 0x1_0000
  {
    4096 * a + 256 * b + 16 * c + d
  }

  // ----- surrogates --------------------------------------------------------------

  predicate High(c: int) { 0xD800 <= c < 0xDC00 }
  predicate Low(c: int) { 0xDC00 <= c < 0xE000 }

  function Join(high: Code, low: Code): Code
    requires High(high) && Low(low)
  {
    0x1_0000 + 0x400 * (high - 0xD800) + (low - 0xDC00)
  }

  // ----- strings -------------------------------------------------------------------

  /** The character a one-letter escape stands for. */
  function Simple(c: Code): Option<Code> {
    if c == QUOTE || c == BACKSLASH || c == 47 then Some(c)
    else if c == 98 then Some(8)
    else if c == 102 then Some(12)
    else if c == 110 then Some(10)
    else if c == 114 then Some(13)
    else if c == 116 then Some(9)
    else None
  }

  /** A `u` escape without its backslash: one code unit, or the pair it makes with the escape after it. */
  function Unit(s: Text): (r: Option<Parsed<Code>>)
    ensures r.Some? ==> |r.value.rest| < |s|
  {
    if !StartsWith(s, LOWER_U) || FromHex4(s[1..]).None? then None
    else
      var c, t := FromHex4(s[1..]).value, s[5..];
      if High(c) && |t| >= 2 && t[0] == BACKSLASH && t[1] == LOWER_U
         && FromHex4(t[2..]).Some? && Low(FromHex4(t[2..]).value) then
        Some(Parsed(Join(c, FromHex4(t[2..]).value), t[6..]))
      else Some(Parsed(c, t))
  }

  /** One character of a string's body, escaped or not. */
  function Character(s: Text): (r: Option<Parsed<Code>>)
    ensures r.Some? ==> |r.value.rest| < |s|
  {
    if |s| == 0 || s[0] < 32 || s[0] == QUOTE then None
    else if s[0] != BACKSLASH then Some(Parsed(s[0], s[1..]))
    else if |s| >= 2 && Simple(s[1]).Some? then Some(Parsed(Simple(s[1]).value, s[2..]))
    else Unit(s[1..])
  }

  /** The body of a string up to and including its closing quote. */
  function Body(s: Text): (r: Option<Parsed<Text>>)
    ensures r.Some? ==> |r.value.rest| < |s|
    decreases |s|
  {
    if StartsWith(s, QUOTE) then Some(Parsed([], s[1..]))
    else
      match Character(s)
      case None => None
      case Some(c) =>
        match Body(c.rest)
        case None => None
        case Some(more) => Some(Parsed([c.value] + more.value, more.rest))
  }

  // ----- numbers ----------------------------------------------------------------------

  predicate Digit(c: Code) { 48 <= c <= 57 }

  /** How many digits s begins with. */
  function Digits(s: Text): (n: nat)
    ensures n <= |s|
  {
    if |s| > 0 && Digit(s[0]) then 1 + Digits(s[1..]) else 0
  }

  /** A zero, or digits that do not begin with one. */
  function IntLen(s: Text): (n: nat)
    ensures n <= |s|
  {
    if StartsWith(s, 48) then 1 else Digits(s)
  }

  function FracLen(s: Text): (n: nat)
    ensures n <= |s|
  {
    if StartsWith(s, DOT) && Digits(s[1..]) > 0 then 1 + Digits(s[1..]) else 0
  }

  function ExpLen(s: Text): (n: nat)
    ensures n <= |s|
  {
    if |s| == 0 || (s[0] != 101 && s[0] != 69) then 0
    else
      var sign := if |s| > 1 && (s[1] == 43 || s[1] == MINUS) then 2 else 1;
      if Digits(s[sign..]) > 0 then sign + Digits(s[sign..]) else 0
  }

  /** What may come after the integer part. */
  function TailLen(s: Text): (n: nat)
    ensures n <= |s|
  {
    FracLen(s) + ExpLen(s[FracLen(s)..])
  }

  function UnsignedLen(s: Text): (n: nat)
    ensures n <= |s|
  {
    if IntLen(s) == 0 then 0 else IntLen(s) + TailLen(s[IntLen(s)..])
  }

  /** The length of the longest number s begins with; 0 if there is none. */
  function NumberLen(s: Text): (n: nat)
    ensures n <= |s|
  {
    if !StartsWith(s, MINUS) then UnsignedLen(s)
    else if UnsignedLen(s[1..]) == 0 then 0
    else 1 + UnsignedLen(s[1..])
  }

  /** What may follow a number without becoming part of it. */
  predicate EndsNumber(rest: Text) {
    |rest| > 0 ==> !Digit(rest[0]) && rest[0] != DOT && rest[0] != 101 && rest[0] != 69
  }
}
