/** The texts of JSON values, written out apart from any decoder: the grammar of sections 2 to 7 of
    RFC 8259, with the constants and the lone surrogates that Python also reads, and what each text
    means. */
module JsonGrammar {
  import opened Orders
  import opened JsonStrings
  import opened Json

  function Ascii(s: string): (t: Text)
    ensures |t| == |s|
  {
    seq(|s|, i requires 0 <= i < |s| => s[i] as int)
  }

  // ----- white space and digits --------------------------------------------------------

  /** Space, tab, line feed, carriage return. */
  predicate White(s: Text) {
    forall i | 0 <= i < |s| :: s[i] == 0x20 || s[i] == 0x09 || s[i] == 0x0A || s[i] == 0x0D
  }

  predicate AllDigits(s: Text) {
    |s| > 0 && forall i | 0 <= i < |s| :: '0' as int <= s[i] <= '9' as int
  }

  /** A hexadecimal digit, in either case. */
  datatype Hex = Hex(value: nat, capital: bool)

  predicate HexOk(h: Hex) {
    h.value < 16
  }

  function HexText(h: Hex): Code
    requires HexOk(h)
  {
    (if h.capital then "0123456789ABCDEF" else "0123456789abcdef")[h.value] as int
  }

  // ----- strings -------------------------------------------------------------------------

  /** One piece of a string: a character as it is, or escaped in one of two ways. */
  datatype Glyph = Plain(c: Code) | Short(letter: char) | Unicode(h0: Hex, h1: Hex, h2: Hex, h3: Hex)

  predicate GlyphOk(g: Glyph) {
    match g
    case Plain(c) => c >= 32 && c != '"' as int && c != '\\' as int
    case Short(letter) => letter in {'"', '\\', '/', 'b', 'f', 'n', 'r', 't'}
    case Unicode(a, b, c, d) => HexOk(a) && HexOk(b) && HexOk(c) && HexOk(d)
  }

  function GlyphText(g: Glyph): Text
    requires GlyphOk(g)
  {
    match g
    case Plain(c) => [c]
    case Short(letter) => ['\\' as int, letter as int]
    case Unicode(a, b, c, d) => ['\\' as int, 'u' as int, HexText(a), HexText(b), HexText(c), HexText(d)]
  }

  /** The code point or surrogate a glyph stands for. */
  function GlyphCode(g: Glyph): Code
    requires GlyphOk(g)
  {
    match g
    case Plain(c) => c
    case Short(letter) =>
      if letter == 'b' then 8
      else if letter == 't' then 9
      else if letter == 'n' then 10
      else if letter == 'f' then 12
      else if letter == 'r' then 13
      else letter as int
    case Unicode(a, b, c, d) => 0x1000 * a.value + 0x100 * b.value + 0x10 * c.value + d.value
  }

  predicate GlyphsOk(gs: seq<Glyph>) {
    forall i | 0 <= i < |gs| :: GlyphOk(gs[i])
  }

  function GlyphsText(gs: seq<Glyph>): Text
    requires GlyphsOk(gs)
  {
    if gs == [] then [] else GlyphText(gs[0]) + GlyphsText(gs[1..])
  }

  /** Two escapes that together stand for one character outside the first plane. */
  predicate IsPair(g: Glyph, h: Glyph)
    requires GlyphOk(g) && GlyphOk(h)
  {
    g.Unicode? && h.Unicode? && 0xD800 <= GlyphCode(g) < 0xDC00 && 0xDC00 <= GlyphCode(h) < 0xE000
  }

  function StringValue(gs: seq<Glyph>): Text
    requires GlyphsOk(gs)
  {
    if gs == [] then []
    else if |gs| >= 2 && IsPair(gs[0], gs[1]) then
      [0x1_0000 + 0x400 * (GlyphCode(gs[0]) - 0xD800) + (GlyphCode(gs[1]) - 0xDC00)] + StringValue(gs[2..])
    else [GlyphCode(gs[0])] + StringValue(gs[1..])
  }

  function StringText(gs: seq<Glyph>): Text
    requires GlyphsOk(gs)
  {
    ['"' as int] + GlyphsText(gs) + ['"' as int]
  }

  // ----- numbers ---------------------------------------------------------------------------

  datatype Exponent = Exponent(capital: bool, sign: Text, digits: Text)
  datatype Numeral = Numeral(minus: bool, whole: Text, fraction: Option<Text>, exponent: Option<Exponent>)

  predicate NumeralOk(n: Numeral) {
    && AllDigits(n.whole) && (n.whole[0] == '0' as int ==> |n.whole| == 1)
    && (n.fraction.Some? ==> AllDigits(n.fraction.value))
    && (n.exponent.Some? ==> n.exponent.value.sign in {[], ['+' as int], ['-' as int]} && AllDigits(n.exponent.value.digits))
  }

  function FractionText(f: Option<Text>): Text {
    if f.None? then [] else ['.' as int] + f.value
  }

  function ExponentText(e: Option<Exponent>): Text {
    if e.None? then []
    else [(if e.value.capital then 'E' else 'e') as int] + e.value.sign + e.value.digits
  }

  function NumeralText(n: Numeral): Text {
    (if n.minus then ['-' as int] else []) + n.whole + FractionText(n.fraction) + ExponentText(n.exponent)
  }

  // ----- values ----------------------------------------------------------------------------

  /** A text, as it is put together. White space may stand around every item, key and value. */
  datatype Tree =
    | NullTree
    | BoolTree(b: bool)
    | ConstantTree(name: string)
    | NumberTree(n: Numeral)
    | StringTree(gs: seq<Glyph>)
    | ArrayTree(blank: Text, items: seq<Padded>)
    | ObjectTree(blank: Text, members: seq<Entry>)
  datatype Padded = Padded(before: Text, tree: Tree, after: Text)
  datatype Entry = Entry(before: Text, key: seq<Glyph>, between: Text, value: Padded)

  predicate TreeOk(t: Tree)
    decreases t, 1
  {
    match t
    case NullTree => true
    case BoolTree(_) => true
    case ConstantTree(name) => name in {"NaN", "Infinity", "-Infinity"}
    case NumberTree(n) => NumeralOk(n)
    case StringTree(gs) => GlyphsOk(gs)
    case ArrayTree(blank, items) => White(blank) && ItemsOk(items)
    case ObjectTree(blank, members) => White(blank) && EntriesOk(members)
  }

  predicate ItemsOk(items: seq<Padded>)
    decreases items, 0
  {
    forall i | 0 <= i < |items| :: PaddedOk(items[i])
  }

  predicate PaddedOk(p: Padded)
    decreases p, 2
  {
    White(p.before) && White(p.after) && TreeOk(p.tree)
  }

  predicate EntriesOk(members: seq<Entry>)
    decreases members, 0
  {
    forall i | 0 <= i < |members| :: EntryOk(members[i])
  }

  predicate EntryOk(e: Entry)
    decreases e, 3
  {
    White(e.before) && White(e.between) && GlyphsOk(e.key) && PaddedOk(e.value)
  }

  function Render(t: Tree): Text
    requires TreeOk(t)
    decreases t, 1
  {
    match t
    case NullTree => Ascii("null")
    case BoolTree(b) => Ascii(if b then "true" else "false")
    case ConstantTree(name) => Ascii(name)
    case NumberTree(n) => NumeralText(n)
    case StringTree(gs) => StringText(gs)
    case ArrayTree(blank, items) => ['[' as int] + if items == [] then blank + [']' as int] else RenderItems(items)
    case ObjectTree(blank, members) => ['{' as int] + if members == [] then blank + ['}' as int] else RenderEntries(members)
  }

  function RenderPadded(p: Padded): Text
    requires PaddedOk(p)
    decreases p, 2
  {
    p.before + Render(p.tree) + p.after
  }

  /** Items up to and including the closing bracket. */
  function RenderItems(items: seq<Padded>): Text
    requires items != [] && ItemsOk(items)
    decreases items, 0
  {
    RenderPadded(items[0]) + if |items| == 1 then [']' as int] else [',' as int] + RenderItems(items[1..])
  }

  function RenderEntry(e: Entry): Text
    requires EntryOk(e)
    decreases e, 2
  {
    e.before + StringText(e.key) + e.between + [':' as int] + RenderPadded(e.value)
  }

  function RenderEntries(members: seq<Entry>): Text
    requires members != [] && EntriesOk(members)
    decreases members, 0
  {
    RenderEntry(members[0]) + if |members| == 1 then ['}' as int] else [',' as int] + RenderEntries(members[1..])
  }

  /** The value a text stands for. */
  function Meaning(t: Tree): Json
    requires TreeOk(t)
    decreases t, 1
  {
    match t
    case NullTree => Null
    case BoolTree(b) => Bool(b)
    case ConstantTree(name) => Number(Ascii(name))
    case NumberTree(n) => Number(NumeralText(n))
    case StringTree(gs) => Str(StringValue(gs))
    case ArrayTree(_, items) => Array(MeaningItems(items))
    case ObjectTree(_, members) => Object(Dict(MeaningEntries(members)))
  }

  function MeaningItems(items: seq<Padded>): (r: seq<Json>)
    requires ItemsOk(items)
    ensures |r| == |items|
    decreases items, 0
  {
    if items == [] then []
    else
      assert PaddedOk(items[0]);
      [Meaning(items[0].tree)] + MeaningItems(items[1..])
  }

  function MeaningEntries(members: seq<Entry>): (r: seq<Member>)
    requires EntriesOk(members)
    ensures |r| == |members|
    decreases members, 0
  {
    if members == [] then []
    else
      assert EntryOk(members[0]);
      [MeaningEntry(members[0])] + MeaningEntries(members[1..])
  }

  function MeaningEntry(e: Entry): Member
    requires EntryOk(e)
    decreases e, 3
  {
    assert PaddedOk(e.value);
    Member(StringValue(e.key), Meaning(e.value.tree))
  }
}
