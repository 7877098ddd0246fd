/** A printer in the style of Python's json.dumps, as a choice among the texts of the grammar, and
    what becomes of a value that is printed and read again. */
module JsonPrinting {
  import opened Orders
  import opened JsonStrings
  import opened Json
  import opened JsonGrammar
  import opened JsonReading
  import opened JsonSoundness

  // ----- strings -----------------------------------------------------------------------

  /** A high surrogate followed by a low one reads back as the one character they encode. */
  function Fused(s: Text): (r: Text)
    ensures |r| <= |s|
  {
    if s == [] then []
    else if |s| >= 2 && High(s[0]) && Low(s[1]) then [Join(s[0], s[1])] + Fused(s[2..])
    else [s[0]] + Fused(s[1..])
  }

  predicate NoSplitPair(s: Text) {
    forall i | 0 <= i < |s| - 1 :: !(0xD800 <= s[i] < 0xDC00 && 0xDC00 <= s[i + 1] < 0xE000)
  }

  lemma {:induction false} FusedIffSplitPair(s: Text)
    ensures Fused(s) == s <==> NoSplitPair(s)
  {
    if |s| >= 2 && High(s[0]) && Low(s[1]) {
      assert |Fused(s)| < |s|;
    } else if s != [] {
      FusedIffSplitPair(s[1..]);
      assert s == [s[0]] + s[1..];
      assert NoSplitPair(s[1..]) ==> NoSplitPair(s) by {
        forall i | NoSplitPair(s[1..]) && 0 <= i < |s| - 1 ensures !(High(s[i]) && Low(s[i + 1])) {
          if i > 0 { assert s[i] == s[1..][i - 1] && s[i + 1] == s[1..][i]; }
        }
      }
      assert Fused(s) == s ==> Fused(s[1..]) == s[1..] by {
        assert Fused(s)[1..] == Fused(s[1..]);
      }
    }
  }

  function UnicodeGlyph(n: int): (g: Glyph)
    requires 0 <= n < 0x1_0000
    ensures g.Unicode? && GlyphOk(g) && GlyphCode(g) == n
  {
    Nibbles(n);
    Unicode(Nibble(n, 4096), Nibble(n, 256), Nibble(n, 16), Nibble(n, 1))
  }

  function Nibble(n: int, place: int): (h: Hex)
    requires 0 <= n && place > 0
    ensures HexOk(h)
  {
    Hex(n / place % 16, false)
  }

  lemma Nibbles(n: int)
    requires 0 <= n < 0x1_0000
    ensures 0x1000 * (n / 4096 % 16) + 0x100 * (n / 256 % 16) + 0x10 * (n / 16 % 16) + n / 1 % 16 == n
  {
    var p := n / 16;
    var q := p / 16;
    assert q == n / 256 && q / 16 == n / 4096;
  }

  function HighOf(c: Code): (h: Code)
    requires c >= 0x1_0000
    ensures High(h)
  {
    0xD800 + (c - 0x1_0000) / 0x400
  }

  function LowOf(c: Code): (l: Code)
    requires c >= 0x1_0000
    ensures Low(l)
  {
    0xDC00 + (c - 0x1_0000) % 0x400
  }

  lemma JoinSplit(c: Code)
    requires c >= 0x1_0000
    ensures Join(HighOf(c), LowOf(c)) == c
  {
  }

  function ShortOf(c: Code): (r: Option<char>)
    ensures r.Some? ==> GlyphOk(Short(r.value)) && GlyphCode(Short(r.value)) == c
    ensures r.None? ==> c != '"' as int && c != '\\' as int
  {
    if c == '"' as int then Some('"')
    else if c == '\\' as int then Some('\\')
    else if c == 8 then Some('b')
    else if c == 9 then Some('t')
    else if c == 10 then Some('n')
    else if c == 12 then Some('f')
    else if c == 13 then Some('r')
    else None
  }

  /** Printable ASCII as it is, everything else escaped, outside the first plane as a pair. */
  function Printed(c: Code): (gs: seq<Glyph>)
    ensures GlyphsOk(gs) && |gs| == (if c < 0x1_0000 then 1 else 2)
  {
    if ShortOf(c).Some? then [Short(ShortOf(c).value)]
    else if 32 <= c <= 126 then [Plain(c)]
    else if c < 0x1_0000 then [UnicodeGlyph(c)]
    else [UnicodeGlyph(HighOf(c)), UnicodeGlyph(LowOf(c))]
  }

  function PrintedGlyphs(s: Text): (gs: seq<Glyph>)
    ensures GlyphsOk(gs)
  {
    if s == [] then [] else Printed(s[0]) + PrintedGlyphs(s[1..])
  }

  lemma PrintedStart(s: Text)
    ensures PrintedGlyphs(s) == [] <==> s == []
    ensures s != [] && PrintedGlyphs(s)[0].Unicode? ==>
      GlyphCode(PrintedGlyphs(s)[0]) == if s[0] < 0x1_0000 then s[0] else HighOf(s[0])
  {
  }

  /** A printed string stands for itself, up to the fusing of split surrogate pairs. */
  lemma {:induction false} PrintedValue(s: Text)
    ensures StringValue(PrintedGlyphs(s)) == Fused(s)
  {
    if |s| >= 2 && High(s[0]) && Low(s[1]) {
      PrintedValue(s[2..]);
      PrintedPair(s);
      PairInFront(UnicodeGlyph(s[0]), UnicodeGlyph(s[1]), PrintedGlyphs(s[2..]));
    } else if s != [] {
      PrintedValue(s[1..]);
      if s[0] < 0x1_0000 {
        PrintedStart(s[1..]);
        assert Printed(s[0]) == [Printed(s[0])[0]];
        GlyphInFront(Printed(s[0])[0], PrintedGlyphs(s[1..]));
      } else {
        JoinSplit(s[0]);
        PairInFront(UnicodeGlyph(HighOf(s[0])), UnicodeGlyph(LowOf(s[0])), PrintedGlyphs(s[1..]));
      }
    }
  }

  lemma PrintedPair(s: Text)
    requires |s| >= 2 && High(s[0]) && Low(s[1])
    ensures PrintedGlyphs(s) == [UnicodeGlyph(s[0]), UnicodeGlyph(s[1])] + PrintedGlyphs(s[2..])
  {
    assert s[1..][1..] == s[2..] && s[1..][0] == s[1];
    PrintedSurrogate(s);
    PrintedSurrogate(s[1..]);
  }

  lemma PrintedSurrogate(s: Text)
    requires |s| > 0 && (High(s[0]) || Low(s[0]))
    ensures PrintedGlyphs(s) == [UnicodeGlyph(s[0])] + PrintedGlyphs(s[1..])
  {
    SurrogateIsEscaped(s[0]);
  }

  lemma SurrogateIsEscaped(c: Code)
    requires High(c) || Low(c)
    ensures Printed(c) == [UnicodeGlyph(c)]
  {
    assert ShortOf(c) == None;
  }

  // ----- values ------------------------------------------------------------------------------

  /** The lexemes a number can have. */
  ghost predicate NumberText(s: Text) {
    s in {Ascii("NaN"), Ascii("Infinity"), Ascii("-Infinity")} || exists n :: NumeralOk(n) && NumeralText(n) == s
  }

  /** Every number in v has such a lexeme. */
  ghost predicate Writable(v: Json)
    decreases v, 1
  {
    match v
    case Number(lexeme) => NumberText(lexeme)
    case Array(items) => WritableItems(items)
    case Object(members) => WritableMembers(members)
    case _ => true
  }

  ghost predicate WritableItems(items: seq<Json>)
    decreases items, 0
  {
    forall i | 0 <= i < |items| :: Writable(items[i])
  }

  ghost predicate WritableMembers(members: seq<Member>)
    decreases members, 0
  {
    forall i | 0 <= i < |members| :: Writable(members[i].value)
  }

  ghost function NumberTreeOf(lexeme: Text): (t: Tree)
    requires NumberText(lexeme)
    ensures TreeOk(t) && Render(t) == lexeme && Meaning(t) == Number(lexeme)
  {
    if lexeme == Ascii("NaN") then ConstantTree("NaN")
    else if lexeme == Ascii("Infinity") then ConstantTree("Infinity")
    else if lexeme == Ascii("-Infinity") then ConstantTree("-Infinity")
    else
      var n :| NumeralOk(n) && NumeralText(n) == lexeme;
      NumberTree(n)
  }

  /** The text that json.dumps chooses: a space after every comma and colon, no other. */
  ghost function TreeOf(v: Json): (t: Tree)
    requires Writable(v)
    ensures TreeOk(t)
    decreases v, 1
  {
    match v
    case Null => NullTree
    case Bool(b) => BoolTree(b)
    case Number(lexeme) => NumberTreeOf(lexeme)
    case Str(s) => StringTree(PrintedGlyphs(s))
    case Array(items) => ArrayTree([], ItemsOf(items, []))
    case Object(members) => ObjectTree([], EntriesOf(members, []))
  }

  ghost function ItemsOf(items: seq<Json>, gap: Text): (r: seq<Padded>)
    requires WritableItems(items) && White(gap)
    ensures |r| == |items| && ItemsOk(r)
    decreases items, 0
  {
    if items == [] then []
    else
      var p := Padded(gap, TreeOf(items[0]), []);
      assert PaddedOk(p);
      [p] + ItemsOf(items[1..], [' ' as int])
  }

  ghost function EntriesOf(members: seq<Member>, gap: Text): (r: seq<Entry>)
    requires WritableMembers(members) && White(gap)
    ensures |r| == |members| && EntriesOk(r)
    decreases members, 0
  {
    if members == [] then []
    else
      var p := Padded([' ' as int], TreeOf(members[0].value), []);
      assert PaddedOk(p);
      var e := Entry(gap, PrintedGlyphs(members[0].key), [], p);
      assert EntryOk(e);
      [e] + EntriesOf(members[1..], [' ' as int])
  }

  ghost function Print(v: Json): Text
    requires Writable(v)
  {
    Render(TreeOf(v))
  }

  /** v with split surrogate pairs fused and repeated keys collapsed, as reading does. */
  function Canon(v: Json): Json
    decreases v, 1
  {
    match v
    case Str(s) => Str(Fused(s))
    case Array(items) => Array(CanonItems(items))
    case Object(members) => Object(Dict(CanonMembers(members)))
    case _ => v
  }

  function CanonItems(items: seq<Json>): (r: seq<Json>)
    ensures |r| == |items|
    decreases items, 0
  {
    if items == [] then [] else [Canon(items[0])] + CanonItems(items[1..])
  }

  function CanonMembers(members: seq<Member>): (r: seq<Member>)
    ensures |r| == |members|
    decreases members, 0
  {
    if members == [] then [] else [Member(Fused(members[0].key), Canon(members[0].value))] + CanonMembers(members[1..])
  }

  lemma {:induction false} PrintedMeaning(v: Json)
    requires Writable(v)
    ensures Meaning(TreeOf(v)) == Canon(v)
    decreases v, 1
  {
    match v
    case Str(s) => PrintedValue(s);
    case Array(items) => ItemsMeaning(items, []);
    case Object(members) => MembersMeaning(members, []);
    case _ =>
  }

  lemma {:induction false} ItemsMeaning(items: seq<Json>, gap: Text)
    requires WritableItems(items) && White(gap)
    ensures MeaningItems(ItemsOf(items, gap)) == CanonItems(items)
    decreases items, 0
  {
    if items != [] {
      PrintedMeaning(items[0]);
      ItemsMeaning(items[1..], [' ' as int]);
      var p := Padded(gap, TreeOf(items[0]), []);
      assert PaddedOk(p);
      ItemsCons(p, ItemsOf(items[1..], [' ' as int]));
    }
  }

  lemma ItemsCons(p: Padded, more: seq<Padded>)
    requires PaddedOk(p) && ItemsOk(more)
    ensures ItemsOk([p] + more) && MeaningItems([p] + more) == [Meaning(p.tree)] + MeaningItems(more)
  {
    assert ([p] + more)[1..] == more;
  }

  lemma {:induction false} MembersMeaning(members: seq<Member>, gap: Text)
    requires WritableMembers(members) && White(gap)
    ensures MeaningEntries(EntriesOf(members, gap)) == CanonMembers(members)
    decreases members, 0
  {
    if members != [] {
      PrintedMeaning(members[0].value);
      PrintedValue(members[0].key);
      MembersMeaning(members[1..], [' ' as int]);
      var p := Padded([' ' as int], TreeOf(members[0].value), []);
      assert PaddedOk(p);
      var e := Entry(gap, PrintedGlyphs(members[0].key), [], p);
      assert EntryOk(e);
      EntriesCons(e, EntriesOf(members[1..], [' ' as int]));
    }
  }

  lemma EntriesCons(e: Entry, more: seq<Entry>)
    requires EntryOk(e) && EntriesOk(more)
    ensures EntriesOk([e] + more) && MeaningEntries([e] + more) == [MeaningEntry(e)] + MeaningEntries(more)
  {
    assert ([e] + more)[1..] == more;
  }

  /** Reading a printed value, whatever comes after it, gives the value in canonical form. A number
      must be followed by something that ends it. */
  lemma ValueRoundTrip(v: Json, rest: Text)
    requires Writable(v) && (v.Number? ==> EndsNumber(rest))
    ensures Value(Print(v) + rest) == Some(Parsed(Canon(v), rest))
  {
    PrintedMeaning(v);
    TreeReads(TreeOf(v), rest);
  }

  // ----- values that read back as they are ------------------------------------------------

  /** What json.dumps and the decoder agree on: no split surrogate pairs, no repeated keys. */
  ghost predicate Proper(v: Json)
    decreases v, 1
  {
    match v
    case Number(lexeme) => NumberText(lexeme)
    case Str(s) => NoSplitPair(s)
    case Array(items) => forall i | 0 <= i < |items| :: Proper(items[i])
    case Object(members) =>
      DistinctKeys(members) && forall i | 0 <= i < |members| :: NoSplitPair(members[i].key) && Proper(members[i].value)
    case _ => true
  }

  lemma {:induction false} ProperIsCanonical(v: Json)
    requires Proper(v)
    ensures Canon(v) == v && Writable(v)
    decreases v, 1
  {
    match v
    case Str(s) => FusedIffSplitPair(s);
    case Array(items) =>
      ProperItems(items);
    case Object(members) =>
      ProperMembers(members);
      DictOfDistinct(members);
    case _ =>
  }

  lemma {:induction false} ProperItems(items: seq<Json>)
    requires forall i | 0 <= i < |items| :: Proper(items[i])
    ensures CanonItems(items) == items && WritableItems(items)
    decreases items, 0
  {
    if items != [] {
      ProperIsCanonical(items[0]);
      ProperItems(items[1..]);
      assert items == [items[0]] + items[1..];
    }
  }

  lemma {:induction false} ProperMembers(members: seq<Member>)
    requires forall i | 0 <= i < |members| :: NoSplitPair(members[i].key) && Proper(members[i].value)
    ensures CanonMembers(members) == members && WritableMembers(members)
    decreases members, 0
  {
    if members != [] {
      FusedIffSplitPair(members[0].key);
      ProperIsCanonical(members[0].value);
      ProperMembers(members[1..]);
      assert members == [members[0]] + members[1..];
    }
  }
}
