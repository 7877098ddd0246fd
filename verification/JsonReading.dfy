/** The decoder reads every text of the grammar, as what it means. */
module JsonReading {
  import opened Orders
  import opened JsonStrings
  import opened Json
  import opened JsonGrammar

  // ----- strings -----------------------------------------------------------------------

  lemma Assoc(a: Text, b: Text, c: Text)
    ensures a + b + c == a + (b + c)
  {
  }

  lemma HexReads(h: Hex)
    requires HexOk(h)
    ensures HexValue(HexText(h)) == Some(h.value)
  {
  }

  /** Four hexadecimal digits read as the number they spell. */
  lemma FourHexReads(g: Glyph, tail: Text)
    requires g.Unicode? && GlyphOk(g)
    ensures FromHex4(GlyphText(g)[2..] + tail) == Some(GlyphCode(g))
  {
    HexReads(g.h0);
    HexReads(g.h1);
    HexReads(g.h2);
    HexReads(g.h3);
    var s := GlyphText(g)[2..] + tail;
    assert s[0] == HexText(g.h0) && s[1] == HexText(g.h1) && s[2] == HexText(g.h2) && s[3] == HexText(g.h3);
  }

  lemma EscapeShape(g: Glyph, tail: Text)
    requires g.Unicode? && GlyphOk(g)
    ensures var s := GlyphText(g) + tail;
      && |s| >= 6 && s[0] == BACKSLASH && s[1] == LOWER_U && s[1..][5..] == s[6..] == tail
      && FromHex4(s[2..]) == FromHex4(s[1..][1..]) == Some(GlyphCode(g))
  {
    var s := GlyphText(g) + tail;
    assert s[2..] == s[1..][1..] == GlyphText(g)[2..] + tail;
    FourHexReads(g, tail);
  }

  /** The text does not begin with an escape of a low surrogate. */
  predicate NoLowEscape(t: Text) {
    !(|t| >= 2 && t[0] == BACKSLASH && t[1] == LOWER_U && FromHex4(t[2..]).Some? && Low(FromHex4(t[2..]).value))
  }

  lemma GlyphReads(g: Glyph, tail: Text)
    requires GlyphOk(g) && (g.Unicode? && High(GlyphCode(g)) ==> NoLowEscape(tail))
    ensures Character(GlyphText(g) + tail) == Some(Parsed(GlyphCode(g), tail))
  {
    var s := GlyphText(g) + tail;
    match g
    case Plain(_) => assert s[1..] == tail;
    case Short(_) => assert s[2..] == tail;
    case Unicode(_, _, _, _) => EscapeShape(g, tail);
  }

  lemma PairReads(g: Glyph, h: Glyph, tail: Text)
    requires GlyphOk(g) && GlyphOk(h) && IsPair(g, h)
    ensures Character(GlyphText(g) + (GlyphText(h) + tail)) == Some(Parsed(Join(GlyphCode(g), GlyphCode(h)), tail))
  {
    EscapeShape(g, GlyphText(h) + tail);
    EscapeShape(h, tail);
    UnitPair(GlyphText(g) + (GlyphText(h) + tail), GlyphText(h) + tail, GlyphCode(g), GlyphCode(h), tail);
  }

  lemma UnitPair(s: Text, t: Text, h: Code, l: Code, tail: Text)
    requires |s| >= 6 && s[0] == BACKSLASH && s[1] == LOWER_U && FromHex4(s[1..][1..]) == Some(h) && s[1..][5..] == t && High(h)
    requires |t| >= 6 && t[0] == BACKSLASH && t[1] == LOWER_U && FromHex4(t[2..]) == Some(l) && t[6..] == tail && Low(l)
    ensures Character(s) == Some(Parsed(Join(h, l), tail))
  {
    assert Simple(LOWER_U) == None;
  }

  /** What stands after a high surrogate continues a pair only if it is a low one. */
  lemma NextIsNoLow(gs: seq<Glyph>, rest: Text)
    requires GlyphsOk(gs) && (gs != [] && gs[0].Unicode? ==> !Low(GlyphCode(gs[0])))
    ensures NoLowEscape(GlyphsText(gs) + ([QUOTE] + rest))
  {
    if gs != [] {
      var tail := GlyphsText(gs[1..]) + ([QUOTE] + rest);
      assert GlyphsText(gs) + ([QUOTE] + rest) == GlyphText(gs[0]) + tail;
      if gs[0].Unicode? { EscapeShape(gs[0], tail); }
    }
  }

  lemma BodyStep(s: Text, c: Code, tail: Text, more: Text, rest: Text)
    requires Character(s) == Some(Parsed(c, tail)) && Body(tail) == Some(Parsed(more, rest)) && !StartsWith(s, QUOTE)
    ensures Body(s) == Some(Parsed([c] + more, rest))
  {
  }

  lemma TwoGlyphs(gs: seq<Glyph>, end: Text)
    requires GlyphsOk(gs) && |gs| >= 2
    ensures GlyphsText(gs) + end == GlyphText(gs[0]) + (GlyphText(gs[1]) + (GlyphsText(gs[2..]) + end))
  {
    OneGlyph(gs[1..], end);
    OneGlyph(gs, end);
    assert gs[1..][1..] == gs[2..] && gs[1..][0] == gs[1];
  }

  lemma OneGlyph(gs: seq<Glyph>, end: Text)
    requires GlyphsOk(gs) && gs != []
    ensures GlyphsText(gs) + end == GlyphText(gs[0]) + (GlyphsText(gs[1..]) + end)
  {
    Assoc(GlyphText(gs[0]), GlyphsText(gs[1..]), end);
  }

  lemma GlyphStart(g: Glyph, tail: Text)
    requires GlyphOk(g)
    ensures !StartsWith(GlyphText(g) + tail, QUOTE)
  {
  }

  lemma PairValue(gs: seq<Glyph>)
    requires GlyphsOk(gs) && |gs| >= 2 && IsPair(gs[0], gs[1])
    ensures StringValue(gs) == [Join(GlyphCode(gs[0]), GlyphCode(gs[1]))] + StringValue(gs[2..])
  {
  }

  lemma PairStep(gs: seq<Glyph>, end: Text, rest: Text)
    requires GlyphsOk(gs) && |gs| >= 2 && IsPair(gs[0], gs[1])
    requires Body(GlyphsText(gs[2..]) + end) == Some(Parsed(StringValue(gs[2..]), rest))
    ensures Body(GlyphsText(gs) + end) == Some(Parsed(StringValue(gs), rest))
  {
    var tail := GlyphsText(gs[2..]) + end;
    TwoGlyphs(gs, end);
    PairReads(gs[0], gs[1], tail);
    GlyphStart(gs[0], GlyphText(gs[1]) + tail);
    PairValue(gs);
    BodyStep(GlyphsText(gs) + end, Join(GlyphCode(gs[0]), GlyphCode(gs[1])), tail, StringValue(gs[2..]), rest);
  }

  lemma GlyphStep(gs: seq<Glyph>, end: Text, rest: Text)
    requires GlyphsOk(gs) && gs != [] && !(|gs| >= 2 && IsPair(gs[0], gs[1]))
    requires Body(GlyphsText(gs[1..]) + end) == Some(Parsed(StringValue(gs[1..]), rest))
    requires gs[0].Unicode? && High(GlyphCode(gs[0])) ==> NoLowEscape(GlyphsText(gs[1..]) + end)
    ensures Body(GlyphsText(gs) + end) == Some(Parsed(StringValue(gs), rest))
  {
    var tail := GlyphsText(gs[1..]) + end;
    OneGlyph(gs, end);
    GlyphReads(gs[0], tail);
    GlyphStart(gs[0], tail);
    BodyStep(GlyphsText(gs) + end, GlyphCode(gs[0]), tail, StringValue(gs[1..]), rest);
  }

  /** A string's text, up to its closing quote, is read as what its glyphs stand for. */
  lemma {:induction false} StringReads(gs: seq<Glyph>, rest: Text)
    requires GlyphsOk(gs)
    ensures Body(GlyphsText(gs) + ([QUOTE] + rest)) == Some(Parsed(StringValue(gs), rest))
  {
    if gs == [] {
      assert GlyphsText(gs) + ([QUOTE] + rest) == [QUOTE] + rest && ([QUOTE] + rest)[1..] == rest;
    } else if |gs| >= 2 && IsPair(gs[0], gs[1]) {
      StringReads(gs[2..], rest);
      PairStep(gs, [QUOTE] + rest, rest);
    } else {
      if gs[0].Unicode? && High(GlyphCode(gs[0])) { NextIsNoLow(gs[1..], rest); }
      StringReads(gs[1..], rest);
      GlyphStep(gs, [QUOTE] + rest, rest);
    }
  }

  // ----- numbers -------------------------------------------------------------------------

  lemma {:induction false} DigitsRun(d: Text, rest: Text)
    requires forall i | 0 <= i < |d| :: Digit(d[i])
    requires |rest| > 0 ==> !Digit(rest[0])
    ensures Digits(d + rest) == |d|
  {
    if d == [] {
      assert d + rest == rest;
    } else {
      assert (d + rest)[1..] == d[1..] + rest;
      DigitsRun(d[1..], rest);
    }
  }

  lemma FractionReads(f: Option<Text>, rest: Text)
    requires (f.Some? ==> AllDigits(f.value)) && (|rest| > 0 ==> !Digit(rest[0]) && rest[0] != DOT)
    ensures FracLen(FractionText(f) + rest) == |FractionText(f)|
  {
    if f.Some? {
      assert (FractionText(f) + rest)[1..] == f.value + rest;
      DigitsRun(f.value, rest);
    } else {
      assert FractionText(f) + rest == rest;
    }
  }

  predicate ExponentOk(e: Option<Exponent>) {
    e.Some? ==> e.value.sign in {[], ['+' as int], ['-' as int]} && AllDigits(e.value.digits)
  }

  lemma ExponentReads(e: Option<Exponent>, rest: Text)
    requires ExponentOk(e) && EndsNumber(rest)
    ensures ExpLen(ExponentText(e) + rest) == |ExponentText(e)|
  {
    if e.Some? {
      ExponentOf(if e.value.capital then 69 else 101, e.value.sign, e.value.digits, rest);
    } else {
      assert ExponentText(e) + rest == rest;
    }
  }

  lemma ExponentOf(mark: Code, sign: Text, digits: Text, rest: Text)
    requires mark in {69, 101} && sign in {[], [43], [MINUS]} && AllDigits(digits) && (|rest| > 0 ==> !Digit(rest[0]))
    ensures ExpLen([mark] + sign + digits + rest) == 1 + |sign| + |digits|
  {
    var s, tail := [mark] + sign + digits + rest, digits + rest;
    DigitsRun(digits, rest);
    if sign == [] {
      assert s == [mark] + tail && s[1..] == tail && s[1] == digits[0];
    } else {
      assert s == [mark, sign[0]] + tail && s[2..] == tail && s[1] == sign[0];
    }
  }

  lemma ExponentStart(e: Option<Exponent>, rest: Text)
    requires ExponentOk(e) && EndsNumber(rest)
    ensures var s := ExponentText(e) + rest; |s| > 0 ==> !Digit(s[0]) && s[0] != DOT
  {
  }

  lemma TailReads(f: Option<Text>, e: Option<Exponent>, rest: Text)
    requires (f.Some? ==> AllDigits(f.value)) && ExponentOk(e) && EndsNumber(rest)
    ensures TailLen(FractionText(f) + (ExponentText(e) + rest)) == |FractionText(f)| + |ExponentText(e)|
  {
    var more := ExponentText(e) + rest;
    ExponentStart(e, rest);
    FractionReads(f, more);
    assert (FractionText(f) + more)[|FractionText(f)|..] == more;
    ExponentReads(e, rest);
  }

  lemma WholeReads(whole: Text, tail: Text)
    requires AllDigits(whole) && (whole[0] == 48 ==> |whole| == 1) && (|tail| > 0 ==> !Digit(tail[0]))
    ensures IntLen(whole + tail) == |whole| && (whole + tail)[|whole|..] == tail
  {
    DigitsRun(whole, tail);
  }

  lemma UnsignedReads(n: Numeral, rest: Text)
    requires NumeralOk(n) && EndsNumber(rest)
    ensures var s := n.whole + (FractionText(n.fraction) + (ExponentText(n.exponent) + rest));
      UnsignedLen(s) == |n.whole| + |FractionText(n.fraction)| + |ExponentText(n.exponent)| && Digit(s[0])
  {
    var tail := FractionText(n.fraction) + (ExponentText(n.exponent) + rest);
    ExponentStart(n.exponent, rest);
    assert |tail| > 0 ==> !Digit(tail[0]) by {
      if n.fraction.None? { assert tail == ExponentText(n.exponent) + rest; }
    }
    WholeReads(n.whole, tail);
    TailReads(n.fraction, n.exponent, rest);
  }

  /** A number is read up to where nothing continues it. */
  lemma NumeralReads(n: Numeral, rest: Text)
    requires NumeralOk(n) && EndsNumber(rest)
    ensures var s := NumeralText(n) + rest;
      NumberLen(s) == |NumeralText(n)| && (Digit(s[0]) || (s[0] == MINUS && |s| > 1 && Digit(s[1])))
  {
    var sign := if n.minus then [MINUS] else [];
    var u := n.whole + (FractionText(n.fraction) + (ExponentText(n.exponent) + rest));
    UnsignedReads(n, rest);
    NumeralShape(sign, n.whole, FractionText(n.fraction), ExponentText(n.exponent), rest);
    SignedReads(sign, u);
  }

  lemma NumeralShape(sign: Text, whole: Text, f: Text, e: Text, rest: Text)
    ensures sign + whole + f + e + rest == sign + (whole + (f + (e + rest)))
  {
  }

  lemma SignedReads(sign: Text, u: Text)
    requires sign in {[], [MINUS]} && UnsignedLen(u) > 0 && Digit(u[0])
    ensures var s := sign + u;
      NumberLen(s) == |sign| + UnsignedLen(u) && (Digit(s[0]) || (s[0] == MINUS && |s| > 1 && Digit(s[1])))
  {
    if sign == [] {
      assert sign + u == u;
    } else {
      assert (sign + u)[1..] == u;
    }
  }

  // ----- white space -----------------------------------------------------------------------

  lemma {:induction false} SkipsWhite(blank: Text, s: Text)
    requires White(blank) && (|s| > 0 ==> !Blank(s[0]))
    ensures Skip(blank + s) == s
  {
    if blank == [] {
      assert blank + s == s;
    } else {
      assert (blank + s)[1..] == blank[1..] + s;
      SkipsWhite(blank[1..], s);
    }
  }

  // ----- values ------------------------------------------------------------------------------

  lemma WordReads(t: Tree, rest: Text)
    requires t.NullTree? || t.BoolTree?
    ensures Value(Render(t) + rest) == Some(Parsed(Meaning(t), rest))
  {
    var s := Render(t) + rest;
    assert Ascii("null") == NULL && Ascii("true") == TRUE && Ascii("false") == FALSE;
    assert Render(t) <= s && s[|Render(t)|..] == rest;
  }

  lemma ConstantReads(t: Tree, rest: Text)
    requires t.ConstantTree? && TreeOk(t)
    ensures Value(Render(t) + rest) == Some(Parsed(Meaning(t), rest))
  {
    var s := Render(t) + rest;
    assert Ascii("NaN") == NAN && Ascii("Infinity") == INFINITY && Ascii("-Infinity") == MINUS_INFINITY;
    assert Render(t) <= s && s[|Render(t)|..] == rest;
  }

  lemma ValueOfNumber(s: Text)
    requires NumberLen(s) > 0 && (Digit(s[0]) || (s[0] == MINUS && |s| > 1 && Digit(s[1])))
    ensures Value(s) == Some(Parsed(Number(s[..NumberLen(s)]), s[NumberLen(s)..]))
  {
    NumberIsNoWord(s);
    assert Value(s) == Scalar(s);
  }

  lemma NumberIsNoWord(s: Text)
    requires |s| > 0 && (Digit(s[0]) || (s[0] == MINUS && |s| > 1 && Digit(s[1])))
    ensures !(NULL <= s) && !(TRUE <= s) && !(FALSE <= s) && !(NAN <= s) && !(INFINITY <= s) && !(MINUS_INFINITY <= s)
  {
    assert NULL[0] == 110 && TRUE[0] == 116 && FALSE[0] == 102 && NAN[0] == 78 && INFINITY[0] == 73 && MINUS_INFINITY[1] == 73;
  }

  lemma NumberReads(n: Numeral, rest: Text)
    requires NumeralOk(n) && EndsNumber(rest)
    ensures Value(NumeralText(n) + rest) == Some(Parsed(Number(NumeralText(n)), rest))
  {
    var text := NumeralText(n);
    NumeralReads(n, rest);
    ValueOfNumber(text + rest);
    assert (text + rest)[..|text|] == text && (text + rest)[|text|..] == rest;
  }

  lemma QuotesCut(inner: Text, rest: Text)
    ensures [QUOTE] + inner + [QUOTE] + rest == [QUOTE] + (inner + ([QUOTE] + rest))
    ensures ([QUOTE] + inner + [QUOTE] + rest)[1..] == inner + ([QUOTE] + rest)
  {
  }

  lemma QuotedReads(gs: seq<Glyph>, rest: Text)
    requires GlyphsOk(gs)
    ensures StartsWith(StringText(gs) + rest, QUOTE) && Body((StringText(gs) + rest)[1..]) == Some(Parsed(StringValue(gs), rest))
  {
    StringReads(gs, rest);
    QuotesCut(GlyphsText(gs), rest);
  }

  /** The text of a value begins with neither white space nor anything that closes. */
  lemma RenderStart(t: Tree)
    requires TreeOk(t)
    ensures var s := Render(t); |s| > 0 && !Blank(s[0]) && s[0] != CLOSE_BRACKET && s[0] != CLOSE_BRACE
  {
    if t.NumberTree? {
      NumeralReads(t.n, []);
      assert NumeralText(t.n) + [] == NumeralText(t.n);
    }
  }

  /** What may follow a value: only a number needs anything to end it. */
  predicate Ends(t: Tree, rest: Text) {
    t.NumberTree? ==> EndsNumber(rest)
  }

  /** Every text of the grammar is read as what it means, and what follows it is left. */
  lemma {:induction false} TreeReads(t: Tree, rest: Text)
    requires TreeOk(t) && Ends(t, rest)
    ensures Value(Render(t) + rest) == Some(Parsed(Meaning(t), rest))
    decreases t, 1
  {
    match t
    case NumberTree(n) => NumberReads(n, rest);
    case StringTree(gs) => QuotedReads(gs, rest);
    case ArrayTree(_, items) =>
      if items == [] {
        EmptyReads(t, rest);
      } else {
        ItemsRead(items, rest);
        ItemsStart(items, rest);
        ArrayStep(items, rest);
      }
    case ObjectTree(_, members) =>
      if members == [] {
        EmptyReads(t, rest);
      } else {
        EntriesRead(members, rest);
        EntriesStart(members, rest);
        ObjectStep(members, rest);
      }
    case ConstantTree(_) => ConstantReads(t, rest);
    case _ => WordReads(t, rest);
  }

  lemma ArrayStep(items: seq<Padded>, rest: Text)
    requires items != [] && ItemsOk(items)
    requires var t := Skip(RenderItems(items) + rest);
      Items(t) == Some(Parsed(MeaningItems(items), rest)) && !StartsWith(t, CLOSE_BRACKET)
    ensures Value(['[' as int] + RenderItems(items) + rest) == Some(Parsed(Array(MeaningItems(items)), rest))
  {
    OpenCut(OPEN_BRACKET, RenderItems(items), rest);
    ArrayFrom([OPEN_BRACKET] + RenderItems(items) + rest, RenderItems(items) + rest);
  }

  lemma OpenCut(open: Code, inner: Text, rest: Text)
    ensures var s := [open] + inner + rest; StartsWith(s, open) && s[1..] == inner + rest
  {
  }

  lemma ArrayFrom(s: Text, inner: Text)
    requires StartsWith(s, OPEN_BRACKET) && s[1..] == inner && Items(Skip(inner)).Some? && !StartsWith(Skip(inner), CLOSE_BRACKET)
    ensures Value(s) == Some(Parsed(Array(Items(Skip(inner)).value.value), Items(Skip(inner)).value.rest))
  {
  }

  lemma ObjectFrom(s: Text, inner: Text)
    requires StartsWith(s, OPEN_BRACE) && s[1..] == inner && Members(Skip(inner)).Some? && !StartsWith(Skip(inner), CLOSE_BRACE)
    ensures Value(s) == Some(Parsed(Object(Dict(Members(Skip(inner)).value.value)), Members(Skip(inner)).value.rest))
  {
  }

  lemma ObjectStep(members: seq<Entry>, rest: Text)
    requires members != [] && EntriesOk(members)
    requires var t := Skip(RenderEntries(members) + rest);
      Members(t) == Some(Parsed(MeaningEntries(members), rest)) && !StartsWith(t, CLOSE_BRACE)
    ensures Value(['{' as int] + RenderEntries(members) + rest) == Some(Parsed(Object(Dict(MeaningEntries(members))), rest))
  {
    OpenCut(OPEN_BRACE, RenderEntries(members), rest);
    ObjectFrom([OPEN_BRACE] + RenderEntries(members) + rest, RenderEntries(members) + rest);
  }

  lemma EmptyReads(t: Tree, rest: Text)
    requires TreeOk(t) && ((t.ArrayTree? && t.items == []) || (t.ObjectTree? && t.members == []))
    ensures Value(Render(t) + rest) == Some(Parsed(Meaning(t), rest))
  {
    var close := if t.ArrayTree? then CLOSE_BRACKET else CLOSE_BRACE;
    assert (Render(t) + rest)[1..] == t.blank + ([close] + rest);
    SkipsWhite(t.blank, [close] + rest);
    assert ([close] + rest)[1..] == rest;
  }

  /** A padded value: the white space before it is skipped, that after it left. */
  lemma PaddedStart(p: Padded, tail: Text)
    requires PaddedOk(p)
    ensures var s := Render(p.tree) + (p.after + tail);
      Skip(RenderPadded(p) + tail) == s && |s| > 0 && s[0] != CLOSE_BRACKET && s[0] != CLOSE_BRACE
  {
    RenderStart(p.tree);
    var s := Render(p.tree) + (p.after + tail);
    assert RenderPadded(p) + tail == p.before + s;
    assert s[0] == Render(p.tree)[0];
    SkipsWhite(p.before, s);
  }

  lemma ItemsStart(items: seq<Padded>, rest: Text)
    requires items != [] && ItemsOk(items)
    ensures !StartsWith(Skip(RenderItems(items) + rest), CLOSE_BRACKET)
  {
    var tail := if |items| == 1 then [CLOSE_BRACKET] + rest else [COMMA] + (RenderItems(items[1..]) + rest);
    assert RenderItems(items) + rest == RenderPadded(items[0]) + tail;
    PaddedStart(items[0], tail);
  }

  /** White space cannot continue a number, and neither can what separates or closes. */
  lemma WhiteEnds(t: Tree, after: Text, c: Code, rest: Text)
    requires White(after) && c in {COMMA, CLOSE_BRACKET, CLOSE_BRACE}
    ensures Ends(t, after + ([c] + rest)) && Skip(after + ([c] + rest)) == [c] + rest && ([c] + rest)[1..] == rest
  {
    SkipsWhite(after, [c] + rest);
    if after == [] { assert after + ([c] + rest) == [c] + rest; }
  }

  lemma {:induction false} ItemsRead(items: seq<Padded>, rest: Text)
    requires items != [] && ItemsOk(items)
    ensures Items(Skip(RenderItems(items) + rest)) == Some(Parsed(MeaningItems(items), rest))
    decreases items, 0
  {
    var p := items[0];
    var last := |items| == 1;
    var c, more := if last then CLOSE_BRACKET else COMMA, if last then rest else RenderItems(items[1..]) + rest;
    assert RenderItems(items) + rest == RenderPadded(p) + ([c] + more);
    PaddedStart(p, [c] + more);
    WhiteEnds(p.tree, p.after, c, more);
    TreeReads(p.tree, p.after + ([c] + more));
    if last {
      assert MeaningItems(items) == [Meaning(p.tree)];
    } else {
      ItemsRead(items[1..], rest);
    }
  }

  lemma EntryStart(e: Entry, tail: Text)
    requires EntryOk(e)
    ensures var s := StringText(e.key) + (e.between + ([COLON] + (RenderPadded(e.value) + tail)));
      Skip(RenderEntry(e) + tail) == s && StartsWith(s, QUOTE)
  {
    var s := StringText(e.key) + (e.between + ([COLON] + (RenderPadded(e.value) + tail)));
    assert RenderEntry(e) + tail == e.before + s;
    assert s[0] == QUOTE;
    SkipsWhite(e.before, s);
  }

  lemma EntriesStart(members: seq<Entry>, rest: Text)
    requires members != [] && EntriesOk(members)
    ensures StartsWith(Skip(RenderEntries(members) + rest), QUOTE)
  {
    var tail := if |members| == 1 then [CLOSE_BRACE] + rest else [COMMA] + (RenderEntries(members[1..]) + rest);
    assert RenderEntries(members) + rest == RenderEntry(members[0]) + tail;
    EntryStart(members[0], tail);
  }

  lemma {:induction false} EntryReads(e: Entry, c: Code, more: Text)
    requires EntryOk(e) && c in {COMMA, CLOSE_BRACE}
    ensures Pair(Skip(RenderEntry(e) + ([c] + more)))
         == Some(Parsed(MeaningEntry(e), e.value.after + ([c] + more)))
    decreases e, 3
  {
    var tail := [c] + more;
    var colon := [COLON] + (RenderPadded(e.value) + tail);
    EntryStart(e, tail);
    QuotedReads(e.key, e.between + colon);
    SkipsWhite(e.between, colon);
    assert colon[1..] == RenderPadded(e.value) + tail;
    PaddedStart(e.value, tail);
    WhiteEnds(e.value.tree, e.value.after, c, more);
    TreeReads(e.value.tree, e.value.after + tail);
  }

  lemma {:induction false} EntriesRead(members: seq<Entry>, rest: Text)
    requires members != [] && EntriesOk(members)
    ensures Members(Skip(RenderEntries(members) + rest)) == Some(Parsed(MeaningEntries(members), rest))
    decreases members, 0
  {
    EntriesMeaning(members);
    EntriesText(members, rest);
    var after := members[0].value.after;
    if |members| == 1 {
      EntryReads(members[0], CLOSE_BRACE, rest);
      WhiteEnds(NullTree, after, CLOSE_BRACE, rest);
      MembersLast(Skip(RenderEntries(members) + rest), MeaningEntry(members[0]), after + ([CLOSE_BRACE] + rest), rest);
    } else {
      var more := RenderEntries(members[1..]) + rest;
      EntryReads(members[0], COMMA, more);
      EntriesRead(members[1..], rest);
      WhiteEnds(NullTree, after, COMMA, more);
      MembersStep(Skip(RenderEntries(members) + rest), MeaningEntry(members[0]), after + ([COMMA] + more), more);
    }
  }

  lemma EntriesMeaning(members: seq<Entry>)
    requires members != [] && EntriesOk(members)
    ensures EntryOk(members[0]) && PaddedOk(members[0].value)
    ensures MeaningEntries(members) == [MeaningEntry(members[0])] + MeaningEntries(members[1..])
    ensures |members| == 1 ==> MeaningEntries(members) == [MeaningEntry(members[0])]
  {
    assert EntryOk(members[0]);
  }

  lemma EntriesText(members: seq<Entry>, rest: Text)
    requires members != [] && EntriesOk(members) && EntryOk(members[0])
    ensures |members| == 1 ==> RenderEntries(members) + rest == RenderEntry(members[0]) + ([CLOSE_BRACE] + rest)
    ensures |members| > 1 ==>
      RenderEntries(members) + rest == RenderEntry(members[0]) + ([COMMA] + (RenderEntries(members[1..]) + rest))
  {
    var first := RenderEntry(members[0]);
    if |members| == 1 {
      Assoc(first, [CLOSE_BRACE], rest);
    } else {
      var more := RenderEntries(members[1..]);
      assert RenderEntries(members) == first + ([COMMA] + more);
      Assoc(first, [COMMA] + more, rest);
      Assoc([COMMA], more, rest);
    }
  }

  lemma MembersLast(s: Text, m: Member, after: Text, rest: Text)
    requires Pair(s) == Some(Parsed(m, after)) && Skip(after) == [CLOSE_BRACE] + rest && ([CLOSE_BRACE] + rest)[1..] == rest
    ensures Members(s) == Some(Parsed([m], rest))
  {
  }

  lemma MembersStep(s: Text, m: Member, after: Text, more: Text)
    requires Pair(s) == Some(Parsed(m, after)) && Skip(after) == [COMMA] + more && ([COMMA] + more)[1..] == more
    requires Members(Skip(more)).Some?
    ensures Members(s) == Some(Parsed([m] + Members(Skip(more)).value.value, Members(Skip(more)).value.rest))
  {
  }
}
