/** The decoder reads nothing but texts of the grammar: whatever it takes off the front of a text
    is the text of the value it answers. */
module JsonSoundness {
  import opened Orders
  import opened JsonStrings
  import opened Json
  import opened JsonGrammar
  import opened JsonReading

  // ----- strings -----------------------------------------------------------------------

  lemma HexOf(c: Code) returns (h: Hex)
    requires HexValue(c).Some?
    ensures HexOk(h) && HexText(h) == c && h.value == HexValue(c).value
  {
    h := Hex(HexValue(c).value, 65 <= c <= 70);
  }

  /** Four hexadecimal digits come from the escape that spells them. */
  lemma UnicodeOf(s: Text) returns (g: Glyph)
    requires FromHex4(s).Some?
    ensures g.Unicode? && GlyphOk(g) && GlyphCode(g) == FromHex4(s).value
    ensures GlyphText(g) == [BACKSLASH, LOWER_U] + s[..4]
  {
    var h0 := HexOf(s[0]);
    var h1 := HexOf(s[1]);
    var h2 := HexOf(s[2]);
    var h3 := HexOf(s[3]);
    g := Unicode(h0, h1, h2, h3);
  }

  /** One character of a string is one glyph, or a pair. */
  lemma CharacterSound(s: Text) returns (gs: seq<Glyph>)
    requires Character(s).Some?
    ensures var p := Character(s).value;
      && GlyphsOk(gs) && s == GlyphsText(gs) + p.rest
      && (if |gs| == 2 then IsPair(gs[0], gs[1]) && p.value == Join(GlyphCode(gs[0]), GlyphCode(gs[1]))
          else |gs| == 1 && p.value == GlyphCode(gs[0]) && (gs[0].Unicode? && High(p.value) ==> NoLowEscape(p.rest)))
  {
    var p := Character(s).value;
    if s[0] != BACKSLASH {
      gs := [Plain(s[0])];
      LoneGlyph(gs[0]);
      assert s == [s[0]] + p.rest;
    } else if Simple(s[1]).Some? {
      gs := [Short(LetterOf(s[1]))];
      LoneGlyph(gs[0]);
      assert s == [s[0], s[1]] + p.rest;
    } else {
      gs := UnitSound(s);
    }
  }

  function LetterOf(c: Code): (l: char)
    requires Simple(c).Some?
    ensures l in {'"', '\\', '/', 'b', 'f', 'n', 'r', 't'} && l as int == c
    ensures GlyphCode(Short(l)) == Simple(c).value
  {
    c as char
  }

  lemma LoneGlyph(g: Glyph)
    requires GlyphOk(g)
    ensures GlyphsOk([g]) && GlyphsText([g]) == GlyphText(g)
  {
    assert [g][1..] == [];
  }

  lemma TwoGlyphsText(g: Glyph, h: Glyph)
    requires GlyphOk(g) && GlyphOk(h)
    ensures GlyphsOk([g, h]) && GlyphsText([g, h]) == GlyphText(g) + GlyphText(h)
  {
    assert [g, h][1..] == [h];
    LoneGlyph(h);
  }

  lemma UnitSound(s: Text) returns (gs: seq<Glyph>)
    requires |s| > 0 && s[0] == BACKSLASH && Unit(s[1..]).Some?
    ensures var p := Unit(s[1..]).value;
      && GlyphsOk(gs) && s == GlyphsText(gs) + p.rest
      && (if |gs| == 2 then IsPair(gs[0], gs[1]) && p.value == Join(GlyphCode(gs[0]), GlyphCode(gs[1]))
          else |gs| == 1 && p.value == GlyphCode(gs[0]) && (gs[0].Unicode? && High(p.value) ==> NoLowEscape(p.rest)))
  {
    var u := s[1..];
    var g := UnicodeOf(u[1..]);
    var t := u[5..];
    EscapeCut(s, u);
    if High(GlyphCode(g)) && !NoLowEscape(t) {
      var h := UnicodeOf(t[2..]);
      EscapeCut(t, t[1..]);
      assert t[2..] == t[1..][1..] && t[6..] == t[1..][5..];
      TwoGlyphsText(g, h);
      gs := [g, h];
      assert s == GlyphText(g) + (GlyphText(h) + t[6..]);
    } else {
      LoneGlyph(g);
      gs := [g];
    }
  }

  lemma EscapeCut(s: Text, u: Text)
    requires |s| >= 6 && u == s[1..] && s[0] == BACKSLASH && s[1] == LOWER_U
    ensures s == [BACKSLASH, LOWER_U] + u[1..][..4] + u[5..]
  {
  }

  /** A string's body is the text of the glyphs it is read as. */
  lemma {:induction false} BodySound(s: Text) returns (gs: seq<Glyph>)
    requires Body(s).Some?
    ensures GlyphsOk(gs) && s == GlyphsText(gs) + ([QUOTE] + Body(s).value.rest) && StringValue(gs) == Body(s).value.value
    decreases |s|
  {
    if StartsWith(s, QUOTE) {
      gs := [];
      assert s == [QUOTE] + s[1..];
    } else {
      var c := Character(s).value;
      var first := CharacterSound(s);
      var more := BodySound(c.rest);
      var end := [QUOTE] + Body(s).value.rest;
      gs := first + more;
      GlyphsTextAppend(first, more);
      Assoc(GlyphsText(first), GlyphsText(more), end);
      if |first| == 1 && more != [] && IsPair(first[0], more[0]) { LowEscapeStarts(more, end); }
      CharacterInFront(first, more, c.value);
    }
  }

  lemma CharacterInFront(first: seq<Glyph>, more: seq<Glyph>, c: Code)
    requires GlyphsOk(first) && GlyphsOk(more) && GlyphsOk(first + more)
    requires if |first| == 2 then IsPair(first[0], first[1]) && c == Join(GlyphCode(first[0]), GlyphCode(first[1]))
             else |first| == 1 && c == GlyphCode(first[0]) && (more != [] ==> !IsPair(first[0], more[0]))
    ensures StringValue(first + more) == [c] + StringValue(more)
  {
    if |first| == 2 {
      assert first == [first[0], first[1]];
      PairInFront(first[0], first[1], more);
    } else {
      assert first == [first[0]];
      GlyphInFront(first[0], more);
    }
  }

  lemma PairInFront(g: Glyph, h: Glyph, more: seq<Glyph>)
    requires GlyphOk(g) && GlyphOk(h) && IsPair(g, h) && GlyphsOk(more) && GlyphsOk([g, h] + more)
    ensures StringValue([g, h] + more) == [Join(GlyphCode(g), GlyphCode(h))] + StringValue(more)
  {
    assert ([g, h] + more)[2..] == more;
    PairValue([g, h] + more);
  }

  lemma GlyphInFront(g: Glyph, more: seq<Glyph>)
    requires GlyphOk(g) && GlyphsOk(more) && GlyphsOk([g] + more) && (more != [] ==> !IsPair(g, more[0]))
    ensures StringValue([g] + more) == [GlyphCode(g)] + StringValue(more)
  {
    assert ([g] + more)[1..] == more;
  }

  lemma {:induction false} GlyphsTextAppend(a: seq<Glyph>, b: seq<Glyph>)
    requires GlyphsOk(a) && GlyphsOk(b)
    ensures GlyphsOk(a + b) && GlyphsText(a + b) == GlyphsText(a) + GlyphsText(b)
  {
    if a == [] {
      assert a + b == b;
    } else {
      assert (a + b)[1..] == a[1..] + b;
      GlyphsTextAppend(a[1..], b);
      Assoc(GlyphText(a[0]), GlyphsText(a[1..]), GlyphsText(b));
    }
  }

  lemma LowEscapeStarts(gs: seq<Glyph>, end: Text)
    requires GlyphsOk(gs) && gs != [] && gs[0].Unicode? && Low(GlyphCode(gs[0]))
    ensures !NoLowEscape(GlyphsText(gs) + end)
  {
    OneGlyph(gs, end);
    EscapeShape(gs[0], GlyphsText(gs[1..]) + end);
  }

  // ----- numbers -------------------------------------------------------------------------

  lemma {:induction false} DigitsSound(s: Text)
    ensures forall i | 0 <= i < Digits(s) :: Digit(s[i])
  {
    if |s| > 0 && Digit(s[0]) {
      DigitsSound(s[1..]);
      assert forall i | 0 < i < Digits(s) :: s[i] == s[1..][i - 1];
    }
  }

  lemma FractionSound(s: Text) returns (f: Option<Text>)
    ensures (f.Some? ==> AllDigits(f.value)) && FractionText(f) == s[..FracLen(s)]
  {
    if FracLen(s) == 0 {
      f := None;
    } else {
      DigitsSound(s[1..]);
      f := Some(s[1..][..Digits(s[1..])]);
      assert s[..FracLen(s)] == [DOT] + f.value;
    }
  }

  lemma ExponentSound(s: Text) returns (e: Option<Exponent>)
    ensures ExponentOk(e) && ExponentText(e) == s[..ExpLen(s)]
  {
    if ExpLen(s) == 0 {
      e := None;
    } else {
      var n := if |s| > 1 && (s[1] == 43 || s[1] == MINUS) then 2 else 1;
      DigitsSound(s[n..]);
      var digits := s[n..][..Digits(s[n..])];
      e := Some(Exponent(s[0] == 69, s[1..n], digits));
      assert s[1..n] == if n == 1 then [] else [s[1]];
      assert s[..ExpLen(s)] == [s[0]] + s[1..n] + digits;
    }
  }

  lemma WholeSound(s: Text)
    requires IntLen(s) > 0
    ensures var whole := s[..IntLen(s)]; AllDigits(whole) && (whole[0] == 48 ==> |whole| == 1)
  {
    DigitsSound(s);
  }

  lemma UnsignedSound(s: Text) returns (n: Numeral)
    requires UnsignedLen(s) > 0
    ensures NumeralOk(n) && !n.minus && NumeralText(n) == s[..UnsignedLen(s)]
  {
    WholeSound(s);
    var k := IntLen(s);
    var t := s[k..];
    var f := FractionSound(t);
    var e := ExponentSound(t[FracLen(t)..]);
    n := Numeral(false, s[..k], f, e);
    var j := FracLen(t);
    CutInThree(s, k, j, ExpLen(t[j..]));
    NoSign(s[..k], FractionText(f), ExponentText(e));
  }

  lemma NoSign(a: Text, b: Text, c: Text)
    ensures [] + a + b + c == a + b + c
  {
  }

  lemma CutInThree(s: Text, k: nat, j: nat, i: nat)
    requires k <= |s| && j <= |s[k..]| && i <= |s[k..][j..]|
    ensures s[..k] + s[k..][..j] + s[k..][j..][..i] == s[..k + j + i]
  {
  }

  /** The longest number a text begins with is one. */
  lemma NumberSound(s: Text) returns (n: Numeral)
    requires NumberLen(s) > 0
    ensures NumeralOk(n) && NumeralText(n) == s[..NumberLen(s)]
  {
    if StartsWith(s, MINUS) {
      var u := UnsignedSound(s[1..]);
      n := u.(minus := true);
      MinusText(u);
      assert s[..NumberLen(s)] == [MINUS] + s[1..][..UnsignedLen(s[1..])];
    } else {
      n := UnsignedSound(s);
    }
  }

  lemma MinusText(u: Numeral)
    requires !u.minus
    ensures NumeralText(u.(minus := true)) == [MINUS] + NumeralText(u)
  {
    var a, b, c := u.whole, FractionText(u.fraction), ExponentText(u.exponent);
    assert [] + a + b + c == a + b + c && [MINUS] + a + b + c == [MINUS] + (a + b + c);
  }

  // ----- white space -----------------------------------------------------------------------

  lemma {:induction false} SkipSound(s: Text) returns (blank: Text)
    ensures White(blank) && s == blank + Skip(s)
  {
    if |s| > 0 && Blank(s[0]) {
      var more := SkipSound(s[1..]);
      blank := [s[0]] + more;
    } else {
      blank := [];
    }
  }

  // ----- values ------------------------------------------------------------------------------

  lemma ScalarSound(s: Text) returns (t: Tree)
    requires Scalar(s).Some?
    ensures TreeOk(t) && s == Render(t) + Scalar(s).value.rest && Meaning(t) == Scalar(s).value.value
  {
    if NULL <= s || TRUE <= s || FALSE <= s {
      t := WordSound(s);
    } else if NAN <= s || INFINITY <= s || MINUS_INFINITY <= s {
      t := ConstantSound(s);
    } else {
      var n := NumberSound(s);
      t := NumberTree(n);
    }
  }

  lemma WordSound(s: Text) returns (t: Tree)
    requires NULL <= s || TRUE <= s || FALSE <= s
    ensures TreeOk(t) && Scalar(s).Some? && s == Render(t) + Scalar(s).value.rest && Meaning(t) == Scalar(s).value.value
  {
    assert Ascii("null") == NULL && Ascii("true") == TRUE && Ascii("false") == FALSE;
    t := if NULL <= s then NullTree else BoolTree(TRUE <= s);
  }

  lemma ConstantSound(s: Text) returns (t: Tree)
    requires !(NULL <= s || TRUE <= s || FALSE <= s) && (NAN <= s || INFINITY <= s || MINUS_INFINITY <= s)
    ensures TreeOk(t) && Scalar(s).Some? && s == Render(t) + Scalar(s).value.rest && Meaning(t) == Scalar(s).value.value
  {
    assert Ascii("NaN") == NAN && Ascii("Infinity") == INFINITY && Ascii("-Infinity") == MINUS_INFINITY;
    t := ConstantTree(if NAN <= s then "NaN" else if INFINITY <= s then "Infinity" else "-Infinity");
  }

  lemma QuotedSound(s: Text) returns (gs: seq<Glyph>)
    requires StartsWith(s, QUOTE) && Body(s[1..]).Some?
    ensures GlyphsOk(gs) && s == StringText(gs) + Body(s[1..]).value.rest && StringValue(gs) == Body(s[1..]).value.value
  {
    gs := BodySound(s[1..]);
    assert s == [QUOTE] + s[1..];
    QuotesCut(GlyphsText(gs), Body(s[1..]).value.rest);
  }

  /** Whatever is read as a value is a text of the grammar with that meaning. */
  lemma {:induction false} ValueSound(s: Text) returns (t: Tree)
    requires Value(s).Some?
    ensures TreeOk(t) && s == Render(t) + Value(s).value.rest && Meaning(t) == Value(s).value.value
    decreases |s|, 1
  {
    if StartsWith(s, QUOTE) {
      var gs := QuotedSound(s);
      t := StringTree(gs);
    } else if StartsWith(s, OPEN_BRACKET) {
      var blank := SkipSound(s[1..]);
      if StartsWith(Skip(s[1..]), CLOSE_BRACKET) {
        t := ArrayTree(blank, []);
        EmptyText(s, OPEN_BRACKET, blank, CLOSE_BRACKET);
      } else {
        var items := ItemsSound(Skip(s[1..]), blank);
        t := ArrayTree([], items);
        OpenedText(s, RenderItems(items), Value(s).value.rest);
      }
    } else if StartsWith(s, OPEN_BRACE) {
      var blank := SkipSound(s[1..]);
      if StartsWith(Skip(s[1..]), CLOSE_BRACE) {
        t := ObjectTree(blank, []);
        EmptyText(s, OPEN_BRACE, blank, CLOSE_BRACE);
      } else {
        var members := MembersSound(Skip(s[1..]), blank);
        t := ObjectTree([], members);
        OpenedText(s, RenderEntries(members), Value(s).value.rest);
      }
    } else {
      t := ScalarSound(s);
    }
  }

  lemma EmptyText(s: Text, open: Code, blank: Text, close: Code)
    requires StartsWith(s, open) && s[1..] == blank + Skip(s[1..]) && StartsWith(Skip(s[1..]), close)
    ensures s == [open] + (blank + [close]) + Skip(s[1..])[1..]
  {
    assert Skip(s[1..]) == [close] + Skip(s[1..])[1..];
    assert s == [open] + s[1..];
  }

  lemma OpenedText(s: Text, inner: Text, rest: Text)
    requires |s| > 0 && s[1..] == inner + rest
    ensures s == [s[0]] + inner + rest
  {
    assert s == [s[0]] + s[1..];
  }

  /** What is left after a value: white space, and then what separates or closes. */
  lemma TailSound(rest: Text) returns (after: Text)
    requires Skip(rest) != []
    ensures White(after) && rest == after + ([Skip(rest)[0]] + Skip(rest)[1..])
  {
    after := SkipSound(rest);
    assert Skip(rest) == [Skip(rest)[0]] + Skip(rest)[1..];
  }

  lemma {:induction false} ItemsSound(s: Text, blank: Text) returns (items: seq<Padded>)
    requires Items(s).Some? && White(blank)
    ensures items != [] && ItemsOk(items) && MeaningItems(items) == Items(s).value.value
    ensures blank + s == RenderItems(items) + Items(s).value.rest
    decreases |s|, 2
  {
    var v := Value(s).value;
    var t := ValueSound(s);
    var after := TailSound(v.rest);
    var p := Padded(blank, t, after);
    assert PaddedOk(p);
    var next := Skip(v.rest)[1..];
    PaddedText(p, s, v.rest, [Skip(v.rest)[0]] + next);
    if StartsWith(Skip(v.rest), CLOSE_BRACKET) {
      items := [p];
      LoneItem(p, next);
    } else {
      var gap := SkipSound(next);
      var more := ItemsSound(Skip(next), gap);
      items := [p] + more;
      ItemInFront(p, more, next, Items(s).value.rest);
    }
  }

  lemma PaddedText(p: Padded, s: Text, rest: Text, tail: Text)
    requires PaddedOk(p) && s == Render(p.tree) + rest && rest == p.after + tail
    ensures p.before + s == RenderPadded(p) + tail
  {
    Assoc(p.before, Render(p.tree), rest);
    Assoc(p.before + Render(p.tree), p.after, tail);
  }

  lemma LoneItem(p: Padded, rest: Text)
    requires PaddedOk(p)
    ensures ItemsOk([p]) && RenderPadded(p) + ([CLOSE_BRACKET] + rest) == RenderItems([p]) + rest
    ensures MeaningItems([p]) == [Meaning(p.tree)]
  {
    Assoc(RenderPadded(p), [CLOSE_BRACKET], rest);
    assert [p][1..] == [];
  }

  lemma ItemInFront(p: Padded, more: seq<Padded>, next: Text, rest: Text)
    requires PaddedOk(p) && more != [] && ItemsOk(more) && next == RenderItems(more) + rest
    ensures ItemsOk([p] + more) && RenderPadded(p) + ([COMMA] + next) == RenderItems([p] + more) + rest
    ensures MeaningItems([p] + more) == [Meaning(p.tree)] + MeaningItems(more)
  {
    assert ([p] + more)[1..] == more && ([p] + more)[0] == p;
    Assoc([COMMA], RenderItems(more), rest);
    Assoc(RenderPadded(p), [COMMA] + RenderItems(more), rest);
  }

  /** A key with its value; the white space after the value is left. */
  lemma {:induction false} PairSound(s: Text, blank: Text) returns (e: Entry)
    requires Pair(s).Some? && White(blank)
    ensures EntryOk(e) && e.value.after == [] && MeaningEntry(e) == Pair(s).value.value
    ensures blank + s == RenderEntry(e) + Pair(s).value.rest
    decreases |s|, 2
  {
    var k := Body(s[1..]).value;
    var gs := QuotedSound(s);
    var between := TailSound(k.rest);
    var next := Skip(k.rest)[1..];
    var gap := SkipSound(next);
    var t := ValueSound(Skip(next));
    var p := Padded(gap, t, []);
    assert PaddedOk(p);
    e := Entry(blank, gs, between, p);
    assert EntryOk(e);
    var rest := Value(Skip(next)).value.rest;
    assert rest == [] + rest;
    PaddedText(p, Skip(next), rest, rest);
    EntryText(e, s, k.rest, next, rest);
  }

  lemma EntryText(e: Entry, s: Text, t: Text, next: Text, rest: Text)
    requires EntryOk(e) && s == StringText(e.key) + t && t == e.between + ([COLON] + next)
    requires PaddedOk(e.value) && next == RenderPadded(e.value) + rest
    ensures e.before + s == RenderEntry(e) + rest
  {
    var b, k, w, v := e.before, StringText(e.key), e.between, RenderPadded(e.value);
    FiveParts(b, k, w, v, rest);
    assert RenderEntry(e) == b + k + w + [COLON] + v;
  }

  lemma FiveParts(b: Text, k: Text, w: Text, v: Text, rest: Text)
    ensures b + (k + (w + ([COLON] + (v + rest)))) == b + k + w + [COLON] + v + rest
  {
  }

  /** The white space after an entry's value belongs to the entry. */
  lemma EntryWithAfter(e: Entry, after: Text, tail: Text) returns (f: Entry)
    requires EntryOk(e) && e.value.after == [] && White(after)
    ensures EntryOk(f) && f == e.(value := e.value.(after := after))
    ensures RenderEntry(e) + (after + tail) == RenderEntry(f) + tail && MeaningEntry(f) == MeaningEntry(e)
  {
    f := e.(value := e.value.(after := after));
    assert PaddedOk(e.value);
    assert PaddedOk(f.value);
    assert EntryOk(f);
    var front, r := e.before + StringText(e.key) + e.between + [COLON], e.value.before + Render(e.value.tree);
    assert RenderPadded(e.value) == r && RenderPadded(f.value) == r + after;
    Assoc(front, r, after);
    Assoc(front + r, after, tail);
  }

  lemma {:induction false} MembersSound(s: Text, blank: Text) returns (members: seq<Entry>)
    requires Members(s).Some? && White(blank)
    ensures members != [] && EntriesOk(members) && MeaningEntries(members) == Members(s).value.value
    ensures blank + s == RenderEntries(members) + Members(s).value.rest
    decreases |s|, 3
  {
    var m := Pair(s).value;
    var e := PairSound(s, blank);
    var after := TailSound(m.rest);
    var next := Skip(m.rest)[1..];
    var f := EntryWithAfter(e, after, [Skip(m.rest)[0]] + next);
    if StartsWith(Skip(m.rest), CLOSE_BRACE) {
      members := [f];
      LoneEntry(f, next);
    } else {
      var gap := SkipSound(next);
      var more := MembersSound(Skip(next), gap);
      members := [f] + more;
      EntryInFront(f, more, next, Members(s).value.rest);
    }
  }

  lemma LoneEntry(e: Entry, rest: Text)
    requires EntryOk(e)
    ensures EntriesOk([e]) && RenderEntry(e) + ([CLOSE_BRACE] + rest) == RenderEntries([e]) + rest
    ensures MeaningEntries([e]) == [MeaningEntry(e)]
  {
    Assoc(RenderEntry(e), [CLOSE_BRACE], rest);
    assert [e][1..] == [];
  }

  lemma EntryInFront(e: Entry, more: seq<Entry>, next: Text, rest: Text)
    requires EntryOk(e) && more != [] && EntriesOk(more) && next == RenderEntries(more) + rest
    ensures EntriesOk([e] + more) && RenderEntry(e) + ([COMMA] + next) == RenderEntries([e] + more) + rest
    ensures MeaningEntries([e] + more) == [MeaningEntry(e)] + MeaningEntries(more)
  {
    assert ([e] + more)[1..] == more && ([e] + more)[0] == e;
    Assoc([COMMA], RenderEntries(more), rest);
    Assoc(RenderEntry(e), [COMMA] + RenderEntries(more), rest);
  }
}
