/** Reading the JSON value out of a language model's answer, through fences and prose. */
module LlmUtils {
  import opened Orders
  import opened JsonStrings
  import opened Json
  import opened JsonGrammar
  import opened JsonReading
  import opened JsonSoundness
  import opened JsonPrinting

  const FENCE: Text := [96, 96, 96]

  /** What Python's str.strip and the `\s` of its re module take for white space. */
  predicate Space(c: Code) {
    9 <= c <= 13 || 28 <= c <= 32 || c == 0x85 || c == 0xA0 || c == 0x1680 || 0x2000 <= c <= 0x200A
    || c == 0x2028 || c == 0x2029 || c == 0x202F || c == 0x205F || c == 0x3000
  }

  /** All of it, one by one. */
  lemma WhiteSpaceIs(c: Code)
    ensures Space(c) <==> c in [
      0x09, 0x0A, 0x0B, 0x0C, 0x0D, 0x1C, 0x1D, 0x1E, 0x1F, 0x20, 0x85, 0xA0, 0x1680,
      0x2000, 0x2001, 0x2002, 0x2003, 0x2004, 0x2005, 0x2006, 0x2007, 0x2008, 0x2009, 0x200A,
      0x2028, 0x2029, 0x202F, 0x205F, 0x3000]
  {
  }

  function LStrip(s: Text): (r: Text)
    ensures |r| <= |s|
  {
    if |s| > 0 && Space(s[0]) then LStrip(s[1..]) else s
  }

  function RStrip(s: Text): (r: Text)
    ensures |r| <= |s|
  {
    if |s| > 0 && Space(s[|s| - 1]) then RStrip(s[..|s| - 1]) else s
  }

  function Strip(s: Text): Text {
    RStrip(LStrip(s))
  }

  // ----- the fence -------------------------------------------------------------------

  predicate FenceAt(s: Text, i: nat) {
    i + 3 <= |s| && s[i..i + 3] == FENCE
  }

  ghost predicate NoFence(s: Text) {
    forall i: nat :: !FenceAt(s, i)
  }

  /** No fence begins after the end of another: none is closed. */
  ghost predicate NoClosedFence(s: Text) {
    forall i: nat, j: nat | FenceAt(s, i) && FenceAt(s, j) :: j < i + 3
  }

  /** The first fence from position i on. */
  function FindFence(s: Text, i: nat): (r: Option<nat>)
    ensures r.Some? ==> i <= r.value && FenceAt(s, r.value)
    decreases |s| - i
  {
    if i + 3 > |s| then None else if FenceAt(s, i) then Some(i) else FindFence(s, i + 1)
  }

  /** How many leading characters of s pass `test`. */
  function Span(s: Text, test: Code -> bool): (n: nat)
    ensures n <= |s|
  {
    if |s| > 0 && test(s[0]) then 1 + Span(s[1..], test) else 0
  }

  function SpanFrom(s: Text, i: nat, test: Code -> bool): (j: nat)
    requires i <= |s|
    ensures i <= j <= |s|
  {
    i + Span(s[i..], test)
  }

  /** What stands from k on up to the next fence. */
  function UpToFence(s: Text, k: nat): Option<Text> {
    match FindFence(s, k)
    case None => None
    case Some(e) => Some(s[k..e])
  }

  /** Group 1 of the fence pattern matched at i: after the backticks, a word and white space, all
      up to the next fence. `word` is `\w`, which no backtick is. */
  function FencedAt(s: Text, i: nat, word: Code -> bool): Option<Text> {
    if !FenceAt(s, i) then None else UpToFence(s, SpanFrom(s, SpanFrom(s, i + 3, word), Space))
  }

  /** The leftmost match of the fence pattern from position i on. */
  function Fenced(s: Text, i: nat, word: Code -> bool): Option<Text>
    decreases |s| - i
  {
    if i >= |s| then None
    else if FencedAt(s, i, word).Some? then FencedAt(s, i, word)
    else Fenced(s, i + 1, word)
  }

  /** The text the value is looked for in. */
  function Inner(text: Text, word: Code -> bool): Text {
    var t := Strip(text);
    match Fenced(t, 0, word)
    case None => t
    case Some(body) => Strip(body)
  }

  // ----- the first value ----------------------------------------------------------------

  predicate Brace(c: Code) {
    c == OPEN_BRACE || c == OPEN_BRACKET
  }

  predicate IsContainer(tree: Tree) {
    tree.ArrayTree? || tree.ObjectTree?
  }

  /** The text of an array or object stands at position i. */
  ghost predicate TextAt(t: Text, i: nat, tree: Tree) {
    i <= |t| && TreeOk(tree) && IsContainer(tree) && Render(tree) <= t[i..]
  }

  /** The least position at which such a text stands, and its meaning. */
  ghost predicate FirstValue(t: Text, i: nat, v: Json) {
    && (exists tree :: TextAt(t, i, tree) && Meaning(tree) == v)
    && forall j: nat, tree | j < i :: !TextAt(t, j, tree)
  }

  lemma PrefixCut(a: Text, s: Text)
    requires a <= s
    ensures s == a + s[|a|..]
  {
  }

  /** A text that stands somewhere is read there, as what it means. */
  lemma TextIsRead(t: Text, i: nat, tree: Tree)
    requires TextAt(t, i, tree)
    ensures i < |t| && Brace(t[i]) && Value(t[i..]).Some? && Value(t[i..]).value.value == Meaning(tree)
  {
    PrefixCut(Render(tree), t[i..]);
    TreeReads(tree, t[i..][|Render(tree)|..]);
    ContainerEnds(tree);
    assert t[i] == t[i..][0] == Render(tree)[0];
  }

  /** Whatever is read from a brace or bracket on is such a text. */
  lemma ReadIsText(t: Text, i: nat) returns (tree: Tree)
    requires i < |t| && Brace(t[i]) && Value(t[i..]).Some?
    ensures TextAt(t, i, tree) && Meaning(tree) == Value(t[i..]).value.value
  {
    tree := ValueSound(t[i..]);
    assert t[i..][0] == t[i];
    if !IsContainer(tree) { ScalarStart(tree); }
  }

  lemma ScalarStart(tree: Tree)
    requires TreeOk(tree) && !IsContainer(tree)
    ensures |Render(tree)| > 0 && !Brace(Render(tree)[0])
  {
    if tree.NumberTree? {
      NumeralReads(tree.n, []);
      assert NumeralText(tree.n) + [] == NumeralText(tree.n);
    }
  }

  /** How a call ends: `Raised` is a JSONDecodeError. */
  datatype Answer = Decoded(value: Json) | Defaulted | Raised

  /** What the call must answer. */
  ghost predicate Answers(text: Text, hasDefault: bool, word: Code -> bool, answer: Answer) {
    var t := Inner(text, word);
    match answer
    case Decoded(v) => exists i :: FirstValue(t, i, v)
    case Defaulted => hasDefault && forall i: nat, tree :: !TextAt(t, i, tree)
    case Raised => !hasDefault && forall i: nat, tree :: !TextAt(t, i, tree)
  }

  lemma FirstValueUnique(t: Text, i: nat, v: Json, j: nat, w: Json)
    requires FirstValue(t, i, v) && FirstValue(t, j, w)
    ensures i == j && v == w
  {
    var a :| TextAt(t, i, a) && Meaning(a) == v;
    var b :| TextAt(t, j, b) && Meaning(b) == w;
    TextIsRead(t, i, a);
    TextIsRead(t, j, b);
  }

  /** There is exactly one answer. */
  lemma OneAnswer(text: Text, hasDefault: bool, word: Code -> bool, a: Answer, b: Answer)
    requires Answers(text, hasDefault, word, a) && Answers(text, hasDefault, word, b)
    ensures a == b
  {
    var t := Inner(text, word);
    if a.Decoded? && b.Decoded? {
      var i :| FirstValue(t, i, a.value);
      var j :| FirstValue(t, j, b.value);
      FirstValueUnique(t, i, a.value, j, b.value);
    }
  }

  lemma FirstIsTheAnswer(text: Text, hasDefault: bool, word: Code -> bool, i: nat, v: Json)
    requires FirstValue(Inner(text, word), i, v)
    ensures Answers(text, hasDefault, word, Decoded(v))
  {
  }

  method ParseLlmJson(text: Text, hasDefault: bool, word: Code -> bool) returns (answer: Answer)
    ensures Answers(text, hasDefault, word, answer)
  {
    var t := Strip(text);
    if t == [] { return if hasDefault then Defaulted else Raised; }
    var fenced := Fenced(t, 0, word);
    if fenced.Some? { t := Strip(fenced.value); }
    var start := 0;
    while start < |t|
      invariant start <= |t| && t == Inner(text, word)
      invariant forall j: nat, tree | j < start :: !TextAt(t, j, tree)
    {
      if Brace(t[start]) {
        var value := Value(t[start..]);
        if value.Some? {
          ghost var tree := ReadIsText(t, start);
          FirstIsTheAnswer(text, hasDefault, word, start, value.value.value);
          return Decoded(value.value.value);
        }
      }
      forall tree ensures !TextAt(t, start, tree) {
        if TextAt(t, start, tree) { TextIsRead(t, start, tree); }
      }
      start := start + 1;
    }
    forall i: nat, tree ensures !TextAt(t, i, tree) {
      if TextAt(t, i, tree) { TextIsRead(t, i, tree); }
    }
    answer := if hasDefault then Defaulted else Raised;
  }

  /** A bare array goes under its key, an object stays, anything else is an empty list. */
  function CoerceToObject(parsed: Json, listKey: Text): (r: Json)
    ensures r.Object?
    ensures parsed.Array? ==> r.members == [Member(listKey, parsed)]
    ensures parsed.Object? ==> r == parsed
    ensures !parsed.Array? && !parsed.Object? ==> r.members == [Member(listKey, Array([]))]
  {
    match parsed
    case Object(_) => parsed
    case Array(_) => Object([Member(listKey, parsed)])
    case _ => Object([Member(listKey, Array([]))])
  }

  /** The first value where it is an object, and the default in every other case. */
  method ParseLlmObject(text: Text, default: Json, word: Code -> bool) returns (r: Json)
    requires default.Object?
    ensures r.Object?
    ensures (exists i, v: Json :: v.Object? && FirstValue(Inner(text, word), i, v) && r == v)
         || (r == default && forall i, v: Json | FirstValue(Inner(text, word), i, v) :: v.Array?)
  {
    var answer := ParseLlmJson(text, false, word);
    if answer.Decoded? {
      ghost var i :| FirstValue(Inner(text, word), i, answer.value);
      if answer.value.Object? { return answer.value; }
      forall j, v: Json | FirstValue(Inner(text, word), j, v) ensures v.Array? {
        FirstValueUnique(Inner(text, word), i, answer.value, j, v);
      }
    }
    r := default;
  }

  // ----- finding a printed value again ---------------------------------------------------

  /** Stripping leaves a middle that begins and ends with something visible, between what the
      two ends keep. */
  lemma {:induction false} LStripAppend(a: Text, b: Text)
    requires |b| > 0 && !Space(b[0])
    ensures LStrip(a + b) == LStrip(a) + b
  {
    if |a| > 0 {
      assert (a + b)[1..] == a[1..] + b;
      if Space(a[0]) { LStripAppend(a[1..], b); }
    } else {
      assert a + b == b;
    }
  }

  lemma {:induction false} RStripAppend(a: Text, b: Text)
    requires |a| > 0 && !Space(a[|a| - 1])
    ensures RStrip(a + b) == a + RStrip(b)
  {
    if |b| > 0 {
      assert (a + b)[..|a + b| - 1] == a + b[..|b| - 1];
      if Space(b[|b| - 1]) { RStripAppend(a, b[..|b| - 1]); }
    } else {
      assert a + b == a;
    }
  }

  lemma StripMiddle(a: Text, m: Text, b: Text)
    requires |m| > 0 && !Space(m[0]) && !Space(m[|m| - 1])
    ensures Strip(a + m + b) == LStrip(a) + m + RStrip(b)
  {
    assert a + m + b == a + (m + b);
    LStripAppend(a, m + b);
    var c := LStrip(a) + m;
    assert LStrip(a) + (m + b) == c + b;
    RStripAppend(c, b);
  }

  /** Stripping takes a piece out of a text. */
  lemma {:induction false} LStripIsSuffix(s: Text)
    ensures LStrip(s) == s[|s| - |LStrip(s)|..]
  {
    if |s| > 0 && Space(s[0]) { LStripIsSuffix(s[1..]); }
  }

  lemma {:induction false} RStripIsPrefix(s: Text)
    ensures RStrip(s) == s[..|RStrip(s)|]
  {
    if |s| > 0 && Space(s[|s| - 1]) { RStripIsPrefix(s[..|s| - 1]); }
  }

  /** A fence of a part is one of the whole. */
  lemma FenceInPart(s: Text, n: nat, part: Text, i: nat)
    requires n + |part| <= |s| && part == s[n..n + |part|]
    ensures FenceAt(part, i) ==> FenceAt(s, n + i)
  {
    assert forall x | n <= x < n + |part| :: s[x] == part[x - n];
  }

  lemma StripKeepsNoClosedFence(s: Text)
    requires NoClosedFence(s)
    ensures NoClosedFence(Strip(s))
  {
    LStripIsSuffix(s);
    RStripIsPrefix(LStrip(s));
    var n, t := |s| - |LStrip(s)|, Strip(s);
    assert t == s[n..n + |t|];
    forall i: nat, j: nat | FenceAt(t, i) && FenceAt(t, j) ensures j < i + 3 {
      FenceInPart(s, n, t, i);
      FenceInPart(s, n, t, j);
    }
  }

  lemma {:induction false} NoClosedFenceNoMatch(s: Text, i: nat, word: Code -> bool)
    requires NoClosedFence(s)
    ensures Fenced(s, i, word) == None
    decreases |s| - i
  {
    if i < |s| { NoClosedFenceNoMatch(s, i + 1, word); }
  }

  /** The text of an array or object begins with its bracket or brace, and ends with it too. */
  lemma ContainerEnds(tree: Tree)
    requires TreeOk(tree) && IsContainer(tree)
    ensures var p := Render(tree); |p| >= 2 && Brace(p[0]) && (p[|p| - 1] == CLOSE_BRACKET || p[|p| - 1] == CLOSE_BRACE)
  {
    match tree
    case ArrayTree(_, items) => if items != [] { ItemsEnd(items); }
    case ObjectTree(_, members) => if members != [] { EntriesEnd(members); }
  }

  lemma {:induction false} ItemsEnd(items: seq<Padded>)
    requires items != [] && ItemsOk(items)
    ensures var p := RenderItems(items); |p| > 0 && p[|p| - 1] == CLOSE_BRACKET
    decreases |items|
  {
    if |items| > 1 { ItemsEnd(items[1..]); }
  }

  lemma {:induction false} EntriesEnd(members: seq<Entry>)
    requires members != [] && EntriesOk(members)
    ensures var p := RenderEntries(members); |p| > 0 && p[|p| - 1] == CLOSE_BRACE
    decreases |members|
  {
    if |members| > 1 { EntriesEnd(members[1..]); }
  }

  predicate NoBrace(s: Text) {
    forall i | 0 <= i < |s| :: !Brace(s[i])
  }

  /** After prose without braces the text that stands next is the first one. */
  lemma FirstAfterProse(prose: Text, tree: Tree, tail: Text)
    requires NoBrace(prose) && TreeOk(tree) && IsContainer(tree)
    ensures FirstValue(prose + Render(tree) + tail, |prose|, Meaning(tree))
  {
    var t := prose + Render(tree) + tail;
    assert t[|prose|..] == Render(tree) + tail;
    assert TextAt(t, |prose|, tree);
    forall j: nat, other | j < |prose| ensures !TextAt(t, j, other) {
      assert t[j] == prose[j];
      if TextAt(t, j, other) { TextIsRead(t, j, other); }
    }
  }

  /** The first value of a text that begins without a brace, up to white space around it. */
  lemma AnswerOfInner(text: Text, lead: Text, tree: Tree, tail: Text, hasDefault: bool, word: Code -> bool, answer: Answer)
    requires NoBrace(lead) && TreeOk(tree) && IsContainer(tree)
    requires Inner(text, word) == Strip(lead + Render(tree) + tail)
    ensures Answers(text, hasDefault, word, answer) <==> answer == Decoded(Meaning(tree))
  {
    ContainerEnds(tree);
    StripMiddle(lead, Render(tree), tail);
    LStripIsSuffix(lead);
    FirstAfterProse(LStrip(lead), tree, RStrip(tail));
    assert FirstValue(Inner(text, word), |LStrip(lead)|, Meaning(tree));
    if Answers(text, hasDefault, word, answer) { OneAnswer(text, hasDefault, word, answer, Decoded(Meaning(tree))); }
  }

  /** An array or object written among prose, in whatever way the grammar allows, is the answer: no
      brace or bracket before it, no closed fence anywhere. */
  lemma AnswerAmongProse(prose: Text, tree: Tree, tail: Text, hasDefault: bool, word: Code -> bool, answer: Answer)
    requires NoBrace(prose) && TreeOk(tree) && IsContainer(tree) && NoClosedFence(prose + Render(tree) + tail)
    ensures Answers(prose + Render(tree) + tail, hasDefault, word, answer) <==> answer == Decoded(Meaning(tree))
  {
    var text := prose + Render(tree) + tail;
    StripKeepsNoClosedFence(text);
    NoClosedFenceNoMatch(Strip(text), 0, word);
    AnswerOfInner(text, prose, tree, tail, hasDefault, word, answer);
  }

  // ----- a value inside one fence ----------------------------------------------------------

  predicate AllTicks(s: Text) {
    forall i | 0 <= i < |s| :: s[i] == 96
  }

  predicate EndsInTick(s: Text) {
    |s| > 0 && s[|s| - 1] == 96
  }

  /** A part of a text without a fence has none. */
  lemma PartHasNoFence(s: Text, i: nat, j: nat)
    requires NoFence(s) && i <= j <= |s|
    ensures NoFence(s[i..j])
  {
    forall k: nat ensures !FenceAt(s[i..j], k) { FenceInPart(s, i, s[i..j], k); }
  }

  lemma NoThirdTick(s: Text)
    requires NoFence(s) && |s| >= 3 && s[|s| - 1] == 96 && s[|s| - 2] == 96
    ensures s[|s| - 3] != 96
  {
    var i := |s| - 3;
    assert s[i..i + 3] == [s[i], s[i + 1], s[i + 2]];
    assert !FenceAt(s, i);
  }

  /** Without a fence a text ends in two backticks at most. */
  lemma CutTicks(s: Text) returns (a: Text, ticks: Text)
    requires NoFence(s)
    ensures s == a + ticks && !EndsInTick(a) && AllTicks(ticks) && |ticks| <= 2
  {
    var n := |s|;
    var k := if !EndsInTick(s) then 0 else if n >= 2 && s[n - 2] == 96 then 2 else 1;
    if k == 2 && n >= 3 { NoThirdTick(s); }
    a, ticks := s[..n - k], s[n - k..];
  }

  /** Two backticks at most do not make a fence with what begins otherwise. */
  lemma TicksMakeNoFence(ticks: Text, c: Text)
    requires NoFence(c) && |ticks| <= 2 && (|ticks| > 0 && |c| > 0 ==> c[0] != 96)
    ensures NoFence(ticks + c)
  {
    var s := ticks + c;
    forall i: nat ensures !FenceAt(s, i) {
      if i + 3 <= |s| {
        if i < |ticks| {
          assert s[i..i + 3][|ticks| - i] == c[0];
        } else {
          assert s[i..i + 3] == c[i - |ticks|..i - |ticks| + 3];
          assert !FenceAt(c, i - |ticks|);
        }
      }
    }
  }

  /** No fence begins inside a part that does not end in a backtick. */
  lemma NoFenceBefore(a: Text, b: Text, j: nat)
    requires NoFence(a) && !EndsInTick(a) && j < |a|
    ensures !FenceAt(a + b, j)
  {
    if j + 3 <= |a| {
      assert (a + b)[j..j + 3] == a[j..j + 3] && !FenceAt(a, j);
    } else if j + 3 <= |a + b| {
      assert (a + b)[j..j + 3][|a| - 1 - j] == a[|a| - 1];
    }
  }

  /** The least fence is the one found. */
  lemma {:induction false} FindFenceLeast(s: Text, i: nat, e: nat)
    requires i <= e && FenceAt(s, e) && forall j: nat | i <= j < e :: !FenceAt(s, j)
    ensures FindFence(s, i) == Some(e)
    decreases e - i
  {
    if i < e { FindFenceLeast(s, i + 1, e); }
  }

  /** A span ends where something does not fit. */
  lemma {:induction false} SpanStops(s: Text, k: nat, test: Code -> bool)
    requires k < |s| && !test(s[k])
    ensures Span(s, test) <= k
  {
    if k > 0 { SpanStops(s[1..], k - 1, test); }
  }

  lemma SpanFromStops(s: Text, i: nat, k: nat, test: Code -> bool)
    requires i <= k < |s| && !test(s[k])
    ensures SpanFrom(s, i, test) <= k
  {
    SpanStops(s[i..], k - i, test);
  }

  /** `\w` as it must be. */
  ghost predicate NoBraceIn(word: Code -> bool) {
    forall c | Brace(c) :: !word(c)
  }

  /** Where the fence at n closes. */
  lemma ClosingFence(s: Text, n: nat, p: nat, c: Text, post: Text)
    requires n <= p <= n + |c| && n <= |s| && s[n..] == c + (FENCE + post) && NoFence(c) && !EndsInTick(c)
    ensures UpToFence(s, p) == Some(c[p - n..])
  {
    var e := n + |c|;
    assert s[e..e + 3] == s[n..][|c|..|c| + 3] == FENCE;
    forall j: nat | p <= j < e ensures !FenceAt(s, j) {
      NoFenceBefore(c, FENCE + post, j - n);
      if j + 3 <= |s| { assert s[j..j + 3] == s[n..][j - n..j - n + 3]; }
    }
    FindFenceLeast(s, p, e);
    assert s[p..e] == s[n..][p - n..|c|];
  }

  /** The pattern catches what the fence at n holds, less some text before its first brace. */
  lemma FencedAtFence(s: Text, n: nat, c: Text, b: nat, post: Text, word: Code -> bool) returns (m: nat)
    requires n <= |s| && s[n..] == FENCE + (c + (FENCE + post)) && NoFence(c) && !EndsInTick(c)
    requires b < |c| && Brace(c[b]) && NoBraceIn(word)
    ensures m <= b && FencedAt(s, n, word) == Some(c[m..])
  {
    assert s[n..n + 3] == s[n..][..3] == FENCE;
    assert s[n + 3..] == s[n..][3..] == c + (FENCE + post);
    assert s[n + 3 + b] == s[n + 3..][b] == c[b];
    SpanFromStops(s, n + 3, n + 3 + b, word);
    SpanFromStops(s, SpanFrom(s, n + 3, word), n + 3 + b, Space);
    var p := SpanFrom(s, SpanFrom(s, n + 3, word), Space);
    ClosingFence(s, n + 3, p, c, post);
    m := p - (n + 3);
  }

  /** Nothing before the first fence matches. */
  lemma {:induction false} FencedAfterProse(s: Text, n: nat, i: nat, word: Code -> bool)
    requires i <= n < |s| && (forall j: nat | j < n :: !FenceAt(s, j)) && FencedAt(s, n, word).Some?
    ensures Fenced(s, i, word) == FencedAt(s, n, word)
    decreases n - i
  {
    if i < n { FencedAfterProse(s, n, i + 1, word); }
  }

  /** A whole fence. */
  function FenceText(content: Text): Text {
    FENCE + content + FENCE
  }

  /** The fence is the first one, and holds no other; four backticks and more at its opening come
      from one side only. */
  ghost predicate OneFence(pre: Text, content: Text) {
    NoFence(pre) && NoFence(content) && (EndsInTick(pre) && |content| > 0 ==> content[0] != 96)
  }

  /** What a text with one fence is reduced to: what the fence holds, perhaps after a backtick or
      two, less some text before its first brace. */
  lemma InnerOfFence(pre: Text, c: Text, b: nat, post: Text, word: Code -> bool) returns (ticks: Text, m: nat)
    requires OneFence(pre, c) && !EndsInTick(c)
    requires b < |c| && Brace(c[b]) && NoBraceIn(word)
    ensures AllTicks(ticks) && m <= |ticks| + b && Inner(pre + FenceText(c) + post, word) == Strip((ticks + c)[m..])
  {
    StripMiddle(pre, FenceText(c), post);
    LStripIsSuffix(pre);
    PartHasNoFence(pre, |pre| - |LStrip(pre)|, |pre|);
    assert LStrip(pre) == pre[|pre| - |LStrip(pre)|..|pre|];
    var a;
    a, ticks := CutTicks(LStrip(pre));
    assert EndsInTick(pre) || ticks == [] by {
      if ticks != [] { assert LStrip(pre)[|LStrip(pre)| - 1] == ticks[|ticks| - 1]; }
    }
    m := FencedInner(a, ticks, c, b, RStrip(post), word);
  }

  /** The same for a text that is stripped, cut where the backticks begin. */
  lemma FencedInner(a: Text, ticks: Text, c: Text, b: nat, post: Text, word: Code -> bool) returns (m: nat)
    requires NoFence(a + ticks) && !EndsInTick(a) && AllTicks(ticks) && |ticks| <= 2
    requires NoFence(c) && !EndsInTick(c) && b < |c| && Brace(c[b]) && NoBraceIn(word)
    requires ticks != [] ==> c[0] != 96
    ensures m <= |ticks| + b && Fenced(a + ticks + FenceText(c) + post, 0, word) == Some((ticks + c)[m..])
  {
    var rest := FENCE + (ticks + c + (FENCE + post));
    TicksMakeNoFence(ticks, c);
    TicksMoveIn(a, ticks, c, post);
    assert a == (a + ticks)[..|a|];
    FencesStartLater(a + ticks, a, rest);
    var s := a + rest;
    assert s[|a|..] == rest;
    m := FencedAtFence(s, |a|, ticks + c, |ticks| + b, post, word);
    FencedAfterProse(s, |a|, 0, word);
  }

  /** Backticks before the opening fence may as well stand behind it. */
  lemma TicksMoveIn(a: Text, ticks: Text, c: Text, post: Text)
    requires AllTicks(ticks)
    ensures a + ticks + FenceText(c) + post == a + (FENCE + (ticks + c + (FENCE + post)))
  {
    assert ticks + FENCE == FENCE + ticks;
    assert a + ticks + FenceText(c) + post == a + (ticks + FENCE) + c + FENCE + post;
    assert a + (FENCE + (ticks + c + (FENCE + post))) == a + (FENCE + ticks) + c + FENCE + post;
  }

  lemma FencesStartLater(pre: Text, a: Text, rest: Text)
    requires NoFence(pre) && |a| <= |pre| && a == pre[..|a|] && !EndsInTick(a)
    ensures forall j: nat | j < |a| :: !FenceAt(a + rest, j)
  {
    PartHasNoFence(pre, 0, |a|);
    assert a == pre[0..|a|];
    forall j: nat | j < |a| ensures !FenceAt(a + rest, j) { NoFenceBefore(a, rest, j); }
  }

  /** Backticks before the closing fence may as well stand behind it. */
  lemma TicksMoveOut(pre: Text, c: Text, ticks: Text, post: Text)
    requires AllTicks(ticks)
    ensures pre + FenceText(c + ticks) + post == pre + FenceText(c) + (ticks + post)
  {
    assert ticks + FENCE == FENCE + ticks;
    assert FenceText(c + ticks) == FENCE + c + (ticks + FENCE);
    assert FenceText(c) + (ticks + post) == FENCE + c + (FENCE + ticks) + post;
  }

  /** The case of a fence whose content does not end in a backtick. */
  lemma AnswerInsideTrimmedFence(
      pre: Text, lead: Text, tree: Tree, tail: Text, post: Text, hasDefault: bool, word: Code -> bool, answer: Answer)
    requires NoBraceIn(word) && NoBrace(lead) && TreeOk(tree) && IsContainer(tree)
    requires OneFence(pre, lead + Render(tree) + tail) && !EndsInTick(tail)
    ensures Answers(pre + FenceText(lead + Render(tree) + tail) + post, hasDefault, word, answer)
      <==> answer == Decoded(Meaning(tree))
  {
    ContainerEnds(tree);
    var c := lead + Render(tree) + tail;
    assert c[|lead|] == Render(tree)[0];
    assert !EndsInTick(c) by {
      if tail == [] { assert c == lead + Render(tree) && c[|c| - 1] == Render(tree)[|Render(tree)| - 1]; }
    }
    var ticks, m := InnerOfFence(pre, c, |lead|, post, word);
    var before := (ticks + lead)[m..];
    assert (ticks + c)[m..] == before + Render(tree) + tail by { DropInFront(ticks, lead, Render(tree), tail, m); }
    AnswerOfInner(pre + FenceText(c) + post, before, tree, tail, hasDefault, word, answer);
  }

  lemma DropInFront(ticks: Text, lead: Text, p: Text, tail: Text, m: nat)
    requires m <= |ticks| + |lead|
    ensures (ticks + (lead + p + tail))[m..] == (ticks + lead)[m..] + p + tail
  {
    assert ticks + (lead + p + tail) == ticks + lead + p + tail;
  }

  /** An array or object written inside the first fence, in whatever way the grammar allows, is the
      answer: whatever stands before the fence and after it, and around the value inside, a language
      tag for one, as long as no brace inside the fence precedes the value. */
  lemma AnswerInsideFence(
      pre: Text, lead: Text, tree: Tree, tail: Text, post: Text, hasDefault: bool, word: Code -> bool, answer: Answer)
    requires NoBraceIn(word) && NoBrace(lead) && TreeOk(tree) && IsContainer(tree) && OneFence(pre, lead + Render(tree) + tail)
    ensures Answers(pre + FenceText(lead + Render(tree) + tail) + post, hasDefault, word, answer)
      <==> answer == Decoded(Meaning(tree))
  {
    var front := lead + Render(tree);
    var content := front + tail;
    assert content[|front|..|content|] == tail;
    PartHasNoFence(content, |front|, |content|);
    var end, extra := CutTicks(tail);
    assert content == front + end + extra;
    assert content[0..|front + end|] == front + end;
    PartHasNoFence(content, 0, |front + end|);
    TicksMoveOut(pre, front + end, extra, post);
    AnswerInsideTrimmedFence(pre, lead, tree, end, extra + post, hasDefault, word, answer);
  }

  /** A value that Python's own printer could have printed is itself the answer, either way. */
  lemma ProperAnswersAreTheValue(
      pre: Text, lead: Text, v: Json, tail: Text, post: Text, hasDefault: bool, word: Code -> bool, answer: Answer)
    requires (v.Array? || v.Object?) && Proper(v) && Writable(v) && NoBrace(lead)
    ensures NoClosedFence(lead + Print(v) + tail) ==>
      (Answers(lead + Print(v) + tail, hasDefault, word, answer) <==> answer == Decoded(v))
    ensures NoBraceIn(word) && OneFence(pre, lead + Print(v) + tail) ==>
      (Answers(pre + FenceText(lead + Print(v) + tail) + post, hasDefault, word, answer) <==> answer == Decoded(v))
  {
    ProperIsCanonical(v);
    PrintedMeaning(v);
    if NoClosedFence(lead + Print(v) + tail) { AnswerAmongProse(lead, TreeOf(v), tail, hasDefault, word, answer); }
    if NoBraceIn(word) && OneFence(pre, lead + Print(v) + tail) {
      AnswerInsideFence(pre, lead, TreeOf(v), tail, post, hasDefault, word, answer);
    }
  }
}
