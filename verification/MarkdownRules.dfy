/** What the parser makes of a text, on the segments it returns: which pattern is taken, what it
    yields, and what is left alone. */
module MarkdownRules {
  import opened Wrappers
  import opened MarkdownScan
  import opened Markdown
  import opened MarkdownLossless
  import opened MarkdownOpaque
  import opened MarkdownParser

  /** Text without code and without the sentinel. */
  predicate Simple(s: string) { '`' !in s && SENTINEL !in s }

  predicate Marked(s: string) { |s| >= 2 && s[0] == '>' && s[1] == ' ' }

  /** `d` stands at `i` and at `j`, with something between. */
  predicate Encloses(s: string, d: string, i: nat, j: nat) {
    j + |d| <= |s| && i + |d| < j && s[i..i + |d|] == d && s[j..j + |d|] == d
  }

  /** The same for one character that does not occur between, nor does a newline. */
  predicate EnclosesRun(s: string, c: char, i: nat, j: nat) {
    i + 1 < j < |s| && s[i] == c && s[j] == c && forall k :: i < k < j ==> s[k] != c && s[k] != '\n'
  }

  /** Leftmost opening delimiter with the nearest closing one. */
  ghost predicate Lazy(s: string, d: string, i: nat, j: nat) {
    && Encloses(s, d, i, j)
    && (forall i': nat, j': nat :: Encloses(s, d, i', j') ==> i <= i')
    && (forall j': nat :: Encloses(s, d, i, j') ==> j <= j')
  }

  ghost predicate NoLazy(s: string, d: string) { forall i: nat, j: nat :: !Encloses(s, d, i, j) }

  ghost predicate Short(s: string, c: char, i: nat, j: nat) {
    && EnclosesRun(s, c, i, j)
    && (forall i': nat, j': nat :: EnclosesRun(s, c, i', j') ==> i <= i')
    && (forall j': nat :: EnclosesRun(s, c, i, j') ==> j <= j')
  }

  ghost predicate NoShort(s: string, c: char) { forall i: nat, j: nat :: !EnclosesRun(s, c, i, j) }

  /** These are the spans that the regular expressions of the parser match. */
  lemma SpansAre(s: string, m: Mark)
    ensures forall i: nat, j: nat ::
              IsSpan(s, m, i, j) <==> if m.Star? || m.Underscore? then EnclosesRun(s, Delimiter(m)[0], i, j)
                                      else Encloses(s, Delimiter(m), i, j)
  {}

  /** None of the first `k` of ||, ***, **, __, *, _ and ~~ encloses anything in `s`. */
  ghost predicate NothingIn(s: string, k: nat) {
    && (k > 0 ==> NoLazy(s, "||")) && (k > 1 ==> NoLazy(s, "***")) && (k > 2 ==> NoLazy(s, "**"))
    && (k > 3 ==> NoLazy(s, "__")) && (k > 4 ==> NoShort(s, '*')) && (k > 5 ==> NoShort(s, '_'))
    && (k > 6 ==> NoLazy(s, "~~"))
  }

  function Before(s: string, i: nat): seq<Segment>
    requires i <= |s|
  {
    if i > 0 then [Text(s[..i])] else []
  }

  /** The text before the span comes first, unparsed; then the span; then the rest, in which a quote
      mark at the very start is nothing special. */
  predicate Yields(s: string, i: nat, span: Segment, after: nat)
    requires i <= |s| && after <= |s|
  {
    && Before(s, i) + [span] <= Parse(s)
    && (!Marked(s[after..]) ==> Parse(s) == Before(s, i) + [span] + Parse(s[after..]))
  }

  // ---- Reading simple text -------------------------------------------------------

  lemma ParseSimple(s: string, n: nat, code: seq<Segment>)
    requires Simple(s)
    ensures Parse(s) == Resolve(ParseInner(s, 0), [])
    ensures Resolve(ParseInner(s, n), code) == Parse(s)
  {
    NoBacktick(s);
    assert Segments([]) == [];
    assert Parse(s) == Resolve(ParseInner(s, 0), Segments([]));
    SimpleTree(s, 0, n, [], code);
  }

  /** Without references neither the number of code spans nor their segments matter. */
  lemma {:induction false} SimpleTree(s: string, m: nat, n: nat, a: seq<Segment>, b: seq<Segment>)
    requires SENTINEL !in s
    ensures Resolve(ParseInner(s, m), a) == Resolve(ParseInner(s, n), b)
    decreases |s|, 2
  {
    hide ParseLoop, SplitQuote, IsQuote;
    if IsQuote(s) {
      var (q, rest) := SplitQuote(s);
      SplitKeepsSimple(s);
      SimpleTree(q, m, n, a, b);
      if rest.Some? { SimpleTree(rest.value, m, n, a, b); }
      QuoteResolved(s, m, a);
      QuoteResolved(s, n, b);
    } else {
      SimpleLoop(s, m, n, a, b);
    }
  }

  lemma QuoteResolved(s: string, n: nat, code: seq<Segment>)
    requires IsQuote(s)
    ensures var (q, rest) := SplitQuote(s);
            Resolve(ParseInner(s, n), code)
            == [Blockquote(Resolve(ParseInner(q, n), code))]
               + (if rest.Some? then Resolve(ParseInner(rest.value, n), code) else [])
  {
    hide ParseLoop, SplitQuote, IsQuote, Resolve;
    var (q, rest) := SplitQuote(s);
    var head := Quote(ParseInner(q, n), rest.Some?);
    var tail := if rest.Some? then ParseInner(rest.value, n) else [];
    assert ParseInner(s, n) == [head] + tail;
    ResolveCons(head, tail, code);
    ResolveEmpty(code);
  }

  /** The pieces of a quote hold no character that the quote does not. */
  lemma {:induction false} SplitKeepsSimple(s: string)
    requires IsQuote(s)
    ensures var (q, rest) := SplitQuote(s);
            && (forall c :: c in q ==> c in s)
            && (rest.Some? ==> forall c :: c in rest.value ==> c in s)
    decreases |s|
  {
    hide IsQuote;
    var e := RunEnd(s, c => c != '\n', 0);
    if e < |s| {
      var rest := s[e + 1..];
      if IsQuote(rest) {
        SplitKeepsSimple(rest);
      }
    }
  }

  lemma {:induction false} SimpleLoop(s: string, m: nat, n: nat, a: seq<Segment>, b: seq<Segment>)
    requires SENTINEL !in s
    ensures Resolve(ParseLoop(s, m), a) == Resolve(ParseLoop(s, n), b)
    decreases |s|, 1
  {
    hide ParseInner, ParseMark, Resolve, FirstMark, MatchPlaceholder, Delimiter;
    NoReference(s);
    if s == "" {
      ResolveEmpty(a);
      ResolveEmpty(b);
    } else if FirstMark(s, 0).None? {
      ResolveOne(Leaf(s), a);
      ResolveOne(Leaf(s), b);
    } else {
      var (mark, i, j) := FirstMark(s, 0).value;
      SimpleTree(s[i + |Delimiter(mark)|..j], m, n, a, b);
      SimpleLoop(s[j + |Delimiter(mark)|..], m, n, a, b);
      SimpleMark(s, mark, i, j, m, n, a, b);
      LoopIsMark(s, mark, i, j, m);
      LoopIsMark(s, mark, i, j, n);
    }
  }

  lemma SimpleMark(s: string, mark: Mark, i: nat, j: nat, m: nat, n: nat, a: seq<Segment>, b: seq<Segment>)
    requires IsLazySpan(s, Delimiter(mark), i, j)
    requires var w := |Delimiter(mark)|;
             && Resolve(ParseInner(s[i + w..j], m), a) == Resolve(ParseInner(s[i + w..j], n), b)
             && Resolve(ParseLoop(s[j + w..], m), a) == Resolve(ParseLoop(s[j + w..], n), b)
    ensures Resolve(ParseMark(s, mark, i, j, m), a) == Resolve(ParseMark(s, mark, i, j, n), b)
  {
    hide ParseInner, ParseLoop, ParseMark, Resolve, Delimiter, MakeSpan;
    MarkResolved(s, mark, i, j, m, a);
    MarkResolved(s, mark, i, j, n, b);
  }

  lemma LoopIsMark(s: string, m: Mark, i: nat, j: nat, n: nat)
    requires s != "" && MatchPlaceholder(s, 0).None? && FirstMark(s, 0) == Some((m, i, j))
    ensures ParseLoop(s, n) == ParseMark(s, m, i, j, n)
  {
    hide ParseMark, MatchPlaceholder, FirstMark;
  }

  lemma MarkResolved(s: string, m: Mark, i: nat, j: nat, n: nat, code: seq<Segment>)
    requires IsLazySpan(s, Delimiter(m), i, j)
    ensures var w := |Delimiter(m)|;
            Resolve(ParseMark(s, m, i, j, n), code)
            == Before(s, i) + [MakeSpan(m, Resolve(ParseInner(s[i + w..j], n), code))]
               + Resolve(ParseLoop(s[j + w..], n), code)
  {
    hide ParseLoop, ParseInner, Delimiter, Resolve, MakeSpan;
    var w := |Delimiter(m)|;
    var first := if i > 0 then [Leaf(s[..i])] else [];
    var span, rest := Span(m, ParseInner(s[i + w..j], n)), ParseLoop(s[j + w..], n);
    ResolveConcat(first + [span], rest, code);
    ResolveConcat(first, [span], code);
    ResolveOne(span, code);
    ResolveEmpty(code);
    ResolveOne(Leaf(s[..i]), code);
  }

  // ---- Which pattern is taken ------------------------------------------------------

  lemma Chosen(s: string, k: nat, i: nat, j: nat)
    requires k < |PATTERNS| && IsLeftmostSpan(s, PATTERNS[k], i, j)
    requires forall p :: 0 <= p < k ==> NoSpan(s, PATTERNS[p])
    ensures FirstMark(s, 0) == Some((PATTERNS[k], i, j))
  {
    hide FirstMark;
    FirstPatternWins(s, 0);
    assert !NoSpan(s, PATTERNS[k]);
    assert FirstMark(s, 0).Some?;
    var (m, i', j') := FirstMark(s, 0).value;
    var q :| 0 <= q < |PATTERNS| && PATTERNS[q] == m && forall p :: 0 <= p < q ==> NoSpan(s, PATTERNS[p]);
    assert !NoSpan(s, PATTERNS[q]) by { assert IsSpan(s, m, i', j'); }
    assert q == k;
    SameSpan(s, m, i, j, i', j');
  }

  lemma SameSpan(s: string, m: Mark, i: nat, j: nat, i': nat, j': nat)
    requires IsLeftmostSpan(s, m, i, j) && IsLeftmostSpan(s, m, i', j')
    ensures i == i' && j == j'
  {
    hide IsSpan;
  }

  lemma TurnYields(s: string, m: Mark, i: nat, j: nat)
    requires Simple(s) && s != "" && !Marked(s) && FirstMark(s, 0) == Some((m, i, j))
    ensures var w := |Delimiter(m)|;
            i + w < j && j + w <= |s| && Yields(s, i, MakeSpan(m, Parse(s[i + w..j])), j + w)
  {
    hide ParseLoop, ParseInner, Delimiter, Resolve, MakeSpan, FirstMark, Parse, StartsAt, Marked;
    var w := |Delimiter(m)|;
    SpanFits(s, Delimiter(m), i, j);
    var inner, rest := s[i + w..j], s[j + w..];
    NoReference(s);
    ParseSimple(s, 0, []);
    ParseSimple(inner, 0, []);
    ParseSimple(rest, 0, []);
    MarkResolved(s, m, i, j, 0, []);
    LoopIsMark(s, m, i, j, 0);
    QuotelessInner(s, 0);
    if !Marked(rest) { QuotelessInner(rest, 0); }
  }

  lemma SpanFits(s: string, d: string, i: nat, j: nat)
    requires IsLazySpan(s, d, i, j)
    ensures i + |d| < j && j + |d| <= |s|
  {}

  /** The patterns in their order, with what each of them yields. A text in which none of them
      encloses anything is one leaf. */
  lemma MarkupRules(s: string)
    requires Simple(s) && s != "" && !Marked(s)
    ensures forall i: nat, j: nat :: Lazy(s, "||", i, j) ==>
              j + 2 <= |s| && Yields(s, i, Spoiler(Parse(s[i + 2..j])), j + 2)
    ensures forall i: nat, j: nat :: NothingIn(s, 1) && Lazy(s, "***", i, j) ==>
              j + 3 <= |s| && Yields(s, i, BoldItalic(Parse(s[i + 3..j])), j + 3)
    ensures forall i: nat, j: nat :: NothingIn(s, 2) && Lazy(s, "**", i, j) ==>
              j + 2 <= |s| && Yields(s, i, Bold(Parse(s[i + 2..j])), j + 2)
    ensures forall i: nat, j: nat :: NothingIn(s, 3) && Lazy(s, "__", i, j) ==>
              j + 2 <= |s| && Yields(s, i, Bold(Parse(s[i + 2..j])), j + 2)
    ensures forall i: nat, j: nat :: NothingIn(s, 4) && Short(s, '*', i, j) ==>
              j + 1 <= |s| && Yields(s, i, Italic(Parse(s[i + 1..j])), j + 1)
    ensures forall i: nat, j: nat :: NothingIn(s, 5) && Short(s, '_', i, j) ==>
              j + 1 <= |s| && Yields(s, i, Italic(Parse(s[i + 1..j])), j + 1)
    ensures forall i: nat, j: nat :: NothingIn(s, 6) && Lazy(s, "~~", i, j) ==>
              j + 2 <= |s| && Yields(s, i, Strikethrough(Parse(s[i + 2..j])), j + 2)
    ensures NothingIn(s, 7) ==> Parse(s) == [Text(s)]
  {
    hide Parse, Yields, FirstMark;
    forall i: nat, j: nat | Lazy(s, "||", i, j)
      ensures j + 2 <= |s| && Yields(s, i, Spoiler(Parse(s[i + 2..j])), j + 2)
    {
      Taken(s, 0, i, j);
    }
    forall i: nat, j: nat | NothingIn(s, 1) && Lazy(s, "***", i, j)
      ensures j + 3 <= |s| && Yields(s, i, BoldItalic(Parse(s[i + 3..j])), j + 3)
    {
      Taken(s, 1, i, j);
    }
    forall i: nat, j: nat | NothingIn(s, 2) && Lazy(s, "**", i, j)
      ensures j + 2 <= |s| && Yields(s, i, Bold(Parse(s[i + 2..j])), j + 2)
    {
      Taken(s, 2, i, j);
    }
    forall i: nat, j: nat | NothingIn(s, 3) && Lazy(s, "__", i, j)
      ensures j + 2 <= |s| && Yields(s, i, Bold(Parse(s[i + 2..j])), j + 2)
    {
      Taken(s, 3, i, j);
    }
    forall i: nat, j: nat | NothingIn(s, 4) && Short(s, '*', i, j)
      ensures j + 1 <= |s| && Yields(s, i, Italic(Parse(s[i + 1..j])), j + 1)
    {
      Taken(s, 4, i, j);
    }
    forall i: nat, j: nat | NothingIn(s, 5) && Short(s, '_', i, j)
      ensures j + 1 <= |s| && Yields(s, i, Italic(Parse(s[i + 1..j])), j + 1)
    {
      Taken(s, 5, i, j);
    }
    forall i: nat, j: nat | NothingIn(s, 6) && Lazy(s, "~~", i, j)
      ensures j + 2 <= |s| && Yields(s, i, Strikethrough(Parse(s[i + 2..j])), j + 2)
    {
      Taken(s, 6, i, j);
    }
    if NothingIn(s, 7) { Untouched(s); }
  }

  /** The span of the k-th pattern, in the terms of the rules. */
  ghost predicate SpanOf(s: string, k: nat, i: nat, j: nat) {
    match k
    case 0 => Lazy(s, "||", i, j)
    case 1 => Lazy(s, "***", i, j)
    case 2 => Lazy(s, "**", i, j)
    case 3 => Lazy(s, "__", i, j)
    case 4 => Short(s, '*', i, j)
    case 5 => Short(s, '_', i, j)
    case 6 => Lazy(s, "~~", i, j)
    case _ => false
  }

  function WidthOf(k: nat): nat { if k == 1 then 3 else if k == 4 || k == 5 then 1 else 2 }

  function SegmentFor(k: nat, inner: seq<Segment>): Segment {
    if k == 0 then Spoiler(inner) else if k == 1 then BoldItalic(inner) else if k < 4 then Bold(inner)
    else if k < 6 then Italic(inner) else Strikethrough(inner)
  }

  lemma Taken(s: string, k: nat, i: nat, j: nat)
    requires Simple(s) && s != "" && !Marked(s) && k < 7 && NothingIn(s, k) && SpanOf(s, k, i, j)
    ensures var w := WidthOf(k);
            i + w < j && j + w <= |s| && Yields(s, i, SegmentFor(k, Parse(s[i + w..j])), j + w)
  {
    hide Parse, Yields, FirstMark, EnclosesRun, Encloses, IsSpan;
    forall p | 0 <= p < k ensures NoSpan(s, PATTERNS[p]) { NoneIsNoSpan(s, k, p); }
    SpanIsLeftmost(s, k, i, j);
    Chosen(s, k, i, j);
    TurnYields(s, PATTERNS[k], i, j);
  }

  lemma NoneIsNoSpan(s: string, k: nat, p: nat)
    requires p < k <= 7 && NothingIn(s, k)
    ensures NoSpan(s, PATTERNS[p])
  {
    SpansAre(s, PATTERNS[p]);
    hide EnclosesRun, Encloses, IsSpan;
  }

  lemma SpanIsLeftmost(s: string, k: nat, i: nat, j: nat)
    requires k < 7 && SpanOf(s, k, i, j)
    ensures IsLeftmostSpan(s, PATTERNS[k], i, j)
  {
    SpansAre(s, PATTERNS[k]);
    hide EnclosesRun, Encloses, IsSpan;
  }

  lemma Untouched(s: string)
    requires Simple(s) && s != "" && !Marked(s) && NothingIn(s, 7)
    ensures Parse(s) == [Text(s)]
  {
    hide FirstMark, Resolve, Parse, NothingIn, NoSpan, MatchPlaceholder;
    forall p | 0 <= p < 7 ensures NoSpan(s, PATTERNS[p]) { NoneIsNoSpan(s, 7, p); }
    FirstPatternWins(s, 0);
    assert FirstMark(s, 0).None? by {
      if FirstMark(s, 0).Some? {
        var (m, i, j) := FirstMark(s, 0).value;
        SpanExists(s, m, i, j);
      }
    }
    NoReference(s);
    ParseSimple(s, 0, []);
    assert ParseInner(s, 0) == [Leaf(s)];
    ResolveOne(Leaf(s), []);
  }

  lemma SpanExists(s: string, m: Mark, i: nat, j: nat)
    requires IsLeftmostSpan(s, m, i, j)
    ensures !NoSpan(s, m)
  {
    assert IsSpan(s, m, i, j);
  }

  // ---- Quotes --------------------------------------------------------------------

  /** A text that starts with a quote mark is the block of its leading marked lines, without their
      marks, followed by what its other lines are read as. */
  lemma QuoteRule(s: string)
    requires Simple(s) && Marked(s)
    ensures var ls := Lines(s); var q := Leading(ls);
            q > 0 && Parse(s) == [Blockquote(Parse(Join(Strip(ls[..q]))))]
                                 + (if q < |ls| then Parse(Join(ls[q..])) else [])
  {
    hide ParseInner, SplitQuote, Resolve, Parse, Lines, Leading, Strip, Join;
    QuoteByLines(s);
    SplitKeepsSimple(s);
    QuoteResolved(s, 0, []);
    ParseSimple(s, 0, []);
    var (q, rest) := SplitQuote(s);
    ParseSimple(q, 0, []);
    if rest.Some? { ParseSimple(rest.value, 0, []); }
  }

  /** No block quote starts inside a line. */
  lemma QuotesStartLines(s: string)
    requires Simple(s) && !Marked(s)
    ensures forall seg :: seg in Parse(s) ==> !seg.Blockquote?
  {
    hide ParseLoop, Resolve;
    ParseSimple(s, 0, []);
    QuotelessInner(s, 0);
    LoopHasNoQuote(s, 0, []);
  }

  lemma {:induction false} LoopHasNoQuote(s: string, n: nat, code: seq<Segment>)
    requires SENTINEL !in s
    ensures forall seg :: seg in Resolve(ParseLoop(s, n), code) ==> !seg.Blockquote?
    decreases |s|
  {
    hide ParseInner, ParseMark, Resolve, FirstMark;
    NoReference(s);
    if s == "" {
      ResolveEmpty(code);
    } else if FirstMark(s, 0).None? {
      ResolveOne(Leaf(s), code);
    } else {
      var (mark, i, j) := FirstMark(s, 0).value;
      LoopHasNoQuote(s[j + |Delimiter(mark)|..], n, code);
      MarkResolved(s, mark, i, j, n, code);
    }
  }

  // ---- Code ----------------------------------------------------------------------

  /** A turn of the loop at simple text before a placeholder: the text may even be a quote. */
  lemma TextThenCode(before: string, id: nat, rest: string, code: seq<Segment>)
    requires Simple(before) && id < |code|
    ensures Resolve(ParseLoop(before + Id(id) + rest, |code|), code)
            == Parse(before) + [code[id]] + Resolve(ParseLoop(rest, |code|), code)
  {
    hide ParseInner, ParseLoop, Resolve, Parse, Reference, Id, MatchPlaceholder;
    var s, n := before + Id(id) + rest, |code|;
    FirstReference(before, id, rest);
    Slices(before, Id(id), rest);
    NotEmptyId(id);
    Parser.PlaceholderTurn(s, |before|, |before| + |Id(id)|, n, code);
    OwnReference(id, code);
    TextAlone(before, n, code);
  }

  lemma OwnReference(id: nat, code: seq<Segment>)
    requires id < |code|
    ensures Resolve(Reference(Id(id), |code|), code) == [code[id]]
  {
    hide Id, FindId;
    FindOwnId(id, |code|);
    ResolveOne(CodeRef(id), code);
  }

  lemma TextAlone(s: string, n: nat, code: seq<Segment>)
    requires Simple(s)
    ensures (if |s| > 0 then Resolve(ParseInner(s, n), code) else []) == Parse(s)
  {
    hide ParseInner, Resolve, Parse;
    if s != "" { ParseSimple(s, n, code); } else { EmptyText(); }
  }

  /** What stands before the first code span is read by itself, and the code span follows it. */
  lemma BeforeCode(before: string, id: nat, rest: string, n: nat, code: seq<Segment>)
    requires Simple(before) && !Marked(before) && id < n == |code|
    ensures Parse(before) + [code[id]] <= Resolve(ParseInner(before + Id(id) + rest, n), code)
  {
    hide ParseInner, ParseLoop, Resolve, Parse, Id;
    StillUnmarked(before, id, rest);
    QuotelessInner(before + Id(id) + rest, n);
    TextThenCode(before, id, rest, code);
  }

  lemma QuotelessInner(s: string, n: nat)
    requires !Marked(s)
    ensures ParseInner(s, n) == ParseLoop(s, n)
  {
    MarkedIsQuote(s);
    hide Marked, IsQuote, SplitQuote, ParseLoop;
  }

  lemma MarkedIsQuote(s: string)
    ensures Marked(s) <==> IsQuote(s)
  {
    if |s| >= 2 { assert s[0..2] == [s[0], s[1]]; }
  }

  lemma NotEmptyId(id: nat)
    ensures |Id(id)| > 0
  {}

  lemma StillUnmarked(before: string, id: nat, rest: string)
    requires !Marked(before)
    ensures !Marked(before + Id(id) + rest)
  {
    NotEmptyId(id);
    IdShape(id, 0);
    hide Id;
    var s := before + Id(id) + rest;
    if |before| == 0 {
      assert s[0] == Id(id)[0] == SENTINEL;
    } else if |before| == 1 {
      assert s[1] == Id(id)[0] == SENTINEL;
    } else if |s| >= 2 {
      assert before[0..2] == s[0..2];
    }
  }

  /** What may name the language of a fenced block. */
  lemma WordChars(c: char)
    ensures IsWordChar(c) <==>
              || c in "abcdefghijklmnopqrstuvwxyz" || c in "ABCDEFGHIJKLMNOPQRSTUVWXYZ" || c in "0123456789_"
  {}

  /** A fenced block after simple text: the text as if it stood alone, then the block. */
  lemma FenceRule(before: string, lang: string, body: string, after: string)
    requires Plain(before, lang, body) && SENTINEL !in before && !Marked(before)
    ensures Parse(before) + [CodeBlock(body, lang)] <= Parse(FencedText(before, lang, body, after))
  {
    ExtractFenced(before, lang, body, after);
    var (rest, fences) := FencePass(after, 1);
    hide FencePass, ParseInner, Parse, Resolve, FencedText, Id;
    CodeComesFirst(FencedText(before, lang, body, after), before, rest, Fenced(lang, true, body), fences);
  }

  /** The inline pass does not touch the text up to the first code span if it has no backtick. */
  lemma CodeComesFirst(text: string, before: string, rest: string, c: Code, fences: seq<Code>)
    requires FencePass(text, 0) == (before + Id(0) + rest, [c] + fences) && Simple(before) && !Marked(before)
    ensures Parse(before) + [SegmentOf(c)] <= Parse(text)
  {
    hide FencePass, InlinePass, ParseInner, Parse, Resolve;
    var n := 1 + |fences|;
    var (rest', inlines) := InlinePass(rest, n);
    InlineSkips(before, rest, n);
    var codes := [c] + fences + inlines;
    assert Extract(text) == (before + Id(0) + rest', codes);
    assert Segments(codes)[0] == SegmentOf(c);
    BeforeCode(before, 0, rest', |codes|, Segments(codes));
    ParseIs(text);
  }

  lemma ParseIs(text: string)
    ensures var (working, codes) := Extract(text);
            Parse(text) == Resolve(ParseInner(working, |codes|), Segments(codes))
  {
    hide Extract, ParseInner, Resolve, Segments;
  }

  lemma InlineSkips(before: string, rest: string, n: nat)
    requires '`' !in before
    ensures var (w, codes) := InlinePass(rest, n);
            InlinePass(before + Id(0) + rest, n) == (before + Id(0) + w, codes)
  {
    var o, s := |before + Id(0)|, before + Id(0) + rest;
    forall k | 0 <= k < o ensures s[k] != '`' {
      if k >= |before| { IdShape(0, k - |before|); assert s[k] == Id(0)[k - |before|]; }
    }
    hide Id;
    Skipped(before + Id(0), rest, n);
  }

  lemma Skipped(x: string, rest: string, n: nat)
    requires '`' !in x
    ensures var (w, codes) := InlinePass(rest, n);
            InlinePass(x + rest, n) == (x + w, codes)
  {
    hide MatchRun, Id;
    ShiftedRun(x, rest);
    if MatchRun(rest, '`', 0).Some? {
      var (i, j) := MatchRun(rest, '`', 0).value;
      ShiftedTurn(x, rest, i, j, n);
    }
  }

  lemma ShiftedTurn(x: string, rest: string, i: nat, j: nat, n: nat)
    requires MatchRun(rest, '`', 0) == Some((i, j)) && MatchRun(x + rest, '`', 0) == Some((|x| + i, |x| + j))
    ensures var (w, codes) := InlinePass(rest, n);
            InlinePass(x + rest, n) == (x + w, codes)
  {
    hide MatchRun, Id, InlinePass;
    var s := x + rest;
    InlineStep(rest, i, j, n);
    InlineStep(s, |x| + i, |x| + j, n);
    assert s[..|x| + i] == x + rest[..i];
    assert s[|x| + j + 1..] == rest[j + 1..];
    assert s[|x| + i + 1..|x| + j] == rest[i + 1..j];
    var (w, _) := InlinePass(rest[j + 1..], n + 1);
    assert x + rest[..i] + Id(n) + w == x + (rest[..i] + Id(n) + w);
  }

  lemma InlineStep(s: string, i: nat, j: nat, n: nat)
    requires MatchRun(s, '`', 0) == Some((i, j))
    ensures i + 1 < j < |s|
    ensures var (w, codes) := InlinePass(s[j + 1..], n + 1);
            InlinePass(s, n) == (s[..i] + Id(n) + w, [Inline(s[i + 1..j])] + codes)
  {
    hide MatchRun, Id;
  }

  lemma ShiftedRun(x: string, rest: string)
    requires '`' !in x
    ensures MatchRun(x + rest, '`', 0)
            == match MatchRun(rest, '`', 0)
               case None => None
               case Some((i, j)) => Some((|x| + i, |x| + j))
  {
    hide MatchRun;
    var s := x + rest;
    assert forall k :: 0 <= k < |rest| ==> s[|x| + k] == rest[k];
    match MatchRun(s, '`', 0) {
      case None =>
        if MatchRun(rest, '`', 0).Some? {
          RunShifts(x, rest, MatchRun(rest, '`', 0).value.0, MatchRun(rest, '`', 0).value.1);
        }
      case Some((i, j)) =>
        assert s[i] == '`' && i >= |x|;
        RunShiftsBack(x, rest, i - |x|, j - |x|);
        var (i', j') := MatchRun(rest, '`', 0).value;
        RunShifts(x, rest, i', j');
    }
  }

  lemma RunShifts(x: string, rest: string, i: nat, j: nat)
    requires IsRunSpan(rest, '`', i, j)
    ensures IsRunSpan(x + rest, '`', |x| + i, |x| + j)
  {}

  lemma RunShiftsBack(x: string, rest: string, i: nat, j: nat)
    requires IsRunSpan(x + rest, '`', |x| + i, |x| + j)
    ensures IsRunSpan(rest, '`', i, j)
  {
    var s := x + rest;
    assert rest[i] == s[|x| + i] && rest[j] == s[|x| + j];
    forall k | i < k < j ensures InRun('`', rest[k]) { assert InRun('`', s[|x| + k]); }
  }

  /** Text whose first backtick opens an inline code span. */
  function InlineText(before: string, code: string, after: string): string { before + ("`" + code + "`" + after) }

  predicate Inlined(before: string, code: string, after: string) {
    && Simple(before) && code != "" && '`' !in code && '\n' !in code
    && !Contains(InlineText(before, code, after), FENCE)
  }

  lemma ExtractInlined(before: string, code: string, after: string)
    requires Inlined(before, code, after)
    ensures var (rest, inlines) := InlinePass(after, 1);
            Extract(InlineText(before, code, after)) == (before + Id(0) + rest, [Inline(code)] + inlines)
  {
    hide InlinePass, FencePass, Id, Contains;
    var text, tail := InlineText(before, code, after), "`" + code + "`" + after;
    NoFence(text, 0);
    FirstPass(code, after, 0);
    Skipped(before, tail, 0);
    var (rest, inlines) := InlinePass(after, 1);
    assert before + (Id(0) + rest) == before + Id(0) + rest;
    var nothing: seq<Code> := [];
    assert nothing + ([Inline(code)] + inlines) == [Inline(code)] + inlines;
  }

  lemma FirstPass(code: string, after: string, k: nat)
    requires code != "" && '`' !in code && '\n' !in code
    ensures var (rest, inlines) := InlinePass(after, k + 1);
            InlinePass("`" + code + "`" + after, k) == (Id(k) + rest, [Inline(code)] + inlines)
  {
    hide InlinePass, MatchRun, Id;
    var tail := "`" + code + "`" + after;
    FirstInline(code, after);
    InlineStep(tail, 0, |code| + 1, k);
    assert tail[..0] == "" && tail[1..|code| + 1] == code && tail[|code| + 2..] == after;
    var (rest, _) := InlinePass(after, k + 1);
    assert "" + Id(k) + rest == Id(k) + rest;
  }

  lemma NoFence(text: string, k: nat)
    requires !Contains(text, FENCE)
    ensures FencePass(text, k) == (text, [])
  {
    hide MatchFence;
    assert MatchFence(text, 0).None?;
  }

  lemma FirstInline(code: string, after: string)
    requires code != "" && '`' !in code && '\n' !in code
    ensures MatchRun("`" + code + "`" + after, '`', 0) == Some((0, |code| + 1))
  {
    hide MatchRun;
    var s := "`" + code + "`" + after;
    assert forall k :: 0 < k <= |code| ==> s[k] == code[k - 1];
    assert IsRunSpan(s, '`', 0, |code| + 1);
  }

  /** Inline code after simple text: the text as if it stood alone, then the code, verbatim. */
  lemma InlineRule(before: string, code: string, after: string)
    requires Inlined(before, code, after) && !Marked(before)
    ensures Parse(before) + [CodeInline(code)] <= Parse(InlineText(before, code, after))
  {
    ExtractInlined(before, code, after);
    hide Extract, ParseInner, Parse, Resolve, InlineText, Id, InlinePass;
    var text := InlineText(before, code, after);
    var (rest, inlines) := InlinePass(after, 1);
    var codes := [Inline(code)] + inlines;
    BeforeCode(before, 0, rest, |codes|, Segments(codes));
    ParseIs(text);
  }

  /** Replacing inline code by other code leaves the tree as it is and changes that span only. */
  lemma InlineCodeIsOpaque(before: string, code: string, code': string, after: string)
    requires Inlined(before, code, after) && Inlined(before, code', after)
    ensures var text, text' := InlineText(before, code, after), InlineText(before, code', after);
            && ParseTree(text') == ParseTree(text)
            && |Extract(text).1| > 0 && Extract(text).1[0] == Inline(code)
            && Extract(text').1 == Extract(text).1[0 := Inline(code')]
  {
    ExtractInlined(before, code, after);
    ExtractInlined(before, code', after);
    hide Extract, ParseInner, InlineText, Id, InlinePass;
  }
}
