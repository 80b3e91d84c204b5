/** The Markdown segment tree and the two phases of the parser as functions:
    code is first replaced by placeholders, then the remaining text is parsed
    recursively by ordered patterns. */
module Markdown {
  import opened Wrappers
  import opened MarkdownScan

  /** What the renderer receives. */
  datatype Segment =
    | Text(content: string)
    | Bold(bold: seq<Segment>)
    | Italic(italic: seq<Segment>)
    | BoldItalic(boldItalic: seq<Segment>)
    | Strikethrough(strikethrough: seq<Segment>)
    | CodeInline(code: string)
    | CodeBlock(body: string, lang: string)
    | Blockquote(quote: seq<Segment>)
    | Spoiler(spoiler: seq<Segment>)

  // ---- Phase 1: extraction of code -------------------------------------------

  /** A code span with everything needed to write it back. */
  datatype Code =
    | Fenced(lang: string, newline: bool, body: string)
    | Inline(body: string)

  function SegmentOf(c: Code): Segment {
    match c
    case Fenced(lang, _, body) => CodeBlock(body, lang)
    case Inline(body) => CodeInline(body)
  }

  function Raw(c: Code): string {
    match c
    case Fenced(lang, newline, body) => FENCE + lang + (if newline then "\n" else "") + body + FENCE
    case Inline(body) => "`" + body + "`"
  }

  function Digits(n: nat): (d: string)
    ensures |d| > 0 && forall k :: 0 <= k < |d| ==> IsDigit(d[k])
  {
    if n < 10 then ["0123456789"[n]] else Digits(n / 10) + ["0123456789"[n % 10]]
  }

  /** The text that stands for the n-th extracted code span. */
  function Id(n: nat): string { PREFIX + Digits(n) + [SENTINEL] }

  function FenceCode(s: string, f: FenceMatch): Code
    requires IsFence(s, f)
  {
    Fenced(s[f.open + 3..f.langEnd], f.bodyStart > f.langEnd, s[f.bodyStart..f.bodyEnd])
  }

  /** Replaces every fenced block by the next placeholder, numbered from `k`. */
  function FencePass(s: string, k: nat): (string, seq<Code>)
    decreases |s|
  {
    match MatchFence(s, 0)
    case None => (s, [])
    case Some(f) =>
      var (w, codes) := FencePass(s[f.bodyEnd + 3..], k + 1);
      (s[..f.open] + Id(k) + w, [FenceCode(s, f)] + codes)
  }

  /** Replaces every inline code span by the next placeholder, numbered from `k`. */
  function InlinePass(s: string, k: nat): (string, seq<Code>)
    decreases |s|
  {
    match MatchRun(s, '`', 0)
    case None => (s, [])
    case Some((i, j)) =>
      var (w, codes) := InlinePass(s[j + 1..], k + 1);
      (s[..i] + Id(k) + w, [Inline(s[i + 1..j])] + codes)
  }

  function Extract(text: string): (string, seq<Code>) {
    var (fenceFree, fences) := FencePass(text, 0);
    var (working, inlines) := InlinePass(fenceFree, |fences|);
    (working, fences + inlines)
  }

  // ---- Phase 2: recursive parsing -------------------------------------------

  datatype Mark = Bars | TripleStar | DoubleStar | DoubleUnderscore | Star | Underscore | Tildes

  /** Ordered by specificity. */
  const PATTERNS: seq<Mark> := [Bars, TripleStar, DoubleStar, DoubleUnderscore, Star, Underscore, Tildes]

  function Delimiter(m: Mark): (d: string)
    ensures 1 <= |d| <= 3 && SENTINEL !in d
  {
    match m
    case Bars => "||"
    case TripleStar => "***"
    case DoubleStar => "**"
    case DoubleUnderscore => "__"
    case Star => "*"
    case Underscore => "_"
    case Tildes => "~~"
  }

  function MatchMark(s: string, m: Mark): (r: Option<(nat, nat)>)
    ensures r.Some? ==> IsLazySpan(s, Delimiter(m), r.value.0, r.value.1)
  {
    if m.Star? || m.Underscore? then MatchRun(s, Delimiter(m)[0], 0) else MatchLazy(s, Delimiter(m), 0)
  }

  /** The first pattern of the ordered list, from the k-th on, that matches anywhere in `s`. */
  function FirstMark(s: string, k: nat): (r: Option<(Mark, nat, nat)>)
    requires k <= |PATTERNS|
    ensures r.Some? ==> IsLazySpan(s, Delimiter(r.value.0), r.value.1, r.value.2)
    decreases |PATTERNS| - k
  {
    if k == |PATTERNS| then None
    else match MatchMark(s, PATTERNS[k])
      case Some((i, j)) => Some((PATTERNS[k], i, j))
      case None => FirstMark(s, k + 1)
  }

  /** What the regular expression of a mark matches. */
  predicate IsSpan(s: string, m: Mark, i: nat, j: nat) {
    if m.Star? || m.Underscore? then IsRunSpan(s, Delimiter(m)[0], i, j) else IsLazySpan(s, Delimiter(m), i, j)
  }

  ghost predicate NoSpan(s: string, m: Mark) { forall i: nat, j: nat :: !IsSpan(s, m, i, j) }

  /** The leftmost span of the mark, closed at the first opportunity. */
  ghost predicate IsLeftmostSpan(s: string, m: Mark, i: nat, j: nat) {
    && IsSpan(s, m, i, j)
    && (forall i': nat, j': nat :: IsSpan(s, m, i', j') ==> i <= i')
    && (forall j': nat :: IsSpan(s, m, i, j') ==> j <= j')
  }

  lemma MarkIsLeftmost(s: string, m: Mark)
    ensures MatchMark(s, m).None? ==> NoSpan(s, m)
    ensures MatchMark(s, m).Some? ==> IsLeftmostSpan(s, m, MatchMark(s, m).value.0, MatchMark(s, m).value.1)
  {
    hide MatchLazy, MatchRun, Delimiter;
  }

  /** The first pattern that matches anywhere wins: the earlier ones match nowhere. */
  lemma {:induction false} FirstPatternWins(s: string, k: nat)
    requires k <= |PATTERNS|
    ensures FirstMark(s, k).None? ==> forall q :: k <= q < |PATTERNS| ==> NoSpan(s, PATTERNS[q])
    ensures FirstMark(s, k).Some? ==>
              var (m, i, j) := FirstMark(s, k).value;
              && IsLeftmostSpan(s, m, i, j)
              && exists q :: k <= q < |PATTERNS| && PATTERNS[q] == m
                             && forall p :: k <= p < q ==> NoSpan(s, PATTERNS[p])
    decreases |PATTERNS| - k
  {
    hide MatchMark, NoSpan, IsLeftmostSpan;
    if k < |PATTERNS| {
      MarkIsLeftmost(s, PATTERNS[k]);
      FirstPatternWins(s, k + 1);
    }
  }

  /** The parse tree. Besides what a segment carries it remembers which delimiter a span had
      and whether a newline follows a quote; code is referred to by its number. */
  datatype Node =
    | Leaf(content: string)
    | Span(mark: Mark, inner: seq<Node>)
    | CodeRef(index: nat)
    | Quote(quoted: seq<Node>, more: bool)

  predicate IsQuote(s: string) { StartsAt(s, "> ", 0) }

  /** Splits off the leading run of lines that start with "> ", prefix removed. The second
      part is None when the quote takes the whole text. */
  function SplitQuote(s: string): (r: (string, Option<string>))
    requires IsQuote(s)
    ensures |r.0| + 2 <= |s|
    ensures r.1.Some? ==> |r.1.value| + 3 <= |s|
    decreases |s|
  {
    var e := RunEnd(s, c => c != '\n', 0);
    assert s[0..2][0] == '>' && s[0..2][1] == ' ';
    if e == |s| then (s[2..], None)
    else
      var rest := s[e + 1..];
      if IsQuote(rest) then
        var (q, r) := SplitQuote(rest);
        (s[2..e] + "\n" + q, r)
      else (s[2..e], Some(rest))
  }

  /** The number of the placeholder whose text is `id`, when there are `n` of them. */
  function FindId(id: string, n: nat): (r: Option<nat>)
    ensures r.Some? ==> r.value < n && Id(r.value) == id
    ensures r.None? ==> forall k :: 0 <= k < n ==> Id(k) != id
  {
    if n == 0 then None
    else match FindId(id, n - 1)
      case Some(k) => Some(k)
      case None => if Id(n - 1) == id then Some(n - 1) else None
  }

  function ParseInner(s: string, n: nat): seq<Node>
    decreases |s|, 2
  {
    if IsQuote(s) then
      var (q, rest) := SplitQuote(s);
      [Quote(ParseInner(q, n), rest.Some?)] + if rest.Some? then ParseInner(rest.value, n) else []
    else ParseLoop(s, n)
  }

  function ParseLoop(s: string, n: nat): seq<Node>
    decreases |s|, 1
  {
    if s == "" then []
    else match MatchPlaceholder(s, 0)
      case Some((i, j)) =>
        (if i > 0 then ParseInner(s[..i], n) else []) + Reference(s[i..j], n) + ParseLoop(s[j..], n)
      case None =>
        match FirstMark(s, 0)
        case None => [Leaf(s)]
        case Some((m, i, j)) => ParseMark(s, m, i, j, n)
  }

  /** The loop turn that consumes the span between the delimiters at `i` and `j`. */
  function ParseMark(s: string, m: Mark, i: nat, j: nat, n: nat): seq<Node>
    requires IsLazySpan(s, Delimiter(m), i, j)
    decreases |s|, 0
  {
    var w := |Delimiter(m)|;
    (if i > 0 then [Leaf(s[..i])] else [])
    + [Span(m, ParseInner(s[i + w..j], n))]
    + ParseLoop(s[j + w..], n)
  }

  function Reference(id: string, n: nat): seq<Node> {
    match FindId(id, n)
    case Some(k) => [CodeRef(k)]
    case None => []
  }

  function ParseTree(text: string): seq<Node> {
    var (working, codes) := Extract(text);
    ParseInner(working, |codes|)
  }

  // ---- From the tree to segments ---------------------------------------------

  function Resolve(nodes: seq<Node>, code: seq<Segment>): seq<Segment> {
    if nodes == [] then [] else ResolveNode(nodes[0], code) + Resolve(nodes[1..], code)
  }

  function ResolveNode(node: Node, code: seq<Segment>): seq<Segment> {
    match node
    case Leaf(content) => [Text(content)]
    case Span(m, inner) => [MakeSpan(m, Resolve(inner, code))]
    case CodeRef(k) => if k < |code| then [code[k]] else []
    case Quote(quoted, _) => [Blockquote(Resolve(quoted, code))]
  }

  function MakeSpan(m: Mark, inner: seq<Segment>): Segment {
    match m
    case Bars => Spoiler(inner)
    case TripleStar => BoldItalic(inner)
    case DoubleStar | DoubleUnderscore => Bold(inner)
    case Star | Underscore => Italic(inner)
    case Tildes => Strikethrough(inner)
  }

  function Segments(codes: seq<Code>): (s: seq<Segment>)
    ensures |s| == |codes|
  {
    seq(|codes|, k requires 0 <= k < |codes| => SegmentOf(codes[k]))
  }

  function Parse(text: string): seq<Segment> {
    Resolve(ParseTree(text), Segments(Extract(text).1))
  }

  // Lemmas on lists of nodes, used by every proof about the parser.

  lemma {:induction false} ResolveConcat(a: seq<Node>, b: seq<Node>, code: seq<Segment>)
    ensures Resolve(a + b, code) == Resolve(a, code) + Resolve(b, code)
  {
    hide Resolve, ResolveNode;
    if a == [] {
      assert a + b == b;
      ResolveEmpty(code);
    } else {
      ResolveConcat(a[1..], b, code);
      assert a + b == [a[0]] + (a[1..] + b) && a == [a[0]] + a[1..];
      ResolveCons(a[0], a[1..] + b, code);
      ResolveCons(a[0], a[1..], code);
    }
  }

  lemma ResolveEmpty(code: seq<Segment>)
    ensures Resolve([], code) == []
  {}

  lemma ResolveCons(x: Node, nodes: seq<Node>, code: seq<Segment>)
    ensures Resolve([x] + nodes, code) == ResolveNode(x, code) + Resolve(nodes, code)
  {
    hide ResolveNode;
    assert ([x] + nodes)[1..] == nodes;
  }

  lemma ResolveOne(x: Node, code: seq<Segment>)
    ensures Resolve([x], code) == ResolveNode(x, code)
  {
    assert [x][1..] == [];
  }

  // ---- Back to source text -----------------------------------------------------

  /** Source text in which every code span is one indivisible token. */
  datatype Token = Ch(c: char) | Ref(k: nat)

  function Chars(s: string): (t: seq<Token>)
    ensures |t| == |s| && forall i :: 0 <= i < |s| ==> t[i] == Ch(s[i])
  {
    seq(|s|, i requires 0 <= i < |s| => Ch(s[i]))
  }

  /** Writes "> " after every newline outside code. */
  function IndentLines(t: seq<Token>): seq<Token> {
    if t == [] then [] else IndentToken(t[0]) + IndentLines(t[1..])
  }

  function IndentToken(x: Token): seq<Token> {
    if x == Ch('\n') then Chars("\n> ") else [x]
  }

  function QuoteLines(t: seq<Token>): seq<Token> { Chars("> ") + IndentLines(t) }

  function Unparse(nodes: seq<Node>): seq<Token> {
    if nodes == [] then [] else UnparseNode(nodes[0]) + Unparse(nodes[1..])
  }

  function UnparseNode(node: Node): seq<Token> {
    match node
    case Leaf(content) => Chars(content)
    case Span(m, inner) => Chars(Delimiter(m)) + Unparse(inner) + Chars(Delimiter(m))
    case CodeRef(k) => [Ref(k)]
    case Quote(quoted, more) => QuoteLines(Unparse(quoted)) + if more then [Ch('\n')] else []
  }

  /** Characters stand for themselves, references for the raw source of their code span. */
  function Flatten(t: seq<Token>, codes: seq<Code>): string {
    if t == [] then ""
    else FlattenToken(t[0], codes) + Flatten(t[1..], codes)
  }

  function FlattenToken(x: Token, codes: seq<Code>): string {
    match x
    case Ch(c) => [c]
    case Ref(k) => if k < |codes| then Raw(codes[k]) else ""
  }

  /** The source text that the parse tree of `text` stands for. */
  function Source(text: string): string {
    Flatten(Unparse(ParseTree(text)), Extract(text).1)
  }

  predicate Contains(s: string, p: string) { exists i :: 0 <= i <= |s| && StartsAt(s, p, i) }

  /** An inline code span encloses a fenced block: its body holds the placeholder of one. */
  predicate InlineEnclosesFence(text: string) {
    var codes := Extract(text).1;
    exists k, f :: 0 <= k < |codes| && 0 <= f < |codes| && codes[k].Inline? && codes[f].Fenced?
                   && Contains(codes[k].body, Id(f))
  }
}
