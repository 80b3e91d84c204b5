/** Texts with several code spans: each span is yielded verbatim, and what stands between two spans is
    parsed as a text of its own. */
module MarkdownCode {
  import opened Wrappers
  import opened MarkdownScan
  import opened Markdown
  import opened MarkdownLossless
  import opened MarkdownOpaque
  import opened MarkdownParser
  import opened MarkdownRules

  /** Some text and the inline code after it. */
  datatype Part = Part(text: string, code: string)

  predicate AllSimple(parts: seq<Part>, last: string) {
    && Simple(last)
    && forall i :: 0 <= i < |parts| ==>
         && Simple(parts[i].text)
         && parts[i].code != "" && '`' !in parts[i].code && '\n' !in parts[i].code
  }

  function SourceOf(parts: seq<Part>, last: string): string {
    if parts == [] then last else InlineText(parts[0].text, parts[0].code, SourceOf(parts[1..], last))
  }

  /** The parts one after the other, each text parsed as if it stood alone. */
  function Read(parts: seq<Part>, last: string): seq<Segment> {
    if parts == [] then Parse(last)
    else Parse(parts[0].text) + [CodeInline(parts[0].code)] + Read(parts[1..], last)
  }

  /** What is left when the codes have been replaced by placeholders, numbered from `k`. */
  function Working(parts: seq<Part>, last: string, k: nat): string {
    if parts == [] then last else parts[0].text + Id(k) + Working(parts[1..], last, k + 1)
  }

  function CodesOf(parts: seq<Part>): (codes: seq<Code>)
    ensures |codes| == |parts| && forall i :: 0 <= i < |parts| ==> codes[i] == Inline(parts[i].code)
  {
    seq(|parts|, i requires 0 <= i < |parts| => Inline(parts[i].code))
  }

  // ---- Extraction --------------------------------------------------------------------

  lemma {:induction false} ExtractParts(parts: seq<Part>, last: string, k: nat)
    requires AllSimple(parts, last)
    ensures InlinePass(SourceOf(parts, last), k) == (Working(parts, last, k), CodesOf(parts))
    decreases |parts|
  {
    hide InlinePass, Id, InlineText;
    if parts == [] {
      NoInline(last, k);
    } else {
      var p, rest := parts[0], parts[1..];
      ExtractParts(rest, last, k + 1);
      OneInline(p.text, p.code, SourceOf(rest, last), k);
      assert [Inline(p.code)] + CodesOf(rest) == CodesOf(parts);
    }
  }

  lemma NoInline(s: string, k: nat)
    requires '`' !in s
    ensures InlinePass(s, k) == (s, [])
  {
    hide MatchRun;
    assert MatchRun(s, '`', 0).None?;
  }

  lemma OneInline(text: string, code: string, after: string, k: nat)
    requires Simple(text) && code != "" && '`' !in code && '\n' !in code
    ensures var (w, codes) := InlinePass(after, k + 1);
            InlinePass(InlineText(text, code, after), k) == (text + Id(k) + w, [Inline(code)] + codes)
  {
    hide InlinePass, Id;
    var tail := "`" + code + "`" + after;
    FirstPass(code, after, k);
    Skipped(text, tail, k);
    var (w, _) := InlinePass(after, k + 1);
    assert text + (Id(k) + w) == text + Id(k) + w;
  }

  // ---- Parsing -----------------------------------------------------------------------

  /** The codes of the parts are stored from number `k` on. */
  predicate Stores(code: seq<Segment>, parts: seq<Part>, k: nat) {
    k + |parts| <= |code| && forall i :: 0 <= i < |parts| ==> code[k + i] == CodeInline(parts[i].code)
  }

  lemma StoresRest(code: seq<Segment>, parts: seq<Part>, k: nat)
    requires Stores(code, parts, k) && parts != []
    ensures Stores(code, parts[1..], k + 1)
  {
    forall i | 0 <= i < |parts[1..]| ensures code[k + 1 + i] == CodeInline(parts[1..][i].code) {
      assert code[k + (i + 1)] == CodeInline(parts[i + 1].code);
    }
  }

  lemma {:induction false} ParseParts(parts: seq<Part>, last: string, k: nat, code: seq<Segment>)
    requires AllSimple(parts, last) && !Marked(last) && Stores(code, parts, k)
    ensures Resolve(ParseLoop(Working(parts, last, k), |code|), code) == Read(parts, last)
    decreases |parts|
  {
    hide ParseLoop, Resolve, Parse, Id;
    if parts == [] {
      ParseSimple(last, |code|, code);
      QuotelessInner(last, |code|);
    } else {
      var p, rest := parts[0], parts[1..];
      StoresRest(code, parts, k);
      ParseParts(rest, last, k + 1, code);
      TextThenCode(p.text, k, Working(rest, last, k + 1), code);
      assert code[k + 0] == CodeInline(p.code);
    }
  }

  /** Text and inline code in turn: every code verbatim, and every text as if it stood alone, so that
      no markup reaches across code. */
  lemma InlineParts(parts: seq<Part>, last: string)
    requires AllSimple(parts, last) && !Contains(SourceOf(parts, last), FENCE)
    requires !Marked(last) && (parts != [] ==> !Marked(parts[0].text))
    ensures Parse(SourceOf(parts, last)) == Read(parts, last)
  {
    hide ParseLoop, ParseInner, Resolve, Parse, InlinePass, FencePass, Id, Contains;
    var text, codes := SourceOf(parts, last), CodesOf(parts);
    NoFence(text, 0);
    ExtractParts(parts, last, 0);
    assert [] + codes == codes;
    assert Extract(text) == (Working(parts, last, 0), codes);
    StoredCodes([], parts);
    assert [] + codes == codes;
    ParseParts(parts, last, 0, Segments(codes));
    if parts != [] { StillUnmarked(parts[0].text, 0, Working(parts[1..], last, 1)); }
    QuotelessInner(Working(parts, last, 0), |codes|);
    ParseIs(text);
  }

  lemma StoredCodes(first: seq<Code>, parts: seq<Part>)
    ensures Stores(Segments(first + CodesOf(parts)), parts, |first|)
  {}

  /** A fenced block between simple text and such a sequence. */
  lemma FenceThenParts(before: string, lang: string, body: string, parts: seq<Part>, last: string)
    requires Plain(before, lang, body) && SENTINEL !in before && !Marked(before)
    requires AllSimple(parts, last) && !Marked(last) && !Contains(SourceOf(parts, last), FENCE)
    ensures Parse(FencedText(before, lang, body, SourceOf(parts, last)))
            == Parse(before) + [CodeBlock(body, lang)] + Read(parts, last)
  {
    hide ParseLoop, ParseInner, Resolve, Parse, InlinePass, FencePass, Id, Contains, FencedText;
    var after := SourceOf(parts, last);
    var text, fence := FencedText(before, lang, body, after), Fenced(lang, true, body);
    var codes := [fence] + CodesOf(parts);
    var working := Working(parts, last, 1);
    ExtractFenced(before, lang, body, after);
    NoFence(after, 1);
    ExtractParts(parts, last, 1);
    InlineSkips(before, after, 1);
    assert [fence] + [] == [fence];
    assert Extract(text) == (before + Id(0) + working, codes);
    StoredCodes([fence], parts);
    ParseParts(parts, last, 1, Segments(codes));
    TextThenCode(before, 0, working, Segments(codes));
    assert Segments(codes)[0] == SegmentOf(fence);
    StillUnmarked(before, 0, working);
    QuotelessInner(before + Id(0) + working, |codes|);
    ParseIs(text);
  }

  // ---- A quote inside a line ---------------------------------------------------------

  predicate Unmarked(s: string) { '*' !in s && '_' !in s && '|' !in s && '~' !in s }

  lemma PlainText(s: string)
    requires Simple(s) && s != "" && !Marked(s) && Unmarked(s)
    ensures Parse(s) == [Text(s)]
  {
    NoDelimiter(s, "||");
    NoDelimiter(s, "***");
    NoDelimiter(s, "**");
    NoDelimiter(s, "__");
    NoDelimiter(s, "~~");
    hide Parse, Encloses;
    MarkupRules(s);
  }

  lemma NoDelimiter(s: string, d: string)
    requires d != "" && d[0] !in s
    ensures NoLazy(s, d)
  {}

  lemma OneQuotedLine(line: string)
    requires Simple(line) && Marked(line) && '\n' !in line
    ensures Parse(line) == [Blockquote(Parse(line[2..]))]
  {
    hide Parse;
    QuoteRule(line);
    assert Lines(line) == [line];
    assert Leading([line]) == 1;
    JoinOne(line[2..]);
    assert Strip([line][..1]) == [line[2..]];
  }

  /** Between two codes a quote mark starts a block quote although it does not start a line. */
  lemma QuoteInsideALine()
    ensures Parse("`a`> b`c`") == [CodeInline("a"), Blockquote([Text("b")]), CodeInline("c")]
  {
    hide Parse, Contains;
    var parts := [Part("", "a"), Part("> b", "c")];
    assert SourceOf(parts[1..][1..], "") == "";
    assert SourceOf(parts[1..], "") == "> b`c`";
    assert SourceOf(parts, "") == "`a`> b`c`";
    assert "> b"[..2] == "> " && "> b"[2..] == "b";
    NoFenceIn("`a`> b`c`");
    PlainText("b");
    OneQuotedLine("> b");
    EmptyText();
    InlineParts(parts, "");
    assert Read(parts[1..][1..], "") == [];
  }

  lemma NoFenceIn(s: string)
    requires forall i :: 0 <= i && i + 1 < |s| ==> s[i] != '`' || s[i + 1] != '`'
    ensures !Contains(s, FENCE)
  {
    forall i | 0 <= i <= |s| ensures !StartsAt(s, FENCE, i) {
      if i + 3 <= |s| { assert s[i..i + 3][0] == s[i] && s[i..i + 3][1] == s[i + 1]; }
    }
  }
}
