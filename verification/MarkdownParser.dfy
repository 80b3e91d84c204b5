/** The parser as it runs: placeholders are collected in a growing list, the two extraction
    passes rewrite the working string, and the recursive phase consumes `remaining` in a loop. */
module MarkdownParser {
  import opened Wrappers
  import opened MarkdownScan
  import opened Markdown
  import opened MarkdownLossless
  import opened MarkdownSpelling

  // ---- Lemmas about the accumulators -----------------------------------------

  lemma SegmentsCons(stored: seq<Segment>, c: Code, own: seq<Code>)
    ensures stored + Segments([c] + own) == stored + [SegmentOf(c)] + Segments(own)
  {}

  lemma FenceTurn(done: string, rest: string, f: FenceMatch, k: nat)
    requires MatchFence(rest, 0) == Some(f)
    ensures IsFence(rest, f) && f.bodyEnd + 3 <= |rest|
    ensures var after := rest[f.bodyEnd + 3..];
            && FencePass(rest, k).1 == [FenceCode(rest, f)] + FencePass(after, k + 1).1
            && done + FencePass(rest, k).0 == done + rest[..f.open] + Id(k) + FencePass(after, k + 1).0
  {
    hide Id, FenceCode, FencePass;
    FencePassStep(rest, k, f);
  }

  lemma InlineTurn(done: string, rest: string, i: nat, j: nat, k: nat)
    requires MatchRun(rest, '`', 0) == Some((i, j))
    ensures IsRunSpan(rest, '`', i, j)
    ensures var after := rest[j + 1..];
            && InlinePass(rest, k).1 == [Inline(rest[i + 1..j])] + InlinePass(after, k + 1).1
            && done + InlinePass(rest, k).0 == done + rest[..i] + Id(k) + InlinePass(after, k + 1).0
  {
    hide Id, MatchRun;
  }

  // ---- Lines -------------------------------------------------------------------

  /** JavaScript's split at newlines: always at least one line. */
  function Lines(s: string): (ls: seq<string>)
    ensures |ls| > 0
    decreases |s|
  {
    var e := RunEnd(s, c => c != '\n', 0);
    if e == |s| then [s] else [s[..e]] + Lines(s[e + 1..])
  }

  function Join(ls: seq<string>): string {
    if |ls| == 0 then "" else if |ls| == 1 then ls[0] else ls[0] + "\n" + Join(ls[1..])
  }

  /** How many leading lines are quoted. */
  function Leading(ls: seq<string>): (q: nat)
    ensures q <= |ls| && AllQuotes(ls[..q])
    ensures q < |ls| ==> !IsQuote(ls[q])
  {
    if ls == [] || !IsQuote(ls[0]) then 0
    else
      var q := Leading(ls[1..]);
      assert ls[..q + 1] == [ls[0]] + ls[1..][..q];
      1 + q
  }

  function Unquote(line: string): string
    requires IsQuote(line)
  {
    line[2..]
  }

  predicate AllQuotes(ls: seq<string>) { forall i :: 0 <= i < |ls| ==> IsQuote(ls[i]) }

  function Strip(ls: seq<string>): (r: seq<string>)
    requires AllQuotes(ls)
    ensures |r| == |ls| && forall i :: 0 <= i < |ls| ==> r[i] == Unquote(ls[i])
  {
    seq(|ls|, i requires 0 <= i < |ls| => Unquote(ls[i]))
  }

  lemma {:induction false} JoinLinesBack(s: string)
    ensures Join(Lines(s)) == s
    decreases |s|
  {
    var e := RunEnd(s, c => c != '\n', 0);
    if e < |s| {
      JoinLinesBack(s[e + 1..]);
      assert Lines(s)[1..] == Lines(s[e + 1..]);
      assert s == s[..e] + "\n" + s[e + 1..];
    }
  }

  /** The split of the specification is the one the line loop computes. */
  lemma {:induction false} QuoteByLines(s: string)
    requires IsQuote(s)
    ensures var ls := Lines(s); var q := Leading(ls);
            && q > 0
            && SplitQuote(s) == (Join(Strip(ls[..q])), if q < |ls| then Some(Join(ls[q..])) else None)
    decreases |s|
  {
    hide IsQuote, Join;
    var e := RunEnd(s, c => c != '\n', 0);
    QuoteStart(s, e);
    if e == |s| {
      assert s[..e] == s && s[2..e] == s[2..];
      JoinOne(s[2..]);
      LeadingCons(s, [], 0);
      assert Lines(s) == [s] + [];
      assert [s[2..]] + Strip([][..0]) == [s[2..]];
    } else {
      var rest := s[e + 1..];
      var ls := Lines(rest);
      FirstIsQuote(rest);
      JoinLinesBack(rest);
      if IsQuote(rest) {
        QuoteByLines(rest);
        LeadingCons(s[..e], ls, Leading(ls));
        JoinCons(s[2..e], Strip(ls[..Leading(ls)]));
      } else {
        LeadingCons(s[..e], ls, 0);
        JoinOne(s[2..e]);
        assert [s[2..e]] + Strip(ls[..0]) == [s[2..e]];
        assert ls[0..] == ls;
      }
    }
  }

  lemma QuoteStart(s: string, e: nat)
    requires IsQuote(s) && e <= |s| && (e < |s| ==> s[e] == '\n')
    ensures 2 <= e && IsQuote(s[..e]) && Unquote(s[..e]) == s[2..e]
  {
    assert s[0] == s[0..2][0] && s[1] == s[0..2][1];
    assert s[..e][0..2] == s[0..2];
  }

  lemma JoinOne(line: string)
    ensures Join([line]) == line
  {}

  lemma JoinCons(line: string, ls: seq<string>)
    requires ls != []
    ensures Join([line] + ls) == line + "\n" + Join(ls)
  {
    assert ([line] + ls)[1..] == ls;
  }

  /** One more quoted line in front. */
  lemma LeadingCons(line: string, ls: seq<string>, q: nat)
    requires IsQuote(line) && q == Leading(ls)
    ensures Leading([line] + ls) == q + 1
    ensures ([line] + ls)[q + 1..] == ls[q..]
    ensures Strip(([line] + ls)[..q + 1]) == [Unquote(line)] + Strip(ls[..q])
  {
    assert ([line] + ls)[1..] == ls;
    assert ([line] + ls)[..q + 1] == [line] + ls[..q];
  }

  lemma FirstIsQuote(s: string)
    ensures IsQuote(Lines(s)[0]) <==> IsQuote(s)
  {
    var e := RunEnd(s, c => c != '\n', 0);
    if IsQuote(s) {
      assert s[0] == s[0..2][0] && s[1] == s[0..2][1];
    }
    if |s| >= 2 && e >= 2 {
      assert s[..e][0..2] == s[0..2];
    }
  }

  // ---- The parser --------------------------------------------------------------

  datatype Placeholder = Placeholder(id: string, segment: Segment)

  class Parser {
    var counter: nat
    var placeholders: seq<Placeholder>

    /** Placeholder k has the k-th identity. */
    ghost predicate Valid()
      reads this
    {
      && counter == |placeholders|
      && forall k :: 0 <= k < counter ==> placeholders[k].id == Id(k)
    }

    ghost function Stored(): (s: seq<Segment>)
      reads this
      ensures |s| == |placeholders|
    {
      seq(|placeholders|, k requires 0 <= k < |placeholders| reads this => placeholders[k].segment)
    }

    constructor ()
      ensures Valid() && Stored() == []
    {
      counter, placeholders := 0, [];
    }

    method AddPlaceholder(seg: Segment) returns (id: string)
      requires Valid()
      modifies this
      ensures Valid()
      ensures id == Id(old(counter)) && counter == old(counter) + 1
      ensures Stored() == old(Stored()) + [seg]
    {
      hide Id;
      id := Id(counter);
      counter := counter + 1;
      placeholders := placeholders + [Placeholder(id, seg)];
    }

    method ExtractFences(text: string) returns (working: string)
      requires Valid()
      modifies this
      ensures Valid()
      ensures working == FencePass(text, old(counter)).0
      ensures Stored() == old(Stored()) + Segments(FencePass(text, old(counter)).1)
    {
      hide MatchFence, Id, Segments;
      working := "";
      var rest := text;
      var m := MatchFence(rest, 0);
      while m.Some?
        invariant Valid() && m == MatchFence(rest, 0)
        invariant working + FencePass(rest, counter).0 == FencePass(text, old(counter)).0
        invariant Stored() + Segments(FencePass(rest, counter).1)
               == old(Stored()) + Segments(FencePass(text, old(counter)).1)
        decreases |rest|
      {
        var f := m.value;
        FenceTurn(working, rest, f, counter);
        SegmentsCons(Stored(), FenceCode(rest, f), FencePass(rest[f.bodyEnd + 3..], counter + 1).1);
        var id := AddPlaceholder(CodeBlock(rest[f.bodyStart..f.bodyEnd], rest[f.open + 3..f.langEnd]));
        working := working + rest[..f.open] + id;
        rest := rest[f.bodyEnd + 3..];
        m := MatchFence(rest, 0);
      }
      working := working + rest;
      assert Segments([]) == [] by { SegmentsEmpty(); }
    }

    method ExtractInline(text: string) returns (working: string)
      requires Valid()
      modifies this
      ensures Valid()
      ensures working == InlinePass(text, old(counter)).0
      ensures Stored() == old(Stored()) + Segments(InlinePass(text, old(counter)).1)
    {
      hide MatchRun, Id, Segments;
      working := "";
      var rest := text;
      var m := MatchRun(rest, '`', 0);
      while m.Some?
        invariant Valid() && m == MatchRun(rest, '`', 0)
        invariant working + InlinePass(rest, counter).0 == InlinePass(text, old(counter)).0
        invariant Stored() + Segments(InlinePass(rest, counter).1)
               == old(Stored()) + Segments(InlinePass(text, old(counter)).1)
        decreases |rest|
      {
        var (i, j) := m.value;
        InlineTurn(working, rest, i, j, counter);
        SegmentsCons(Stored(), Inline(rest[i + 1..j]), InlinePass(rest[j + 1..], counter + 1).1);
        var id := AddPlaceholder(CodeInline(rest[i + 1..j]));
        working := working + rest[..i] + id;
        rest := rest[j + 1..];
        m := MatchRun(rest, '`', 0);
      }
      working := working + rest;
      assert Segments([]) == [] by { SegmentsEmpty(); }
    }

    static lemma SegmentsEmpty()
      ensures Segments([]) == []
    {}

    method SplitQuoteLines(s: string) returns (quoteLines: seq<string>, rest: seq<string>)
      requires IsQuote(s)
      ensures SplitQuote(s) == (Join(quoteLines), if rest != [] then Some(Join(rest)) else None)
    {
      var lines := Lines(s);
      ghost var q := Leading(lines);
      quoteLines, rest := [], [];
      var inQuote := true;
      for i := 0 to |lines|
        invariant inQuote <==> i <= q
        invariant inQuote ==> quoteLines == Strip(lines[..i]) && rest == []
        invariant !inQuote ==> quoteLines == Strip(lines[..q]) && rest == lines[q..i]
      {
        var line := lines[i];
        if inQuote && IsQuote(line) {
          quoteLines := quoteLines + [Unquote(line)];
        } else {
          inQuote := false;
          rest := rest + [line];
        }
      }
      QuoteByLines(s);
      assert lines[..|lines|] == lines;
      assert lines[q..|lines|] == lines[q..];
    }

    method FindPlaceholder(id: string) returns (segments: seq<Segment>)
      requires Valid()
      ensures segments == Resolve(Reference(id, counter), Stored())
    {
      hide Id;
      for k := 0 to counter
        invariant forall i :: 0 <= i < k ==> Id(i) != id
      {
        if placeholders[k].id == id {
          FirstId(id, k, counter);
          ResolveOne(CodeRef(k), Stored());
          return [placeholders[k].segment];
        }
      }
      return [];
    }

    static lemma FirstId(id: string, k: nat, n: nat)
      requires k < n && Id(k) == id
      ensures FindId(id, n) == Some(k)
    {
      FindOwnId(k, n);
    }

    /** The pattern loop: the first pattern of the list that matches anywhere. */
    method FindMark(remaining: string) returns (found: Option<(Mark, nat, nat)>)
      ensures found == FirstMark(remaining, 0)
    {
      hide MatchMark;
      for k := 0 to |PATTERNS|
        invariant FirstMark(remaining, 0) == FirstMark(remaining, k)
      {
        var m := MatchMark(remaining, PATTERNS[k]);
        if m.Some? {
          return Some((PATTERNS[k], m.value.0, m.value.1));
        }
      }
      return None;
    }

    method ParseInner(s: string) returns (result: seq<Segment>)
      requires Valid()
      ensures result == Resolve(Markdown.ParseInner(s, counter), Stored())
      decreases |s|, 1
    {
      if IsQuote(s) {
        result := ParseQuote(s);
        return;
      }
      hide FirstMark, MatchPlaceholder, ParseLoop;
      result := [];
      var remaining := s;
      while |remaining| > 0
        invariant |remaining| <= |s|
        invariant result + Resolve(ParseLoop(remaining, counter), Stored()) == Resolve(ParseLoop(s, counter), Stored())
        decreases |remaining|
      {
        var turn;
        turn, remaining := ParseTurn(remaining);
        result := result + turn;
      }
      assert ParseLoop("", counter) == [] by { EmptyLoop(counter); }
    }

    static lemma EmptyLoop(n: nat)
      ensures ParseLoop("", n) == []
    {}

    /** One turn of the loop: the segments it pushes and the text left over. */
    method ParseTurn(remaining: string) returns (turn: seq<Segment>, rest: string)
      requires Valid() && remaining != ""
      ensures |rest| < |remaining|
      ensures turn + Resolve(ParseLoop(rest, counter), Stored()) == Resolve(ParseLoop(remaining, counter), Stored())
      decreases |remaining|, 0
    {
      hide FirstMark, MatchPlaceholder, IsPlaceholder, ParseLoop, Markdown.ParseInner, Reference, Resolve;
      var ph := MatchPlaceholder(remaining, 0);
      if ph.Some? {
        var (i, j) := ph.value;
        PlaceholderTurn(remaining, i, j, counter, Stored());
        turn := [];
        if i > 0 {
          turn := ParseInner(remaining[..i]);
        }
        var found := FindPlaceholder(remaining[i..j]);
        turn := turn + found;
        rest := remaining[j..];
      } else {
        var found := FindMark(remaining);
        if found.Some? {
          var (m, i, j) := found.value;
          var w := |Delimiter(m)|;
          MarkTurn(remaining, m, i, j, counter, Stored());
          var inner := ParseInner(remaining[i + w..j]);
          turn := (if i > 0 then [Text(remaining[..i])] else []) + [MakeSpan(m, inner)];
          rest := remaining[j + w..];
        } else {
          LeafTurn(remaining, counter, Stored());
          turn := [Text(remaining)];
          rest := "";
        }
      }
    }

    static lemma PlaceholderTurn(s: string, i: nat, j: nat, n: nat, code: seq<Segment>)
      requires s != "" && MatchPlaceholder(s, 0) == Some((i, j))
      ensures 0 <= i < j <= |s|
      ensures Resolve(ParseLoop(s, n), code)
           == (if i > 0 then Resolve(Markdown.ParseInner(s[..i], n), code) else [])
              + Resolve(Reference(s[i..j], n), code) + Resolve(ParseLoop(s[j..], n), code)
    {
      hide FirstMark, MatchPlaceholder, Resolve, Markdown.ParseInner, Reference;
      var first := if i > 0 then Markdown.ParseInner(s[..i], n) else [];
      ResolveConcat(first + Reference(s[i..j], n), ParseLoop(s[j..], n), code);
      ResolveConcat(first, Reference(s[i..j], n), code);
      ResolveEmpty(code);
    }

    static lemma MarkTurn(s: string, m: Mark, i: nat, j: nat, n: nat, code: seq<Segment>)
      requires s != "" && MatchPlaceholder(s, 0).None? && FirstMark(s, 0) == Some((m, i, j))
      ensures IsLazySpan(s, Delimiter(m), i, j)
      ensures var w := |Delimiter(m)|;
              Resolve(ParseLoop(s, n), code)
              == (if i > 0 then [Text(s[..i])] else [])
                 + [MakeSpan(m, Resolve(Markdown.ParseInner(s[i + w..j], n), code))]
                 + Resolve(ParseLoop(s[j + w..], n), code)
    {
      hide FirstMark, MatchPlaceholder, Markdown.ParseInner, Delimiter, MakeSpan, ParseMark;
      assert ParseLoop(s, n) == ParseMark(s, m, i, j, n);
      SpanTurn(s, m, i, j, n, code);
    }

    static lemma SpanTurn(s: string, m: Mark, i: nat, j: nat, n: nat, code: seq<Segment>)
      requires IsLazySpan(s, Delimiter(m), i, j)
      ensures var w := |Delimiter(m)|;
              Resolve(ParseMark(s, m, i, j, n), code)
              == (if i > 0 then [Text(s[..i])] else [])
                 + [MakeSpan(m, Resolve(Markdown.ParseInner(s[i + w..j], n), code))]
                 + Resolve(ParseLoop(s[j + w..], n), code)
    {
      hide Markdown.ParseInner, ParseLoop, Delimiter, MakeSpan, Resolve;
      var w := |Delimiter(m)|;
      var first := if i > 0 then [Leaf(s[..i])] else [];
      var span := Span(m, Markdown.ParseInner(s[i + w..j], n));
      ResolveConcat(first + [span], ParseLoop(s[j + w..], n), code);
      ResolveConcat(first, [span], code);
      ResolveOne(span, code);
      ResolveOne(Leaf(s[..i]), code);
      ResolveEmpty(code);
    }

    static lemma LeafTurn(s: string, n: nat, code: seq<Segment>)
      requires s != "" && MatchPlaceholder(s, 0).None? && FirstMark(s, 0).None?
      ensures Resolve(ParseLoop(s, n), code) == [Text(s)] && Resolve(ParseLoop("", n), code) == []
    {
      hide FirstMark, MatchPlaceholder;
      ResolveOne(Leaf(s), code);
    }

    method ParseQuote(s: string) returns (result: seq<Segment>)
      requires Valid() && IsQuote(s)
      ensures result == Resolve(Markdown.ParseInner(s, counter), Stored())
      decreases |s|, 0
    {
      hide SplitQuote, IsQuote;
      var quoteLines, rest := SplitQuoteLines(s);
      var quoted := ParseInner(Join(quoteLines));
      result := [Blockquote(quoted)];
      ghost var q := Quote(Markdown.ParseInner(Join(quoteLines), counter), rest != []);
      ResolveOne(q, Stored());
      ghost var tail: seq<Node> := [];
      if rest != [] {
        var more := ParseInner(Join(rest));
        result := result + more;
        tail := Markdown.ParseInner(Join(rest), counter);
      }
      ResolveConcat([q], tail, Stored());
      assert Markdown.ParseInner(s, counter) == [q] + tail;
    }
  }

  method ParseMarkdown(text: string) returns (segments: seq<Segment>)
    ensures segments == Parse(text)
    ensures SENTINEL !in text && !InlineEnclosesFence(text) ==> Writes(segments, text)
  {
    if SENTINEL !in text && !InlineEnclosesFence(text) { ParsedTextIsWritten(text); }
    hide InlineEnclosesFence, Writes;
    if text == "" {
      EmptyText();
      return [];
    }
    hide FencePass, InlinePass, Markdown.ParseInner, Segments, Resolve, Parse;
    var parser := new Parser();
    var fenceFree := parser.ExtractFences(text);
    var working := parser.ExtractInline(fenceFree);
    segments := parser.ParseInner(working);
    BothPasses(text, parser.counter, parser.Stored());
  }

  /** What both extraction passes leave behind is what `Extract` describes. */
  lemma BothPasses(text: string, n: nat, stored: seq<Segment>)
    requires var (fenceFree, fences) := FencePass(text, 0);
             var inlines := InlinePass(fenceFree, |fences|).1;
             stored == [] + Segments(fences) + Segments(inlines) && n == |stored|
    ensures Parse(text)
            == Resolve(Markdown.ParseInner(InlinePass(FencePass(text, 0).0, |FencePass(text, 0).1|).0, n), stored)
  {
    hide FencePass, InlinePass, Markdown.ParseInner, Resolve, Segments;
    var (fenceFree, fences) := FencePass(text, 0);
    SegmentsConcat(fences, InlinePass(fenceFree, |fences|).1);
  }

  lemma EmptyText()
    ensures Parse("") == []
  {
    NoBacktick("");
    assert !IsQuote("");
  }

  lemma SegmentsConcat(a: seq<Code>, b: seq<Code>)
    ensures Segments(a + b) == Segments(a) + Segments(b)
  {}
}
