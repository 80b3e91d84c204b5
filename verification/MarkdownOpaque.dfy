/** Fenced code is opaque: the body of a fence never influences how anything else is parsed. */
module MarkdownOpaque {
  import opened Wrappers
  import opened MarkdownScan
  import opened Markdown
  import opened MarkdownLossless

  /** A text whose first backtick opens a fence with language `lang` on a line of its own. */
  function FencedText(before: string, lang: string, body: string, after: string): string {
    before + (FENCE + (lang + ("\n" + (body + (FENCE + after)))))
  }

  function FenceAt(before: string, lang: string, body: string): FenceMatch {
    var langEnd := |before| + 3 + |lang|;
    FenceMatch(|before|, langEnd, langEnd + 1, langEnd + 1 + |body|)
  }

  /** The pieces of such a text by position. */
  predicate HasPieces(s: string, before: string, lang: string, body: string, after: string) {
    var f := FenceAt(before, lang, body);
    && f.bodyEnd + 3 <= |s|
    && s[..f.open] == before && StartsAt(s, FENCE, f.open) && s[f.open + 3..f.langEnd] == lang
    && s[f.langEnd] == '\n' && s[f.bodyStart..f.bodyEnd] == body
    && StartsAt(s, FENCE, f.bodyEnd) && s[f.bodyEnd + 3..] == after
  }

  lemma Peel(s: string, i: nat, a: string, b: string)
    requires i <= |s| && s[i..] == a + b
    ensures i + |a| <= |s| && s[i..i + |a|] == a && s[i + |a|..] == b
  {
    assert s[i + |a|..] == s[i..][|a|..];
    assert s[i..i + |a|] == s[i..][..|a|];
  }

  lemma PiecesOf(s: string, p: string, fence: string, lang: string, nl: string, body: string, after: string)
    requires s == p + (fence + (lang + (nl + (body + (fence + after)))))
    ensures var a := |p|; var b := a + |fence|; var c := b + |lang|; var d := c + |nl|; var e := d + |body|;
            && e + |fence| <= |s|
            && s[..a] == p && s[a..b] == fence && s[b..c] == lang && s[c..d] == nl && s[d..e] == body
            && s[e..e + |fence|] == fence && s[e + |fence|..] == after
  {
    assert s[0..] == s;
    Peel3(s, 0, p, fence, lang, nl + (body + (fence + after)));
    Peel3(s, |p| + |fence| + |lang|, nl, body, fence, after);
  }

  lemma Peel3(s: string, i: nat, a: string, b: string, c: string, rest: string)
    requires i <= |s| && s[i..] == a + (b + (c + rest))
    ensures var j := i + |a|; var k := j + |b|; var l := k + |c|;
            l <= |s| && s[i..j] == a && s[j..k] == b && s[k..l] == c && s[l..] == rest
  {
    Peel(s, i, a, b + (c + rest));
    Peel(s, i + |a|, b, c + rest);
    Peel(s, i + |a| + |b|, c, rest);
  }

  lemma Pieces(before: string, lang: string, body: string, after: string)
    ensures HasPieces(FencedText(before, lang, body, after), before, lang, body, after)
  {
    PiecesOf(FencedText(before, lang, body, after), before, FENCE, lang, "\n", body, after);
    var s, f := FencedText(before, lang, body, after), FenceAt(before, lang, body);
    assert s[f.langEnd..f.bodyStart][0] == '\n';
  }

  predicate Plain(before: string, lang: string, body: string) {
    && '`' !in before && '`' !in body
    && forall i :: 0 <= i < |lang| ==> IsWordChar(lang[i])
  }

  /** Where the first fence of such a text is matched. */
  lemma FirstFence(s: string, before: string, lang: string, body: string, after: string)
    requires Plain(before, lang, body) && HasPieces(s, before, lang, body, after)
    ensures MatchFence(s, 0) == Some(FenceAt(before, lang, body))
  {
    hide MatchFence;
    var f := FenceAt(before, lang, body);
    PlainFence(s, before, lang, body, after);
    FenceIsFirst(s, f);
  }

  /** The pieces form a fence, with no backtick before it or inside its body. */
  lemma PlainFence(s: string, before: string, lang: string, body: string, after: string)
    requires Plain(before, lang, body) && HasPieces(s, before, lang, body, after)
    ensures var f := FenceAt(before, lang, body);
            && IsFence(s, f) && s[f.langEnd] == '\n' && f.bodyStart == f.langEnd + 1
            && (forall k :: 0 <= k < f.open ==> s[k] != '`')
            && (forall k :: f.bodyStart <= k < f.bodyEnd ==> s[k] != '`')
  {
    var f := FenceAt(before, lang, body);
    assert forall k :: 0 <= k < f.open ==> s[k] == s[..f.open][k];
    assert forall k :: f.open + 3 <= k < f.langEnd ==> s[k] == s[f.open + 3..f.langEnd][k - f.open - 3];
    assert forall k :: f.bodyStart <= k < f.bodyEnd ==> s[k] == s[f.bodyStart..f.bodyEnd][k - f.bodyStart];
  }

  lemma FenceIsFirst(s: string, f: FenceMatch)
    requires IsFence(s, f) && f.langEnd < |s| && s[f.langEnd] == '\n' && f.bodyStart == f.langEnd + 1
    requires forall k :: 0 <= k < f.open ==> s[k] != '`'
    requires forall k :: f.bodyStart <= k < f.bodyEnd ==> s[k] != '`'
    ensures MatchFence(s, 0) == Some(f)
  {
    hide MatchFence, IsFence, IsGreedy, StartsAt;
    var m := Matched(s, f);
    FenceStarts(s, f);
    FenceStarts(s, m);
    assert m.open == f.open;
    SameLanguage(s, f, m);
    assert m.bodyEnd == f.bodyEnd;
  }

  lemma Matched(s: string, f: FenceMatch) returns (m: FenceMatch)
    requires IsFence(s, f)
    ensures MatchFence(s, 0) == Some(m) && IsFence(s, m) && IsGreedy(s, m) && m.open <= f.open
    ensures m.bodyStart <= f.bodyEnd ==> m.bodyEnd <= f.bodyEnd
  {
    hide MatchFence, IsGreedy;
    m := MatchFence(s, 0).value;
  }

  lemma FenceStarts(s: string, f: FenceMatch)
    requires IsFence(s, f)
    ensures f.bodyStart <= f.bodyEnd && f.open < |s| && s[f.open] == '`' && f.bodyEnd < |s| && s[f.bodyEnd] == '`'
  {
    OpensWithBacktick(s, f.open);
    OpensWithBacktick(s, f.bodyEnd);
  }

  lemma SameLanguage(s: string, f: FenceMatch, m: FenceMatch)
    requires IsFence(s, f) && IsFence(s, m) && IsGreedy(s, m) && m.open == f.open
    requires f.langEnd < |s| && s[f.langEnd] == '\n' && f.bodyStart == f.langEnd + 1
    ensures m.langEnd == f.langEnd && m.bodyStart == f.bodyStart
  {
    hide StartsAt;
    assert !IsWordChar(s[f.langEnd]);
  }

  /** Phase 1 on such a text: the fence becomes placeholder 0, and what remains does not
      depend on the body. */
  lemma ExtractFenced(before: string, lang: string, body: string, after: string)
    requires Plain(before, lang, body)
    ensures var (rest, fences) := FencePass(after, 1);
            var fenceFree := before + Id(0) + rest;
            FencePass(FencedText(before, lang, body, after), 0) == (fenceFree, [Fenced(lang, true, body)] + fences)
  {
    var s := FencedText(before, lang, body, after);
    Pieces(before, lang, body, after);
    hide FencedText, FencePass, Id, MatchFence;
    FirstFence(s, before, lang, body, after);
    FencePassStep(s, 0, FenceAt(before, lang, body));
  }

  /** Replacing the body of the fence by any other backtick-free body leaves the parse tree
      as it is and changes the content of code span 0 only. */
  lemma FencedCodeIsOpaque(before: string, lang: string, body: string, body': string, after: string)
    requires Plain(before, lang, body) && Plain(before, lang, body')
    ensures var text, text' := FencedText(before, lang, body, after), FencedText(before, lang, body', after);
            && ParseTree(text') == ParseTree(text)
            && |Extract(text).1| > 0
            && Extract(text).1[0] == Fenced(lang, true, body)
            && Extract(text').1 == Extract(text).1[0 := Fenced(lang, true, body')]
  {
    ExtractFenced(before, lang, body, after);
    ExtractFenced(before, lang, body', after);
    hide FencePass, InlinePass, ParseInner, FencedText, Id;
    var (rest, fences) := FencePass(after, 1);
    var inlines := InlinePass(before + Id(0) + rest, 1 + |fences|).1;
    SwapFirst(Fenced(lang, true, body), Fenced(lang, true, body'), fences, inlines);
  }

  lemma SwapFirst(c: Code, c': Code, fences: seq<Code>, inlines: seq<Code>)
    ensures (([c] + fences) + inlines)[0 := c'] == ([c'] + fences) + inlines
  {}
}
