/** What a list of segments stands for: the ways to write it down. */
module MarkdownSpelling {
  import opened Wrappers
  import opened MarkdownScan
  import opened Markdown
  import opened MarkdownLossless

  /** Source text in which code is kept whole: quoting its lines does not change it. */
  datatype Piece = Letter(c: char) | Kept(raw: string)

  function Letters(s: string): (ps: seq<Piece>)
    ensures |ps| == |s| && forall i :: 0 <= i < |s| ==> ps[i] == Letter(s[i])
  {
    seq(|s|, i requires 0 <= i < |s| => Letter(s[i]))
  }

  function Written(ps: seq<Piece>): string {
    if ps == [] then "" else (match ps[0] case Letter(c) => [c] case Kept(raw) => raw) + Written(ps[1..])
  }

  /** "> " after every newline outside code. */
  function Continued(ps: seq<Piece>): seq<Piece> {
    if ps == [] then []
    else (if ps[0] == Letter('\n') then Letters("\n> ") else [ps[0]]) + Continued(ps[1..])
  }

  function Quoted(ps: seq<Piece>): seq<Piece> { Letters("> ") + Continued(ps) }

  function Wrapped(d: string, ps: seq<Piece>): seq<Piece> { Letters(d) + ps + Letters(d) }

  /** The ways to write a list of segments. */
  ghost predicate Spells(segs: seq<Segment>, ps: seq<Piece>)
    decreases segs, 0
  {
    if segs == [] then ps == []
    else exists a, b :: ps == a + b && SpellsOne(segs[0], a) && Spells(segs[1..], b)
  }

  ghost predicate SpellsOne(seg: Segment, ps: seq<Piece>)
    decreases seg, 1
  {
    match seg
    case Text(content) => ps == Letters(content)
    case Bold(inner) => exists p :: Spells(inner, p) && (ps == Wrapped("**", p) || ps == Wrapped("__", p))
    case Italic(inner) => exists p :: Spells(inner, p) && (ps == Wrapped("*", p) || ps == Wrapped("_", p))
    case BoldItalic(inner) => exists p :: Spells(inner, p) && ps == Wrapped("***", p)
    case Strikethrough(inner) => exists p :: Spells(inner, p) && ps == Wrapped("~~", p)
    case Spoiler(inner) => exists p :: Spells(inner, p) && ps == Wrapped("||", p)
    case CodeInline(code) => ps == [Kept("`" + code + "`")]
    case CodeBlock(body, lang) =>
      ps == [Kept("```" + lang + "\n" + body + "```")] || ps == [Kept("```" + lang + body + "```")]
    case Blockquote(inner) => exists p :: Spells(inner, p) && (ps == Quoted(p) || ps == Quoted(p) + Letters("\n"))
  }

  /** The text is one of the ways to write the segments. */
  ghost predicate Writes(segs: seq<Segment>, text: string) { exists ps :: Spells(segs, ps) && Written(ps) == text }

  // ---- From tokens to pieces -------------------------------------------------------

  function PiecesOf(t: seq<Token>, codes: seq<Code>): seq<Piece> {
    if t == [] then [] else PieceOf(t[0], codes) + PiecesOf(t[1..], codes)
  }

  function PieceOf(x: Token, codes: seq<Code>): seq<Piece> {
    match x
    case Ch(c) => [Letter(c)]
    case Ref(k) => if k < |codes| then [Kept(Raw(codes[k]))] else []
  }

  lemma PiecesCons(x: Token, t: seq<Token>, codes: seq<Code>)
    ensures PiecesOf([x] + t, codes) == PieceOf(x, codes) + PiecesOf(t, codes)
  {
    hide PieceOf;
    assert ([x] + t)[1..] == t;
  }

  lemma PiecesNil(codes: seq<Code>)
    ensures PiecesOf([], codes) == []
  {}

  lemma {:induction false} PiecesConcat(a: seq<Token>, b: seq<Token>, codes: seq<Code>)
    ensures PiecesOf(a + b, codes) == PiecesOf(a, codes) + PiecesOf(b, codes)
  {
    hide PiecesOf, PieceOf;
    if a == [] {
      assert a + b == b;
      PiecesNil(codes);
    } else {
      PiecesConcat(a[1..], b, codes);
      assert a + b == [a[0]] + (a[1..] + b) && a == [a[0]] + a[1..];
      PiecesCons(a[0], a[1..] + b, codes);
      PiecesCons(a[0], a[1..], codes);
    }
  }

  lemma {:induction false} PiecesChars(s: string, codes: seq<Code>)
    ensures PiecesOf(Chars(s), codes) == Letters(s)
  {
    if s == "" {
      PiecesNil(codes);
    } else {
      PiecesChars(s[1..], codes);
      assert Chars(s) == [Ch(s[0])] + Chars(s[1..]) && Letters(s) == [Letter(s[0])] + Letters(s[1..]);
      PiecesCons(Ch(s[0]), Chars(s[1..]), codes);
    }
  }

  lemma ContinuedCons(x: Piece, ps: seq<Piece>)
    ensures Continued([x] + ps) == (if x == Letter('\n') then Letters("\n> ") else [x]) + Continued(ps)
  {
    assert ([x] + ps)[1..] == ps;
  }

  lemma {:induction false} PiecesIndent(t: seq<Token>, codes: seq<Code>)
    ensures PiecesOf(IndentLines(t), codes) == Continued(PiecesOf(t, codes))
  {
    hide PiecesOf, Continued;
    if t == [] {
      PiecesNil(codes);
      ContinuedNil();
    } else {
      var x, rest := t[0], t[1..];
      assert t == [x] + rest;
      PiecesIndent(rest, codes);
      IndentCons(x, rest);
      PiecesConcat(IndentToken(x), IndentLines(rest), codes);
      PiecesCons(x, rest, codes);
      PiecesNil(codes);
      if x == Ch('\n') {
        PiecesChars("\n> ", codes);
        ContinuedCons(Letter('\n'), PiecesOf(rest, codes));
      } else {
        assert [x] + [] == [x];
        PiecesCons(x, [], codes);
        if PieceOf(x, codes) == [] {
          assert [] + PiecesOf(rest, codes) == PiecesOf(rest, codes);
          assert [] + Continued(PiecesOf(rest, codes)) == Continued(PiecesOf(rest, codes));
        } else {
          ContinuedCons(PieceOf(x, codes)[0], PiecesOf(rest, codes));
        }
      }
    }
  }

  lemma ContinuedNil()
    ensures Continued([]) == []
  {}

  lemma {:induction false} WrittenPieces(t: seq<Token>, codes: seq<Code>)
    ensures Written(PiecesOf(t, codes)) == Flatten(t, codes)
  {
    if t != [] {
      hide PiecesOf, Flatten;
      var x, rest := t[0], t[1..];
      assert t == [x] + rest;
      WrittenPieces(rest, codes);
      PiecesCons(x, rest, codes);
      FlattenStep(x, rest, codes);
      if PieceOf(x, codes) == [] {
        assert [] + PiecesOf(rest, codes) == PiecesOf(rest, codes);
      } else {
        assert (PieceOf(x, codes) + PiecesOf(rest, codes))[1..] == PiecesOf(rest, codes);
      }
    }
  }

  lemma FlattenStep(x: Token, t: seq<Token>, codes: seq<Code>)
    ensures Flatten([x] + t, codes) == FlattenToken(x, codes) + Flatten(t, codes)
  {
    assert ([x] + t)[1..] == t;
  }

  // ---- The parser writes what it read ------------------------------------------------

  lemma SpellsCons(seg: Segment, a: seq<Piece>, segs: seq<Segment>, b: seq<Piece>)
    requires SpellsOne(seg, a) && Spells(segs, b)
    ensures Spells([seg] + segs, a + b)
  {
    assert ([seg] + segs)[1..] == segs;
  }

  /** The segments of a parse tree are spelled by the tokens of the tree. */
  lemma {:induction false} SpelledNodes(nodes: seq<Node>, codes: seq<Code>)
    ensures Spells(Resolve(nodes, Segments(codes)), PiecesOf(Unparse(nodes), codes))
    decreases nodes, 0
  {
    hide Spells, SpellsOne, Resolve, Unparse, PiecesOf, Segments;
    var code := Segments(codes);
    if nodes == [] {
      NothingSpelled(codes);
    } else {
      var x, rest := nodes[0], nodes[1..];
      assert nodes == [x] + rest;
      SpelledNodes(rest, codes);
      SpelledNode(x, codes);
      ResolveCons(x, rest, code);
      UnparseCons(x, rest);
      PiecesConcat(UnparseNode(x), Unparse(rest), codes);
      var a, b := PiecesOf(UnparseNode(x), codes), PiecesOf(Unparse(rest), codes);
      if ResolveNode(x, code) == [] {
        assert [] + Resolve(rest, code) == Resolve(rest, code) && [] + b == b;
      } else {
        SpellsCons(ResolveNode(x, code)[0], a, Resolve(rest, code), b);
        assert [ResolveNode(x, code)[0]] == ResolveNode(x, code);
      }
    }
  }

  lemma NothingSpelled(codes: seq<Code>)
    ensures Spells(Resolve([], Segments(codes)), PiecesOf(Unparse([]), codes))
  {}

  lemma {:induction false} SpelledNode(x: Node, codes: seq<Code>)
    ensures var segs, ps := ResolveNode(x, Segments(codes)), PiecesOf(UnparseNode(x), codes);
            (segs == [] && ps == []) || (|segs| == 1 && SpellsOne(segs[0], ps))
    decreases x, 1
  {
    hide Spells, PiecesOf, Unparse, Resolve, IndentLines;
    match x {
      case Leaf(content) => PiecesChars(content, codes);
      case Span(m, inner) =>
        SpelledNodes(inner, codes);
        PiecesWrapped(Delimiter(m), Unparse(inner), codes);
      case CodeRef(k) =>
        PiecesNil(codes);
        PiecesCons(Ref(k), [], codes);
        assert [Ref(k)] + [] == [Ref(k)];
        if k < |codes| { SpelledCode(codes[k]); }
      case Quote(quoted, more) =>
        SpelledNodes(quoted, codes);
        PiecesQuoted(Unparse(quoted), more, codes);
    }
  }

  lemma SpelledCode(c: Code)
    ensures SpellsOne(SegmentOf(c), [Kept(Raw(c))])
  {
    if c.Fenced? && !c.newline {
      assert "```" + c.lang + "" + c.body + "```" == "```" + c.lang + c.body + "```";
    }
  }

  lemma PiecesWrapped(d: string, t: seq<Token>, codes: seq<Code>)
    ensures PiecesOf(Chars(d) + t + Chars(d), codes) == Wrapped(d, PiecesOf(t, codes))
  {
    hide PiecesOf;
    PiecesConcat(Chars(d) + t, Chars(d), codes);
    PiecesConcat(Chars(d), t, codes);
    PiecesChars(d, codes);
  }

  lemma PiecesQuoted(t: seq<Token>, more: bool, codes: seq<Code>)
    ensures PiecesOf(QuoteLines(t) + (if more then [Ch('\n')] else []), codes)
            == Quoted(PiecesOf(t, codes)) + (if more then Letters("\n") else [])
  {
    hide PiecesOf, IndentLines, Continued;
    PiecesConcat(QuoteLines(t), if more then [Ch('\n')] else [], codes);
    PiecesConcat(Chars("> "), IndentLines(t), codes);
    PiecesChars("> ", codes);
    PiecesIndent(t, codes);
    PiecesNil(codes);
    assert Chars("\n") == [Ch('\n')];
    PiecesChars("\n", codes);
  }

  /** The segments of a text, each written with its own delimiters, fences, language, backticks and
      quote marks, give that text back, if it has no sentinel and no inline code encloses a fence. */
  lemma ParsedTextIsWritten(text: string)
    requires SENTINEL !in text && !InlineEnclosesFence(text)
    ensures Writes(Parse(text), text)
  {
    hide Spells, PiecesOf, Unparse, Resolve, Flatten, ParseTree, Extract, InlineEnclosesFence;
    Lossless(text);
    var codes := Extract(text).1;
    SpelledNodes(ParseTree(text), codes);
    WrittenPieces(Unparse(ParseTree(text)), codes);
  }
}
