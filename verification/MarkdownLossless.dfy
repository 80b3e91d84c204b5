/** No character is lost: writing the parse tree back gives the source text. */
module MarkdownLossless {
  import opened Wrappers
  import opened MarkdownScan
  import opened Markdown

  // ---- Tokens and the working string -----------------------------------------

  /** The working string: references are written as their placeholders. */
  function Encode(t: seq<Token>): string {
    if t == [] then "" else EncodeToken(t[0]) + Encode(t[1..])
  }

  function EncodeToken(x: Token): (s: string)
    ensures |s| > 0
  {
    match x
    case Ch(c) => [c]
    case Ref(k) => Id(k)
  }

  /** No stray sentinel, and every reference below `n`. */
  predicate Canonical(t: seq<Token>, n: nat) {
    forall i :: 0 <= i < |t| ==> match t[i] case Ch(c) => c != SENTINEL case Ref(k) => k < n
  }

  /** No code span is referred to twice. */
  predicate Once(t: seq<Token>) {
    forall i, j :: 0 <= i < j < |t| && t[i].Ref? ==> t[i] != t[j]
  }

  predicate RefsFrom(t: seq<Token>, k: nat) {
    forall i :: 0 <= i < |t| && t[i].Ref? ==> k <= t[i].k
  }

  predicate NoRefs(t: seq<Token>) { forall i :: 0 <= i < |t| ==> t[i].Ch? }

  lemma CanonicalConcat(a: seq<Token>, b: seq<Token>, n: nat)
    ensures Canonical(a + b, n) <==> Canonical(a, n) && Canonical(b, n)
  {
    if Canonical(a + b, n) {
      assert forall i :: 0 <= i < |a| ==> (a + b)[i] == a[i];
      assert forall i :: 0 <= i < |b| ==> (a + b)[|a| + i] == b[i];
    }
  }

  lemma {:induction false} EncodeConcat(a: seq<Token>, b: seq<Token>)
    ensures Encode(a + b) == Encode(a) + Encode(b)
  {
    hide Encode, EncodeToken;
    if a == [] {
      assert a + b == b;
      EncodeNil();
    } else {
      EncodeConcat(a[1..], b);
      assert a + b == [a[0]] + (a[1..] + b) && a == [a[0]] + a[1..];
      EncodeCons(a[0], a[1..] + b);
      EncodeCons(a[0], a[1..]);
    }
  }

  lemma EncodeNil()
    ensures Encode([]) == ""
  {}

  lemma EncodeCons(x: Token, t: seq<Token>)
    ensures Encode([x] + t) == EncodeToken(x) + Encode(t)
  {
    hide EncodeToken;
    assert ([x] + t)[1..] == t;
  }

  lemma Encode3(a: seq<Token>, x: Token, b: seq<Token>)
    ensures Encode(a + [x] + b) == Encode(a) + EncodeToken(x) + Encode(b)
  {
    hide EncodeToken;
    EncodeConcat(a + [x], b);
    EncodeConcat(a, [x]);
    assert [x][1..] == [];
  }

  lemma EncodeCh(a: seq<Token>, c: char, b: seq<Token>)
    ensures Encode(a + [Ch(c)] + b) == Encode(a) + [c] + Encode(b)
  {
    Encode3(a, Ch(c), b);
  }

  lemma {:induction false} EncodeChars(s: string)
    ensures Encode(Chars(s)) == s
  {
    if s != "" {
      EncodeChars(s[1..]);
      assert Chars(s)[1..] == Chars(s[1..]);
    }
  }

  lemma {:induction false} NoRefsIsChars(t: seq<Token>)
    requires NoRefs(t)
    ensures t == Chars(Encode(t))
  {
    if t != [] {
      NoRefsIsChars(t[1..]);
      assert t == [t[0]] + t[1..];
    }
  }

  lemma CharsConcat(a: string, b: string)
    ensures Chars(a + b) == Chars(a) + Chars(b)
  {}

  lemma {:induction false} FlattenConcat(a: seq<Token>, b: seq<Token>, codes: seq<Code>)
    ensures Flatten(a + b, codes) == Flatten(a, codes) + Flatten(b, codes)
  {
    hide FlattenToken;
    if a == [] {
      assert a + b == b;
    } else {
      FlattenConcat(a[1..], b, codes);
      assert (a + b)[1..] == a[1..] + b;
    }
  }

  lemma Flatten3(a: seq<Token>, x: Token, b: seq<Token>, codes: seq<Code>)
    ensures Flatten(a + [x] + b, codes) == Flatten(a, codes) + FlattenToken(x, codes) + Flatten(b, codes)
  {
    hide FlattenToken;
    FlattenConcat(a + [x], b, codes);
    FlattenConcat(a, [x], codes);
    assert [x][1..] == [];
  }

  lemma {:induction false} FlattenChars(s: string, codes: seq<Code>)
    ensures Flatten(Chars(s), codes) == s
  {
    if s != "" {
      FlattenChars(s[1..], codes);
      assert Chars(s)[1..] == Chars(s[1..]);
    }
  }

  lemma {:induction false} UnparseConcat(a: seq<Node>, b: seq<Node>)
    ensures Unparse(a + b) == Unparse(a) + Unparse(b)
  {
    hide Unparse, UnparseNode;
    if a == [] {
      assert a + b == b;
      UnparseNil();
    } else {
      UnparseConcat(a[1..], b);
      assert a + b == [a[0]] + (a[1..] + b) && a == [a[0]] + a[1..];
      UnparseCons(a[0], a[1..] + b);
      UnparseCons(a[0], a[1..]);
    }
  }

  lemma UnparseCons(x: Node, nodes: seq<Node>)
    ensures Unparse([x] + nodes) == UnparseNode(x) + Unparse(nodes)
  {
    hide UnparseNode;
    assert ([x] + nodes)[1..] == nodes;
  }

  lemma Unparse3(a: seq<Node>, x: Node, b: seq<Node>)
    ensures Unparse(a + [x] + b) == Unparse(a) + UnparseNode(x) + Unparse(b)
  {
    hide UnparseNode;
    UnparseConcat(a + [x], b);
    UnparseConcat(a, [x]);
    assert [x][1..] == [];
  }

  // ---- Placeholder identities --------------------------------------------------

  lemma {:induction false} DigitsInjective(m: nat, n: nat)
    requires Digits(m) == Digits(n)
    ensures m == n
  {
    var d := "0123456789";
    assert forall i, j :: 0 <= i < j < 10 ==> d[i] != d[j];
    if m >= 10 && n >= 10 {
      assert Digits(m) == Digits(m / 10) + [d[m % 10]] && Digits(n) == Digits(n / 10) + [d[n % 10]];
      assert Digits(m)[..|Digits(m)| - 1] == Digits(m / 10);
      assert Digits(n)[..|Digits(n)| - 1] == Digits(n / 10);
      DigitsInjective(m / 10, n / 10);
      assert d[m % 10] == d[n % 10];
    }
  }

  lemma IdInjective(m: nat, n: nat)
    requires Id(m) == Id(n)
    ensures m == n
  {
    assert Id(m)[|PREFIX|..|Id(m)| - 1] == Digits(m);
    assert Id(n)[|PREFIX|..|Id(n)| - 1] == Digits(n);
    DigitsInjective(m, n);
  }

  lemma FindOwnId(k: nat, n: nat)
    requires k < n
    ensures FindId(Id(k), n) == Some(k)
  {
    IdInjective(FindId(Id(k), n).value, k);
  }

  /** A placeholder contains no newline, backtick or ">", and starts with the sentinel. */
  lemma IdShape(k: nat, i: nat)
    requires i < |Id(k)|
    ensures Id(k)[i] !in {'\n', '`', '>'} && Id(k)[0] == SENTINEL
  {
    if |PREFIX| <= i < |PREFIX| + |Digits(k)| {
      assert Id(k)[i] == Digits(k)[i - |PREFIX|];
    }
  }

  lemma OwnShape(k: nat)
    ensures IsPlaceholder(Id(k), 0, |Id(k)|)
  {
    var s := Id(k);
    assert s[0..|PREFIX|] == PREFIX;
    forall q | |PREFIX| <= q < |s| - 1 ensures IsDigit(s[q]) {
      assert s[q] == Digits(k)[q - |PREFIX|];
    }
  }

  lemma Shifted(x: string, m: string, y: string)
    requires IsPlaceholder(m, 0, |m|)
    ensures IsPlaceholder(x + m + y, |x|, |x| + |m|)
  {
    var s := x + m + y;
    assert s[|x|..|x| + |PREFIX|] == m[0..|PREFIX|];
    assert forall q :: |x| <= q < |x| + |m| ==> s[q] == m[q - |x|];
  }

  /** The placeholder search finds the first reference of the working string. */
  lemma FirstReference(x: string, k: nat, y: string)
    requires SENTINEL !in x
    ensures MatchPlaceholder(x + Id(k) + y, 0) == Some((|x|, |x| + |Id(k)|))
  {
    OwnShape(k);
    hide Id, MatchPlaceholder, IsPlaceholder;
    var s := x + Id(k) + y;
    Shifted(x, Id(k), y);
    assert forall i :: 0 <= i < |x| ==> s[i] == x[i] != SENTINEL;
    var m := MatchPlaceholder(s, 0).value;
    PlaceholderStart(s, m.0, m.1);
  }

  lemma PlaceholderStart(s: string, i: nat, j: nat)
    requires IsPlaceholder(s, i, j)
    ensures i < |s| && s[i] == SENTINEL
  {
    SentinelAt(s, i);
  }

  lemma NoReference(s: string)
    requires SENTINEL !in s
    ensures MatchPlaceholder(s, 0).None?
  {
    forall i, j | IsPlaceholder(s, i, j) ensures false { SentinelAt(s, i); }
  }

  lemma SentinelAt(s: string, i: nat)
    requires StartsAt(s, PREFIX, i)
    ensures i < |s| && s[i] == SENTINEL
  {
    assert s[i..i + |PREFIX|][0] == SENTINEL;
  }

  lemma Slices(x: string, m: string, y: string)
    ensures var s := x + m + y; s[..|x|] == x && s[|x|..|x| + |m|] == m && s[|x| + |m|..] == y
  {}

  lemma FirstRef(t: seq<Token>) returns (p: nat)
    requires !NoRefs(t)
    ensures p < |t| && t[p].Ref? && NoRefs(t[..p])
  {
    p := 0;
    while t[p].Ch?
      invariant p < |t| && NoRefs(t[..p])
      decreases |t| - p
    {
      p := p + 1;
    }
  }

  // ---- Splitting tokens where the working string is split --------------------

  /** A newline, backtick or ">" of the working string is a token of its own. */
  lemma {:induction false} Boundary(t: seq<Token>, i: nat) returns (p: nat)
    requires i < |Encode(t)| && Encode(t)[i] in {'\n', '`', '>'}
    ensures p < |t| && t[p] == Ch(Encode(t)[i]) && |Encode(t[..p])| == i
  {
    hide Id;
    var head := EncodeToken(t[0]);
    if i < |head| {
      if t[0].Ref? { IdShape(t[0].k, i); }
      p := 0;
    } else {
      var q := Boundary(t[1..], i - |head|);
      p := q + 1;
      assert t[..p][1..] == t[1..][..q];
    }
  }

  lemma SplitAt(t: seq<Token>, i: nat) returns (a: seq<Token>, b: seq<Token>)
    requires i < |Encode(t)| && Encode(t)[i] in {'\n', '`', '>'}
    ensures t == a + [Ch(Encode(t)[i])] + b
    ensures Encode(a) == Encode(t)[..i] && Encode(b) == Encode(t)[i + 1..]
  {
    hide Encode, EncodeToken;
    var p := Boundary(t, i);
    a, b := t[..p], t[p + 1..];
    assert a + [t[p]] + b == t;
    EncodeCh(a, Encode(t)[i], b);
    Slices(Encode(a), [Encode(t)[i]], Encode(b));
  }

  /** The quote splitter of the parser splits the tokens at line ends. */
  lemma {:induction false} QuoteTokens(t: seq<Token>, n: nat) returns (q: seq<Token>, rest: seq<Token>)
    requires Canonical(t, n) && IsQuote(Encode(t))
    ensures Canonical(q, n) && Canonical(rest, n)
    ensures var r := SplitQuote(Encode(t)).1;
            && SplitQuote(Encode(t)).0 == Encode(q)
            && (r.Some? ==> r.value == Encode(rest) && t == QuoteLines(q) + [Ch('\n')] + rest)
            && (r.None? ==> t == QuoteLines(q))
    decreases |t|
  {
    hide Encode, Canonical, SplitQuote, IsQuote;
    var s := Encode(t);
    var u := QuotePrefix(t, n);
    var e := RunEnd(s, c => c != '\n', 0);
    SplitStep(s, e);
    if e == |s| {
      q, rest := u, [];
      NoNewline(u);
      EmptyCanonical(n);
    } else {
      var line, tail := FirstLine(u, s, e, n);
      NoNewline(line);
      if IsQuote(Encode(tail)) {
        var q';
        q', rest := QuoteTokens(tail, n);
        q := line + [Ch('\n')] + q';
        JoinLines(line, q', n);
        Reassociate(t, line, tail, q', rest);
      } else {
        q, rest := line, tail;
      }
    }
  }

  lemma Reassociate(t: seq<Token>, line: seq<Token>, tail: seq<Token>, q: seq<Token>, rest: seq<Token>)
    requires t == Chars("> ") + (line + [Ch('\n')] + tail)
    ensures tail == QuoteLines(q) ==> t == Chars("> ") + line + [Ch('\n')] + QuoteLines(q)
    ensures tail == QuoteLines(q) + [Ch('\n')] + rest
            ==> t == Chars("> ") + line + [Ch('\n')] + QuoteLines(q) + [Ch('\n')] + rest
  {
    hide QuoteLines, Chars;
  }

  /** One line of the quote splitter. */
  lemma SplitStep(s: string, e: nat)
    requires IsQuote(s) && e == RunEnd(s, c => c != '\n', 0)
    ensures 2 <= e <= |s|
    ensures '\n' !in s[2..e]
    ensures e == |s| ==> SplitQuote(s) == (s[2..], None)
    ensures e < |s| ==> s[e] == '\n'
    ensures e < |s| && !IsQuote(s[e + 1..]) ==> SplitQuote(s) == (s[2..e], Some(s[e + 1..]))
    ensures e < |s| && IsQuote(s[e + 1..])
            ==> SplitQuote(s) == (s[2..e] + "\n" + SplitQuote(s[e + 1..]).0, SplitQuote(s[e + 1..]).1)
  {
    StartsQuote(s);
    hide IsQuote;
  }

  lemma EmptyCanonical(n: nat)
    ensures Canonical([], n)
  {}

  /** The first line of a quote and the text after it. */
  lemma FirstLine(u: seq<Token>, s: string, e: nat, n: nat) returns (line: seq<Token>, tail: seq<Token>)
    requires 2 <= e < |s| && s[e] == '\n' && Encode(u) == s[2..] && Canonical(u, n)
    ensures u == line + [Ch('\n')] + tail
    ensures Encode(line) == s[2..e] && Encode(tail) == s[e + 1..]
    ensures Canonical(line, n) && Canonical(tail, n)
  {
    hide Encode;
    line, tail := SplitAt(u, e - 2);
    CanonicalConcat(line + [Ch('\n')], tail, n);
    CanonicalConcat(line, [Ch('\n')], n);
  }

  lemma Indent3(line: seq<Token>, rest: seq<Token>)
    requires IndentLines(line) == line
    ensures IndentLines(line + [Ch('\n')] + rest) == line + [Ch('\n')] + Chars("> ") + IndentLines(rest)
  {
    var tail := [Ch('\n')] + rest;
    assert line + [Ch('\n')] + rest == line + tail;
    IndentConcat(line, tail);
    NewlineFirst(rest);
    hide IndentLines, Chars;
  }

  lemma NewlineFirst(rest: seq<Token>)
    ensures IndentLines([Ch('\n')] + rest) == [Ch('\n')] + Chars("> ") + IndentLines(rest)
  {
    assert ([Ch('\n')] + rest)[1..] == rest;
    assert Chars("\n> ") == [Ch('\n')] + Chars("> ");
  }

  lemma JoinLines(line: seq<Token>, rest: seq<Token>, n: nat)
    requires IndentLines(line) == line && Canonical(line, n) && Canonical(rest, n)
    ensures Canonical(line + [Ch('\n')] + rest, n)
    ensures Encode(line + [Ch('\n')] + rest) == Encode(line) + "\n" + Encode(rest)
    ensures QuoteLines(line + [Ch('\n')] + rest) == Chars("> ") + line + [Ch('\n')] + QuoteLines(rest)
  {
    hide IndentLines, Chars, Encode;
    CanonicalConcat(line + [Ch('\n')], rest, n);
    CanonicalConcat(line, [Ch('\n')], n);
    EncodeCh(line, '\n', rest);
    Indent3(line, rest);
    var i := IndentLines(rest);
    assert Chars("> ") + (line + [Ch('\n')] + Chars("> ") + i)
        == Chars("> ") + line + [Ch('\n')] + (Chars("> ") + i);
  }

  lemma QuotePrefix(t: seq<Token>, n: nat) returns (u: seq<Token>)
    requires Canonical(t, n) && IsQuote(Encode(t))
    ensures t == Chars("> ") + u && Encode(u) == Encode(t)[2..]
    ensures Canonical(u, n)
  {
    var s := Encode(t);
    StartsQuote(s);
    hide IsQuote, Encode, Chars, Id;
    var a, b := SplitAt(t, 0);
    EmptyEncoding(a);
    HeadToken(b, ' ');
    u := b[1..];
    assert t == [Ch('>'), Ch(' ')] + u;
    assert Chars("> ") == [Ch('>'), Ch(' ')];
    CanonicalConcat(Chars("> "), u, n);
  }

  lemma StartsQuote(s: string)
    requires IsQuote(s)
    ensures |s| >= 2 && s[0] == '>' && s[1] == ' '
  {
    assert s[0] == s[0..2][0] && s[1] == s[0..2][1];
  }

  lemma EmptyEncoding(a: seq<Token>)
    requires Encode(a) == ""
    ensures a == []
  {}

  /** A working string that starts with an ordinary character starts with its token. */
  lemma HeadToken(b: seq<Token>, c: char)
    requires Encode(b) != "" && Encode(b)[0] == c != SENTINEL
    ensures |b| > 0 && b[0] == Ch(c) && Encode(b[1..]) == Encode(b)[1..]
  {
    hide Id;
    if b[0].Ref? { IdShape(b[0].k, 0); }
  }

  lemma {:induction false} NoNewline(t: seq<Token>)
    requires '\n' !in Encode(t)
    ensures IndentLines(t) == t
  {
    if t != [] {
      assert Encode(t)[0] == EncodeToken(t[0])[0];
      assert forall c :: c in Encode(t[1..]) ==> c in Encode(t);
      NoNewline(t[1..]);
    }
  }

  lemma {:induction false} IndentConcat(a: seq<Token>, b: seq<Token>)
    ensures IndentLines(a + b) == IndentLines(a) + IndentLines(b)
  {
    hide IndentLines, IndentToken;
    if a == [] {
      assert a + b == b;
      IndentNil();
    } else {
      IndentConcat(a[1..], b);
      assert a + b == [a[0]] + (a[1..] + b) && a == [a[0]] + a[1..];
      IndentCons(a[0], a[1..] + b);
      IndentCons(a[0], a[1..]);
    }
  }

  lemma IndentNil()
    ensures IndentLines([]) == []
  {}

  lemma IndentCons(x: Token, t: seq<Token>)
    ensures IndentLines([x] + t) == IndentToken(x) + IndentLines(t)
  {
    hide IndentToken;
    assert ([x] + t)[1..] == t;
  }

  // ---- Phase 2 loses nothing ----------------------------------------------------

  lemma {:induction false} InnerLossless(t: seq<Token>, n: nat)
    requires Canonical(t, n)
    ensures Unparse(ParseInner(Encode(t), n)) == t
    decreases |Encode(t)|, 3
  {
    hide IsQuote, Encode, QuoteLines, Canonical, Unparse, ParseLoop, SplitQuote;
    var s := Encode(t);
    if IsQuote(s) {
      var (quote, rest) := SplitQuote(s);
      var q, r := QuoteTokens(t, n);
      InnerLossless(q, n);
      if rest.Some? {
        InnerLossless(r, n);
      }
      UnparseQuote(s, n);
    } else {
      LoopLossless(t, n);
    }
  }

  lemma UnparseQuote(s: string, n: nat)
    requires IsQuote(s)
    ensures var (quote, rest) := SplitQuote(s);
            Unparse(ParseInner(s, n))
            == QuoteLines(Unparse(ParseInner(quote, n)))
               + (if rest.Some? then [Ch('\n')] + Unparse(ParseInner(rest.value, n)) else [])
  {
    hide IsQuote, SplitQuote, QuoteLines, ParseLoop;
    var (quote, rest) := SplitQuote(s);
    var head := Quote(ParseInner(quote, n), rest.Some?);
    var tail := if rest.Some? then ParseInner(rest.value, n) else [];
    assert ParseInner(s, n) == [] + [head] + tail;
    hide ParseInner;
    Unparse3([], head, tail);
  }

  lemma {:induction false} LoopLossless(t: seq<Token>, n: nat)
    requires Canonical(t, n)
    ensures Unparse(ParseLoop(Encode(t), n)) == t
    decreases |Encode(t)|, 2
  {
    if NoRefs(t) {
      NoRefsIsChars(t);
      var s := Encode(t);
      assert SENTINEL !in s by {
        forall i | 0 <= i < |s| ensures s[i] != SENTINEL { assert t[i] == Ch(s[i]); }
      }
      CharsLossless(s, n);
    } else {
      var p := FirstRef(t);
      var a, k, b := t[..p], t[p].k, t[p + 1..];
      assert a + [Ref(k)] + b == t;
      LoopStep(a, k, b, n);
      InnerLossless(a, n);
      LoopLossless(b, n);
      var first := if Encode(a) != "" then ParseInner(Encode(a), n) else [];
      Unparse3(first, CodeRef(k), ParseLoop(Encode(b), n));
    }
  }

  /** One turn of the loop with a placeholder in sight. */
  lemma LoopStep(a: seq<Token>, k: nat, b: seq<Token>, n: nat)
    requires NoRefs(a) && Canonical(a, n) && k < n
    ensures var t := a + [Ref(k)] + b;
            && |Encode(a)| < |Encode(t)| && |Encode(b)| < |Encode(t)|
            && ParseLoop(Encode(t), n)
               == (if Encode(a) != "" then ParseInner(Encode(a), n) else []) + [CodeRef(k)] + ParseLoop(Encode(b), n)
  {
    NoRefsIsChars(a);
    var x, y := Encode(a), Encode(b);
    forall i | 0 <= i < |x| ensures x[i] != SENTINEL { assert a[i] == Ch(x[i]); }
    Encode3(a, Ref(k), b);
    FirstReference(x, k, y);
    FindOwnId(k, n);
    Slices(x, Id(k), y);
  }

  /** The pattern branch: the text around and inside the first match is all there is. */
  lemma {:induction false} CharsLossless(s: string, n: nat)
    requires SENTINEL !in s
    ensures Unparse(ParseLoop(s, n)) == Chars(s)
    decreases |s|, 1
  {
    NoReference(s);
    if s == "" {
    } else if FirstMark(s, 0).None? {
      Unparse3([], Leaf(s), []);
      assert [] + [Leaf(s)] + [] == [Leaf(s)];
    } else {
      var (m, i, j) := FirstMark(s, 0).value;
      MarkLossless(s, m, i, j, n);
    }
  }

  lemma {:induction false} MarkLossless(s: string, m: Mark, i: nat, j: nat, n: nat)
    requires SENTINEL !in s && IsLazySpan(s, Delimiter(m), i, j)
    ensures Unparse(ParseMark(s, m, i, j, n)) == Chars(s)
    decreases |s|, 0
  {
    hide ParseLoop, ParseInner, Delimiter, Chars;
    var w := |Delimiter(m)|;
    var inner, after := s[i + w..j], s[j + w..];
    PlainLossless(inner, n);
    PlainLossless(after, n);
    UnparseMark(s[..i], m, ParseInner(inner, n), ParseLoop(after, n));
    SpanChars(s, Delimiter(m), i, j);
  }

  lemma {:induction false} PlainLossless(s: string, n: nat)
    requires SENTINEL !in s
    ensures Unparse(ParseInner(s, n)) == Chars(s) && Unparse(ParseLoop(s, n)) == Chars(s)
    decreases |s|, 4
  {
    EncodeChars(s);
    InnerLossless(Chars(s), n);
    LoopLossless(Chars(s), n);
  }

  lemma UnparseMark(before: string, m: Mark, inner: seq<Node>, after: seq<Node>)
    ensures Unparse((if |before| > 0 then [Leaf(before)] else []) + [Span(m, inner)] + after)
            == Chars(before) + (Chars(Delimiter(m)) + Unparse(inner) + Chars(Delimiter(m))) + Unparse(after)
  {
    hide Delimiter, Chars, Unparse;
    UnparseNil();
    var first := if |before| > 0 then [Leaf(before)] else [];
    assert first == if |before| > 0 then [] + [Leaf(before)] + [] else [];
    Unparse3([], Leaf(before), []);
    Unparse3(first, Span(m, inner), after);
  }

  lemma UnparseNil()
    ensures Unparse([]) == []
  {}

  lemma SpanChars(s: string, d: string, i: nat, j: nat)
    requires IsLazySpan(s, d, i, j)
    ensures Chars(s) == Chars(s[..i]) + (Chars(d) + Chars(s[i + |d|..j]) + Chars(d)) + Chars(s[j + |d|..])
  {
    hide Chars;
    var a, m, z := s[..i], s[i + |d|..j], s[j + |d|..];
    assert s == a + (d + m + d) + z by {
      assert s == s[..i] + (s[i..i + |d|] + s[i + |d|..j] + s[j..j + |d|]) + s[j + |d|..];
    }
    CharsConcat(a + (d + m + d), z);
    CharsConcat(a, d + m + d);
    CharsConcat(d + m, d);
    CharsConcat(d, m);
  }

  // ---- Phase 1 loses nothing, unless an inline span swallows a placeholder -----

  /** `codes[k..]` continues with `own`. */
  predicate Continues(codes: seq<Code>, k: nat, own: seq<Code>) {
    k + |own| <= |codes| && codes[k..k + |own|] == own
  }

  lemma {:induction false} FenceTokens(s: string, k: nat, codes: seq<Code>) returns (t: seq<Token>)
    requires SENTINEL !in s && Continues(codes, k, FencePass(s, k).1)
    ensures Encode(t) == FencePass(s, k).0
    ensures Canonical(t, k + |FencePass(s, k).1|) && Once(t) && RefsFrom(t, k)
    ensures Flatten(t, codes) == s
    decreases |s|
  {
    hide Encode, Flatten, MatchFence, Id, FenceCode, IsFence, IsGreedy, StartsAt, Chars;
    match MatchFence(s, 0) {
      case None =>
        t := Chars(s);
        LetterTokens(s, k, codes);
      case Some(f) =>
        FencePassStep(s, k, f);
        t := FenceTokensAt(s, k, f, codes);
    }
  }

  lemma LetterTokens(s: string, k: nat, codes: seq<Code>)
    requires SENTINEL !in s
    ensures Encode(Chars(s)) == s && Flatten(Chars(s), codes) == s
    ensures Canonical(Chars(s), k) && Once(Chars(s)) && RefsFrom(Chars(s), k)
  {
    hide Encode, Flatten;
    EncodeChars(s);
    FlattenChars(s, codes);
  }

  lemma {:induction false} FenceTokensAt(s: string, k: nat, f: FenceMatch, codes: seq<Code>) returns (t: seq<Token>)
    requires SENTINEL !in s && IsFence(s, f)
    requires Continues(codes, k, [FenceCode(s, f)] + FencePass(s[f.bodyEnd + 3..], k + 1).1)
    ensures Encode(t) == s[..f.open] + Id(k) + FencePass(s[f.bodyEnd + 3..], k + 1).0
    ensures Canonical(t, k + 1 + |FencePass(s[f.bodyEnd + 3..], k + 1).1|) && Once(t) && RefsFrom(t, k)
    ensures Flatten(t, codes) == s
    decreases |s|, 0
  {
    hide Encode, Flatten, FencePass, FenceCode, Chars, Id;
    var after := s[f.bodyEnd + 3..];
    var own := FencePass(after, k + 1).1;
    ContinuesTail(codes, k, FenceCode(s, f), own);
    var rest := FenceTokens(after, k + 1, codes);
    t := Chars(s[..f.open]) + [Ref(k)] + rest;
    FenceJoin(s, k, f, rest, codes);
    FenceCanonical(s[..f.open], k, rest, k + 1 + |own|);
  }

  lemma FencePassStep(s: string, k: nat, f: FenceMatch)
    requires MatchFence(s, 0) == Some(f)
    ensures f.open <= |s| && f.bodyEnd + 3 <= |s| && IsFence(s, f)
    ensures var (w, own) := FencePass(s[f.bodyEnd + 3..], k + 1);
            FencePass(s, k) == (s[..f.open] + Id(k) + w, [FenceCode(s, f)] + own)
  {
    hide Id, FenceCode, MatchFence;
    FenceEnds(s, f);
    FenceReplaced(s, k, f);
  }

  lemma FenceEnds(s: string, f: FenceMatch)
    requires MatchFence(s, 0) == Some(f)
    ensures f.open <= |s| && f.bodyEnd + 3 <= |s| && IsFence(s, f)
  {
    hide MatchFence;
  }

  lemma FenceReplaced(s: string, k: nat, f: FenceMatch)
    requires MatchFence(s, 0) == Some(f) && f.open <= |s| && f.bodyEnd + 3 <= |s| && IsFence(s, f)
    ensures var (w, own) := FencePass(s[f.bodyEnd + 3..], k + 1);
            FencePass(s, k) == (s[..f.open] + Id(k) + w, [FenceCode(s, f)] + own)
  {
    hide Id, FenceCode, MatchFence, IsFence, IsGreedy, StartsAt;
  }

  lemma FenceCanonical(before: string, k: nat, rest: seq<Token>, n: nat)
    requires SENTINEL !in before && k < n && Canonical(rest, n) && Once(rest) && RefsFrom(rest, k + 1)
    ensures var t := Chars(before) + [Ref(k)] + rest; Canonical(t, n) && Once(t) && RefsFrom(t, k)
  {}

  lemma FenceJoin(s: string, k: nat, f: FenceMatch, rest: seq<Token>, codes: seq<Code>)
    requires IsFence(s, f) && k < |codes| && codes[k] == FenceCode(s, f)
    requires Flatten(rest, codes) == s[f.bodyEnd + 3..]
    ensures var t := Chars(s[..f.open]) + [Ref(k)] + rest;
            && Encode(t) == s[..f.open] + Id(k) + Encode(rest)
            && Flatten(t, codes) == s
  {
    hide Encode, Flatten, Chars, Id, FenceCode, Raw;
    var before := s[..f.open];
    EncodeChars(before);
    Encode3(Chars(before), Ref(k), rest);
    FlattenChars(before, codes);
    Flatten3(Chars(before), Ref(k), rest, codes);
    FenceRaw(s, f);
  }

  lemma ContinuesTail(codes: seq<Code>, k: nat, c: Code, own: seq<Code>)
    requires Continues(codes, k, [c] + own)
    ensures codes[k] == c && Continues(codes, k + 1, own)
  {
    assert codes[k..k + 1 + |own|] == [c] + own;
    assert codes[k] == codes[k..k + 1 + |own|][0];
    assert codes[k + 1..k + 1 + |own|] == codes[k..k + 1 + |own|][1..];
  }

  lemma FenceRaw(s: string, f: FenceMatch)
    requires IsFence(s, f)
    ensures s == s[..f.open] + Raw(FenceCode(s, f)) + s[f.bodyEnd + 3..]
  {
    FencePieces(s, f);
    hide StartsAt, IsFence;
    Rejoin(s, f.open, f.langEnd, f.bodyStart, f.bodyEnd);
    var lang, body := s[f.open + 3..f.langEnd], s[f.bodyStart..f.bodyEnd];
    assert Raw(FenceCode(s, f)) == FENCE + lang + s[f.langEnd..f.bodyStart] + body + FENCE;
  }

  lemma FencePieces(s: string, f: FenceMatch)
    requires IsFence(s, f)
    ensures f.open + 3 <= f.langEnd <= f.bodyStart <= f.bodyEnd <= |s| - 3
    ensures s[f.open..f.open + 3] == FENCE && s[f.bodyEnd..f.bodyEnd + 3] == FENCE
    ensures s[f.langEnd..f.bodyStart] == if f.bodyStart > f.langEnd then "\n" else ""
  {}

  lemma Rejoin(s: string, o: nat, l: nat, b: nat, e: nat)
    requires o + 3 <= l <= b <= e <= |s| - 3
    ensures s == s[..o] + (s[o..o + 3] + s[o + 3..l] + s[l..b] + s[b..e] + s[e..e + 3]) + s[e + 3..]
  {
    assert s[o..e + 3] == s[o..o + 3] + s[o + 3..l] + s[l..b] + s[b..e] + s[e..e + 3];
  }

  predicate SomeBodyHasSentinel(codes: seq<Code>) {
    exists i :: 0 <= i < |codes| && SENTINEL in codes[i].body
  }

  lemma {:induction false} InlineTokens(t: seq<Token>, k: nat, codes: seq<Code>) returns (u: seq<Token>)
    requires Canonical(t, k) && Once(t) && Continues(codes, k, InlinePass(Encode(t), k).1)
    ensures Once(u) && forall i :: 0 <= i < |u| && u[i].Ref? ==> u[i] in t || k <= u[i].k
    ensures var own := InlinePass(Encode(t), k).1;
            && Encode(u) == InlinePass(Encode(t), k).0
            && Canonical(u, k + |own|)
            && (!SomeBodyHasSentinel(own) ==> Flatten(u, codes) == Flatten(t, codes))
            && (SomeBodyHasSentinel(own) ==> SENTINEL in Flatten(u, codes))
    decreases |Encode(t)|
  {
    hide Encode, Flatten, Id, MatchRun, SomeBodyHasSentinel, Canonical, Once, Continues, InRun;
    var s := Encode(t);
    match MatchRun(s, '`', 0) {
      case None =>
        u := t;
        NoBody();
      case Some((i, j)) =>
        var a, b, c := SpanTokens(t, i, j);
        var body := s[i + 1..j];
        var own := InlinePass(s[j + 1..], k + 1).1;
        ContinuesTail(codes, k, Inline(body), own);
        SomeBodyTail(body, own);
        PiecesCanonical(a, b, c, k);
        OnceTail(a + [Ch('`')] + b + [Ch('`')], c);
        var rest := InlineTokens(c, k + 1, codes);
        u := a + [Ref(k)] + rest;
        OnceJoin(t, a, b, c, k, rest);
        Encode3(a, Ref(k), rest);
        CanonicalJoin(a, k, rest, k + 1 + |own|);
        InlineFlatten(t, a, b, c, k, rest, codes);
    }
  }

  lemma PiecesCanonical(a: seq<Token>, b: seq<Token>, c: seq<Token>, k: nat)
    requires Canonical(a + [Ch('`')] + b + [Ch('`')] + c, k)
    ensures Canonical(a, k) && Canonical(b, k) && Canonical(c, k) && Canonical(c, k + 1)
  {
    CanonicalConcat(a + [Ch('`')] + b + [Ch('`')], c, k);
    CanonicalConcat(a + [Ch('`')] + b, [Ch('`')], k);
    CanonicalConcat(a + [Ch('`')], b, k);
    CanonicalConcat(a, [Ch('`')], k);
  }

  lemma CanonicalJoin(a: seq<Token>, k: nat, rest: seq<Token>, n: nat)
    requires Canonical(a, k) && Canonical(rest, n) && k < n
    ensures Canonical(a + [Ref(k)] + rest, n)
  {}

  /** Flattening before and after one span is replaced, given how the rest flattens. */
  lemma InlineFlatten(t: seq<Token>, a: seq<Token>, b: seq<Token>, c: seq<Token>, k: nat, rest: seq<Token>,
                      codes: seq<Code>)
    requires t == a + [Ch('`')] + b + [Ch('`')] + c && k < |codes| && codes[k] == Inline(Encode(b))
    ensures var u := a + [Ref(k)] + rest;
            && (SENTINEL in Encode(b) || SENTINEL in Flatten(rest, codes) ==> SENTINEL in Flatten(u, codes))
            && (SENTINEL !in Encode(b) && Flatten(rest, codes) == Flatten(c, codes) ==>
                  Flatten(u, codes) == Flatten(t, codes))
  {
    hide Encode, Flatten;
    var body := Encode(b);
    Flatten3(a, Ref(k), rest, codes);
    assert FlattenToken(Ref(k), codes) == "`" + body + "`";
    Flatten3(a + [Ch('`')] + b, Ch('`'), c, codes);
    Flatten3(a, Ch('`'), b, codes);
    if SENTINEL !in body {
      SentinelFree(b);
      FlattenChars(body, codes);
    }
  }

  lemma OnceTail(a: seq<Token>, c: seq<Token>)
    requires Once(a + c)
    ensures Once(c)
  {
    forall i, j | 0 <= i < j < |c| && c[i].Ref? ensures c[i] != c[j] {
      assert (a + c)[|a| + i] != (a + c)[|a| + j];
    }
  }

  lemma OnceJoin(t: seq<Token>, a: seq<Token>, b: seq<Token>, c: seq<Token>, k: nat, rest: seq<Token>)
    requires t == a + [Ch('`')] + b + [Ch('`')] + c && Once(t) && Canonical(t, k)
    requires Once(rest) && forall i :: 0 <= i < |rest| && rest[i].Ref? ==> rest[i] in c || k + 1 <= rest[i].k
    ensures var u := a + [Ref(k)] + rest;
            Once(u) && forall i :: 0 <= i < |u| && u[i].Ref? ==> u[i] in t || k <= u[i].k
  {
    var u := a + [Ref(k)] + rest;
    var o := |a| + |b| + 2;
    assert forall i :: 0 <= i < |a| ==> t[i] == a[i] == u[i];
    assert forall i :: 0 <= i < |c| ==> t[o + i] == c[i];
    assert forall i :: 0 <= i < |rest| ==> u[|a| + 1 + i] == rest[i];
    forall i, j | 0 <= i < j < |u| && u[i].Ref? ensures u[i] != u[j] {
      if i < |a| < j && u[j] in c {
        var q :| 0 <= q < |c| && c[q] == u[j];
        assert t[i] != t[o + q];
      }
      if |a| < i {
        assert rest[i - |a| - 1] != rest[j - |a| - 1];
      }
    }
  }

  lemma NoBody()
    ensures !SomeBodyHasSentinel([])
  {}

  lemma SomeBodyTail(body: string, own: seq<Code>)
    ensures SomeBodyHasSentinel([Inline(body)] + own) <==> SENTINEL in body || SomeBodyHasSentinel(own)
  {
    var all := [Inline(body)] + own;
    if SENTINEL in body {
      assert all[0].body == body;
    }
    if SomeBodyHasSentinel(own) {
      var q :| 0 <= q < |own| && SENTINEL in own[q].body;
      assert all[q + 1] == own[q];
    }
  }

  /** The tokens around and inside an inline code span. */
  lemma SpanTokens(t: seq<Token>, i: nat, j: nat) returns (a: seq<Token>, b: seq<Token>, c: seq<Token>)
    requires IsRunSpan(Encode(t), '`', i, j)
    ensures t == a + [Ch('`')] + b + [Ch('`')] + c
    ensures Encode(a) == Encode(t)[..i] && Encode(b) == Encode(t)[i + 1..j] && Encode(c) == Encode(t)[j + 1..]
  {
    hide Encode;
    var tail;
    a, tail := SplitAt(t, i);
    assert Encode(tail)[j - i - 1] == Encode(t)[j];
    b, c := SplitAt(tail, j - i - 1);
  }

  lemma {:induction false} SentinelFree(t: seq<Token>)
    requires SENTINEL !in Encode(t)
    ensures t == Chars(Encode(t))
  {
    if t != [] {
      assert Encode(t)[0] == EncodeToken(t[0])[0];
      assert forall c :: c in Encode(t[1..]) ==> c in Encode(t);
      SentinelFree(t[1..]);
      assert t == [t[0]] + t[1..];
    }
  }

  /** The tokens of the whole text after phase 1, and how they relate to the source. */
  lemma ExtractTokens(text: string) returns (t: seq<Token>)
    requires SENTINEL !in text
    ensures var (working, codes) := Extract(text);
            && Encode(t) == working && Canonical(t, |codes|) && Once(t)
            && (InlineEnclosesFence(text) ==> SENTINEL in Flatten(t, codes))
            && (!InlineEnclosesFence(text) ==> Flatten(t, codes) == text)
  {
    hide FencePass, InlinePass, Encode, Flatten, InlineEnclosesFence, SomeBodyHasSentinel;
    var (fenceFree, fences) := FencePass(text, 0);
    var (working, inlines) := InlinePass(fenceFree, |fences|);
    var codes := fences + inlines;
    AllInline(fenceFree, |fences|);
    AllFenced(text, 0);
    var t1 := FenceTokens(text, 0, codes);
    t := InlineTokens(t1, |fences|, codes);
    BodiesHoldPlaceholders(t1, |fences|, |fences|);
    EnclosureIsInline(text, fences, inlines);
  }

  predicate HoldsPlaceholder(body: string, n: nat) { exists f :: 0 <= f < n && Contains(body, Id(f)) }

  predicate BodiesHold(codes: seq<Code>, n: nat) {
    forall i :: 0 <= i < |codes| && SENTINEL in codes[i].body ==> HoldsPlaceholder(codes[i].body, n)
  }

  /** An inline body that holds a sentinel holds a whole placeholder of an earlier code span. */
  lemma {:induction false} BodiesHoldPlaceholders(t: seq<Token>, k: nat, n: nat)
    requires Canonical(t, n)
    ensures BodiesHold(InlinePass(Encode(t), k).1, n)
    decreases |Encode(t)|
  {
    hide Encode, Id, MatchRun, Contains, Canonical;
    match MatchRun(Encode(t), '`', 0) {
      case None =>
      case Some((i, j)) =>
        var a, b, c := SpanTokens(t, i, j);
        PiecesCanonical(a, b, c, n);
        BodiesHoldPlaceholders(c, k + 1, n);
        var own, rest := InlinePass(Encode(t), k).1, InlinePass(Encode(c), k + 1).1;
        assert own == [Inline(Encode(b))] + rest;
        if SENTINEL in Encode(b) { HeldPlaceholder(b, n); }
        BodiesHoldCons(Inline(Encode(b)), rest, n);
    }
  }

  lemma BodiesHoldCons(c: Code, rest: seq<Code>, n: nat)
    requires BodiesHold(rest, n) && (SENTINEL in c.body ==> HoldsPlaceholder(c.body, n))
    ensures BodiesHold([c] + rest, n)
  {
    hide HoldsPlaceholder;
    var own := [c] + rest;
    assert forall i :: 0 < i < |own| ==> own[i] == rest[i - 1];
  }

  lemma LettersHoldNoSentinel(b: seq<Token>, n: nat)
    requires Canonical(b, n) && NoRefs(b)
    ensures SENTINEL !in Encode(b)
  {
    NoRefsIsChars(b);
    hide Encode;
    forall i | 0 <= i < |Encode(b)| ensures Encode(b)[i] != SENTINEL {
      assert b[i] == Ch(Encode(b)[i]);
    }
  }

  lemma HeldPlaceholder(b: seq<Token>, n: nat)
    requires Canonical(b, n) && SENTINEL in Encode(b)
    ensures HoldsPlaceholder(Encode(b), n)
  {
    hide Encode, Id;
    if NoRefs(b) {
      LettersHoldNoSentinel(b, n);
    } else {
      var p :| 0 <= p < |b| && b[p].Ref?;
      assert b == b[..p] + [b[p]] + b[p + 1..];
      Encode3(b[..p], b[p], b[p + 1..]);
      assert StartsAt(Encode(b), Id(b[p].k), |Encode(b[..p])|);
    }
  }

  lemma EnclosureIsInline(text: string, fences: seq<Code>, inlines: seq<Code>)
    requires Extract(text).1 == fences + inlines
    requires forall i :: 0 <= i < |fences| ==> fences[i].Fenced?
    requires forall i :: 0 <= i < |inlines| ==> inlines[i].Inline?
    requires BodiesHold(inlines, |fences|)
    ensures InlineEnclosesFence(text) <==> SomeBodyHasSentinel(inlines)
  {
    hide Extract, Contains, Id;
    var codes := fences + inlines;
    if SomeBodyHasSentinel(inlines) {
      var i :| 0 <= i < |inlines| && SENTINEL in inlines[i].body;
      var f :| 0 <= f < |fences| && Contains(inlines[i].body, Id(f));
      assert codes[|fences| + i] == inlines[i] && codes[f] == fences[f];
    }
    if InlineEnclosesFence(text) {
      var k, f :| 0 <= k < |codes| && 0 <= f < |codes| && codes[k].Inline? && codes[f].Fenced?
                  && Contains(codes[k].body, Id(f));
      assert k >= |fences| && codes[k] == inlines[k - |fences|];
      ContainsSentinel(codes[k].body, f);
    }
  }

  lemma ContainsSentinel(body: string, f: nat)
    requires Contains(body, Id(f))
    ensures SENTINEL in body
  {
    var i :| 0 <= i <= |body| && StartsAt(body, Id(f), i);
    IdShape(f, 0);
    assert body[i] == body[i..i + |Id(f)|][0];
  }

  lemma {:induction false} AllInline(s: string, k: nat)
    ensures forall i :: 0 <= i < |InlinePass(s, k).1| ==> InlinePass(s, k).1[i].Inline?
    decreases |s|
  {
    match MatchRun(s, '`', 0) {
      case None =>
      case Some((i, j)) => AllInline(s[j + 1..], k + 1);
    }
  }

  lemma {:induction false} AllFenced(s: string, k: nat)
    ensures forall i :: 0 <= i < |FencePass(s, k).1| ==> FencePass(s, k).1[i].Fenced?
    decreases |s|
  {
    match MatchFence(s, 0) {
      case None =>
      case Some(f) => AllFenced(s[f.bodyEnd + 3..], k + 1);
    }
  }

  // ---- Main results ----------------------------------------------------------

  /** For text without the private-use sentinel the parser loses nothing exactly when no
      inline code span encloses a fenced block. Every code span has at most one leaf. */
  lemma Lossless(text: string)
    requires SENTINEL !in text
    ensures Source(text) == text <==> !InlineEnclosesFence(text)
    ensures Once(Unparse(ParseTree(text)))
  {
    var t := ExtractTokens(text);
    InnerLossless(t, |Extract(text).1|);
  }

  /** Such a text exists, so text can really be lost. */
  lemma EnclosureLosesText() returns (text: string)
    ensures SENTINEL !in text && InlineEnclosesFence(text) && Source(text) != text
  {
    text := "`a```x```b`";
    var f := FenceMatch(2, 6, 6, 6);
    var working := "`a" + Id(0) + "b`";
    EnclosedFence(text, f);
    EnclosingSpan(working);
    EnclosureExtracted(text, f, working);
    hide Extract, Id;
    var codes := Extract(text).1;
    assert StartsAt(codes[1].body, Id(0), 1);
    assert codes[1].Inline? && codes[0].Fenced? && Contains(codes[1].body, Id(0));
    Lossless(text);
  }

  /** The fence pass takes the inner fence. */
  lemma EnclosedFence(text: string, f: FenceMatch)
    requires text == "`a```x```b`" && f == FenceMatch(2, 6, 6, 6)
    ensures MatchFence(text, 0) == Some(f) && MatchFence("b`", 0).None?
  {
    hide MatchFence;
    assert text[2..5] == FENCE && text[6..9] == FENCE;
    assert IsFence(text, f);
    var m := MatchFence(text, 0).value;
    assert text[m.open..m.open + 3] == FENCE;
    assert text[m.open] == FENCE[0] && text[m.open + 1] == FENCE[1];
    assert text[6] == '`' && text[5] == 'x';
    forall g: FenceMatch ensures !IsFence("b`", g) { TooShort("b`", g); }
  }

  lemma TooShort(s: string, f: FenceMatch)
    requires |s| < 3
    ensures !IsFence(s, f)
  {}

  /** The inline pass then takes the placeholder with it. */
  lemma EnclosingSpan(working: string)
    requires working == "`a" + Id(0) + "b`"
    ensures MatchRun(working, '`', 0) == Some((0, |working| - 1))
  {
    hide MatchRun, Id;
    var n := |working| - 1;
    forall k | 0 < k < n ensures InRun('`', working[k]) {
      if 2 <= k < 2 + |Id(0)| {
        IdShape(0, k - 2);
        assert working[k] == Id(0)[k - 2];
      }
    }
    assert IsRunSpan(working, '`', 0, n);
  }

  lemma EnclosureExtracted(text: string, f: FenceMatch, working: string)
    requires text == "`a```x```b`" && f == FenceMatch(2, 6, 6, 6) && working == "`a" + Id(0) + "b`"
    requires MatchFence(text, 0) == Some(f) && MatchFence("b`", 0).None?
    requires MatchRun(working, '`', 0) == Some((0, |working| - 1))
    ensures Extract(text).1 == [Fenced("x", false, ""), Inline("a" + Id(0) + "b")]
  {
    hide MatchFence, MatchRun, Id;
    FencePassStep(text, 0, f);
    assert text[..2] == "`a" && text[9..] == "b`";
    var nothing: seq<Code> := [];
    assert FencePass("b`", 1) == ("b`", nothing);
    assert FencePass(text, 0) == (working, [FenceCode(text, f)] + nothing);
    assert FenceCode(text, f) == Fenced("x", false, "");
    assert working[1..|working| - 1] == "a" + Id(0) + "b" && working[|working|..] == "";
    assert MatchRun("", '`', 0).None?;
    assert InlinePass("", 2) == ("", nothing);
    assert InlinePass(working, 1).1 == [Inline("a" + Id(0) + "b")] + nothing;
  }

  lemma OpensWithBacktick(s: string, i: nat)
    requires StartsAt(s, FENCE, i)
    ensures i < |s| && s[i] == '`'
  {
    assert s[i..i + 3][0] == '`';
  }

  lemma NoBacktick(s: string)
    requires '`' !in s
    ensures Extract(s) == (s, [])
  {
    assert MatchFence(s, 0).None? by {
      forall f: FenceMatch | IsFence(s, f) ensures false { OpensWithBacktick(s, f.open); }
    }
    assert MatchRun(s, '`', 0).None?;
    hide MatchFence, MatchRun;
    var nothing: seq<Code> := [];
    assert FencePass(s, 0) == (s, nothing) && InlinePass(s, 0) == (s, nothing);
    assert nothing + nothing == nothing;
  }

  /** The sentinel is not escaped: text that spells a placeholder of its own disappears. */
  lemma SpelledPlaceholderIsDropped(k: nat)
    ensures ParseTree(Id(k)) == [] && Source(Id(k)) != Id(k)
  {
    var s := Id(k);
    forall i | 0 <= i < |s| ensures s[i] != '`' && s[0] == SENTINEL { IdShape(k, i); }
    NoBacktick(s);
    assert "" + Id(k) + "" == s;
    FirstReference("", k, "");
    UnresolvedAlone(s);
  }

  lemma UnresolvedAlone(s: string)
    requires s != "" && s[0] == SENTINEL && Extract(s) == (s, []) && MatchPlaceholder(s, 0) == Some((0, |s|))
    ensures ParseTree(s) == [] && Source(s) == ""
  {
    hide MatchPlaceholder, Extract, FirstMark;
    assert !IsQuote(s);
    assert s[|s|..] == "" && ParseLoop("", 0) == [];
    assert Reference(s[0..|s|], 0) == [];
    assert ParseLoop(s, 0) == [];
  }
}
