/** The regular expressions of the Markdown parser, as leftmost searches.
    Every search states what the expression matches and that the reported match
    is the one a backtracking regex engine picks. */
module MarkdownScan {
  import opened Wrappers

  /** The private-use character that delimits placeholders. */
  const SENTINEL: char := '\U{E000}'
  const PREFIX: string := [SENTINEL] + "PLACEHOLDER_"
  const FENCE := "```"

  predicate StartsAt(s: string, p: string, i: nat) {
    i + |p| <= |s| && s[i..i + |p|] == p
  }

  /** First position at or after `from` where `p` occurs. */
  function Find(s: string, p: string, from: nat): (r: Option<nat>)
    requires from <= |s|
    ensures r.Some? ==> from <= r.value && StartsAt(s, p, r.value)
    ensures forall k :: from <= k && StartsAt(s, p, k) ==> r.Some? && r.value <= k
    decreases |s| - from
  {
    if StartsAt(s, p, from) then Some(from)
    else if from == |s| then None
    else Find(s, p, from + 1)
  }

  predicate IsWordChar(c: char) {
    'a' <= c <= 'z' || 'A' <= c <= 'Z' || '0' <= c <= '9' || c == '_'
  }

  predicate IsDigit(c: char) { '0' <= c <= '9' }

  /** End of the maximal run of characters satisfying `p` that starts at `from`. */
  function RunEnd(s: string, p: char -> bool, from: nat): (e: nat)
    requires from <= |s|
    ensures from <= e <= |s|
    ensures forall k :: from <= k < e ==> p(s[k])
    ensures e < |s| ==> !p(s[e])
    decreases |s| - from
  {
    if from < |s| && p(s[from]) then RunEnd(s, p, from + 1) else from
  }

  // ---- d(.+?)d with a fixed delimiter d ------------------------------------

  /** `d` stands at `i` and again at `j`, with at least one character between. */
  predicate IsLazySpan(s: string, d: string, i: nat, j: nat) {
    StartsAt(s, d, i) && i + |d| < j && StartsAt(s, d, j)
  }

  /** Leftmost opening delimiter that has a closing one, with the nearest closing one. */
  function MatchLazy(s: string, d: string, from: nat): (r: Option<(nat, nat)>)
    requires from <= |s| && d != ""
    ensures r.Some? ==> from <= r.value.0 && IsLazySpan(s, d, r.value.0, r.value.1)
    ensures r.Some? ==> forall j :: IsLazySpan(s, d, r.value.0, j) ==> r.value.1 <= j
    ensures forall i, j :: from <= i && IsLazySpan(s, d, i, j) ==> r.Some? && r.value.0 <= i
    decreases |s| - from
  {
    match Find(s, d, from)
    case None => None
    case Some(i) =>
      if i + |d| == |s| then None
      else match Find(s, d, i + |d| + 1)
        case Some(j) => Some((i, j))
        case None => MatchLazy(s, d, i + 1)
  }

  // ---- c([^c\n]+)c with a single character c ---------------------------------

  predicate InRun(c: char, x: char) { x != c && x != '\n' }

  predicate IsRunSpan(s: string, c: char, i: nat, j: nat) {
    && i + 1 < j < |s| && s[i] == c && s[j] == c
    && forall k :: i < k < j ==> InRun(c, s[k])
  }

  function MatchRun(s: string, c: char, from: nat): (r: Option<(nat, nat)>)
    requires from <= |s|
    ensures r.Some? ==> from <= r.value.0 && IsRunSpan(s, c, r.value.0, r.value.1)
    ensures r.Some? ==> forall j :: IsRunSpan(s, c, r.value.0, j) ==> r.value.1 == j
    ensures forall i, j :: from <= i && IsRunSpan(s, c, i, j) ==> r.Some? && r.value.0 <= i
    decreases |s| - from
  {
    if from == |s| then None
    else if s[from] != c then MatchRun(s, c, from + 1)
    else
      var j := RunEnd(s, x => InRun(c, x), from + 1);
      if from + 1 < j < |s| && s[j] == c then Some((from, j))
      else MatchRun(s, c, from + 1)
  }

  // ---- the fenced code block ----------------------------------------------

  /** Positions of one fence match: opening, end of language, start and end of body. */
  datatype FenceMatch = FenceMatch(open: nat, langEnd: nat, bodyStart: nat, bodyEnd: nat)

  /** Every way the expression ```` ```(\w*)\n?([\s\S]*?)``` ```` can match. */
  predicate IsFence(s: string, f: FenceMatch) {
    && StartsAt(s, FENCE, f.open)
    && f.open + 3 <= f.langEnd <= |s|
    && (forall k :: f.open + 3 <= k < f.langEnd ==> IsWordChar(s[k]))
    && (f.bodyStart == f.langEnd || (f.langEnd < |s| && s[f.langEnd] == '\n' && f.bodyStart == f.langEnd + 1))
    && f.bodyStart <= f.bodyEnd
    && StartsAt(s, FENCE, f.bodyEnd)
  }

  /** The reading of the opening fence at `i` that takes the longest language and the newline. */
  predicate IsGreedy(s: string, f: FenceMatch) {
    && f.langEnd <= |s|
    && (f.langEnd < |s| ==> !IsWordChar(s[f.langEnd]))
    && (f.langEnd < |s| && s[f.langEnd] == '\n' ==> f.bodyStart == f.langEnd + 1)
  }

  /** Leftmost fence, greedy in its language line and lazy in its body. The last clause says
      that no backtracking into the language line can find a match this search misses. */
  function MatchFence(s: string, from: nat): (r: Option<FenceMatch>)
    requires from <= |s|
    ensures r.Some? ==> from <= r.value.open && IsFence(s, r.value) && IsGreedy(s, r.value)
    ensures r.Some? ==> forall e :: r.value.bodyStart <= e && StartsAt(s, FENCE, e) ==> r.value.bodyEnd <= e
    ensures forall f: FenceMatch :: from <= f.open && IsFence(s, f) ==> r.Some? && r.value.open <= f.open
    decreases |s| - from
  {
    match Find(s, FENCE, from)
    case None => None
    case Some(i) =>
      var langEnd := RunEnd(s, IsWordChar, i + 3);
      var bodyStart := if langEnd < |s| && s[langEnd] == '\n' then langEnd + 1 else langEnd;
      match Find(s, FENCE, bodyStart)
      case Some(e) => Some(FenceMatch(i, langEnd, bodyStart, e))
      case None =>
        NoFenceAt(s, i, langEnd, bodyStart);
        MatchFence(s, i + 1)
  }

  /** A closing fence cannot start inside the language line: its characters are not backticks. */
  lemma NoFenceInLanguageLine(s: string, i: nat, langEnd: nat, bodyStart: nat, f: FenceMatch)
    requires i + 3 <= langEnd <= bodyStart <= |s| && f.open == i && IsFence(s, f)
    requires forall k :: i + 3 <= k < langEnd ==> IsWordChar(s[k])
    requires forall k :: langEnd <= k < bodyStart ==> s[k] == '\n'
    ensures f.bodyEnd >= bodyStart
  {
    assert s[f.bodyEnd..f.bodyEnd + 3][0] == '`';
  }

  lemma NoFenceAt(s: string, i: nat, langEnd: nat, bodyStart: nat)
    requires i + 3 <= langEnd <= bodyStart <= |s|
    requires forall k :: i + 3 <= k < langEnd ==> IsWordChar(s[k])
    requires forall k :: langEnd <= k < bodyStart ==> s[k] == '\n'
    requires forall e :: bodyStart <= e ==> !StartsAt(s, FENCE, e)
    ensures forall f: FenceMatch :: f.open == i ==> !IsFence(s, f)
  {
    forall f: FenceMatch | f.open == i && IsFence(s, f) ensures false {
      NoFenceInLanguageLine(s, i, langEnd, bodyStart, f);
    }
  }

  // ---- placeholders -----------------------------------------------------------

  /** `s[i..j]` has the shape prefix, digits, sentinel. */
  predicate IsNumbered(s: string, prefix: string, i: nat, j: nat) {
    && StartsAt(s, prefix, i)
    && i + |prefix| + 1 < j <= |s|
    && (forall k :: i + |prefix| <= k < j - 1 ==> IsDigit(s[k]))
    && s[j - 1] == SENTINEL
  }

  function MatchNumbered(s: string, prefix: string, from: nat): (r: Option<(nat, nat)>)
    requires from <= |s|
    ensures r.Some? ==> from <= r.value.0 && IsNumbered(s, prefix, r.value.0, r.value.1)
    ensures r.Some? ==> forall j :: IsNumbered(s, prefix, r.value.0, j) ==> r.value.1 == j
    ensures forall i, j :: from <= i && IsNumbered(s, prefix, i, j) ==> r.Some? && r.value.0 <= i
    decreases |s| - from
  {
    match Find(s, prefix, from)
    case None => None
    case Some(i) =>
      var e := RunEnd(s, IsDigit, i + |prefix|);
      if i + |prefix| < e < |s| && s[e] == SENTINEL then Some((i, e + 1))
      else if i == |s| then None
      else MatchNumbered(s, prefix, i + 1)
  }

  /** `s[i..j]` has the shape sentinel, PLACEHOLDER_, digits, sentinel. */
  predicate IsPlaceholder(s: string, i: nat, j: nat) { IsNumbered(s, PREFIX, i, j) }

  function MatchPlaceholder(s: string, from: nat): (r: Option<(nat, nat)>)
    requires from <= |s|
    ensures r.Some? ==> from <= r.value.0 < r.value.1 <= |s| && IsPlaceholder(s, r.value.0, r.value.1)
    ensures r.Some? ==> forall j :: IsPlaceholder(s, r.value.0, j) ==> r.value.1 == j
    ensures forall i, j :: from <= i && IsPlaceholder(s, i, j) ==> r.Some? && r.value.0 <= i
  {
    MatchNumbered(s, PREFIX, from)
  }
}
