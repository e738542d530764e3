/**
 * The five replace rules of `removeTimestamps`
 * (app/utils/timestampRemover.ts:19-31) and what one attempt of each rule's
 * regular expression does at one position of the text.
 */
module TimestampRules {
  import opened Wrappers
  import opened TimestampToken

  /** The five rules, in the order they run. */
  datatype Rule =
    | Bracketed  // `\[T\]`, replaced by ""
    | Comma      // `T,`, replaced by ""
    | Dash       // `T\s*-\s*`, replaced by ""
    | LineStart  // `^(\s*)T(?=\s|$|,)` with the `m` flag, replaced by "$1"
    | MidText    // `(\s+)T(?=\s|$|,|\n)`, replaced by "$1"

  /**
   * A match found at position `i`: the text `s[i..end]` is replaced by
   * `s[i..keptEnd]` (the capture `$1`, or nothing); the token itself spans
   * `s[tokenStart..tokenEnd]`.
   */
  datatype Match = Match(keptEnd: nat, tokenStart: nat, tokenEnd: nat, end: nat)

  /** The characters a match of the rule can delete. */
  predicate Deletable(r: Rule, c: char)
    ensures IsTokenChar(c) ==> Deletable(r, c)
    ensures IsSpace(c) && Deletable(r, c) ==> r == Dash
  {
    match r
    case Bracketed => IsTokenChar(c) || c == '[' || c == ']'
    case Comma => IsTokenChar(c) || c == ','
    case Dash => IsTokenChar(c) || c == '-' || IsSpace(c)
    case LineStart => IsTokenChar(c)
    case MidText => IsTokenChar(c)
  }

  /** The end of the longest run of `\s` starting at `k`: what a greedy `\s*` consumes. */
  function SkipSpaces(s: string, k: nat): (j: nat)
    requires k <= |s|
    ensures k <= j <= |s|
    ensures forall t :: k <= t < j ==> IsSpace(s[t])
    ensures j < |s| ==> !IsSpace(s[j])
    decreases |s| - k
  {
    if k < |s| && IsSpace(s[k]) then SkipSpaces(s, k + 1) else k
  }

  /**
   * `^` under the `m` flag: the start of the text or just after a line
   * terminator. On a single line it holds only at the start.
   */
  predicate AtLineStart(s: string, i: nat)
    requires i <= |s|
    ensures i == 0 ==> AtLineStart(s, i)
    ensures SingleLine(s) && AtLineStart(s, i) ==> i == 0
  {
    i == 0 || IsLineTerminator(s[i - 1])
  }

  /** Text without a line terminator. */
  predicate SingleLine(s: string) {
    '\n' !in s && '\r' !in s && '\U{2028}' !in s && '\U{2029}' !in s
  }

  /**
   * `$` under the `m` flag: the end of the text or just before a line
   * terminator. On a single line it holds only at the end.
   */
  predicate AtLineEnd(s: string, e: nat)
    requires e <= |s|
    ensures e == |s| ==> AtLineEnd(s, e)
    ensures SingleLine(s) && AtLineEnd(s, e) ==> e == |s|
  {
    e == |s| || IsLineTerminator(s[e])
  }

  /**
   * What the rule's pattern needs before the token, tried at `i`: the
   * position where the token must then start, and the end of the text kept
   * by the replacement. A `\s*` or `\s+` group always takes the whole run of
   * whitespace, since no shorter run can be followed by a digit.
   */
  function Opening(r: Rule, s: string, i: nat): (o: Option<(nat, nat)>)
    requires i <= |s|
    ensures o.Some? ==> var (start, kept) := o.value;
      && i <= kept <= start <= |s|
      && (r.Bracketed? || r.Comma? || r.Dash? ==> kept == i)
      && (forall t :: i <= t < kept ==> IsSpace(s[t]))
      && (forall t :: kept <= t < start ==> Deletable(r, s[t]))
  {
    match r
    case Bracketed => if CharAt(s, i, '[') then Some((i + 1, i)) else None
    case Comma => Some((i, i))
    case Dash => Some((i, i))
    case LineStart =>
      if AtLineStart(s, i) then var j := SkipSpaces(s, i); Some((j, j)) else None
    case MidText =>
      if i < |s| && IsSpace(s[i]) then var j := SkipSpaces(s, i); Some((j, j)) else None
  }

  /**
   * What the rule's pattern needs after a token ending at `e`; the end of
   * the match when it is there. The lookaheads of the last two rules consume
   * nothing.
   */
  function Closing(r: Rule, s: string, e: nat): (c: Option<nat>)
    requires e <= |s|
    ensures c.Some? ==> e <= c.value <= |s| && forall t :: e <= t < c.value ==> Deletable(r, s[t])
  {
    match r
    case Bracketed => if CharAt(s, e, ']') then Some(e + 1) else None
    case Comma => if CharAt(s, e, ',') then Some(e + 1) else None
    case Dash =>
      var w := SkipSpaces(s, e);
      if CharAt(s, w, '-') then Some(SkipSpaces(s, w + 1)) else None
    case LineStart =>
      if (e < |s| && IsSpace(s[e])) || AtLineEnd(s, e) || CharAt(s, e, ',') then Some(e) else None
    case MidText =>
      if (e < |s| && IsSpace(s[e])) || e == |s| || CharAt(s, e, ',') || CharAt(s, e, '\n') then Some(e) else None
  }

  /**
   * The first candidate token end (in the engine's order) after which the
   * rule's closing part matches, with the end of the match.
   */
  function FirstClosing(r: Rule, s: string, ends: seq<nat>): (res: Option<(nat, nat)>)
    requires forall e :: e in ends ==> e <= |s|
    ensures res.Some? ==> res.value.0 in ends && Closing(r, s, res.value.0) == Some(res.value.1)
    ensures res.None? ==> forall e :: e in ends ==> Closing(r, s, e).None?
    ensures res.Some? && StrictlyDecreasing(ends) ==>
      forall e :: e in ends && e > res.value.0 ==> Closing(r, s, e).None?
    decreases |ends|
  {
    if ends == [] then None
    else
      assert ends[0] in ends;
      assert forall e :: e in ends[1..] ==> e in ends;
      match Closing(r, s, ends[0])
      case Some(x) => Some((ends[0], x))
      case None => FirstClosing(r, s, ends[1..])
  }

  /** One attempt of the rule's regular expression at position `i`. */
  function MatchAt(r: Rule, s: string, i: nat): (m: Option<Match>)
    requires i <= |s|
    ensures m.Some? ==>
      i <= m.value.keptEnd <= m.value.tokenStart && m.value.tokenStart + 4 <= m.value.tokenEnd <= m.value.end <= |s|
  {
    match Opening(r, s, i)
    case None => None
    case Some((start, kept)) =>
      match FirstClosing(r, s, TokenEnds(s, start))
      case None => None
      case Some((tokEnd, end)) =>
        Some(Match(kept, start, tokEnd, end))
  }

  /**
   * A match keeps only whitespace (nothing at all for the first three
   * rules), deletes only characters the rule can delete, and its token holds
   * a colon.
   */
  lemma MatchAtFacts(r: Rule, s: string, i: nat)
    requires i <= |s| && MatchAt(r, s, i).Some?
    ensures var Match(kept, start, tokEnd, end) := MatchAt(r, s, i).value;
      && (r.Bracketed? || r.Comma? || r.Dash? ==> kept == i)
      && (forall t :: i <= t < kept ==> IsSpace(s[t]))
      && (forall t :: kept <= t < end ==> Deletable(r, s[t]))
      && (s[start + 1] == ':' || s[start + 2] == ':')
  {
    var Match(kept, start, tokEnd, end) := MatchAt(r, s, i).value;
    assert Opening(r, s, i) == Some((start, kept));
    assert tokEnd in TokenEnds(s, start);
    assert Closing(r, s, tokEnd) == Some(end);
  }

  /** A digit followed by a colon one or two places later: how every token begins. */
  predicate ColonNear(s: string, k: nat) {
    DigitAt(s, k) && (CharAt(s, k + 1, ':') || CharAt(s, k + 2, ':'))
  }

  /** The opening part of the rule matches at `i` and a token could begin where it ends. */
  predicate MayMatch(r: Rule, s: string, i: nat)
    requires i <= |s|
  {
    match Opening(r, s, i)
    case None => false
    case Some((start, _)) => ColonNear(s, start)
  }

  /** A cheap necessary condition for a match. */
  lemma MatchAtNeeds(r: Rule, s: string, i: nat)
    requires i <= |s|
    ensures MatchAt(r, s, i).Some? ==> MayMatch(r, s, i)
  {
    if MatchAt(r, s, i).Some? {
      var start := MatchAt(r, s, i).value.tokenStart;
      assert Opening(r, s, i).Some? && Opening(r, s, i).value.0 == start;
      assert MatchAt(r, s, i).value.tokenEnd in TokenEnds(s, start);
    }
  }

  /**
   * The delimiters each rule needs: a bracket pair around the token, a comma
   * after it, or a hyphen after it (possibly behind whitespace).
   */
  lemma MatchAtDelimiters(r: Rule, s: string, i: nat)
    requires i <= |s| && MatchAt(r, s, i).Some?
    ensures var m := MatchAt(r, s, i).value;
      && (r.Bracketed? ==> s[i] == '[' && s[m.tokenEnd] == ']')
      && (r.Comma? ==> s[m.tokenEnd] == ',')
      && (r.Dash? ==> exists t :: m.tokenEnd <= t < m.end && s[t] == '-')
  {
    var m := MatchAt(r, s, i).value;
    assert Opening(r, s, i).Some?;
    assert Closing(r, s, m.tokenEnd) == Some(m.end);
    if r.Dash? {
      var w := SkipSpaces(s, m.tokenEnd);
      assert s[w] == '-';
    }
  }

  /**
   * The match the engine reports is the one with the longest token after
   * which the rest of the pattern matches; and when it reports none, no
   * token of the grammar starting where the opening part leaves off can be
   * completed by the closing part.
   */
  lemma MatchAtIsLongest(r: Rule, s: string, i: nat)
    requires i <= |s|
    ensures MatchAt(r, s, i).Some? ==>
      var m := MatchAt(r, s, i).value;
      && Opening(r, s, i) == Some((m.tokenStart, m.keptEnd))
      && IsTokenAt(s, m.tokenStart, m.tokenEnd)
      && Closing(r, s, m.tokenEnd) == Some(m.end)
      && forall e :: m.tokenEnd < e <= |s| && IsTokenAt(s, m.tokenStart, e) ==> Closing(r, s, e).None?
    ensures MatchAt(r, s, i).None? && Opening(r, s, i).Some? ==>
      var start := Opening(r, s, i).value.0;
      forall e :: start <= e <= |s| && IsTokenAt(s, start, e) ==> Closing(r, s, e).None?
  {
    if Opening(r, s, i).Some? {
      var start := Opening(r, s, i).value.0;
      forall e | start <= e <= |s|
        ensures e in TokenEnds(s, start) <==> IsTokenAt(s, start, e)
      {
        TokenEndsMatchGrammar(s, start, e);
      }
    }
  }
}
