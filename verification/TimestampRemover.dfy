/**
 * `removeTimestamps` (app/utils/timestampRemover.ts:12-35): five global
 * `String.replace` calls run one after the other, each with one of the rules
 * of `TimestampRules`.
 */
module TimestampRemover {
  import opened Sequences
  import opened Wrappers
  import opened TimestampToken
  import opened TimestampRules

  /** One attempt of a regular expression at a position of a text. */
  type Attempt = (string, nat) -> Option<Match>

  /** The attempts of the rule's regular expression. */
  function Attempts(r: Rule): Attempt {
    (s: string, i: nat) => if i <= |s| then MatchAt(r, s, i) else None
  }

  /** Every match found in `s` replaces a stretch `s[i..end]` by a proper prefix `s[i..keptEnd]` of it. */
  predicate Advances(m: Attempt, s: string) {
    forall i :: 0 <= i < |s| && m(s, i).Some? ==>
      i <= m(s, i).value.keptEnd < m(s, i).value.end <= |s|
  }

  lemma AttemptsAdvance(r: Rule, s: string)
    ensures Advances(Attempts(r), s)
  {
  }

  /**
   * A global replace over `s`, from position `i` on: the engine tries a
   * match at `i`; on success it emits the replacement and resumes where the
   * match ended, otherwise it copies `s[i]` and tries `i + 1`. Every match
   * is non-empty, so the scan always moves forward.
   */
  function Replace(m: Attempt, s: string, i: nat): (out: string)
    requires i <= |s| && Advances(m, s)
    ensures |out| <= |s| - i
    decreases |s| - i
  {
    if i == |s| then []
    else
      match m(s, i)
      case Some(x) => s[i..x.keptEnd] + Replace(m, s, x.end)
      case None => [s[i]] + Replace(m, s, i + 1)
  }

  /** `s.replace(regex, replacement)` for the rule's regular expression with the `g` flag. */
  function Pass(r: Rule, s: string): (out: string)
    ensures |out| <= |s|
  {
    AttemptsAdvance(r, s);
    Replace(Attempts(r), s, 0)
  }

  /** The timestamp stripper: the five rules in the source's order. */
  function RemoveTimestamps(text: string): (cleaned: string)
    ensures text == [] ==> cleaned == []
  {
    if text == [] then []
    else
      var cleaned := Pass(Bracketed, text);
      var cleaned := Pass(Comma, cleaned);
      var cleaned := Pass(Dash, cleaned);
      var cleaned := Pass(LineStart, cleaned);
      Pass(MidText, cleaned)
  }

  /** The attempts find no match in `s` from `i` on. */
  predicate NoMatchFrom(m: Attempt, s: string, i: nat) {
    forall t :: i <= t < |s| ==> m(s, t).None?
  }

  /** The rule's regular expression matches nowhere in `s`. */
  predicate NoMatch(r: Rule, s: string) {
    forall t :: 0 <= t < |s| ==> MatchAt(r, s, t).None?
  }

  /** No match deletes a character that `p` accepts. */
  predicate DeletesOnly(m: Attempt, s: string, p: char -> bool) {
    forall i, t :: 0 <= i < |s| && m(s, i).Some? && m(s, i).value.keptEnd <= t < m(s, i).value.end && t < |s| ==> !p(s[t])
  }

  /** The characters a pass of the rule leaves alone. */
  function Spared(r: Rule): char -> bool {
    c => !Deletable(r, c)
  }

  /**
   * Characters no rule deletes: anything but a digit, `:`, `.`, `[`, `]`,
   * `,`, `-` and whitespace (every letter, for one).
   */
  predicate IsProse(c: char) {
    !IsTokenChar(c) && c != '[' && c != ']' && c != ',' && c != '-' && !IsSpace(c)
  }

  // ----- The global replace -----

  /** A position where the attempt fails is copied through. */
  lemma ReplaceUnmatched(m: Attempt, s: string, i: nat)
    requires i < |s| && Advances(m, s) && m(s, i).None?
    ensures Replace(m, s, i) == [s[i]] + Replace(m, s, i + 1)
  {
  }

  /** A match at `i` is replaced by its kept prefix and the scan resumes after it. */
  lemma ReplaceMatched(m: Attempt, s: string, i: nat)
    requires i < |s| && Advances(m, s) && m(s, i).Some?
    ensures var x := m(s, i).value;
      Replace(m, s, i) == s[i..x.keptEnd] + Replace(m, s, x.end)
    ensures var x := m(s, i).value;
      x.keptEnd == i ==> Replace(m, s, i) == Replace(m, s, x.end)
  {
    var x := m(s, i).value;
    assert s[i..i] + Replace(m, s, x.end) == Replace(m, s, x.end);
  }

  /** A scan returns its input exactly when nothing matches, and is shorter otherwise. */
  lemma {:induction false} ReplaceUnchanged(m: Attempt, s: string, i: nat)
    requires i <= |s| && Advances(m, s)
    ensures NoMatchFrom(m, s, i) <==> Replace(m, s, i) == s[i..]
    ensures !NoMatchFrom(m, s, i) ==> |Replace(m, s, i)| < |s| - i
    decreases |s| - i
  {
    if i < |s| {
      match m(s, i)
      case Some(x) =>
        assert !NoMatchFrom(m, s, i);
        assert |Replace(m, s, x.end)| <= |s| - x.end;
      case None =>
        ReplaceUnchanged(m, s, i + 1);
        assert NoMatchFrom(m, s, i) <==> NoMatchFrom(m, s, i + 1);
        assert s[i..] == [s[i]] + s[i + 1..];
        if Replace(m, s, i) == s[i..] {
          assert Replace(m, s, i + 1) == Replace(m, s, i)[1..] == s[i + 1..];
        }
    }
  }

  /** Replacing `s[i..end]` by its prefix `s[i..kept]` in front of a subsequence of `s[end..]`. */
  lemma SubsequenceSplice<T>(s: seq<T>, i: nat, kept: nat, end: nat, rest: seq<T>)
    requires i <= kept <= end <= |s|
    requires IsSubsequence(rest, s[end..])
    ensures IsSubsequence(s[i..kept] + rest, s[i..])
  {
    SubsequenceDropPrefix(rest, s[kept..end], s[end..]);
    assert s[kept..end] + s[end..] == s[kept..];
    SubsequenceCommonPrefix(s[i..kept], rest, s[kept..]);
    assert s[i..kept] + s[kept..] == s[i..];
  }

  /** A scan only deletes: its output is a subsequence of its input. */
  lemma {:induction false} ReplaceSubsequence(m: Attempt, s: string, i: nat)
    requires i <= |s| && Advances(m, s)
    ensures IsSubsequence(Replace(m, s, i), s[i..])
    decreases |s| - i
  {
    if i < |s| {
      match m(s, i)
      case Some(x) =>
        ReplaceSubsequence(m, s, x.end);
        SubsequenceSplice(s, i, x.keptEnd, x.end, Replace(m, s, x.end));
      case None =>
        ReplaceSubsequence(m, s, i + 1);
        SubsequenceSplice(s, i, i + 1, i + 1, Replace(m, s, i + 1));
    }
  }

  /**
   * Replacing `s[i..end]` by its prefix `s[i..kept]`, where `s[kept..end]`
   * holds only elements `p` rejects, in front of a sequence that agrees with
   * `s[end..]` under `p`.
   */
  lemma KeepSplice<T>(s: seq<T>, i: nat, kept: nat, end: nat, rest: seq<T>, p: T -> bool)
    requires i <= kept <= end <= |s|
    requires forall t :: kept <= t < end ==> !p(s[t])
    requires Keep(rest, p) == Keep(s[end..], p)
    ensures Keep(s[i..kept] + rest, p) == Keep(s[i..], p)
  {
    var a, d, b := s[i..kept], s[kept..end], s[end..];
    KeepSkip(a, d, b, rest, p);
    assert d + b == s[kept..];
    assert a + s[kept..] == s[i..];
  }

  /** A scan whose matches delete only characters `p` rejects keeps the others, in order. */
  lemma {:induction false} ReplaceSpares(m: Attempt, s: string, i: nat, p: char -> bool)
    requires i <= |s| && Advances(m, s) && DeletesOnly(m, s, p)
    ensures Keep(Replace(m, s, i), p) == Keep(s[i..], p)
    decreases |s| - i
  {
    if i < |s| {
      match m(s, i)
      case Some(x) =>
        ReplaceSpares(m, s, x.end, p);
        KeepSplice(s, i, x.keptEnd, x.end, Replace(m, s, x.end), p);
      case None =>
        ReplaceSpares(m, s, i + 1, p);
        KeepSplice(s, i, i + 1, i + 1, Replace(m, s, i + 1), p);
    }
  }

  /** A stretch where nothing matches is copied through unchanged. */
  lemma {:induction false} ReplaceCopies(m: Attempt, s: string, i: nat, j: nat)
    requires i <= j <= |s| && Advances(m, s)
    requires forall t :: i <= t < j ==> m(s, t).None?
    ensures Replace(m, s, i) == s[i..j] + Replace(m, s, j)
    decreases j - i
  {
    if i < j {
      ReplaceUnmatched(m, s, i);
      ReplaceCopies(m, s, i + 1, j);
      assert s[i..i + 1] == [s[i]];
      JoinSlices(s, i, i + 1, j, Replace(m, s, j));
    }
  }

  // ----- One pass of a rule -----

  lemma NoMatchAttempts(r: Rule, s: string)
    ensures NoMatch(r, s) <==> NoMatchFrom(Attempts(r), s, 0)
  {
    forall t | 0 <= t < |s|
      ensures Attempts(r)(s, t) == MatchAt(r, s, t)
    {
    }
  }

  /** A pass changes its input exactly when the rule matches somewhere, and then shortens it. */
  lemma PassUnchanged(r: Rule, s: string)
    ensures |Pass(r, s)| <= |s|
    ensures NoMatch(r, s) <==> Pass(r, s) == s
    ensures !NoMatch(r, s) ==> |Pass(r, s)| < |s|
  {
    AttemptsAdvance(r, s);
    ReplaceUnchanged(Attempts(r), s, 0);
    NoMatchAttempts(r, s);
    assert s[0..] == s;
  }

  lemma PassSubsequence(r: Rule, s: string)
    ensures IsSubsequence(Pass(r, s), s)
  {
    AttemptsAdvance(r, s);
    ReplaceSubsequence(Attempts(r), s, 0);
    assert s[0..] == s;
  }

  /** What a match of the rule deletes is spared by nothing. */
  lemma AttemptsDeleteOnly(r: Rule, s: string)
    ensures DeletesOnly(Attempts(r), s, Spared(r))
  {
    forall i, t | 0 <= i < |s| && Attempts(r)(s, i).Some? &&
      Attempts(r)(s, i).value.keptEnd <= t < Attempts(r)(s, i).value.end && t < |s|
      ensures !Spared(r)(s[t])
    {
      MatchAtFacts(r, s, i);
    }
  }

  /** A pass deletes only characters its rule can delete: the others all survive, in order. */
  lemma PassSpares(r: Rule, s: string)
    ensures Keep(Pass(r, s), Spared(r)) == Keep(s, Spared(r))
  {
    AttemptsAdvance(r, s);
    AttemptsDeleteOnly(r, s);
    ReplaceSpares(Attempts(r), s, 0, Spared(r));
    assert s[0..] == s;
  }

  /**
   * Only the dash rule can delete whitespace: every other pass keeps all
   * whitespace characters, in order (the line-start and mid-text rules put
   * back the whitespace they capture).
   */
  lemma PassKeepsWhitespace(r: Rule, s: string)
    requires r != Dash
    ensures Keep(Pass(r, s), IsSpace) == Keep(s, IsSpace)
  {
    PassSpares(r, s);
    KeepNarrow(Pass(r, s), s, Spared(r), IsSpace);
  }

  /** A match needs a colon inside its token. */
  lemma NoColonNoMatch(r: Rule, s: string)
    requires ':' !in s
    ensures NoMatch(r, s)
  {
    forall t | 0 <= t < |s|
      ensures MatchAt(r, s, t).None?
    {
      if MatchAt(r, s, t).Some? {
        MatchAtFacts(r, s, t);
      }
    }
  }

  /**
   * A test of the characters around one position that rules out a match
   * there: no opening bracket followed by a token start, no token start, or
   * no line start or whitespace run followed by a token start.
   */
  predicate Quiet(r: Rule, s: string, t: nat)
    requires t < |s|
  {
    match r
    case Bracketed => s[t] != '[' || !ColonNear(s, t + 1)
    case Comma => !ColonNear(s, t)
    case Dash => !ColonNear(s, t)
    case LineStart => !AtLineStart(s, t) || !ColonNear(s, SkipSpaces(s, t))
    case MidText => !IsSpace(s[t]) || !ColonNear(s, SkipSpaces(s, t))
  }

  predicate QuietBetween(r: Rule, s: string, a: nat, b: nat)
    requires b <= |s|
    decreases b - a
  {
    a >= b || (Quiet(r, s, a) && QuietBetween(r, s, a + 1, b))
  }

  lemma QuietNoMatch(r: Rule, s: string, t: nat)
    requires t < |s| && Quiet(r, s, t)
    ensures Attempts(r)(s, t).None?
  {
    MatchAtNeeds(r, s, t);
  }

  /** No attempt of the rule succeeds on a stretch of quiet positions. */
  lemma {:induction false} QuietBetweenNoMatch(r: Rule, s: string, a: nat, b: nat)
    requires a <= b <= |s| && QuietBetween(r, s, a, b)
    ensures forall t :: a <= t < b ==> Attempts(r)(s, t).None?
    decreases b - a
  {
    if a < b {
      QuietBetweenNoMatch(r, s, a + 1, b);
      forall t | a <= t < b
        ensures Attempts(r)(s, t).None?
      {
        if t == a {
          QuietNoMatch(r, s, a);
        }
      }
    }
  }

  /**
   * On a single line the line-start rule can only match at the very start;
   * when it cannot match there either, the pass changes nothing.
   */
  lemma SingleLineStart(s: string)
    requires SingleLine(s)
    requires s != [] ==> !MayMatch(LineStart, s, 0)
    ensures Pass(LineStart, s) == s
  {
    if s != [] {
      MatchAtNeeds(LineStart, s, 0);
    }
    forall t | 0 < t < |s|
      ensures MatchAt(LineStart, s, t).None?
    {
      LineStartNeedsTerminator(s, t);
    }
    PassUnchanged(LineStart, s);
  }

  /** Away from the start of the text, the line-start rule needs a line terminator just before. */
  lemma LineStartNeedsTerminator(s: string, t: nat)
    requires SingleLine(s) && 0 < t < |s|
    ensures MatchAt(LineStart, s, t).None?
  {
    assert s[t - 1] in s;
    assert Opening(LineStart, s, t).None?;
  }

  /**
   * A rule never matches text that lacks its delimiter: `[` for the
   * bracketed rule, `,` for the comma rule, `-` for the dash rule.
   */
  lemma NoDelimiterNoMatch(r: Rule, s: string)
    requires (r == Bracketed && '[' !in s) || (r == Comma && ',' !in s) || (r == Dash && '-' !in s)
    ensures NoMatch(r, s)
  {
    forall t | 0 <= t < |s|
      ensures MatchAt(r, s, t).None?
    {
      if MatchAt(r, s, t).Some? {
        MatchAtDelimiters(r, s, t);
      }
    }
  }

  /** A pass over text without a colon, or without the rule's delimiter, changes nothing. */
  lemma PassIdle(r: Rule, s: string)
    requires ':' !in s || (r == Bracketed && '[' !in s) || (r == Comma && ',' !in s) || (r == Dash && '-' !in s)
    ensures Pass(r, s) == s
  {
    if ':' !in s {
      NoColonNoMatch(r, s);
    } else {
      NoDelimiterNoMatch(r, s);
    }
    PassUnchanged(r, s);
  }

  // ----- The whole transform -----

  /** The output is obtained from the input by deleting characters; it is never longer. */
  lemma RemoveTimestampsDeletesOnly(text: string)
    ensures IsSubsequence(RemoveTimestamps(text), text)
    ensures |RemoveTimestamps(text)| <= |text|
  {
    if text == [] {
    } else {
      var c1 := Pass(Bracketed, text);
      var c2 := Pass(Comma, c1);
      var c3 := Pass(Dash, c2);
      var c4 := Pass(LineStart, c3);
      var c5 := Pass(MidText, c4);
      PassSubsequence(Bracketed, text);
      PassSubsequence(Comma, c1);
      PassSubsequence(Dash, c2);
      PassSubsequence(LineStart, c3);
      PassSubsequence(MidText, c4);
      SubsequenceTransitive(c2, c1, text);
      SubsequenceTransitive(c3, c2, text);
      SubsequenceTransitive(c4, c3, text);
      SubsequenceTransitive(c5, c4, text);
      SubsequenceLength(c5, text);
    }
  }

  /** The output equals the input exactly when none of the five rules matches the input. */
  lemma RemoveTimestampsUnchanged(text: string)
    ensures RemoveTimestamps(text) == text <==>
      NoMatch(Bracketed, text) && NoMatch(Comma, text) && NoMatch(Dash, text) &&
      NoMatch(LineStart, text) && NoMatch(MidText, text)
  {
    if text != [] {
      var c1 := Pass(Bracketed, text);
      var c2 := Pass(Comma, c1);
      var c3 := Pass(Dash, c2);
      var c4 := Pass(LineStart, c3);
      var c5 := Pass(MidText, c4);
      PassUnchanged(Bracketed, text);
      PassUnchanged(Comma, c1);
      PassUnchanged(Dash, c2);
      PassUnchanged(LineStart, c3);
      PassUnchanged(MidText, c4);
      if c5 == text {
        assert c1 == text;
        assert c2 == text;
        assert c3 == text;
        assert c4 == text;
      }
    }
  }

  /** Text without a colon comes back unchanged, since every rule needs a colon in its token. */
  lemma NoColonUnchanged(text: string)
    requires ':' !in text
    ensures RemoveTimestamps(text) == text
  {
    NoColonNoMatch(Bracketed, text);
    NoColonNoMatch(Comma, text);
    NoColonNoMatch(Dash, text);
    NoColonNoMatch(LineStart, text);
    NoColonNoMatch(MidText, text);
    RemoveTimestampsUnchanged(text);
  }

  /**
   * Every character other than a digit, `:`, `.`, `[`, `]`, `,`, `-` or
   * whitespace survives, and these characters keep their order.
   */
  lemma RemoveTimestampsKeepsProse(text: string)
    ensures Keep(RemoveTimestamps(text), IsProse) == Keep(text, IsProse)
  {
    if text != [] {
      var c1 := Pass(Bracketed, text);
      var c2 := Pass(Comma, c1);
      var c3 := Pass(Dash, c2);
      var c4 := Pass(LineStart, c3);
      var c5 := Pass(MidText, c4);
      PassSpares(Bracketed, text);
      PassSpares(Comma, c1);
      PassSpares(Dash, c2);
      PassSpares(LineStart, c3);
      PassSpares(MidText, c4);
      KeepNarrow(c1, text, Spared(Bracketed), IsProse);
      KeepNarrow(c2, c1, Spared(Comma), IsProse);
      KeepNarrow(c3, c2, Spared(Dash), IsProse);
      KeepNarrow(c4, c3, Spared(LineStart), IsProse);
      KeepNarrow(c5, c4, Spared(MidText), IsProse);
    }
  }
}
