/**
 * `removeTimestamps` (app/utils/timestampRemover.ts:12-35) on particular
 * inputs. For each pass that has something to look at, the `Step` lemmas
 * evaluate the rule's regular expression where it matters on the literal
 * text, the `Scan` lemma assembles the global replace from those steps
 * without looking at the text, and the `Pass` lemma joins the pieces.
 * The `Idle` lemmas collect the passes that find nothing to do, each by
 * `PassIdle`, and short `d:dd` and `dd:dd` tokens follow from
 * `ShortTokenEnds`.
 */
module TimestampExamples {
  import opened Wrappers
  import opened Sequences
  import opened TimestampToken
  import opened TimestampRules
  import opened TimestampRemover

  lemma BracketedStampsBracketedStep1Tokens(s: string)
    requires s == "[00:00] Hello [00:15] World"
    ensures TokenEnds(s, 1) == [6]
  {
    ShortTokenEnds(s, 1, 2);
  }

  lemma BracketedStampsBracketedStep1(s: string)
    requires s == "[00:00] Hello [00:15] World"
    ensures Attempts(Bracketed)(s, 0) == Some(Match(0, 1, 6, 7))
  {
    assert Opening(Bracketed, "[00:00] Hello [00:15] World", 0) == Some((1, 0));
    assert Closing(Bracketed, "[00:00] Hello [00:15] World", 6) == Some(7);
    BracketedStampsBracketedStep1Tokens(s);
    assert FirstClosing(Bracketed, "[00:00] Hello [00:15] World", [6]) == Some((6, 7));
    assert MatchAt(Bracketed, "[00:00] Hello [00:15] World", 0) == Some(Match(0, 1, 6, 7));
  }

  lemma BracketedStampsBracketedStep2(s: string)
    requires s == "[00:00] Hello [00:15] World"
    ensures forall t :: 7 <= t < 13 ==> Attempts(Bracketed)(s, t).None?
  {
    assert QuietBetween(Bracketed, "[00:00] Hello [00:15] World", 7, 13);
    QuietBetweenNoMatch(Bracketed, s, 7, 13);
  }

  lemma BracketedStampsBracketedStep3(s: string)
    requires s == "[00:00] Hello [00:15] World"
    ensures forall t :: 13 <= t < 14 ==> Attempts(Bracketed)(s, t).None?
  {
    assert QuietBetween(Bracketed, "[00:00] Hello [00:15] World", 13, 14);
    QuietBetweenNoMatch(Bracketed, s, 13, 14);
  }

  lemma BracketedStampsBracketedStep4Tokens(s: string)
    requires s == "[00:00] Hello [00:15] World"
    ensures TokenEnds(s, 15) == [20]
  {
    ShortTokenEnds(s, 15, 2);
  }

  lemma BracketedStampsBracketedStep4(s: string)
    requires s == "[00:00] Hello [00:15] World"
    ensures Attempts(Bracketed)(s, 14) == Some(Match(14, 15, 20, 21))
  {
    assert Opening(Bracketed, "[00:00] Hello [00:15] World", 14) == Some((15, 14));
    assert Closing(Bracketed, "[00:00] Hello [00:15] World", 20) == Some(21);
    BracketedStampsBracketedStep4Tokens(s);
    assert FirstClosing(Bracketed, "[00:00] Hello [00:15] World", [20]) == Some((20, 21));
    assert MatchAt(Bracketed, "[00:00] Hello [00:15] World", 14) == Some(Match(14, 15, 20, 21));
  }

  lemma BracketedStampsBracketedStep5(s: string)
    requires s == "[00:00] Hello [00:15] World"
    ensures forall t :: 21 <= t < 27 ==> Attempts(Bracketed)(s, t).None?
  {
    assert QuietBetween(Bracketed, "[00:00] Hello [00:15] World", 21, 27);
    QuietBetweenNoMatch(Bracketed, s, 21, 27);
  }

  lemma BracketedStampsBracketedScan(m: Attempt, s: string)
    requires |s| == 27 && Advances(m, s)
    requires m(s, 0) == Some(Match(0, 1, 6, 7))
    requires forall t :: 7 <= t < 13 ==> m(s, t).None?
    requires forall t :: 13 <= t < 14 ==> m(s, t).None?
    requires m(s, 14) == Some(Match(14, 15, 20, 21))
    requires forall t :: 21 <= t < 27 ==> m(s, t).None?
    ensures Replace(m, s, 0) == s[7..14] + s[21..27]
  {
    ReplaceMatched(m, s, 0);
    ReplaceCopies(m, s, 7, 13);
    ReplaceCopies(m, s, 13, 14);
    ReplaceMatched(m, s, 14);
    ReplaceCopies(m, s, 21, 27);
    JoinSlices(s, 7, 13, 14, Replace(m, s, 14));
    JoinSlices(s, 7, 14, 14, Replace(m, s, 21));
    assert Replace(m, s, 27) == [];
    assert s[21..27] + [] == s[21..27];
    assert Replace(m, s, 21) == s[21..27];
    assert Replace(m, s, 7) == s[7..14] + s[21..27];
    assert s[0..0] + Replace(m, s, 7) == Replace(m, s, 7);
    assert Replace(m, s, 0) == s[7..14] + s[21..27];
  }

  lemma BracketedStampsBracketedPieces(s: string)
    requires s == "[00:00] Hello [00:15] World"
    ensures s[7..14] + s[21..27] == " Hello  World"
  {
    assert "[00:00] Hello [00:15] World"[7..14] == " Hello ";
    assert "[00:00] Hello [00:15] World"[21..27] == " World";
    assert " Hello " + " World" == " Hello  World";
  }

  lemma BracketedStampsBracketedPass(s: string)
    requires s == "[00:00] Hello [00:15] World"
    ensures Pass(Bracketed, s) == " Hello  World"
  {
    BracketedStampsBracketedStep1(s);
    BracketedStampsBracketedStep2(s);
    BracketedStampsBracketedStep3(s);
    BracketedStampsBracketedStep4(s);
    BracketedStampsBracketedStep5(s);
    AttemptsAdvance(Bracketed, s);
    BracketedStampsBracketedScan(Attempts(Bracketed), s);
    BracketedStampsBracketedPieces(s);
  }

  /** Once the stamps are gone and no colon is left, the four later passes find nothing to do. */
  lemma ColonFreeIdleAfterBracketed(s: string)
    requires ':' !in s
    ensures Pass(Comma, s) == s && Pass(Dash, s) == s && Pass(LineStart, s) == s && Pass(MidText, s) == s
  {
    PassIdle(Comma, s);
    PassIdle(Dash, s);
    PassIdle(LineStart, s);
    PassIdle(MidText, s);
  }

  /** Bracketed stamps go with their brackets; the spaces around them stay. */
  lemma BracketedStamps(s: string)
    requires s == "[00:00] Hello [00:15] World"
    ensures RemoveTimestamps(s) == " Hello  World"
  {
    BracketedStampsBracketedPass(s);
    ColonFreeIdleAfterBracketed(" Hello  World");
  }

  lemma ProseBetweenStampsBracketedStep1Tokens(s: string, b: string, c: string, d: string)
    requires s == "[00:00]" + b + c + d
    ensures TokenEnds(s, 1) == [6]
  {
    ShortTokenEnds(s, 1, 2);
  }

  lemma ProseBetweenStampsBracketedStep1(s: string)
    requires s == "[00:00] Hello world [00:15] This is a test"
    ensures Attempts(Bracketed)(s, 0) == Some(Match(0, 1, 6, 7))
  {
    assert Opening(Bracketed, "[00:00] Hello world [00:15] This is a test", 0) == Some((1, 0));
    assert Closing(Bracketed, "[00:00] Hello world [00:15] This is a test", 6) == Some(7);
    ProseBetweenStampsSplit(s);
    ProseBetweenStampsBracketedStep1Tokens(s, " Hello world ", "[00:15]", " This is a test");
    assert FirstClosing(Bracketed, "[00:00] Hello world [00:15] This is a test", [6]) == Some((6, 7));
  }

  lemma ProseBetweenStampsBracketedStep2(s: string)
    requires s == "[00:00] Hello world [00:15] This is a test"
    ensures forall t :: 7 <= t < 20 ==> Attempts(Bracketed)(s, t).None?
  {
    assert forall t :: 7 <= t < 20 ==> s[t] != '[';
    forall t | 7 <= t < 20
      ensures Attempts(Bracketed)(s, t).None?
    {
      QuietNoMatch(Bracketed, s, t);
    }
  }

  lemma ProseBetweenStampsBracketedStep3Tokens(s: string)
    requires s == "[00:00] Hello world [00:15] This is a test"
    ensures TokenEnds(s, 21) == [26]
  {
    ShortTokenEnds(s, 21, 2);
  }

  lemma ProseBetweenStampsBracketedStep3(s: string)
    requires s == "[00:00] Hello world [00:15] This is a test"
    ensures Attempts(Bracketed)(s, 20) == Some(Match(20, 21, 26, 27))
  {
    assert Opening(Bracketed, "[00:00] Hello world [00:15] This is a test", 20) == Some((21, 20));
    assert Closing(Bracketed, "[00:00] Hello world [00:15] This is a test", 26) == Some(27);
    ProseBetweenStampsBracketedStep3Tokens(s);
    assert FirstClosing(Bracketed, "[00:00] Hello world [00:15] This is a test", [26]) == Some((26, 27));
  }

  lemma ProseBetweenStampsBracketedStep4(s: string)
    requires s == "[00:00] Hello world [00:15] This is a test"
    ensures forall t :: 27 <= t < 42 ==> Attempts(Bracketed)(s, t).None?
  {
    assert forall t :: 27 <= t < 42 ==> s[t] != '[';
    forall t | 27 <= t < 42
      ensures Attempts(Bracketed)(s, t).None?
    {
      QuietNoMatch(Bracketed, s, t);
    }
  }

  lemma ProseBetweenStampsBracketedScan(m: Attempt, s: string)
    requires |s| == 42 && Advances(m, s)
    requires m(s, 0) == Some(Match(0, 1, 6, 7))
    requires forall t :: 7 <= t < 20 ==> m(s, t).None?
    requires m(s, 20) == Some(Match(20, 21, 26, 27))
    requires forall t :: 27 <= t < 42 ==> m(s, t).None?
    ensures Replace(m, s, 0) == s[7..20] + s[27..42]
  {
    ReplaceMatched(m, s, 0);
    ReplaceCopies(m, s, 7, 20);
    ReplaceMatched(m, s, 20);
    ReplaceCopies(m, s, 27, 42);
    assert Replace(m, s, 42) == [];
    assert s[27..42] + [] == s[27..42];
  }

  /** The text as its two stamps and the prose after each; kept apart so that the slices below are taken of a concatenation, not of one long literal. */
  lemma ProseBetweenStampsSplit(s: string)
    requires s == "[00:00] Hello world [00:15] This is a test"
    ensures s == "[00:00]" + " Hello world " + "[00:15]" + " This is a test"
  {
  }

  lemma ProseBetweenStampsJoin()
    ensures " Hello world " + " This is a test" == " Hello world  This is a test"
  {
  }

  lemma ProseBetweenStampsBracketedPieces(s: string)
    requires s == "[00:00] Hello world [00:15] This is a test"
    ensures s[7..20] + s[27..42] == " Hello world  This is a test"
  {
    ProseBetweenStampsSplit(s);
    MiddleAndLast("[00:00]", " Hello world ", "[00:15]", " This is a test");
    ProseBetweenStampsJoin();
  }

  lemma ProseBetweenStampsBracketedPass(s: string)
    requires s == "[00:00] Hello world [00:15] This is a test"
    ensures Pass(Bracketed, s) == " Hello world  This is a test"
  {
    ProseBetweenStampsBracketedStep1(s);
    ProseBetweenStampsBracketedStep2(s);
    ProseBetweenStampsBracketedStep3(s);
    ProseBetweenStampsBracketedStep4(s);
    AttemptsAdvance(Bracketed, s);
    ProseBetweenStampsBracketedScan(Attempts(Bracketed), s);
    ProseBetweenStampsBracketedPieces(s);
  }

  /**
   * Two bracketed stamps around prose: each goes with its brackets and
   * both spaces around the second one stay, so the words are separated by
   * two spaces and the text starts with one.
   */
  lemma ProseBetweenStamps(s: string)
    requires s == "[00:00] Hello world [00:15] This is a test"
    ensures RemoveTimestamps(s) == " Hello world  This is a test"
  {
    ProseBetweenStampsBracketedPass(s);
    ColonFreeIdleAfterBracketed(" Hello world  This is a test");
  }

  lemma CommaStampIdleBefore(s: string)
    requires s == "0:00:00.000, Hello"
    ensures Pass(Bracketed, s) == s
  {
    assert '[' !in s;
    PassIdle(Bracketed, s);
  }

  lemma CommaStampCommaStep1Fraction7(s: string)
    requires s == "0:00:00.000, Hello"
    ensures EndsFrom(s, 7, Fraction) == [11, 10, 9, 7]
  {
    assert FractionDigits("0:00:00.000, Hello", 7) == 3;
    assert EndsFrom("0:00:00.000, Hello", 7, Fraction) == [11, 10, 9, 7];
  }

  lemma CommaStampCommaStep1Fraction4(s: string)
    requires s == "0:00:00.000, Hello"
    ensures EndsFrom(s, 4, Fraction) == [4]
  {
    assert FractionDigits("0:00:00.000, Hello", 4) == 0;
    assert EndsFrom("0:00:00.000, Hello", 4, Fraction) == [4];
  }

  lemma CommaStampCommaStep1Seconds4(s: string)
    requires s == "0:00:00.000, Hello"
    ensures EndsFrom(s, 4, Seconds) == [11, 10, 9, 7, 4]
  {
    CommaStampCommaStep1Fraction7(s);
    CommaStampCommaStep1Fraction4(s);
    assert ColonPairAt("0:00:00.000, Hello", 4) == true;
  }

  lemma CommaStampCommaStep1Minutes1(s: string)
    requires s == "0:00:00.000, Hello"
    ensures EndsFrom(s, 1, Minutes) == [11, 10, 9, 7, 4]
  {
    CommaStampCommaStep1Seconds4(s);
    assert ColonPairAt("0:00:00.000, Hello", 1) == true;
  }

  lemma CommaStampCommaStep1Tokens(s: string)
    requires s == "0:00:00.000, Hello"
    ensures TokenEnds(s, 0) == [11, 10, 9, 7, 4]
  {
    CommaStampCommaStep1Minutes1(s);
    assert DigitAt("0:00:00.000, Hello", 0) == true;
    assert DigitAt("0:00:00.000, Hello", 1) == false;
  }

  lemma CommaStampCommaStep1(s: string)
    requires s == "0:00:00.000, Hello"
    ensures Attempts(Comma)(s, 0) == Some(Match(0, 0, 11, 12))
  {
    assert Opening(Comma, "0:00:00.000, Hello", 0) == Some((0, 0));
    assert Closing(Comma, "0:00:00.000, Hello", 11) == Some(12);
    CommaStampCommaStep1Tokens(s);
    assert FirstClosing(Comma, "0:00:00.000, Hello", [11, 10, 9, 7, 4]) == Some((11, 12));
    assert MatchAt(Comma, "0:00:00.000, Hello", 0) == Some(Match(0, 0, 11, 12));
  }

  lemma CommaStampCommaStep2(s: string)
    requires s == "0:00:00.000, Hello"
    ensures forall t :: 12 <= t < 18 ==> Attempts(Comma)(s, t).None?
  {
    assert QuietBetween(Comma, "0:00:00.000, Hello", 12, 18);
    QuietBetweenNoMatch(Comma, s, 12, 18);
  }

  lemma CommaStampCommaScan(m: Attempt, s: string)
    requires |s| == 18 && Advances(m, s)
    requires m(s, 0) == Some(Match(0, 0, 11, 12))
    requires forall t :: 12 <= t < 18 ==> m(s, t).None?
    ensures Replace(m, s, 0) == s[12..18]
  {
    ReplaceMatched(m, s, 0);
    ReplaceCopies(m, s, 12, 18);
    assert Replace(m, s, 18) == [];
    assert s[12..18] + [] == s[12..18];
    assert Replace(m, s, 12) == s[12..18];
    assert s[0..0] + Replace(m, s, 12) == Replace(m, s, 12);
    assert Replace(m, s, 0) == s[12..18];
  }

  lemma CommaStampCommaPieces(s: string)
    requires s == "0:00:00.000, Hello"
    ensures s[12..18] == " Hello"
  {
    assert "0:00:00.000, Hello"[12..18] == " Hello";
  }

  lemma CommaStampCommaPass(s: string)
    requires s == "0:00:00.000, Hello"
    ensures Pass(Comma, s) == " Hello"
  {
    CommaStampCommaStep1(s);
    CommaStampCommaStep2(s);
    AttemptsAdvance(Comma, s);
    CommaStampCommaScan(Attempts(Comma), s);
    CommaStampCommaPieces(s);
  }

  lemma CommaStampIdleAfter(s: string)
    requires s == " Hello"
    ensures Pass(Dash, s) == s && Pass(LineStart, s) == s && Pass(MidText, s) == s
  {
    assert ':' !in s;
    PassIdle(Dash, s);
    PassIdle(LineStart, s);
    PassIdle(MidText, s);
  }

  /** A stamp with hours and milliseconds before a comma goes with the comma. */
  lemma CommaStamp(s: string)
    requires s == "0:00:00.000, Hello"
    ensures RemoveTimestamps(s) == " Hello"
  {
    CommaStampIdleBefore(s);
    var c1 := Pass(Bracketed, s);
    CommaStampCommaPass(c1);
    var c2 := Pass(Comma, c1);
    CommaStampIdleAfter(c2);
  }

  lemma DashStampIdleBefore(s: string)
    requires s == "00:00 - Intro text"
    ensures Pass(Bracketed, s) == s && Pass(Comma, s) == s
  {
    assert '[' !in s && ',' !in s;
    PassIdle(Bracketed, s);
    PassIdle(Comma, s);
  }

  lemma DashStampDashStep1Tokens(s: string)
    requires s == "00:00 - Intro text"
    ensures TokenEnds(s, 0) == [5]
  {
    ShortTokenEnds(s, 0, 2);
  }

  lemma DashStampDashStep1Closing(s: string)
    requires s == "00:00 - Intro text"
    ensures Closing(Dash, s, 5) == Some(8)
  {
    assert SkipSpaces("00:00 - Intro text", 5) == 6;
    assert SkipSpaces("00:00 - Intro text", 7) == 8;
  }

  lemma DashStampDashStep1(s: string)
    requires s == "00:00 - Intro text"
    ensures Attempts(Dash)(s, 0) == Some(Match(0, 0, 5, 8))
  {
    assert Opening(Dash, "00:00 - Intro text", 0) == Some((0, 0));
    DashStampDashStep1Closing(s);
    DashStampDashStep1Tokens(s);
    assert FirstClosing(Dash, "00:00 - Intro text", [5]) == Some((5, 8));
    assert MatchAt(Dash, "00:00 - Intro text", 0) == Some(Match(0, 0, 5, 8));
  }

  lemma DashStampDashStep2(s: string)
    requires s == "00:00 - Intro text"
    ensures forall t :: 8 <= t < 14 ==> Attempts(Dash)(s, t).None?
  {
    assert QuietBetween(Dash, "00:00 - Intro text", 8, 14);
    QuietBetweenNoMatch(Dash, s, 8, 14);
  }

  lemma DashStampDashStep3(s: string)
    requires s == "00:00 - Intro text"
    ensures forall t :: 14 <= t < 18 ==> Attempts(Dash)(s, t).None?
  {
    assert QuietBetween(Dash, "00:00 - Intro text", 14, 18);
    QuietBetweenNoMatch(Dash, s, 14, 18);
  }

  lemma DashStampDashScan(m: Attempt, s: string)
    requires |s| == 18 && Advances(m, s)
    requires m(s, 0) == Some(Match(0, 0, 5, 8))
    requires forall t :: 8 <= t < 14 ==> m(s, t).None?
    requires forall t :: 14 <= t < 18 ==> m(s, t).None?
    ensures Replace(m, s, 0) == s[8..18]
  {
    ReplaceMatched(m, s, 0);
    ReplaceCopies(m, s, 8, 14);
    ReplaceCopies(m, s, 14, 18);
    JoinSlices(s, 8, 14, 18, Replace(m, s, 18));
    assert Replace(m, s, 18) == [];
    assert s[8..18] + [] == s[8..18];
    assert Replace(m, s, 8) == s[8..18];
    assert s[0..0] + Replace(m, s, 8) == Replace(m, s, 8);
    assert Replace(m, s, 0) == s[8..18];
  }

  lemma DashStampDashPieces(s: string)
    requires s == "00:00 - Intro text"
    ensures s[8..18] == "Intro text"
  {
    assert "00:00 - Intro text"[8..18] == "Intro text";
  }

  lemma DashStampDashPass(s: string)
    requires s == "00:00 - Intro text"
    ensures Pass(Dash, s) == "Intro text"
  {
    DashStampDashStep1(s);
    DashStampDashStep2(s);
    DashStampDashStep3(s);
    AttemptsAdvance(Dash, s);
    DashStampDashScan(Attempts(Dash), s);
    DashStampDashPieces(s);
  }

  lemma DashStampIdleAfter(s: string)
    requires s == "Intro text"
    ensures Pass(LineStart, s) == s && Pass(MidText, s) == s
  {
    assert ':' !in s;
    PassIdle(LineStart, s);
    PassIdle(MidText, s);
  }

  /** A stamp before a dash goes with the dash and the whitespace on both sides of it. */
  lemma DashStamp(s: string)
    requires s == "00:00 - Intro text"
    ensures RemoveTimestamps(s) == "Intro text"
  {
    DashStampIdleBefore(s);
    var c1 := Pass(Bracketed, s);
    var c2 := Pass(Comma, c1);
    DashStampDashPass(c2);
    var c3 := Pass(Dash, c2);
    DashStampIdleAfter(c3);
  }

  lemma GluedStampIdleBefore(s: string)
    requires s == "x12:34,"
    ensures Pass(Bracketed, s) == s
  {
    assert '[' !in s;
    PassIdle(Bracketed, s);
  }

  lemma GluedStampCommaStep1(s: string)
    requires s == "x12:34,"
    ensures forall t :: 0 <= t < 1 ==> Attempts(Comma)(s, t).None?
  {
    assert QuietBetween(Comma, "x12:34,", 0, 1);
    QuietBetweenNoMatch(Comma, s, 0, 1);
  }

  lemma GluedStampCommaStep2Tokens(s: string)
    requires s == "x12:34,"
    ensures TokenEnds(s, 1) == [6]
  {
    ShortTokenEnds(s, 1, 2);
  }

  lemma GluedStampCommaStep2(s: string)
    requires s == "x12:34,"
    ensures Attempts(Comma)(s, 1) == Some(Match(1, 1, 6, 7))
  {
    assert Opening(Comma, "x12:34,", 1) == Some((1, 1));
    assert Closing(Comma, "x12:34,", 6) == Some(7);
    GluedStampCommaStep2Tokens(s);
    assert FirstClosing(Comma, "x12:34,", [6]) == Some((6, 7));
    assert MatchAt(Comma, "x12:34,", 1) == Some(Match(1, 1, 6, 7));
  }

  lemma GluedStampCommaScan(m: Attempt, s: string)
    requires |s| == 7 && Advances(m, s)
    requires forall t :: 0 <= t < 1 ==> m(s, t).None?
    requires m(s, 1) == Some(Match(1, 1, 6, 7))
    ensures Replace(m, s, 0) == s[0..1]
  {
    ReplaceCopies(m, s, 0, 1);
    ReplaceMatched(m, s, 1);
    JoinSlices(s, 0, 1, 1, Replace(m, s, 7));
    assert Replace(m, s, 7) == [];
    assert s[0..1] + [] == s[0..1];
    assert Replace(m, s, 0) == s[0..1];
  }

  lemma GluedStampCommaPieces(s: string)
    requires s == "x12:34,"
    ensures s[0..1] == "x"
  {
    assert "x12:34,"[0..1] == "x";
  }

  lemma GluedStampCommaPass(s: string)
    requires s == "x12:34,"
    ensures Pass(Comma, s) == "x"
  {
    GluedStampCommaStep1(s);
    GluedStampCommaStep2(s);
    AttemptsAdvance(Comma, s);
    GluedStampCommaScan(Attempts(Comma), s);
    GluedStampCommaPieces(s);
  }

  lemma GluedStampIdleAfter(s: string)
    requires s == "x"
    ensures Pass(Dash, s) == s && Pass(LineStart, s) == s && Pass(MidText, s) == s
  {
    assert ':' !in s;
    PassIdle(Dash, s);
    PassIdle(LineStart, s);
    PassIdle(MidText, s);
  }

  /** The comma rule needs no whitespace before the stamp. */
  lemma GluedStamp(s: string)
    requires s == "x12:34,"
    ensures RemoveTimestamps(s) == "x"
  {
    GluedStampIdleBefore(s);
    var c1 := Pass(Bracketed, s);
    GluedStampCommaPass(c1);
    var c2 := Pass(Comma, c1);
    GluedStampIdleAfter(c2);
  }

  lemma SubtitleCuesIdleBefore(s: string)
    requires s == "00:00:00,000 --> 00:00:05,000"
    ensures Pass(Bracketed, s) == s
  {
    assert '[' !in s;
    PassIdle(Bracketed, s);
  }

  lemma SubtitleCuesCommaStep1Fraction8(s: string)
    requires s == "00:00:00,000 --> 00:00:05,000"
    ensures EndsFrom(s, 8, Fraction) == [8]
  {
    assert FractionDigits("00:00:00,000 --> 00:00:05,000", 8) == 0;
    assert EndsFrom("00:00:00,000 --> 00:00:05,000", 8, Fraction) == [8];
  }

  lemma SubtitleCuesCommaStep1Fraction5(s: string)
    requires s == "00:00:00,000 --> 00:00:05,000"
    ensures EndsFrom(s, 5, Fraction) == [5]
  {
    assert FractionDigits("00:00:00,000 --> 00:00:05,000", 5) == 0;
    assert EndsFrom("00:00:00,000 --> 00:00:05,000", 5, Fraction) == [5];
  }

  lemma SubtitleCuesCommaStep1Seconds5(s: string)
    requires s == "00:00:00,000 --> 00:00:05,000"
    ensures EndsFrom(s, 5, Seconds) == [8, 5]
  {
    SubtitleCuesCommaStep1Fraction8(s);
    SubtitleCuesCommaStep1Fraction5(s);
    assert ColonPairAt("00:00:00,000 --> 00:00:05,000", 5) == true;
  }

  lemma SubtitleCuesCommaStep1Minutes2(s: string)
    requires s == "00:00:00,000 --> 00:00:05,000"
    ensures EndsFrom(s, 2, Minutes) == [8, 5]
  {
    SubtitleCuesCommaStep1Seconds5(s);
    assert ColonPairAt("00:00:00,000 --> 00:00:05,000", 2) == true;
  }

  lemma SubtitleCuesCommaStep1Minutes1(s: string)
    requires s == "00:00:00,000 --> 00:00:05,000"
    ensures EndsFrom(s, 1, Minutes) == []
  {
    assert ColonPairAt("00:00:00,000 --> 00:00:05,000", 1) == false;
  }

  lemma SubtitleCuesCommaStep1Tokens(s: string)
    requires s == "00:00:00,000 --> 00:00:05,000"
    ensures TokenEnds(s, 0) == [8, 5]
  {
    SubtitleCuesCommaStep1Minutes2(s);
    SubtitleCuesCommaStep1Minutes1(s);
    assert DigitAt("00:00:00,000 --> 00:00:05,000", 0) == true;
    assert DigitAt("00:00:00,000 --> 00:00:05,000", 1) == true;
  }

  lemma SubtitleCuesCommaStep1(s: string)
    requires s == "00:00:00,000 --> 00:00:05,000"
    ensures Attempts(Comma)(s, 0) == Some(Match(0, 0, 8, 9))
  {
    assert Opening(Comma, "00:00:00,000 --> 00:00:05,000", 0) == Some((0, 0));
    assert Closing(Comma, "00:00:00,000 --> 00:00:05,000", 8) == Some(9);
    SubtitleCuesCommaStep1Tokens(s);
    assert FirstClosing(Comma, "00:00:00,000 --> 00:00:05,000", [8, 5]) == Some((8, 9));
    assert MatchAt(Comma, "00:00:00,000 --> 00:00:05,000", 0) == Some(Match(0, 0, 8, 9));
  }

  lemma SubtitleCuesCommaStep2(s: string)
    requires s == "00:00:00,000 --> 00:00:05,000"
    ensures forall t :: 9 <= t < 15 ==> Attempts(Comma)(s, t).None?
  {
    assert QuietBetween(Comma, "00:00:00,000 --> 00:00:05,000", 9, 15);
    QuietBetweenNoMatch(Comma, s, 9, 15);
  }

  lemma SubtitleCuesCommaStep3(s: string)
    requires s == "00:00:00,000 --> 00:00:05,000"
    ensures forall t :: 15 <= t < 17 ==> Attempts(Comma)(s, t).None?
  {
    assert QuietBetween(Comma, "00:00:00,000 --> 00:00:05,000", 15, 17);
    QuietBetweenNoMatch(Comma, s, 15, 17);
  }

  lemma SubtitleCuesCommaStep4Fraction25(s: string)
    requires s == "00:00:00,000 --> 00:00:05,000"
    ensures EndsFrom(s, 25, Fraction) == [25]
  {
    assert FractionDigits("00:00:00,000 --> 00:00:05,000", 25) == 0;
    assert EndsFrom("00:00:00,000 --> 00:00:05,000", 25, Fraction) == [25];
  }

  lemma SubtitleCuesCommaStep4Fraction22(s: string)
    requires s == "00:00:00,000 --> 00:00:05,000"
    ensures EndsFrom(s, 22, Fraction) == [22]
  {
    assert FractionDigits("00:00:00,000 --> 00:00:05,000", 22) == 0;
    assert EndsFrom("00:00:00,000 --> 00:00:05,000", 22, Fraction) == [22];
  }

  lemma SubtitleCuesCommaStep4Seconds22(s: string)
    requires s == "00:00:00,000 --> 00:00:05,000"
    ensures EndsFrom(s, 22, Seconds) == [25, 22]
  {
    SubtitleCuesCommaStep4Fraction25(s);
    SubtitleCuesCommaStep4Fraction22(s);
    assert ColonPairAt("00:00:00,000 --> 00:00:05,000", 22) == true;
  }

  lemma SubtitleCuesCommaStep4Minutes19(s: string)
    requires s == "00:00:00,000 --> 00:00:05,000"
    ensures EndsFrom(s, 19, Minutes) == [25, 22]
  {
    SubtitleCuesCommaStep4Seconds22(s);
    assert ColonPairAt("00:00:00,000 --> 00:00:05,000", 19) == true;
  }

  lemma SubtitleCuesCommaStep4Minutes18(s: string)
    requires s == "00:00:00,000 --> 00:00:05,000"
    ensures EndsFrom(s, 18, Minutes) == []
  {
    assert ColonPairAt("00:00:00,000 --> 00:00:05,000", 18) == false;
  }

  lemma SubtitleCuesCommaStep4Tokens(s: string)
    requires s == "00:00:00,000 --> 00:00:05,000"
    ensures TokenEnds(s, 17) == [25, 22]
  {
    SubtitleCuesCommaStep4Minutes19(s);
    SubtitleCuesCommaStep4Minutes18(s);
    assert DigitAt("00:00:00,000 --> 00:00:05,000", 17) == true;
    assert DigitAt("00:00:00,000 --> 00:00:05,000", 18) == true;
  }

  lemma SubtitleCuesCommaStep4(s: string)
    requires s == "00:00:00,000 --> 00:00:05,000"
    ensures Attempts(Comma)(s, 17) == Some(Match(17, 17, 25, 26))
  {
    assert Opening(Comma, "00:00:00,000 --> 00:00:05,000", 17) == Some((17, 17));
    assert Closing(Comma, "00:00:00,000 --> 00:00:05,000", 25) == Some(26);
    SubtitleCuesCommaStep4Tokens(s);
    assert FirstClosing(Comma, "00:00:00,000 --> 00:00:05,000", [25, 22]) == Some((25, 26));
    assert MatchAt(Comma, "00:00:00,000 --> 00:00:05,000", 17) == Some(Match(17, 17, 25, 26));
  }

  lemma SubtitleCuesCommaStep5(s: string)
    requires s == "00:00:00,000 --> 00:00:05,000"
    ensures forall t :: 26 <= t < 29 ==> Attempts(Comma)(s, t).None?
  {
    assert QuietBetween(Comma, "00:00:00,000 --> 00:00:05,000", 26, 29);
    QuietBetweenNoMatch(Comma, s, 26, 29);
  }

  lemma SubtitleCuesCommaScan(m: Attempt, s: string)
    requires |s| == 29 && Advances(m, s)
    requires m(s, 0) == Some(Match(0, 0, 8, 9))
    requires forall t :: 9 <= t < 15 ==> m(s, t).None?
    requires forall t :: 15 <= t < 17 ==> m(s, t).None?
    requires m(s, 17) == Some(Match(17, 17, 25, 26))
    requires forall t :: 26 <= t < 29 ==> m(s, t).None?
    ensures Replace(m, s, 0) == s[9..17] + s[26..29]
  {
    ReplaceMatched(m, s, 0);
    ReplaceCopies(m, s, 9, 15);
    ReplaceCopies(m, s, 15, 17);
    ReplaceMatched(m, s, 17);
    ReplaceCopies(m, s, 26, 29);
    JoinSlices(s, 9, 15, 17, Replace(m, s, 17));
    JoinSlices(s, 9, 17, 17, Replace(m, s, 26));
    assert Replace(m, s, 29) == [];
    assert s[26..29] + [] == s[26..29];
    assert Replace(m, s, 26) == s[26..29];
    assert Replace(m, s, 9) == s[9..17] + s[26..29];
    assert s[0..0] + Replace(m, s, 9) == Replace(m, s, 9);
    assert Replace(m, s, 0) == s[9..17] + s[26..29];
  }

  lemma SubtitleCuesCommaPieces(s: string)
    requires s == "00:00:00,000 --> 00:00:05,000"
    ensures s[9..17] + s[26..29] == "000 --> 000"
  {
    assert "00:00:00,000 --> 00:00:05,000"[9..17] == "000 --> ";
    assert "00:00:00,000 --> 00:00:05,000"[26..29] == "000";
    assert "000 --> " + "000" == "000 --> 000";
  }

  lemma SubtitleCuesCommaPass(s: string)
    requires s == "00:00:00,000 --> 00:00:05,000"
    ensures Pass(Comma, s) == "000 --> 000"
  {
    SubtitleCuesCommaStep1(s);
    SubtitleCuesCommaStep2(s);
    SubtitleCuesCommaStep3(s);
    SubtitleCuesCommaStep4(s);
    SubtitleCuesCommaStep5(s);
    AttemptsAdvance(Comma, s);
    SubtitleCuesCommaScan(Attempts(Comma), s);
    SubtitleCuesCommaPieces(s);
  }

  lemma SubtitleCuesIdleAfter(s: string)
    requires s == "000 --> 000"
    ensures Pass(Dash, s) == s && Pass(LineStart, s) == s && Pass(MidText, s) == s
  {
    assert ':' !in s;
    PassIdle(Dash, s);
    PassIdle(LineStart, s);
    PassIdle(MidText, s);
  }

  /** In subtitle cue times only the part before each comma is a stamp: the milliseconds after it stay. */
  lemma SubtitleCues(s: string)
    requires s == "00:00:00,000 --> 00:00:05,000"
    ensures RemoveTimestamps(s) == "000 --> 000"
  {
    SubtitleCuesIdleBefore(s);
    var c1 := Pass(Bracketed, s);
    SubtitleCuesCommaPass(c1);
    var c2 := Pass(Comma, c1);
    SubtitleCuesIdleAfter(c2);
  }

  lemma MidTextStampIdleBefore(s: string)
    requires s == "Chapter 12:30 meeting"
    ensures Pass(Bracketed, s) == s && Pass(Comma, s) == s && Pass(Dash, s) == s
  {
    assert '[' !in s && ',' !in s && '-' !in s;
    PassIdle(Bracketed, s);
    PassIdle(Comma, s);
    PassIdle(Dash, s);
  }

  lemma MidTextStampSingleLine(s: string)
    requires s == "Chapter 12:30 meeting"
    ensures SingleLine(s) && !MayMatch(LineStart, s, 0)
  {
    assert SingleLine("Chapter 12:30 meeting") && !MayMatch(LineStart, "Chapter 12:30 meeting", 0);
  }

  lemma MidTextStampLineStartPass(s: string)
    requires s == "Chapter 12:30 meeting"
    ensures Pass(LineStart, s) == "Chapter 12:30 meeting"
  {
    MidTextStampSingleLine(s);
    SingleLineStart(s);
  }

  lemma MidTextStampMidTextStep1(s: string)
    requires s == "Chapter 12:30 meeting"
    ensures forall t :: 0 <= t < 6 ==> Attempts(MidText)(s, t).None?
  {
    assert QuietBetween(MidText, "Chapter 12:30 meeting", 0, 6);
    QuietBetweenNoMatch(MidText, s, 0, 6);
  }

  lemma MidTextStampMidTextStep2(s: string)
    requires s == "Chapter 12:30 meeting"
    ensures forall t :: 6 <= t < 7 ==> Attempts(MidText)(s, t).None?
  {
    assert QuietBetween(MidText, "Chapter 12:30 meeting", 6, 7);
    QuietBetweenNoMatch(MidText, s, 6, 7);
  }

  lemma MidTextStampMidTextStep3Tokens(s: string)
    requires s == "Chapter 12:30 meeting"
    ensures TokenEnds(s, 8) == [13]
  {
    ShortTokenEnds(s, 8, 2);
  }

  lemma MidTextStampMidTextStep3Opening(s: string)
    requires s == "Chapter 12:30 meeting"
    ensures Opening(MidText, s, 7) == Some((8, 8))
  {
    assert s[7] == ' ' && s[8] == '1';
    assert SkipSpaces(s, 8) == 8;
  }

  lemma MidTextStampMidTextStep3(s: string)
    requires s == "Chapter 12:30 meeting"
    ensures Attempts(MidText)(s, 7) == Some(Match(8, 8, 13, 13))
  {
    MidTextStampMidTextStep3Opening(s);
    assert Closing(MidText, "Chapter 12:30 meeting", 13) == Some(13);
    MidTextStampMidTextStep3Tokens(s);
    assert FirstClosing(MidText, "Chapter 12:30 meeting", [13]) == Some((13, 13));
    assert MatchAt(MidText, "Chapter 12:30 meeting", 7) == Some(Match(8, 8, 13, 13));
  }

  lemma MidTextStampMidTextStep4(s: string)
    requires s == "Chapter 12:30 meeting"
    ensures forall t :: 13 <= t < 19 ==> Attempts(MidText)(s, t).None?
  {
    assert QuietBetween(MidText, "Chapter 12:30 meeting", 13, 19);
    QuietBetweenNoMatch(MidText, s, 13, 19);
  }

  lemma MidTextStampMidTextStep5(s: string)
    requires s == "Chapter 12:30 meeting"
    ensures forall t :: 19 <= t < 21 ==> Attempts(MidText)(s, t).None?
  {
    assert QuietBetween(MidText, "Chapter 12:30 meeting", 19, 21);
    QuietBetweenNoMatch(MidText, s, 19, 21);
  }

  lemma MidTextStampMidTextScan(m: Attempt, s: string)
    requires |s| == 21 && Advances(m, s)
    requires forall t :: 0 <= t < 6 ==> m(s, t).None?
    requires forall t :: 6 <= t < 7 ==> m(s, t).None?
    requires m(s, 7) == Some(Match(8, 8, 13, 13))
    requires forall t :: 13 <= t < 19 ==> m(s, t).None?
    requires forall t :: 19 <= t < 21 ==> m(s, t).None?
    ensures Replace(m, s, 0) == s[0..8] + s[13..21]
  {
    ReplaceCopies(m, s, 0, 6);
    ReplaceCopies(m, s, 6, 7);
    ReplaceMatched(m, s, 7);
    ReplaceCopies(m, s, 13, 19);
    ReplaceCopies(m, s, 19, 21);
    JoinSlices(s, 0, 6, 7, Replace(m, s, 7));
    JoinSlices(s, 0, 7, 8, Replace(m, s, 13));
    JoinSlices(s, 13, 19, 21, Replace(m, s, 21));
    assert Replace(m, s, 21) == [];
    assert s[13..21] + [] == s[13..21];
    assert Replace(m, s, 13) == s[13..21];
    assert Replace(m, s, 0) == s[0..8] + s[13..21];
  }

  lemma MidTextStampMidTextPieces(s: string)
    requires s == "Chapter 12:30 meeting"
    ensures s[0..8] + s[13..21] == "Chapter  meeting"
  {
    assert "Chapter 12:30 meeting"[0..8] == "Chapter ";
    assert "Chapter 12:30 meeting"[13..21] == " meeting";
    assert "Chapter " + " meeting" == "Chapter  meeting";
  }

  lemma MidTextStampMidTextPass(s: string)
    requires s == "Chapter 12:30 meeting"
    ensures Pass(MidText, s) == "Chapter  meeting"
  {
    MidTextStampMidTextStep1(s);
    MidTextStampMidTextStep2(s);
    MidTextStampMidTextStep3(s);
    MidTextStampMidTextStep4(s);
    MidTextStampMidTextStep5(s);
    AttemptsAdvance(MidText, s);
    MidTextStampMidTextScan(Attempts(MidText), s);
    MidTextStampMidTextPieces(s);
  }

  /** A stamp between spaces goes and both spaces stay. */
  lemma MidTextStamp(s: string)
    requires s == "Chapter 12:30 meeting"
    ensures RemoveTimestamps(s) == "Chapter  meeting"
  {
    MidTextStampIdleBefore(s);
    var c1 := Pass(Bracketed, s);
    var c2 := Pass(Comma, c1);
    var c3 := Pass(Dash, c2);
    MidTextStampLineStartPass(c3);
    var c4 := Pass(LineStart, c3);
    MidTextStampMidTextPass(c4);
  }

  lemma ClockTimeKeptIdleBefore(s: string)
    requires s == "at 12:30pm"
    ensures Pass(Bracketed, s) == s && Pass(Comma, s) == s && Pass(Dash, s) == s
  {
    assert '[' !in s && ',' !in s && '-' !in s;
    PassIdle(Bracketed, s);
    PassIdle(Comma, s);
    PassIdle(Dash, s);
  }

  lemma ClockTimeKeptSingleLine(s: string)
    requires s == "at 12:30pm"
    ensures SingleLine(s) && !MayMatch(LineStart, s, 0)
  {
    assert SingleLine("at 12:30pm") && !MayMatch(LineStart, "at 12:30pm", 0);
  }

  lemma ClockTimeKeptLineStartPass(s: string)
    requires s == "at 12:30pm"
    ensures Pass(LineStart, s) == "at 12:30pm"
  {
    ClockTimeKeptSingleLine(s);
    SingleLineStart(s);
  }

  lemma ClockTimeKeptMidTextStep1(s: string)
    requires s == "at 12:30pm"
    ensures forall t :: 0 <= t < 2 ==> Attempts(MidText)(s, t).None?
  {
    assert QuietBetween(MidText, "at 12:30pm", 0, 2);
    QuietBetweenNoMatch(MidText, s, 0, 2);
  }

  lemma ClockTimeKeptMidTextStep2Tokens(s: string)
    requires s == "at 12:30pm"
    ensures TokenEnds(s, 3) == [8]
  {
    ShortTokenEnds(s, 3, 2);
  }

  lemma ClockTimeKeptMidTextStep2(s: string)
    requires s == "at 12:30pm"
    ensures Attempts(MidText)(s, 2).None?
  {
    assert Opening(MidText, "at 12:30pm", 2) == Some((3, 3));
    assert Closing(MidText, "at 12:30pm", 8).None?;
    ClockTimeKeptMidTextStep2Tokens(s);
    assert FirstClosing(MidText, "at 12:30pm", [8]).None?;
    assert MatchAt(MidText, "at 12:30pm", 2).None?;
  }

  lemma ClockTimeKeptMidTextStep3(s: string)
    requires s == "at 12:30pm"
    ensures forall t :: 3 <= t < 9 ==> Attempts(MidText)(s, t).None?
  {
    assert QuietBetween(MidText, "at 12:30pm", 3, 9);
    QuietBetweenNoMatch(MidText, s, 3, 9);
  }

  lemma ClockTimeKeptMidTextStep4(s: string)
    requires s == "at 12:30pm"
    ensures forall t :: 9 <= t < 10 ==> Attempts(MidText)(s, t).None?
  {
    assert QuietBetween(MidText, "at 12:30pm", 9, 10);
    QuietBetweenNoMatch(MidText, s, 9, 10);
  }

  lemma ClockTimeKeptMidTextScan(m: Attempt, s: string)
    requires |s| == 10 && Advances(m, s)
    requires forall t :: 0 <= t < 2 ==> m(s, t).None?
    requires m(s, 2).None?
    requires forall t :: 3 <= t < 9 ==> m(s, t).None?
    requires forall t :: 9 <= t < 10 ==> m(s, t).None?
    ensures Replace(m, s, 0) == s[0..10]
  {
    ReplaceCopies(m, s, 0, 2);
    ReplaceUnmatched(m, s, 2);
    assert s[2..3] == [s[2]];
    ReplaceCopies(m, s, 3, 9);
    ReplaceCopies(m, s, 9, 10);
    JoinSlices(s, 0, 2, 3, Replace(m, s, 3));
    JoinSlices(s, 0, 3, 9, Replace(m, s, 9));
    JoinSlices(s, 0, 9, 10, Replace(m, s, 10));
    assert Replace(m, s, 10) == [];
    assert s[0..10] + [] == s[0..10];
    assert Replace(m, s, 0) == s[0..10];
  }

  lemma ClockTimeKeptMidTextPieces(s: string)
    requires s == "at 12:30pm"
    ensures s[0..10] == "at 12:30pm"
  {
    assert "at 12:30pm"[0..10] == "at 12:30pm";
  }

  lemma ClockTimeKeptMidTextPass(s: string)
    requires s == "at 12:30pm"
    ensures Pass(MidText, s) == "at 12:30pm"
  {
    ClockTimeKeptMidTextStep1(s);
    ClockTimeKeptMidTextStep2(s);
    ClockTimeKeptMidTextStep3(s);
    ClockTimeKeptMidTextStep4(s);
    AttemptsAdvance(MidText, s);
    ClockTimeKeptMidTextScan(Attempts(MidText), s);
    ClockTimeKeptMidTextPieces(s);
  }

  /** A time glued to a word is not a stamp for any rule. */
  lemma ClockTimeKept(s: string)
    requires s == "at 12:30pm"
    ensures RemoveTimestamps(s) == "at 12:30pm"
  {
    ClockTimeKeptIdleBefore(s);
    var c1 := Pass(Bracketed, s);
    var c2 := Pass(Comma, c1);
    var c3 := Pass(Dash, c2);
    ClockTimeKeptLineStartPass(c3);
    var c4 := Pass(LineStart, c3);
    ClockTimeKeptMidTextPass(c4);
  }

  lemma NestedStampsBracketedStep1Tokens(s: string)
    requires s == "[00:00 - 0:00]"
    ensures TokenEnds(s, 1) == [6]
  {
    ShortTokenEnds(s, 1, 2);
  }

  lemma NestedStampsBracketedStep1(s: string)
    requires s == "[00:00 - 0:00]"
    ensures Attempts(Bracketed)(s, 0).None?
  {
    assert Opening(Bracketed, "[00:00 - 0:00]", 0) == Some((1, 0));
    assert Closing(Bracketed, "[00:00 - 0:00]", 6).None?;
    NestedStampsBracketedStep1Tokens(s);
    assert FirstClosing(Bracketed, "[00:00 - 0:00]", [6]).None?;
    assert MatchAt(Bracketed, "[00:00 - 0:00]", 0).None?;
  }

  lemma NestedStampsBracketedStep2(s: string)
    requires s == "[00:00 - 0:00]"
    ensures forall t :: 1 <= t < 7 ==> Attempts(Bracketed)(s, t).None?
  {
    assert QuietBetween(Bracketed, "[00:00 - 0:00]", 1, 7);
    QuietBetweenNoMatch(Bracketed, s, 1, 7);
  }

  lemma NestedStampsBracketedStep3(s: string)
    requires s == "[00:00 - 0:00]"
    ensures forall t :: 7 <= t < 13 ==> Attempts(Bracketed)(s, t).None?
  {
    assert QuietBetween(Bracketed, "[00:00 - 0:00]", 7, 13);
    QuietBetweenNoMatch(Bracketed, s, 7, 13);
  }

  lemma NestedStampsBracketedStep4(s: string)
    requires s == "[00:00 - 0:00]"
    ensures forall t :: 13 <= t < 14 ==> Attempts(Bracketed)(s, t).None?
  {
    assert QuietBetween(Bracketed, "[00:00 - 0:00]", 13, 14);
    QuietBetweenNoMatch(Bracketed, s, 13, 14);
  }

  lemma NestedStampsBracketedScan(m: Attempt, s: string)
    requires |s| == 14 && Advances(m, s)
    requires m(s, 0).None?
    requires forall t :: 1 <= t < 7 ==> m(s, t).None?
    requires forall t :: 7 <= t < 13 ==> m(s, t).None?
    requires forall t :: 13 <= t < 14 ==> m(s, t).None?
    ensures Replace(m, s, 0) == s[0..14]
  {
    ReplaceUnmatched(m, s, 0);
    assert s[0..1] == [s[0]];
    ReplaceCopies(m, s, 1, 7);
    ReplaceCopies(m, s, 7, 13);
    ReplaceCopies(m, s, 13, 14);
    JoinSlices(s, 0, 1, 7, Replace(m, s, 7));
    JoinSlices(s, 0, 7, 13, Replace(m, s, 13));
    JoinSlices(s, 0, 13, 14, Replace(m, s, 14));
    assert Replace(m, s, 14) == [];
    assert s[0..14] + [] == s[0..14];
    assert Replace(m, s, 0) == s[0..14];
  }

  lemma NestedStampsBracketedPieces(s: string)
    requires s == "[00:00 - 0:00]"
    ensures s[0..14] == "[00:00 - 0:00]"
  {
    assert "[00:00 - 0:00]"[0..14] == "[00:00 - 0:00]";
  }

  lemma NestedStampsBracketedPass(s: string)
    requires s == "[00:00 - 0:00]"
    ensures Pass(Bracketed, s) == "[00:00 - 0:00]"
  {
    NestedStampsBracketedStep1(s);
    NestedStampsBracketedStep2(s);
    NestedStampsBracketedStep3(s);
    NestedStampsBracketedStep4(s);
    AttemptsAdvance(Bracketed, s);
    NestedStampsBracketedScan(Attempts(Bracketed), s);
    NestedStampsBracketedPieces(s);
  }

  lemma NestedStampsIdleAfter(s: string)
    requires s == "[00:00 - 0:00]"
    ensures Pass(Comma, s) == s
  {
    assert ',' !in s;
    PassIdle(Comma, s);
  }

  lemma NestedStampsDashStep1(s: string)
    requires s == "[00:00 - 0:00]"
    ensures forall t :: 0 <= t < 1 ==> Attempts(Dash)(s, t).None?
  {
    assert QuietBetween(Dash, "[00:00 - 0:00]", 0, 1);
    QuietBetweenNoMatch(Dash, s, 0, 1);
  }

  lemma NestedStampsDashStep2Tokens(s: string)
    requires s == "[00:00 - 0:00]"
    ensures TokenEnds(s, 1) == [6]
  {
    ShortTokenEnds(s, 1, 2);
  }

  lemma NestedStampsDashStep2(s: string)
    requires s == "[00:00 - 0:00]"
    ensures Attempts(Dash)(s, 1) == Some(Match(1, 1, 6, 9))
  {
    assert Opening(Dash, "[00:00 - 0:00]", 1) == Some((1, 1));
    assert SkipSpaces("[00:00 - 0:00]", 6) == 7;
    assert SkipSpaces("[00:00 - 0:00]", 8) == 9;
    assert Closing(Dash, "[00:00 - 0:00]", 6) == Some(9);
    NestedStampsDashStep2Tokens(s);
    assert FirstClosing(Dash, "[00:00 - 0:00]", [6]) == Some((6, 9));
    assert MatchAt(Dash, "[00:00 - 0:00]", 1) == Some(Match(1, 1, 6, 9));
  }

  lemma NestedStampsDashStep3Tokens(s: string)
    requires s == "[00:00 - 0:00]"
    ensures TokenEnds(s, 9) == [13]
  {
    ShortTokenEnds(s, 9, 1);
  }

  lemma NestedStampsDashStep3(s: string)
    requires s == "[00:00 - 0:00]"
    ensures Attempts(Dash)(s, 9).None?
  {
    assert Opening(Dash, "[00:00 - 0:00]", 9) == Some((9, 9));
    assert SkipSpaces("[00:00 - 0:00]", 13) == 13;
    assert Closing(Dash, "[00:00 - 0:00]", 13).None?;
    NestedStampsDashStep3Tokens(s);
    assert FirstClosing(Dash, "[00:00 - 0:00]", [13]).None?;
    assert MatchAt(Dash, "[00:00 - 0:00]", 9).None?;
  }

  lemma NestedStampsDashStep4(s: string)
    requires s == "[00:00 - 0:00]"
    ensures forall t :: 10 <= t < 14 ==> Attempts(Dash)(s, t).None?
  {
    assert QuietBetween(Dash, "[00:00 - 0:00]", 10, 14);
    QuietBetweenNoMatch(Dash, s, 10, 14);
  }

  lemma NestedStampsDashScan(m: Attempt, s: string)
    requires |s| == 14 && Advances(m, s)
    requires forall t :: 0 <= t < 1 ==> m(s, t).None?
    requires m(s, 1) == Some(Match(1, 1, 6, 9))
    requires m(s, 9).None?
    requires forall t :: 10 <= t < 14 ==> m(s, t).None?
    ensures Replace(m, s, 0) == s[0..1] + s[9..14]
  {
    ReplaceCopies(m, s, 0, 1);
    ReplaceMatched(m, s, 1);
    ReplaceUnmatched(m, s, 9);
    assert s[9..10] == [s[9]];
    ReplaceCopies(m, s, 10, 14);
    JoinSlices(s, 0, 1, 1, Replace(m, s, 9));
    JoinSlices(s, 9, 10, 14, Replace(m, s, 14));
    assert Replace(m, s, 14) == [];
    assert s[9..14] + [] == s[9..14];
    assert Replace(m, s, 9) == s[9..14];
    assert Replace(m, s, 0) == s[0..1] + s[9..14];
  }

  lemma NestedStampsDashPieces(s: string)
    requires s == "[00:00 - 0:00]"
    ensures s[0..1] + s[9..14] == "[0:00]"
  {
    assert "[00:00 - 0:00]"[0..1] == "[";
    assert "[00:00 - 0:00]"[9..14] == "0:00]";
    assert "[" + "0:00]" == "[0:00]";
  }

  lemma NestedStampsDashPass(s: string)
    requires s == "[00:00 - 0:00]"
    ensures Pass(Dash, s) == "[0:00]"
  {
    NestedStampsDashStep1(s);
    NestedStampsDashStep2(s);
    NestedStampsDashStep3(s);
    NestedStampsDashStep4(s);
    AttemptsAdvance(Dash, s);
    NestedStampsDashScan(Attempts(Dash), s);
    NestedStampsDashPieces(s);
  }

  lemma NestedStampsSingleLine(s: string)
    requires s == "[0:00]"
    ensures SingleLine(s) && !MayMatch(LineStart, s, 0)
  {
    assert SingleLine("[0:00]") && !MayMatch(LineStart, "[0:00]", 0);
  }

  lemma NestedStampsLineStartPass(s: string)
    requires s == "[0:00]"
    ensures Pass(LineStart, s) == "[0:00]"
  {
    NestedStampsSingleLine(s);
    SingleLineStart(s);
  }

  lemma NestedStampsMidTextStep1(s: string)
    requires s == "[0:00]"
    ensures forall t :: 0 <= t < 6 ==> Attempts(MidText)(s, t).None?
  {
    assert QuietBetween(MidText, "[0:00]", 0, 6);
    QuietBetweenNoMatch(MidText, s, 0, 6);
  }

  lemma NestedStampsMidTextScan(m: Attempt, s: string)
    requires |s| == 6 && Advances(m, s)
    requires forall t :: 0 <= t < 6 ==> m(s, t).None?
    ensures Replace(m, s, 0) == s[0..6]
  {
    ReplaceCopies(m, s, 0, 6);
    assert Replace(m, s, 6) == [];
    assert s[0..6] + [] == s[0..6];
    assert Replace(m, s, 0) == s[0..6];
  }

  lemma NestedStampsMidTextPieces(s: string)
    requires s == "[0:00]"
    ensures s[0..6] == "[0:00]"
  {
    assert "[0:00]"[0..6] == "[0:00]";
  }

  lemma NestedStampsMidTextPass(s: string)
    requires s == "[0:00]"
    ensures Pass(MidText, s) == "[0:00]"
  {
    NestedStampsMidTextStep1(s);
    AttemptsAdvance(MidText, s);
    NestedStampsMidTextScan(Attempts(MidText), s);
    NestedStampsMidTextPieces(s);
  }

  /** The dash rule removes the inner stamp, which leaves a bracketed stamp behind. */
  lemma NestedStamps(s: string)
    requires s == "[00:00 - 0:00]"
    ensures RemoveTimestamps(s) == "[0:00]"
  {
    NestedStampsBracketedPass(s);
    var c1 := Pass(Bracketed, s);
    NestedStampsIdleAfter(c1);
    var c2 := Pass(Comma, c1);
    NestedStampsDashPass(c2);
    var c3 := Pass(Dash, c2);
    NestedStampsLineStartPass(c3);
    var c4 := Pass(LineStart, c3);
    NestedStampsMidTextPass(c4);
  }

  lemma LeftoverStampBracketedStep1Tokens(s: string)
    requires s == "[0:00]"
    ensures TokenEnds(s, 1) == [5]
  {
    ShortTokenEnds(s, 1, 1);
  }

  lemma LeftoverStampBracketedStep1(s: string)
    requires s == "[0:00]"
    ensures Attempts(Bracketed)(s, 0) == Some(Match(0, 1, 5, 6))
  {
    assert Opening(Bracketed, "[0:00]", 0) == Some((1, 0));
    assert Closing(Bracketed, "[0:00]", 5) == Some(6);
    LeftoverStampBracketedStep1Tokens(s);
    assert FirstClosing(Bracketed, "[0:00]", [5]) == Some((5, 6));
    assert MatchAt(Bracketed, "[0:00]", 0) == Some(Match(0, 1, 5, 6));
  }

  lemma LeftoverStampBracketedScan(m: Attempt, s: string)
    requires |s| == 6 && Advances(m, s)
    requires m(s, 0) == Some(Match(0, 1, 5, 6))
    ensures Replace(m, s, 0) == []
  {
    ReplaceMatched(m, s, 0);
    assert Replace(m, s, 6) == [];
    assert s[0..0] + Replace(m, s, 6) == Replace(m, s, 6);
    assert Replace(m, s, 0) == [];
  }

  lemma LeftoverStampBracketedPass(s: string)
    requires s == "[0:00]"
    ensures Pass(Bracketed, s) == ""
  {
    LeftoverStampBracketedStep1(s);
    AttemptsAdvance(Bracketed, s);
    LeftoverStampBracketedScan(Attempts(Bracketed), s);
  }

  lemma LeftoverStampIdleAfter(s: string)
    requires s == ""
    ensures Pass(Comma, s) == s && Pass(Dash, s) == s && Pass(LineStart, s) == s && Pass(MidText, s) == s
  {
    assert ':' !in s;
    PassIdle(Comma, s);
    PassIdle(Dash, s);
    PassIdle(LineStart, s);
    PassIdle(MidText, s);
  }

  /** The leftover of the previous example is itself removed on a second run. */
  lemma LeftoverStamp(s: string)
    requires s == "[0:00]"
    ensures RemoveTimestamps(s) == ""
  {
    LeftoverStampBracketedPass(s);
    var c1 := Pass(Bracketed, s);
    LeftoverStampIdleAfter(c1);
  }

  /**
   * The transform is not idempotent: a dash stamp inside brackets leaves a
   * bracketed stamp that a second run removes.
   */
  lemma NotIdempotent(text: string)
    requires text == "[00:00 - 0:00]"
    ensures RemoveTimestamps(text) == "[0:00]"
    ensures RemoveTimestamps(RemoveTimestamps(text)) == ""
  {
    NestedStamps(text);
    LeftoverStamp(RemoveTimestamps(text));
  }
}
