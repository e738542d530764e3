/**
 * The character classes and the timestamp token grammar shared by the five
 * replace rules of `removeTimestamps` (app/utils/timestampRemover.ts):
 *
 *     T = \d{1,2}:\d{2}(?::\d{2})?(?:\.\d{1,3})?
 *
 * `TokenEnds` lists the ends of the tokens T that start at a position in the
 * order JavaScript's backtracking regular-expression engine tries them; the
 * grammar itself is stated declaratively by `IsTokenAt`, and the two are
 * proved to agree. The candidates are also proved to come longest first.
 */
module TimestampToken {
  import opened Numbers

  /**
   * `\s` of ECMAScript regular expressions: the WhiteSpace characters (tab,
   * vertical tab, form feed, space, no-break space, the byte order mark and
   * the other space separators) and the LineTerminator characters. It
   * takes in every line terminator and no digit.
   */
  predicate IsSpace(c: char)
    ensures IsLineTerminator(c) ==> IsSpace(c)
    ensures IsDigit(c) ==> !IsSpace(c)
  {
    c == '\t' || c == '\n' || c == '\U{B}' || c == '\U{C}' || c == '\r' || c == ' ' ||
    c == '\U{A0}' || c == '\U{1680}' || ('\U{2000}' <= c <= '\U{200A}') ||
    c == '\U{2028}' || c == '\U{2029}' || c == '\U{202F}' || c == '\U{205F}' ||
    c == '\U{3000}' || c == '\U{FEFF}'
  }

  /** LineTerminator: what `^` and `$` look for under the `m` flag. */
  predicate IsLineTerminator(c: char) {
    c == '\n' || c == '\r' || c == '\U{2028}' || c == '\U{2029}'
  }

  /** A character a token T is made of. */
  predicate IsTokenChar(c: char) {
    IsDigit(c) || c == ':' || c == '.'
  }

  predicate DigitAt(s: string, k: nat) {
    k < |s| && IsDigit(s[k])
  }

  predicate CharAt(s: string, k: nat, c: char) {
    k < |s| && s[k] == c
  }

  /** `:\d{2}` at position `p`. */
  predicate ColonPairAt(s: string, p: nat) {
    CharAt(s, p, ':') && DigitAt(s, p + 1) && DigitAt(s, p + 2)
  }

  /** Every candidate end lies in `[from, |s|]` and only token characters lie before it. */
  predicate TokenCharEnds(s: string, from: nat, ends: seq<nat>) {
    forall e :: e in ends ==>
      from <= e <= |s| && forall t :: from <= t < e ==> IsTokenChar(s[t])
  }

  /** Each element is larger than every later one. */
  predicate StrictlyDecreasing(xs: seq<nat>)
    decreases |xs|
  {
    xs == [] || ((forall k :: 0 < k < |xs| ==> xs[k] < xs[0]) && StrictlyDecreasing(xs[1..]))
  }

  /** `b + n`, `b + n - 1`, ..., `b + 1`: the ends a greedy group gives back one at a time. */
  function Down(b: nat, n: nat): seq<nat>
    decreases n
  {
    if n == 0 then [] else [b + n] + Down(b, n - 1)
  }

  /**
   * The parts of a token T, in order: the leading `\d{1,2}`, then `:\d{2}`,
   * then the optional `(?::\d{2})?`, then the optional `(?:\.\d{1,3})?`.
   */
  datatype Part = Lead | Minutes | Seconds | Fraction

  /** How many parts follow `part`. */
  function PartsAfter(part: Part): nat {
    match part
    case Lead => 3
    case Minutes => 2
    case Seconds => 1
    case Fraction => 0
  }

  /**
   * The digits a `\.\d{1,3}` at `q` takes first: as many as there are,
   * three at most; 0 when there is no such group.
   */
  function FractionDigits(s: string, q: nat): nat {
    if CharAt(s, q, '.') && DigitAt(s, q + 1) then
      (if DigitAt(s, q + 2) then (if DigitAt(s, q + 3) then 3 else 2) else 1)
    else 0
  }

  /**
   * The ends of the rest of a token T, from `part` on, when that part
   * starts at `p`, in the order the engine tries them: a greedy quantifier
   * first takes all it can and then gives back one repetition at a time, and
   * an optional group is tried present before absent.
   */
  function EndsFrom(s: string, p: nat, part: Part): seq<nat>
    decreases PartsAfter(part)
  {
    match part
    case Lead =>
      (if DigitAt(s, p) && DigitAt(s, p + 1) then EndsFrom(s, p + 2, Minutes) else [])
      + (if DigitAt(s, p) then EndsFrom(s, p + 1, Minutes) else [])
    case Minutes =>
      if ColonPairAt(s, p) then EndsFrom(s, p + 3, Seconds) else []
    case Seconds =>
      (if ColonPairAt(s, p) then EndsFrom(s, p + 3, Fraction) else []) + EndsFrom(s, p, Fraction)
    case Fraction =>
      Down(p + 1, FractionDigits(s, p)) + [p]
  }

  /**
   * The ends of every token T starting at `i`, in the order the engine
   * tries them. Every candidate is a run of token characters of at least
   * four characters holding a colon, and the candidates come longest first:
   * the first one that lets the rest of a rule match is the longest that does.
   */
  function TokenEnds(s: string, i: nat): (ends: seq<nat>)
    ensures TokenCharEnds(s, i, ends) && StrictlyDecreasing(ends)
    ensures forall e :: e in ends ==> i + 4 <= e && (CharAt(s, i + 1, ':') || CharAt(s, i + 2, ':'))
  {
    LeadFacts(s, i);
    EndsFrom(s, i, Lead)
  }

  /** Every candidate end lies between `lo` and `hi`. */
  predicate Between(ends: seq<nat>, lo: nat, hi: nat) {
    forall e :: e in ends ==> lo <= e <= hi
  }

  /** `s[a..b]` is made of token characters. */
  predicate TokenRun(s: string, a: nat, b: nat) {
    b <= |s| && forall t :: a <= t < b ==> IsTokenChar(s[t])
  }

  lemma RunEnds(s: string, from: nat, lo: nat, hi: nat, ends: seq<nat>)
    requires from <= lo && Between(ends, lo, hi) && TokenRun(s, from, hi)
    ensures TokenCharEnds(s, from, ends)
  {
  }

  /** A run of token characters extended to the left. */
  lemma ExtendRun(s: string, a: nat, b: nat, h: nat)
    requires a <= b <= h && TokenRun(s, b, h)
    requires forall t :: a <= t < b ==> IsTokenChar(s[t])
    ensures TokenRun(s, a, h)
  {
  }

  /** A strictly decreasing list followed by one of smaller elements stays strictly decreasing. */
  lemma {:induction false} ConcatDecreasing(xs: seq<nat>, ys: seq<nat>, m: nat)
    requires StrictlyDecreasing(xs) && StrictlyDecreasing(ys)
    requires forall e :: e in xs ==> m < e
    requires forall e :: e in ys ==> e <= m
    ensures StrictlyDecreasing(xs + ys)
    decreases |xs|
  {
    if xs == [] {
      assert xs + ys == ys;
    } else {
      var zs := xs + ys;
      assert zs[1..] == xs[1..] + ys;
      assert forall e :: e in xs[1..] ==> e in xs;
      ConcatDecreasing(xs[1..], ys, m);
      forall k | 0 < k < |zs|
        ensures zs[k] < zs[0]
      {
        if k >= |xs| {
          assert zs[k] == ys[k - |xs|];
          assert zs[k] in ys && xs[0] in xs;
        }
      }
    }
  }

  lemma {:induction false} DownFacts(b: nat, n: nat)
    ensures |Down(b, n)| == n
    ensures forall k :: 0 <= k < n ==> Down(b, n)[k] == b + n - k
    ensures StrictlyDecreasing(Down(b, n))
    decreases n
  {
    if n > 0 {
      DownFacts(b, n - 1);
      assert Down(b, n)[1..] == Down(b, n - 1);
    }
  }

  /** The ends a greedy group gives back, then the end without the group. */
  lemma DownThen(b: nat, n: nat, x: nat)
    requires x <= b
    ensures StrictlyDecreasing(Down(b, n) + [x])
    ensures forall e :: e in Down(b, n) + [x] <==> e == x || b < e <= b + n
  {
    var ends := Down(b, n) + [x];
    DownFacts(b, n);
    forall e | b < e <= b + n
      ensures e in ends
    {
      assert ends[b + n - e] == e;
    }
    ConcatDecreasing(Down(b, n), [x], x);
  }

  lemma FractionDigitsFacts(s: string, q: nat)
    ensures FractionDigits(s, q) <= 3
    ensures FractionDigits(s, q) > 0 ==> CharAt(s, q, '.')
    ensures forall t :: q < t <= q + FractionDigits(s, q) ==> DigitAt(s, t)
    ensures CharAt(s, q, '.') && FractionDigits(s, q) < 3 ==> !DigitAt(s, q + 1 + FractionDigits(s, q))
  {
  }

  /** The end of the longest `(?:\.\d{1,3})?` at `q`. */
  function FractionEnd(s: string, q: nat): nat {
    var n := FractionDigits(s, q);
    if n == 0 then q else q + 1 + n
  }

  lemma FractionMembers(s: string, q: nat)
    ensures forall e :: e in EndsFrom(s, q, Fraction) <==> e == q || q + 1 < e <= q + 1 + FractionDigits(s, q)
  {
    DownThen(q + 1, FractionDigits(s, q), q);
  }

  lemma FractionFacts(s: string, q: nat)
    requires q <= |s|
    ensures q <= FractionEnd(s, q)
    ensures StrictlyDecreasing(EndsFrom(s, q, Fraction))
    ensures Between(EndsFrom(s, q, Fraction), q, FractionEnd(s, q))
    ensures TokenRun(s, q, FractionEnd(s, q))
  {
    var n := FractionDigits(s, q);
    DownThen(q + 1, n, q);
    FractionDigitsFacts(s, q);
    if n > 0 {
      assert DigitAt(s, q + n);
    }
  }

  lemma FractionNoDot(s: string, q: nat)
    requires !CharAt(s, q, '.')
    ensures EndsFrom(s, q, Fraction) == [q]
  {
    assert Down(q + 1, 0) == [];
  }

  lemma SecondsPresent(s: string, q: nat)
    requires ColonPairAt(s, q)
    ensures EndsFrom(s, q, Seconds) == EndsFrom(s, q + 3, Fraction) + [q]
  {
    FractionNoDot(s, q);
  }

  lemma SecondsAbsent(s: string, q: nat)
    requires !ColonPairAt(s, q)
    ensures EndsFrom(s, q, Seconds) == EndsFrom(s, q, Fraction)
  {
    assert [] + EndsFrom(s, q, Fraction) == EndsFrom(s, q, Fraction);
  }

  lemma SecondsPresentFacts(s: string, q: nat)
    requires q <= |s| && ColonPairAt(s, q)
    ensures StrictlyDecreasing(EndsFrom(s, q, Seconds))
    ensures Between(EndsFrom(s, q, Seconds), q, FractionEnd(s, q + 3))
  {
    SecondsPresent(s, q);
    FractionFacts(s, q + 3);
    ConcatDecreasing(EndsFrom(s, q + 3, Fraction), [q], q);
  }

  lemma SecondsPresentRun(s: string, q: nat)
    requires q <= |s| && ColonPairAt(s, q)
    ensures q <= FractionEnd(s, q + 3) && TokenRun(s, q, FractionEnd(s, q + 3))
  {
    FractionFacts(s, q + 3);
    ExtendRun(s, q, q + 3, FractionEnd(s, q + 3));
  }

  lemma SecondsAbsentFacts(s: string, q: nat)
    requires q <= |s| && !ColonPairAt(s, q)
    ensures StrictlyDecreasing(EndsFrom(s, q, Seconds))
    ensures Between(EndsFrom(s, q, Seconds), q, FractionEnd(s, q))
    ensures q <= FractionEnd(s, q) && TokenRun(s, q, FractionEnd(s, q))
  {
    SecondsAbsent(s, q);
    FractionFacts(s, q);
  }

  lemma SecondsFacts(s: string, q: nat) returns (h: nat)
    requires q <= |s|
    ensures q <= h
    ensures StrictlyDecreasing(EndsFrom(s, q, Seconds))
    ensures Between(EndsFrom(s, q, Seconds), q, h) && TokenRun(s, q, h)
  {
    if ColonPairAt(s, q) {
      SecondsPresentFacts(s, q);
      SecondsPresentRun(s, q);
      h := FractionEnd(s, q + 3);
    } else {
      SecondsAbsentFacts(s, q);
      h := FractionEnd(s, q);
    }
  }

  lemma MinutesUnfold(s: string, p: nat)
    ensures ColonPairAt(s, p) ==> EndsFrom(s, p, Minutes) == EndsFrom(s, p + 3, Seconds)
    ensures !ColonPairAt(s, p) ==> EndsFrom(s, p, Minutes) == []
  {
  }

  lemma MinutesFacts(s: string, p: nat) returns (h: nat)
    requires p <= |s|
    ensures p <= h
    ensures StrictlyDecreasing(EndsFrom(s, p, Minutes))
    ensures Between(EndsFrom(s, p, Minutes), p + 3, h) && TokenRun(s, p, h)
    ensures EndsFrom(s, p, Minutes) != [] ==> ColonPairAt(s, p)
  {
    MinutesUnfold(s, p);
    if ColonPairAt(s, p) {
      h := SecondsFacts(s, p + 3);
      ExtendRun(s, p, p + 3, h);
    } else {
      h := p;
    }
  }

  /** Two leading digits: a colon cannot follow the first one. */
  lemma LeadTwo(s: string, i: nat)
    requires DigitAt(s, i) && DigitAt(s, i + 1)
    ensures EndsFrom(s, i, Lead) == EndsFrom(s, i + 2, Minutes)
  {
    MinutesUnfold(s, i + 1);
    assert EndsFrom(s, i + 2, Minutes) + [] == EndsFrom(s, i + 2, Minutes);
  }

  lemma LeadOne(s: string, i: nat)
    requires DigitAt(s, i) && !DigitAt(s, i + 1)
    ensures EndsFrom(s, i, Lead) == EndsFrom(s, i + 1, Minutes)
  {
    assert [] + EndsFrom(s, i + 1, Minutes) == EndsFrom(s, i + 1, Minutes);
  }

  lemma LeadNone(s: string, i: nat)
    requires !DigitAt(s, i)
    ensures EndsFrom(s, i, Lead) == []
  {
  }

  /** The candidates after `lead` leading digits. */
  lemma LeadingFacts(s: string, i: nat, lead: nat)
    requires 1 <= lead <= 2 && i + lead <= |s|
    requires forall t :: i <= t < i + lead ==> DigitAt(s, t)
    ensures var ends := EndsFrom(s, i + lead, Minutes);
      && TokenCharEnds(s, i, ends) && StrictlyDecreasing(ends)
      && (forall e :: e in ends ==> i + 4 <= e)
      && (ends != [] ==> CharAt(s, i + lead, ':'))
  {
    var h := MinutesFacts(s, i + lead);
    forall t | i <= t < i + lead
      ensures IsTokenChar(s[t])
    {
      assert DigitAt(s, t);
    }
    ExtendRun(s, i, i + lead, h);
    RunEnds(s, i, i + lead + 3, h, EndsFrom(s, i + lead, Minutes));
  }

  /** The facts `TokenEnds` promises, about the candidate list it returns. */
  lemma LeadFacts(s: string, i: nat)
    ensures var ends := EndsFrom(s, i, Lead);
      && TokenCharEnds(s, i, ends) && StrictlyDecreasing(ends)
      && forall e :: e in ends ==> i + 4 <= e && (CharAt(s, i + 1, ':') || CharAt(s, i + 2, ':'))
  {
    if DigitAt(s, i) && DigitAt(s, i + 1) {
      LeadingFacts(s, i, 2);
      LeadTwo(s, i);
    } else if DigitAt(s, i) {
      LeadingFacts(s, i, 1);
      LeadOne(s, i);
    } else {
      LeadNone(s, i);
    }
  }

  /** `s[a..b]` is made of digits. */
  predicate DigitsBetween(s: string, a: nat, b: nat)
    decreases b - a
  {
    a >= b || (DigitAt(s, a) && DigitsBetween(s, a + 1, b))
  }

  lemma {:induction false} DigitsBetweenAt(s: string, a: nat, b: nat, t: nat)
    requires DigitsBetween(s, a, b) && a <= t < b
    ensures DigitAt(s, t)
    decreases b - a
  {
    if t > a {
      DigitsBetweenAt(s, a + 1, b, t);
    }
  }

  lemma {:induction false} DigitsBetweenAll(s: string, a: nat, b: nat)
    requires forall t :: a <= t < b ==> DigitAt(s, t)
    ensures DigitsBetween(s, a, b)
    decreases b - a
  {
    if a < b {
      DigitsBetweenAll(s, a + 1, b);
    }
  }

  /** `s[q..e]` is `(?:\.\d{1,3})?` with `frac` fraction digits (0 when the group is absent). */
  predicate FractionShape(s: string, q: nat, e: nat, frac: nat) {
    frac <= 3 && e == q + (if frac == 0 then 0 else frac + 1) && e <= |s| &&
    (frac > 0 ==> CharAt(s, q, '.') && DigitsBetween(s, q + 1, e))
  }

  /** `s[q..e]` is `(?::\d{2})?(?:\.\d{1,3})?`, the `:\d{2}` group present exactly when `third`. */
  predicate SecondsShape(s: string, q: nat, e: nat, third: bool, frac: nat) {
    (third ==> ColonPairAt(s, q)) && FractionShape(s, q + (if third then 3 else 0), e, frac)
  }

  /**
   * `s[i..e]` is a token T with `lead` leading digits, the optional `:\d{2}`
   * group present exactly when `third`, and `frac` fraction digits.
   */
  predicate TokenShape(s: string, i: nat, e: nat, lead: nat, third: bool, frac: nat) {
    1 <= lead <= 2 && DigitsBetween(s, i, i + lead) &&
    ColonPairAt(s, i + lead) && SecondsShape(s, i + lead + 3, e, third, frac)
  }

  /** The grammar T, stated declaratively: `s[i..e]` is a timestamp token. */
  predicate IsTokenAt(s: string, i: nat, e: nat) {
    exists lead: nat, third: bool, frac: nat | 1 <= lead <= 2 && frac <= 3 :: TokenShape(s, i, e, lead, third, frac)
  }

  lemma FractionEndsShape(s: string, q: nat, e: nat) returns (frac: nat)
    requires q <= |s| && e in EndsFrom(s, q, Fraction)
    ensures FractionShape(s, q, e, frac)
  {
    FractionMembers(s, q);
    FractionDigitsFacts(s, q);
    var n := FractionDigits(s, q);
    if e == q {
      frac := 0;
    } else {
      frac := e - q - 1;
      assert DigitAt(s, q + n);
      DigitsBetweenAll(s, q + 1, e);
    }
  }

  lemma FractionEndsComplete(s: string, q: nat, e: nat, frac: nat)
    requires FractionShape(s, q, e, frac)
    ensures e in EndsFrom(s, q, Fraction)
  {
    FractionMembers(s, q);
    if frac > 0 {
      FractionDigitsFacts(s, q);
      var n := FractionDigits(s, q);
      if n < frac {
        DigitsBetweenAt(s, q + 1, e, q + 1 + n);
      }
    }
  }

  lemma SecondsEndsShape(s: string, q: nat, e: nat) returns (third: bool, frac: nat)
    requires q <= |s| && e in EndsFrom(s, q, Seconds)
    ensures SecondsShape(s, q, e, third, frac)
  {
    if ColonPairAt(s, q) {
      SecondsPresent(s, q);
      if e in EndsFrom(s, q + 3, Fraction) {
        third := true;
        frac := FractionEndsShape(s, q + 3, e);
        return;
      }
      FractionNoDot(s, q);
    } else {
      SecondsAbsent(s, q);
    }
    third := false;
    frac := FractionEndsShape(s, q, e);
  }

  lemma SecondsEndsComplete(s: string, q: nat, e: nat, third: bool, frac: nat)
    requires SecondsShape(s, q, e, third, frac)
    ensures e in EndsFrom(s, q, Seconds)
  {
    FractionEndsComplete(s, q + (if third then 3 else 0), e, frac);
    if ColonPairAt(s, q) {
      SecondsPresent(s, q);
      if !third {
        FractionNoDot(s, q);
      }
    } else {
      SecondsAbsent(s, q);
    }
  }

  lemma TokenEndsSound(s: string, i: nat, e: nat)
    requires e in TokenEnds(s, i)
    ensures IsTokenAt(s, i, e)
  {
    if DigitAt(s, i) && DigitAt(s, i + 1) {
      LeadTwo(s, i);
      LeadingSound(s, i, e, 2);
    } else if DigitAt(s, i) {
      LeadOne(s, i);
      LeadingSound(s, i, e, 1);
    } else {
      LeadNone(s, i);
    }
  }

  lemma LeadingSound(s: string, i: nat, e: nat, lead: nat)
    requires 1 <= lead <= 2 && DigitAt(s, i) && (lead == 2 ==> DigitAt(s, i + 1))
    requires e in EndsFrom(s, i + lead, Minutes)
    ensures IsTokenAt(s, i, e)
  {
    MinutesUnfold(s, i + lead);
    var third, frac := SecondsEndsShape(s, i + lead + 3, e);
    LeadDigits(s, i, lead);
    ShapeIsToken(s, i, e, lead, third, frac);
  }

  lemma LeadDigits(s: string, i: nat, lead: nat)
    requires 1 <= lead <= 2 && DigitAt(s, i) && (lead == 2 ==> DigitAt(s, i + 1))
    ensures DigitsBetween(s, i, i + lead)
  {
    assert DigitsBetween(s, i + 1, i + lead);
  }

  lemma ShapeIsToken(s: string, i: nat, e: nat, lead: nat, third: bool, frac: nat)
    requires TokenShape(s, i, e, lead, third, frac)
    ensures IsTokenAt(s, i, e)
  {
  }

  lemma TokenEndsComplete(s: string, i: nat, e: nat)
    requires IsTokenAt(s, i, e)
    ensures e in TokenEnds(s, i)
  {
    var lead, third, frac :| 1 <= lead <= 2 && frac <= 3 && TokenShape(s, i, e, lead, third, frac);
    SecondsEndsComplete(s, i + lead + 3, e, third, frac);
    MinutesUnfold(s, i + lead);
    assert DigitAt(s, i);
    if lead == 2 {
      assert DigitsBetween(s, i + 1, i + 2);
      LeadTwo(s, i);
    } else {
      assert !DigitAt(s, i + 1);
      LeadOne(s, i);
    }
  }

  /**
   * `TokenEnds` lists exactly the tokens of the grammar: a candidate end is
   * in the list if and only if the text up to it is a token T.
   */
  lemma TokenEndsMatchGrammar(s: string, i: nat, e: nat)
    ensures e in TokenEnds(s, i) <==> IsTokenAt(s, i, e)
  {
    if e in TokenEnds(s, i) {
      TokenEndsSound(s, i, e);
    }
    if IsTokenAt(s, i, e) {
      TokenEndsComplete(s, i, e);
    }
  }

  /**
   * A token with `lead` leading digits and minutes only, followed by
   * neither a `:\d{2}` nor a `.\d`, has exactly one candidate end: the
   * greedy lead has nothing to give back and both optional groups are absent.
   */
  lemma ShortTokenEnds(s: string, i: nat, lead: nat)
    requires 1 <= lead <= 2 && DigitsBetween(s, i, i + lead) && ColonPairAt(s, i + lead)
    requires !ColonPairAt(s, i + lead + 3) && FractionDigits(s, i + lead + 3) == 0
    ensures TokenEnds(s, i) == [i + lead + 3]
  {
    var q := i + lead + 3;
    assert EndsFrom(s, q, Fraction) == [q];
    assert EndsFrom(s, q, Seconds) == [q];
    assert EndsFrom(s, i + lead, Minutes) == [q];
    if lead == 2 {
      assert !ColonPairAt(s, i + 1);
    } else {
      assert !DigitAt(s, i + 1);
    }
  }
}
