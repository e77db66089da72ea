/**
 The sign-up screen's password strength meter: six criteria are counted into a
 score, the score is bucketed into four levels, and each level has a label and
 a number of filled bars out of four.
 */
module PasswordStrength {
  import opened Wrappers
  import opened Text

  datatype Strength = Weak | Fair | Strong | VeryStrong

  /** The declaration order of the levels, weakest first. */
  function Rank(s: Strength): nat {
    match s
    case Weak => 0
    case Fair => 1
    case Strong => 2
    case VeryStrong => 3
  }

  /** A character outside `[A-Za-z0-9]` (any other character, non-ASCII included). */
  predicate IsSymbol(c: char) {
    !IsUpper(c) && !IsLower(c) && !IsDigit(c)
  }

  /** The regular expression `[A-Z]` (respectively `[a-z]`, ...) matches somewhere. */
  predicate HasUpper(p: string) { exists i :: 0 <= i < |p| && IsUpper(p[i]) }
  predicate HasLower(p: string) { exists i :: 0 <= i < |p| && IsLower(p[i]) }
  predicate HasDigit(p: string) { exists i :: 0 <= i < |p| && IsDigit(p[i]) }
  predicate HasSymbol(p: string) { exists i :: 0 <= i < |p| && IsSymbol(p[i]) }

  function Point(b: bool): nat { if b then 1 else 0 }

  /** One point per criterion met: length at least 6, length at least 10, an
      upper-case letter, a lower-case letter, a digit, a symbol. */
  function Score(p: string): (n: nat)
    ensures n <= 6
    ensures n == 0 ==> |p| < 6 && !HasUpper(p) && !HasLower(p) && !HasDigit(p) && !HasSymbol(p)
    ensures n == 6 <==> |p| >= 10 && HasUpper(p) && HasLower(p) && HasDigit(p) && HasSymbol(p)
  {
    Point(|p| >= 6) + Point(|p| >= 10)
      + Point(HasUpper(p)) + Point(HasLower(p)) + Point(HasDigit(p)) + Point(HasSymbol(p))
  }

  /** The `switch score` buckets. The score is a count of criteria, so it is
      never negative; from 6 up it falls to the default case. */
  function Level(score: nat): (s: Strength)
    ensures Rank(s) == if score >= 6 then 3 else score / 2
  {
    if score <= 1 then Weak
    else if score <= 3 then Fair
    else if score <= 5 then Strong
    else VeryStrong
  }

  /** The level the meter shows for a password. Only a password meeting every
      criterion is very strong, and the empty one is weak. */
  function StrengthOf(p: string): (s: Strength)
    ensures s == VeryStrong <==>
      |p| >= 10 && HasUpper(p) && HasLower(p) && HasDigit(p) && HasSymbol(p)
    ensures p == [] ==> s == Weak
  {
    Level(Score(p))
  }

  /** Each level covers two consecutive scores of the range 0..6, except the top one. */
  lemma LevelBuckets(score: nat)
    requires score <= 6
    ensures Level(score) == Weak <==> score <= 1
    ensures Level(score) == Fair <==> 2 <= score <= 3
    ensures Level(score) == Strong <==> 4 <= score <= 5
    ensures Level(score) == VeryStrong <==> score == 6
  {
  }

  /** A higher score never gives a lower level. */
  lemma LevelMonotone(a: nat, b: nat)
    requires a <= b
    ensures Rank(Level(a)) <= Rank(Level(b))
  {
  }

  /** The top level needs every criterion: at least ten characters and all four character classes. */
  lemma VeryStrongIff(p: string)
    ensures StrengthOf(p) == VeryStrong <==>
      |p| >= 10 && HasUpper(p) && HasLower(p) && HasDigit(p) && HasSymbol(p)
  {
  }

  /** The empty password scores nothing and is weak. */
  lemma EmptyIsWeak()
    ensures Score("") == 0 && StrengthOf("") == Weak
  {
  }

  /** Appending characters keeps every criterion already met. */
  lemma {:induction false} ScoreMonotone(p: string, q: string)
    ensures Score(p) <= Score(p + q)
  {
    var pq := p + q;
    if HasUpper(p) {
      var i :| 0 <= i < |p| && IsUpper(p[i]);
      assert pq[i] == p[i];
    }
    if HasLower(p) {
      var i :| 0 <= i < |p| && IsLower(p[i]);
      assert pq[i] == p[i];
    }
    if HasDigit(p) {
      var i :| 0 <= i < |p| && IsDigit(p[i]);
      assert pq[i] == p[i];
    }
    if HasSymbol(p) {
      var i :| 0 <= i < |p| && IsSymbol(p[i]);
      assert pq[i] == p[i];
    }
  }

  /** Appending characters never lowers the displayed level. */
  lemma StrengthMonotone(p: string, q: string)
    ensures Rank(StrengthOf(p)) <= Rank(StrengthOf(p + q))
  {
    ScoreMonotone(p, q);
    LevelMonotone(Score(p), Score(p + q));
  }

  /** The levels' labels, listed weakest first. */
  const Labels: seq<string> := ["Weak", "Fair", "Strong", "Very Strong"]

  /** The caption under the bars. */
  function Label(s: Strength): (r: string)
    ensures r == Labels[Rank(s)]
  {
    match s
    case Weak => "Weak"
    case Fair => "Fair"
    case Strong => "Strong"
    case VeryStrong => "Very Strong"
  }

  /** The label tells the levels apart. */
  lemma LabelInjective(a: Strength, b: Strength)
    ensures Label(a) == Label(b) <==> a == b
  {
  }

  /** How many of the four bars are coloured: one more than the level's rank. */
  function FilledBars(s: Strength): (n: int)
    ensures n == Rank(s) + 1
  {
    match s
    case Weak => 1
    case Fair => 2
    case Strong => 3
    case VeryStrong => 4
  }

  /** At least one and at most four bars are filled, and more bars mean a stronger level. */
  lemma FilledBarsOrder(a: Strength, b: Strength)
    ensures 1 <= FilledBars(a) <= 4
    ensures FilledBars(a) < FilledBars(b) <==> Rank(a) < Rank(b)
  {
  }

  /** The meter sits inside the sign-up-only part of the form and is drawn
      only for a non-empty password; it then shows that password's level. */
  function Indicator(isSignUp: bool, password: string): (r: Option<Strength>)
    ensures r.Some? <==> isSignUp && password != []
    ensures r.Some? ==> r.value == StrengthOf(password)
  {
    if isSignUp && password != [] then Some(StrengthOf(password)) else None
  }

  /** The screen opens in sign-in mode with a pre-filled password, and shows no meter. */
  lemma DefaultScreenShowsNoMeter()
    ensures Indicator(false, "Demo123!") == None
  {
  }

  /** While signing up, typing more characters keeps the meter on screen and
      never lowers the level it shows. */
  lemma IndicatorNeverDrops(password: string, more: string)
    requires Indicator(true, password).Some?
    ensures Indicator(true, password + more).Some?
    ensures Rank(Indicator(true, password).value) <= Rank(Indicator(true, password + more).value)
  {
    StrengthMonotone(password, more);
  }
}
