/** The password-strength meter of the registration form: an effect that
    adds up weights for the criteria a password meets, and the label and
    colour chosen from the result. */
module PasswordStrength {
  import opened Common

  /** `/[a-z]/.test(p)`. */
  predicate HasLower(p: string) { exists i :: 0 <= i < |p| && IsAsciiLower(p[i]) }

  /** `/[A-Z]/.test(p)`. */
  predicate HasUpper(p: string) { exists i :: 0 <= i < |p| && IsAsciiUpper(p[i]) }

  /** `/[0-9]/.test(p)`. */
  predicate HasDigit(p: string) { exists i :: 0 <= i < |p| && IsDigit(p[i]) }

  predicate IsAlphanumeric(c: char) { IsAsciiLower(c) || IsAsciiUpper(c) || IsDigit(c) }

  /** `/[^a-zA-Z0-9]/.test(p)`. */
  predicate HasSymbol(p: string) { exists i :: 0 <= i < |p| && !IsAlphanumeric(p[i]) }

  function Weight(met: bool, w: real): real { if met then w else 0.0 }

  /** The sum of the weights of the criteria `p` meets. */
  function RawScore(p: string): real {
    Weight(|p| >= 8, 25.0) + Weight(|p| >= 12, 25.0)
    + Weight(HasLower(p) && HasUpper(p), 25.0)
    + Weight(HasDigit(p), 12.5) + Weight(HasSymbol(p), 12.5)
  }

  function Min(a: real, b: real): real { if a <= b then a else b }

  /** The strength the meter shows: 0 for an empty password, otherwise the
      weights' sum capped at 100. */
  function Score(p: string): real {
    if p == "" then 0.0 else Min(RawScore(p), 100.0)
  }

  /** The effect: an early return on an empty password, then one `+=` per
      criterion met, then the cap. */
  method ComputeStrength(password: string) returns (strength: real)
    ensures strength == Score(password)
  {
    if password == "" {
      return 0.0;
    }
    strength := 0.0;
    if |password| >= 8 { strength := strength + 25.0; }
    if |password| >= 12 { strength := strength + 25.0; }
    if HasLower(password) && HasUpper(password) { strength := strength + 25.0; }
    if HasDigit(password) { strength := strength + 12.5; }
    if HasSymbol(password) { strength := strength + 12.5; }
    strength := Min(strength, 100.0);
  }

  /** The weights add up to exactly 100, so the cap never lowers a score. */
  lemma ScoreBounds(p: string)
    ensures 0.0 <= Score(p) <= 100.0
    ensures p != "" ==> Score(p) == RawScore(p)
  {
  }

  lemma {:induction false} CriteriaSurviveAppend(p: string, q: string)
    ensures HasLower(p) ==> HasLower(p + q)
    ensures HasUpper(p) ==> HasUpper(p + q)
    ensures HasDigit(p) ==> HasDigit(p + q)
    ensures HasSymbol(p) ==> HasSymbol(p + q)
  {
    if HasLower(p) {
      var i :| 0 <= i < |p| && IsAsciiLower(p[i]);
      assert (p + q)[i] == p[i];
    }
    if HasUpper(p) {
      var i :| 0 <= i < |p| && IsAsciiUpper(p[i]);
      assert (p + q)[i] == p[i];
    }
    if HasDigit(p) {
      var i :| 0 <= i < |p| && IsDigit(p[i]);
      assert (p + q)[i] == p[i];
    }
    if HasSymbol(p) {
      var i :| 0 <= i < |p| && !IsAlphanumeric(p[i]);
      assert (p + q)[i] == p[i];
    }
  }

  /** Typing more characters never lowers the strength. */
  lemma {:induction false} ScoreMonotone(p: string, q: string)
    ensures Score(p) <= Score(p + q)
  {
    ScoreBounds(p);
    ScoreBounds(p + q);
    if p != "" {
      CriteriaSurviveAppend(p, q);
    }
  }

  /** A password of twelve or more characters with a lower-case letter, an
      upper-case letter, a digit and a symbol scores 100 and reads "Strong". */
  lemma FullScore(p: string)
    requires |p| >= 12 && HasLower(p) && HasUpper(p) && HasDigit(p) && HasSymbol(p)
    ensures Score(p) == 100.0
    ensures StrengthText(Score(p)) == "Strong"
  {
  }

  /** `getPasswordStrengthText`. */
  function StrengthText(strength: real): (text: string)
    ensures text == "Weak" <==> strength < 25.0
    ensures text == "Fair" <==> 25.0 <= strength < 50.0
    ensures text == "Good" <==> 50.0 <= strength < 75.0
    ensures text == "Strong" <==> 75.0 <= strength
  {
    if strength < 25.0 then "Weak"
    else if strength < 50.0 then "Fair"
    else if strength < 75.0 then "Good"
    else "Strong"
  }

  /** `getPasswordStrengthColor`. */
  function StrengthColor(strength: real): (colour: string)
    ensures colour == "bg-red-500" <==> strength < 25.0
    ensures colour == "bg-orange-500" <==> 25.0 <= strength < 50.0
    ensures colour == "bg-yellow-500" <==> 50.0 <= strength < 75.0
    ensures colour == "bg-green-500" <==> 75.0 <= strength
  {
    if strength < 25.0 then "bg-red-500"
    else if strength < 50.0 then "bg-orange-500"
    else if strength < 75.0 then "bg-yellow-500"
    else "bg-green-500"
  }

  /** Label and colour move together: the colour is a function of the label. */
  lemma ColourFollowsLabel(a: real, b: real)
    ensures StrengthText(a) == StrengthText(b) <==> StrengthColor(a) == StrengthColor(b)
  {
  }
}
