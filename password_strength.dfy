/**
 * The registration form's password-strength scorer (`checkPasswordStrength`
 * in the sign-up component): five independent criteria, one point each, a
 * list of the unmet ones in a fixed order, and a label and a colour looked up
 * in five-entry tables.
 */
module PasswordStrength {
  import opened Wrappers

  /** The five criteria, in the order the scorer checks them. */
  datatype Criterion = MinLength | Lowercase | Uppercase | Digit | Special

  const CheckOrder: seq<Criterion> := [MinLength, Lowercase, Uppercase, Digit, Special]

  /** The characters of the class `[!@#$%^&*(),.?":{}|<>]`. */
  const Specials: string := "!@#$%^&*(),.?\":{}|<>"

  /** The regex tests `/[a-z]/`, `/[A-Z]/`, `/\d/` and the special class, and the length check. */
  predicate Met(password: string, c: Criterion) {
    match c
    case MinLength => |password| >= 8
    case Lowercase => exists k | 0 <= k < |password| :: 'a' <= password[k] <= 'z'
    case Uppercase => exists k | 0 <= k < |password| :: 'A' <= password[k] <= 'Z'
    case Digit => exists k | 0 <= k < |password| :: '0' <= password[k] <= '9'
    case Special => exists k | 0 <= k < |password| :: password[k] in Specials
  }

  /** The feedback text pushed when a criterion is not met. */
  function Requirement(c: Criterion): string {
    match c
    case MinLength => "At least 8 characters"
    case Lowercase => "One lowercase letter"
    case Uppercase => "One uppercase letter"
    case Digit => "One number"
    case Special => "One special character"
  }

  const Labels: seq<string> := ["Very Weak", "Weak", "Fair", "Good", "Strong"]
  const Colors: seq<string> := ["red", "orange", "yellow", "blue", "green"]

  /** JavaScript array indexing: past the end gives `undefined`. */
  function Lookup(table: seq<string>, i: nat): (r: Option<string>)
    ensures r.Some? <==> i < |table|
    ensures r.Some? ==> r.value == table[i]
  {
    if i < |table| then Some(table[i]) else None
  }

  /** What the scorer returns; `strength` and `color` are `undefined` when the score runs past the tables. */
  datatype Strength = Strength(score: nat, strength: Option<string>, color: Option<string>, feedback: seq<string>)

  /** The point one criterion contributes. */
  function Point(password: string, c: Criterion): nat {
    if Met(password, c) then 1 else 0
  }

  /** The feedback one criterion contributes. */
  function Report(password: string, c: Criterion): seq<string> {
    if Met(password, c) then [] else [Requirement(c)]
  }

  /** Number of criteria of `cs` that `password` meets. */
  function CountMet(password: string, cs: seq<Criterion>): nat {
    if cs == [] then 0 else Point(password, cs[0]) + CountMet(password, cs[1..])
  }

  /** Feedback texts of the criteria of `cs` that `password` misses, in the order of `cs`. */
  function Missing(password: string, cs: seq<Criterion>): seq<string> {
    if cs == [] then [] else Report(password, cs[0]) + Missing(password, cs[1..])
  }

  /** The reference score and feedback of a password. */
  function Score(password: string): nat {
    CountMet(password, CheckOrder)
  }

  function Feedback(password: string): seq<string> {
    Missing(password, CheckOrder)
  }

  /** Score and feedback written out criterion by criterion, in check order. */
  lemma Unfold(password: string)
    ensures Score(password) == Point(password, MinLength) + Point(password, Lowercase)
      + Point(password, Uppercase) + Point(password, Digit) + Point(password, Special)
    ensures Feedback(password) == Report(password, MinLength) + Report(password, Lowercase)
      + Report(password, Uppercase) + Report(password, Digit) + Report(password, Special)
  {
    var p := password;
    var c4: seq<Criterion> := [Special];
    var c3: seq<Criterion> := [Digit] + c4;
    var c2: seq<Criterion> := [Uppercase] + c3;
    var c1: seq<Criterion> := [Lowercase] + c2;
    assert CheckOrder == [MinLength] + c1;
    assert c4[1..] == [] && c3[1..] == c4 && c2[1..] == c3 && c1[1..] == c2 && CheckOrder[1..] == c1;
    assert CountMet(p, c4) == Point(p, Special);
    assert CountMet(p, c3) == Point(p, Digit) + CountMet(p, c4);
    assert CountMet(p, c2) == Point(p, Uppercase) + CountMet(p, c3);
    assert CountMet(p, c1) == Point(p, Lowercase) + CountMet(p, c2);
    assert Missing(p, c4) == Report(p, Special) + [];
    assert Missing(p, c3) == Report(p, Digit) + Missing(p, c4);
    assert Missing(p, c2) == Report(p, Uppercase) + Missing(p, c3);
    assert Missing(p, c1) == Report(p, Lowercase) + Missing(p, c2);
  }

  /** Every criterion either scores or is reported, never both. */
  lemma {:induction false} CountPlusMissing(password: string, cs: seq<Criterion>)
    ensures CountMet(password, cs) + |Missing(password, cs)| == |cs|
  {
    if cs != [] {
      CountPlusMissing(password, cs[1..]);
    }
  }

  /** A criterion's text is reported exactly when it belongs to `cs` and is not met. */
  lemma {:induction false} MissingNamesUnmet(password: string, cs: seq<Criterion>, c: Criterion)
    ensures Requirement(c) in Missing(password, cs) <==> c in cs && !Met(password, c)
  {
    if cs != [] {
      MissingNamesUnmet(password, cs[1..], c);
      assert Requirement(cs[0]) == Requirement(c) <==> cs[0] == c;
      assert c in cs <==> c == cs[0] || c in cs[1..];
    }
  }

  /** Score in [0,5], feedback of length 5 - score, naming exactly the unmet criteria. */
  lemma ScoreAndFeedback(password: string)
    ensures Score(password) <= 5
    ensures |Feedback(password)| == 5 - Score(password)
    ensures forall c: Criterion :: Requirement(c) in Feedback(password) <==> !Met(password, c)
  {
    CountPlusMissing(password, CheckOrder);
    forall c: Criterion ensures Requirement(c) in Feedback(password) <==> !Met(password, c) {
      MissingNamesUnmet(password, CheckOrder, c);
    }
  }

  /** A password meeting at least the criteria another meets scores at least as high and gets no longer feedback. */
  lemma {:induction false} MoreCriteriaNoLowerScore(p: string, q: string, cs: seq<Criterion>)
    requires forall c :: c in cs && Met(q, c) ==> Met(p, c)
    ensures CountMet(p, cs) >= CountMet(q, cs)
    ensures |Missing(p, cs)| <= |Missing(q, cs)|
  {
    if cs != [] {
      MoreCriteriaNoLowerScore(p, q, cs[1..]);
    }
    CountPlusMissing(p, cs);
    CountPlusMissing(q, cs);
  }

  /** The label and colour tables have a slot for scores 0 to 4 only: a full score has neither. */
  lemma LabelMissingOnlyAtFullScore(password: string)
    ensures Lookup(Labels, Score(password)).None? <==> Score(password) == 5
    ensures Lookup(Colors, Score(password)).None? <==> Score(password) == 5
  {
    ScoreAndFeedback(password);
  }

  /** A password with all five criteria scores 5 and so gets no label. */
  lemma FullScoreExample()
    ensures Score("Abc12345!") == 5 && Lookup(Labels, Score("Abc12345!")) == None
  {
    var p := "Abc12345!";
    assert |p| == 9;
    assert 'a' <= p[1] <= 'z' && 'A' <= p[0] <= 'Z' && '0' <= p[3] <= '9' && p[8] == Specials[0];
    Unfold(p);
  }

  /** A password of three lowercase letters scores 1, "Weak", and misses the other four criteria. */
  lemma LowercaseOnlyExample()
    ensures Score("abc") == 1 && Lookup(Labels, Score("abc")) == Some("Weak")
    ensures Feedback("abc") == ["At least 8 characters", "One uppercase letter", "One number", "One special character"]
  {
    var p := "abc";
    assert 'a' <= p[0] <= 'z';
    assert forall k | 0 <= k < |p| :: 'a' <= p[k] <= 'z';
    assert forall k | 0 <= k < |p| :: p[k] !in Specials;
    Unfold(p);
  }

  /**
   * `checkPasswordStrength`: one test per criterion, each adding a point or
   * pushing its feedback text.
   */
  method CheckPasswordStrength(password: string) returns (r: Strength)
    ensures r.score == Score(password) && r.feedback == Feedback(password)
    ensures r.score <= 5 && |r.feedback| == 5 - r.score
    ensures forall c: Criterion :: Requirement(c) in r.feedback <==> !Met(password, c)
    ensures r.strength == Lookup(Labels, r.score) && r.color == Lookup(Colors, r.score)
    ensures r.strength.None? <==> r.score == 5
  {
    var score := 0;
    var feedback: seq<string> := [];

    if |password| >= 8 { score := score + 1; } else { feedback := feedback + ["At least 8 characters"]; }
    assert score == Point(password, MinLength) && feedback == Report(password, MinLength);
    ghost var s0, f0 := score, feedback;
    if Met(password, Lowercase) { score := score + 1; } else { feedback := feedback + ["One lowercase letter"]; }
    assert score == s0 + Point(password, Lowercase) && feedback == f0 + Report(password, Lowercase);
    ghost var s1, f1 := score, feedback;
    if Met(password, Uppercase) { score := score + 1; } else { feedback := feedback + ["One uppercase letter"]; }
    assert score == s1 + Point(password, Uppercase) && feedback == f1 + Report(password, Uppercase);
    ghost var s2, f2 := score, feedback;
    if Met(password, Digit) { score := score + 1; } else { feedback := feedback + ["One number"]; }
    assert score == s2 + Point(password, Digit) && feedback == f2 + Report(password, Digit);
    ghost var s3, f3 := score, feedback;
    if Met(password, Special) { score := score + 1; } else { feedback := feedback + ["One special character"]; }
    assert score == s3 + Point(password, Special) && feedback == f3 + Report(password, Special);

    Unfold(password);
    ScoreAndFeedback(password);
    r := Strength(score, Lookup(Labels, score), Lookup(Colors, score), feedback);
  }
}
