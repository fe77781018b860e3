/**
 * The quiz: three answers are collected from the form, each character is
 * scored by how many answers appear among its traits, and the first
 * character with the highest score is the match.
 */
module Quiz {
  import opened Wrappers
  import opened Assets

  /** A Bible character the quiz can match (the reference and blurb are display text only). */
  datatype Character = Character(name: string, traits: seq<string>)

  /** The characters in the order the scan visits them. */
  const Cast: seq<Character> := [
    Character("Barnabas", ["kind", "teacher", "joyful", "faithful"]),
    Character("David", ["brave", "creative", "faithful", "joyful"]),
    Character("Paul", ["adventurous", "teacher", "faithful", "brave", "resilient"])
  ]

  /** The form values that survive `filter(Boolean)`: present and non-empty, in order. */
  function FilledAnswers(fields: seq<Option<string>>): (r: seq<string>)
    ensures |r| <= |fields|
    ensures forall i | 0 <= i < |r| :: r[i] != []
  {
    if fields == [] then []
    else if Truthy(fields[0]) then [fields[0].value] + FilledAnswers(fields[1..])
    else FilledAnswers(fields[1..])
  }

  /** No field is dropped exactly when every field holds a non-empty answer, and then the answers are the fields' values. */
  lemma {:induction false} FilledAnswersComplete(fields: seq<Option<string>>)
    ensures |FilledAnswers(fields)| == |fields| <==> forall i | 0 <= i < |fields| :: Truthy(fields[i])
    ensures |FilledAnswers(fields)| == |fields| ==>
      forall i | 0 <= i < |fields| :: FilledAnswers(fields)[i] == fields[i].value
  {
    if fields != [] {
      FilledAnswersComplete(fields[1..]);
      if Truthy(fields[0]) {
        assert forall i | 1 <= i < |fields| :: fields[i] == fields[1..][i - 1];
      } else {
        assert |FilledAnswers(fields)| < |fields|;
      }
    }
  }

  /** How many of the answers (counted with repetition) appear among the traits. */
  function Score(answers: seq<string>, traits: seq<string>): (n: nat)
    ensures n <= |answers|
  {
    if answers == [] then 0
    else (if answers[0] in traits then 1 else 0) + Score(answers[1..], traits)
  }

  /** Full marks exactly when every answer is a trait, and no marks exactly when none is. */
  lemma {:induction false} ScoreExtremes(answers: seq<string>, traits: seq<string>)
    ensures Score(answers, traits) == |answers| <==> forall i | 0 <= i < |answers| :: answers[i] in traits
    ensures Score(answers, traits) == 0 <==> forall i | 0 <= i < |answers| :: answers[i] !in traits
  {
    if answers != [] {
      ScoreExtremes(answers[1..], traits);
      assert forall i | 1 <= i < |answers| :: answers[i] == answers[1..][i - 1];
    }
  }

  /** Character k has the top score, and every character before it scores strictly less. */
  ghost predicate IsBestMatch(cast: seq<Character>, answers: seq<string>, k: int)
  {
    0 <= k < |cast| &&
    (forall j | 0 <= j < |cast| :: Score(answers, cast[j].traits) <= Score(answers, cast[k].traits)) &&
    (forall j | 0 <= j < k :: Score(answers, cast[j].traits) < Score(answers, cast[k].traits))
  }

  /** At most one character is the best match: ties go to the earliest. */
  lemma BestMatchUnique(cast: seq<Character>, answers: seq<string>, k1: int, k2: int)
    requires IsBestMatch(cast, answers, k1) && IsBestMatch(cast, answers, k2)
    ensures k1 == k2
  {
    var s1, s2 := Score(answers, cast[k1].traits), Score(answers, cast[k2].traits);
    if k1 < k2 {
      assert false;
    } else if k2 < k1 {
      assert false;
    }
  }

  /**
   * The scan over the cast: a character replaces the current best only when
   * it scores strictly more. Starting from -1 means the first character is
   * always taken, so a non-empty cast always yields a match.
   */
  method BestMatch(cast: seq<Character>, answers: seq<string>) returns (best: Option<nat>, maxScore: int)
    ensures best == None <==> cast == []
    ensures best == None ==> maxScore == -1
    ensures best.Some? ==> IsBestMatch(cast, answers, best.value)
    ensures best.Some? ==> maxScore == Score(answers, cast[best.value].traits)
  {
    best, maxScore := None, -1;
    var i := 0;
    while i < |cast|
      invariant 0 <= i <= |cast|
      invariant best == None <==> i == 0
      invariant best == None ==> maxScore == -1
      invariant best.Some? ==> best.value < i && maxScore == Score(answers, cast[best.value].traits)
      invariant best.Some? ==> forall j | 0 <= j < i :: Score(answers, cast[j].traits) <= maxScore
      invariant best.Some? ==> forall j | 0 <= j < best.value :: Score(answers, cast[j].traits) < maxScore
    {
      var score := Score(answers, cast[i].traits);
      if score > maxScore {
        maxScore := score;
        best := Some(i);
      }
      i := i + 1;
    }
  }

  /** What pressing "submit" shows: a request to answer everything, or the match and its portrait. */
  datatype Outcome = AnswerAllQuestions | Matched(best: nat, imageSrc: string)

  /**
   * The submit handler: fewer than three non-empty answers stops with a
   * request to answer all questions; otherwise the best match is shown with
   * the override portrait if it has one and the slug-derived one if not.
   */
  method Submit(q1: Option<string>, q2: Option<string>, q3: Option<string>) returns (out: Outcome)
    ensures out == AnswerAllQuestions <==> !(Truthy(q1) && Truthy(q2) && Truthy(q3))
    ensures out.Matched? ==>
      IsBestMatch(Cast, [q1.value, q2.value, q3.value], out.best) &&
      out.imageSrc == PortraitUrl(None, Cast[out.best].name)
  {
    var fields := [q1, q2, q3];
    var answers := FilledAnswers(fields);
    FilledAnswersComplete(fields);
    if |answers| < 3 {
      assert !Truthy(fields[0]) || !Truthy(fields[1]) || !Truthy(fields[2]);
      return AnswerAllQuestions;
    }
    assert Truthy(fields[0]) && Truthy(fields[1]) && Truthy(fields[2]);
    assert answers == [q1.value, q2.value, q3.value];
    var best, _ := BestMatch(Cast, answers);
    out := Matched(best.value, PortraitUrl(None, Cast[best.value].name));
  }

  /** The score of three answers, one point per answer found among the traits. */
  lemma ScoreOfThree(a: string, b: string, c: string, traits: seq<string>)
    ensures Score([a, b, c], traits) ==
      (if a in traits then 1 else 0) + (if b in traits then 1 else 0) + (if c in traits then 1 else 0)
  {
    assert [a, b, c][1..] == [b, c];
    assert [b, c][1..] == [c];
    assert [c][1..] == [];
    assert Score([c], traits) == (if c in traits then 1 else 0) + Score([], traits);
    assert Score([b, c], traits) == (if b in traits then 1 else 0) + Score([c], traits);
  }

  /** Brave, creative and joyful: David has all three, the others one each. */
  lemma DavidForBraveCreativeJoyful()
    ensures IsBestMatch(Cast, ["brave", "creative", "joyful"], 1)
  {
    for k := 0 to 3 {
      ScoreOfThree("brave", "creative", "joyful", Cast[k].traits);
    }
  }

  /** Kind, adventurous and creative give every character one point; the tie goes to Barnabas, who comes first. */
  lemma TieGoesToBarnabas()
    ensures IsBestMatch(Cast, ["kind", "adventurous", "creative"], 0)
  {
    for k := 0 to 3 {
      ScoreOfThree("kind", "adventurous", "creative", Cast[k].traits);
    }
  }

  /** Every character of the cast has an override portrait, so the result card always shows that one. */
  lemma CastUsesOverridePortraits(k: nat)
    requires k < |Cast|
    ensures Cast[k].name in CustomImageMap
    ensures PortraitUrl(None, Cast[k].name) == CustomImageMap[Cast[k].name]
  {
  }
}
