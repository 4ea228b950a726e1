/**
 * The browser side of the interest survey: the fixed question table, the
 * step-by-step navigation through the six categories, the recorded answers,
 * and the per-category lists and means sent to `/recommend`.
 */
module SurveyScript {
  import opened Wrappers
  import opened Riasec
  import opened PyText
  import DataProcessing
  import Routes

  // ----- the question table -----

  /** The category of each of the 48 questions, in table order (`questions[i].cat`), one row of eight per category; `steps` is `Letters`. */
  const Categories: string :=
    "RRRRRRRR" + "IIIIIIII" + "AAAAAAAA" + "SSSSSSSS" + "EEEEEEEE" + "CCCCCCCC"

  const QuestionCount := 48
  const LastStep := 5

  /** Question `q` belongs to the category of step `q / 8`; there are 8 questions per step. */
  lemma CategoryOfQuestion(q: nat)
    requires q < QuestionCount
    ensures |Categories| == QuestionCount && Categories[q] == Letters[q / 8]
  {
    if q < 8 {
    } else if q < 16 {
    } else if q < 24 {
    } else if q < 32 {
    } else if q < 40 {
    } else {
    }
  }

  /** Questions are in the category of step `s` exactly when they lie in the block `8 * s .. 8 * s + 7`. */
  lemma InStep(q: nat, s: Dim)
    requires q < QuestionCount
    ensures Categories[q] == Letters[s] <==> q / 8 == s
  {
    CategoryOfQuestion(q);
    FeatureLetters();
    assert LetterIndex(Letters[q / 8]) == q / 8;
  }

  // ----- answers -----

  /** The value of a survey radio button: one of the digits "1" to "5". */
  predicate IsRating(value: string) {
    |value| == 1 && '1' <= value[0] <= '5'
  }

  /** `parseInt` of a radio value is the digit it shows. */
  lemma RatingValue(value: string)
    requires IsRating(value)
    ensures 1 <= ParseDecimal(value) <= 5
  {
    assert value[..0] == [];
  }

  /** `userAnswers[q]` is truthy: the question has a non-empty answer. */
  predicate Answered(answers: map<nat, string>, q: nat) {
    q in answers && answers[q] != ""
  }

  /** Every question of step `s` below `n` has an answer. */
  predicate AnsweredBelow(answers: map<nat, string>, s: Dim, n: nat)
    requires n <= QuestionCount
  {
    forall q :: 0 <= q < n && Categories[q] == Letters[s] ==> Answered(answers, q)
  }

  /** Every question of step `s` has an answer. */
  predicate StepComplete(answers: map<nat, string>, s: Dim) {
    AnsweredBelow(answers, s, QuestionCount)
  }

  /** Extending the range by question `n` adds exactly its own check. */
  lemma AnsweredBelowStep(answers: map<nat, string>, s: Dim, n: nat)
    requires n < QuestionCount
    ensures AnsweredBelow(answers, s, n + 1) <==>
      AnsweredBelow(answers, s, n) && (Categories[n] == Letters[s] ==> Answered(answers, n))
  {
  }

  /** Recording an answer never makes a step incomplete. */
  lemma StepCompleteGrows(answers: map<nat, string>, q: nat, value: string, s: Dim)
    requires StepComplete(answers, s) && value != ""
    ensures StepComplete(answers[q := value], s)
  {
    forall q' | 0 <= q' < QuestionCount && Categories[q'] == Letters[s] ensures Answered(answers[q := value], q') {
      if q' != q {
        assert Answered(answers, q');
      }
    }
  }

  /** The recorded answers: keys are question indices and values radio values. */
  predicate WellFormedAnswers(answers: map<nat, string>) {
    forall q :: q in answers ==> q < QuestionCount && IsRating(answers[q])
  }

  // ----- grouping for the request -----

  /**
   * `answersForBackend[letter]` after the `for…in` loop has visited the keys below `n`:
   * the parsed answers of the questions of category `c`, in ascending question order.
   */
  function Grouped(answers: map<nat, string>, c: Dim, n: nat): seq<nat>
    decreases n
  {
    if n == 0 then []
    else
      Grouped(answers, c, n - 1)
      + (if n - 1 in answers && n - 1 < QuestionCount && Categories[n - 1] == Letters[c]
         then [ParseDecimal(answers[n - 1])] else [])
  }

  /** The request body: one list per category, in the order of `Letters`. */
  function Payload(answers: map<nat, string>): (groups: seq<seq<nat>>)
    ensures |groups| == 6
  {
    seq(6, c requires 0 <= c < 6 => Grouped(answers, c, QuestionCount))
  }

  /** The grouping loop of `submitAndShowResults`, visiting the answered questions in ascending order. */
  method GroupAnswers(answers: map<nat, string>) returns (groups: seq<seq<nat>>)
    ensures groups == Payload(answers)
  {
    groups := [[], [], [], [], [], []];
    for q := 0 to QuestionCount
      invariant |groups| == 6
      invariant forall c: Dim :: groups[c] == Grouped(answers, c, q)
    {
      if q in answers {
        var c := LetterIndex(Categories[q]);
        CategoryOfQuestion(q);
        FeatureLetters();
        assert c == q / 8;
        groups := groups[c := groups[c] + [ParseDecimal(answers[q])]];
      }
    }
  }

  /** Each grouped answer is the parsed rating of an answer, so it lies between 1 and 5. */
  lemma {:induction false} GroupedRatings(answers: map<nat, string>, c: Dim, n: nat)
    requires WellFormedAnswers(answers)
    ensures forall i :: 0 <= i < |Grouped(answers, c, n)| ==> 1 <= Grouped(answers, c, n)[i] <= 5
  {
    if n > 0 {
      GroupedRatings(answers, c, n - 1);
      if n - 1 in answers {
        RatingValue(answers[n - 1]);
      }
    }
  }

  /** With step `c` complete, the list of category `c` holds one entry per question of that step seen so far. */
  lemma {:induction false} GroupedLength(answers: map<nat, string>, c: Dim, n: nat)
    requires StepComplete(answers, c) && n <= QuestionCount
    ensures |Grouped(answers, c, n)| == if n <= 8 * c then 0 else if n >= 8 * c + 8 then 8 else n - 8 * c
  {
    if n > 0 {
      GroupedLength(answers, c, n - 1);
      InStep(n - 1, c);
    }
  }

  /** With step `c` complete, entry `i` of the list of category `c` is the parsed answer to question `8 * c + i`. */
  lemma {:induction false} GroupedEntry(answers: map<nat, string>, c: Dim, n: nat, i: nat)
    requires StepComplete(answers, c) && n <= QuestionCount && i < |Grouped(answers, c, n)|
    ensures 8 * c + i in answers && Grouped(answers, c, n)[i] == ParseDecimal(answers[8 * c + i])
  {
    GroupedLength(answers, c, n - 1);
    InStep(n - 1, c);
    var g0 := Grouped(answers, c, n - 1);
    if n - 1 in answers && Categories[n - 1] == Letters[c] {
      assert Grouped(answers, c, n) == g0 + [ParseDecimal(answers[n - 1])];
      if i < |g0| {
        GroupedEntry(answers, c, n - 1, i);
      }
    } else {
      GroupedEntry(answers, c, n - 1, i);
    }
  }

  /** How many of the questions below `n` have a recorded answer. */
  function CountBelow(answers: map<nat, string>, n: nat): nat {
    if n == 0 then 0 else CountBelow(answers, n - 1) + (if n - 1 in answers then 1 else 0)
  }

  /** The recorded questions below `n`, counted. */
  lemma {:induction false} CountBelowKeys(answers: map<nat, string>, n: nat)
    ensures CountBelow(answers, n) == |set q | q in answers && q < n|
  {
    if n > 0 {
      CountBelowKeys(answers, n - 1);
      var below := set q | q in answers && q < n - 1;
      var upTo := set q | q in answers && q < n;
      if n - 1 in answers {
        assert upTo == below + {n - 1};
      } else {
        assert upTo == below;
      }
    } else {
      assert (set q | q in answers && q < 0) == {};
    }
  }

  function TotalLength(groups: seq<seq<nat>>): nat
    requires |groups| == 6
  {
    |groups[0]| + |groups[1]| + |groups[2]| + |groups[3]| + |groups[4]| + |groups[5]|
  }

  /** Visiting key `n` grows the list of category `c` by one exactly when question `n` is answered and in step `c`. */
  lemma GroupedStep(answers: map<nat, string>, c: Dim, n: nat)
    requires n < QuestionCount
    ensures |Grouped(answers, c, n + 1)| == |Grouped(answers, c, n)| + (if n in answers && n / 8 == c then 1 else 0)
  {
    InStep(n, c);
  }

  /** Every answer below `n` lands in exactly one category list. */
  lemma {:induction false} GroupedTotal(answers: map<nat, string>, n: nat)
    requires n <= QuestionCount
    ensures |Grouped(answers, 0, n)| + |Grouped(answers, 1, n)| + |Grouped(answers, 2, n)|
      + |Grouped(answers, 3, n)| + |Grouped(answers, 4, n)| + |Grouped(answers, 5, n)| == CountBelow(answers, n)
  {
    if n > 0 {
      var q := n - 1;
      GroupedTotal(answers, q);
      GroupedStep(answers, 0, q);
      GroupedStep(answers, 1, q);
      GroupedStep(answers, 2, q);
      GroupedStep(answers, 3, q);
      GroupedStep(answers, 4, q);
      GroupedStep(answers, 5, q);
      assert 0 <= q / 8 < 6;
    }
  }

  /** With every key a question index, the count below the table size is the number of answers. */
  lemma CountAll(answers: map<nat, string>)
    requires forall q :: q in answers ==> q < QuestionCount
    ensures CountBelow(answers, QuestionCount) == |answers|
  {
    CountBelowKeys(answers, QuestionCount);
    var below := set q | q in answers && q < QuestionCount;
    assert below == answers.Keys;
  }

  /** The category lists together hold exactly the recorded answers. */
  lemma PayloadTotal(answers: map<nat, string>)
    requires WellFormedAnswers(answers)
    ensures TotalLength(Payload(answers)) == |answers|
  {
    GroupedTotal(answers, QuestionCount);
    CountAll(answers);
    var groups := Payload(answers);
    assert groups[0] == Grouped(answers, 0, QuestionCount) && groups[1] == Grouped(answers, 1, QuestionCount);
    assert groups[2] == Grouped(answers, 2, QuestionCount) && groups[3] == Grouped(answers, 3, QuestionCount);
    assert groups[4] == Grouped(answers, 4, QuestionCount) && groups[5] == Grouped(answers, 5, QuestionCount);
  }

  // ----- the results page -----

  /** `renderResults`: the mean of a category list, or 0 for an empty list (before `toFixed(2)`). */
  function CategoryScore(scores: seq<nat>): real {
    if |scores| > 0 then DataProcessing.Mean(seq(|scores|, i requires 0 <= i < |scores| => scores[i] as real)) else 0.0
  }

  /** A category score is 0 without answers and otherwise lies between the smallest and largest rating. */
  lemma CategoryScoreBounds(scores: seq<nat>, lo: nat, hi: nat)
    requires forall i :: 0 <= i < |scores| ==> lo <= scores[i] <= hi
    ensures |scores| == 0 ==> CategoryScore(scores) == 0.0
    ensures |scores| > 0 ==> lo as real <= CategoryScore(scores) <= hi as real
  {
    if |scores| > 0 {
      DataProcessing.MeanBounds(seq(|scores|, i requires 0 <= i < |scores| => scores[i] as real), lo as real, hi as real);
    }
  }

  /** The request body as the server reads it: each list under its category letter. */
  function RequestBody(groups: seq<seq<nat>>): (body: Routes.Answers)
    requires |groups| == 6
  {
    map["R" := Reals(groups[0]), "I" := Reals(groups[1]), "A" := Reals(groups[2]),
        "S" := Reals(groups[3]), "E" := Reals(groups[4]), "C" := Reals(groups[5])]
  }

  /** The server finds each category's list under its letter. */
  lemma RequestBodyLookup(groups: seq<seq<nat>>, d: Dim)
    requires |groups| == 6
    ensures Routes.Submitted(RequestBody(groups), d) == Reals(groups[d])
  {
    var body := RequestBody(groups);
    if d == 0 {
      assert [Letters[d]] == "R";
    } else if d == 1 {
      assert [Letters[d]] == "I";
    } else if d == 2 {
      assert [Letters[d]] == "A";
    } else if d == 3 {
      assert [Letters[d]] == "S";
    } else if d == 4 {
      assert [Letters[d]] == "E";
    } else {
      assert [Letters[d]] == "C";
    }
  }

  function Reals(xs: seq<nat>): (r: seq<real>)
    ensures |r| == |xs| && forall i :: 0 <= i < |xs| ==> r[i] == xs[i] as real
  {
    seq(|xs|, i requires 0 <= i < |xs| => xs[i] as real)
  }

  // ----- buttons -----

  /** `updateUI`: the label of the next button. */
  function NextLabel(step: Dim): (text: string)
    ensures text == "Get Results" <==> step == LastStep
  {
    if step == LastStep then "Get Results" else "Next"
  }

  /** `updateUI`: the back button is visible on every step but the first. */
  function BackVisible(step: Dim): bool {
    step != 0
  }

  // ----- the survey state -----

  /** The page's survey state: the step shown and the answers recorded so far. */
  class Survey {
    var currentStep: Dim
    var userAnswers: map<nat, string>

    /** Every recorded answer is a rated question, and every step before the current one is complete. */
    predicate Valid()
      reads this
    {
      WellFormedAnswers(userAnswers)
      && forall s: Dim :: s < currentStep ==> StepComplete(userAnswers, s)
    }

    constructor ()
      ensures Valid() && currentStep == 0 && userAnswers == map[]
    {
      currentStep := 0;
      userAnswers := map[];
    }

    /** `validateStep`: whether every question of the current step is answered. */
    method ValidateStep() returns (allAnswered: bool)
      ensures allAnswered <==> StepComplete(userAnswers, currentStep)
    {
      allAnswered := true;
      for q := 0 to QuestionCount
        invariant allAnswered <==> AnsweredBelow(userAnswers, currentStep, q)
      {
        AnsweredBelowStep(userAnswers, currentStep, q);
        if Categories[q] == Letters[currentStep] && !Answered(userAnswers, q) {
          allAnswered := false;
        }
      }
    }

    /**
     * `goToNext`: nothing happens while the current step is incomplete; otherwise
     * the survey moves on, or on the last step the grouped answers are submitted.
     */
    method GoToNext() returns (submitted: Option<seq<seq<nat>>>)
      requires Valid()
      modifies this
      ensures Valid() && userAnswers == old(userAnswers)
      ensures !StepComplete(userAnswers, old(currentStep)) ==> currentStep == old(currentStep) && submitted.None?
      ensures StepComplete(userAnswers, old(currentStep)) && old(currentStep) < LastStep ==>
        currentStep == old(currentStep) + 1 && submitted.None?
      ensures StepComplete(userAnswers, old(currentStep)) && old(currentStep) == LastStep ==>
        currentStep == LastStep && submitted == Some(Payload(userAnswers))
    {
      var ok := ValidateStep();
      submitted := None;
      if !ok {
        return;
      }
      if currentStep < LastStep {
        currentStep := currentStep + 1;
      } else {
        var groups := GroupAnswers(userAnswers);
        submitted := Some(groups);
      }
    }

    /** `goToBack`: one step back, except on the first step. */
    method GoToBack()
      requires Valid()
      modifies this
      ensures Valid() && userAnswers == old(userAnswers)
      ensures currentStep == if old(currentStep) > 0 then old(currentStep) - 1 else 0
    {
      if currentStep > 0 {
        currentStep := currentStep - 1;
      }
    }

    /** The change handler of a radio button: records its value for its question and nothing else. */
    method RecordAnswer(q: nat, value: string)
      requires Valid() && q < QuestionCount && IsRating(value)
      modifies this
      ensures Valid() && currentStep == old(currentStep)
      ensures userAnswers == old(userAnswers)[q := value]
    {
      userAnswers := userAnswers[q := value];
      forall s: Dim | s < currentStep ensures StepComplete(userAnswers, s) {
        StepCompleteGrows(old(userAnswers), q, value, s);
      }
    }
  }

  /** A submission happens only on the last step with every step complete: each list then holds 8 ratings from 1 to 5. */
  lemma SubmissionComplete(answers: map<nat, string>)
    requires WellFormedAnswers(answers)
    requires forall s: Dim :: StepComplete(answers, s)
    ensures var groups := Payload(answers);
      forall c: Dim :: |groups[c]| == 8 && forall i :: 0 <= i < 8 ==> 1 <= groups[c][i] <= 5
  {
    forall c: Dim
      ensures |Payload(answers)[c]| == 8 && forall i :: 0 <= i < 8 ==> 1 <= Payload(answers)[c][i] <= 5
    {
      assert Payload(answers)[c] == Grouped(answers, c, QuestionCount);
      GroupedLength(answers, c, QuestionCount);
      GroupedRatings(answers, c, QuestionCount);
    }
  }

  /** The server's profile of a complete submission exists and has every dimension between 1 and 5. */
  lemma SubmissionProfile(answers: map<nat, string>)
    requires WellFormedAnswers(answers)
    requires forall s: Dim :: StepComplete(answers, s)
    ensures var p := Routes.UserProfile(RequestBody(Payload(answers)));
      p.Some? && forall d: Dim :: 1.0 <= p.value[d] <= 5.0
  {
    SubmissionComplete(answers);
    var groups := Payload(answers);
    var body := RequestBody(groups);
    forall d: Dim ensures |Routes.Submitted(body, d)| > 0 {
      RequestBodyLookup(groups, d);
    }
    forall d: Dim ensures 1.0 <= Routes.UserProfile(body).value[d] <= 5.0 {
      RequestBodyLookup(groups, d);
      ProfileEntryBounds(body, d, groups[d]);
    }
  }

  /** One dimension of a submitted profile, from the ratings of its list. */
  lemma ProfileEntryBounds(body: Routes.Answers, d: Dim, ratings: seq<nat>)
    requires Routes.UserProfile(body).Some? && Routes.Submitted(body, d) == Reals(ratings)
    requires |ratings| == 8 && forall i :: 0 <= i < 8 ==> 1 <= ratings[i] <= 5
    ensures 1.0 <= Routes.UserProfile(body).value[d] <= 5.0
  {
    DataProcessing.MeanBounds(Reals(ratings), 1.0, 5.0);
    assert |Routes.Submitted(body, d)| > 0;
  }
}
