/** The page and the server together: what the answers collected on the
    quiz page become on the server, and which learning type the student is
    shown as a result. */
module QuizFlow {
  import opened Wrappers
  import opened JsObject
  import opened LearningTypes
  import ResultController
  import QuizPage

  /** How one formatted answer reaches the server's tally: JSON encodes an
      undefined array element as null, and `typeCount[null]` is the
      property "null". */
  function WireAnswer(a: Option<string>): (key: string)
    ensures a.Some? ==> key == a.value
    ensures a.None? ==> key == "null"
  {
    match a
    case Some(t) => t
    case None => "null"
  }

  /** The `answers` array the server receives for a `formattedAnswers`. */
  function WireAnswers(formatted: seq<Option<string>>): (r: seq<string>)
    ensures |r| == |formatted|
    ensures forall i :: 0 <= i < |r| ==> r[i] == WireAnswer(formatted[i])
  {
    if formatted == [] then []
    else [WireAnswer(formatted[0])] + WireAnswers(formatted[1..])
  }

  /** The answers the server tallies for the page's current `answers`. */
  function Sent(answers: Object<int>): (sent: seq<string>)
    requires answers.Valid()
    ensures |sent| == |answers.keys|
    ensures forall i :: 0 <= i < |sent| ==>
      sent[i] == WireAnswer(QuizPage.OptionMapping(answers.values[answers.keys[i]]))
  {
    WireAnswers(QuizPage.FormatAnswers(answers))
  }

  /** Each option stands for a type the server has a badge and details for. */
  lemma OptionTypesAreKnown(index: int)
    requires 0 <= index < 4
    ensures QuizPage.OptionMapping(index).value in KnownTypes()
    ensures ResultController.BadgeUrl(QuizPage.OptionMapping(index).value).Some?
    ensures QuizPage.OptionMapping(index).value in ResultController.LearningDetails()
  {
    QuizPage.OptionMappingValues();
  }

  /** Answers made with the option buttons reach the server as known learning
      types, none of them an array-index string. */
  lemma ButtonAnswersAreKnownTypes(answers: Object<int>)
    requires answers.Valid() && QuizPage.FromButtons(answers)
    ensures forall t :: t in Sent(answers) ==> t in KnownTypes() && !IsArrayIndex(t)
  {
    var formatted := QuizPage.FormatAnswers(answers);
    var sent := WireAnswers(formatted);
    KnownTypesAreNotIndices();
    forall i | 0 <= i < |sent|
      ensures sent[i] in KnownTypes()
    {
      var k := answers.keys[i];
      assert k in answers.values;
      var m := QuizPage.OptionMapping(answers.values[k]);
      assert formatted[i] == m && m.Some?;
      assert sent[i] == m.value;
    }
  }

  /** A quiz the page lets through (every question answered) always yields
      a known type, so the server stores a badge and replies with the type's
      details whenever the store accepts the record. */
  lemma SubmittedQuizHasKnownType(answers: Object<int>)
    requires answers.Valid() && QuizPage.FromButtons(answers)
    requires |answers.keys| == |QuizPage.DummyQuestions()|
    ensures ResultController.DominantType(Sent(answers)).Some?
    ensures ResultController.DominantType(Sent(answers)).value in KnownTypes()
  {
    ButtonAnswersAreKnownTypes(answers);
  }

  /** With both questions answered, the server picks the type of the
      question that was answered first later (the second key of `answers`):
      two different types tie at one each and the strict comparison keeps
      the later key; two equal types give that type. */
  lemma LaterAnsweredQuestionDecides(answers: Object<int>)
    requires answers.Valid() && QuizPage.FromButtons(answers)
    requires |answers.keys| == |QuizPage.DummyQuestions()|
    ensures ResultController.DominantType(Sent(answers))
         == QuizPage.OptionMapping(answers.values[answers.keys[1]])
  {
    var sent := Sent(answers);
    ButtonAnswersAreKnownTypes(answers);
    assert sent == [sent[0], sent[1]];
    assert sent[0] in sent && sent[1] in sent;
    ResultController.TwoAnswersPickSecond(sent[0], sent[1]);
  }

  /** A series of button selections that reaches both questions: the page
      lists the two questions in the order each was first selected, and the
      server's type is that of the question whose first selection came
      later, with the option it was last given. */
  lemma FirstSelectedLaterDecides(selections: seq<QuizPage.Selection>)
    requires forall i :: 0 <= i < |selections| ==>
      selections[i].questionId in QuizPage.QuestionIds() && 0 <= selections[i].idx < 4
    requires "q1" in QuizPage.SelectedIds(selections) && "q2" in QuizPage.SelectedIds(selections)
    ensures QuizPage.AnswersAfter(selections).Valid()
    ensures QuizPage.AnswersAfter(selections).keys == Dedup(QuizPage.SelectedIds(selections))
    ensures |Dedup(QuizPage.SelectedIds(selections))| == 2
    ensures ResultController.DominantType(Sent(QuizPage.AnswersAfter(selections)))
         == QuizPage.OptionMapping(QuizPage.AnswersAfter(selections).values[Dedup(QuizPage.SelectedIds(selections))[1]])
  {
    var answers := QuizPage.AnswersAfter(selections);
    QuizPage.SelectionOrder(selections);
    QuizPage.HistoryFromButtons(selections);
    QuizPage.CompleteIffAllAnswered(answers);
    LaterAnsweredQuestionDecides(answers);
  }
}
