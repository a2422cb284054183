/** The client side of the quiz, the page at /quiz: it collects the
    student's details, one option per question, and on submit sends the
    chosen options, converted to learning types, to the server. */
module QuizPage {
  import opened Wrappers
  import opened JsObject
  import opened LearningTypes

  /* ---------- The questions ---------- */

  datatype Question = Question(id: string, question: string, options: seq<string>)

  const Question1: string := "Which environment helps you learn best?"
  const Question1Options: seq<string> := [
    "Watching videos or diagrams",
    "Listening to explanations",
    "Reading books or articles",
    "Doing hands-on activities"
  ]
  const Question2: string := "How do you prefer to take notes?"
  const Question2Options: seq<string> := [
    "Drawing mind maps or sketches",
    "Recording audio notes",
    "Writing detailed summaries",
    "Making flashcards or acting it out"
  ]

  /** The ids of `dummyQuestions`, in order. */
  function QuestionIds(): (ids: seq<string>)
    ensures NoDup(ids)
    ensures forall q :: q in ids ==> !IsArrayIndex(q)
  {
    NotDigitNotIndex("q1");
    NotDigitNotIndex("q2");
    ["q1", "q2"]
  }

  /** `dummyQuestions`: two questions of four options each. */
  function DummyQuestions(): (qs: seq<Question>)
    ensures |qs| == |QuestionIds()|
    ensures forall i :: 0 <= i < |qs| ==> qs[i].id == QuestionIds()[i] && |qs[i].options| == 4
  {
    [Question("q1", Question1, Question1Options), Question("q2", Question2, Question2Options)]
  }

  /* ---------- Options to learning types ---------- */

  /** `optionMapping`: option A to D of every question stand for the four
      learning types. */
  const OptionTypes: map<int, string> :=
    map[0 := Visual, 1 := Auditory, 2 := ReadingWriting, 3 := Kinesthetic]

  /** `optionMapping[index]`: undefined for an index that is not 0 to 3. */
  function OptionMapping(index: int): (t: Option<string>)
    ensures t.Some? <==> 0 <= index < 4
    ensures t.Some? ==> t.value in KnownTypes()
  {
    if index in OptionTypes then Some(OptionTypes[index]) else None
  }

  /** The four options map to the four types, in this order. */
  lemma OptionMappingValues()
    ensures OptionMapping(0) == Some(Visual)
    ensures OptionMapping(1) == Some(Auditory)
    ensures OptionMapping(2) == Some(ReadingWriting)
    ensures OptionMapping(3) == Some(Kinesthetic)
  {
  }

  /** Different options stand for different types. */
  lemma OptionMappingInjective(i: int, j: int)
    requires 0 <= i < 4 && 0 <= j < 4 && i != j
    ensures OptionMapping(i) != OptionMapping(j)
  {
  }

  /** `Object.entries(answers).map(([_, index]) => optionMapping[index])`
      over the listed keys of an object. */
  function FormatEntries(keys: seq<string>, values: map<string, int>): (r: seq<Option<string>>)
    requires forall k :: k in keys ==> k in values
    ensures |r| == |keys|
    ensures forall i :: 0 <= i < |keys| ==> r[i] == OptionMapping(values[keys[i]])
  {
    if keys == [] then []
    else [OptionMapping(values[keys[0]])] + FormatEntries(keys[1..], values)
  }

  /** `formattedAnswers`: one learning type per answered question, in the
      order Object.entries lists the answers. */
  function FormatAnswers(answers: Object<int>): (r: seq<Option<string>>)
    requires answers.Valid()
    ensures |r| == |answers.keys|
    ensures forall i :: 0 <= i < |r| ==> r[i] == OptionMapping(Get(answers, answers.keys[i]).value)
  {
    FormatEntries(answers.keys, answers.values)
  }

  /* ---------- A series of selections ---------- */

  /** One call `handleOptionSelect(questionId, idx)`. */
  datatype Selection = Selection(questionId: string, idx: int)

  /** `answers` after a series of selections made from the empty object. */
  function AnswersAfter(selections: seq<Selection>): (answers: Object<int>)
    ensures forall q :: q in answers.values <==> exists i :: 0 <= i < |selections| && selections[i].questionId == q
  {
    if selections == [] then Empty()
    else
      var last := selections[|selections| - 1];
      Put(AnswersAfter(selections[..|selections| - 1]), last.questionId, last.idx)
  }

  /** The question ids of a series of selections, in order. */
  function SelectedIds(selections: seq<Selection>): (ids: seq<string>)
    ensures |ids| == |selections|
    ensures forall i :: 0 <= i < |ids| ==> ids[i] == selections[i].questionId
  {
    if selections == [] then []
    else SelectedIds(selections[..|selections| - 1]) + [selections[|selections| - 1].questionId]
  }

  /** With question ids that are not array indices (as "q1" and "q2"), the
      answered questions are exactly the selected ones and Object.entries
      lists them in the order each was first selected; a later selection of
      the same question only changes its index. */
  lemma {:induction false} SelectionOrder(selections: seq<Selection>)
    requires forall i :: 0 <= i < |selections| ==> !IsArrayIndex(selections[i].questionId)
    ensures AnswersAfter(selections).Valid()
    ensures forall q :: q in AnswersAfter(selections).values <==> q in SelectedIds(selections)
    ensures AnswersAfter(selections).keys == Dedup(SelectedIds(selections))
    decreases |selections|
  {
    if selections != [] {
      var p := selections[..|selections| - 1];
      var last := selections[|selections| - 1];
      var before := AnswersAfter(p);
      var ids := SelectedIds(p);
      SelectionOrder(p);
      PutValid(before, last.questionId, last.idx);
      assert AnswersAfter(selections) == Put(before, last.questionId, last.idx);
      assert SelectedIds(selections) == ids + [last.questionId];
      assert (ids + [last.questionId])[..|ids|] == ids;
      if last.questionId !in before.values {
        assert last.questionId !in ids;
      }
    }
  }

  /* ---------- Answers as the option buttons produce them ---------- */

  /** Every answer comes from a button: a dummy question's id with the index
      of one of that question's options. */
  ghost predicate FromButtons(answers: Object<int>)
  {
    forall k :: k in answers.values ==> k in QuestionIds() && 0 <= answers.values[k] < 4
  }
  /** Selections made with the buttons (a dummy question's id with the
      index of one of its options) leave only button answers. */
  lemma {:induction false} HistoryFromButtons(selections: seq<Selection>)
    requires forall i :: 0 <= i < |selections| ==>
      selections[i].questionId in QuestionIds() && 0 <= selections[i].idx < 4
    ensures FromButtons(AnswersAfter(selections))
    decreases |selections|
  {
    if selections != [] {
      var p := selections[..|selections| - 1];
      var last := selections[|selections| - 1];
      var before := AnswersAfter(p);
      var after := AnswersAfter(selections);
      HistoryFromButtons(p);
      assert after == Put(before, last.questionId, last.idx);
      forall k | k in after.values
        ensures k in QuestionIds() && 0 <= after.values[k] < 4
      {
        if k != last.questionId {
          assert Get(after, k) == Get(before, k);
        } else {
          assert Get(after, k) == Some(last.idx);
        }
      }
    }
  }


  /** Answered questions are never more than the questions. */
  lemma AnsweredAtMostAll(answers: Object<int>)
    requires answers.Valid() && FromButtons(answers)
    ensures |answers.keys| <= |DummyQuestions()|
  {
    assert forall k :: k in answers.keys ==> k in {"q1", "q2"};
    NoDupWithin(answers.keys, {"q1", "q2"});
  }

  /** A list without repetitions drawn from a set is no longer than the set. */
  lemma {:induction false} NoDupWithin(keys: seq<string>, ids: set<string>)
    requires NoDup(keys) && forall k :: k in keys ==> k in ids
    ensures |keys| <= |ids|
    decreases |keys|
  {
    if keys != [] {
      assert keys == [keys[0]] + keys[1..];
      NoDupCons(keys[0], keys[1..]);
      NoDupWithin(keys[1..], ids - {keys[0]});
    }
  }

  /** The submit check `Object.keys(answers).length !== dummyQuestions.length`
      fails exactly when some question is unanswered. */
  lemma CompleteIffAllAnswered(answers: Object<int>)
    requires answers.Valid() && FromButtons(answers)
    ensures |answers.keys| == |DummyQuestions()| <==> forall q :: q in QuestionIds() ==> q in answers.values
  {
    var keys := answers.keys;
    AnsweredAtMostAll(answers);
    if |keys| == 2 {
      assert keys[0] != keys[1];
      assert keys[0] in QuestionIds() && keys[1] in QuestionIds();
      assert "q1" in keys && "q2" in keys;
    }
    if "q1" in answers.values && "q2" in answers.values {
      var i :| 0 <= i < |keys| && keys[i] == "q1";
      var j :| 0 <= j < |keys| && keys[j] == "q2";
      assert i != j;
    }
  }

  /* ---------- The page ---------- */

  datatype StudentInfo = StudentInfo(name: string, studentClass: string, email: string)

  /** What pressing Submit leads to: nothing sent (an alert), the user
      request failing (an alert), or the result request with its body. */
  datatype Submission =
    | Incomplete
    | UserRequestFailed(sent: StudentInfo)
    | ResultRequest(sent: StudentInfo, userId: int, answers: seq<Option<string>>)

  /** The QuizPage component's state and its event handlers. */
  class Page {
    var step: int
    var studentInfo: StudentInfo
    var answers: Object<int>

    /** Step 1 shows the details form, step 2 the questions. */
    ghost predicate Valid()
      reads this
    {
      (step == 1 || step == 2) && answers.Valid()
    }

    constructor ()
      ensures Valid() && FromButtons(answers)
      ensures step == 1 && studentInfo == StudentInfo("", "", "") && answers == Empty()
    {
      step := 1;
      studentInfo := StudentInfo("", "", "");
      answers := Empty();
    }

    /** The name field's onChange. */
    method EnterName(value: string)
      requires Valid()
      modifies this
      ensures Valid()
      ensures studentInfo == old(studentInfo).(name := value)
      ensures step == old(step) && answers == old(answers)
    {
      studentInfo := studentInfo.(name := value);
    }

    /** The class field's onChange. */
    method EnterClass(value: string)
      requires Valid()
      modifies this
      ensures Valid()
      ensures studentInfo == old(studentInfo).(studentClass := value)
      ensures step == old(step) && answers == old(answers)
    {
      studentInfo := studentInfo.(studentClass := value);
    }

    /** The email field's onChange. */
    method EnterEmail(value: string)
      requires Valid()
      modifies this
      ensures Valid()
      ensures studentInfo == old(studentInfo).(email := value)
      ensures step == old(step) && answers == old(answers)
    {
      studentInfo := studentInfo.(email := value);
    }

    /** `handleStartQuiz`: moves to the questions when all three details are
      filled in, otherwise alerts and stays; `started` tells which. */
    method StartQuiz() returns (started: bool)
      requires Valid()
      modifies this
      ensures Valid()
      ensures started <==> studentInfo.name != "" && studentInfo.studentClass != "" && studentInfo.email != ""
      ensures step == if started then 2 else old(step)
      ensures studentInfo == old(studentInfo) && answers == old(answers)
    {
      if studentInfo.name == "" || studentInfo.studentClass == "" || studentInfo.email == "" {
        return false;
      }
      step := 2;
      started := true;
    }

    /** `handleOptionSelect`: `answers` becomes `{...answers, [questionId]: idx}`;
        every other question's entry stays as it was. */
    method SelectOption(questionId: string, idx: int)
      requires Valid()
      modifies this
      ensures Valid()
      ensures answers == Put(old(answers), questionId, idx)
      ensures Get(answers, questionId) == Some(idx)
      ensures forall q :: q != questionId ==> Get(answers, q) == Get(old(answers), q)
      ensures step == old(step) && studentInfo == old(studentInfo)
    {
      PutValid(answers, questionId, idx);
      answers := Put(answers, questionId, idx);
    }

    /** A click on option `optionIndex` of question `questionIndex`: the only
        way the page calls `handleOptionSelect`, from the buttons it renders
        in step 2 for each of `dummyQuestions`. */
    method ClickOption(questionIndex: nat, optionIndex: nat)
      requires Valid() && FromButtons(answers) && step == 2
      requires questionIndex < |DummyQuestions()| && optionIndex < |DummyQuestions()[questionIndex].options|
      modifies this
      ensures Valid() && FromButtons(answers)
      ensures answers == Put(old(answers), DummyQuestions()[questionIndex].id, optionIndex)
      ensures |answers.keys| <= |DummyQuestions()|
      ensures step == old(step) && studentInfo == old(studentInfo)
    {
      var q := DummyQuestions()[questionIndex];
      SelectOption(q.id, optionIndex);
      forall k | k in answers.values
        ensures k in QuestionIds() && 0 <= answers.values[k] < 4
      {
        if k != q.id {
          assert Get(answers, k) == Get(old(answers), k);
        } else {
          assert Get(answers, k) == Some(optionIndex);
        }
      }
      AnsweredAtMostAll(answers);
    }

    /** `handleSubmit`: no request unless as many questions are answered as
        there are questions; then the user request with the details, whose
        reply `userReply` is the new user's id or None when it throws, and
        then the result request with the formatted answers. */
    method Submit(userReply: Option<int>) returns (s: Submission)
      requires Valid()
      ensures s == Incomplete <==> |answers.keys| != |DummyQuestions()|
      ensures |answers.keys| == |DummyQuestions()| && userReply.None? ==>
        s == UserRequestFailed(studentInfo)
      ensures |answers.keys| == |DummyQuestions()| && userReply.Some? ==>
        s == ResultRequest(studentInfo, userReply.value, FormatAnswers(answers))
    {
      if |answers.keys| != |DummyQuestions()| {
        return Incomplete;
      }
      if userReply.None? {
        return UserRequestFailed(studentInfo);
      }
      var formattedAnswers := FormatAnswers(answers);
      s := ResultRequest(studentInfo, userReply.value, formattedAnswers);
    }
  }
}
