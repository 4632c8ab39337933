/**
 * The quiz tab: pick a topic, answer its five questions one at a time (each
 * answer can be chosen once and a correct one is worth two points), then see
 * the result banner while the final result is sent to the API.
 */
module QuizTab {

  import opened Options
  import opened QuizData
  import Api

  /** The ids of the topic buttons, in the order they are offered. */
  const TopicIds: seq<string> := ["arrays", "stacks", "trees", "sorting", "bigO", "practice"]

  /** The topic buttons offer exactly the quizzes of the bank. */
  lemma TopicIdsAreBankKeys()
    ensures forall t :: t in TopicIds <==> QuizEntry(t).Some?
  {
  }

  /** One entry of `answeredQuestions`. */
  datatype AnswerRecord = AnswerRecord(question: string, selected: int, correct: int, isCorrect: bool)

  /** Record `r` is the one kept for question `k` of quiz `key`: it names that question's right answer and is marked right exactly when it chose it. */
  predicate RecordFits(key: string, k: int, r: AnswerRecord) {
    r.correct == CorrectAnswer(key, k) && r.isCorrect == (r.selected == r.correct)
  }

  /** How many answers in `log` were right; all of them exactly when the count is the length. */
  function CountCorrect(log: seq<AnswerRecord>): (n: nat)
    ensures n <= |log|
    ensures n == |log| <==> forall k :: 0 <= k < |log| ==> log[k].isCorrect
  {
    if log == [] then 0
    else CountCorrect(log[..|log| - 1]) + (if log[|log| - 1].isCorrect then 1 else 0)
  }

  /**
   * The record `handleAnswerSelect` keeps for choosing `answerIndex` on
   * question `current` of quiz `topic`: the question, the choice, the right
   * answer and whether the choice is it.
   */
  function AnswerFor(topic: string, current: int, answerIndex: int): (r: AnswerRecord)
    requires topic in Topics && 0 <= current < QuestionCount
    ensures RecordFits(topic, current, r) && r.selected == answerIndex
    ensures r.question == QuestionText(topic, current)
  {
    EntryQuestion(topic, current);
    var question := QuizEntry(topic).value.questions[current];
    AnswerRecord(question.question, answerIndex, question.correctAnswer, answerIndex == question.correctAnswer)
  }

  /**
   * The result `handleNext` sends when the last question is done, as written:
   * the bonus for a correct current answer is added to `score` once more,
   * although `handleAnswerSelect` already added it. Against the intended
   * result it differs only in the score, which is two points higher exactly
   * when the current answer is right, and the perfect flag follows that
   * inflated score.
   */
  function SavedPayload(quiz: Quiz, current: int, selected: Option<int>, score: int): (input: Api.QuizResultInput)
    requires 0 <= current < |quiz.questions|
    ensures var intended := IntendedPayload(quiz, score);
      && input.topic == intended.topic && input.totalQuestions == intended.totalQuestions
      && (input.score == intended.score <==> selected != Some(quiz.questions[current].correctAnswer))
      && (input.score != intended.score ==> input.score == intended.score + 2)
      && input.isPerfectScore == IntendedPayload(quiz, input.score).isPerfectScore
  {
    var bonus := if selected == Some(quiz.questions[current].correctAnswer) then 2 else 0;
    Api.QuizResultInput(quiz.topic, score + bonus, |quiz.questions|, score + bonus == 10)
  }

  /** The result the quiz evidently means to send: the score already kept, perfect at ten points. */
  function IntendedPayload(quiz: Quiz, score: int): Api.QuizResultInput
  {
    Api.QuizResultInput(quiz.topic, score, |quiz.questions|, score == 10)
  }

  /** The banner celebrates a perfect score. */
  predicate BannerIsPerfect(finalScore: int) {
    finalScore == 10
  }

  /** The line under the score on the banner for a score that is not perfect. */
  function BannerMessage(finalScore: int): string {
    if finalScore >= 8 then "Excellent work!" else if finalScore >= 6 then "Good effort!" else "Keep practicing!"
  }

  /**
   * The state of quiz `topic` at question `current` (from 0): the log has one
   * record per question answered (the current one included once it is
   * answered), each record fits its question, the score is two points per
   * right answer, the explanation shows exactly when an answer is chosen,
   * and the quiz is complete only on an answered last question.
   */
  ghost predicate InQuiz(topic: string, current: int, selected: Option<int>, score: int, complete: bool, showExplanation: bool, log: seq<AnswerRecord>) {
    && topic in Topics
    && 0 <= current < QuestionCount
    && |log| == current + (if selected.Some? then 1 else 0)
    && (forall k :: 0 <= k < |log| ==> RecordFits(topic, k, log[k]))
    && (selected.Some? ==> log[current].selected == selected.value)
    && score == 2 * CountCorrect(log)
    && showExplanation == selected.Some?
    && (complete ==> selected.Some? && current == QuestionCount - 1)
  }

  /** Choosing an answer for an unanswered current question keeps the quiz state consistent. */
  lemma AnswerKeepsInQuiz(topic: string, current: int, score: int, complete: bool, log: seq<AnswerRecord>, record: AnswerRecord,
                          selected': Option<int>, score': int, log': seq<AnswerRecord>)
    requires InQuiz(topic, current, None, score, complete, false, log)
    requires RecordFits(topic, current, record)
    requires selected' == Some(record.selected) && score' == score + (if record.isCorrect then 2 else 0) && log' == log + [record]
    ensures InQuiz(topic, current, selected', score', complete, true, log')
  {
    CountCorrectAppend(log, record);
    RecordsAppend(topic, log, record);
    assert (log + [record])[current] == record;
  }

  /** The component's state, one field per `useState`. */
  class QuizTab {
    var selectedTopic: Option<string>
    var currentQuestion: int
    var selectedAnswer: Option<int>
    var score: int
    var quizComplete: bool
    var showExplanation: bool
    var answeredQuestions: seq<AnswerRecord>

    /**
     * With no topic the state is the initial one. During a quiz the log has
     * one record per question answered (the current one included once it is
     * answered), each record is the one kept for its question, the score is
     * two points per right answer, the explanation shows exactly when an
     * answer is chosen, and the quiz is complete only on an answered last
     * question.
     */
    ghost predicate Valid()
      reads this
    {
      match selectedTopic
      case None =>
        && currentQuestion == 0 && selectedAnswer == None && score == 0
        && !quizComplete && !showExplanation && answeredQuestions == []
      case Some(t) =>
        InQuiz(t, currentQuestion, selectedAnswer, score, quizComplete, showExplanation, answeredQuestions)
    }

    /** The topic picker with nothing chosen. */
    predicate AtTopicSelection()
      reads this
    {
      && selectedTopic == None && currentQuestion == 0 && selectedAnswer == None && score == 0
      && !quizComplete && !showExplanation && answeredQuestions == []
    }

    /** The state the component mounts with. */
    constructor()
      ensures Valid() && AtTopicSelection()
    {
      selectedTopic := None;
      currentQuestion := 0;
      selectedAnswer := None;
      score := 0;
      quizComplete := false;
      showExplanation := false;
      answeredQuestions := [];
    }

    /** `startQuiz`: begin quiz `topicId` from its first question with nothing answered (also "Retake Quiz"). */
    method StartQuiz(topicId: string)
      requires topicId in TopicIds
      modifies this
      ensures Valid()
      ensures selectedTopic == Some(topicId) && currentQuestion == 0 && selectedAnswer == None && score == 0
      ensures !quizComplete && !showExplanation && answeredQuestions == []
    {
      selectedTopic := Some(topicId);
      currentQuestion := 0;
      selectedAnswer := None;
      score := 0;
      quizComplete := false;
      showExplanation := false;
      answeredQuestions := [];
    }

    /**
     * `handleAnswerSelect`: nothing happens once an answer is chosen or with
     * no quiz; otherwise the answer is recorded, the explanation shown and two
     * points added when it is the right one.
     */
    method HandleAnswerSelect(answerIndex: int)
      requires Valid()
      modifies this
      ensures Valid()
      ensures old(selectedAnswer).Some? || old(selectedTopic).None? ==>
        && selectedTopic == old(selectedTopic) && currentQuestion == old(currentQuestion)
        && selectedAnswer == old(selectedAnswer) && score == old(score) && quizComplete == old(quizComplete)
        && showExplanation == old(showExplanation) && answeredQuestions == old(answeredQuestions)
      ensures old(selectedAnswer).None? && old(selectedTopic).Some? ==>
        var record := AnswerFor(old(selectedTopic).value, old(currentQuestion), answerIndex);
        && selectedTopic == old(selectedTopic) && currentQuestion == old(currentQuestion)
        && selectedAnswer == Some(answerIndex) && showExplanation && quizComplete == old(quizComplete)
        && score == old(score) + (if record.isCorrect then 2 else 0)
        && answeredQuestions == old(answeredQuestions) + [record]
    {
      if selectedAnswer.Some? || selectedTopic.None? {
        return;
      }
      var topic := selectedTopic.value;
      ghost var log := answeredQuestions;
      var record := AnswerFor(topic, currentQuestion, answerIndex);
      selectedAnswer := Some(answerIndex);
      showExplanation := true;
      if record.isCorrect {
        score := score + 2;
      }
      answeredQuestions := answeredQuestions + [record];
      AnswerKeepsInQuiz(topic, currentQuestion, old(score), quizComplete, log, record, selectedAnswer, score, answeredQuestions);
    }

    /**
     * `handleNext`, offered once the current question is answered: move on to
     * the next question, or after the last one mark the quiz complete and
     * return the result that is sent to the API.
     */
    method HandleNext() returns (saved: Option<Api.QuizResultInput>)
      requires Valid() && selectedTopic.Some? && selectedAnswer.Some? && !quizComplete
      modifies this
      ensures Valid()
      ensures selectedTopic == old(selectedTopic) && score == old(score) && answeredQuestions == old(answeredQuestions)
      ensures old(currentQuestion) < QuestionCount - 1 ==>
        && currentQuestion == old(currentQuestion) + 1 && selectedAnswer == None && !showExplanation
        && !quizComplete && saved == None
      ensures old(currentQuestion) == QuestionCount - 1 ==>
        && currentQuestion == old(currentQuestion) && selectedAnswer == old(selectedAnswer)
        && showExplanation == old(showExplanation) && quizComplete
        && saved == Some(SavedPayload(QuizEntry(selectedTopic.value).value, currentQuestion, selectedAnswer, score))
    {
      var quiz := QuizEntry(selectedTopic.value).value;
      if currentQuestion < |quiz.questions| - 1 {
        currentQuestion := currentQuestion + 1;
        selectedAnswer := None;
        showExplanation := false;
        saved := None;
      } else {
        quizComplete := true;
        saved := Some(SavedPayload(quiz, currentQuestion, selectedAnswer, score));
      }
    }

    /** `exitQuiz`: back to the topic picker with everything cleared. */
    method ExitQuiz()
      modifies this
      ensures Valid() && AtTopicSelection()
    {
      selectedTopic := None;
      currentQuestion := 0;
      selectedAnswer := None;
      score := 0;
      quizComplete := false;
      showExplanation := false;
      answeredQuestions := [];
    }
  }

  /** Appending a record adds one to the count exactly when the record is right. */
  lemma CountCorrectAppend(log: seq<AnswerRecord>, record: AnswerRecord)
    ensures CountCorrect(log + [record]) == CountCorrect(log) + (if record.isCorrect then 1 else 0)
  {
    assert (log + [record])[..|log|] == log;
  }

  /** Appending the record for the next question keeps every record the one kept for its question. */
  lemma RecordsAppend(topic: string, log: seq<AnswerRecord>, record: AnswerRecord)
    requires forall k :: 0 <= k < |log| ==> RecordFits(topic, k, log[k])
    requires RecordFits(topic, |log|, record)
    ensures forall k :: 0 <= k < |log| + 1 ==> RecordFits(topic, k, (log + [record])[k])
  {
  }

  /** During a quiz the score is an even number of points between 0 and 10. */
  lemma ScoreBounds(tab: QuizTab)
    requires tab.Valid()
    ensures 0 <= tab.score <= 2 * QuestionCount && tab.score % 2 == 0
  {
  }

  /**
   * When the last question is done, the saved score is the kept score plus
   * two more points exactly when the last answer was right: the last right
   * answer counts twice.
   */
  lemma SavedScoreCountsLastTwice(tab: QuizTab)
    requires tab.Valid() && tab.selectedTopic.Some? && tab.selectedAnswer.Some? && tab.currentQuestion == QuestionCount - 1
    ensures var log := tab.answeredQuestions;
      SavedPayload(QuizEntry(tab.selectedTopic.value).value, tab.currentQuestion, tab.selectedAnswer, tab.score).score
        == 2 * CountCorrect(log) + (if log[|log| - 1].isCorrect then 2 else 0)
  {
  }

  /** Five right answers: the banner shows a perfect 10, but 12 points and "not perfect" are saved. */
  lemma AllRightSavedAsImperfect(tab: QuizTab)
    requires tab.Valid() && tab.quizComplete && CountCorrect(tab.answeredQuestions) == QuestionCount
    ensures var saved := SavedPayload(QuizEntry(tab.selectedTopic.value).value, tab.currentQuestion, tab.selectedAnswer, tab.score);
      BannerIsPerfect(tab.score) && saved.score == 12 && !saved.isPerfectScore
  {
  }

  /** Four right answers, the last among them: the banner shows 8, but a perfect 10 is saved. */
  lemma FourRightSavedAsPerfect(tab: QuizTab)
    requires tab.Valid() && tab.quizComplete && CountCorrect(tab.answeredQuestions) == QuestionCount - 1
    requires tab.answeredQuestions[QuestionCount - 1].isCorrect
    ensures var saved := SavedPayload(QuizEntry(tab.selectedTopic.value).value, tab.currentQuestion, tab.selectedAnswer, tab.score);
      !BannerIsPerfect(tab.score) && saved.score == 10 && saved.isPerfectScore
  {
  }

  /**
   * The corrected result of a finished quiz: its score is two points per
   * right answer, it is perfect exactly when every answer is right, and it
   * agrees with the banner.
   */
  lemma IntendedPayloadAgreesWithBanner(tab: QuizTab)
    requires tab.Valid() && tab.quizComplete
    ensures var quiz := QuizEntry(tab.selectedTopic.value).value;
      var intended := IntendedPayload(quiz, tab.score);
      && intended.score == 2 * CountCorrect(tab.answeredQuestions)
      && (intended.isPerfectScore <==> forall k :: 0 <= k < QuestionCount ==> tab.answeredQuestions[k].isCorrect)
      && intended.isPerfectScore == BannerIsPerfect(tab.score)
      && intended.topic == tab.selectedTopic.value && intended.totalQuestions == QuestionCount
  {
  }

  /**
   * The banner by number of right answers on a finished quiz: perfect for
   * five, "Excellent work!" for four, "Good effort!" for three and
   * "Keep practicing!" for fewer.
   */
  lemma BannerByRightAnswers(tab: QuizTab)
    requires tab.Valid() && tab.quizComplete
    ensures var right := CountCorrect(tab.answeredQuestions);
      && (BannerIsPerfect(tab.score) <==> right == 5)
      && (right == 4 ==> BannerMessage(tab.score) == "Excellent work!")
      && (right == 3 ==> BannerMessage(tab.score) == "Good effort!")
      && (right <= 2 ==> BannerMessage(tab.score) == "Keep practicing!")
  {
  }
}
