/** The scene-reading quiz: the scene questions whose visualisation is on,
    asked one after the other; each answer is recorded and scored, and the
    answer to the last question builds the result handed to the caller. */
module SceneQuiz {
  import opened Common
  import opened AppStore
  import opened QuizQuestions
  import QuizPage

  // ---------------------------------------------------------------------
  // Which questions are asked
  // ---------------------------------------------------------------------

  /** The `visualizations` object.  The store has no escape-velocity
      toggle, so `escape` is whatever `showEscapeVelocity` reads as:
      `None` for `undefined`. */
  datatype Visualizations = Visualizations(gravity: bool, escape: Option<bool>, horizon: bool)

  /** `visualizations[name]` is truthy; an unknown name reads `undefined`. */
  predicate Shown(v: Visualizations, name: string)
  {
    if name == "gravity" then v.gravity
    else if name == "escape" then v.escape == Some(true)
    else if name == "horizon" then v.horizon
    else false
  }

  /** `!q.requiresVisualization || visualizations[q.requiresVisualization]`. */
  predicate Kept(v: Visualizations, q: Question)
  {
    q.requiresVisualization.None? || q.requiresVisualization.value == "" || Shown(v, q.requiresVisualization.value)
  }

  function KeptTest(v: Visualizations): Question -> bool
  {
    q => Kept(v, q)
  }

  /** The questions of the quiz. */
  function Asked(v: Visualizations): (qs: seq<Question>)
    ensures forall q :: q in qs <==> q in SceneQuestions && Kept(v, q)
  {
    Filter(SceneQuestions, KeptTest(v))
  }

  /** With the store's toggles, the escape-velocity question is never
      asked: the quiz is the gravity-field question when that field is on,
      and empty otherwise. */
  lemma StoreAsksAtMostGravity(gravity: bool, horizon: bool)
    ensures Asked(Visualizations(gravity, None, horizon)) == if gravity then [SceneQuestions[0]] else []
  {
    var v := Visualizations(gravity, None, horizon);
    assert SceneQuestions == [SceneQuestions[0]] + [SceneQuestions[1]];
    FilterAppend([SceneQuestions[0]], [SceneQuestions[1]], KeptTest(v));
    assert !Kept(v, SceneQuestions[1]);
  }

  // ---------------------------------------------------------------------
  // Answers and the result
  // ---------------------------------------------------------------------

  /** The record of one answer: correct exactly when the answer is the
      question's own, earning the question's points then and 0 otherwise. */
  function AnswerFor(q: Question, answer: Answer): (r: AnswerRecord)
    ensures r.questionId == q.id && r.userAnswer == answer
    ensures r.correct <==> answer == q.correct
    ensures r.pointsEarned == if answer == q.correct then q.points else 0
    ensures r.timeSpent.None? && r.hintsUsed.None?
  {
    var isCorrect := answer == q.correct;
    AnswerRecord(q.id, answer, isCorrect, None, None, if isCorrect then q.points else 0)
  }

  function CorrectTest(): AnswerRecord -> bool
  {
    (a: AnswerRecord) => a.correct
  }

  /** The object handed to `onComplete`; its type is always `scene_reading`. */
  datatype SceneResult = SceneResult(
    objectName: string,
    score: nat,
    totalQuestions: nat,
    correctAnswers: nat,
    answers: seq<AnswerRecord>)

  /** The result built at the last question from the score before it, the
      answers so far with the last one already in place, and the last
      record, which is counted and listed once more. */
  function Finish(objectName: string, total: nat, scoreBefore: nat, newAnswers: seq<AnswerRecord>, last: AnswerRecord): (r: SceneResult)
    ensures r.score == scoreBefore + last.pointsEarned
    ensures r.answers == newAnswers + [last]
    ensures r.correctAnswers == Count(r.answers, CorrectTest())
  {
    FilterAppend(newAnswers, [last], CorrectTest());
    SceneResult(objectName, scoreBefore + last.pointsEarned, total,
                Count(newAnswers, CorrectTest()) + (if last.correct then 1 else 0),
                newAnswers + [last])
  }

  /** A correct last answer is counted twice: the result claims one more
      correct answer than the questions answered correctly, and lists one
      more answer than there were questions. */
  lemma LastAnswerCountedTwice(objectName: string, scoreBefore: nat, earlier: seq<AnswerRecord>, last: AnswerRecord)
    requires last.correct
    ensures var r := Finish(objectName, |earlier| + 1, scoreBefore, earlier + [last], last);
            && r.correctAnswers == Count(earlier, CorrectTest()) + 2
            && |r.answers| == r.totalQuestions + 1
  {
    FilterAppend(earlier, [last], CorrectTest());
  }

  /** All answers right: the result reports more correct answers than
      questions. */
  lemma AllCorrectOvercounts(objectName: string, scoreBefore: nat, answers: seq<AnswerRecord>)
    requires answers != []
    requires forall i :: 0 <= i < |answers| ==> answers[i].correct
    ensures var r := Finish(objectName, |answers|, scoreBefore, answers, answers[|answers| - 1]);
            r.correctAnswers == r.totalQuestions + 1
  {
    FilterAll(answers, CorrectTest());
  }

  // ---------------------------------------------------------------------
  // The quiz component
  // ---------------------------------------------------------------------

  class Quiz {
    var questions: seq<Question>
    var currentQuestion: nat
    var userAnswers: seq<AnswerRecord>
    var score: nat

    /** One record per question answered so far, and a score that is the
        points those records earned. */
    ghost predicate Valid()
      reads this
    {
      |userAnswers| == currentQuestion && score == SumBy(userAnswers, QuizPage.PointsEarned)
    }

    /** A fresh quiz on the current scene. */
    constructor (v: Visualizations)
      ensures Valid()
      ensures questions == Asked(v) && currentQuestion == 0 && userAnswers == [] && score == 0
    {
      questions := Asked(v);
      currentQuestion := 0;
      userAnswers := [];
      score := 0;
    }

    /** The question effect, re-run when the object or a toggle changes:
        the question list is replaced and nothing else is reset. */
    method Regenerate(v: Visualizations)
      modifies this`questions
      ensures questions == Asked(v)
    {
      questions := Asked(v);
    }

    /** `handleAnswer`.  The current question must exist: otherwise reading
        its correct answer throws.  The record goes in at the current index;
        the score grows by the points earned; before the last question the
        index moves on and there is no result, at the last one the index
        stays and the result is built (the caller then closes the quiz). */
    method HandleAnswer(objectName: string, answer: Answer) returns (result: Option<SceneResult>)
      requires Valid() && currentQuestion < |questions|
      modifies this`currentQuestion, this`userAnswers, this`score
      ensures result.None? ==> Valid()
      ensures var record := AnswerFor(old(questions[currentQuestion]), answer);
              && userAnswers == old(userAnswers) + [record]
              && score == old(score) + record.pointsEarned
              && (result.None? <==> old(currentQuestion) < |questions| - 1)
              && (result.None? ==> currentQuestion == old(currentQuestion) + 1)
              && (result.Some? ==> currentQuestion == old(currentQuestion)
                                   && result.value == Finish(objectName, |questions|, old(score), userAnswers, record))
      ensures result.Some? ==> |userAnswers| == |questions| && result.value.score == SumBy(userAnswers, QuizPage.PointsEarned)
    {
      var question := questions[currentQuestion];
      var record := AnswerFor(question, answer);
      var newAnswers := userAnswers + [record];
      SumByAppend(userAnswers, [record], QuizPage.PointsEarned);
      userAnswers := newAnswers;
      var before := score;
      score := score + record.pointsEarned;
      if currentQuestion < |questions| - 1 {
        currentQuestion := currentQuestion + 1;
        result := None;
      } else {
        result := Some(Finish(objectName, |questions|, before, newAnswers, record));
      }
    }
  }
}
