/** The timed quiz page: starting a mode, answering questions with speed,
    streak and no-hint bonuses, hints, the countdown, and the result handed to
    the store when the quiz ends.  React state updates are batched, so every
    handler reads the values of the render it was created in; the model reads
    `old(...)` values in the same places.  The clock is a parameter: the
    seconds spent on a question, and the day a result is completed. */
module QuizPage {
  import opened Common
  import opened AppStore
  import opened QuizQuestions

  /** `user?.difficulty || 'student'`. */
  function EffectiveDifficulty(difficulty: Option<string>): (d: string)
    ensures d != ""
    ensures d == "student" || difficulty == Some(d)
  {
    if difficulty.Some? && difficulty.value != "" then difficulty.value else "student"
  }

  /** The page compares with `===` only for multiple-choice and true/false
      questions; any other type leaves the answer marked wrong. */
  predicate IsCorrect(q: Question, answer: Answer)
  {
    (q.kind == MultipleChoice || q.kind == TrueFalse) && answer == q.correct
  }

  /** Points for one answer: nothing when wrong; otherwise the question's
      points, 5 more under ten seconds, `2 * newStreak` once the new streak
      reaches 3, and 3 more when the hint was not shown. */
  function AnswerPoints(q: Question, correct: bool, seconds: real, streak: nat, hintShown: bool): nat
  {
    if !correct then 0
    else
      var newStreak := streak + 1;
      q.points
      + (if seconds < 10.0 then 5 else 0)
      + (if newStreak >= 3 then 2 * newStreak else 0)
      + (if !hintShown then 3 else 0)
  }

  /** A correct answer earns at least the question's points and at most every
      bonus; a longer streak never earns less. */
  lemma AnswerPointsBounds(q: Question, seconds: real, streak: nat, hintShown: bool)
    ensures AnswerPoints(q, false, seconds, streak, hintShown) == 0
    ensures q.points <= AnswerPoints(q, true, seconds, streak, hintShown) <= q.points + 5 + 2 * (streak + 1) + 3
    ensures AnswerPoints(q, true, seconds, streak, hintShown) <= AnswerPoints(q, true, seconds, streak + 1, hintShown)
    ensures AnswerPoints(q, true, seconds, streak, true) + 3 == AnswerPoints(q, true, seconds, streak, false)
  {
  }

  function PointsEarned(a: AnswerRecord): int { a.pointsEarned }

  /** The run of correct answers at the end of the list: the streak. */
  function TrailingCorrect(s: seq<AnswerRecord>): (n: nat)
    ensures n <= |s|
  {
    if s == [] || !s[|s| - 1].correct then 0 else TrailingCorrect(s[..|s| - 1]) + 1
  }

  /** The longest run of correct answers anywhere in the list: the best streak. */
  function LongestRun(s: seq<AnswerRecord>): (n: nat)
  {
    if s == [] then 0 else Max(LongestRun(s[..|s| - 1]), TrailingCorrect(s))
  }

  /** One more answer: the points add up, a correct answer extends the
      current streak and may raise the best one, a wrong one resets the
      current streak and leaves the best one. */
  lemma TallyAppend(s: seq<AnswerRecord>, a: AnswerRecord)
    ensures SumBy(s + [a], PointsEarned) == SumBy(s, PointsEarned) + a.pointsEarned
    ensures TrailingCorrect(s + [a]) == if a.correct then TrailingCorrect(s) + 1 else 0
    ensures LongestRun(s + [a]) == if a.correct then Max(LongestRun(s), TrailingCorrect(s) + 1) else LongestRun(s)
  {
    SumByAppend(s, [a], PointsEarned);
    assert (s + [a])[..|s|] == s;
  }

  /** The best streak is at least the current streak, at most the number of
      correct answers, and a wrong answer resets the current streak to 0. */
  lemma {:induction false} LongestRunBounds(s: seq<AnswerRecord>)
    ensures TrailingCorrect(s) <= LongestRun(s) <= Count(s, (a: AnswerRecord) => a.correct)
  {
    if s != [] {
      var init := s[..|s| - 1];
      LongestRunBounds(init);
      TrailingAtMostCount(s);
      assert s == init + [s[|s| - 1]];
      CountAppend(init, s[|s| - 1]);
    }
  }

  lemma {:induction false} TrailingAtMostCount(s: seq<AnswerRecord>)
    ensures TrailingCorrect(s) <= Count(s, (a: AnswerRecord) => a.correct)
  {
    if s != [] {
      var init := s[..|s| - 1];
      TrailingAtMostCount(init);
      assert s == init + [s[|s| - 1]];
      CountAppend(init, s[|s| - 1]);
    }
  }

  lemma {:induction false} CountAppend(s: seq<AnswerRecord>, a: AnswerRecord)
    ensures Count(s + [a], (b: AnswerRecord) => b.correct)
            == Count(s, (b: AnswerRecord) => b.correct) + (if a.correct then 1 else 0)
  {
    if s != [] {
      CountAppend(s[1..], a);
      assert (s + [a])[1..] == s[1..] + [a];
    }
  }

  /** The record `handleQuizComplete` passes to the store, built from the
      values it reads: the mode, the score, the question list, the answers,
      the time left, the best streak and the hint count.  The average time
      per question and the completion timestamp's time of day are not kept. */
  function QuizResult(mode: string, score: nat, questions: seq<Question>, answers: seq<AnswerRecord>,
                      timeLeft: nat, maxStreak: nat, hintsUsed: nat, today: int): (r: QuizRecord)
    requires QuizModeOf(mode).Some? && timeLeft <= QuizModeOf(mode).value.timeLimit
    ensures r.mode == Some(mode) && r.score == score && r.totalQuestions == |questions|
    ensures r.correctAnswers == Count(answers, (a: AnswerRecord) => a.correct) <= |answers|
    ensures r.answers == answers
    ensures r.timeSpent == Some(QuizModeOf(mode).value.timeLimit - timeLeft)
  {
    QuizRecord(
      Some(mode), score, |questions|, Count(answers, (a: AnswerRecord) => a.correct),
      Some(QuizModeOf(mode).value.timeLimit - timeLeft), Some(maxStreak), Some(hintsUsed),
      answers, Some(today), None)
  }

  /** A quiz ended by its last answer is saved from the values before that
      answer: one answer short, so even a run of all correct answers is
      recorded with fewer correct answers than questions. */
  lemma CompletedByLastAnswerIsShort(mode: string, score: nat, questions: seq<Question>, answers: seq<AnswerRecord>,
                                     timeLeft: nat, maxStreak: nat, hintsUsed: nat, today: int)
    requires QuizModeOf(mode).Some? && timeLeft <= QuizModeOf(mode).value.timeLimit
    requires |answers| + 1 == |questions|
    ensures var r := QuizResult(mode, score, questions, answers, timeLeft, maxStreak, hintsUsed, today);
            r.correctAnswers < r.totalQuestions && |r.answers| + 1 == r.totalQuestions
  {
  }

  class QuizSession {
    var selectedMode: Option<string>
    var questions: seq<Question>
    var currentQuestion: nat
    var userAnswers: seq<AnswerRecord>
    var showResults: bool
    var timeLeft: nat
    var score: nat
    var streak: nat
    var maxStreak: nat
    var hintsUsed: nat
    var showHint: bool
    /** Every result handed to `updateUserProgress('quiz', ...)`, oldest first. */
    var saved: seq<QuizRecord>

    /** The score is the sum of the points recorded with the answers, the
        streak is the trailing run of correct answers and the best streak the
        longest run; while a quiz runs, the answers fill exactly the questions
        before the current one. */
    predicate Valid()
      reads this
    {
      Tally()
      && |userAnswers| <= |questions|
      && (selectedMode.None? ==> timeLeft == 0)
      && (selectedMode.Some? ==> QuizModeOf(selectedMode.value).Some?
                                 && timeLeft <= QuizModeOf(selectedMode.value).value.timeLimit)
      && (selectedMode.Some? && !showResults ==> currentQuestion == |userAnswers| < |questions|)
    }

    /** The counters agree with the recorded answers. */
    predicate Tally()
      reads this
    {
      score == SumBy(userAnswers, PointsEarned)
      && streak == TrailingCorrect(userAnswers)
      && maxStreak == LongestRun(userAnswers)
    }

    constructor()
      ensures Valid()
      ensures selectedMode == None && questions == [] && userAnswers == [] && saved == []
      ensures currentQuestion == 0 && timeLeft == 0 && score == 0 && streak == 0 && maxStreak == 0
      ensures hintsUsed == 0 && !showHint && !showResults
    {
      selectedMode := None;
      questions := [];
      currentQuestion := 0;
      userAnswers := [];
      showResults := false;
      timeLeft := 0;
      score := 0;
      streak := 0;
      maxStreak := 0;
      hintsUsed := 0;
      showHint := false;
      saved := [];
    }

    /** `startQuiz`: a fresh shuffle of the mode's bank at the player's level,
        the mode's full time, and every counter back to zero. */
    method StartQuiz(mode: string, difficulty: Option<string>, random: seq<real>)
      requires QuizModeOf(mode).Some?
      requires |random| >= 5 && IsRandom(random)
      modifies this
      ensures Valid()
      ensures selectedMode == Some(mode)
      ensures multiset(questions) == multiset(Bank(mode, EffectiveDifficulty(difficulty)))
      ensures timeLeft == QuizModeOf(mode).value.timeLimit
      ensures currentQuestion == 0 && userAnswers == [] && !showResults
      ensures score == 0 && streak == 0 && maxStreak == 0 && hintsUsed == 0 && !showHint
      ensures saved == old(saved)
    {
      var qs := GenerateQuizQuestions(mode, EffectiveDifficulty(difficulty), random);
      Begin(mode, qs);
    }

    /** The state `startQuiz` sets once the questions are dealt. */
    method Begin(mode: string, qs: seq<Question>)
      requires QuizModeOf(mode).Some? && |qs| > 0
      modifies this
      ensures Valid()
      ensures selectedMode == Some(mode) && questions == qs
      ensures timeLeft == QuizModeOf(mode).value.timeLimit
      ensures currentQuestion == 0 && userAnswers == [] && !showResults
      ensures score == 0 && streak == 0 && maxStreak == 0 && hintsUsed == 0 && !showHint
      ensures saved == old(saved)
    {
      var limit := QuizModeOf(mode).value.timeLimit;
      selectedMode := Some(mode);
      questions := qs;
      timeLeft := limit;
      currentQuestion := 0;
      userAnswers := [];
      showResults := false;
      score := 0;
      streak := 0;
      maxStreak := 0;
      hintsUsed := 0;
      showHint := false;
    }

    /** `useHint`: show the hint and count it. */
    method UseHint()
      modifies this`showHint, this`hintsUsed
      ensures showHint && hintsUsed == old(hintsUsed) + 1
    {
      showHint := true;
      hintsUsed := hintsUsed + 1;
    }

    /** `handleAnswer` for a multiple-choice or true/false answer given
        `seconds` after the question appeared.  The record goes to the
        current position, the score grows by exactly its points, and the
        streak and best streak follow the answer.  After the last question
        the quiz completes with the values read before this answer. */
    method HandleAnswer(answer: Answer, seconds: real, today: int)
      requires Valid()
      requires selectedMode.Some? && !showResults
      modifies this`score, this`streak, this`maxStreak, this`userAnswers, this`showHint,
               this`currentQuestion, this`showResults, this`saved
      ensures Valid()
      ensures var q := old(questions[currentQuestion]);
              var ok := IsCorrect(q, answer);
              var points := AnswerPoints(q, ok, seconds, old(streak), old(showHint));
              userAnswers == old(userAnswers)
                + [AnswerRecord(q.id, answer, ok, Some(seconds), Some(if old(showHint) then 1 else 0), points)]
              && score == old(score) + points
              && streak == (if ok then old(streak) + 1 else 0)
              && maxStreak == (if ok then Max(old(maxStreak), old(streak) + 1) else old(maxStreak))
      ensures !showHint
      ensures old(currentQuestion) < |questions| - 1 ==>
                currentQuestion == old(currentQuestion) + 1 && !showResults && saved == old(saved)
      ensures old(currentQuestion) == |questions| - 1 ==>
                currentQuestion == old(currentQuestion) && showResults
                && saved == old(saved) + [QuizResult(selectedMode.value, old(score), questions, old(userAnswers),
                                                     timeLeft, old(maxStreak), hintsUsed, today)]
    {
      var oldScore, before, oldMaxStreak := score, userAnswers, maxStreak;
      RecordAnswer(answer, seconds);
      if currentQuestion < |questions| - 1 {
        currentQuestion := currentQuestion + 1;
      } else {
        Complete(oldScore, before, oldMaxStreak, today);
      }
    }

    /** The scoring half of `handleAnswer`: the record for the current
        question, the points, the streaks, and the hint flag cleared. */
    method RecordAnswer(answer: Answer, seconds: real)
      requires Tally() && currentQuestion < |questions|
      modifies this`score, this`streak, this`maxStreak, this`userAnswers, this`showHint
      ensures Tally()
      ensures var q := questions[currentQuestion];
              var ok := IsCorrect(q, answer);
              var points := AnswerPoints(q, ok, seconds, old(streak), old(showHint));
              userAnswers == old(userAnswers)
                + [AnswerRecord(q.id, answer, ok, Some(seconds), Some(if old(showHint) then 1 else 0), points)]
              && score == old(score) + points
              && streak == (if ok then old(streak) + 1 else 0)
              && maxStreak == (if ok then Max(old(maxStreak), old(streak) + 1) else old(maxStreak))
      ensures !showHint
    {
      var q := questions[currentQuestion];
      var ok := IsCorrect(q, answer);
      var points := AnswerPoints(q, ok, seconds, streak, showHint);
      var record := AnswerRecord(q.id, answer, ok, Some(seconds), Some(if showHint then 1 else 0), points);
      var before := userAnswers;
      TallyAppend(before, record);
      if ok {
        streak := streak + 1;
        maxStreak := Max(maxStreak, streak);
      } else {
        streak := 0;
      }
      score := score + points;
      userAnswers := before + [record];
      showHint := false;
    }

    /** `handleQuizComplete` with the score, answers and best streak it reads. */
    method Complete(score: nat, answers: seq<AnswerRecord>, maxStreak: nat, today: int)
      requires selectedMode.Some? && QuizModeOf(selectedMode.value).Some?
      requires timeLeft <= QuizModeOf(selectedMode.value).value.timeLimit
      modifies this`showResults, this`saved
      ensures showResults
      ensures saved == old(saved) + [QuizResult(selectedMode.value, score, questions, answers,
                                                timeLeft, maxStreak, hintsUsed, today)]
    {
      showResults := true;
      saved := saved + [QuizResult(selectedMode.value, score, questions, answers, timeLeft, maxStreak, hintsUsed, today)];
    }

    /** One second of the countdown effect: the clock runs down while the
        quiz is open, and a quiz whose time reached 0 completes with the
        current state. */
    method Tick(today: int)
      requires Valid()
      modifies this`timeLeft, this`showResults, this`saved
      ensures Valid()
      ensures old(timeLeft) > 0 && !old(showResults) ==>
                timeLeft == old(timeLeft) - 1 && showResults == old(showResults) && saved == old(saved)
      ensures old(timeLeft) == 0 && selectedMode.Some? && !old(showResults) ==>
                showResults && timeLeft == 0
                && saved == old(saved) + [QuizResult(selectedMode.value, score, questions, userAnswers,
                                                     0, maxStreak, hintsUsed, today)]
      ensures old(showResults) || (old(timeLeft) == 0 && selectedMode.None?) ==>
                timeLeft == old(timeLeft) && showResults == old(showResults) && saved == old(saved)
    {
      if timeLeft > 0 && !showResults {
        timeLeft := timeLeft - 1;
      } else if timeLeft == 0 && selectedMode.Some? && !showResults {
        Complete(score, userAnswers, maxStreak, today);
      }
    }
  }
}
