/** The feedback panel shown after a quiz: the level of the result, an
    encouraging message drawn from that level's list, the weak topics, the
    study recommendations and the achievements.  `Math.random` is the index
    parameter of the message choice. */
module PersonalizedFeedback {
  import opened Common
  import opened AppStore
  import opened QuizQuestions

  datatype Level = Excellent | Good | Average | NeedsImprovement

  /** `getFeedbackLevel`: thresholds 90, 80 and 60. */
  function FeedbackLevel(percentage: int): Level
  {
    if percentage >= 90 then Excellent
    else if percentage >= 80 then Good
    else if percentage >= 60 then Average
    else NeedsImprovement
  }

  function LevelRank(l: Level): nat
  {
    match l
    case NeedsImprovement => 0
    case Average => 1
    case Good => 2
    case Excellent => 3
  }

  /** A higher percentage never gives a lower level, and each level is
      reached exactly from its threshold. */
  lemma FeedbackLevelMonotone(p: int, q: int)
    requires p <= q
    ensures LevelRank(FeedbackLevel(p)) <= LevelRank(FeedbackLevel(q))
    ensures FeedbackLevel(p) == Excellent <==> p >= 90
    ensures FeedbackLevel(p) == NeedsImprovement <==> p < 60
  {
  }

  /** `Math.round(correctAnswers / totalQuestions * 100)`; the page always
      hands over a quiz with questions. */
  function Percentage(result: QuizRecord): nat
    requires result.totalQuestions > 0
  {
    RoundPercent(result.correctAnswers, result.totalQuestions)
  }

  function Messages(level: Level): (m: seq<string>)
    ensures |m| == 3
  {
    match level
    case Excellent => [
      "Outstanding work! You've mastered these concepts beautifully.",
      "Incredible performance! Your understanding of space physics is impressive.",
      "Perfect! You're ready for more advanced challenges."]
    case Good => [
      "Great job! You have a solid grasp of the fundamentals.",
      "Well done! A few more practice sessions and you'll be an expert.",
      "Nice work! Your space knowledge is really developing."]
    case Average => [
      "Good effort! Let's focus on strengthening a few key areas.",
      "You're on the right track! Some review will boost your confidence.",
      "Solid foundation! Time to dive deeper into the concepts."]
    case NeedsImprovement => [
      "Keep going! Every expert started where you are now.",
      "Don't worry! These concepts take time to master.",
      "Great start! Let's build up your space knowledge step by step."]
  }

  /** `getPersonalizedMessage` with `pick = Math.floor(Math.random() * 3)`. */
  function PersonalizedMessage(result: QuizRecord, pick: nat): (m: string)
    requires result.totalQuestions > 0
    requires pick < 3
    ensures m in Messages(FeedbackLevel(Percentage(result)))
  {
    Messages(FeedbackLevel(Percentage(result)))[pick]
  }

  // ---------------------------------------------------------------------
  // Weak areas
  // ---------------------------------------------------------------------

  /** `id.split('_')[0]`: the identifier up to its first underscore. */
  function Topic(id: string): (t: string)
    ensures '_' !in t
    ensures |t| <= |id| && t == id[..|t|]
    ensures |t| < |id| ==> id[|t|] == '_'
    ensures '_' !in id ==> t == id
  {
    if id == [] then []
    else if id[0] == '_' then []
    else [id[0]] + Topic(id[1..])
  }

  datatype Tally = Tally(correct: nat, total: nat)

  function TopicOf(a: AnswerRecord): string { Topic(a.questionId) }

  /** One pass of the `forEach` body for the entry of topic `t`. */
  function TallyAfter(tally: Tally, t: string, a: AnswerRecord): Tally
  {
    if TopicOf(a) == t then Tally(tally.correct + (if a.correct then 1 else 0), tally.total + 1) else tally
  }

  /** `topicPerformance[t]` after the loop has passed over `answers`. */
  function TallyOf(answers: seq<AnswerRecord>, t: string): (r: Tally)
    ensures r.correct <= r.total
  {
    if answers == [] then Tally(0, 0)
    else TallyAfter(TallyOf(answers[..|answers| - 1], t), t, answers[|answers| - 1])
  }

  /** The topics in the order the loop creates their entries. */
  function Topics(answers: seq<AnswerRecord>): seq<string>
  {
    if answers == [] then []
    else
      var init := Topics(answers[..|answers| - 1]);
      var t := TopicOf(answers[|answers| - 1]);
      if t in init then init else init + [t]
  }

  lemma {:induction false} TopicsMeaning(answers: seq<AnswerRecord>)
    ensures forall t :: t in Topics(answers) <==> TallyOf(answers, t).total > 0
    ensures forall i, j :: 0 <= i < j < |Topics(answers)| ==> Topics(answers)[i] != Topics(answers)[j]
  {
    if answers != [] {
      TopicsMeaning(answers[..|answers| - 1]);
    }
  }

  /** `stats.correct / stats.total < 0.7`, for a topic that was seen. */
  predicate IsWeak(tally: Tally)
  {
    10 * tally.correct < 7 * tally.total
  }

  /** The `forEach` body: bump the entry of the answer's topic, creating it
      with zeros the first time. */
  function NextTallies(performance: map<string, Tally>, a: AnswerRecord): map<string, Tally>
  {
    var topic := TopicOf(a);
    var entry := if topic in performance then performance[topic] else Tally(0, 0);
    performance[topic := Tally(entry.correct + (if a.correct then 1 else 0), entry.total + 1)]
  }

  /** `performance` and its key order are those of the loop after `prefix`. */
  ghost predicate TalliesOf(performance: map<string, Tally>, order: seq<string>, prefix: seq<AnswerRecord>)
  {
    && order == Topics(prefix)
    && (forall t :: t in performance <==> t in order)
    && (forall t :: t in performance ==> performance[t] == TallyOf(prefix, t))
  }

  lemma TalliesStep(performance: map<string, Tally>, order: seq<string>, prefix: seq<AnswerRecord>, a: AnswerRecord)
    requires TalliesOf(performance, order, prefix)
    ensures TalliesOf(NextTallies(performance, a),
                      if TopicOf(a) in performance then order else order + [TopicOf(a)],
                      prefix + [a])
  {
    var next := prefix + [a];
    assert next[..|next| - 1] == prefix;
    TopicsMeaning(prefix);
    var np := NextTallies(performance, a);
    forall t | t in np ensures np[t] == TallyOf(next, t) {
      if t != TopicOf(a) {
        assert np[t] == performance[t];
      }
    }
  }

  /** The `forEach` that fills `topicPerformance`; `order` is the insertion
      order of its keys. */
  method TallyTopics(answers: seq<AnswerRecord>) returns (performance: map<string, Tally>, order: seq<string>)
    ensures order == Topics(answers)
    ensures forall t :: t in performance <==> t in order
    ensures forall t :: t in performance ==> performance[t] == TallyOf(answers, t)
  {
    performance := map[];
    order := [];
    var n := 0;
    while n < |answers|
      invariant n <= |answers|
      invariant TalliesOf(performance, order, answers[..n])
    {
      var a := answers[n];
      var nextOrder := if TopicOf(a) in performance then order else order + [TopicOf(a)];
      TakeNext(answers, n);
      TalliesStep(performance, order, answers[..n], a);
      order := nextOrder;
      performance := NextTallies(performance, a);
      n := n + 1;
    }
    assert answers[..n] == answers;
    assert TalliesOf(performance, order, answers);
  }

  /** The topics below 70%, in order of first appearance. */
  function WeakAreas(answers: seq<AnswerRecord>): seq<string>
  {
    Filter(Topics(answers), WeakTest(answers))
  }

  function WeakTest(answers: seq<AnswerRecord>): string -> bool
  {
    t => IsWeak(TallyOf(answers, t))
  }

  /** A topic is weak exactly when it was answered and fewer than 70% of its
      answers were right; each weak topic is listed once. */
  lemma WeakAreasMeaning(answers: seq<AnswerRecord>)
    ensures forall t :: t in WeakAreas(answers) <==> TallyOf(answers, t).total > 0 && 10 * TallyOf(answers, t).correct < 7 * TallyOf(answers, t).total
    ensures |WeakAreas(answers)| <= |answers|
  {
    TopicsMeaning(answers);
    TopicsLength(answers);
  }

  lemma {:induction false} TopicsLength(answers: seq<AnswerRecord>)
    ensures |Topics(answers)| <= |answers|
  {
    if answers != [] {
      TopicsLength(answers[..|answers| - 1]);
    }
  }

  /** `getWeakAreas`. */
  method GetWeakAreas(answers: seq<AnswerRecord>) returns (weak: seq<string>)
    ensures weak == WeakAreas(answers)
  {
    var performance, order := TallyTopics(answers);
    ghost var p := WeakTest(answers);
    weak := [];
    var k := 0;
    while k < |order|
      invariant k <= |order|
      invariant weak == Filter(order[..k], p)
    {
      var t := order[k];
      FilterPrefixStep(order, k, p);
      assert performance[t] == TallyOf(answers, t);
      if IsWeak(performance[t]) {
        weak := weak + [t];
      }
      k := k + 1;
    }
    assert order[..k] == order;
  }

  // ---------------------------------------------------------------------
  // Recommendations and achievements
  // ---------------------------------------------------------------------

  datatype Recommendation = ExploreGravity | LearnBlackHoles | PracticeOrbits | ReviewFundamentals

  function RecommendationRank(r: Recommendation): nat
  {
    match r
    case ExploreGravity => 0
    case LearnBlackHoles => 1
    case PracticeOrbits => 2
    case ReviewFundamentals => 3
  }

  /** `hintsUsed > totalQuestions / 2`; a missing hint count compares false. */
  predicate ManyHints(result: QuizRecord)
  {
    result.hintsUsed.Some? && 2 * result.hintsUsed.value > result.totalQuestions
  }

  /** When each recommendation is pushed. */
  predicate Fires(r: Recommendation, weak: seq<string>, result: QuizRecord)
  {
    match r
    case ExploreGravity => "gravity" in weak || "g" in weak
    case LearnBlackHoles => "compact" in weak || "c" in weak
    case PracticeOrbits => "orbits" in weak || "o" in weak
    case ReviewFundamentals => ManyHints(result)
  }

  /** `getRecommendations`, given the weak areas: the four checks in their
      fixed order, each pushing at most one entry. */
  method GetRecommendations(weak: seq<string>, result: QuizRecord) returns (recs: seq<Recommendation>)
    ensures forall r :: r in recs <==> Fires(r, weak, result)
    ensures forall i, j :: 0 <= i < j < |recs| ==> RecommendationRank(recs[i]) < RecommendationRank(recs[j])
  {
    recs := [];
    if "gravity" in weak || "g" in weak {
      recs := recs + [ExploreGravity];
    }
    if "compact" in weak || "c" in weak {
      recs := recs + [LearnBlackHoles];
    }
    if "orbits" in weak || "o" in weak {
      recs := recs + [PracticeOrbits];
    }
    if ManyHints(result) {
      recs := recs + [ReviewFundamentals];
    }
  }

  /** Identifiers like the bank's ("g1", "c4") have no underscore, so each
      identifier is its own topic; none of them is "gravity", "g", "compact",
      "c", "orbits" or "o", so the three topic recommendations never fire
      and only the fundamentals one can. */
  lemma BankIdsOnlyRecommendFundamentals(answers: seq<AnswerRecord>, result: QuizRecord)
    requires forall i :: 0 <= i < |answers| ==> '_' !in answers[i].questionId && |answers[i].questionId| == 2
    ensures !Fires(ExploreGravity, WeakAreas(answers), result)
    ensures !Fires(LearnBlackHoles, WeakAreas(answers), result)
    ensures !Fires(PracticeOrbits, WeakAreas(answers), result)
  {
    var weak := WeakAreas(answers);
    TopicsAreIds(answers);
    assert forall t :: t in weak ==> |t| == 2;
    assert |"gravity"| != 2 && |"g"| != 2 && |"compact"| != 2 && |"c"| != 2 && |"orbits"| != 2 && |"o"| != 2;
  }

  lemma {:induction false} TopicsAreIds(answers: seq<AnswerRecord>)
    requires forall i :: 0 <= i < |answers| ==> '_' !in answers[i].questionId && |answers[i].questionId| == 2
    ensures forall t :: t in Topics(answers) ==> |t| == 2
  {
    if answers != [] {
      TopicsAreIds(answers[..|answers| - 1]);
    }
  }

  /** Every bank question's identifier has that shape. */
  lemma BankIdsHaveNoUnderscore(mode: string, difficulty: string)
    ensures forall q :: q in Bank(mode, difficulty) ==> '_' !in q.id && |q.id| == 2
  {
    BankIds(mode, difficulty);
  }

  datatype Achievement = StreakMaster | IndependentThinker | SpeedDemon | PerfectScore

  /** Correct answers given in under ten seconds; an answer without a time
      does not count. */
  function SpeedBonuses(answers: seq<AnswerRecord>): nat
  {
    Count(answers, (a: AnswerRecord) => a.timeSpent.Some? && a.timeSpent.value < 10.0 && a.correct)
  }

  predicate Earned(x: Achievement, result: QuizRecord)
    requires result.totalQuestions > 0
  {
    match x
    case StreakMaster => result.maxStreak.Some? && result.maxStreak.value >= 5
    case IndependentThinker => result.hintsUsed == Some(0)
    case SpeedDemon => 2 * SpeedBonuses(result.answers) >= result.totalQuestions
    case PerfectScore => Percentage(result) == 100
  }

  /** `getAchievements`: the four checks in their fixed order. */
  method GetAchievements(result: QuizRecord) returns (achievements: seq<Achievement>)
    requires result.totalQuestions > 0
    ensures forall x :: x in achievements <==> Earned(x, result)
    ensures |achievements| <= 4
  {
    achievements := [];
    if result.maxStreak.Some? && result.maxStreak.value >= 5 {
      achievements := achievements + [StreakMaster];
    }
    if result.hintsUsed == Some(0) {
      achievements := achievements + [IndependentThinker];
    }
    var speedBonuses := SpeedBonuses(result.answers);
    if 2 * speedBonuses >= result.totalQuestions {
      achievements := achievements + [SpeedDemon];
    }
    if RoundPercent(result.correctAnswers, result.totalQuestions) == 100 {
      achievements := achievements + [PerfectScore];
    }
  }

  /** The rounded percentage reaches 100 exactly when at most half a percent
      is missing; below 200 questions that means every answer was right. */
  lemma PerfectScoreMeansAllCorrect(result: QuizRecord)
    requires 0 < result.totalQuestions < 200
    requires result.correctAnswers <= result.totalQuestions
    ensures Earned(PerfectScore, result) <==> result.correctAnswers == result.totalQuestions
  {
    RoundPercentIs100(result.correctAnswers, result.totalQuestions);
  }
}
