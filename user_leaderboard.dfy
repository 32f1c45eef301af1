/** The player's own attempts board: the history filtered by mode and
    ordered by score, and the personal records computed over that list.
    Rank icons are the global board's (`QuizLeaderboard.RankIcon`): the two
    components carry the same switch. */
module UserLeaderboard {
  import opened Common
  import opened AppStore
  import opened Sorting
  import opened QuizStats

  /** The mode filter: every attempt under "all", otherwise attempts whose
      mode equals the selected one (a missing mode never does). */
  predicate InMode(selectedMode: string, q: QuizRecord)
  {
    selectedMode == "all" || q.mode == Some(selectedMode)
  }

  function InModeTest(selectedMode: string): QuizRecord -> bool
  {
    q => InMode(selectedMode, q)
  }

  function ByScoreDescending(q: QuizRecord): real { -(q.score as real) }

  /** `filteredAttempts`: filter a copy of the history, then sort it by score
      descending.  Being a value, the stored history is not reordered. */
  function FilteredAttempts(history: seq<QuizRecord>, selectedMode: string): (shown: seq<QuizRecord>)
    ensures multiset(shown) == multiset(Filter(history, InModeTest(selectedMode)))
    ensures forall i, j :: 0 <= i < j < |shown| ==> shown[i].score >= shown[j].score
    ensures forall q :: q in shown <==> q in history && InMode(selectedMode, q)
  {
    var filtered := Filter(history, InModeTest(selectedMode));
    SortByMembers(filtered, ByScoreDescending);
    ScoresDescending(SortBy(filtered, ByScoreDescending));
    SortBy(filtered, ByScoreDescending)
  }

  /** Sorted on the negated score is sorted by score from high to low. */
  lemma ScoresDescending(shown: seq<QuizRecord>)
    requires SortedBy(shown, ByScoreDescending)
    ensures forall i, j :: 0 <= i < j < |shown| ==> shown[i].score >= shown[j].score
  {
    forall i, j | 0 <= i < j < |shown| ensures shown[i].score >= shown[j].score {
      assert ByScoreDescending(shown[i]) <= ByScoreDescending(shown[j]);
    }
  }

  /** "Total Attempts" is the number of attempts in the selected mode. */
  lemma TotalAttemptsCountsMode(history: seq<QuizRecord>, selectedMode: string)
    ensures |FilteredAttempts(history, selectedMode)| == Count(history, InModeTest(selectedMode))
  {
    var shown := FilteredAttempts(history, selectedMode);
    assert |shown| == |multiset(shown)|;
  }

  /** Under "all" the board lists the whole history. */
  lemma AllModesShowsEverything(history: seq<QuizRecord>)
    ensures multiset(FilteredAttempts(history, "all")) == multiset(history)
  {
    FilterAll(history, InModeTest("all"));
  }

  /** "Best Score", `Math.max(...scores)`, is the score of the first
      attempt shown and no filtered attempt scores higher. */
  lemma BestScoreIsFirstShown(history: seq<QuizRecord>, selectedMode: string)
    requires |FilteredAttempts(history, selectedMode)| > 0
    ensures var shown := FilteredAttempts(history, selectedMode);
            && BestScore(shown) == shown[0].score
            && forall q :: q in history && InMode(selectedMode, q) ==> q.score <= shown[0].score
  {
    var shown := FilteredAttempts(history, selectedMode);
    forall q | q in history && InMode(selectedMode, q) ensures q.score <= shown[0].score {
      var i :| 0 <= i < |shown| && shown[i] == q;
    }
  }

  /** "Best Streak", `Math.max(...maxStreak || 0)`, bounds every shown
      attempt's streak and is one of them. */
  lemma BestStreakOfShown(history: seq<QuizRecord>, selectedMode: string)
    requires |FilteredAttempts(history, selectedMode)| > 0
    ensures var shown := FilteredAttempts(history, selectedMode);
            && (forall q :: q in shown ==> StreakOf(q) <= BestStreak(shown))
            && exists q :: q in shown && StreakOf(q) == BestStreak(shown)
  {
    var shown := FilteredAttempts(history, selectedMode);
    var i :| 0 <= i < |shown| && StreakOf(shown[i]) == BestStreak(shown);
  }

  /** `Math.round(correctAnswers / totalQuestions * 100)`; `None` where that
      is NaN or Infinity (no questions). */
  function Accuracy(q: QuizRecord): Option<nat>
  {
    if q.totalQuestions > 0 then Some(RoundPercent(q.correctAnswers, q.totalQuestions)) else None
  }

  /** "Best Accuracy": the largest accuracy; `None` as soon as one attempt
      has none, as `Math.max` then yields a non-number. */
  function BestAccuracy(s: seq<QuizRecord>): (r: Option<nat>)
    ensures r.Some? <==> forall i :: 0 <= i < |s| ==> Accuracy(s[i]).Some?
    ensures r.Some? ==> forall i :: 0 <= i < |s| ==> Accuracy(s[i]).value <= r.value
    ensures r.Some? && s != [] ==> exists i :: 0 <= i < |s| && Accuracy(s[i]).Some? && Accuracy(s[i]).value == r.value
    ensures s == [] ==> r == Some(0)
  {
    if s == [] then Some(0)
    else
      var rest := BestAccuracy(s[1..]);
      var a := Accuracy(s[0]);
      assert forall i :: 1 <= i < |s| ==> s[i] == s[1..][i - 1];
      if a.Some? && rest.Some? then
        assert rest.value > a.value && s[1..] != [] ==>
          exists i :: 1 <= i < |s| && Accuracy(s[i]).Some? && Accuracy(s[i]).value == rest.value;
        Some(Max(a.value, rest.value))
      else None
  }

  /** For plausible attempts the best accuracy is a percentage. */
  lemma {:induction false} BestAccuracyAtMost100(s: seq<QuizRecord>)
    requires forall i :: 0 <= i < |s| ==> s[i].correctAnswers <= s[i].totalQuestions
    ensures BestAccuracy(s).Some? ==> BestAccuracy(s).value <= 100
  {
    if s != [] {
      BestAccuracyAtMost100(s[1..]);
      if s[0].totalQuestions > 0 {
        RoundPercentAtMost100(s[0].correctAnswers, s[0].totalQuestions);
      }
    }
  }
}
