/** The statistics panel over the user's quiz history: totals, the average
    score, the best streak, per-mode attempts and scores, the average of the
    last five quizzes, the performance trend and the duration format.  Ratios
    are exact reals rather than floating-point numbers. */
module QuizStats {
  import opened Common
  import opened AppStore

  /** `x || 0` for a count that may be missing. */
  function OrZero(x: Option<nat>): nat
  {
    if x.Some? then x.value else 0
  }

  function TimeOf(q: QuizRecord): int { OrZero(q.timeSpent) }
  function HintsOf(q: QuizRecord): int { OrZero(q.hintsUsed) }
  function StreakOf(q: QuizRecord): nat { OrZero(q.maxStreak) }

  /** `Math.max(...history.map(quiz => quiz.maxStreak || 0))`, taken from the
      last entry backwards; 0 for the empty list. */
  function BestStreak(history: seq<QuizRecord>): (m: nat)
    ensures forall i :: 0 <= i < |history| ==> StreakOf(history[i]) <= m
    ensures |history| > 0 ==> exists i :: 0 <= i < |history| && StreakOf(history[i]) == m
  {
    if history == [] then 0
    else
      var init := history[..|history| - 1];
      var m := Max(BestStreak(init), StreakOf(history[|history| - 1]));
      assert forall i :: 0 <= i < |init| ==> init[i] == history[i];
      m
  }

  // ---------------------------------------------------------------------
  // Per-mode statistics
  // ---------------------------------------------------------------------

  /** The object key `modeStats[quiz.mode]` uses: a missing mode (a scene-quiz
      result) becomes the key "undefined". */
  function ModeKey(q: QuizRecord): string
  {
    if q.mode.Some? then q.mode.value else "undefined"
  }

  /** The quizzes of one mode, in history order. */
  function ModeHistory(history: seq<QuizRecord>, m: string): (r: seq<QuizRecord>)
    ensures |r| <= |history|
  {
    if history == [] then []
    else
      var last := history[|history| - 1];
      ModeHistory(history[..|history| - 1], m) + (if ModeKey(last) == m then [last] else [])
  }

  /** The highest score in a list, starting from 0. */
  function BestScore(s: seq<QuizRecord>): (m: nat)
    ensures forall i :: 0 <= i < |s| ==> s[i].score <= m
    ensures m == 0 || exists i :: 0 <= i < |s| && s[i].score == m
  {
    if s == [] then 0
    else
      var init := s[..|s| - 1];
      assert forall i :: 0 <= i < |init| ==> init[i] == s[i];
      Max(BestScore(init), s[|s| - 1].score)
  }

  datatype ModeStat = ModeStat(attempts: nat, totalScore: int, bestScore: nat)

  /** One pass of the loop body for the entry of mode `m`. */
  function StatAfter(stat: ModeStat, m: string, quiz: QuizRecord): ModeStat
  {
    if ModeKey(quiz) == m
    then ModeStat(stat.attempts + 1, stat.totalScore + quiz.score, Max(stat.bestScore, quiz.score))
    else stat
  }

  /** What `modeStats[m]` holds after the loop has passed over `history`
      (all zeros for a mode that never occurs). */
  function StatOf(history: seq<QuizRecord>, m: string): ModeStat
  {
    if history == [] then ModeStat(0, 0, 0)
    else StatAfter(StatOf(history[..|history| - 1], m), m, history[|history| - 1])
  }

  lemma StatOfAppend(history: seq<QuizRecord>, quiz: QuizRecord, m: string)
    ensures StatOf(history + [quiz], m) == StatAfter(StatOf(history, m), m, quiz)
  {
    assert (history + [quiz])[..|history|] == history;
  }

  /** The entry of a mode counts that mode's quizzes, sums their scores and
      holds the best of them. */
  lemma {:induction false} StatOfMeaning(history: seq<QuizRecord>, m: string)
    ensures var h := ModeHistory(history, m);
            StatOf(history, m) == ModeStat(|h|, SumBy(h, Score), BestScore(h))
  {
    if history != [] {
      var init := history[..|history| - 1];
      var quiz := history[|history| - 1];
      StatOfMeaning(init, m);
      var h := ModeHistory(init, m);
      if ModeKey(quiz) == m {
        SumByAppend(h, [quiz], Score);
        assert SumBy([quiz], Score) == quiz.score by {
          assert [quiz][1..] == [];
        }
        assert (h + [quiz])[..|h|] == h;
      } else {
        assert h + [] == h;
      }
    }
  }

  /** The map after one pass of the loop body over `quiz`. */
  function NextStats(stats: map<string, ModeStat>, quiz: QuizRecord): map<string, ModeStat>
  {
    var key := ModeKey(quiz);
    var entry := if key in stats then stats[key] else ModeStat(0, 0, 0);
    stats[key := StatAfter(entry, key, quiz)]
  }

  /** Statistics of mode `m` over `prefix`, for every mode: stored when the
      mode has been seen, all zeros otherwise. */
  ghost predicate StatsOf(stats: map<string, ModeStat>, prefix: seq<QuizRecord>)
  {
    (forall m :: m in stats ==> stats[m] == StatOf(prefix, m) && stats[m].attempts > 0)
    && (forall m :: m !in stats ==> StatOf(prefix, m) == ModeStat(0, 0, 0))
  }

  /** The map after one pass holds the statistics of one more quiz. */
  lemma StatsStep(stats: map<string, ModeStat>, prefix: seq<QuizRecord>, quiz: QuizRecord)
    requires StatsOf(stats, prefix)
    ensures StatsOf(NextStats(stats, quiz), prefix + [quiz])
    ensures NextStats(stats, quiz).Keys == stats.Keys + {ModeKey(quiz)}
  {
    var key := ModeKey(quiz);
    var next := NextStats(stats, quiz);
    forall m | m in next ensures next[m] == StatOf(prefix + [quiz], m) && next[m].attempts > 0 {
      StatOfAppend(prefix, quiz, m);
      if m != key {
        assert next[m] == stats[m];
      }
    }
    forall m | m !in next ensures StatOf(prefix + [quiz], m) == ModeStat(0, 0, 0) {
      StatOfAppend(prefix, quiz, m);
    }
  }

  predicate Distinct(keys: seq<string>)
  {
    forall i, j :: 0 <= i < j < |keys| ==> keys[i] != keys[j]
  }

  /** The map the loop has built after the quizzes of `prefix`. */
  function StatsMap(prefix: seq<QuizRecord>): map<string, ModeStat>
  {
    if prefix == [] then map[]
    else NextStats(StatsMap(prefix[..|prefix| - 1]), prefix[|prefix| - 1])
  }

  /** The built map holds every mode's statistics, and has a key exactly
      for the modes of the quizzes seen. */
  lemma {:induction false} StatsMapOf(prefix: seq<QuizRecord>)
    ensures StatsOf(StatsMap(prefix), prefix)
    ensures forall i :: 0 <= i < |prefix| ==> ModeKey(prefix[i]) in StatsMap(prefix)
  {
    if prefix != [] {
      var init := prefix[..|prefix| - 1];
      var last := prefix[|prefix| - 1];
      StatsMapOf(init);
      StatsStep(StatsMap(init), init, last);
      assert prefix == init + [last];
      forall i | 0 <= i < |prefix| ensures ModeKey(prefix[i]) in StatsMap(prefix) {
        if i < |init| {
          assert prefix[i] == init[i];
        }
      }
    }
  }

  /** The `modeStats` loop: one entry per mode key, created at the key's first
      quiz, counting that mode's attempts, summing its scores and keeping its
      best score.  `order` lists the keys in the order they were created. */
  method ComputeModeStats(history: seq<QuizRecord>) returns (stats: map<string, ModeStat>, order: seq<string>)
    ensures Distinct(order)
    ensures forall m :: m in stats <==> m in order
    ensures forall i :: 0 <= i < |history| ==> ModeKey(history[i]) in stats
    ensures forall m :: m in stats ==> stats[m] == StatOf(history, m) && stats[m].attempts > 0
  {
    stats := map[];
    order := [];
    var n := 0;
    while n < |history|
      invariant n <= |history|
      invariant Distinct(order)
      invariant forall m :: m in stats <==> m in order
      invariant stats == StatsMap(history[..n])
    {
      var quiz := history[n];
      var key := ModeKey(quiz);
      var entry := if key in stats then stats[key] else ModeStat(0, 0, 0);
      ghost var next := NextStats(stats, quiz);
      assert StatsMap(history[..n + 1]) == next by {
        assert history[..n + 1][..n] == history[..n];
      }
      assert StatAfter(entry, key, quiz) == ModeStat(entry.attempts + 1, entry.totalScore + quiz.score, Max(entry.bestScore, quiz.score));
      if key !in stats {
        order := order + [key];
      }
      stats := stats[key := ModeStat(entry.attempts + 1, entry.totalScore + quiz.score, Max(entry.bestScore, quiz.score))];
      n := n + 1;
    }
    assert history[..n] == history;
    StatsMapOf(history);
  }

  /** The attempts of the listed modes, added up. */
  function AttemptsOver(keys: seq<string>, history: seq<QuizRecord>): nat
  {
    if keys == [] then 0 else |ModeHistory(history, keys[0])| + AttemptsOver(keys[1..], history)
  }

  lemma {:induction false} AttemptsOverAppend(keys: seq<string>, history: seq<QuizRecord>, q: QuizRecord)
    requires Distinct(keys)
    ensures AttemptsOver(keys, history + [q])
            == AttemptsOver(keys, history) + (if ModeKey(q) in keys then 1 else 0)
  {
    assert (history + [q])[..|history|] == history;
    if keys != [] {
      assert Distinct(keys[1..]) by {
        forall i, j | 0 <= i < j < |keys[1..]| ensures keys[1..][i] != keys[1..][j] {
          assert keys[1..][i] == keys[i + 1] && keys[1..][j] == keys[j + 1];
        }
      }
      AttemptsOverAppend(keys[1..], history, q);
      if ModeKey(q) == keys[0] {
        assert ModeKey(q) !in keys[1..] by {
          forall k | 0 <= k < |keys[1..]| ensures keys[1..][k] != keys[0] {
            assert keys[1..][k] == keys[k + 1];
          }
        }
      }
    }
  }

  /** Per-mode attempts add up to the number of quizzes, whenever the keys are
      distinct and cover every quiz (as `ComputeModeStats` guarantees). */
  lemma {:induction false} AttemptsSumToQuizzes(keys: seq<string>, history: seq<QuizRecord>)
    requires Distinct(keys)
    requires forall i :: 0 <= i < |history| ==> ModeKey(history[i]) in keys
    ensures AttemptsOver(keys, history) == |history|
  {
    if history == [] {
      EmptyAttempts(keys);
    } else {
      var init := history[..|history| - 1];
      assert history == init + [history[|history| - 1]];
      AttemptsSumToQuizzes(keys, init);
      AttemptsOverAppend(keys, init, history[|history| - 1]);
    }
  }

  lemma {:induction false} EmptyAttempts(keys: seq<string>)
    ensures AttemptsOver(keys, []) == 0
  {
    if keys != [] {
      EmptyAttempts(keys[1..]);
    }
  }

  // ---------------------------------------------------------------------
  // Recent average and trend
  // ---------------------------------------------------------------------

  /** `correctAnswers / (totalQuestions || 1)`. */
  function Ratio(q: QuizRecord): real
  {
    (q.correctAnswers as real) / (if q.totalQuestions == 0 then 1 else q.totalQuestions) as real
  }

  function MeanRatio(s: seq<QuizRecord>): real
    requires |s| > 0
  {
    RealSumBy(s, Ratio) / |s| as real
  }

  /** `recentAverage`: the mean ratio of the last five quizzes as a rounded
      percentage, 0 for an empty history. */
  function RecentAverage(history: seq<QuizRecord>): int
  {
    var recent := TakeLast(history, 5);
    if |recent| == 0 then 0 else JsRound(MeanRatio(recent) * 100.0)
  }

  predicate Plausible(q: QuizRecord)
  {
    q.correctAnswers <= q.totalQuestions
  }

  lemma {:induction false} RatioSumBounds(s: seq<QuizRecord>)
    requires forall i :: 0 <= i < |s| ==> Plausible(s[i])
    ensures 0.0 <= RealSumBy(s, Ratio) <= |s| as real
  {
    if s != [] {
      RatioSumBounds(s[1..]);
      var q := s[0];
      var d := (if q.totalQuestions == 0 then 1 else q.totalQuestions) as real;
      assert Ratio(q) <= 1.0 by {
        assert q.correctAnswers as real <= d;
      }
    }
  }

  /** With plausible records the recent average is a percentage. */
  lemma RecentAverageIsPercentage(history: seq<QuizRecord>)
    requires forall i :: 0 <= i < |history| ==> Plausible(history[i])
    ensures 0 <= RecentAverage(history) <= 100
  {
    var recent := TakeLast(history, 5);
    if |recent| > 0 {
      assert forall i :: 0 <= i < |recent| ==> recent[i] == history[|history| - |recent| + i];
      RatioSumBounds(recent);
      MeanBounds(RealSumBy(recent, Ratio), |recent| as real);
      RoundUnitPercent(MeanRatio(recent));
    }
  }

  lemma MeanBounds(total: real, n: real)
    requires 0.0 < n && 0.0 <= total <= n
    ensures 0.0 <= total / n <= 1.0
  {
  }

  lemma RoundUnitPercent(m: real)
    requires 0.0 <= m <= 1.0
    ensures 0 <= JsRound(m * 100.0) <= 100
  {
  }

  datatype Trend = Neutral | Improving | Declining | Stable

  /** `getPerformanceTrend`: the last five quizzes split at half their count;
      the later half must beat the earlier half's mean ratio by more than 0.1
      to be improving, or fall short of it by more than 0.1 to be declining.
      Every producer records at least one question, which the precondition
      states for the quizzes the rule divides by. */
  function PerformanceTrend(history: seq<QuizRecord>): (t: Trend)
    requires |history| >= 2 ==> forall q :: q in TakeLast(history, 5) ==> q.totalQuestions > 0
    ensures t == Neutral <==> |history| < 2
  {
    var recent := TakeLast(history, 5);
    if |recent| < 2 then Neutral
    else
      var half := |recent| / 2;
      var first := MeanRatio(recent[..half]);
      var second := MeanRatio(recent[half..]);
      if second > first + 0.1 then Improving
      else if second < first - 0.1 then Declining
      else Stable
  }

  lemma {:induction false} RatioSumConstant(s: seq<QuizRecord>, r: real)
    requires forall i :: 0 <= i < |s| ==> Ratio(s[i]) == r
    ensures RealSumBy(s, Ratio) == |s| as real * r
  {
    if s != [] {
      RatioSumConstant(s[1..], r);
    }
  }

  /** A player whose recent quizzes all scored the same ratio is stable. */
  lemma SteadyPlayerIsStable(history: seq<QuizRecord>, r: real)
    requires |history| >= 2
    requires forall i :: 0 <= i < |history| ==> history[i].totalQuestions > 0 && Ratio(history[i]) == r
    ensures PerformanceTrend(history) == Stable
  {
    var recent := TakeLast(history, 5);
    var k := |history| - |recent|;
    assert forall i :: 0 <= i < |recent| ==> recent[i] == history[k + i];
    var half := |recent| / 2;
    MeanOfConstant(recent[..half], r);
    MeanOfConstant(recent[half..], r);
  }

  lemma MeanOfConstant(s: seq<QuizRecord>, r: real)
    requires |s| > 0
    requires forall i :: 0 <= i < |s| ==> Ratio(s[i]) == r
    ensures MeanRatio(s) == r
  {
    RatioSumConstant(s, r);
    DivCancel(|s| as real, r);
  }

  lemma DivCancel(n: real, r: real)
    requires n > 0.0
    ensures (n * r) / n == r
  {
  }

  /** With two quizzes the trend compares the second ratio with the first. */
  lemma TwoQuizTrend(a: QuizRecord, b: QuizRecord)
    requires a.totalQuestions > 0 && b.totalQuestions > 0
    ensures PerformanceTrend([a, b]) == Improving <==> Ratio(b) > Ratio(a) + 0.1
    ensures PerformanceTrend([a, b]) == Declining <==> Ratio(b) < Ratio(a) - 0.1
  {
    var recent := TakeLast([a, b], 5);
    assert recent == [a, b];
    assert recent[..1] == [a] && recent[1..] == [b];
    assert RealSumBy([a], Ratio) == Ratio(a) by {
      assert [a][1..] == [];
    }
    assert RealSumBy([b], Ratio) == Ratio(b) by {
      assert [b][1..] == [];
    }
  }

  // ---------------------------------------------------------------------
  // The panel
  // ---------------------------------------------------------------------

  datatype Summary = Summary(
    totalQuizzes: nat,
    totalQuestions: nat,
    totalCorrect: nat,
    totalPoints: int,
    totalTime: int,
    averageScore: nat,
    bestStreak: nat,
    totalHints: int,
    modeStats: map<string, ModeStat>,
    modeOrder: seq<string>,
    recentAverage: int)

  /** `calculateStats`.  The panel itself shows a placeholder for an empty
      history; the function's own empty case gives all zeros. */
  method CalculateStats(history: seq<QuizRecord>) returns (s: Summary)
    ensures history == [] ==> s == Summary(0, 0, 0, 0, 0, 0, 0, 0, map[], [], 0)
    ensures history != [] ==>
      && s.totalQuizzes == |history|
      && s.totalQuestions == SumBy(history, Questions)
      && s.totalCorrect == SumBy(history, Correct)
      && s.totalPoints == SumBy(history, Score)
      && s.totalTime == SumBy(history, TimeOf)
      && s.totalHints == SumBy(history, HintsOf)
      && s.averageScore == (if s.totalQuestions > 0 then RoundPercent(s.totalCorrect, s.totalQuestions) else 0)
      && s.bestStreak == BestStreak(history)
      && s.recentAverage == RecentAverage(history)
      && (forall m :: m in s.modeStats <==> m in s.modeOrder)
      && (forall m :: m in s.modeStats ==> s.modeStats[m] == StatOf(history, m))
      && AttemptsOver(s.modeOrder, history) == |history|
  {
    if history == [] {
      return Summary(0, 0, 0, 0, 0, 0, 0, 0, map[], [], 0);
    }
    SumByNonNegative(history, Questions);
    SumByNonNegative(history, Correct);
    var totalQuestions: nat := SumBy(history, Questions);
    var totalCorrect: nat := SumBy(history, Correct);
    var averageScore := if totalQuestions > 0 then RoundPercent(totalCorrect, totalQuestions) else 0;
    var modeStats, order := ComputeModeStats(history);
    AttemptsSumToQuizzes(order, history);
    s := Summary(|history|, totalQuestions, totalCorrect, SumBy(history, Score), SumBy(history, TimeOf),
                 averageScore, BestStreak(history), SumBy(history, HintsOf), modeStats, order,
                 RecentAverage(history));
  }

  /** With plausible records the average score is a percentage. */
  lemma AverageScoreIsPercentage(history: seq<QuizRecord>)
    requires forall i :: 0 <= i < |history| ==> Plausible(history[i])
    ensures var q := SumBy(history, Questions);
            q > 0 ==> SumBy(history, Correct) >= 0 && RoundPercent(SumBy(history, Correct), q) <= 100
  {
    SumCorrectAtMostQuestions(history);
    var q := SumBy(history, Questions);
    if q > 0 {
      RoundPercentAtMost100(SumBy(history, Correct), q);
    }
  }

  /** `formatTime`: whole hours and minutes, "Hh Mm" from one hour up and "Mm"
      below. */
  function FormatDuration(seconds: nat): (r: string)
  {
    var hours := seconds / 3600;
    var minutes := (seconds % 3600) / 60;
    if hours > 0 then NatToString(hours) + "h " + NatToString(minutes) + "m"
    else NatToString(minutes) + "m"
  }

  /** The text always ends in "m"; it has an hour part exactly from 3600
      seconds up; and the numbers read back give the seconds rounded down to a
      whole minute. */
  lemma FormatDurationReadsBack(seconds: nat)
    ensures var r := FormatDuration(seconds);
            |r| >= 2 && r[|r| - 1] == 'm'
            && (seconds >= 3600 <==> 'h' in r)
    ensures seconds < 3600 ==>
              60 * ParseDigits(FormatDuration(seconds)[..|FormatDuration(seconds)| - 1]) == seconds - seconds % 60
    ensures seconds >= 3600 ==>
              var h := NatToString(seconds / 3600);
              var r := FormatDuration(seconds);
              r[..|h|] == h && r[|h|..|h| + 2] == "h "
              && 3600 * ParseDigits(h) + 60 * ParseDigits(r[|h| + 2..|r| - 1]) == seconds - seconds % 60
  {
    var hours := seconds / 3600;
    var minutes := (seconds % 3600) / 60;
    var m := NatToString(minutes);
    ParseNatToString(minutes);
    WholeMinutes(seconds);
    if hours > 0 {
      var h := NatToString(hours);
      ParseNatToString(hours);
      assert FormatDuration(seconds) == h + "h " + m + "m";
      HourFormParts(h, m);
    } else {
      assert FormatDuration(seconds) == m + "m";
      MinuteFormParts(m);
    }
  }

  /** Whole hours and the whole minutes left over make up the seconds
      rounded down to a minute. */
  lemma WholeMinutes(seconds: nat)
    ensures 3600 * (seconds / 3600) + 60 * ((seconds % 3600) / 60) == seconds - seconds % 60
    ensures seconds / 3600 == 0 ==> 60 * ((seconds % 3600) / 60) == seconds - seconds % 60
  {
    var h, rest := seconds / 3600, seconds % 3600;
    assert seconds == 3600 * h + rest;
    var m, sec := rest / 60, rest % 60;
    assert rest == 60 * m + sec;
    assert seconds == 60 * (60 * h + m) + sec;
  }

  /** The parts of "<h>h <m>m" sit where they were put. */
  lemma HourFormParts(h: string, m: string)
    requires forall i :: 0 <= i < |h| ==> IsDigit(h[i])
    requires forall i :: 0 <= i < |m| ==> IsDigit(m[i])
    ensures var r := h + "h " + m + "m";
            && |r| >= 2 && r[|r| - 1] == 'm' && 'h' in r
            && r[..|h|] == h && r[|h|..|h| + 2] == "h " && r[|h| + 2..|r| - 1] == m
  {
    var r := h + "h " + m + "m";
    assert r[|h|] == 'h';
    assert r[..|h|] == h;
    assert r[|h|..|h| + 2] == "h ";
    assert r[|h| + 2..|r| - 1] == m;
  }

  /** "<m>m" ends in "m", holds no "h", and has the minutes before the "m". */
  lemma MinuteFormParts(m: string)
    requires forall i :: 0 <= i < |m| ==> IsDigit(m[i])
    ensures var r := m + "m";
            && |r| >= 1 && r[|r| - 1] == 'm' && 'h' !in r && r[..|r| - 1] == m
  {
    var r := m + "m";
    assert r[..|r| - 1] == m;
    assert forall i :: 0 <= i < |r| ==> r[i] != 'h' by {
      forall i | 0 <= i < |r| ensures r[i] != 'h' {
        if i < |m| {
          assert r[i] == m[i];
        }
      }
    }
  }
}
