/** The quiz dashboard: the tab chosen by the query string, today's
    performance and the recommended next quiz.  "Today" is the day number a
    quiz's `completedAt` falls on, passed in by the caller. */
module QuizDashboard {
  import opened Common
  import opened AppStore
  import opened QuizQuestions
  import opened QuizStats

  /** The `?tab=` effect: only "overview" and "rewards" replace the active
      tab; a missing or other value keeps it. */
  function TabAfterQuery(active: string, tab: Option<string>): (r: string)
    ensures tab.Some? && (tab.value == "overview" || tab.value == "rewards") ==> r == tab.value
    ensures !(tab.Some? && (tab.value == "overview" || tab.value == "rewards")) ==> r == active
  {
    if tab.Some? && (tab.value == "overview" || tab.value == "rewards") then tab.value else active
  }

  /** Starting from a real tab, no query string leads anywhere else. */
  lemma TabStaysKnown(active: string, tab: Option<string>)
    requires active == "overview" || active == "rewards"
    ensures TabAfterQuery(active, tab) == "overview" || TabAfterQuery(active, tab) == "rewards"
  {
  }

  // ---------------------------------------------------------------------
  // Today's performance
  // ---------------------------------------------------------------------

  /** `percentage` is `None` where the source divides by zero questions. */
  datatype DayPerformance = DayPerformance(percentage: Option<nat>, quizzesTaken: nat, totalScore: int)

  predicate OnDay(q: QuizRecord, today: int)
  {
    q.completedDay == Some(today)
  }

  /** `getTodayPerformance`: `None` for `null`. */
  function TodayPerformance(history: seq<QuizRecord>, today: int): (r: Option<DayPerformance>)
    ensures r.None? <==> forall i :: 0 <= i < |history| ==> !OnDay(history[i], today)
    ensures r.Some? ==> r.value.quizzesTaken == |Filter(history, q => OnDay(q, today))| > 0
  {
    var todays := Filter(history, q => OnDay(q, today));
    if todays == [] then
      assert forall i :: 0 <= i < |history| ==> !OnDay(history[i], today) by {
        forall i | 0 <= i < |history| ensures !OnDay(history[i], today) {
          assert history[i] in history;
        }
      }
      None
    else
      assert todays[0] in history;
      SumByNonNegative(todays, Correct);
      SumByNonNegative(todays, Questions);
      var correct := SumBy(todays, Correct);
      var questions := SumBy(todays, Questions);
      Some(DayPerformance(
        if questions > 0 then Some(RoundPercent(correct, questions)) else None,
        |todays|,
        SumBy(todays, Score)))
  }

  /** A quiz finished on another day changes nothing about today. */
  lemma OtherDaysIgnored(history: seq<QuizRecord>, q: QuizRecord, today: int)
    requires !OnDay(q, today)
    ensures TodayPerformance(history + [q], today) == TodayPerformance(history, today)
  {
    FilterAppend(history, [q], q => OnDay(q, today));
    assert Filter([q], q => OnDay(q, today)) == [];
    assert Filter(history, q => OnDay(q, today)) + [] == Filter(history, q => OnDay(q, today));
  }

  /** With plausible records the day's percentage is at most 100. */
  lemma TodayPercentageAtMost100(history: seq<QuizRecord>, today: int)
    requires forall i :: 0 <= i < |history| ==> history[i].correctAnswers <= history[i].totalQuestions
    ensures var r := TodayPerformance(history, today);
            r.Some? && r.value.percentage.Some? ==> r.value.percentage.value <= 100
  {
    var todays := Filter(history, q => OnDay(q, today));
    forall i | 0 <= i < |todays| ensures todays[i].correctAnswers <= todays[i].totalQuestions {
      assert todays[i] in history;
    }
    SumCorrectAtMostQuestions(todays);
    if SumBy(todays, Questions) > 0 {
      RoundPercentAtMost100(SumBy(todays, Correct), SumBy(todays, Questions));
    }
  }

  // ---------------------------------------------------------------------
  // Per-mode totals
  // ---------------------------------------------------------------------

  datatype Totals = Totals(correct: nat, total: nat)

  /** One pass of the `forEach` body for the entry of mode `m`. */
  function TotalsAfter(t: Totals, m: string, quiz: QuizRecord): Totals
  {
    if ModeKey(quiz) == m then Totals(t.correct + quiz.correctAnswers, t.total + quiz.totalQuestions) else t
  }

  /** `modePerformance[m]` after the loop has passed over `history`. */
  function TotalsOf(history: seq<QuizRecord>, m: string): Totals
  {
    if history == [] then Totals(0, 0)
    else TotalsAfter(TotalsOf(history[..|history| - 1], m), m, history[|history| - 1])
  }

  /** A mode's entry sums right answers and questions over that mode's
      quizzes. */
  lemma {:induction false} TotalsOfMeaning(history: seq<QuizRecord>, m: string)
    ensures var h := ModeHistory(history, m);
            TotalsOf(history, m).correct == SumBy(h, Correct) && TotalsOf(history, m).total == SumBy(h, Questions)
  {
    if history != [] {
      var init := history[..|history| - 1];
      var quiz := history[|history| - 1];
      TotalsOfMeaning(init, m);
      var h := ModeHistory(init, m);
      if ModeKey(quiz) == m {
        SumByAppend(h, [quiz], Correct);
        SumByAppend(h, [quiz], Questions);
        assert [quiz][1..] == [];
      } else {
        assert h + [] == h;
      }
    }
  }

  /** The keys of `modePerformance` in creation order. */
  function Modes(history: seq<QuizRecord>): seq<string>
  {
    if history == [] then []
    else
      var init := Modes(history[..|history| - 1]);
      var m := ModeKey(history[|history| - 1]);
      if m in init then init else init + [m]
  }

  lemma {:induction false} ModesMeaning(history: seq<QuizRecord>)
    ensures forall i :: 0 <= i < |history| ==> ModeKey(history[i]) in Modes(history)
    ensures forall m :: m in Modes(history) ==> exists i :: 0 <= i < |history| && ModeKey(history[i]) == m
    ensures Distinct(Modes(history))
  {
    if history != [] {
      var init := history[..|history| - 1];
      ModesMeaning(init);
      forall m | m in Modes(history) ensures exists i :: 0 <= i < |history| && ModeKey(history[i]) == m {
        if m in Modes(init) {
          var i :| 0 <= i < |init| && ModeKey(init[i]) == m;
          assert history[i] == init[i];
        } else {
          assert ModeKey(history[|history| - 1]) == m;
        }
      }
      forall i | 0 <= i < |history| ensures ModeKey(history[i]) in Modes(history) {
        if i < |init| {
          assert history[i] == init[i];
        }
      }
    }
  }

  function NextTotals(performance: map<string, Totals>, quiz: QuizRecord): map<string, Totals>
  {
    var key := ModeKey(quiz);
    var entry := if key in performance then performance[key] else Totals(0, 0);
    performance[key := TotalsAfter(entry, key, quiz)]
  }

  ghost predicate TotalsMap(performance: map<string, Totals>, order: seq<string>, prefix: seq<QuizRecord>)
  {
    && order == Modes(prefix)
    && (forall m :: m in performance <==> m in order)
    && (forall m :: m in performance ==> performance[m] == TotalsOf(prefix, m))
  }

  lemma TotalsStep(performance: map<string, Totals>, order: seq<string>, prefix: seq<QuizRecord>, quiz: QuizRecord)
    requires TotalsMap(performance, order, prefix)
    ensures TotalsMap(NextTotals(performance, quiz),
                      if ModeKey(quiz) in performance then order else order + [ModeKey(quiz)],
                      prefix + [quiz])
  {
    var next := prefix + [quiz];
    assert next[..|next| - 1] == prefix;
    var np := NextTotals(performance, quiz);
    forall m | m in np ensures np[m] == TotalsOf(next, m) {
      if m != ModeKey(quiz) {
        assert np[m] == performance[m];
      } else if m !in performance {
        TotalsUnseen(prefix, m);
      }
    }
  }

  /** A mode that has not been seen yet still has zero totals. */
  lemma {:induction false} TotalsUnseen(history: seq<QuizRecord>, m: string)
    requires m !in Modes(history)
    ensures TotalsOf(history, m) == Totals(0, 0)
  {
    if history != [] {
      TotalsUnseen(history[..|history| - 1], m);
    }
  }

  /** The `forEach` that fills `modePerformance`. */
  method TotalModes(history: seq<QuizRecord>) returns (performance: map<string, Totals>, order: seq<string>)
    ensures order == Modes(history)
    ensures forall m :: m in performance <==> m in order
    ensures forall m :: m in performance ==> performance[m] == TotalsOf(history, m)
  {
    performance := map[];
    order := [];
    var n := 0;
    while n < |history|
      invariant n <= |history|
      invariant TotalsMap(performance, order, history[..n])
    {
      var quiz := history[n];
      var key := ModeKey(quiz);
      ghost var next := NextTotals(performance, quiz);
      ghost var nextOrder := if key in performance then order else order + [key];
      TakeNext(history, n);
      TotalsStep(performance, order, history[..n], quiz);
      var entry := if key in performance then performance[key] else Totals(0, 0);
      assert TotalsAfter(entry, key, quiz) == Totals(entry.correct + quiz.correctAnswers, entry.total + quiz.totalQuestions);
      if key !in performance {
        order := order + [key];
      }
      performance := performance[key := Totals(entry.correct + quiz.correctAnswers, entry.total + quiz.totalQuestions)];
      assert performance == next && order == nextOrder;
      n := n + 1;
    }
    assert history[..n] == history;
  }

  // ---------------------------------------------------------------------
  // Recommended quiz
  // ---------------------------------------------------------------------

  /** `stats.correct / stats.total`; `None` where that is NaN or Infinity,
      which never compares below anything. */
  function RatioOf(t: Totals): Option<real>
  {
    if t.total > 0 then Some(t.correct as real / t.total as real) else None
  }

  predicate Below(t: Totals, lowest: real)
  {
    RatioOf(t).Some? && RatioOf(t).value < lowest
  }

  datatype Pick = Pick(mode: string, lowest: real)

  /** The weakest-mode scan over `keys`, starting from quick10 at 1. */
  function Weakest(keys: seq<string>, history: seq<QuizRecord>): Pick
  {
    if keys == [] then Pick("quick10", 1.0)
    else
      var p := Weakest(keys[..|keys| - 1], history);
      var t := TotalsOf(history, keys[|keys| - 1]);
      if Below(t, p.lowest) then Pick(keys[|keys| - 1], RatioOf(t).value) else p
  }

  /** The scan's lowest ratio is at most 1 and at most every mode's ratio. */
  lemma {:induction false} WeakestIsLowest(keys: seq<string>, history: seq<QuizRecord>)
    ensures Weakest(keys, history).lowest <= 1.0
    ensures forall i :: 0 <= i < |keys| && RatioOf(TotalsOf(history, keys[i])).Some? ==>
              Weakest(keys, history).lowest <= RatioOf(TotalsOf(history, keys[i])).value
  {
    if keys != [] {
      var init := keys[..|keys| - 1];
      WeakestIsLowest(init, history);
      forall i | 0 <= i < |init| ensures keys[i] == init[i] { }
    }
  }

  /** The scan stays at quick10 unless some mode is below 1; then it names
      the first mode, in key order, whose ratio is the lowest. */
  lemma {:induction false} WeakestIsFirst(keys: seq<string>, history: seq<QuizRecord>)
    ensures var p := Weakest(keys, history);
            && (p.lowest == 1.0 ==> p.mode == "quick10")
            && (p.lowest < 1.0 ==>
                  exists i :: 0 <= i < |keys| && keys[i] == p.mode
                    && RatioOf(TotalsOf(history, keys[i])) == Some(p.lowest)
                    && forall j :: 0 <= j < i ==> !Below(TotalsOf(history, keys[j]), p.lowest))
  {
    if keys != [] {
      var init := keys[..|keys| - 1];
      WeakestIsFirst(init, history);
      WeakestIsLowest(init, history);
      var p := Weakest(init, history);
      var last := keys[|keys| - 1];
      var t := TotalsOf(history, last);
      if Below(t, p.lowest) {
        var q := Weakest(keys, history);
        forall j | 0 <= j < |keys| - 1 ensures !Below(TotalsOf(history, keys[j]), q.lowest) {
          assert keys[j] == init[j];
        }
        assert keys[|keys| - 1] == q.mode;
      } else if p.lowest < 1.0 {
        var i :| 0 <= i < |init| && init[i] == p.mode
                 && RatioOf(TotalsOf(history, init[i])) == Some(p.lowest)
                 && forall j :: 0 <= j < i ==> !Below(TotalsOf(history, init[j]), p.lowest);
        assert keys[i] == init[i];
        forall j | 0 <= j < i ensures !Below(TotalsOf(history, keys[j]), p.lowest) {
          assert keys[j] == init[j];
        }
      }
    }
  }

  /** The pick is either the starting one or a key with that ratio. */
  lemma {:induction false} WeakestIsAKey(keys: seq<string>, history: seq<QuizRecord>)
    ensures var p := Weakest(keys, history);
            || p == Pick("quick10", 1.0)
            || (p.lowest < 1.0 && p.mode in keys && RatioOf(TotalsOf(history, p.mode)) == Some(p.lowest))
  {
    if keys != [] {
      WeakestIsAKey(keys[..|keys| - 1], history);
      WeakestIsLowest(keys[..|keys| - 1], history);
    }
  }

  /** The quiz title in the reason; `quizModes[mode]?.title` of an unknown
      mode prints as "undefined". */
  function TitleOf(mode: string): string
  {
    var m := QuizModeOf(mode);
    if m.Some? then m.value.title else "undefined"
  }

  /** `getRecommendedQuiz`: quick10 for a new player, otherwise the mode the
      scan over `modePerformance` picks, with the reason naming its title. */
  method GetRecommendedQuiz(history: seq<QuizRecord>) returns (mode: string, reason: string)
    ensures history == [] ==> mode == "quick10" && reason == "Perfect for getting started!"
    ensures history != [] ==> mode == Weakest(Modes(history), history).mode
    ensures history != [] ==> reason == "Improve your " + TitleOf(mode) + " performance"
  {
    if history == [] {
      return "quick10", "Perfect for getting started!";
    }
    var performance, order := TotalModes(history);
    mode := "quick10";
    var lowest := 1.0;
    var k := 0;
    while k < |order|
      invariant k <= |order|
      invariant Pick(mode, lowest) == Weakest(order[..k], history)
    {
      assert order[..k + 1][..k] == order[..k];
      var stats := performance[order[k]];
      if stats.total > 0 && (stats.correct as real / stats.total as real) < lowest {
        lowest := stats.correct as real / stats.total as real;
        mode := order[k];
      }
      k := k + 1;
    }
    assert order[..k] == order;
    reason := "Improve your " + TitleOf(mode) + " performance";
  }

  /** A mode whose quizzes were all answered correctly is never recommended
      over quick10: its ratio is 1, which is not below the starting 1. */
  lemma PerfectModeNeverPicked(history: seq<QuizRecord>, m: string)
    requires forall i :: 0 <= i < |history| && ModeKey(history[i]) == m ==>
               history[i].correctAnswers == history[i].totalQuestions
    requires m != "quick10"
    ensures Weakest(Modes(history), history).mode != m
  {
    var keys := Modes(history);
    WeakestIsAKey(keys, history);
    TotalsOfMeaning(history, m);
    ModeHistoryAllCorrect(history, m);
    var t := TotalsOf(history, m);
    assert t.correct == t.total;
    if t.total > 0 {
      RatioOfEqual(t.total);
      assert RatioOf(t) == Some(1.0);
    }
  }

  lemma RatioOfEqual(n: nat)
    requires n > 0
    ensures RatioOf(Totals(n, n)) == Some(1.0)
  {
    var x := n as real;
    assert x / x == 1.0;
  }

  lemma {:induction false} ModeHistoryAllCorrect(history: seq<QuizRecord>, m: string)
    requires forall i :: 0 <= i < |history| && ModeKey(history[i]) == m ==>
               history[i].correctAnswers == history[i].totalQuestions
    ensures SumBy(ModeHistory(history, m), Correct) == SumBy(ModeHistory(history, m), Questions)
  {
    if history != [] {
      var init := history[..|history| - 1];
      var quiz := history[|history| - 1];
      ModeHistoryAllCorrect(init, m);
      var h := ModeHistory(init, m);
      if ModeKey(quiz) == m {
        SumByAppend(h, [quiz], Correct);
        SumByAppend(h, [quiz], Questions);
        assert [quiz][1..] == [];
      } else {
        assert h + [] == h;
      }
    }
  }
}
