/** The application store: the selected celestial body, the scene toggles, the
    quiz counters and the user profile with its quiz history, aggregate quiz
    statistics, content progress and task progress.  Every other module reads
    the records defined here. */
module AppStore {
  import opened Common

  /** The fields of a celestial-body entry that the modelled code reads.  The
      catalogue itself is a constructor parameter. */
  datatype Body = Body(name: string, kind: string, distanceFromEarth: real)

  /** `{ ...celestialBodies[key] || celestialBodies.earth, key }`. */
  datatype Selected = Selected(body: Body, key: string)

  /** What the player picked: an option index (multiple choice and scene
      reading) or `true`/`false`.  JavaScript's `===` on these values is
      equality of this datatype: an index never equals a boolean. */
  datatype Answer = Choice(index: int) | Verdict(value: bool)

  /** One answer of a quiz.  Scene-quiz answers carry no time and no hint count. */
  datatype AnswerRecord = AnswerRecord(
    questionId: string,
    userAnswer: Answer,
    correct: bool,
    timeSpent: Option<real>,
    hintsUsed: Option<nat>,
    pointsEarned: nat)

  /** A finished quiz as stored in the history.  Fields a producer does not set
      are `None` (`undefined`): scene-quiz results have no mode, time, streak
      or hint count.  `completedDay` is the calendar day of `completedAt`. */
  datatype QuizRecord = QuizRecord(
    mode: Option<string>,
    score: nat,
    totalQuestions: nat,
    correctAnswers: nat,
    timeSpent: Option<nat>,
    maxStreak: Option<nat>,
    hintsUsed: Option<nat>,
    answers: seq<AnswerRecord>,
    completedDay: Option<int>,
    attemptNumber: Option<nat>)

  /** Aggregate quiz statistics; `bestStreak` is `None` once it has become NaN. */
  datatype QuizStats = QuizStats(totalQuizzes: nat, totalPoints: int, averageScore: nat, bestStreak: Option<nat>)

  const ZeroStats := QuizStats(0, 0, 0, Some(0))

  datatype TaskEntry = TaskEntry(taskId: Option<string>, fields: map<string, string>)

  /** The user object.  Every field may be absent: `updateUserProgress` on a
      store without a user starts from the empty object `{ ...null }`. */
  datatype User = User(
    name: Option<string>,
    difficulty: Option<string>,
    quizHistory: Option<seq<QuizRecord>>,
    quizStats: Option<QuizStats>,
    contentProgress: Option<map<string, map<string, string>>>,
    taskProgress: Option<seq<TaskEntry>>)

  const EmptyUser := User(None, None, None, None, None, None)

  /** The `(type, data)` argument of `updateUserProgress`. */
  datatype Progress =
    | ContentUpdate(data: map<string, string>)
    | TaskUpdate(entry: TaskEntry)
    | QuizUpdate(result: QuizRecord)
    | OtherUpdate

  const HistoryLimit := 50

  // ---------------------------------------------------------------------
  // setUser
  // ---------------------------------------------------------------------

  /** The user `setUser` stores: the given fields, with an empty history,
      zero statistics, no content progress and no task progress where absent. */
  function WithDefaults(data: User): (u: User)
    ensures u.name == data.name && u.difficulty == data.difficulty
    ensures u.quizHistory.Some? && u.quizStats.Some? && u.contentProgress.Some? && u.taskProgress.Some?
    ensures data.quizHistory.Some? ==> u.quizHistory == data.quizHistory
    ensures data.quizHistory.None? ==> u.quizHistory == Some([])
    ensures data.quizStats.Some? ==> u.quizStats == data.quizStats
    ensures data.quizStats.None? ==> u.quizStats == Some(ZeroStats)
    ensures data.contentProgress.Some? ==> u.contentProgress == data.contentProgress
    ensures data.contentProgress.None? ==> u.contentProgress == Some(map[])
    ensures data.taskProgress.Some? ==> u.taskProgress == data.taskProgress
    ensures data.taskProgress.None? ==> u.taskProgress == Some([])
  {
    User(data.name, data.difficulty,
         Some(data.quizHistory.GetOr([])),
         Some(data.quizStats.GetOr(ZeroStats)),
         Some(data.contentProgress.GetOr(map[])),
         Some(data.taskProgress.GetOr([])))
  }

  /** Storing a stored user again changes nothing. */
  lemma WithDefaultsIdempotent(data: User)
    ensures WithDefaults(WithDefaults(data)) == WithDefaults(data)
  {
  }

  // ---------------------------------------------------------------------
  // updateUserProgress: content
  // ---------------------------------------------------------------------

  /** `data.objectId` as a property key (`undefined` becomes "undefined"). */
  function ObjectKey(data: map<string, string>): string
  {
    if "objectId" in data then data["objectId"] else "undefined"
  }

  /** `contentProgress[data.objectId] = { ...contentProgress[data.objectId], ...data }`. */
  function OverlayContent(progress: map<string, map<string, string>>, data: map<string, string>): (r: map<string, map<string, string>>)
    ensures r.Keys == progress.Keys + {ObjectKey(data)}
    ensures forall id :: id in progress && id != ObjectKey(data) ==> r[id] == progress[id]
    ensures forall f :: f in data ==> f in r[ObjectKey(data)] && r[ObjectKey(data)][f] == data[f]
    ensures ObjectKey(data) in progress ==>
              forall f :: f in progress[ObjectKey(data)] && f !in data ==> f in r[ObjectKey(data)] && r[ObjectKey(data)][f] == progress[ObjectKey(data)][f]
    ensures ObjectKey(data) !in progress ==> r[ObjectKey(data)] == data
  {
    var key := ObjectKey(data);
    var existing := if key in progress then progress[key] else map[];
    progress[key := existing + data]
  }

  /** Overlaying the same data twice is overlaying it once. */
  lemma OverlayContentIdempotent(progress: map<string, map<string, string>>, data: map<string, string>)
    ensures OverlayContent(OverlayContent(progress, data), data) == OverlayContent(progress, data)
  {
    var key := ObjectKey(data);
    var once := OverlayContent(progress, data);
    assert once[key] + data == once[key];
  }

  // ---------------------------------------------------------------------
  // updateUserProgress: task
  // ---------------------------------------------------------------------

  /** Replace the first entry with the same `taskId`, or append. */
  function UpsertTask(tasks: seq<TaskEntry>, entry: TaskEntry): (r: seq<TaskEntry>)
    ensures |tasks| <= |r| <= |tasks| + 1
    ensures entry in r
  {
    var i := FindIndex(tasks, (t: TaskEntry) => t.taskId == entry.taskId);
    if i >= 0 then
      assert tasks[i := entry][i] == entry;
      tasks[i := entry]
    else tasks + [entry]
  }

  /** An entry whose id is already present replaces the first such entry in
      place; other entries and the length are unchanged. */
  lemma UpsertTaskReplaces(tasks: seq<TaskEntry>, entry: TaskEntry, i: nat)
    requires i < |tasks| && tasks[i].taskId == entry.taskId
    requires forall j :: 0 <= j < i ==> tasks[j].taskId != entry.taskId
    ensures |UpsertTask(tasks, entry)| == |tasks|
    ensures UpsertTask(tasks, entry)[i] == entry
    ensures forall j :: 0 <= j < |tasks| && j != i ==> UpsertTask(tasks, entry)[j] == tasks[j]
  {
  }

  /** A new id is appended at the end. */
  lemma UpsertTaskAppends(tasks: seq<TaskEntry>, entry: TaskEntry)
    requires forall j :: 0 <= j < |tasks| ==> tasks[j].taskId != entry.taskId
    ensures UpsertTask(tasks, entry) == tasks + [entry]
  {
  }

  /** If task ids were unique before, they are unique after. */
  lemma UpsertTaskKeepsIdsUnique(tasks: seq<TaskEntry>, entry: TaskEntry)
    requires forall j, k :: 0 <= j < k < |tasks| ==> tasks[j].taskId != tasks[k].taskId
    ensures var r := UpsertTask(tasks, entry);
            forall j, k :: 0 <= j < k < |r| ==> r[j].taskId != r[k].taskId
  {
  }

  // ---------------------------------------------------------------------
  // updateUserProgress: quiz
  // ---------------------------------------------------------------------

  function Score(q: QuizRecord): int { q.score }
  function Correct(q: QuizRecord): int { q.correctAnswers }
  function Questions(q: QuizRecord): int { q.totalQuestions }

  /** `Math.max(a, b)` where `None` is NaN (or `undefined`, which becomes NaN). */
  function MaxOrNaN(a: Option<nat>, b: Option<nat>): (r: Option<nat>)
    ensures r.Some? <==> a.Some? && b.Some?
    ensures r.Some? ==> r.value >= a.value && r.value >= b.value && (r.value == a.value || r.value == b.value)
  {
    if a.Some? && b.Some? then Some(if a.value < b.value then b.value else a.value) else None
  }

  /** The history after the push: the result, numbered one past the previous length. */
  function PushedHistory(history: seq<QuizRecord>, data: QuizRecord): seq<QuizRecord>
  {
    history + [data.(attemptNumber := Some(|history| + 1))]
  }

  /** Statistics of the pushed (not yet truncated) history. */
  function RecordedStats(history: seq<QuizRecord>, stats: QuizStats, data: QuizRecord): (s: QuizStats)
    ensures s.totalQuizzes == |history| + 1
  {
    var pushed := PushedHistory(history, data);
    SumByNonNegative(pushed, Correct);
    var totalCorrect := SumBy(pushed, Correct);
    var totalQuestions := SumBy(pushed, Questions);
    QuizStats(|pushed|, SumBy(pushed, Score),
              if totalQuestions > 0 then RoundPercent(totalCorrect, totalQuestions) else 0,
              MaxOrNaN(stats.bestStreak, data.maxStreak))
  }

  /** The stored history: the pushed history cut to its last 50 entries. */
  function RecordedHistory(history: seq<QuizRecord>, data: QuizRecord): (h: seq<QuizRecord>)
    ensures |h| <= HistoryLimit && |h| <= |PushedHistory(history, data)|
    ensures h == PushedHistory(history, data)[|PushedHistory(history, data)| - |h|..]
  {
    var pushed := PushedHistory(history, data);
    if |pushed| > HistoryLimit then pushed[|pushed| - HistoryLimit..] else pushed
  }

  /** The new history ends with the new attempt, numbered one past the old
      length, and keeps every previous entry that fits in the window of 50. */
  lemma RecordedHistoryShape(history: seq<QuizRecord>, data: QuizRecord)
    ensures var h := RecordedHistory(history, data);
            |h| > 0 && h[|h| - 1] == data.(attemptNumber := Some(|history| + 1))
            && |h| == (if |history| + 1 > HistoryLimit then HistoryLimit else |history| + 1)
            && h[..|h| - 1] == history[|history| - (|h| - 1)..]
  {
    var pushed := PushedHistory(history, data);
    var h := RecordedHistory(history, data);
    assert pushed[..|history|] == history;
    assert h[..|h| - 1] == pushed[|pushed| - |h|..|pushed| - 1];
  }

  /** Sums of non-negative values over a list of records. */
  lemma {:induction false} SumCorrectAtMostQuestions(s: seq<QuizRecord>)
    requires forall i :: 0 <= i < |s| ==> s[i].correctAnswers <= s[i].totalQuestions
    ensures 0 <= SumBy(s, Correct) <= SumBy(s, Questions)
  {
    if s != [] {
      SumCorrectAtMostQuestions(s[1..]);
    }
  }

  /** When every record has no more right answers than questions, the average
      score is a percentage. */
  lemma AverageScoreAtMost100(history: seq<QuizRecord>, stats: QuizStats, data: QuizRecord)
    requires forall i :: 0 <= i < |history| ==> history[i].correctAnswers <= history[i].totalQuestions
    requires data.correctAnswers <= data.totalQuestions
    ensures RecordedStats(history, stats, data).averageScore <= 100
  {
    var pushed := PushedHistory(history, data);
    SumCorrectAtMostQuestions(pushed);
    var q := SumBy(pushed, Questions);
    if q > 0 {
      RoundPercentAtMost100(SumBy(pushed, Correct), q);
    }
  }

  /** The aggregates cover the pushed history, before truncation: once the
      window is full they count 51 quizzes while 50 are kept, and the counter
      and the attempt numbers stop growing at 51. */
  lemma StatsCountBeforeTruncation(history: seq<QuizRecord>, stats: QuizStats, data: QuizRecord)
    requires |history| == HistoryLimit
    ensures RecordedStats(history, stats, data).totalQuizzes == HistoryLimit + 1
    ensures |RecordedHistory(history, data)| == HistoryLimit
    ensures RecordedHistory(history, data)[HistoryLimit - 1].attemptNumber == Some(HistoryLimit + 1)
  {
    RecordedHistoryShape(history, data);
  }

  /** With numeric streaks the best streak never decreases; a result without
      `maxStreak` (a scene quiz) turns it into NaN for good. */
  lemma BestStreakMonotone(history: seq<QuizRecord>, stats: QuizStats, data: QuizRecord)
    ensures stats.bestStreak.Some? && data.maxStreak.Some? ==>
              RecordedStats(history, stats, data).bestStreak.Some?
              && RecordedStats(history, stats, data).bestStreak.value >= stats.bestStreak.value
              && RecordedStats(history, stats, data).bestStreak.value >= data.maxStreak.value
    ensures data.maxStreak.None? || stats.bestStreak.None? ==> RecordedStats(history, stats, data).bestStreak.None?
  {
  }

  // ---------------------------------------------------------------------
  // The store
  // ---------------------------------------------------------------------

  class Store {
    /** The celestial-body catalogue the store selects from. */
    const catalog: map<string, Body>

    var selectedObject: Selected
    var showGravityField: bool
    var showEventHorizon: bool
    var showTimeDilation: bool
    var showTravelLine: bool
    var showTravelAnimation: bool
    var distanceFromSurface: real
    var spacecraftSpeed: real
    var orbitAltitude: real
    var explanationLevel: string
    var user: Option<User>
    var isUserSetup: bool
    var currentQuiz: Option<string>
    var quizScore: int
    var quizStreak: nat

    /** The initial state: Earth selected, only the event horizon shown, no user. */
    constructor(catalog: map<string, Body>)
      requires "earth" in catalog
      ensures this.catalog == catalog
      ensures selectedObject == Selected(catalog["earth"], "earth")
      ensures !showGravityField && showEventHorizon && !showTimeDilation && !showTravelLine && !showTravelAnimation
      ensures distanceFromSurface == 100.0 && spacecraftSpeed == 0.1 && orbitAltitude == 400.0
      ensures explanationLevel == "student"
      ensures user == None && !isUserSetup && currentQuiz == None && quizScore == 0 && quizStreak == 0
    {
      this.catalog := catalog;
      selectedObject := Selected(catalog["earth"], "earth");
      showGravityField := false;
      showEventHorizon := true;
      showTimeDilation := false;
      showTravelLine := false;
      showTravelAnimation := false;
      distanceFromSurface := 100.0;
      spacecraftSpeed := 0.1;
      orbitAltitude := 400.0;
      explanationLevel := "student";
      user := None;
      isUserSetup := false;
      currentQuiz := None;
      quizScore := 0;
      quizStreak := 0;
    }

    /** The key is always stored; an unknown key shows Earth's data. */
    method SetSelectedObject(key: string)
      requires "earth" in catalog
      modifies this`selectedObject
      ensures selectedObject.key == key
      ensures key in catalog ==> selectedObject.body == catalog[key]
      ensures key !in catalog ==> selectedObject.body == catalog["earth"]
    {
      var body := if key in catalog then catalog[key] else catalog["earth"];
      selectedObject := Selected(body, key);
    }

    method ToggleGravityField()
      modifies this`showGravityField
      ensures showGravityField == !old(showGravityField)
    {
      showGravityField := !showGravityField;
    }

    method ToggleEventHorizon()
      modifies this`showEventHorizon
      ensures showEventHorizon == !old(showEventHorizon)
    {
      showEventHorizon := !showEventHorizon;
    }

    method ToggleTimeDilation()
      modifies this`showTimeDilation
      ensures showTimeDilation == !old(showTimeDilation)
    {
      showTimeDilation := !showTimeDilation;
    }

    method ToggleTravelLine()
      modifies this`showTravelLine
      ensures showTravelLine == !old(showTravelLine)
    {
      showTravelLine := !showTravelLine;
    }

    method ToggleTravelAnimation()
      modifies this`showTravelAnimation
      ensures showTravelAnimation == !old(showTravelAnimation)
    {
      showTravelAnimation := !showTravelAnimation;
    }

    method SetDistanceFromSurface(distance: real)
      modifies this`distanceFromSurface
      ensures distanceFromSurface == distance
    {
      distanceFromSurface := distance;
    }

    method SetSpacecraftSpeed(speed: real)
      modifies this`spacecraftSpeed
      ensures spacecraftSpeed == speed
    {
      spacecraftSpeed := speed;
    }

    method SetOrbitAltitude(altitude: real)
      modifies this`orbitAltitude
      ensures orbitAltitude == altitude
    {
      orbitAltitude := altitude;
    }

    method SetExplanationLevel(level: string)
      modifies this`explanationLevel
      ensures explanationLevel == level
    {
      explanationLevel := level;
    }

    /** Store the user with defaults for the absent collections, and mark setup done. */
    method SetUser(data: User)
      modifies this`user, this`isUserSetup
      ensures user == Some(WithDefaults(data)) && isUserSetup
    {
      user := Some(WithDefaults(data));
      isUserSetup := true;
    }

    method SetCurrentQuiz(quiz: Option<string>)
      modifies this`currentQuiz
      ensures currentQuiz == quiz
    {
      currentQuiz := quiz;
    }

    method UpdateQuizScore(points: int)
      modifies this`quizScore
      ensures quizScore == old(quizScore) + points
    {
      quizScore := quizScore + points;
    }

    method UpdateQuizStreak(correct: bool)
      modifies this`quizStreak
      ensures quizStreak == if correct then old(quizStreak) + 1 else 0
    {
      quizStreak := if correct then quizStreak + 1 else 0;
    }

    method ResetQuiz()
      modifies this`currentQuiz, this`quizScore, this`quizStreak
      ensures currentQuiz == None && quizScore == 0 && quizStreak == 0
    {
      currentQuiz := None;
      quizScore := 0;
      quizStreak := 0;
    }

    /** `updateUserProgress(type, data)`: starting from a copy of the user (the
        empty object when there is none), overlay content progress, upsert a
        task, or record a quiz; any other type stores the copy unchanged. */
    method UpdateUserProgress(update: Progress)
      modifies this`user
      ensures user.Some?
      ensures var u := if old(user).Some? then old(user).value else EmptyUser;
              match update
              case ContentUpdate(data) =>
                user.value == u.(contentProgress := Some(OverlayContent(u.contentProgress.GetOr(map[]), data)))
              case TaskUpdate(entry) =>
                user.value == u.(taskProgress := Some(UpsertTask(u.taskProgress.GetOr([]), entry)))
              case QuizUpdate(data) =>
                user.value == u.(quizHistory := Some(RecordedHistory(u.quizHistory.GetOr([]), data)),
                                 quizStats := Some(RecordedStats(u.quizHistory.GetOr([]), u.quizStats.GetOr(ZeroStats), data)))
              case OtherUpdate => user.value == u
    {
      var newUser := if user.Some? then user.value else EmptyUser;
      match update {
        case ContentUpdate(data) =>
          newUser := AddContent(newUser, data);
        case TaskUpdate(entry) =>
          newUser := AddTask(newUser, entry);
        case QuizUpdate(data) =>
          newUser := AddQuiz(newUser, data);
        case OtherUpdate =>
      }
      user := Some(newUser);
    }
  }

  /** The content branch of `updateUserProgress` on the copied user. */
  method AddContent(u: User, data: map<string, string>) returns (r: User)
    ensures r == u.(contentProgress := Some(OverlayContent(u.contentProgress.GetOr(map[]), data)))
  {
    var progress := u.contentProgress.GetOr(map[]);
    var key := ObjectKey(data);
    var existing := if key in progress then progress[key] else map[];
    progress := progress[key := existing + data];
    r := u.(contentProgress := Some(progress));
  }

  /** The task branch of `updateUserProgress` on the copied user. */
  method AddTask(u: User, entry: TaskEntry) returns (r: User)
    ensures r == u.(taskProgress := Some(UpsertTask(u.taskProgress.GetOr([]), entry)))
  {
    var tasks := u.taskProgress.GetOr([]);
    var i := FindIndex(tasks, (t: TaskEntry) => t.taskId == entry.taskId);
    if i >= 0 {
      tasks := tasks[i := entry];
    } else {
      tasks := tasks + [entry];
    }
    r := u.(taskProgress := Some(tasks));
  }

  /** The quiz branch of `updateUserProgress` on the copied user: push the
      numbered result, recompute the aggregates over the pushed history, then
      keep the last 50 entries. */
  method AddQuiz(u: User, data: QuizRecord) returns (r: User)
    ensures r == u.(quizHistory := Some(RecordedHistory(u.quizHistory.GetOr([]), data)),
                    quizStats := Some(RecordedStats(u.quizHistory.GetOr([]), u.quizStats.GetOr(ZeroStats), data)))
  {
    var history := u.quizHistory.GetOr([]);
    var stats := u.quizStats.GetOr(ZeroStats);
    var previous := history;
    history := history + [data.(attemptNumber := Some(|history| + 1))];
    SumByNonNegative(history, Correct);
    var totalCorrect := SumBy(history, Correct);
    var totalQuestions := SumBy(history, Questions);
    stats := QuizStats(|history|, SumBy(history, Score),
                       if totalQuestions > 0 then RoundPercent(totalCorrect, totalQuestions) else 0,
                       MaxOrNaN(stats.bestStreak, data.maxStreak));
    if |history| > HistoryLimit {
      history := history[|history| - HistoryLimit..];
    }
    r := u.(quizHistory := Some(history), quizStats := Some(stats));
  }

  /** After any quiz update the stored history holds at most 50 entries and ends
      with the new attempt. */
  lemma QuizUpdateBoundsHistory(u: User, data: QuizRecord)
    ensures var h := RecordedHistory(u.quizHistory.GetOr([]), data);
            0 < |h| <= HistoryLimit && h[|h| - 1].attemptNumber == Some(|u.quizHistory.GetOr([])| + 1)
  {
    RecordedHistoryShape(u.quizHistory.GetOr([]), data);
  }
}
