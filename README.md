# Astroplay core, modelled in Dafny

Astroplay is a space-education web application: a 3-D explorer of celestial
bodies with learning aids, a chat assistant backed by a small Python relay,
timed quizzes with statistics, leaderboards and feedback, a blog and a
glossary, mini tasks, an asteroid-dodging game and exoplanet data views.
This project models the logic of that application, one Dafny module per
source file, and proves what each part promises.

- `ai_server.dfy`: the chat relay. It validates a request, then tries the
  local model, the hosted model and the canned offline answer in turn. It
  also holds the provider probe. The network is a parameter.
- `ai_chat_page.dfy`: the chat page. It covers the offline knowledge base
  (an ordered first match over keyword groups), the personality wrapping,
  and the message list that sending and clearing update.
- `app_store.dfy`: the application store as a class. It holds the selected
  body, the scene toggles, the quiz counters and the user profile. It also
  holds the progress updates for quizzes, tasks and content.
- `quiz_questions.dfy`, `quiz_page.dfy`, `quiz_stats.dfy`,
  `personalized_feedback.dfy`, `quiz_dashboard.dfy`, `quiz_leaderboard.dfy`,
  `user_leaderboard.dfy`, `scene_quiz.dfy`: the quiz subsystem. This covers
  the question banks and the generator, the per-answer scoring with speed,
  streak and no-hint bonuses, and the statistics, trend and feedback rules.
  It also covers the recommended next quiz, the two leaderboards and the
  scene-reading quiz.
- `markdown.dfy`, `blogs.dfy`, `definitions.dfy`: content. This covers the
  line classifier and the bold/italic rewrite of the blog renderer, the blog
  catalogue queries, and the glossary filter.
- `content_recommendations.dfy`, `mini_tasks.dfy`, `learning_progress.dfy`,
  `responsive_layout.dfy`: explorer aids. These are the suggestion rules,
  the task panel, the progress panel and the breakpoint helpers.
- `asteroid_dodger.dfy`: the game as a class. It covers movement, the
  shield, the three per-frame sweeps with their in-place removal, and the
  spawns, with the dice as parameters.
- `exoplanets.dfy`, `exoplanet_charts.dfy`, `data_summary.dfy`: the
  exoplanet views. They model JavaScript's view of numeric columns, the
  per-key tally, the chart series and the summary statistics.
- `common.dfy`, `sorting.dfy`: shared pieces. These are the optional value,
  list filters and sums, JavaScript rounding and string helpers, and a
  stable sort by key that stands for every `Array.prototype.sort` in the
  modelled code.

Where the code behaves surprisingly, the model follows the code. A lemma
then exhibits the behaviour. Examples:
- the saved quiz result leaves out the last answer;
- removing during `forEach` skips the next asteroid;
- the scene quiz counts its last answer twice;
- the "Your Position" rank is always 9;
- a mini-task index can run past the list.

## Model

| member | source | states |
|---|---|---|
| AiServer.SpacePrompt | ai_server.py:40-46 | the prompt is a fixed header, the question verbatim and a fixed tail |
| AiServer.SpacePromptInjective | ai_server.py:40-46 | different questions give different prompts, so the question can be read back |
| AiServer.OllamaRequest | ai_server.py:51-61 | the local request goes to the local URL, its body carrying the configured model, the space prompt and `stream` false |
| AiServer.OllamaResult | ai_server.py:63-72 | any exception or non-200 status is `None`; on 200 with a JSON object, a missing `response` gives the empty answer, a string gives it stripped, anything else raises and gives `None` |
| AiServer.TrimIdempotent | ai_server.py:65 | stripping a stripped answer changes nothing |
| AiServer.CallOllama | ai_server.py:48-72 | one POST of the local request; an exception or a non-200 status gives no answer |
| AiServer.GroqRequest | ai_server.py:81-107 | the hosted request carries the bearer key, the system and user messages, the configured model, `max_tokens` 200 and `temperature` 0.7 |
| AiServer.GroqContent | ai_server.py:109-111 | an answer exactly when the choices/first/message/content lookup succeeds on a string, and then that content stripped |
| AiServer.GroqReadsFirstChoice | ai_server.py:109-111 | a reply in the hosted service's shape answers with its first choice's content, stripped, whatever choices follow |
| AiServer.CallGroq | ai_server.py:74-118 | no key (or an empty one) gives no answer; an exception gives no answer |
| AiServer.GroqWithoutKeyMakesNoRequest | ai_server.py:77-79 | without a key the hosted adapter does not depend on the network at all |
| AiServer.FirstMatch | ai_server.py:124-131 | a keyword table's answer is the default or one of the table's answers |
| AiServer.OfflineFallback | ai_server.py:120-131 | the offline answer is never empty and is one of the four fixed answers, for every input |
| AiServer.OfflineFallbackIsFirstMatch | ai_server.py:122-131 | the if/elif chain is the first match, on the lower-cased text, over black hole, mars, space/universe |
| AiServer.OfflineFallbackCases | ai_server.py:124-131 | each answer is given exactly when its keywords occur and no earlier row's do |
| AiServer.OfflineFallbackIgnoresCase | ai_server.py:122 | matching ignores letter case |
| AiServer.BlackHoleWinsOverMars | ai_server.py:124-127 | a text containing "black hole" gets the black-hole answer even when it also names Mars |
| AiServer.Validate | ai_server.py:146-153 | an object without "message" is "Message is required"; with one, a non-string message raises (the 500), a blank string is "Message cannot be empty", and any other string is accepted stripped; a valid message is always such a stripped, non-empty string |
| AiServer.Chat | ai_server.py:142-192 | the reply is an error exactly when validation fails; an answer is non-empty and labelled ollama/success, groq/success or offline/fallback |
| AiServer.ChatRejectsBeforeProviders | ai_server.py:146-161 | a rejected request never reaches a provider: the reply does not depend on the network or the key |
| AiServer.ChatMissingOrBlankMessage | ai_server.py:148-153 | an object without a message gets "Message is required" and one with a blank message "Message cannot be empty", both 400 |
| AiServer.ChatLocalFirst | ai_server.py:160-168 | a non-empty local answer is returned as ollama whatever the hosted provider would say |
| AiServer.ChatHostedSecond | ai_server.py:170-178 | without a local answer, a non-empty hosted answer is returned as groq |
| AiServer.ChatOfflineLast | ai_server.py:180-188 | when neither provider answers, the offline answer for the stripped message is returned |
| AiServer.ChatAllProvidersDown | ai_server.py:157-188 | with the local server down and no key every valid request is answered offline |
| AiServer.Providers | ai_server.py:194-212 | the local provider is up exactly on a 200 probe, the hosted one exactly with a key, and the recommendation follows the chat order |
| AiServer.RecommendedGroqHasKey | ai_server.py:207-211 | "groq" is recommended only when the hosted adapter would really send its request |
| AiChatPage.Branch | src/pages/AIChatPage.jsx:118-195 | the branch taken is one of the keyword branches or the default |
| AiChatPage.OfflineSpaceResponse | src/pages/AIChatPage.jsx:118-195 | the offline answer is never empty, and it is the default exactly when no branch's condition holds on the lower-cased question |
| AiChatPage.AnswersNotDefault | src/pages/AIChatPage.jsx:121-194 | there is one answer per branch, none empty and none equal to the default |
| AiChatPage.OfflineFirstMatch | src/pages/AIChatPage.jsx:121-194 | when a branch holds, the answer is that of the first branch that holds |
| AiChatPage.BranchIff | src/pages/AIChatPage.jsx:121-194 | branch k is taken exactly when its condition holds and no earlier one does |
| AiChatPage.ExoplanetPrecedence | src/pages/AIChatPage.jsx:132 | "and" binds tighter than "or": "exoplanet" alone selects the exoplanet branch, "planet" needs "other" or "detect" too |
| AiChatPage.ExoplanetCondition | src/pages/AIChatPage.jsx:132 | the exoplanet condition holds exactly for "exoplanet", or "planet" together with "other" or "detect" |
| AiChatPage.SunCondition | src/pages/AIChatPage.jsx:152 | the star condition holds exactly for "sun", or "star" without "neutron" |
| AiChatPage.SunPrecedence | src/pages/AIChatPage.jsx:152 | "sun" alone selects the star branch, "star" only without "neutron" |
| AiChatPage.BlackHoleFirst | src/pages/AIChatPage.jsx:122-124 | a question naming a black hole gets the black-hole answer whatever else it names |
| AiChatPage.OfflineIgnoresCase | src/pages/AIChatPage.jsx:119 | matching ignores letter case |
| AiChatPage.SmartResponse | src/pages/AIChatPage.jsx:81-115 | a non-empty server reply is returned unchanged |
| AiChatPage.SmartResponseOffline | src/pages/AIChatPage.jsx:88-114 | without a server reply the answer is exactly the chosen prefix, the offline answer and the chosen suffix, so it starts and ends with them, contains the offline answer and is never empty |
| AiChatPage.WrappedEnds | src/pages/AIChatPage.jsx:88-114 | the wrapped answer starts with the prefix, ends with the suffix, and is not empty |
| AiChatPage.ChatPage.constructor | src/pages/AIChatPage.jsx:5-14 | the page opens with the greeting alone, id 1, an empty input and no loading |
| AiChatPage.ChatPage.SetInput | src/pages/AIChatPage.jsx:256-258 | a suggestion replaces the input and nothing else |
| AiChatPage.BotReply | src/pages/AIChatPage.jsx:212-232 | the bot message carries the generated answer when there is one, and the apology when generation failed |
| AiChatPage.ChatPage.SendMessage | src/pages/AIChatPage.jsx:197-238 | a blank input changes nothing; otherwise the trimmed user message and one bot message (the reply or the apology) are appended with ids one and two past the old length, the input is cleared and loading ends; ids stay equal to positions |
| AiChatPage.ChatPage.ClearChat | src/pages/AIChatPage.jsx:260-269 | the conversation is the greeting alone again |
| AiChatPage.AppendPairKeepsIds | src/pages/AIChatPage.jsx:200-221 | appending a user message and its reply keeps every id equal to its position |
| AppStore.WithDefaults | src/store/useAppStore.js:43-57 | each absent collection gets its default (empty history, zero statistics, empty content progress, empty task list) and present fields are kept |
| AppStore.WithDefaultsIdempotent | src/store/useAppStore.js:43-57 | storing a stored user again changes nothing |
| AppStore.OverlayContent | src/store/useAppStore.js:74-79 | only the object's entry changes; it gains every field of the update and keeps the fields the update does not name |
| AppStore.OverlayContentIdempotent | src/store/useAppStore.js:74-79 | overlaying the same update twice is overlaying it once |
| AppStore.UpsertTask | src/store/useAppStore.js:80-87 | the entry is in the result and the list grows by at most one |
| AppStore.UpsertTaskReplaces | src/store/useAppStore.js:82-84 | an id already present replaces the first entry with that id, in place, and nothing else |
| AppStore.UpsertTaskAppends | src/store/useAppStore.js:85-86 | a new id is appended at the end |
| AppStore.UpsertTaskKeepsIdsUnique | src/store/useAppStore.js:80-87 | unique task ids stay unique |
| AppStore.MaxOrNaN | src/store/useAppStore.js:120 | `Math.max` is NaN when either side is, else the larger of the two |
| AppStore.RecordedStats | src/store/useAppStore.js:111-120 | the quiz count is the pushed history's length |
| AppStore.RecordedHistory | src/store/useAppStore.js:108-125 | the stored history is a suffix of the pushed history, at most 50 long |
| AppStore.RecordedHistoryShape | src/store/useAppStore.js:100-125 | the history ends with the new attempt numbered one past the old length and keeps the previous entries that fit in the window of 50 |
| AppStore.SumCorrectAtMostQuestions | src/store/useAppStore.js:116-117 | the summed right answers never exceed the summed questions |
| AppStore.AverageScoreAtMost100 | src/store/useAppStore.js:118 | the average score is a percentage when no record claims more right answers than questions |
| AppStore.StatsCountBeforeTruncation | src/store/useAppStore.js:111-125 | with a full window the statistics count 51 quizzes while 50 are kept, and the attempt number sticks at 51 |
| AppStore.BestStreakMonotone | src/store/useAppStore.js:120 | with numeric streaks the best streak never decreases; a result without `maxStreak` makes it NaN for good |
| AppStore.Store.constructor | src/store/useAppStore.js:4-67 | the initial state: Earth selected, only the event horizon shown, default physics values, student level, no user, no quiz |
| AppStore.Store.SetSelectedObject | src/store/useAppStore.js:7-9 | the key is always stored; an unknown key shows Earth's data |
| AppStore.Store.ToggleGravityField | src/store/useAppStore.js:19 | the flag flips |
| AppStore.Store.ToggleEventHorizon | src/store/useAppStore.js:21 | the flag flips |
| AppStore.Store.ToggleTimeDilation | src/store/useAppStore.js:22 | the flag flips |
| AppStore.Store.ToggleTravelLine | src/store/useAppStore.js:23 | the flag flips |
| AppStore.Store.ToggleTravelAnimation | src/store/useAppStore.js:24 | the flag flips |
| AppStore.Store.SetDistanceFromSurface | src/store/useAppStore.js:31 | the value is stored |
| AppStore.Store.SetSpacecraftSpeed | src/store/useAppStore.js:32 | the value is stored |
| AppStore.Store.SetOrbitAltitude | src/store/useAppStore.js:33 | the value is stored |
| AppStore.Store.SetExplanationLevel | src/store/useAppStore.js:37 | the level is stored |
| AppStore.Store.SetUser | src/store/useAppStore.js:43-57 | the user is stored with defaults and setup is marked done |
| AppStore.Store.SetCurrentQuiz | src/store/useAppStore.js:64 | the quiz is stored |
| AppStore.Store.UpdateQuizScore | src/store/useAppStore.js:65 | the score grows by the points |
| AppStore.Store.UpdateQuizStreak | src/store/useAppStore.js:66 | the streak grows on a right answer and restarts at 0 on a wrong one |
| AppStore.Store.ResetQuiz | src/store/useAppStore.js:67 | no quiz, score 0, streak 0 |
| AppStore.Store.UpdateUserProgress | src/store/useAppStore.js:70-130 | from a copy of the user (empty when none): overlay content, upsert a task, or record a quiz; any other type stores the copy unchanged |
| AppStore.AddContent | src/store/useAppStore.js:74-79 | the content branch changes only the content progress |
| AppStore.AddTask | src/store/useAppStore.js:80-87 | the task branch changes only the task list |
| AppStore.AddQuiz | src/store/useAppStore.js:88-125 | the quiz branch changes only the history and the statistics |
| AppStore.QuizUpdateBoundsHistory | src/store/useAppStore.js:100-125 | after any quiz update the history is non-empty, at most 50 long, and ends with the new attempt number |
| QuizQuestions.Bank | src/data/quizQuestions.js:8-23 | every mode's bank has six well-formed questions at the chosen difficulty, none of them a scene question |
| QuizQuestions.BankIds | src/data/quizQuestions.js:29-348 | the identifiers are the bank's letter and the positions 1 to 6 |
| QuizQuestions.BankIdsDistinct | src/data/quizQuestions.js:29-348 | the identifiers within a bank are distinct |
| QuizQuestions.SceneQuestionsWellFormed | src/data/quizQuestions.js:351-386 | the two scene questions are well formed, distinct, at the student level and each needs a visualisation |
| QuizQuestions.UnknownModeUsesQuickBank | src/data/quizQuestions.js:21-22 | a mode outside the switch draws from the quick bank |
| QuizQuestions.ModeTopics | src/data/quizQuestions.js:107-348 | the gravity, orbits and compact banks ask only about their own topic |
| QuizQuestions.QuizModesMatchBanks | src/data/quizQuestions.js:399-428 | each mode's question count equals its bank's size, its time limit is positive, and two modes share no question |
| QuizQuestions.PickInRange | src/data/quizQuestions.js:392 | the drawn index lies in `[0, i]` |
| QuizQuestions.ShuffleArray | src/data/quizQuestions.js:389-396 | the shuffle returns a permutation of its argument |
| QuizQuestions.GenerateQuizQuestions | src/data/quizQuestions.js:5-26 | six questions that are a permutation of the mode's bank, with distinct ids, well formed, at the chosen difficulty |
| QuizQuestions.PermutedBank | src/data/quizQuestions.js:25 | any reordering of a bank keeps its questions well formed and their ids distinct |
| QuizPage.EffectiveDifficulty | src/pages/QuizPage.jsx:38 | the level is the user's when set and non-empty, "student" otherwise, and never empty |
| QuizPage.AnswerPointsBounds | src/pages/QuizPage.jsx:75-94 | a wrong answer earns 0; a right one earns at least the question's points and at most all bonuses; a longer streak never earns less; a hint costs exactly 3 |
| QuizPage.TrailingCorrect | src/pages/QuizPage.jsx:84-93 | the current streak is at most the number of answers |
| QuizPage.LongestRunBounds | src/pages/QuizPage.jsx:84-93 | the best streak is at least the current streak and at most the number of right answers |
| QuizPage.TrailingAtMostCount | src/pages/QuizPage.jsx:84-93 | the current streak is at most the number of right answers |
| QuizPage.CountAppend | src/pages/QuizPage.jsx:133 | one more answer adds one right answer exactly when it is right |
| QuizPage.QuizResult | src/pages/QuizPage.jsx:129-149 | the saved record has the mode, the score, the question count, the number of correct answers among the answers read (at most their count), the answers, and the time used as the mode's limit minus the time left |
| QuizPage.CompletedByLastAnswerIsShort | src/pages/QuizPage.jsx:117-145 | a quiz completed by its last answer is saved from the state before that answer: one answer short, so it records fewer right answers than questions even when all were right |
| QuizPage.QuizSession.constructor | src/pages/QuizPage.jsx:12-24 | no mode, no questions, every counter 0, no hint, no results |
| QuizPage.QuizSession.StartQuiz | src/pages/QuizPage.jsx:36-50 | a shuffle of the mode's bank at the player's level, the mode's full time, and every counter back to 0 |
| QuizPage.QuizSession.Begin | src/pages/QuizPage.jsx:37-49 | the state set once the questions are dealt |
| QuizPage.QuizSession.UseHint | src/pages/QuizPage.jsx:124-127 | the hint is shown and counted |
| QuizPage.QuizSession.HandleAnswer | src/pages/QuizPage.jsx:52-122 | the record is appended, the score grows by exactly its points, the streak and best streak follow the answer, the hint is cleared; the index moves on, or at the last question the results show and the record built from the earlier values is saved |
| QuizPage.TallyAppend | src/pages/QuizPage.jsx:84-96 | one more answer adds its points to the total; a correct one extends the current streak by one and lifts the best streak to it when larger, a wrong one resets the current streak and keeps the best |
| QuizPage.QuizSession.RecordAnswer | src/pages/QuizPage.jsx:53-113 | the scoring half of an answer: record, points, streaks, hint cleared |
| QuizPage.QuizSession.Complete | src/pages/QuizPage.jsx:129-150 | the results show and one record is saved |
| QuizPage.QuizSession.Tick | src/pages/QuizPage.jsx:26-34 | the clock runs down by one while the quiz is open; at 0 with a mode chosen the quiz completes with the current state; otherwise nothing changes |
| Common.FormatClockRoundTrip | src/pages/QuizPage.jsx:152-156 | the clock text is minutes, a colon and two digits, and reading the numbers back gives the seconds |
| QuizStats.BestStreak | src/components/quiz/QuizStats.jsx:43 | the best streak bounds every quiz's streak and is one of them, 0 for none |
| QuizStats.ModeHistory | src/components/quiz/QuizStats.jsx:48-55 | a mode's quizzes are some of the history |
| QuizStats.BestScore | src/components/quiz/QuizStats.jsx:54 | the best score bounds every score and is one of them or the starting 0 |
| QuizStats.StatOfAppend | src/components/quiz/QuizStats.jsx:48-55 | one more quiz updates its mode's entry by one step |
| QuizStats.StatOfMeaning | src/components/quiz/QuizStats.jsx:48-55 | a mode's entry counts that mode's quizzes, sums their scores and holds the best |
| QuizStats.StatsStep | src/components/quiz/QuizStats.jsx:49-54 | one pass of the loop gives the statistics of one more quiz and adds only its mode's key |
| QuizStats.StatsMapOf | src/components/quiz/QuizStats.jsx:47-55 | the map built over a list of quizzes holds each seen mode's count, score sum and best score, and has a key for the mode of every quiz |
| QuizStats.ComputeModeStats | src/components/quiz/QuizStats.jsx:47-55 | one entry per mode key, created at its first quiz, listed in creation order, each counting, summing and maximising exactly that mode's quizzes |
| QuizStats.AttemptsOverAppend | src/components/quiz/QuizStats.jsx:52 | one more quiz adds one attempt when its mode is listed |
| QuizStats.AttemptsSumToQuizzes | src/components/quiz/QuizStats.jsx:47-55 | the attempts of all modes add up to the number of quizzes |
| QuizStats.RatioSumBounds | src/components/quiz/QuizStats.jsx:60-64 | the summed ratios of plausible quizzes lie between 0 and their count |
| QuizStats.RecentAverageIsPercentage | src/components/quiz/QuizStats.jsx:58-65 | with plausible records the recent average is between 0 and 100 |
| QuizStats.PerformanceTrend | src/components/quiz/QuizStats.jsx:90-103 | the trend is neutral exactly when fewer than two quizzes exist |
| QuizStats.SteadyPlayerIsStable | src/components/quiz/QuizStats.jsx:94-102 | equal ratios in every recent quiz give a stable trend |
| QuizStats.TwoQuizTrend | src/components/quiz/QuizStats.jsx:94-102 | with two quizzes the trend is improving or declining exactly when the second ratio beats or trails the first by more than 0.1 |
| QuizStats.CalculateStats | src/components/quiz/QuizStats.jsx:19-79 | all zeros for no history; otherwise the count, the sums, the rounded average, the best streak, the recent average and the per-mode table, whose attempts add up to the count |
| QuizStats.AverageScoreIsPercentage | src/components/quiz/QuizStats.jsx:42 | with plausible records the average score is at most 100 |
| QuizStats.FormatDurationReadsBack | src/components/quiz/QuizStats.jsx:83-88 | the text ends in "m", has an hour part exactly from 3600 seconds, and reads back as the seconds rounded down to a minute |
| Common.RoundPercentIsJsRound | src/components/quiz/QuizStats.jsx:42 | the integer formula equals `Math.round` of the exact percentage |
| Common.RoundPercentAtMost100 | src/store/useAppStore.js:118 | the rounded percentage of a part never exceeds 100 |
| PersonalizedFeedback.FeedbackLevelMonotone | src/components/quiz/PersonalizedFeedback.jsx:7-12 | a higher percentage never gives a lower level; excellent exactly from 90, needs improvement exactly below 60 |
| PersonalizedFeedback.Messages | src/components/quiz/PersonalizedFeedback.jsx:18-39 | every level has three messages |
| PersonalizedFeedback.PersonalizedMessage | src/components/quiz/PersonalizedFeedback.jsx:14-42 | the message is one of the three of the level of the rounded percentage |
| PersonalizedFeedback.Topic | src/components/quiz/PersonalizedFeedback.jsx:49 | the topic is the identifier up to its first underscore, the whole identifier when it has none |
| PersonalizedFeedback.TallyOf | src/components/quiz/PersonalizedFeedback.jsx:51-58 | a topic never has more right answers than answers |
| PersonalizedFeedback.TopicsMeaning | src/components/quiz/PersonalizedFeedback.jsx:45-61 | the listed topics are exactly those answered, each once |
| PersonalizedFeedback.TalliesStep | src/components/quiz/PersonalizedFeedback.jsx:47-59 | one pass of the loop counts one more answer and appends a new topic at the end |
| PersonalizedFeedback.TallyTopics | src/components/quiz/PersonalizedFeedback.jsx:45-59 | the table holds, for each answered topic in first-appearance order, its right answers and its answers |
| PersonalizedFeedback.WeakAreasMeaning | src/components/quiz/PersonalizedFeedback.jsx:61-63 | a topic is weak exactly when answered with under 70% right, and is listed once |
| PersonalizedFeedback.TopicsLength | src/components/quiz/PersonalizedFeedback.jsx:45-61 | there are no more topics than answers |
| PersonalizedFeedback.GetWeakAreas | src/components/quiz/PersonalizedFeedback.jsx:44-64 | the loop's result is the weak-area list |
| PersonalizedFeedback.GetRecommendations | src/components/quiz/PersonalizedFeedback.jsx:66-107 | a recommendation is listed exactly when its check fires, each at most once, in the fixed order |
| PersonalizedFeedback.BankIdsOnlyRecommendFundamentals | src/components/quiz/PersonalizedFeedback.jsx:44-95 | with the bank's identifiers ("g1", "c4") no topic is "gravity", "g", "compact", "c", "orbits" or "o", so only the fundamentals recommendation can fire |
| PersonalizedFeedback.TopicsAreIds | src/components/quiz/PersonalizedFeedback.jsx:49 | with two-letter identifiers without underscore every topic is two letters long |
| PersonalizedFeedback.BankIdsHaveNoUnderscore | src/data/quizQuestions.js:29-348 | every bank identifier is two characters without underscore |
| PersonalizedFeedback.GetAchievements | src/components/quiz/PersonalizedFeedback.jsx:109-147 | an achievement is listed exactly when its check holds, at most four |
| PersonalizedFeedback.PerfectScoreMeansAllCorrect | src/components/quiz/PersonalizedFeedback.jsx:137-144 | below 200 questions the perfect-score badge is earned exactly when every answer is right |
| Common.RoundPercentIs100 | src/components/quiz/PersonalizedFeedback.jsx:137-138 | the rounded percentage is 100 exactly when at least 199/200 of the questions are right |
| QuizDashboard.TabAfterQuery | src/pages/QuizDashboard.jsx:17-23 | only "overview" and "rewards" replace the active tab; anything else keeps it |
| QuizDashboard.TabStaysKnown | src/pages/QuizDashboard.jsx:14-23 | starting from a real tab, no query string leads anywhere else |
| QuizDashboard.TodayPerformance | src/pages/QuizDashboard.jsx:34-52 | nothing exactly when no quiz finished today; otherwise the number of today's quizzes, which is positive |
| QuizDashboard.OtherDaysIgnored | src/pages/QuizDashboard.jsx:38-40 | a quiz of another day changes nothing about today |
| QuizDashboard.TodayPercentageAtMost100 | src/pages/QuizDashboard.jsx:44-48 | with plausible records the day's percentage is at most 100 |
| QuizDashboard.TotalsOfMeaning | src/pages/QuizDashboard.jsx:60-67 | a mode's entry sums right answers and questions over that mode's quizzes |
| QuizDashboard.ModesMeaning | src/pages/QuizDashboard.jsx:60-67 | the keys are the modes of the quizzes, each once |
| QuizDashboard.TotalsStep | src/pages/QuizDashboard.jsx:61-67 | one pass adds one quiz to its mode's totals and appends a new mode at the end |
| QuizDashboard.TotalsUnseen | src/pages/QuizDashboard.jsx:62-64 | a mode not yet seen has zero totals |
| QuizDashboard.TotalModes | src/pages/QuizDashboard.jsx:60-67 | one entry per mode in first-appearance order, holding that mode's totals |
| QuizDashboard.WeakestIsLowest | src/pages/QuizDashboard.jsx:70-79 | the scan's lowest ratio is at most 1 and at most every mode's ratio |
| QuizDashboard.WeakestIsFirst | src/pages/QuizDashboard.jsx:70-79 | the pick stays quick10 unless some ratio is below 1; then it is the first mode in key order with the lowest ratio |
| QuizDashboard.WeakestIsAKey | src/pages/QuizDashboard.jsx:70-79 | the pick is the starting one or a key with that ratio |
| QuizDashboard.GetRecommendedQuiz | src/pages/QuizDashboard.jsx:54-85 | quick10 with the welcome text for a new player; otherwise the scan's pick and a reason naming its title |
| QuizDashboard.PerfectModeNeverPicked | src/pages/QuizDashboard.jsx:71-75 | a mode whose quizzes were all right is never recommended, because its ratio 1 is not below the starting 1 |
| QuizDashboard.ModeHistoryAllCorrect | src/pages/QuizDashboard.jsx:65-66 | all right answers in a mode make its two totals equal |
| QuizLeaderboard.MockNotCurrent | src/components/quiz/QuizLeaderboard.jsx:9-18 | no mock entry is the player's and none has the mode "all" |
| QuizLeaderboard.LeaderboardData | src/components/quiz/QuizLeaderboard.jsx:20-30 | the mock entries in order, followed by the player's entry (mode "all", the total points) exactly when the player has points; no other entry is the player's |
| QuizLeaderboard.ShownAreFiltered | src/components/quiz/QuizLeaderboard.jsx:33-34 | every shown entry passed the mode filter |
| QuizLeaderboard.FilteredDataSorted | src/components/quiz/QuizLeaderboard.jsx:33-36 | at most ten entries are shown, by non-increasing score |
| QuizLeaderboard.FilteredDataFrom | src/components/quiz/QuizLeaderboard.jsx:20-36 | each shown entry matches the selected mode and is a mock entry or the player's own |
| QuizLeaderboard.PlayerOnlyUnderAll | src/components/quiz/QuizLeaderboard.jsx:27-34 | under any mode but "all" the player's entry is never shown |
| QuizLeaderboard.PlayerShownUnderAll | src/components/quiz/QuizLeaderboard.jsx:20-36 | under "all" a player with points is always shown, since the top-ten cut cannot drop one of nine entries |
| QuizLeaderboard.RankIcon | src/components/quiz/QuizLeaderboard.jsx:46-53 | a single medal character for ranks 1 to 3, "#" and the rank otherwise |
| QuizLeaderboard.RankIconInjective | src/components/quiz/QuizLeaderboard.jsx:46-53 | distinct ranks get distinct icons |
| QuizLeaderboard.YourPositionIsAlwaysNine | src/components/quiz/QuizLeaderboard.jsx:133-140 | the "Your Position" rank is the index in the unsorted list, so it is 9 for every player with points |
| UserLeaderboard.FilteredAttempts | src/components/quiz/UserLeaderboard.jsx:21-23 | a reordering of the attempts of the selected mode, by non-increasing score; an attempt is shown exactly when it is in the history and in the mode |
| UserLeaderboard.TotalAttemptsCountsMode | src/components/quiz/UserLeaderboard.jsx:156-158 | "Total Attempts" counts the history's attempts in the selected mode |
| UserLeaderboard.AllModesShowsEverything | src/components/quiz/UserLeaderboard.jsx:21-23 | under "all" every attempt is listed, each as often as in the history |
| UserLeaderboard.BestScoreIsFirstShown | src/components/quiz/UserLeaderboard.jsx:138-140 | the best score is the first shown attempt's score and no attempt of the mode scores higher |
| UserLeaderboard.BestStreakOfShown | src/components/quiz/UserLeaderboard.jsx:144-146 | the best streak bounds every shown attempt's streak and is one of them |
| UserLeaderboard.BestAccuracy | src/components/quiz/UserLeaderboard.jsx:150-152 | defined exactly when every attempt has an accuracy, and then bounds each of them and is one of them |
| UserLeaderboard.BestAccuracyAtMost100 | src/components/quiz/UserLeaderboard.jsx:150-152 | with plausible attempts the best accuracy is at most 100 |
| Markdown.Split | src/components/ui/MarkdownRenderer.jsx:7 | at least one piece, none holding the separator |
| Markdown.SplitJoin | src/components/ui/MarkdownRenderer.jsx:7 | joining the pieces with the separator gives back the text |
| Markdown.JoinSplit | src/components/ui/MarkdownRenderer.jsx:7 | pieces without the separator split back into themselves |
| Markdown.KindOf | src/components/ui/MarkdownRenderer.jsx:14-70 | the branch a line takes, in the renderer's order: a header level 1 to 3 needs its marker and a space, a list line its two-character marker |
| Markdown.Structural | src/components/ui/MarkdownRenderer.jsx:14-56 | a header, list or rule line yields its own element, never a paragraph; a text line yields none |
| Markdown.RenderLine | src/components/ui/MarkdownRenderer.jsx:12-72 | one pass of the loop body over the element list and the paragraph buffer is one step of the reference fold |
| Markdown.RenderContent | src/components/ui/MarkdownRenderer.jsx:6-78 | the elements are those of the reference fold over the lines, with the last paragraph flushed |
| Markdown.RenderLines | src/components/ui/MarkdownRenderer.jsx:12-76 | the loop over the lines, with the final flush, gives exactly the elements of the reference fold |
| Markdown.StepKeepsText | src/components/ui/MarkdownRenderer.jsx:58-70 | a text line joins the paragraph text; no other line does |
| Markdown.FoldKeepsText | src/components/ui/MarkdownRenderer.jsx:12-72 | the text lines so far are the flushed paragraphs' lines followed by the buffer |
| Markdown.FoldKeepsBlocks | src/components/ui/MarkdownRenderer.jsx:12-72 | the non-paragraph elements so far are one per header, list or rule line, in order |
| Markdown.FoldKeepsParagraphs | src/components/ui/MarkdownRenderer.jsx:12-72 | no flushed paragraph is empty and the buffer holds only text lines |
| Markdown.RenderKeepsEverything | src/components/ui/MarkdownRenderer.jsx:6-78 | no line is lost: the paragraphs hold exactly the text lines in order, every header, list and rule line yields its element in order, and no paragraph is empty |
| Markdown.OwnElement | src/components/ui/MarkdownRenderer.jsx:14-63 | a line adds at most one element of its own, and a text line none |
| Markdown.RenderSplitsAtBreak | src/components/ui/MarkdownRenderer.jsx:14-63 | at a header, list, rule or blank line the pending paragraph is emitted: the output is what the earlier lines render to, the line's own element, then what the later lines render to |
| Markdown.RunBetweenBreaksIsOneParagraph | src/components/ui/MarkdownRenderer.jsx:15-18 | a run of text lines between two non-text lines becomes exactly one paragraph, placed between the two lines' own elements |
| Markdown.PlainTextIsOneParagraph | src/components/ui/MarkdownRenderer.jsx:66-76 | a text of only text lines renders as one paragraph holding all of them |
| Markdown.CloseAt | src/components/ui/MarkdownRenderer.jsx:83-85 | the lazy match ends at an occurrence of the delimiter |
| Markdown.CloseAtSameLine | src/components/ui/MarkdownRenderer.jsx:83-85 | no line terminator comes before the occurrence where the lazy match ends, as `.` does not match one |
| Markdown.CloseAtFirst | src/components/ui/MarkdownRenderer.jsx:83-85 | the occurrence where the lazy match ends is the first one |
| Markdown.ShortestMatch | src/components/ui/MarkdownRenderer.jsx:83-85 | a delimiter, plain text and the next delimiter become one tagged span, and the scan goes on behind it |
| Markdown.NoStars | src/components/ui/MarkdownRenderer.jsx:81-87 | text without a star is left as it is |
| Markdown.BoldSpan | src/components/ui/MarkdownRenderer.jsx:83-85 | a bold span becomes a strong element and the italic pass leaves it alone |
| Markdown.TwoBoldSpans | src/components/ui/MarkdownRenderer.jsx:83 | two bold spans on one line stay two spans |
| Blogs.BlogIdsUnique | src/data/blogs.js:2-276 | no two catalogue posts share an id |
| Blogs.NewestFirstOrder | src/data/blogs.js:279-281 | sorting newest first orders by non-increasing date, keeps the same posts and is idempotent |
| Blogs.ByIdIgnoresOrder | src/data/blogs.js:284-286 | with unique ids, the post found for an id does not depend on the array's order |
| Blogs.BlogStore.constructor | src/data/blogs.js:2 | the shared array starts as the catalogue |
| Blogs.BlogStore.GetAllBlogs | src/data/blogs.js:279-281 | sorts the shared array in place, newest first, and returns it |
| Blogs.BlogStore.GetBlogById | src/data/blogs.js:284-286 | a post with that id from the array, and nothing exactly when no post has the id |
| Blogs.BlogStore.GetBlogsByCategory | src/data/blogs.js:289-291 | the posts of the category in the array's order, each exactly as often as it occurs in the array |
| Blogs.CategoryCounts | src/data/blogs.js:289-291 | each post occurs in the filtered list as often as in the array when it has the category, and never otherwise |
| Blogs.CategoryKeepsOrder | src/data/blogs.js:289-291 | filtering a concatenation concatenates the filtered parts, so the relative order is kept |
| Blogs.BlogStore.GetRecentBlogs | src/data/blogs.js:294-296 | sorts the shared array as the full listing does and returns its first posts up to the limit |
| Blogs.RecentAreNewest | src/data/blogs.js:294-296 | the recent posts number the smaller of the limit and the posts, and none left out is newer than one returned |
| Definitions.FilteredDefinitions | src/pages/DefinitionsPage.jsx:130-135 | a definition is shown exactly when it matches the search and the category |
| Definitions.FilterKeepsOrder | src/pages/DefinitionsPage.jsx:130-135 | the filter keeps the definitions' relative order |
| Definitions.EmptySearchShowsAll | src/pages/DefinitionsPage.jsx:130-135 | with no search text and every category, every definition is shown |
| Definitions.SearchIgnoresCase | src/pages/DefinitionsPage.jsx:131-132 | the search ignores the case of the search text |
| Definitions.LongerSearchNarrows | src/pages/DefinitionsPage.jsx:131-132 | a longer search text never shows more |
| Definitions.ListedCategoryHasName | src/pages/DefinitionsPage.jsx:217 | a listed category gets its listed name, never the fallback |
| Definitions.GlossaryCategoriesListed | src/pages/DefinitionsPage.jsx:7-128 | every glossary entry's category is listed, so no card shows the fallback |
| ContentRecommendations.RuleAt | src/components/ui/ContentRecommendations.jsx:11-95 | the k-th suggestion in the order the pushes are written |
| ContentRecommendations.FiredUpToMeaning | src/components/ui/ContentRecommendations.jsx:11-95 | the first k pushes give exactly the applicable suggestions among them, each once, in push order |
| ContentRecommendations.FiredMeaning | src/components/ui/ContentRecommendations.jsx:11-95 | the candidate list holds exactly the applicable suggestions, each once, in push order |
| ContentRecommendations.Candidates | src/components/ui/ContentRecommendations.jsx:8-96 | the conditional pushes build the candidate list of the reference definition |
| ContentRecommendations.Recommendations | src/components/ui/ContentRecommendations.jsx:7-99 | at most three applicable suggestions, by priority with ties in push order, and none left out has a lower priority number than one shown |
| ContentRecommendations.TopThreeFrom | src/components/ui/ContentRecommendations.jsx:98 | the first three of the sorted list come from it, and one left out ranks no better than any of them |
| ContentRecommendations.AtMostOneLevelUp | src/components/ui/ContentRecommendations.jsx:11-29 | at most one level-up suggestion, and none at the professional level |
| ContentRecommendations.ExclusiveSuggestions | src/components/ui/ContentRecommendations.jsx:32-95 | Earth and compact-object suggestions exclude each other, and so do the two speed suggestions; the gravity-field suggestion comes exactly when the field is off and the object is not compact; the distance one exactly beyond a light year |
| MiniTasks.AvailableIs | src/components/ui/MiniTasks.jsx:85-90 | all six tasks for a compact object, the five others otherwise, in list order |
| MiniTasks.AvailableShape | src/components/ui/MiniTasks.jsx:22-90 | five or six tasks; the time-dilation task is offered exactly for compact objects |
| MiniTasks.Tolerance | src/components/ui/MiniTasks.jsx:100 | a missing or zero tolerance becomes 0.01 |
| MiniTasks.SpeedCompletion | src/components/ui/MiniTasks.jsx:99-101 | a speed task is complete exactly within its tolerance of the target, 0.01 when none is given |
| MiniTasks.EscapeTaskNeverCompletes | src/components/ui/MiniTasks.jsx:104-105 | with the store as it is, the escape-velocity task never completes |
| MiniTasks.HandleTaskAction | src/components/ui/MiniTasks.jsx:128-142 | sets the speed, the gravity flag or the object as the target says, changing nothing else; an escape-velocity target throws; speed and gravity targets are then complete |
| MiniTasks.Panel.constructor | src/components/ui/MiniTasks.jsx:18-19 | no task completed, the first task current |
| MiniTasks.Panel.CheckCurrentTask | src/components/ui/MiniTasks.jsx:93-122 | a completed, not yet recorded current task is recorded and an advance scheduled; nothing happens past the list |
| MiniTasks.Panel.AdvanceAfterDelay | src/components/ui/MiniTasks.jsx:116-120 | the delayed advance tests the index the effect saw and adds one to the index as it is now |
| MiniTasks.Panel.NextTask | src/components/ui/MiniTasks.jsx:144-148 | moves on unless at the last task, never past the list |
| MiniTasks.Panel.PrevTask | src/components/ui/MiniTasks.jsx:150-154 | moves back unless at the first task |
| MiniTasks.StaleAdvanceOvershoots | src/components/ui/MiniTasks.jsx:116-124 | a completion at index 3 of 5 followed by "Next" leaves the index at 5, where there is no current task |
| MiniTasks.CompletionPercentage | src/components/ui/MiniTasks.jsx:126 | never negative; at most 100 exactly when no more tasks were completed than are available, and 100 exactly when as many |
| MiniTasks.CompletedAtMostFive | src/components/ui/MiniTasks.jsx:93-122 | while the escape-velocity task is not completed, at most five tasks are |
| MiniTasks.EscapeIdHasEscapeTarget | src/components/ui/MiniTasks.jsx:22-83 | the only task with the escape-velocity id is completed by turning the escape view on |
| MiniTasks.PercentageAtMost100 | src/components/ui/MiniTasks.jsx:22-126 | while the escape-velocity task is not completed, at least five tasks are listed and the percentage is at most 100 |
| MiniTasks.RunEffect | src/components/ui/MiniTasks.jsx:93-126 | the effect, run on the controls the store holds (the escape view is not among them), never records the escape-velocity task and keeps the percentage at most 100 |
| AsteroidDodger.CollisionSymmetricAndStrict | src/components/games/AsteroidDodger.jsx:216-223 | the overlap test is symmetric, and rectangles that only touch do not collide |
| AsteroidDodger.CanvasSize | src/components/games/AsteroidDodger.jsx:590-615 | whole numbers, never below 800 by 500 nor above 2400 by 1600 or the space available, and within one pixel of 16:10 whenever above both minimums |
| AsteroidDodger.CanvasExtent | src/components/games/AsteroidDodger.jsx:590-611 | the computed extent is never below 800 by 500, never above 2400 by 1600 or the space available, and exactly 16:10 whenever above both minimums |
| AsteroidDodger.CanvasDropsFraction | src/components/games/AsteroidDodger.jsx:590-615 | a 1021-pixel container gives an extent of 1011 by 631.875, stored as 1011 by 631 |
| AsteroidDodger.Burst | src/components/games/AsteroidDodger.jsx:201-213 | eight particles at the point, each with full life |
| AsteroidDodger.RemoveAt | src/components/games/AsteroidDodger.jsx:282 | removing at an index drops exactly that element; past the end nothing changes |
| AsteroidDodger.CollideNeedsOverlap | src/components/games/AsteroidDodger.jsx:216-223 | a collision needs the object's top above the craft's bottom |
| AsteroidDodger.AsteroidStepBounds | src/components/games/AsteroidDodger.jsx:276-314 | one visit never adds an asteroid, gains ten points only by removing one, and records a hit only without a shield |
| AsteroidDodger.AsteroidSweepBounds | src/components/games/AsteroidDodger.jsx:276-314 | over the whole forEach the list never grows, every ten points took one asteroid off it, and a shielded craft is never hit |
| AsteroidDodger.OffscreenAsteroidRemoved | src/components/games/AsteroidDodger.jsx:280-284 | an asteroid falling past the bottom edge is removed for ten points and, with the craft on the canvas, does not also collide |
| AsteroidDodger.RemovalSkipsNext | src/components/games/AsteroidDodger.jsx:276-284 | removing during the forEach skips the next asteroid: it is neither moved nor checked that frame |
| AsteroidDodger.Halved | src/components/games/AsteroidDodger.jsx:340-342 | every asteroid at half speed, nothing else changed |
| AsteroidDodger.PowerUpSweepBounds | src/components/games/AsteroidDodger.jsx:317-351 | the power-up list never grows, the asteroid list keeps its length, and a collected shield stays collected |
| AsteroidDodger.ShieldCollected | src/components/games/AsteroidDodger.jsx:326-337 | touching a shield power-up collects the shield |
| AsteroidDodger.ParticleSweepShrinks | src/components/games/AsteroidDodger.jsx:353-362 | the particle list never grows |
| AsteroidDodger.SpawnedPowerUp | src/components/games/AsteroidDodger.jsx:186-196 | a shield or slow-motion power-up with even odds, across the canvas, just above its top |
| AsteroidDodger.SpawnedAsteroid | src/components/games/AsteroidDodger.jsx:162-178 | size in [20, 50) just above the canvas, speed in [2, 5) inside and [3, 8) outside, no rotation yet and a spin below 0.1 either way |
| AsteroidDodger.NewAsteroids | src/components/games/AsteroidDodger.jsx:364-367 | one new asteroid exactly when the roll is under 0.02 inside or 0.04 outside, otherwise none |
| AsteroidDodger.NewPowerUps | src/components/games/AsteroidDodger.jsx:182-198 | one new power-up exactly when the frame roll is under 0.005 and the spawn roll under 0.3, otherwise none |
| AsteroidDodger.SweepFrame | src/components/games/AsteroidDodger.jsx:276-362 | the asteroid, power-up and particle sweeps in order: every ten points took one asteroid off, no list grows, and a shielded craft is never hit |
| AsteroidDodger.AxisStepBounds | src/components/games/AsteroidDodger.jsx:234-265 | on one axis a step stays on the canvas and moves at most one step; with no key held nothing moves; one key held gives the clamped step that way |
| AsteroidDodger.TouchedArrows | src/components/games/AsteroidDodger.jsx:115-137 | left exactly when the touch is left of the centre, right when right of it, up when above, down when below, and no other key |
| AsteroidDodger.HoldAll | src/components/games/AsteroidDodger.jsx:115-137 | every touched key is held and every other key keeps its state |
| AsteroidDodger.HoldOneMore | src/components/games/AsteroidDodger.jsx:115-137 | holding the keys one after another is holding them all at once |
| AsteroidDodger.Game.constructor | src/components/games/AsteroidDodger.jsx:11-34 | the menu, the stored high score, the inner system, the craft at the origin and nothing on screen |
| AsteroidDodger.Game.Resize | src/components/games/AsteroidDodger.jsx:590-617 | the canvas takes the size computed from the container and the window |
| AsteroidDodger.Game.SetDifficulty | src/components/games/AsteroidDodger.jsx:16 | the difficulty becomes the chosen one |
| AsteroidDodger.Game.InitGame | src/components/games/AsteroidDodger.jsx:70-85 | the craft centred near the bottom and on the canvas, the shield down, the three lists empty, the score zero and the fact hidden; nothing else changes |
| AsteroidDodger.Game.StartGame | src/components/games/AsteroidDodger.jsx:628-632 | a fresh game, playing, with the high score kept |
| AsteroidDodger.Game.RestartGame | src/components/games/AsteroidDodger.jsx:634-660 | back to the menu with everything cleared before the delayed start |
| AsteroidDodger.Game.KeyDown | src/components/games/AsteroidDodger.jsx:88-99 | the key is held; the space bar pauses a running game and resumes a paused one and changes no other state |
| AsteroidDodger.Game.KeyUp | src/components/games/AsteroidDodger.jsx:101-103 | the key is released |
| AsteroidDodger.Game.TouchStart | src/components/games/AsteroidDodger.jsx:115-137 | while playing, exactly the arrow keys toward the touch point from the craft's centre are set held and the other keys keep their state; otherwise nothing changes |
| AsteroidDodger.Game.TouchEnd | src/components/games/AsteroidDodger.jsx:139-144 | the four arrow keys are released |
| AsteroidDodger.Game.MovePlayer | src/components/games/AsteroidDodger.jsx:234-265 | each axis takes the clamped step of the keys held on it; a craft on the canvas stays on it and moves at most one step on each axis |
| AsteroidDodger.Game.Advance | src/components/games/AsteroidDodger.jsx:234-273 | the craft takes the clamped step of the held keys and a shield stays up only with frames left, the craft staying on the canvas |
| AsteroidDodger.Game.UpdateShield | src/components/games/AsteroidDodger.jsx:267-273 | a raised shield loses one frame and drops when none is left |
| AsteroidDodger.Game.UpdateAsteroids | src/components/games/AsteroidDodger.jsx:276-314 | the asteroid sweep; an unshielded hit ends the game, shows the fact and raises the high score to the frame's score when higher; the score never drops |
| AsteroidDodger.Game.UpdatePowerUps | src/components/games/AsteroidDodger.jsx:317-351 | the power-up sweep; a collected shield is raised for 300 frames |
| AsteroidDodger.Game.UpdateParticles | src/components/games/AsteroidDodger.jsx:353-362 | the particle sweep; the list never grows |
| AsteroidDodger.Game.SpawnAsteroid | src/components/games/AsteroidDodger.jsx:162-179 | appends exactly the asteroid its rolls describe: size in [20, 50), speed in [2, 5) inside and [3, 8) outside, just above the canvas |
| AsteroidDodger.Game.SpawnPowerUp | src/components/games/AsteroidDodger.jsx:182-198 | three times in ten one power-up appended, otherwise none |
| AsteroidDodger.Game.UpdateGame | src/components/games/AsteroidDodger.jsx:226-383 | nothing changes unless playing; while playing, the asteroid, power-up and particle lists, the score and the state are exactly those of the three sweeps plus the spawns, and the game ends exactly on a hit; the score and the high score never drop; the craft stays on the canvas |
| AsteroidDodger.Game.PlayFrame | src/components/games/AsteroidDodger.jsx:232-372 | after the craft moves, one playing frame leaves exactly the lists the three sweeps give plus the spawned objects, the score plus the sweeps' points, and an ended game exactly when the sweeps report a hit; no score drops |
| AsteroidDodger.Game.Sweeps | src/components/games/AsteroidDodger.jsx:276-362 | the lists, the score, the state, the fact and the high score are exactly those the three sweeps give; a collected shield is raised for its full time, otherwise the shield is untouched |
| AsteroidDodger.Game.Spawns | src/components/games/AsteroidDodger.jsx:364-372 | appends exactly the asteroid and the power-up the rolls call for: an asteroid two times in a hundred (four outside), a power-up when a one-in-two-hundred roll and a three-in-ten roll both succeed |
| UserSetup.ValidateWith | src/components/quiz/UserSetup.jsx:13-21 | empty exactly for a name of spaces, short exactly when the trimmed name is one UTF-16 code unit long, accepted otherwise as the trimmed name with no space at either end |
| UserSetup.TrimmedEnds | src/components/quiz/UserSetup.jsx:18 | a trimmed text has no space at either end |
| UserSetup.TrimTrimmed | src/components/quiz/UserSetup.jsx:18 | trimming a trimmed text changes nothing |
| UserSetup.TrimmedNameAccepted | src/components/quiz/UserSetup.jsx:13-28 | a stored name of two or more UTF-16 code units is accepted unchanged when submitted again |
| UserSetup.AstralCharacterIsLongEnough | src/components/quiz/UserSetup.jsx:18 | a name of one character outside the basic plane counts two code units and is accepted |
| UserSetup.SingleLetterIsShort | src/components/quiz/UserSetup.jsx:18 | a one-letter name is rejected as too short |
| UserSetup.Renamed | src/components/quiz/UserSetup.jsx:24-28 | the user keeps every field but the new name and level |
| UserSetup.OrDefault | src/components/quiz/UserSetup.jsx:6-7 | an empty or missing value falls back to the default |
| UserSetup.SetupForm.constructor | src/components/quiz/UserSetup.jsx:6-8 | the fields start from the stored user, or empty and "student", with no error |
| UserSetup.SetupForm.EditName | src/components/quiz/UserSetup.jsx:75-78 | typing sets the name and clears the error |
| UserSetup.SetupForm.ChooseLevel | src/components/quiz/UserSetup.jsx:98 | the level becomes the chosen one |
| UserSetup.SetupForm.Submit | src/components/quiz/UserSetup.jsx:10-31 | completes exactly for a valid name, storing the trimmed name and level and marking the user set up; otherwise only the error changes |
| Exoplanets.OrElse | src/components/visualization/ExoplanetCharts.jsx:36 | a missing or empty text falls back, any other is kept |
| Exoplanets.Methods | src/components/visualization/ExoplanetCharts.jsx:42-43 | one method key per row, in row order, "Unknown" for a row without one |
| Exoplanets.TallySnoc | src/components/visualization/ExoplanetCharts.jsx:44 | counting one more key bumps that key's entry |
| Exoplanets.BumpMeaning | src/components/visualization/ExoplanetCharts.jsx:44 | a bump keeps the keys distinct, adds one to that key's count only, adds one to the total and keeps every count positive |
| Exoplanets.TallyMeaning | src/components/visualization/ExoplanetCharts.jsx:41-47 | one entry per distinct key, in first-appearance order, each counting the key's occurrences, the counts adding up to the number of keys |
| Exoplanets.CountMethods | src/components/visualization/ExoplanetCharts.jsx:41-45 | the forEach builds the tally of the rows' method keys |
| Exoplanets.MethodCountsMeaning | src/components/visualization/DataSummary.jsx:53-57 | each method's count is the number of its rows, and the counts add up to the number of rows |
| ExoplanetCharts.RangesPartition | src/components/visualization/ExoplanetCharts.jsx:14-20 | the five ranges are contiguous from 0 upward: a radius lies in a bucket exactly when it is non-negative and the bucket is its own |
| ExoplanetCharts.RadiusDistribution | src/components/visualization/ExoplanetCharts.jsx:22-27 | five counts, one per range |
| ExoplanetCharts.BucketCountsAddUp | src/components/visualization/ExoplanetCharts.jsx:22-27 | the five counts add up to the number of rows whose radius compares as a non-negative number |
| ExoplanetCharts.Plot | src/components/visualization/ExoplanetCharts.jsx:30-38 | one point per kept row |
| ExoplanetCharts.PlotAppend | src/components/visualization/ExoplanetCharts.jsx:30-38 | plotting goes row by row: the points of joined rows are the joined points |
| ExoplanetCharts.PlotMembership | src/components/visualization/ExoplanetCharts.jsx:30-38 | a point is plotted exactly when some kept row maps to it |
| ExoplanetCharts.MethodColour | src/components/visualization/ExoplanetCharts.jsx:50-56 | grey for every method outside the table, and for "Unknown" |
| ExoplanetCharts.MethodBars | src/components/visualization/ExoplanetCharts.jsx:47-57 | one bar per tally entry, in order, with its method, count and colour |
| ExoplanetCharts.YearsOf | src/components/visualization/ExoplanetCharts.jsx:72-76 | the truthy discovery years, each a year of some row |
| ExoplanetCharts.CountYears | src/components/visualization/ExoplanetCharts.jsx:71-77 | the forEach builds the tally of the truthy years |
| ExoplanetCharts.TimelineMeaning | src/components/visualization/ExoplanetCharts.jsx:79-81 | strictly increasing years, each counting the rows discovered that year, the counts adding up to the rows with a year |
| ExoplanetCharts.ChartData | src/components/visualization/ExoplanetCharts.jsx:10-90 | nothing for missing or empty rows; otherwise the five series as the reference definitions give them |
| DataSummary.Values | src/components/visualization/DataSummary.jsx:17 | one value per row, in row order |
| DataSummary.MedianBetween | src/components/visualization/DataSummary.jsx:19 | the median is one of the values and lies between the least and the greatest |
| DataSummary.MeanWithin | src/components/visualization/DataSummary.jsx:18 | the mean of values within bounds lies within them |
| DataSummary.MeanBetween | src/components/visualization/DataSummary.jsx:18 | the mean lies between the least and the greatest value |
| DataSummary.SpreadOf | src/components/visualization/DataSummary.jsx:17-28 | the minimum, median, mean and maximum are ordered and bound every value |
| DataSummary.Temperatures | src/components/visualization/DataSummary.jsx:37 | at most one temperature per row |
| DataSummary.HeatOf | src/components/visualization/DataSummary.jsx:38-41 | all zero without temperatures; otherwise the coldest, the mean and the hottest are ordered, the extremes are taken values, and every temperature lies between them |
| DataSummary.ClassesDisjoint | src/components/visualization/DataSummary.jsx:44-47 | the four size classes do not overlap, so together they count at most every row |
| DataSummary.FoundWhereTaken | src/components/visualization/DataSummary.jsx:60-62 | a value taken from a column is found on some row |
| DataSummary.Summarize | src/components/visualization/DataSummary.jsx:4-64 | nothing for missing or empty rows; otherwise the statistics with the method tally |
| DataSummary.FailsIffNoValidRow | src/components/visualization/DataSummary.jsx:8-19 | the panel fails exactly when no row has a truthy radius, mass and distance |
| DataSummary.SummaryBounds | src/components/visualization/DataSummary.jsx:13-62 | complete rows at most all rows, size classes and massive planets at most the complete rows, medians and means between their extremes, and the extreme rows exist and carry the extreme values |
| DataSummary.NoTemperatures | src/components/visualization/DataSummary.jsx:37-63 | without temperatures the figures are 0 and the hottest row is the first whose temperature is exactly 0 |
| LearningProgress.ObjectKey | src/components/ui/LearningProgress.jsx:19 | the lower-cased name with white space removed: no longer than the name, and free of white space and upper-case letters |
| LearningProgress.RemoveSpacesKeeps | src/components/ui/LearningProgress.jsx:19 | removing white space only keeps characters of its input |
| LearningProgress.RemoveSpacesFixed | src/components/ui/LearningProgress.jsx:19 | a text without white space is left as it is |
| LearningProgress.ObjectKeyIdempotent | src/components/ui/LearningProgress.jsx:19 | a key is its own key, so names with the same key count as one object |
| LearningProgress.ConceptsFor | src/components/ui/LearningProgress.jsx:41-54 | two concepts for eli12, three for student and for pro, none for any other level |
| LearningProgress.ConceptsForWithin | src/components/ui/LearningProgress.jsx:41-54 | every level's concepts are among the eight |
| LearningProgress.LevelOf | src/components/ui/LearningProgress.jsx:73-76 | Beginner exactly below 20, Explorer from 20 below 50, Scientist from 50 below 100, Expert from 100 |
| LearningProgress.LevelMonotone | src/components/ui/LearningProgress.jsx:68-77 | a higher score never gives a lower level |
| LearningProgress.ScoreMonotone | src/components/ui/LearningProgress.jsx:69-71 | more objects, concepts or time never lower the score |
| LearningProgress.Completion | src/components/ui/LearningProgress.jsx:80 | between 0 and 100, exactly 100 from seven objects on, and the share of seven below that |
| LearningProgress.CompletionMonotone | src/components/ui/LearningProgress.jsx:80 | collecting objects never lowers the completion |
| LearningProgress.Progress.constructor | src/components/ui/LearningProgress.jsx:6-13 | Earth explored and nothing else |
| LearningProgress.Progress.SelectObject | src/components/ui/LearningProgress.jsx:18-25 | the object's key joins the set and the interaction count grows by one; the score does not drop and Earth stays explored |
| LearningProgress.Progress.Tick | src/components/ui/LearningProgress.jsx:28-37 | the whole seconds elapsed since the panel appeared |
| LearningProgress.Progress.LearnConcepts | src/components/ui/LearningProgress.jsx:40-60 | the level's concepts join the set; the score does not drop and only the eight concepts are ever learned |
| LearningProgress.ValidBounds | src/components/ui/LearningProgress.jsx:6-80 | a valid record scores at least 10, holds at most eight concepts and is at least a seventh complete |
| ResponsiveLayout.Initial | src/components/responsive/ResponsiveLayout.jsx:5-11 | the window's size, or 1024 by 768 without a window, with no flag on |
| ResponsiveLayout.Measured | src/components/responsive/ResponsiveLayout.jsx:14-25 | mobile exactly below 768, tablet from 768 below 1024, desktop from 1024 |
| ResponsiveLayout.MeasuredExactlyOne | src/components/responsive/ResponsiveLayout.jsx:5-25 | after a measurement exactly one flag is on; before it none |
| ResponsiveLayout.LayoutClasses | src/components/responsive/ResponsiveLayout.jsx:40-48 | the mobile, tablet or desktop classes, desktop when no flag is on |
| ResponsiveLayout.LayoutFollowsWidth | src/components/responsive/ResponsiveLayout.jsx:14-48 | once measured the layout follows the width; before, it is the desktop layout |
| ResponsiveLayout.MobilePanel | src/components/responsive/ResponsiveLayout.jsx:58-61 | the children as they are off mobile, the collapsible panel on mobile |
| ResponsiveLayout.GridColumns | src/components/responsive/ResponsiveLayout.jsx:92-100 | 2 columns on mobile, 3 on a tablet, 4 otherwise |
| ResponsiveLayout.GridClassesNameColumns | src/components/responsive/ResponsiveLayout.jsx:92-100 | the grid classes name the column count and a gap of the same size |
| ResponsiveLayout.GridFollowsWidth | src/components/responsive/ResponsiveLayout.jsx:14-100 | once measured, 2 columns below 768, 3 below 1024 and 4 from there on |
| ResponsiveLayout.ItemClasses | src/components/responsive/ResponsiveLayout.jsx:102-109 | the base classes, a space, then the active classes exactly for the selected item |
| ResponsiveLayout.AtMostOneActive | src/components/responsive/ResponsiveLayout.jsx:104 | with distinct ids at most one item is highlighted, and it is the selected one |
| ResponsiveLayout.Navigation | src/components/responsive/ResponsiveLayout.jsx:133-181 | a tab bar exactly on mobile, a sidebar otherwise, one highlight per page, on exactly for the current one |
| ResponsiveLayout.FactPanel | src/components/responsive/ResponsiveLayout.jsx:184-228 | full screen with the larger text exactly on mobile, a side panel otherwise |
| SceneQuiz.Asked | src/components/quiz/SceneQuiz.jsx:12-25 | a scene question is asked exactly when it needs no visualisation or its visualisation is on |
| SceneQuiz.StoreAsksAtMostGravity | src/components/quiz/SceneQuiz.jsx:6-25 | with the store's toggles the escape-velocity question is never asked: only the gravity question, when that field is on |
| SceneQuiz.AnswerFor | src/components/quiz/SceneQuiz.jsx:28-36 | correct exactly for the question's own answer, earning its points then and 0 otherwise |
| SceneQuiz.Finish | src/components/quiz/SceneQuiz.jsx:51-58 | the score with the last points, the answers with the last record listed once more, and the correct answers counted over that list |
| SceneQuiz.LastAnswerCountedTwice | src/components/quiz/SceneQuiz.jsx:54-57 | a correct last answer is counted twice, and the result lists one answer more than there are questions |
| SceneQuiz.AllCorrectOvercounts | src/components/quiz/SceneQuiz.jsx:56 | all answers right gives one more correct answer than questions |
| SceneQuiz.Quiz.constructor | src/components/quiz/SceneQuiz.jsx:7-25 | the asked questions, the first one current, no answers and no score |
| SceneQuiz.Quiz.Regenerate | src/components/quiz/SceneQuiz.jsx:12-25 | the question list is replaced and nothing else is reset |
| SceneQuiz.Quiz.HandleAnswer | src/components/quiz/SceneQuiz.jsx:27-61 | the record is stored at the current index and the score grows by its points; before the last question the index moves on with no result, at the last the result is built from the score before the answer |
| Sorting.SortBy | src/components/quiz/QuizLeaderboard.jsx:35 | the result is sorted by the key, as long as the input and a reordering of it |
| Sorting.SortByStable | src/components/ui/ContentRecommendations.jsx:98 | elements with equal keys keep their relative order |
| Sorting.SortBySorted | src/data/blogs.js:280 | sorting an already sorted list changes nothing |
| Sorting.SortByIdempotent | src/data/blogs.js:280 | sorting twice gives what sorting once gives |
| Sorting.SortedHeadIsLeast | src/components/quiz/UserLeaderboard.jsx:23 | the first element of a sorted non-empty list has the least key |
| Sorting.SortByKeepsTies | src/components/ui/ContentRecommendations.jsx:98 | elements of equal key stay in their input order, stated by position |
| Sorting.SortBySum | src/components/visualization/ExoplanetCharts.jsx:79-81 | sorting keeps the sum of any measure of the elements |
| Sorting.SortByKeepsDistinct | src/components/visualization/ExoplanetCharts.jsx:79-81 | distinct keys stay distinct, so the sorted list is strictly increasing by key |
| Common.ToLower | src/pages/AIChatPage.jsx:119 | the text of the same length with each letter lower-cased |
| Common.ToLowerIdempotent | src/pages/AIChatPage.jsx:119 | lower-casing twice gives what lower-casing once gives |
| Common.ContainsIff | src/pages/AIChatPage.jsx:122 | a substring is found exactly when it occurs at some position |
| Common.TrimShape | src/components/quiz/UserSetup.jsx:13 | the trimmed text is a slice of the text with only spaces around it and none at its ends |
| Common.TrimEmptyIff | src/components/quiz/UserSetup.jsx:13 | trimming leaves nothing exactly when the text is all spaces |
| Common.RemoveSpaces | src/components/ui/LearningProgress.jsx:19 | exactly the characters of its input that are not JavaScript white space, in order |
| Common.Find | src/data/blogs.js:285 | the first element that passes the test, and nothing exactly when no element passes |
| Common.Utf16Length | src/components/quiz/UserSetup.jsx:18 | between one and two code units per character |
| Common.Utf16LengthOfBasic | src/components/quiz/UserSetup.jsx:18 | a text of Basic Multilingual Plane characters has one code unit per character |
| Common.FindIndex | src/components/quiz/QuizLeaderboard.jsx:140 | the first index passing the test, or -1 exactly when none does |
| Common.Take | src/data/blogs.js:295 | the first elements, as many as asked for or the whole list |

## Left out

- The relay's health endpoint, HTTP framing and CORS are not modelled. Only the request and response values of the chat and provider routes are.
- The network, timers, the clock and randomness are parameters. This covers the relay's posts, the probe result, elapsed seconds, the completion day, shuffle indices, message picks and the game's dice. Concurrency and the real timing of `setTimeout` and `setInterval` are not modelled.
- Numbers are exact integers and reals, not IEEE doubles. Rounding is modelled where the source rounds (`Math.round`, `Math.floor`). `toFixed` and `toLocaleString` formatting is not modelled.
- Lower-casing and white space cover ASCII letters and the JavaScript white-space set. Unicode case mapping is not modelled.
- Rendering is not modelled. This covers JSX markup, CSS classes (except the ones the responsive helpers compute), icons, colours other than the method colour table, and animation.
- Question wording, answer options, explanations, definition and blog texts are not modelled. Questions keep their identifiers, types, answers, topics, points and scene toggles.
- Estimation and unit questions (free numeric answers) are not modelled. `handleAnswer` covers the discrete question types.
- `avgTimePerQuestion` of a quiz result is not modelled.
- `completedAt` is kept only as the day number it falls on.
- Object keys that look like integers are not modelled. JavaScript would list them before other keys in `Object.entries`; the tallies here use first-appearance order.
- The store is modelled as one object. Aliasing of its records between components, and React's re-render scheduling, are not modelled.
- The celestial-body catalogue is a parameter of the store.
- `generateContent` in the store is not modelled: no modelled code calls it.
- JavaScript default parameters are not modelled. Callers pass every argument, e.g. the blog limit of 2, or the mode "quick10" and the level "student" of the question generator.
- QuizStats.PerformanceTrend: requires that the recent quizzes it divides by have questions. Every producer of a result records at least one.
- PersonalizedFeedback.Percentage: requires a quiz with questions, as the page only shows feedback for a finished quiz. PersonalizedMessage and GetAchievements share this requirement.
- Markdown.RenderContent: the renderer's `inList` flag is set but never read, and is not modelled. Elements are values (paragraph lines, header level and text, list item, rule), not React elements.
- Blogs.BlogStore.GetAllBlogs: the in-place sort is modelled by the sorted sequence it leaves in the shared array.
- QuizDashboard.GetRecommendedQuiz: a ratio that is NaN or infinite is modelled as `None`.
- UserLeaderboard.BestAccuracy: an accuracy that is NaN or infinite is modelled as `None`, and so is the best accuracy then. An empty list gives 0; the page does not show the personal records then.
- QuizLeaderboard.RankIcon: the user leaderboard's `getRankIcon` is the same function and is modelled once, here. The contract states that medals are single characters, not which medal.
- MiniTasks.EscapeTaskNeverCompletes: the store has no escape-velocity flag or toggle, so that task never completes and its quick action throws. The model reports the throw instead of raising it.
- MiniTasks.StaleAdvanceOvershoots: the delayed advance and "Next" interleave in one fixed order. Other interleavings of the 2-second timer are not modelled.
- MiniTasks.Panel.CheckCurrentTask: task identifiers are an enumeration of the six tasks.
- ContentRecommendations.Recommendations: suggestion texts, titles and icons are not modelled. Each suggestion is its rule.
- AsteroidDodger.Burst: particle velocities only move particles on screen and are not modelled.
- AsteroidDodger.Game.UpdateAsteroids: the fact shown on a crash is an index given as a parameter. It is drawn once per frame even when no crash happens.
- AsteroidDodger.Game.UpdatePowerUps: the 3-second timer that restores the asteroids' speed after a slow-motion power-up is not modelled. Halved gives the slowing itself.
- AsteroidDodger.Game.constructor: the stored high score is an integer. `parseInt` of the stored text and `localStorage` are not modelled.
- AsteroidDodger.SpawnedAsteroid: the contract does not bound the horizontal position, a roll scaled by the canvas width less the size; the bound is non-linear in the rolls.
- AsteroidDodger.Game.PlayFrame: the craft's new position is stated by Advance, which the frame calls first; PlayFrame itself states only that the craft stays on the canvas.
- AsteroidDodger.Game.UpdateGame: the score the crash compares with the high score is the score at the start of the frame, as the `useCallback` closure sees it.
- UserSetup.SetupForm.Submit: re-submitting an accepted name is covered only by TrimmedNameAccepted.
- A non-integer `disc_year` is not modelled: discovery years are integers.
- ExoplanetCharts.MethodColour: a method named like an `Object.prototype` property (for example "constructor") would look up that property. This is not modelled; such a method gets grey.
- ExoplanetCharts.RadiusDistribution: a `null` radius compares as 0 and falls in the first bucket, as in the source. Bucket labels and colours are not modelled.
- DataSummary.Summarize: the statistics are exact reals; their `toFixed` text (two decimals for radius and mass, one for distance, none for temperature) is not modelled.
- DataSummary.NoTemperatures: without temperatures the "hottest" row is the first whose temperature is exactly 0, as the source's `=== 0` lookup finds it.
- LearningProgress.Completion: the percentage is an exact real. The source's floating-point division by 7 is not modelled.
- LearningProgress.Progress.Tick: the elapsed time is a natural number of milliseconds. A clock running backwards is not modelled.
- LearningProgress.Progress.SelectObject: the order in which the mount-time effects run is not modelled. `featuresUsed` and `currentStreak` are never changed by the source and stay at their initial values.
- SceneQuiz.Finish: the result's constant `type` field and the object itself are not modelled. Only its name is kept.
- SceneQuiz.Quiz.HandleAnswer: an answer after the last question is not modelled, since the caller closes the quiz. The page's use of the result is not part of this model.
- ResponsiveLayout.Measured: the resize listener is not modelled. Each measurement is a call.
