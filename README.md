# Sentence quiz: a Dafny model of the quiz core

The application is a browser quiz. Each question is a sentence whose `_`
markers are blanks. The player fills the blanks by picking words, one per
blank, against a 30-second timer. The session scores each submission, moves to
the next question, and at the end shows a results screen. For a logged-in
user it saves progress after every answer and posts the final score to a
leaderboard. The leaderboard can be filtered to the last day, week or month.
A profile page aggregates the user's past attempts.

This project models that core, one Dafny module per source file:

- `App`: the session's three state cells (`currentQuestionIndex`,
  `userAnswers`, `isComplete`) as the class `QuizSession`. Its methods are
  the submit handler, restart and the resume effect. Calls to
  `saveProgress` and `addEntry` are appended to the ghost logs `saves` and
  `entries`.
- `Scoring`: the one scoring rule (exact positional equality, equal length)
  and the count of correct answers.
- `QuestionCard`: the bounded buffer of selected words (class `Card`), the
  Next button, and the wiring from the timer, the word buttons and the
  sentence slots.
- `Timer`: the `timeLeft` cell and one interval callback as `Tick()`, with a
  ghost count of `onTimeUp` calls.
- `SentenceDisplay`, `WordOptions`, `FeedbackScreen`, `Leaderboard`: pure
  functions for what these components show.
- `LeaderboardHook`, `ProgressHook`, `Profile`: the hooks' and the profile's
  state cells (classes), the leaderboard query URL, the record shapes, the
  "latest record or nothing" adoption rule, and the integer statistics.
- `Types`, `Text`, `Sequences`: the shared records (`Question`,
  `UserAnswer`, `User`) and the JavaScript `split`, `join`, `findIndex` and
  `find` that the components use.

Inputs from outside are parameters of the methods that need them: the
logged-in user, the saved progress record, the current page, the lists an
HTTP request returned (`None` when the request or its decoding failed),
whether a POST completed, and the clock. Times are integer milliseconds. The
clock parameter supplies "one calendar month earlier" and `toISOString` as
functions.

Two behaviours of the code are modelled as written and proved:

- After a countdown has run out, it is not reset for the next question.
  `duration` stays 30, and only a change of `duration` resets `timeLeft`.
  Each render passes the timer a new `onTimeUp`, so the interval restarts
  with `timeLeft` still 0. The next question is then submitted, with an
  empty selection, on the first tick (`QuestionCard.ExpiryCarriesOver`).
- The resume effect adopts any saved record. See "Findings".

Two checks one might expect are absent from the code, and the model follows
the code:

- The code has no blank-count check before scoring. A timer expiry submits a
  partial or empty selection, and it is then scored as incorrect.
- Resume does not check that the saved index and answer count agree.

## Model

| member | source | states |
|---|---|---|
| Scoring.IsCorrect | src/App.tsx:76-78 | a submission is correct exactly when it equals the correct answers: the same length and the same word at every position, case-sensitive; a length mismatch is never correct |
| Scoring.Score | src/App.tsx:99 | the number of correct answers is at most the number of answers; it equals that number exactly when every answer is correct, and is 0 exactly when none is |
| Scoring.ScoreAppend | src/App.tsx:86-99 | the score of a concatenation is the sum of the scores, so appending an answer adds its credit |
| App.QuizSession.constructor | src/App.tsx:23-25 | a new session is at index 0 with no answers, not complete, nothing saved or posted |
| App.QuizSession.NextQuestion | src/App.tsx:73-103 | exactly one answer is appended, with the current question's id, the selection and its correctness; earlier answers are unchanged; the index grows by one before the last question, otherwise the session completes with the index unchanged; a save of (index + 1, new answers) is requested iff a user is present; a leaderboard entry with the count of correct answers out of the number of questions is requested only on the last question with a user; in a run the saved index equals the number of answers, and equals the number of questions exactly at completion |
| App.QuizSession.Restart | src/App.tsx:105-109 | index 0, no answers, not complete; nothing saved or posted is withdrawn |
| App.QuizSession.Resume | src/App.tsx:28-33 | with saved progress, on the home page and before completion, the saved index and answers are adopted unchecked; otherwise index and answers are unchanged; completion is never changed |
| App.QuizSession.ResumeUnfinished | src/App.tsx:28-33 | the intended resume: only a record of an unfinished run is adopted, and the run invariant is preserved |
| App.PlayFromRestart | src/App.tsx:73-109 | from a restart, after k of N submissions the index is k with k answers; answer i is for question i with the i-th selection; after N the session is complete with N answers, a score of at most N, and exactly one leaderboard entry requested when a user is present |
| App.FinishedRunIsReadopted | src/App.tsx:28-33 | for any quiz of N >= 1 questions, a logged-in run played to the end whose last save, of index N, completed is resumed after "Try Again" at index N with `isComplete` false, so the page indexes a question that does not exist |
| App.FinishedRunIsNotReadopted | src/App.tsx:28-33 | with the intended resume the same steps leave `isComplete` false and the index on an existing question |
| App.QuizSession.CurrentQuestion | src/App.tsx:74 | the question on screen is one of the quiz's questions; within a run it is the first question not yet answered |
| QuestionCard.BlanksCount | src/components/QuestionCard.tsx:21 | the number of `_` matches is one less than the number of parts the sentence splits into |
| QuestionCard.SlotsMatchBlanks | src/components/QuestionCard.tsx:21 | the count of `_` markers used as the blank count equals the number of slots of the sentence display, one less than the number of split parts |
| QuestionCard.Card.constructor | src/components/QuestionCard.tsx:15-23 | a mounted card has an empty buffer, the blank count of its question, and a 30-second active timer |
| QuestionCard.Card.QuestionChanged | src/components/QuestionCard.tsx:18-23 | a new question empties the buffer and recounts the blanks; the timer's interval restarts but `timeLeft` is kept |
| QuestionCard.Card.SelectWord | src/components/QuestionCard.tsx:25-29 | the word is appended iff fewer words than blanks are selected, otherwise the buffer is unchanged; the buffer never exceeds the blank count |
| QuestionCard.Card.RemoveWord | src/components/QuestionCard.tsx:31-35 | an in-range index yields the buffer without that word, the others in order; an index past the end changes nothing |
| QuestionCard.Card.AllBlanksFilled | src/components/QuestionCard.tsx:41 | in a valid card, the blanks are all filled iff the buffer holds one word per `_` marker of the sentence, which is exactly when no further word can be selected |
| QuestionCard.Card.NextButton | src/components/QuestionCard.tsx:37-41 | the Next button submits the buffer iff every blank is filled, and is disabled otherwise |
| QuestionCard.Card.TimerTick | src/components/QuestionCard.tsx:49-53 | on timer expiry the buffer is submitted as it stands, filled or not, and the interval stops; otherwise nothing is submitted; `timeLeft` counts down iff the interval was running; the timer's props are unchanged |
| QuestionCard.Card.ChooseOption | src/components/QuestionCard.tsx:64-68 | a click on a disabled button changes nothing, one on an enabled button selects its word; a duplicate-free buffer stays duplicate-free |
| QuestionCard.Card.ClickSlot | src/components/QuestionCard.tsx:57-61 | a click on a slot removes its word only when the slot shows one; a duplicate-free buffer stays duplicate-free |
| QuestionCard.ExpiryCarriesOver | src/components/QuestionCard.tsx:49-53 | after the countdown ran out on one question, the next question is submitted with an empty selection on the first tick |
| Timer.Countdown | src/components/Timer.tsx:20-27 | the updater never yields a negative value; it yields 0 exactly when the previous value is at most 1, and one less otherwise |
| Timer.Timer.constructor | src/components/Timer.tsx:10-31 | `timeLeft` starts at `duration`, and an interval runs iff the timer is active |
| Timer.Timer.DurationChanged | src/components/Timer.tsx:12-14 | `timeLeft` is reset to the new duration only when the duration changes |
| Timer.Timer.IntervalEffect | src/components/Timer.tsx:16-31 | a replaced interval runs iff active, and `timeLeft` is kept |
| Timer.Timer.Tick | src/components/Timer.tsx:19-28 | with no interval nothing changes; a tick from above 1 decrements without firing; a tick from at most 1 stores 0, fires `onTimeUp` once and stops the interval; `timeLeft` stays non-negative |
| Timer.RunOut | src/components/Timer.tsx:19-28 | over n + extra ticks of a countdown from n >= 1, tick i reports `onTimeUp` iff i is the n-th tick; the countdown ends at 0 with the interval cleared and exactly one call made |
| Timer.ExpiredCountdownFiresAgain | src/components/Timer.tsx:12-31 | an expired countdown whose interval is replaced fires `onTimeUp` on its first tick |
| SentenceDisplay.Layout | src/components/SentenceDisplay.tsx:10-30 | a sentence with k markers gives k+1 marker-free parts; every part but the last is followed by a slot, and slot i shows word i of the selection, or nothing when it is missing |
| SentenceDisplay.LayoutParts | src/components/SentenceDisplay.tsx:14-16 | the parts are shown in the order of the split |
| SentenceDisplay.RenderMarkers | src/components/SentenceDisplay.tsx:10-17 | filling every slot with the marker renders the original sentence |
| SentenceDisplay.SlotClick | src/components/SentenceDisplay.tsx:19 | clicking slot i asks to remove index i exactly when a non-empty word is at i; an empty or missing slot does nothing |
| Text.Split | src/components/SentenceDisplay.tsx:10 | a split on a character has one more part than occurrences, and no part contains it |
| Text.JoinSplit | src/components/SentenceDisplay.tsx:10 | the split parts joined with the separator give back the original string |
| Text.SplitJoin | src/components/SentenceDisplay.tsx:10 | splitting the join of separator-free parts gives back the parts, so the split is the only such decomposition |
| Text.Join | src/components/FeedbackScreen.tsx:64-67 | no parts join to the empty string; the join starts with the first part, and its length is the parts' total length plus one separator per gap |
| Text.JoinEmpty | src/components/FeedbackScreen.tsx:64 | a join with a non-empty separator is empty exactly for no part or one empty part |
| WordOptions.Buttons | src/components/WordOptions.tsx:10-14 | one button per option, in option order; a button is disabled iff its word is selected; copies of a word share one state |
| WordOptions.Click | src/components/WordOptions.tsx:13-14 | an enabled button forwards exactly its word, a disabled one nothing |
| WordOptions.ClickForwardsUnselected | src/components/WordOptions.tsx:13-14 | a forwarded word is the option's own and is never already selected |
| FeedbackScreen.Screen | src/components/FeedbackScreen.tsx:10-24 | the shown score is at most the number of answers, the total is the number of questions, the "Perfect" headline appears iff they are equal, and there is one review per question |
| FeedbackScreen.AnswerFor | src/components/FeedbackScreen.tsx:32 | the answer found for a question is the first one carrying its id, and there is none exactly when no answer carries it |
| FeedbackScreen.Review | src/components/FeedbackScreen.tsx:31-70 | review i is numbered i+1 and shows one part per split piece of the sentence; the "Your answer" and "Correct answer" lines appear iff the question is not correct, the latter with the correct words joined by ", " |
| FeedbackScreen.Headline | src/components/FeedbackScreen.tsx:22-24 | the "Perfect" message is shown iff the score equals the total |
| FeedbackScreen.YourAnswer | src/components/FeedbackScreen.tsx:64 | no answer, an empty selection or a single empty word shows "No answer provided"; any other selection shows its words joined by ", " |
| FeedbackScreen.Reviews | src/components/FeedbackScreen.tsx:31-72 | one review per question, in question order, numbered from 1 |
| FeedbackScreen.ReviewStatus | src/components/FeedbackScreen.tsx:32-33 | a question's status is that of the first answer with its id; with no such answer it is incorrect and shows "No answer provided" |
| FeedbackScreen.ReviewShowsSolution | src/components/FeedbackScreen.tsx:48-67 | a review shows k+1 parts for k markers, blank i filled with `correctAnswers[i]`, and an incorrect question shows the correct words joined by ", " |
| FeedbackScreen.ReviewsAgreeWithScore | src/components/FeedbackScreen.tsx:10-42 | for the answers of one play-through with distinct ids, each review shows its answer's status and the number marked correct is the displayed score |
| FeedbackScreen.PerfectIffAllCorrect | src/components/FeedbackScreen.tsx:10-24 | after a complete play-through the "Perfect" message is shown iff every answer was correct |
| Sequences.FindIndex | src/components/Leaderboard.tsx:8 | the result is the first index satisfying the predicate, or -1 when none does |
| Sequences.Find | src/components/FeedbackScreen.tsx:32 | the result is the first element satisfying the predicate, or nothing when none does |
| Sequences.RemoveKeepsDistinct | src/components/QuestionCard.tsx:31-35 | removing one element keeps a sequence duplicate-free |
| Leaderboard.UserRank | src/components/Leaderboard.tsx:7-9 | no user gives no rank; with a user the rank is 1 plus the index of the first entry with the user's id, or 0 exactly when no entry has it |
| Leaderboard.RankAreaAsWritten | src/components/Leaderboard.tsx:60-64 | `{userRank && ...}` renders nothing for `null`, the bare text "0" for rank 0, and the banner for any other rank |
| Leaderboard.ShowsBanner | src/components/Leaderboard.tsx:60 | the banner is shown exactly when the rendered rank area is the banner |
| Leaderboard.RankArea | src/components/Leaderboard.tsx:60-64 | the intended rank area never shows a stray "0": the banner exactly when the banner is shown as written, and nothing otherwise |
| Leaderboard.NoEntryShowsZero | src/components/Leaderboard.tsx:7-9 | a logged-in user with no entry gets rank 0, which renders a bare "0" as written and nothing as intended |
| Leaderboard.RankAreasAgree | src/components/Leaderboard.tsx:60-64 | the written and the intended rank area differ exactly for rank 0 |
| Leaderboard.IsYou | src/components/Leaderboard.tsx:98 | a row is marked as the user's exactly when its entry alone would rank the user first |
| Leaderboard.BannerShown | src/components/Leaderboard.tsx:60-64 | the banner is shown iff a user is present and some entry is theirs, and the rank it shows lies in 1..number of entries |
| Leaderboard.Rows | src/components/Leaderboard.tsx:95-118 | row k carries entry k labelled k+1, in input order, and is marked "You" iff its user id is the current user's |
| Leaderboard.BannerMatchesRows | src/components/Leaderboard.tsx:60-118 | a shown rank r labels the first row marked "You"; with no banner no row is marked |
| LeaderboardHook.StartDate | src/hooks/useLeader.ts:26-41 | `all` has no start; daily is one day before now, weekly seven days, monthly one calendar month |
| LeaderboardHook.QueryUrl | src/hooks/useLeader.ts:24-44 | for `all` the URL is exactly the base query; for any other filter it is the base query plus one `&completedAt_gte=` parameter of the start date |
| LeaderboardHook.RequestedWindow | src/hooks/useLeader.ts:43 | a URL read as carrying a window is exactly the base query, `&completedAt_gte=` and that window |
| LeaderboardHook.QueryUrlWindow | src/hooks/useLeader.ts:24-44 | the window read back from the requested URL is none for `all` and the ISO form of the filter's start date otherwise |
| LeaderboardHook.SameUrlSameWindow | src/hooks/useLeader.ts:24-44 | when `toISOString` is one-to-one, two filters request the same URL exactly when they select the same start date |
| LeaderboardHook.LeaderboardState.constructor | src/hooks/useLeader.ts:15-17 | no entries, loading, and the filter starts as `all` |
| LeaderboardHook.LeaderboardState.SetTimeFilter | src/hooks/useLeader.ts:17 | the filter takes the chosen value and nothing else changes |
| LeaderboardHook.LeaderboardState.FetchLeaderboard | src/hooks/useLeader.ts:19-65 | the filter's URL is requested; a successful response replaces the entries, a failure keeps them; loading ends either way |
| LeaderboardHook.LeaderboardState.AddEntry | src/hooks/useLeader.ts:70-90 | a record of exactly the given user, score and total, stamped now, is posted; the filter, entries and loading flag are unchanged |
| ProgressHook.Latest | src/hooks/useUserProgress.ts:28-30 | the first record of a non-empty list, nothing for an empty one |
| ProgressHook.ProgressState.constructor | src/hooks/useUserProgress.ts:14-15 | loading, with no progress |
| ProgressHook.ProgressState.FetchProgress | src/hooks/useUserProgress.ts:17-36 | with no user only loading ends; a non-empty response's first record is adopted, otherwise progress is unchanged; loading ends on success and failure |
| ProgressHook.ProgressState.SaveProgress | src/hooks/useUserProgress.ts:41-64 | with no user nothing happens; otherwise a record of the user's id and exactly the given index and answers is posted, and becomes the progress iff the post completed |
| Profile.BestScore | src/components/Profile.tsx:38 | the best score is at least every attempt's score and is some attempt's score |
| Profile.ComputeStats | src/components/Profile.tsx:34-45 | the attempt count is the list length, the integer total and the questions answered are the sums of scores and of totals, and the best score is their maximum |
| Profile.TotalAtMostAttemptsTimesBest | src/components/Profile.tsx:36-42 | the score total is at most attempts times the best score, so the average never exceeds the best |
| Profile.TotalScoreWithinQuestions | src/components/Profile.tsx:36-37 | when no attempt scores more than its questions, the score total is at most the questions answered |
| Profile.ProfileState.constructor | src/components/Profile.tsx:14-21 | no attempts, loading, statistics all zero |
| Profile.ProfileState.FetchUserAttempts | src/components/Profile.tsx:23-52 | with no user nothing changes; otherwise a successful response becomes the attempts in its order, the statistics are replaced only for a non-empty list, and loading ends |

## Findings

| source | as written | input that shows it | evidently intended | confidence | as-written member | corrected member |
|---|---|---|---|---|---|---|
| src/App.tsx:28-33 | the resume effect adopts any saved `lastQuestionIndex`; on the last question the saved index is `questions.length` (line 90) | a logged-in user answers every question; the save completes; "Try Again" clears `isComplete`, the effect runs again and sets the index to `questions.length`, where no question exists | adopt only a record of an unfinished run, whose index is below the number of questions | not executed | `App.QuizSession.Resume`, shown by `App.FinishedRunIsReadopted` | `App.QuizSession.ResumeUnfinished`, shown by `App.FinishedRunIsNotReadopted` |
| src/components/Leaderboard.tsx:60-64 | `{userRank && ...}` with `userRank` a number; for 0 React renders the number itself | a logged-in user with no leaderboard entry: `findIndex` gives -1, so `userRank` is 0 and a bare "0" appears above the table | show nothing when the user has no entry (`userRank > 0 && ...`) | not executed | `Leaderboard.RankAreaAsWritten`, shown by `Leaderboard.NoEntryShowsZero` | `Leaderboard.RankArea`, with `Leaderboard.RankAreasAgree` |

For the first row, the same record is also the latest one fetched on the next visit. So a user
who finished a quiz reopens at index `questions.length` as well.

## Left out

- HTTP and JSON are not modelled: `fetch`, `response.json()`, POST bodies and the headers. Each request's outcome is a parameter.
- The query-string semantics are not modelled: the store itself evaluates `_sort`, `_order`, `_limit`, `userId=` and `completedAt_gte`. So the "latest record" is the first element of the response, and entries arrive already sorted.
- The per-entry username lookup (src/hooks/useLeader.ts:48-57) is not modelled. Entries arrive with `username` already set.
- The profile and progress query URLs are not modelled. Each depends only on the user id.
- `LeaderboardHook.StartDate`: one day and seven days are whole multiples of 24 hours. The code moves the local calendar date, which differs across daylight-saving changes. The calendar month is the clock's `monthBefore` function.
- The unreachable `default` branch of the filter switch (`new Date(0)`) is not modelled. The four filters cover every value.
- Dates are not formatted: `toISOString` is the clock's `iso` function, and `toLocaleString`/`toLocaleDateString` are not modelled.
- `Profile.ComputeStats`: the floating-point `averageScore` and its `toFixed(1)` are not modelled. The model keeps the integer total it is divided from.
- The Timer's floating-point `percentage` is not modelled.
- React's runtime is not modelled: effect scheduling, batched and asynchronous updates, StrictMode double calls, and the 1000 ms spacing of ticks. Each handler, effect and tick is one atomic step. In particular, a save that lands after a restart is not modelled.
- While a card is shown, a render caused by selecting or removing a word also replaces the timer's interval. Only the replacement on a question change is modelled (`QuestionCard.Card.QuestionChanged`). The others keep `timeLeft` and only shift the sub-second phase.
- `QuestionCard.Card.constructor` folds the mount effect in. The first render, with `blanksCount` 0, is not a separate state.
- `QuestionCard.Card.RemoveWord` takes a non-negative index. The slots pass their own positions, so JavaScript's negative `splice` index never occurs.
- `App.QuizSession.ResumeUnfinished` also requires the saved answer count to equal the saved index. Every record the session saves meets this (`App.QuizSession.NextQuestion`).
- Page routing, the login and register forms, navigation (src/components/Navigation.tsx) and the authentication context are not modelled. They are UI chrome or code outside this model. The user is a parameter.
- Question loading (src/hooks/useQuestions.ts) is not modelled. It only fetches. The loading and error screens are not modelled either.
- The empty-question guard of src/App.tsx:63-71 is modelled as a requirement: the handlers need a question on screen.
- Styling, class names and JSX layout are not modelled.
