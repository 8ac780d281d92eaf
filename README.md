# Quiz session engines of the user-hub dashboard, in Dafny

The dashboard is mostly thin create/read/update/delete screens over a hosted
backend. Its real logic is the quiz session engine, which it has twice, and
two small pure helpers. This project models those four parts and proves what
they promise:

- **Stored-quiz engine** (`src/components/QuizGame.tsx`), module `StoredQuiz`.
  The class `QuizGame` holds the rows of one quiz, the current index, the
  score, the countdown, the answer lock and the chosen answer. Its events are
  methods: the rows arriving, an answer, a one-second tick, the timeout and
  the two-second auto-advance. The pure function `Feedback` gives the
  right/wrong/plain marking of each option.
- **Immediate-play engine** (`src/pages/Quizzes.tsx`), module `ImmediateQuiz`.
  The class `QuizApp` holds the selected category, the questions, the index,
  the score, the timer and the started/win/lose flags. Its events are methods:
  picking a category, the fetch, start, answer, tick, retry and new category.
  `AnswerOptions` is the sorted option list shown for a question.
- **Quiz setup** (`src/components/QuizSetup.tsx`), module `QuizSetup`. It
  checks the Open Trivia DB response code and maps each record to a
  `quiz_questions` row with shuffled options.
- **Image URL builder** (`src/services/tmdb.ts`), module `Tmdb`. This is
  `getImageUrl`.

Shared helpers:
- `Collections` holds the count of correct verdicts and a shuffle driven by
  explicit random draws.
- `TextOrder` holds JavaScript's default string order and a reference
  insertion sort.
- `Wrappers` holds `Option` and `Result`.

Conventions:
- Field names are camelCase versions of the source's snake_case JSON and
  column names.
- The `type` field of a trivia record is called `kind`, because `type` is a
  Dafny keyword.
- Both classes carry a ghost record of the answers given in the current run.
  Their invariant `Valid()` ties the score to the number of correct entries
  in that record.

Inputs that come from outside are parameters:
- A fetch result is `Some(rows)` on success and `None` when the request
  failed.
- The shuffle's randomness is a sequence of draws.
- The timers are explicit events: one tick per elapsed second, and the
  auto-advance after the lock.

Where the intended session design and the code differ, the model follows the
code. Two examples are the win test and the empty fetch; see "## Findings".
A third: the immediate-play page has no timeout. Its countdown stops at 0 and
answers are still accepted afterwards.

## Model

| member | source | states |
|---|---|---|
| `Tmdb.ImageUrl` | src/services/tmdb.ts:39-42 | A null or empty path gives no URL. Otherwise the URL starts with `https://image.tmdb.org/t/p/` followed by the size name, is followed by the path and nothing else, and the size defaults to `w500`. |
| `Tmdb.ImageUrlRoundTrip` | src/services/tmdb.ts:41 | Every URL built from a non-empty path parses back to that size and path. |
| `Tmdb.ImageUrlInjective` | src/services/tmdb.ts:41 | Different (path, size) pairs give different URLs. In particular, for one size, different paths give different URLs. |
| `QuizSetup.ToRow` | src/components/QuizSetup.tsx:39-54 | A row copies the question, correct answer, category, difficulty and type unchanged. It carries the quiz id and a 30-second timer. Its options are a rearrangement of the wrong answers plus the correct one, so they contain the correct answer and have one more entry than the wrong answers. |
| `QuizSetup.BuildRows` | src/components/QuizSetup.tsx:34-54 | A nonzero response code is an error, so no rows are written. A zero code gives exactly one row per record, in order, each storing its record as `ToRow` states. |
| `QuizSetup.BuildRowsReachesEveryShuffle` | src/components/QuizSetup.tsx:39-42 | Conversely, every row list that stores the records one for one is what setup writes for some outcome of the random shuffles. |
| `Collections.Shuffle` | src/components/QuizSetup.tsx:40-42 | Whatever the random draws, the shuffled options are a rearrangement of the input. |
| `Collections.ShuffleReachesEveryPermutation` | src/components/QuizSetup.tsx:40-42 | Every rearrangement of the input is produced by some draws, so the shuffle is exactly "some permutation". |
| `TextOrder.Sort` | src/pages/Quizzes.tsx:188-189 | The default `sort()` yields a rearrangement of its input in which each element sorts no later than every later one. |
| `TextOrder.SortedPermutationUnique` | src/pages/Quizzes.tsx:189 | Two sorted rearrangements of the same strings are equal. So the shown order depends only on the answer texts, and any correct sort gives this result. |
| `ImmediateQuiz.AnswerOptions` | src/pages/Quizzes.tsx:188-189 | The options shown are a sorted rearrangement of the wrong answers plus the correct answer. They always contain the correct answer and have one entry per answer. |
| `ImmediateQuiz.CurrentOptions` | src/pages/Quizzes.tsx:188 | The option list can be built exactly when the index names an existing question, and it then contains that question's correct answer. Otherwise the spread of a missing question throws. |
| `ImmediateQuiz.QuizApp.Valid` | src/pages/Quizzes.tsx:90-120 | In every reachable state the timer is between 0 and 30 and the score is between 0 and the number of questions. During a run the score is at most the index. Win and lose are never both set. |
| `ImmediateQuiz.QuizApp.constructor` | src/pages/Quizzes.tsx:20-27 | The initial state has no topic, no questions, index 0, score 0, timer 30 and all flags down. |
| `ImmediateQuiz.QuizApp.HandleTopicChange` | src/pages/Quizzes.tsx:72-74 | Sets the selected category and changes nothing else. |
| `ImmediateQuiz.QuizApp.FetchQuestions` | src/pages/Quizzes.tsx:48-69 | A successful fetch starts a new run on whatever it returned: index 0, score 0, timer 30, started, win and lose down. A failed fetch changes nothing. |
| `ImmediateQuiz.QuizApp.StartQuiz` | src/pages/Quizzes.tsx:77-87 | With no category selected the outcome is a "select a topic" error and no state changes. Otherwise the outcome reports whether the fetch succeeded, and the state is as `FetchQuestions` leaves it. |
| `ImmediateQuiz.QuizApp.ScoreAnswer` | src/pages/Quizzes.tsx:90-94 | The score rises by one exactly when the answer equals the raw, undecoded correct answer. Otherwise it is unchanged. |
| `ImmediateQuiz.QuizApp.AnswerSelection` | src/pages/Quizzes.tsx:90-110 | Before the last question: the answer is scored, the index rises by exactly one and the timer resets to 30. On the last question: the run stops and exactly one of win and lose is set, win exactly when the pre-answer score equals the number of questions. That score counts only the earlier questions, so the flag set is always lose. |
| `ImmediateQuiz.QuizApp.AnswerSelectionIntended` | src/pages/Quizzes.tsx:100-108 | The corrected final test reads the post-answer score. On the last question the run is a win exactly when every answer equals its question's correct answer, and a loss otherwise. |
| `ImmediateQuiz.AllCorrectIffFullCount` | src/pages/Quizzes.tsx:92-102 | At the end of a run, the score equals the number of questions exactly when every answer was correct. |
| `ImmediateQuiz.QuizApp.FetchQuestionsIntended` | src/pages/Quizzes.tsx:48-60 | The corrected fetch treats an empty result as a failure. A run it starts always has a current question whose options can be shown. The selected category is kept. |
| `ImmediateQuiz.QuizApp.Tick` | src/pages/Quizzes.tsx:113-120 | The timer drops by exactly one only while it is above 0 and a run is started. Otherwise nothing changes. No timeout follows at 0. |
| `ImmediateQuiz.QuizApp.RetryQuiz` | src/pages/Quizzes.tsx:122-125 | Retry refetches for the same category and clears the loss. On success the state is a fresh run of the new questions. |
| `ImmediateQuiz.QuizApp.SelectNewCategory` | src/pages/Quizzes.tsx:127-131 | Clears started, lose and the selected category, and keeps everything else. |
| `ImmediateQuiz.PerfectRunLoses` | src/pages/Quizzes.tsx:100-108 | For every non-empty question list, a run with every answer correct ends with score equal to the number of questions, yet it is a loss and never a win. |
| `ImmediateQuiz.PerfectRunWinsWhenIntended` | src/pages/Quizzes.tsx:100-108 | With the corrected final test, the same run is a win. |
| `ImmediateQuiz.EmptyResultStartsRunWithoutQuestion` | src/pages/Quizzes.tsx:53-58 | An empty result still starts a run, and that run has no question whose options can be rendered. |
| `ImmediateQuiz.EmptyResultRejectedWhenIntended` | src/pages/Quizzes.tsx:53-58 | With the corrected fetch, an empty result starts nothing. |
| `StoredQuiz.TimerFor` | src/components/QuizGame.tsx:123 | A question's countdown is its own `timer_seconds`, or 30 when that value is falsy. It is never 0. |
| `StoredQuiz.InitialTimer` | src/components/QuizGame.tsx:59 | The countdown set when rows arrive is that of the first row, or 30 when there are no rows. |
| `StoredQuiz.Feedback` | src/components/QuizGame.tsx:161-178 | Before the lock every option is plain. After it, the correct option is "default", a wrongly chosen option is "destructive", and every other option is "outline". The check icon goes exactly with "default" and the cross exactly with "destructive". |
| `StoredQuiz.QuizGame.Valid` | src/components/QuizGame.tsx:82-130 | In every reachable state `0 <= score <= currentQuestionIndex + 1`, and once rows are loaded also `currentQuestionIndex + 1 <= questions.length`; before that the index is 0 with no rows. A chosen answer implies the lock. The countdown is non-negative when no row asks for a negative one. |
| `StoredQuiz.QuizGame.constructor` | src/components/QuizGame.tsx:19-24 | The initial state has no rows, index 0, no choice, score 0, 30 seconds and no lock. |
| `StoredQuiz.QuizGame.Load` | src/components/QuizGame.tsx:48-69 | Loaded rows become the questions and the countdown becomes the first row's timer. A failed query changes nothing. |
| `StoredQuiz.QuizGame.AnswerSelect` | src/components/QuizGame.tsx:81-116 | An answer while locked changes nothing and writes nothing. Otherwise it records the answer and locks, raises the score by one exactly when the answer equals the correct one, and writes that new score with `max_score` equal to the number of questions. |
| `StoredQuiz.QuizGame.HandleTimeout` | src/components/QuizGame.tsx:71-79 | A timeout locks the question with no answer chosen. It leaves the score unchanged. |
| `StoredQuiz.QuizGame.Tick` | src/components/QuizGame.tsx:31-46 | A tick only happens while a current question is unlocked. At one second or less the countdown is set to 0 and the question times out. Otherwise the countdown drops by exactly one. Either way it ends non-negative and the score is untouched. |
| `StoredQuiz.QuizGame.NextQuestion` | src/components/QuizGame.tsx:118-130 | Before the last question the index rises by exactly one, the choice and lock are cleared, and the countdown becomes the next row's timer. On the last question nothing changes. |
| `StoredQuiz.PlayAllCorrect` | src/components/QuizGame.tsx:81-130 | A game answered correctly throughout ends on the last question with score equal to the number of questions. The k-th write records score k out of that number. |
| `StoredQuiz.LetTimeRunOut` | src/components/QuizGame.tsx:31-41 | Letting the first countdown run out locks the question at 0 seconds, with no answer and score 0. A countdown of T > 1 seconds takes exactly T ticks, where T is the row's `timer_seconds`, or 30 when that is null or 0. A later answer changes nothing. |

## Left out

- The network and database calls are outside the model; their results are parameters. These are:
  - the `fetch` calls to the trivia API
  - the supabase selects, inserts and updates
  - the secret lookup
  - `searchMovies`, `getPopularMovies` and `getMovieDetails`
- The trivia category list (`fetchTopics`) is left out: it only fills the drop-down.
- `StoredQuiz.QuizGame.AnswerSelect` returns the score update instead of performing it. A failed write is only logged and never changes the in-memory state, so the model has no failure path for it.
- The inserted rows are what setup returns; the setup insert itself is not modelled. So is the `isLoading` flag around it.
- `setInterval`, `setTimeout`, React's batching of state updates and its stale closures are not modelled. Each event is one atomic step on the current state.
- The React re-run of `fetchQuestions` when the route's quiz id changes is not modelled. Only the load on mount is: `Load` requires that no rows are loaded yet.
- HTML-entity decoding (`he.decode`) is left out: it only changes what is displayed, and scoring compares raw values.
- Toasts, confetti, the shake animation and all rendering other than the option list and its feedback are left out.
- `Math.random` is replaced by explicit draws. Which permutations the random comparator makes more likely is not modelled; only which permutations are possible.
- `TextOrder.Le`: JavaScript compares UTF-16 code units, while Dafny characters are Unicode scalar values. The two orders differ only for characters beyond U+FFFF against characters in U+E000 to U+FFFF.
- `StoredQuiz.TimerFor`: a null `timer_seconds` is represented as 0, because both are falsy. A `NaN` column value is not modelled.
- A trivia response without a `results` field is not modelled. Neither is JSON that fails to parse in a way other than a failed fetch.
- The authentication context, the todo, user and movie screens, the movie details view, the dashboard layout and the routing are not part of this model. They are thin wrappers around database calls and display code.

## Findings

| source | as written | input that shows it | evidently intended | confidence | as-written member | corrected member |
|---|---|---|---|---|---|---|
| src/pages/Quizzes.tsx:102 | The win test compares `score` with `questions.length`. That `score` is the value from before the increment at line 93, so it counts only the earlier questions and is at most `length - 1`. | Any question list, e.g. one question answered correctly: the score becomes 1 out of 1, yet `isLose` is set and `isWin` never is. | Win exactly when every question was answered correctly: the post-answer score equals the number of questions. | high; not executed | `ImmediateQuiz.PerfectRunLoses` | `ImmediateQuiz.QuizApp.AnswerSelectionIntended` |
| src/pages/Quizzes.tsx:54-58 | Any `results` list starts a run, including an empty one, which the trivia API returns for a category with too few questions. The option list at line 188 then spreads the `incorrect_answers` of a missing question and throws. | A selected category for which the fetch returns `results: []`. | An empty result is a failure: no run starts and the picker stays. | medium; not executed | `ImmediateQuiz.EmptyResultStartsRunWithoutQuestion` | `ImmediateQuiz.QuizApp.FetchQuestionsIntended` |
