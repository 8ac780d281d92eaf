/**
 * Quiz setup (`fetchAndSaveQuestions`): checks the Open Trivia DB response code
 * and turns each returned record into a `quiz_questions` row, with the answer
 * options shuffled. The shuffle's randomness is an explicit parameter: one
 * sequence of draws per record.
 */
module QuizSetup {

  import opened Wrappers
  import Collections

  /** One record of an Open Trivia DB response; `kind` holds its `type` field. */
  datatype TriviaQuestion = TriviaQuestion(
    category: string,
    kind: string,
    difficulty: string,
    question: string,
    correctAnswer: string,
    incorrectAnswers: seq<string>)

  datatype TriviaResponse = TriviaResponse(responseCode: int, results: seq<TriviaQuestion>)

  /** A row of the `quiz_questions` table as setup writes it. */
  datatype QuestionRow = QuestionRow(
    quizId: string,
    question: string,
    correctAnswer: string,
    options: seq<string>,
    category: string,
    difficulty: string,
    kind: string,
    timerSeconds: int)

  /** A response whose code is not 0: nothing is written. */
  datatype SetupError = TriviaSourceFailed

  const RowTimerSeconds: int := 30

  /** The answers of a record, wrong ones first, as setup gathers them before shuffling. */
  function AllAnswers(q: TriviaQuestion): seq<string>
  {
    q.incorrectAnswers + [q.correctAnswer]
  }

  /** `row` stores `q` for quiz `quizId`: fields copied, options rearranged, default timer. */
  predicate StoredFrom(quizId: string, q: TriviaQuestion, row: QuestionRow)
  {
    && row.quizId == quizId
    && row.question == q.question
    && row.correctAnswer == q.correctAnswer
    && multiset(row.options) == multiset(AllAnswers(q))
    && row.category == q.category
    && row.difficulty == q.difficulty
    && row.kind == q.kind
    && row.timerSeconds == RowTimerSeconds
  }

  /** The row for one record, its options shuffled by `draws`. */
  function ToRow(quizId: string, q: TriviaQuestion, draws: seq<nat>): (row: QuestionRow)
    ensures StoredFrom(quizId, q, row)
    ensures q.correctAnswer in row.options
    ensures |row.options| == |q.incorrectAnswers| + 1
  {
    var options := Collections.Shuffle(AllAnswers(q), draws);
    assert q.correctAnswer in multiset(options);
    QuestionRow(quizId, q.question, q.correctAnswer, options,
                q.category, q.difficulty, q.kind, RowTimerSeconds)
  }

  /** The draws for the `i`-th record (none when the caller supplied fewer). */
  function DrawsAt(draws: seq<seq<nat>>, i: nat): seq<nat>
  {
    if i < |draws| then draws[i] else []
  }

  /**
   * The rows to insert: an error when the response code is not 0, otherwise
   * exactly one row per record, in the records' order.
   */
  function BuildRows(quizId: string, response: TriviaResponse, draws: seq<seq<nat>>)
    : (rows: Result<seq<QuestionRow>, SetupError>)
    ensures rows.Failure? <==> response.responseCode != 0
    ensures rows.Success? ==> |rows.value| == |response.results|
    ensures rows.Success? ==>
              forall i :: 0 <= i < |rows.value| ==> StoredFrom(quizId, response.results[i], rows.value[i])
  {
    if response.responseCode != 0 then Failure(TriviaSourceFailed)
    else
      Success(seq(|response.results|, i requires 0 <= i < |response.results| =>
                    ToRow(quizId, response.results[i], DrawsAt(draws, i))))
  }

  /**
   * Conversely, every list of rows that stores the records one for one, in
   * order, is what setup writes for some outcome of the random shuffles.
   */
  lemma BuildRowsReachesEveryShuffle(quizId: string, response: TriviaResponse, rows: seq<QuestionRow>)
    requires response.responseCode == 0
    requires |rows| == |response.results|
    requires forall i :: 0 <= i < |rows| ==> StoredFrom(quizId, response.results[i], rows[i])
    ensures exists draws :: BuildRows(quizId, response, draws) == Success(rows)
  {
    var results := response.results;
    forall i | 0 <= i < |rows|
      ensures exists d :: Collections.Shuffle(AllAnswers(results[i]), d) == rows[i].options
    {
      Collections.ShuffleReachesEveryPermutation(AllAnswers(results[i]), rows[i].options);
    }
    var draws := seq(|rows|, i requires 0 <= i < |rows| =>
                       var d :| Collections.Shuffle(AllAnswers(results[i]), d) == rows[i].options; d);
    var built := BuildRows(quizId, response, draws).value;
    assert |built| == |rows|;
    forall i | 0 <= i < |rows| ensures built[i] == rows[i] {
      assert DrawsAt(draws, i) == draws[i];
    }
    assert built == rows;
  }
}
