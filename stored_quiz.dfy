/**
 * The stored-quiz engine (`QuizGame`): plays the rows of one quiz from the
 * `quiz_questions` table, one timed question at a time. The one-second
 * interval, the timeout it triggers and the two-second auto-advance are
 * modelled as explicit events applied to the current state.
 */
module StoredQuiz {

  import opened Wrappers
  import Collections

  /**
   * A stored question row as the game reads it. `timerSeconds` is 0 also when
   * the column is null: both are falsy and are treated alike.
   */
  datatype Question = Question(
    id: string,
    question: string,
    correctAnswer: string,
    options: seq<string>,
    timerSeconds: int)

  const DefaultTimerSeconds: int := 30

  /** The countdown for `q`: its own `timer_seconds`, or 30 when that is falsy. */
  function TimerFor(q: Question): (t: int)
    ensures t != 0
    ensures t == q.timerSeconds || (q.timerSeconds == 0 && t == DefaultTimerSeconds)
  {
    if q.timerSeconds != 0 then q.timerSeconds else DefaultTimerSeconds
  }

  /** The countdown set when the rows arrive: that of the first row, or 30 when there is none. */
  function InitialTimer(rows: seq<Question>): (t: int)
    ensures t != 0
    ensures rows == [] ==> t == DefaultTimerSeconds
    ensures rows != [] ==> t == TimerFor(rows[0])
  {
    if rows == [] then DefaultTimerSeconds else TimerFor(rows[0])
  }

  /** No row asks for a negative countdown. */
  predicate NonNegativeTimers(rows: seq<Question>)
  {
    forall i :: 0 <= i < |rows| ==> rows[i].timerSeconds >= 0
  }

  /** The `current_score` / `max_score` pair written to the `quizzes` row after an answer. */
  datatype ScoreUpdate = ScoreUpdate(currentScore: int, maxScore: int)

  /** The button variants of the answer options. */
  datatype Variant = Default | Destructive | Outline

  /** How one option is shown: its variant and whether it carries the check or the cross icon. */
  datatype OptionFeedback = OptionFeedback(variant: Variant, checkIcon: bool, crossIcon: bool)

  /**
   * The feedback for `option`. Before the lock every option is plain. After it
   * the correct answer is marked right, a wrongly chosen option wrong, and
   * every other option stays plain; each icon goes with its variant.
   */
  function Feedback(option: string, correctAnswer: string, selected: Option<string>, isAnswered: bool)
    : (f: OptionFeedback)
    ensures !isAnswered ==> f == OptionFeedback(Outline, false, false)
    ensures f.variant == Default <==> isAnswered && option == correctAnswer
    ensures f.variant == Destructive <==> isAnswered && option != correctAnswer && selected == Some(option)
    ensures f.checkIcon <==> f.variant == Default
    ensures f.crossIcon <==> f.variant == Destructive
  {
    var variant :=
      if isAnswered then
        if option == correctAnswer then Default
        else if Some(option) == selected then Destructive
        else Outline
      else Outline;
    var check := isAnswered && option == correctAnswer;
    var cross := isAnswered && Some(option) == selected && option != correctAnswer;
    OptionFeedback(variant, check, cross)
  }

  /**
   * Whether each resolved question was answered correctly, given what happened
   * to it: the answer chosen, or none when its time ran out.
   */
  function Verdicts(questions: seq<Question>, responses: seq<Option<string>>): (v: seq<bool>)
    requires |responses| <= |questions|
    ensures |v| == |responses|
    ensures forall i :: 0 <= i < |v| ==> (v[i] <==> responses[i] == Some(questions[i].correctAnswer))
  {
    seq(|responses|, i requires 0 <= i < |responses| => responses[i] == Some(questions[i].correctAnswer))
  }

  lemma VerdictsAppend(questions: seq<Question>, responses: seq<Option<string>>, r: Option<string>)
    requires |responses| < |questions|
    ensures Verdicts(questions, responses + [r])
            == Verdicts(questions, responses) + [r == Some(questions[|responses|].correctAnswer)]
  {
  }

  class QuizGame {
    var questions: seq<Question>
    var currentQuestionIndex: int
    var selectedAnswer: Option<string>
    var score: int
    var timeLeft: int
    var isAnswered: bool

    /**
     * What happened to each question resolved so far: the answer chosen, or
     * none when its time ran out.
     */
    ghost var responses: seq<Option<string>>

    ghost predicate Valid()
      reads this
      ensures Valid() ==> 0 <= score <= currentQuestionIndex + 1
      ensures Valid() && questions != [] ==> currentQuestionIndex + 1 <= |questions|
    {
      && (questions == [] ==> currentQuestionIndex == 0 && !isAnswered)
      && (questions != [] ==> 0 <= currentQuestionIndex < |questions|)
      && |responses| == currentQuestionIndex + (if isAnswered then 1 else 0)
      && score == Collections.CountTrue(Verdicts(questions, responses))
      && (selectedAnswer.Some? ==> isAnswered)
      && (NonNegativeTimers(questions) ==> timeLeft >= 0)
    }

    /** The component's initial state: no rows yet, question 0, score 0, 30 seconds, unlocked. */
    constructor ()
      ensures Valid()
      ensures questions == [] && currentQuestionIndex == 0 && selectedAnswer == None
      ensures score == 0 && timeLeft == DefaultTimerSeconds && !isAnswered
    {
      questions := [];
      currentQuestionIndex := 0;
      selectedAnswer := None;
      score := 0;
      timeLeft := DefaultTimerSeconds;
      isAnswered := false;
      responses := [];
    }

    /**
     * The rows of the quiz arrive (`fetchQuestions` on mount); `fetched` is
     * none when the query failed, which leaves the state as it was.
     */
    method Load(fetched: Option<seq<Question>>)
      requires Valid() && questions == []
      modifies this
      ensures Valid()
      ensures fetched.None? ==> unchanged(this)
      ensures fetched.Some? ==> questions == fetched.value && timeLeft == InitialTimer(fetched.value)
      ensures currentQuestionIndex == old(currentQuestionIndex) && score == old(score)
      ensures selectedAnswer == old(selectedAnswer) && isAnswered == old(isAnswered)
      ensures responses == old(responses)
    {
      if fetched.Some? {
        questions := fetched.value;
        timeLeft := InitialTimer(fetched.value);
      }
    }

    /**
     * The learner picks `answer`. Once the question is locked nothing changes
     * and nothing is written; otherwise the answer is recorded, the question is
     * locked, the score rises by one exactly when the answer is the correct
     * one, and the new score is written against the number of questions.
     */
    method AnswerSelect(answer: string) returns (written: Option<ScoreUpdate>)
      requires Valid() && questions != []
      modifies this
      ensures Valid()
      ensures old(isAnswered) ==> unchanged(this) && written == None
      ensures !old(isAnswered) ==>
                && selectedAnswer == Some(answer) && isAnswered
                && score == old(score) + (if answer == questions[currentQuestionIndex].correctAnswer then 1 else 0)
                && responses == old(responses) + [Some(answer)]
                && written == Some(ScoreUpdate(score, |questions|))
      ensures questions == old(questions) && currentQuestionIndex == old(currentQuestionIndex)
      ensures timeLeft == old(timeLeft)
    {
      if isAnswered {
        return None;
      }
      selectedAnswer := Some(answer);
      isAnswered := true;
      var isCorrect := answer == questions[currentQuestionIndex].correctAnswer;
      var previous := score;
      responses := responses + [Some(answer)];
      VerdictsAppend(questions, old(responses), Some(answer));
      if isCorrect {
        score := score + 1;
      }
      written := Some(ScoreUpdate(if isCorrect then previous + 1 else previous, |questions|));
    }

    /** Time runs out (`handleTimeout`): the question locks with no answer chosen. */
    method HandleTimeout()
      requires Valid() && questions != [] && !isAnswered
      modifies this
      ensures Valid()
      ensures isAnswered && responses == old(responses) + [None]
      ensures questions == old(questions) && currentQuestionIndex == old(currentQuestionIndex)
      ensures score == old(score) && selectedAnswer == old(selectedAnswer) && timeLeft == old(timeLeft)
    {
      isAnswered := true;
      responses := responses + [None];
      VerdictsAppend(questions, old(responses), None);
    }

    /**
     * One second passes. The interval only runs while a current question is
     * unlocked. At one second or less the countdown stops at 0 and the
     * question times out; otherwise the countdown drops by exactly one.
     */
    method Tick() returns (timedOut: bool)
      requires Valid() && questions != [] && !isAnswered
      modifies this
      ensures Valid()
      ensures timedOut <==> old(timeLeft) <= 1
      ensures timeLeft == if timedOut then 0 else old(timeLeft) - 1
      ensures timeLeft >= 0
      ensures isAnswered == timedOut
      ensures responses == if timedOut then old(responses) + [None] else old(responses)
      ensures questions == old(questions) && currentQuestionIndex == old(currentQuestionIndex)
      ensures score == old(score) && selectedAnswer == old(selectedAnswer)
    {
      if timeLeft <= 1 {
        HandleTimeout();
        timeLeft := 0;
        timedOut := true;
      } else {
        timeLeft := timeLeft - 1;
        timedOut := false;
      }
    }

    /**
     * The auto-advance two seconds after the lock. From a question before the
     * last it moves on by exactly one, unlocks, clears the choice and restarts
     * the countdown from the next row; on the last question it only reports
     * that the quiz is complete.
     */
    method NextQuestion() returns (completed: bool)
      requires Valid() && questions != [] && isAnswered
      modifies this
      ensures Valid()
      ensures completed <==> old(currentQuestionIndex) == |questions| - 1
      ensures completed ==> unchanged(this)
      ensures !completed ==>
                && currentQuestionIndex == old(currentQuestionIndex) + 1
                && selectedAnswer == None && !isAnswered
                && timeLeft == TimerFor(questions[currentQuestionIndex])
      ensures questions == old(questions) && score == old(score) && responses == old(responses)
    {
      if currentQuestionIndex < |questions| - 1 {
        currentQuestionIndex := currentQuestionIndex + 1;
        selectedAnswer := None;
        isAnswered := false;
        timeLeft := TimerFor(questions[currentQuestionIndex]);
        completed := false;
      } else {
        completed := true;
      }
    }
  }

  /**
   * A whole game in which every question is answered correctly in time: the
   * score ends at the number of questions, on the last question, and every
   * score written along the way is out of that number.
   */
  method PlayAllCorrect(rows: seq<Question>) returns (finalScore: int, finalIndex: int, writes: seq<ScoreUpdate>)
    requires rows != []
    ensures finalScore == |rows| && finalIndex == |rows| - 1
    ensures |writes| == |rows|
    ensures forall i :: 0 <= i < |writes| ==> writes[i] == ScoreUpdate(i + 1, |rows|)
  {
    var game := new QuizGame();
    game.Load(Some(rows));
    writes := [];
    var i := 0;
    while i < |rows|
      invariant 0 <= i <= |rows|
      invariant game.Valid() && game.questions == rows
      invariant i < |rows| ==> game.currentQuestionIndex == i && !game.isAnswered
      invariant i == |rows| ==> game.currentQuestionIndex == |rows| - 1
      invariant game.score == i
      invariant |writes| == i
      invariant forall j :: 0 <= j < i ==> writes[j] == ScoreUpdate(j + 1, |rows|)
    {
      var written := game.AnswerSelect(rows[i].correctAnswer);
      writes := writes + [written.value];
      var completed := game.NextQuestion();
      i := i + 1;
    }
    finalScore, finalIndex := game.score, game.currentQuestionIndex;
  }

  /**
   * The learner lets the countdown of the first question run out: ticking
   * stops with the question locked at 0 seconds, no answer chosen and the
   * score unchanged; an answer given afterwards changes nothing.
   */
  method LetTimeRunOut(rows: seq<Question>, lateAnswer: string)
    returns (ticks: nat, finalScore: int, locked: bool, chosen: Option<string>, remaining: int)
    requires rows != []
    ensures ticks >= 1
    ensures TimerFor(rows[0]) > 1 ==> ticks == TimerFor(rows[0])
    ensures finalScore == 0 && locked && chosen == None && remaining == 0
  {
    var game := new QuizGame();
    game.Load(Some(rows));
    ticks := 0;
    var timedOut := false;
    while !timedOut
      invariant game.Valid() && game.questions == rows && game.currentQuestionIndex == 0
      invariant game.score == 0 && game.selectedAnswer == None
      invariant game.isAnswered == timedOut
      invariant timedOut ==> game.timeLeft == 0 && ticks >= 1
      invariant !timedOut && TimerFor(rows[0]) > 1 ==> game.timeLeft == TimerFor(rows[0]) - ticks >= 1
      invariant !timedOut && TimerFor(rows[0]) <= 1 ==> ticks == 0 && game.timeLeft == TimerFor(rows[0])
      invariant timedOut && TimerFor(rows[0]) > 1 ==> ticks == TimerFor(rows[0])
      decreases if timedOut then 0 else 1 + (if game.timeLeft > 0 then game.timeLeft else 0)
    {
      timedOut := game.Tick();
      ticks := ticks + 1;
    }
    var ignored := game.AnswerSelect(lateAnswer);
    finalScore, locked, chosen, remaining := game.score, game.isAnswered, game.selectedAnswer, game.timeLeft;
  }
}
