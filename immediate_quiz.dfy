/**
 * The immediate-play engine (`QuizApp` on the quizzes page): pick an Open
 * Trivia DB category, play its questions with a 30-second countdown each, and
 * end in a win or a loss. The question fetch is a parameter of the events that
 * start it (its result or its failure); the one-second countdown is an
 * explicit event.
 */
module ImmediateQuiz {

  import opened Wrappers
  import Collections
  import TextOrder

  /** One question as the trivia API returns it; texts are kept undecoded. */
  datatype Question = Question(question: string, correctAnswer: string, incorrectAnswers: seq<string>)

  const QuestionSeconds: int := 30

  /**
   * The options shown for `q`: its wrong answers and its correct answer, put
   * in the default string order, so the correct answer is always offered and
   * its position depends only on the texts.
   */
  function AnswerOptions(q: Question): (options: seq<string>)
    ensures TextOrder.Sorted(options)
    ensures multiset(options) == multiset(q.incorrectAnswers + [q.correctAnswer])
    ensures q.correctAnswer in options
    ensures |options| == |q.incorrectAnswers| + 1
  {
    var options := TextOrder.Sort(q.incorrectAnswers + [q.correctAnswer]);
    assert q.correctAnswer in multiset(options);
    options
  }

  /** Rendering the option list of a question that does not exist throws. */
  datatype RenderError = NoCurrentQuestion

  /** The option list rendered for question `index` of `questions`. */
  function CurrentOptions(questions: seq<Question>, index: int): (shown: Result<seq<string>, RenderError>)
    ensures shown.Success? <==> 0 <= index < |questions|
    ensures shown.Success? ==> questions[index].correctAnswer in shown.value
  {
    if 0 <= index < |questions| then Success(AnswerOptions(questions[index]))
    else Failure(NoCurrentQuestion)
  }

  /** Whether each answer given so far matches the raw correct answer of its question. */
  function Verdicts(questions: seq<Question>, answers: seq<string>): (v: seq<bool>)
    requires |answers| <= |questions|
    ensures |v| == |answers|
  {
    seq(|answers|, i requires 0 <= i < |answers| => answers[i] == questions[i].correctAnswer)
  }

  lemma VerdictsAppend(questions: seq<Question>, answers: seq<string>, a: string)
    requires |answers| < |questions|
    ensures Verdicts(questions, answers + [a])
            == Verdicts(questions, answers) + [a == questions[|answers|].correctAnswer]
  {
  }

  /** Every answer of a complete run is correct exactly when all of them count. */
  lemma AllCorrectIffFullCount(questions: seq<Question>, answers: seq<string>)
    requires |answers| == |questions|
    ensures Collections.CountTrue(Verdicts(questions, answers)) == |questions|
            <==> forall i :: 0 <= i < |questions| ==> answers[i] == questions[i].correctAnswer
  {
    var v := Verdicts(questions, answers);
    Collections.CountTrueFull(v);
    assert forall i :: 0 <= i < |v| ==> (v[i] <==> answers[i] == questions[i].correctAnswer);
  }

  /** What pressing "Start Quiz" led to. */
  datatype StartOutcome = Started | FetchFailed | NoTopicSelected

  class QuizApp {
    var selectedTopic: string
    var questions: seq<Question>
    var currentQuestionIndex: int
    var score: int
    var timer: int
    var isQuizStarted: bool
    var isWin: bool
    var isLose: bool

    /** The answers given in the current run, one per question answered. */
    ghost var answers: seq<string>

    ghost predicate Valid()
      reads this
      ensures Valid() ==> 0 <= score <= |questions| && 0 <= timer <= QuestionSeconds
      ensures Valid() && isQuizStarted ==> score <= currentQuestionIndex
      ensures Valid() ==> !(isWin && isLose)
    {
      && 0 <= timer <= QuestionSeconds
      && 0 <= currentQuestionIndex
      && (currentQuestionIndex == 0 || currentQuestionIndex < |questions|)
      && |answers| <= |questions|
      && score == Collections.CountTrue(Verdicts(questions, answers))
      && (isQuizStarted ==> |answers| == currentQuestionIndex && !isWin && !isLose)
      && (isWin || isLose ==> |answers| == |questions|)
      && !(isWin && isLose)
    }

    /** The state right after a successful load of `qs`: a new run on its first question. */
    ghost predicate FreshRun(qs: seq<Question>)
      reads this
    {
      && questions == qs && currentQuestionIndex == 0 && score == 0 && timer == QuestionSeconds
      && isQuizStarted && !isWin && !isLose && answers == []
    }

    /** The page's initial state: no topic, no questions, nothing started. */
    constructor ()
      ensures Valid()
      ensures selectedTopic == "" && questions == [] && currentQuestionIndex == 0 && score == 0
      ensures timer == QuestionSeconds && !isQuizStarted && !isWin && !isLose
    {
      selectedTopic := "";
      questions := [];
      currentQuestionIndex := 0;
      score := 0;
      timer := QuestionSeconds;
      isQuizStarted := false;
      isWin := false;
      isLose := false;
      answers := [];
    }

    /** The learner picks a category in the drop-down. */
    method HandleTopicChange(topic: string)
      requires Valid()
      modifies this
      ensures Valid() && selectedTopic == topic
      ensures questions == old(questions) && currentQuestionIndex == old(currentQuestionIndex)
      ensures score == old(score) && timer == old(timer) && isQuizStarted == old(isQuizStarted)
      ensures isWin == old(isWin) && isLose == old(isLose) && answers == old(answers)
    {
      selectedTopic := topic;
    }

    /**
     * The questions of the selected category arrive (`fetchQuestions`):
     * whatever they are, a new run starts on the first of them; a failed
     * fetch changes nothing.
     */
    method FetchQuestions(fetched: Option<seq<Question>>) returns (loaded: bool)
      requires Valid()
      modifies this
      ensures Valid()
      ensures loaded <==> fetched.Some?
      ensures loaded ==> FreshRun(fetched.value)
      ensures !loaded ==> unchanged(this)
      ensures selectedTopic == old(selectedTopic)
    {
      if fetched.None? {
        return false;
      }
      questions := fetched.value;
      currentQuestionIndex := 0;
      score := 0;
      timer := QuestionSeconds;
      isQuizStarted := true;
      isWin := false;
      isLose := false;
      answers := [];
      loaded := true;
    }

    /**
     * The fetch as evidently intended: an empty result is a failure like a
     * failed request, so a started run always has a question to show.
     */
    method FetchQuestionsIntended(fetched: Option<seq<Question>>) returns (loaded: bool)
      requires Valid()
      modifies this
      ensures Valid()
      ensures loaded <==> fetched.Some? && fetched.value != []
      ensures loaded ==> FreshRun(fetched.value) && CurrentOptions(questions, currentQuestionIndex).Success?
      ensures !loaded ==> unchanged(this)
      ensures selectedTopic == old(selectedTopic)
    {
      if fetched.None? || fetched.value == [] {
        return false;
      }
      loaded := FetchQuestions(fetched);
    }

    /**
     * "Start Quiz": with no category selected nothing changes and the learner
     * is told to pick one; otherwise the category's questions are fetched.
     */
    method StartQuiz(fetched: Option<seq<Question>>) returns (outcome: StartOutcome)
      requires Valid()
      modifies this
      ensures Valid()
      ensures old(selectedTopic) == "" ==> outcome == NoTopicSelected && unchanged(this)
      ensures old(selectedTopic) != "" ==> outcome == (if fetched.Some? then Started else FetchFailed)
      ensures outcome == Started ==> FreshRun(fetched.value)
      ensures outcome != Started ==> unchanged(this)
      ensures selectedTopic == old(selectedTopic)
    {
      if selectedTopic != "" {
        var loaded := FetchQuestions(fetched);
        outcome := if loaded then Started else FetchFailed;
      } else {
        outcome := NoTopicSelected;
      }
    }

    /**
     * The scoring step shared by both answer handlers: the answer is counted
     * when it equals the raw correct answer of the current question. Until
     * the handler moves on, one more answer is recorded than the index says.
     */
    method ScoreAnswer(answer: string)
      requires Valid() && isQuizStarted && currentQuestionIndex < |questions|
      modifies this`score, this`answers
      ensures answers == old(answers) + [answer] && |answers| == currentQuestionIndex + 1
      ensures score == old(score) + (if answer == questions[currentQuestionIndex].correctAnswer then 1 else 0)
      ensures score == Collections.CountTrue(Verdicts(questions, answers))
    {
      var isCorrect := answer == questions[currentQuestionIndex].correctAnswer;
      if isCorrect {
        score := score + 1;
      }
      VerdictsAppend(questions, answers, answer);
      Collections.CountTrueAppend(Verdicts(questions, answers), isCorrect);
      answers := answers + [answer];
    }

    /**
     * The learner answers the current question, as the page does it: the
     * score rises by one exactly when the answer equals the raw correct
     * answer; before the last question the run moves on by one with a fresh
     * countdown; on the last one the run stops and is a win exactly when the
     * score read BEFORE this answer's increment equals the number of
     * questions. That score counts only the earlier questions, so the run is
     * always a loss.
     */
    method AnswerSelection(answer: string)
      requires Valid() && isQuizStarted && currentQuestionIndex < |questions|
      modifies this
      ensures Valid()
      ensures answers == old(answers) + [answer]
      ensures score == old(score) + (if answer == questions[old(currentQuestionIndex)].correctAnswer then 1 else 0)
      ensures old(currentQuestionIndex) < |questions| - 1 ==>
                && currentQuestionIndex == old(currentQuestionIndex) + 1
                && timer == QuestionSeconds && isQuizStarted && !isWin && !isLose
      ensures old(currentQuestionIndex) == |questions| - 1 ==>
                && currentQuestionIndex == old(currentQuestionIndex) && timer == old(timer)
                && !isQuizStarted
                && (isWin <==> old(score) == |questions|) && isLose == !isWin
      ensures old(currentQuestionIndex) == |questions| - 1 ==> isLose && !isWin
      ensures questions == old(questions) && selectedTopic == old(selectedTopic)
    {
      var previous := score;
      ScoreAnswer(answer);
      if currentQuestionIndex < |questions| - 1 {
        currentQuestionIndex := currentQuestionIndex + 1;
        timer := QuestionSeconds;
      } else {
        isQuizStarted := false;
        // Both flags are down while a run is started, so raising one of them
        // sets the pair outright.
        var won := previous == |questions|;
        isWin, isLose := won, !won;
      }
    }

    /**
     * The answer handler as evidently intended: the same, except that the
     * final test reads the score after this answer is counted. Then the run
     * is a win exactly when every question was answered correctly.
     */
    method AnswerSelectionIntended(answer: string)
      requires Valid() && isQuizStarted && currentQuestionIndex < |questions|
      modifies this
      ensures Valid()
      ensures answers == old(answers) + [answer]
      ensures score == old(score) + (if answer == questions[old(currentQuestionIndex)].correctAnswer then 1 else 0)
      ensures old(currentQuestionIndex) < |questions| - 1 ==>
                && currentQuestionIndex == old(currentQuestionIndex) + 1
                && timer == QuestionSeconds && isQuizStarted && !isWin && !isLose
      ensures old(currentQuestionIndex) == |questions| - 1 ==>
                && currentQuestionIndex == old(currentQuestionIndex) && timer == old(timer)
                && !isQuizStarted && isLose == !isWin
                && (isWin <==> score == |questions|)
                && (isWin <==> forall i :: 0 <= i < |questions| ==> answers[i] == questions[i].correctAnswer)
      ensures questions == old(questions) && selectedTopic == old(selectedTopic)
    {
      ScoreAnswer(answer);
      if currentQuestionIndex < |questions| - 1 {
        currentQuestionIndex := currentQuestionIndex + 1;
        timer := QuestionSeconds;
      } else {
        isQuizStarted := false;
        AllCorrectIffFullCount(questions, answers);
        var won := score == |questions|;
        isWin, isLose := won, !won;
      }
    }

    /**
     * One second passes. The countdown only runs while a run is started and
     * above 0, and then drops by exactly one; at 0 it simply stops: nothing
     * times out and answers are still accepted.
     */
    method Tick() returns (fired: bool)
      requires Valid()
      modifies this
      ensures Valid()
      ensures fired <==> old(timer) > 0 && old(isQuizStarted)
      ensures timer == if fired then old(timer) - 1 else old(timer)
      ensures questions == old(questions) && currentQuestionIndex == old(currentQuestionIndex)
      ensures score == old(score) && isQuizStarted == old(isQuizStarted) && selectedTopic == old(selectedTopic)
      ensures isWin == old(isWin) && isLose == old(isLose) && answers == old(answers)
    {
      fired := timer > 0 && isQuizStarted;
      if fired {
        timer := timer - 1;
      }
    }

    /** "Retry Quiz": fetch the same category again and hide the loss. */
    method RetryQuiz(fetched: Option<seq<Question>>) returns (loaded: bool)
      requires Valid()
      modifies this
      ensures Valid()
      ensures loaded <==> fetched.Some?
      ensures loaded ==> FreshRun(fetched.value)
      ensures !isLose && selectedTopic == old(selectedTopic)
      ensures !loaded ==>
                && questions == old(questions) && currentQuestionIndex == old(currentQuestionIndex)
                && score == old(score) && timer == old(timer) && isQuizStarted == old(isQuizStarted)
                && isWin == old(isWin) && answers == old(answers)
    {
      loaded := FetchQuestions(fetched);
      isLose := false;
    }

    /** "Select New Category": back to the topic picker with no topic selected. */
    method SelectNewCategory()
      requires Valid()
      modifies this
      ensures Valid()
      ensures !isQuizStarted && !isLose && selectedTopic == ""
      ensures questions == old(questions) && currentQuestionIndex == old(currentQuestionIndex)
      ensures score == old(score) && timer == old(timer) && isWin == old(isWin) && answers == old(answers)
    {
      isQuizStarted := false;
      isLose := false;
      selectedTopic := "";
    }
  }

  /**
   * A run of the page in which every question is answered correctly still
   * ends in a loss, because the final test reads the score before the last
   * answer is counted.
   */
  method PerfectRunLoses(topic: string, qs: seq<Question>) returns (finalScore: int, won: bool, lost: bool)
    requires topic != "" && qs != []
    ensures finalScore == |qs| && !won && lost
  {
    var app := new QuizApp();
    app.HandleTopicChange(topic);
    var outcome := app.StartQuiz(Some(qs));
    var i := 0;
    while i < |qs|
      invariant 0 <= i <= |qs|
      invariant app.Valid() && app.questions == qs && app.score == i
      invariant i < |qs| ==> app.isQuizStarted && app.currentQuestionIndex == i
      invariant i == |qs| ==> !app.isWin && app.isLose
    {
      app.AnswerSelection(qs[i].correctAnswer);
      i := i + 1;
    }
    finalScore, won, lost := app.score, app.isWin, app.isLose;
  }

  /** With the intended final test the same perfect run is a win. */
  method PerfectRunWinsWhenIntended(topic: string, qs: seq<Question>) returns (finalScore: int, won: bool, lost: bool)
    requires topic != "" && qs != []
    ensures finalScore == |qs| && won && !lost
  {
    var app := new QuizApp();
    app.HandleTopicChange(topic);
    var outcome := app.StartQuiz(Some(qs));
    var i := 0;
    while i < |qs|
      invariant 0 <= i <= |qs|
      invariant app.Valid() && app.questions == qs && app.score == i
      invariant i < |qs| ==> app.isQuizStarted && app.currentQuestionIndex == i
      invariant i == |qs| ==> app.isWin && !app.isLose
    {
      app.AnswerSelectionIntended(qs[i].correctAnswer);
      i := i + 1;
    }
    finalScore, won, lost := app.score, app.isWin, app.isLose;
  }

  /**
   * A category that yields no questions still starts a run, and that run has
   * no question whose options could be shown.
   */
  method EmptyResultStartsRunWithoutQuestion(topic: string)
    returns (started: bool, shown: Result<seq<string>, RenderError>)
    requires topic != ""
    ensures started && shown == Failure(NoCurrentQuestion)
  {
    var app := new QuizApp();
    app.HandleTopicChange(topic);
    var outcome := app.StartQuiz(Some([]));
    started := app.isQuizStarted;
    shown := CurrentOptions(app.questions, app.currentQuestionIndex);
  }

  /** With the intended fetch the same empty result leaves the picker in place. */
  method EmptyResultRejectedWhenIntended(topic: string) returns (started: bool, loaded: bool)
    requires topic != ""
    ensures !started && !loaded
  {
    var app := new QuizApp();
    app.HandleTopicChange(topic);
    loaded := app.FetchQuestionsIntended(Some([]));
    started := app.isQuizStarted;
  }
}
