/** The quiz session controller, class `MathQuiz`: its state record, the question
    timer, the answers, the end of a quiz and the high-score list. */
module Quiz {
  import opened Wrappers
  import opened Answers
  import opened Leaderboard
  import Questions

  /** The record `this.state` of the source. `currentTimer` stands for the interval
      handle: true once a handle has been stored (`_quitTimer` never clears the field,
      it only cancels the interval; only the reset of a new start does). */
  datatype State = State(
    score: int,
    questionNo: int,
    questions: seq<string>,
    playerName: string,
    timePassed: int,
    currentQuestion: string,
    currentTimer: bool,
    timeRemaining: int,
    quizActive: bool,
    nameEntryPossible: bool)

  /** `_getInitialState`: a fresh session whose timer counters already add up to the
      time limit, with no quiz, timer handle or name entry under way. */
  function InitialState(questionTimeout: int): (s: State)
    ensures s.timePassed == 0 && s.timePassed + s.timeRemaining == questionTimeout
    ensures !s.quizActive && !s.nameEntryPossible && !s.currentTimer
    ensures s.score == 0 && s.questionNo == 0 && s.questions == [] && s.playerName == "Anonymous"
  {
    State(0, 0, [], "Anonymous", 0, "", false, questionTimeout, false, false)
  }

  /** The question indices `0, 1, ..., n - 1`, in order. */
  function Upto(n: nat): (s: seq<int>)
    ensures |s| == n
  {
    if n == 0 then [] else Upto(n - 1) + [n - 1]
  }

  /** `Upto(n)` lists the indices `0` to `n - 1`, each at its own position. */
  lemma {:induction false} UptoIndices(n: nat)
    ensures forall i :: 0 <= i < n ==> Upto(n)[i] == i
  {
    if n > 0 {
      UptoIndices(n - 1);
      assert forall i :: 0 <= i < n - 1 ==> Upto(n)[i] == Upto(n - 1)[i];
    }
  }

  class MathQuiz {
    /** The configuration, frozen at construction. */
    const questionTimeout: int
    const numberOfAnswers: int
    const numberOfQuestions: int
    const numberOfBestResults: int

    var highScores: seq<Entry>
    var state: State
    /** The `screenN` class of the application container: 0 intro, 1 questions,
        2 name entry, 3 high scores. */
    var screen: int
    /** The values on the answer buttons now displayed, and the button bound to
        `_giveAnswer(10, true)`; every other button is bound to `_giveAnswer(0, false)`. */
    var answers: seq<real>
    var correctAnswerIndex: int
    /** Whether the interval last stored in `state.currentTimer` is still scheduled. */
    var timerLive: bool
    /** The indices of the questions displayed since the quiz started, in order. */
    ghost var shown: seq<int>

    ghost predicate Valid()
      reads this
    {
      Core() && TimerOk()
    }

    /** The timer counters: they always add up to the time limit between events, and an
        interval runs exactly while a quiz does. */
    ghost predicate TimerOk()
      reads this
    {
      && state.timePassed + state.timeRemaining == questionTimeout
      && (timerLive <==> state.quizActive)
      && (state.quizActive ==> 0 <= state.timePassed <= questionTimeout)
    }

    ghost predicate Core()
      reads this
    {
      && 0 <= questionTimeout && 1 <= numberOfAnswers && 1 <= numberOfQuestions
      && 0 <= numberOfBestResults
      && 0 <= screen <= 3
      && 0 <= state.questionNo <= numberOfQuestions
      && 0 <= state.score && shown == Upto(state.questionNo)
      && (timerLive ==> state.currentTimer)
      && (state.quizActive ==> Running())
      && BoardFits(highScores, state.nameEntryPossible, numberOfBestResults)
    }

    /** While a quiz runs: the question screen is up, question `questionNo - 1` and its
        answers are displayed, and every question has a value. */
    ghost predicate Running()
      reads this
    {
      && screen == 1 && state.currentTimer && !state.nameEntryPossible
      && |state.questions| == numberOfQuestions && 1 <= state.questionNo <= numberOfQuestions
      && state.currentQuestion == state.questions[state.questionNo - 1]
      && |answers| == numberOfAnswers && Distinct(answers)
      && 0 <= correctAnswerIndex < numberOfAnswers
      && ValuesShown(state.questions, state.questionNo - 1, answers[correctAnswerIndex])
    }

    /** Every question of the quiz evaluates to a number, question `k` to `v`. */
    static ghost predicate ValuesShown(questions: seq<string>, k: int, v: real) {
      forall i :: 0 <= i < |questions| ==>
        && Questions.EvaluateText(questions[i]).Some?
        && (i == k ==> Questions.EvaluateText(questions[i]).value == v)
    }

    /** The answer buttons show `n` distinct values, the value of `question` at
        `correctIndex`. */
    static ghost predicate ShowsAnswers(answers: seq<real>, correctIndex: int, n: int, question: string) {
      && Questions.EvaluateText(question).Some?
      && |answers| == n && Distinct(answers)
      && 0 <= correctIndex < n
      && answers[correctIndex] == Questions.EvaluateText(question).value
    }

    /** The high-score list stays within capacity, leaves room while a name entry is
        pending, and is sorted one way or the other. */
    static ghost predicate BoardFits(h: seq<Entry>, pending: bool, capacity: int) {
      && |h| <= capacity
      && (pending ==> |h| < capacity)
      && (SortedDesc(h) || SortedAsc(h))
    }

    /** The random numbers the next question's answers consume. */
    ghost predicate NextDrawsFit(draws: seq<real>, shuffle: seq<int>)
      reads this
    {
      && 0 <= state.questionNo < |state.questions|
      && Questions.EvaluateText(state.questions[state.questionNo]).Some?
      && DrawsFit(Questions.EvaluateText(state.questions[state.questionNo]).value,
                  numberOfAnswers, draws, shuffle)
    }

    /** `new MathQuiz(config)` with the merged configuration. Before the first quiz the
        source's state fields are null; every one of them read before a quiz starts is
        a flag, and null reads as false, so they are modelled by the initial state. */
    constructor (questionTimeout: int, numberOfAnswers: int, numberOfQuestions: int,
                 numberOfBestResults: int)
      requires 0 <= questionTimeout && 1 <= numberOfAnswers && 1 <= numberOfQuestions
      requires 0 <= numberOfBestResults
      // More answers than the decoy window holds would make the answer loop run forever.
      requires numberOfAnswers <= 2 * AnswerDifference
      ensures Valid()
      ensures this.questionTimeout == questionTimeout && this.numberOfAnswers == numberOfAnswers
      ensures this.numberOfQuestions == numberOfQuestions
      ensures this.numberOfBestResults == numberOfBestResults
      ensures highScores == [] && screen == 0 && !timerLive
      ensures !state.quizActive && !state.nameEntryPossible
    {
      this.questionTimeout := questionTimeout;
      this.numberOfAnswers := numberOfAnswers;
      this.numberOfQuestions := numberOfQuestions;
      this.numberOfBestResults := numberOfBestResults;
      highScores := [];
      state := InitialState(questionTimeout);
      screen := 0;
      answers := [];
      correctAnswerIndex := -1;
      timerLive := false;
      shown := [];
    }

    /** `_switchScreen`: only the screen number of the container's class changes. */
    method SwitchScreen(screenNumber: int)
      requires 0 <= screenNumber <= 3
      modifies this`screen
      ensures screen == screenNumber
      ensures old(Valid()) && !state.quizActive ==> Valid()
    {
      screen := screenNumber;
    }

    /** `_changePlayerName`: the name typed so far. */
    method ChangePlayerName(newValue: string)
      requires Valid()
      modifies this`state
      ensures Valid()
      ensures state == old(state).(playerName := newValue)
    {
      state := state.(playerName := newValue);
    }

    /** `_quitTimer`: when a handle is stored, reset both counters and cancel its
        interval; afterwards no interval of this quiz runs. */
    method QuitTimer()
      requires timerLive ==> state.currentTimer
      modifies this`state, this`timerLive
      ensures !timerLive
      ensures state == if old(state.currentTimer)
                       then old(state).(timePassed := 0, timeRemaining := questionTimeout)
                       else old(state)
    {
      if state.currentTimer {
        state := state.(timePassed := 0, timeRemaining := questionTimeout);
        timerLive := false;
      }
    }

    /** `_startTimer`: quit the previous timer, then schedule a new interval and store
        its handle. */
    method StartTimer()
      requires timerLive ==> state.currentTimer
      modifies this`state, this`timerLive
      ensures timerLive && state.currentTimer
      ensures state == (if old(state.currentTimer)
                        then old(state).(timePassed := 0, timeRemaining := questionTimeout)
                        else old(state)).(currentTimer := true)
    {
      QuitTimer();
      // The interval just quit was the only one: none runs when the new one starts.
      assert !timerLive;
      state := state.(currentTimer := true);
      timerLive := true;
    }

    /** `_setQuestionAndAnswers(k)`: display question `k` with fresh answers and count
        one more question. */
    method SetQuestionAndAnswers(k: int, draws: seq<real>, shuffle: seq<int>)
      requires 0 <= k < |state.questions|
      requires Questions.EvaluateText(state.questions[k]).Some?
      requires DrawsFit(Questions.EvaluateText(state.questions[k]).value, numberOfAnswers, draws, shuffle)
      modifies this`state, this`answers, this`correctAnswerIndex, this`shown
      ensures state == old(state).(currentQuestion := old(state.questions[k]),
                                   questionNo := old(state.questionNo) + 1)
      ensures shown == old(shown) + [k]
      ensures ShowsAnswers(answers, correctAnswerIndex, numberOfAnswers, state.currentQuestion)
      ensures forall j :: 0 <= j < |answers| && j != correctAnswerIndex ==>
        InDecoyRange(Questions.EvaluateText(state.currentQuestion).value, answers[j])
    {
      state := state.(currentQuestion := state.questions[k]);
      var correct := Questions.EvaluateText(state.currentQuestion).value;
      answers, correctAnswerIndex := CreateAnswers(correct, numberOfAnswers, draws, shuffle);
      state := state.(questionNo := state.questionNo + 1);
      shown := shown + [k];
    }

    /** `_startQuiz`: does nothing while a quiz runs; otherwise resets the state, shows
        the question screen, generates the questions, displays question 0, starts the
        timer and marks the quiz active. */
    method StartQuiz(questionDraws: seq<Questions.QuestionDraw>, draws: seq<real>, shuffle: seq<int>)
      requires Valid()
      requires |questionDraws| == numberOfQuestions
      requires forall i :: 0 <= i < |questionDraws| ==>
        Questions.ValidDraw(questionDraws[i])
        && Questions.Evaluate(Questions.DrawnQuestion(questionDraws[i])).Some?
      requires DrawsFit(Questions.Evaluate(Questions.DrawnQuestion(questionDraws[0])).value,
                        numberOfAnswers, draws, shuffle)
      modifies this`state, this`timerLive, this`screen, this`answers, this`correctAnswerIndex, this`shown
      ensures Valid()
      ensures old(state.quizActive) ==> unchanged(this)
      ensures !old(state.quizActive) ==>
        && state.quizActive && timerLive && screen == 1
        && state.score == 0 && state.playerName == "Anonymous" && !state.nameEntryPossible
        && state.timePassed == 0 && state.timeRemaining == questionTimeout
        && |state.questions| == numberOfQuestions
        && (forall i :: 0 <= i < numberOfQuestions ==>
              Questions.ParseQuestion(state.questions[i]) == Some(Questions.DrawnQuestion(questionDraws[i])))
        && state.questionNo == 1 && state.currentQuestion == state.questions[0] && shown == [0]
    {
      if state.quizActive {
        return;
      }
      state := InitialState(questionTimeout);
      shown := [];
      SwitchScreen(1);
      var questions := Questions.GenerateQuestions(numberOfQuestions, questionDraws);
      state := state.(questions := questions);
      SetQuestionAndAnswers(state.questionNo, draws, shuffle);
      StartTimer();
      state := state.(quizActive := true);
    }

    /** `_updateHighScores(name, results)`, as written: a non-empty list is reversed in
        place before its first entry is compared, whatever the decision. */
    method UpdateHighScores(name: string, results: int)
      modifies this`highScores, this`state, this`screen
      ensures highScores == Reverse(old(highScores))
      ensures var admitted := AdmitsAsWritten(old(highScores), name, results, numberOfBestResults);
        && state == old(state).(nameEntryPossible := admitted || old(state.nameEntryPossible))
        && screen == if admitted then 2 else 0
    {
      var noResultsOrPlayerName := results <= 0 || |name| < 3;
      var notEnoughPoints := false;
      if |highScores| > 0 {
        highScores := Reverse(highScores);
        notEnoughPoints := highScores[0].score >= results;
      }
      var listIsFull := |highScores| >= numberOfBestResults;
      if noResultsOrPlayerName || notEnoughPoints || listIsFull {
        SwitchScreen(0);
        return;
      }
      state := state.(nameEntryPossible := true);
      SwitchScreen(2);
    }

    /** `_endQuiz`: quit the timer, allow a restart, and decide on the high-score list
        with the current player name and score. */
    method EndQuiz()
      requires Core() && state.quizActive
      modifies this`state, this`timerLive, this`highScores, this`screen
      ensures Valid()
      ensures !state.quizActive && !timerLive
      ensures highScores == Reverse(old(highScores))
      ensures var admitted := AdmitsAsWritten(old(highScores), old(state.playerName), old(state.score),
                                              numberOfBestResults);
        && state == old(state).(timePassed := 0, timeRemaining := questionTimeout, quizActive := false,
                                nameEntryPossible := admitted)
        && screen == if admitted then 2 else 0
    {
      QuitTimer();
      state := state.(quizActive := false);
      ghost var before := state;
      UpdateHighScores(state.playerName, state.score);
      ReverseFlipsOrder(old(highScores));
      assert BoardFits(highScores, state.nameEntryPossible, numberOfBestResults);
      assert |shown| == state.questionNo == before.questionNo;
    }

    /** What an answer worth `points` does to a quiz that was in state `s0`, with the
        high-score list `h0` and the questions `shown0` displayed: the points are added;
        after the last question the quiz ends, every question has been shown once in
        order, and the list and the screen follow the as-written admission check;
        otherwise the next question is displayed and its timer starts with full time. */
    ghost predicate AnswerGiven(s0: State, h0: seq<Entry>, shown0: seq<int>, points: int)
      reads this
    {
      && (s0.questionNo == numberOfQuestions ==> QuizEnded(s0, h0, points))
      && (s0.questionNo < numberOfQuestions ==> NextQuestionShown(s0, h0, shown0, points))
    }

    /** The last answer of a quiz: the points are added, the quiz and its timer stop with
        the counters reset, and the list and the screen follow the as-written admission
        check; the question on display and the timer handle stay. */
    ghost predicate QuizEnded(s0: State, h0: seq<Entry>, points: int)
      reads this
    {
      && state == s0.(score := s0.score + points, timePassed := 0, timeRemaining := questionTimeout,
                      quizActive := false,
                      nameEntryPossible := AdmitsAsWritten(h0, s0.playerName, s0.score + points,
                                                           numberOfBestResults))
      && !timerLive
      && 0 <= numberOfQuestions && shown == Upto(numberOfQuestions)
      && highScores == Reverse(h0)
      && screen == if state.nameEntryPossible then 2 else 0
    }

    /** Any other answer: the points are added, the next question is displayed and its
        timer starts with full time; the list stays as it was. */
    ghost predicate NextQuestionShown(s0: State, h0: seq<Entry>, shown0: seq<int>, points: int)
      reads this
    {
      && state.score == s0.score + points
      && state.questions == s0.questions && state.playerName == s0.playerName
      && state.quizActive && timerLive && screen == 1
      && state.questionNo == s0.questionNo + 1
      && 0 <= s0.questionNo < |state.questions|
      && state.currentQuestion == state.questions[s0.questionNo]
      && shown == shown0 + [s0.questionNo]
      && state.timePassed == 0 && state.timeRemaining == questionTimeout
      && highScores == h0
    }

    /** `_giveAnswer(pointsToAdd, shouldAddTimeBonus)`: add the points and, when asked, the
        time remaining; then end the quiz if the last question was on display, or show
        the next question and restart the timer. */
    method GiveAnswer(pointsToAdd: int, shouldAddTimeBonus: bool, draws: seq<real>, shuffle: seq<int>)
      requires Core() && state.quizActive
      requires 0 <= pointsToAdd && (shouldAddTimeBonus ==> 0 <= state.timeRemaining)
      requires state.questionNo < numberOfQuestions ==> NextDrawsFit(draws, shuffle)
      modifies this`state, this`timerLive, this`highScores, this`screen, this`answers,
               this`correctAnswerIndex, this`shown
      ensures Valid()
      ensures AnswerGiven(old(state), old(highScores), old(shown),
                          pointsToAdd + if shouldAddTimeBonus then old(state.timeRemaining) else 0)
    {
      var timeBonus := if shouldAddTimeBonus then state.timeRemaining else 0;
      state := state.(score := state.score + pointsToAdd + timeBonus);
      if state.questionNo == numberOfQuestions {
        EndQuiz();
        assert shown == Upto(numberOfQuestions);
        assert QuizEnded(old(state), old(highScores), pointsToAdd + timeBonus);
      } else {
        SetQuestionAndAnswers(state.questionNo, draws, shuffle);
        StartTimer();
        assert NextQuestionShown(old(state), old(highScores), old(shown), pointsToAdd + timeBonus);
      }
    }

    /** A click on answer button `j`: the button showing the question's value gives 10
        points plus the time remaining, every other button gives nothing. */
    method ClickAnswer(j: int, draws: seq<real>, shuffle: seq<int>)
      requires Valid() && state.quizActive && 0 <= j < numberOfAnswers
      requires state.questionNo < numberOfQuestions ==> NextDrawsFit(draws, shuffle)
      modifies this`state, this`timerLive, this`highScores, this`screen, this`answers,
               this`correctAnswerIndex, this`shown
      ensures Valid()
      ensures AnswerGiven(old(state), old(highScores), old(shown),
                          if old(answers[j]) == old(Questions.EvaluateText(state.currentQuestion).value)
                          then 10 + old(state.timeRemaining) else 0)
    {
      if j == correctAnswerIndex {
        GiveAnswer(10, true, draws, shuffle);
      } else {
        GiveAnswer(0, false, draws, shuffle);
      }
    }

    /** One call of the interval callback: one second passes; one second after the
        counter showed zero the interval is cancelled and the question counts as
        answered wrongly, without a bonus. */
    method Tick(draws: seq<real>, shuffle: seq<int>)
      requires Valid() && timerLive
      requires state.questionNo < numberOfQuestions ==> NextDrawsFit(draws, shuffle)
      modifies this`state, this`timerLive, this`highScores, this`screen, this`answers,
               this`correctAnswerIndex, this`shown
      ensures Valid()
      ensures old(state.timePassed) < questionTimeout ==>
        && state == old(state).(timePassed := old(state.timePassed) + 1,
                                timeRemaining := old(state.timeRemaining) - 1)
        && timerLive && highScores == old(highScores) && screen == old(screen)
        && answers == old(answers) && correctAnswerIndex == old(correctAnswerIndex)
        && shown == old(shown)
      ensures old(state.timePassed) == questionTimeout ==>
        AnswerGiven(old(state).(timePassed := 0, timeRemaining := 0), old(highScores), old(shown), 0)
    {
      state := state.(timePassed := state.timePassed + 1, timeRemaining := state.timeRemaining - 1);
      if state.timePassed == questionTimeout + 1 {
        timerLive := false;
        state := state.(timeRemaining := 0, timePassed := 0);
        assert state == old(state).(timePassed := 0, timeRemaining := 0);
        assert Core() && state.quizActive;
        GiveAnswer(0, false, draws, shuffle);
      }
    }

    /** `_showHighScores` ("Join the Hall of Fame"): when a name entry is pending, add the
        trimmed name (or "Anonymous") with the score, sort the list by descending score
        and show it. */
    method ShowHighScores()
      requires Valid()
      modifies this`highScores, this`state, this`screen
      ensures Valid()
      ensures !old(state.nameEntryPossible) ==>
        highScores == old(highScores) && state == old(state) && screen == old(screen)
      ensures old(state.nameEntryPossible) ==>
        var entry := Entry(CommitName(old(state.playerName)), old(state.score));
        && highScores == SortByScore(old(highScores) + [entry])
        && SortedDesc(highScores)
        && multiset(highScores) == multiset(old(highScores)) + multiset{entry}
        && |highScores| == |old(highScores)| + 1 <= numberOfBestResults
        && state == old(state).(nameEntryPossible := false) && screen == 3
    {
      if !state.nameEntryPossible {
        return;
      }
      // A pending name entry means no quiz runs and the list has room for one more.
      assert !state.quizActive && |highScores| < numberOfBestResults;
      var playerName := CommitName(state.playerName);
      var results := state.score;
      highScores := highScores + [Entry(playerName, results)];
      highScores := SortByScore(highScores);
      SwitchScreen(3);
      state := state.(nameEntryPossible := false);
      assert !state.quizActive && shown == Upto(state.questionNo);
    }
  }
}
