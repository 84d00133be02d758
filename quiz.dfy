/** The quiz component: a week is selected, its questions are shown one at a
    time with their options in shuffled order, each answer is scored and
    followed (one second later, in the component) by an advance to the next
    question or to the result screen, and a restart returns to week selection.

    The session is specified by pure transition functions over `Session`
    values; `QuizComponent` holds the same state in mutable fields and each of
    its methods is proved to perform the corresponding transition. */
module Quiz {
  import opened Shuffle
  import opened QuestionBank

  /** The component's eight state variables. */
  datatype Session = Session(
    selectedWeek: string,
    questions: seq<Question>,
    currentQuestionIndex: nat,
    userAnswer: string,
    score: nat,
    showResult: bool,
    feedback: string,
    shuffledOptions: seq<string>)

  /** The initial values of the state variables. */
  const Initial := Session("", [], 0, "", 0, false, "", [])

  const Combination := "combined"
  const CorrectMessage := "Correct!"
  const WrongMessage := "Wrong!"

  // ---------------------------------------------------------------------
  // Week selection

  /** The oracle is long enough, and in range, to shuffle the combined list. */
  predicate CombinedFits(bank: Bank, week: string, picks: seq<nat>) {
    week == Combination ==> Fits(picks, |Combined(bank)|)
  }

  /** The questions a selection of `week` loads: all weeks combined and
      shuffled, or the named week's list as it stands; None when the bank has
      no such week. */
  function Load(bank: Bank, week: string, picks: seq<nat>): (r: Option<seq<Question>>)
    requires CombinedFits(bank, week, picks)
    ensures week == Combination ==>
      r.Some? && |r.value| == TotalCount(bank) && multiset(r.value) == Bag(bank)
    ensures week != Combination ==> r == Lookup(bank, week)
  {
    if week == Combination then
      Some(Shuffled(Combined(bank), picks))
    else
      Lookup(bank, week)
  }

  /** The selection effect runs: the selected week changed and is non-empty. */
  predicate SelectRuns(s: Session, week: string) {
    week != s.selectedWeek && week != ""
  }

  /** The selection effect fails reading the questions of an unknown week. */
  predicate SelectThrows(s: Session, bank: Bank, week: string) {
    SelectRuns(s, week) && week != Combination && Lookup(bank, week).None?
  }

  /** The option oracle fits the first question that the selection loads. */
  predicate SelectFits(s: Session, bank: Bank, week: string, picks: seq<nat>, optionPicks: seq<nat>) {
    && CombinedFits(bank, week, picks)
    && match Load(bank, week, picks)
       case None => true
       case Some(qs) => |qs| > 0 ==> Fits(optionPicks, |qs[0].options|)
  }

  // ---------------------------------------------------------------------
  // Option shuffle

  /** The option-shuffle effect can run on `s` with this oracle. */
  predicate OptionsFit(s: Session, picks: seq<nat>) {
    |s.questions| > 0 ==>
      s.currentQuestionIndex < |s.questions| &&
      Fits(picks, |s.questions[s.currentQuestionIndex].options|)
  }

  /** The option-shuffle effect: when there are questions, the current
      question's options are copied and the copy is shuffled. */
  function ShowOptions(s: Session, picks: seq<nat>): (r: Session)
    requires OptionsFit(s, picks)
    ensures r == s.(shuffledOptions := r.shuffledOptions)
    ensures |s.questions| > 0 ==>
      multiset(r.shuffledOptions) == multiset(s.questions[s.currentQuestionIndex].options)
    ensures |s.questions| == 0 ==> r == s
  {
    if |s.questions| > 0 then
      s.(shuffledOptions := Shuffled(s.questions[s.currentQuestionIndex].options, picks))
    else
      s
  }

  /** The state after `week` is selected: `selectedWeek` is always set; the
      effect then runs only when the value changed and is non-empty, and it
      loads the questions, resets index, score and result flag, after which
      the options of the first question are shuffled. When the week is
      unknown the effect fails before any other state is set. */
  function Selected(s: Session, bank: Bank, week: string, picks: seq<nat>, optionPicks: seq<nat>): (r: Session)
    requires SelectFits(s, bank, week, picks, optionPicks)
    ensures r.selectedWeek == week
    ensures r.userAnswer == s.userAnswer && r.feedback == s.feedback
    ensures r.questions == s.questions || Load(bank, week, picks) == Some(r.questions)
  {
    var t := s.(selectedWeek := week);
    if !SelectRuns(s, week) then t
    else match Load(bank, week, picks)
      case None => t
      case Some(qs) =>
        ShowOptions(t.(questions := qs, currentQuestionIndex := 0, score := 0, showResult := false), optionPicks)
  }

  // ---------------------------------------------------------------------
  // Answer, advance, restart

  /** There is a question at the current index. */
  predicate HasCurrent(s: Session) {
    s.currentQuestionIndex < |s.questions|
  }

  /** `handleAnswer` up to the timer: compares with the current question's
      correct answer, scores and sets the feedback, records the answer. With
      no current question the handler fails on its first line, changing
      nothing. */
  function Answered(s: Session, answer: string): (r: Session)
    ensures r.questions == s.questions && r.currentQuestionIndex == s.currentQuestionIndex
    ensures r.showResult == s.showResult && r.selectedWeek == s.selectedWeek
  {
    if !HasCurrent(s) then s
    else if answer == s.questions[s.currentQuestionIndex].correctAnswer then
      s.(score := s.score + 1, feedback := CorrectMessage, userAnswer := answer)
    else
      s.(feedback := WrongMessage, userAnswer := answer)
  }

  /** The timer callback: clears answer and feedback, then moves to the next
      question or shows the result. */
  function Advanced(s: Session): (r: Session)
    ensures r.questions == s.questions && r.score == s.score && r.selectedWeek == s.selectedWeek
  {
    var t := s.(userAnswer := "", feedback := "");
    if s.currentQuestionIndex + 1 < |s.questions| then
      t.(currentQuestionIndex := s.currentQuestionIndex + 1)
    else
      t.(showResult := true)
  }

  /** The option oracle fits the question an advance would move to. */
  predicate AdvanceFits(s: Session, picks: seq<nat>) {
    s.currentQuestionIndex + 1 < |s.questions| ==>
      Fits(picks, |s.questions[s.currentQuestionIndex + 1].options|)
  }

  /** The timer callback followed by the option-shuffle effect, which runs
      when the callback changed the index. */
  function AfterTimer(s: Session, picks: seq<nat>): (r: Session)
    requires AdvanceFits(s, picks)
    ensures r == Advanced(s).(shuffledOptions := r.shuffledOptions)
    ensures s.currentQuestionIndex + 1 < |s.questions| ==>
      multiset(r.shuffledOptions) == multiset(s.questions[s.currentQuestionIndex + 1].options)
    ensures s.currentQuestionIndex + 1 >= |s.questions| ==> r.shuffledOptions == s.shuffledOptions
  {
    var t := Advanced(s);
    if t.currentQuestionIndex != s.currentQuestionIndex then ShowOptions(t, picks) else t
  }

  /** `handleRestart`: every state variable returns to its initial value
      except the recorded answer and the shuffled options, which it does not
      touch. */
  function Restarted(s: Session): (r: Session)
    ensures r == Initial.(userAnswer := s.userAnswer, shuffledOptions := s.shuffledOptions)
  {
    s.(selectedWeek := "", questions := [], currentQuestionIndex := 0,
       score := 0, showResult := false, feedback := "")
  }

  // ---------------------------------------------------------------------
  // Properties of single transitions

  /** Selecting "combined" loads a permutation of the weeks' lists
      concatenated in key order: every question of the bank, each as often as
      the weeks hold it. */
  lemma SelectCombined(s: Session, bank: Bank, picks: seq<nat>, optionPicks: seq<nat>)
    requires s.selectedWeek != Combination
    requires SelectFits(s, bank, Combination, picks, optionPicks)
    ensures var r := Selected(s, bank, Combination, picks, optionPicks);
      && r.selectedWeek == Combination
      && multiset(r.questions) == multiset(Combined(bank))
      && |r.questions| == TotalCount(bank)
      && multiset(r.questions) == Bag(bank)
  {
  }

  /** Selecting a week of the bank loads that week's questions exactly, in
      source order and unshuffled. */
  lemma SelectSingleWeek(s: Session, bank: Bank, w: nat, picks: seq<nat>, optionPicks: seq<nat>)
    requires DistinctIds(bank) && w < |bank|
    requires bank[w].id != Combination && bank[w].id != "" && bank[w].id != s.selectedWeek
    requires SelectFits(s, bank, bank[w].id, picks, optionPicks)
    ensures Selected(s, bank, bank[w].id, picks, optionPicks).questions == bank[w].questions
  {
    LookupWeek(bank, w);
  }

  /** A selection that loads questions starts a fresh session on them: index
      0, score 0, no result shown, the first question's options shuffled;
      the answer and the feedback are left as they were. */
  lemma SelectResets(s: Session, bank: Bank, week: string, picks: seq<nat>, optionPicks: seq<nat>)
    requires SelectFits(s, bank, week, picks, optionPicks)
    requires SelectRuns(s, week) && !SelectThrows(s, bank, week)
    ensures var r := Selected(s, bank, week, picks, optionPicks);
      && Load(bank, week, picks).Some?
      && r.questions == Load(bank, week, picks).value
      && r.selectedWeek == week
      && r.currentQuestionIndex == 0 && r.score == 0 && !r.showResult
      && r.userAnswer == s.userAnswer && r.feedback == s.feedback
      && (r.questions != [] ==> multiset(r.shuffledOptions) == multiset(r.questions[0].options))
  {
  }

  /** A selection whose effect does not run, or fails, changes only the
      selected week. */
  lemma SelectWithoutLoad(s: Session, bank: Bank, week: string, picks: seq<nat>, optionPicks: seq<nat>)
    requires SelectFits(s, bank, week, picks, optionPicks)
    requires !SelectRuns(s, week) || SelectThrows(s, bank, week)
    ensures Selected(s, bank, week, picks, optionPicks) == s.(selectedWeek := week)
  {
  }

  /** An answer raises the score by exactly one and reports "Correct!" iff it
      equals the current question's correct answer; otherwise the score stays
      and the feedback is "Wrong!". The answer is recorded either way, and
      nothing else changes. */
  lemma AnswerScores(s: Session, answer: string)
    requires HasCurrent(s)
    ensures var r := Answered(s, answer);
      var right := answer == s.questions[s.currentQuestionIndex].correctAnswer;
      && (right <==> r.score == s.score + 1)
      && (right <==> r.feedback == CorrectMessage)
      && (!right <==> r.score == s.score)
      && (!right <==> r.feedback == WrongMessage)
      && r.userAnswer == answer
      && r == s.(score := r.score, feedback := r.feedback, userAnswer := answer)
  {
  }

  /** Nothing locks the options while the feedback shows: answering the
      current question correctly twice before the advance scores it twice. */
  lemma AnswerTwiceScoresTwice(s: Session, answer: string)
    requires HasCurrent(s) && answer == s.questions[s.currentQuestionIndex].correctAnswer
    ensures Answered(Answered(s, answer), answer).score == s.score + 2
  {
  }

  /** The advance clears answer and feedback; before the last question it
      moves to the next one and shuffles that one's options, at the last it
      shows the result and keeps the index and options. */
  lemma AdvanceSteps(s: Session, picks: seq<nat>)
    requires AdvanceFits(s, picks)
    ensures var r := AfterTimer(s, picks);
      && r.userAnswer == "" && r.feedback == ""
      && r.questions == s.questions && r.score == s.score
      && (s.currentQuestionIndex + 1 < |s.questions| ==>
            && r.currentQuestionIndex == s.currentQuestionIndex + 1
            && r.showResult == s.showResult
            && multiset(r.shuffledOptions) == multiset(s.questions[r.currentQuestionIndex].options))
      && (s.currentQuestionIndex + 1 >= |s.questions| ==>
            && r.currentQuestionIndex == s.currentQuestionIndex
            && r.showResult
            && r.shuffledOptions == s.shuffledOptions)
  {
  }

  // ---------------------------------------------------------------------
  // Session invariant

  /** The index points at a question when there are any, and the score is
      at most the number of questions passed (one more than the index once
      the result shows). A selection that loads questions and a restart
      establish it, and an answer followed by its advance keeps it. It fails
      between an answer and its advance, and for good once a question is
      answered twice before the advance (see `DoubleAnswerOverscores`). */
  predicate Inv(s: Session) {
    && (|s.questions| == 0 ==> s.currentQuestionIndex == 0 && s.score == 0)
    && (|s.questions| > 0 ==> s.currentQuestionIndex < |s.questions|)
    && s.score <= s.currentQuestionIndex + (if s.showResult then 1 else 0)
  }

  lemma InitialInv()
    ensures Inv(Initial)
  {
  }

  lemma RestartInv(s: Session)
    ensures Inv(Restarted(s))
  {
  }

  /** A selection that loads questions establishes the invariant, whatever
      the state before it. */
  lemma SelectEstablishesInv(s: Session, bank: Bank, week: string, picks: seq<nat>, optionPicks: seq<nat>)
    requires SelectFits(s, bank, week, picks, optionPicks)
    requires SelectRuns(s, week) && !SelectThrows(s, bank, week)
    ensures Inv(Selected(s, bank, week, picks, optionPicks))
  {
  }

  lemma SelectInv(s: Session, bank: Bank, week: string, picks: seq<nat>, optionPicks: seq<nat>)
    requires Inv(s) && SelectFits(s, bank, week, picks, optionPicks)
    ensures Inv(Selected(s, bank, week, picks, optionPicks))
  {
  }

  /** The options on screen are a permutation of the current question's
      options whenever there is a question. */
  predicate OptionsShown(s: Session) {
    |s.questions| > 0 ==>
      s.currentQuestionIndex < |s.questions| &&
      multiset(s.shuffledOptions) == multiset(s.questions[s.currentQuestionIndex].options)
  }

  lemma InitialOptionsShown()
    ensures OptionsShown(Initial)
  {
  }

  lemma SelectOptionsShown(s: Session, bank: Bank, week: string, picks: seq<nat>, optionPicks: seq<nat>)
    requires OptionsShown(s) && SelectFits(s, bank, week, picks, optionPicks)
    ensures OptionsShown(Selected(s, bank, week, picks, optionPicks))
  {
  }

  lemma AnswerOptionsShown(s: Session, answer: string)
    requires OptionsShown(s)
    ensures OptionsShown(Answered(s, answer))
  {
  }

  lemma AdvanceOptionsShown(s: Session, picks: seq<nat>)
    requires OptionsShown(s) && AdvanceFits(s, picks)
    ensures OptionsShown(AfterTimer(s, picks))
  {
  }

  lemma RestartOptionsShown(s: Session)
    ensures OptionsShown(Restarted(s))
  {
  }

  /** The timer step alone keeps the invariant from a state that satisfies
      it: it never raises the score, and it either moves the index up or
      shows the result. */
  lemma AdvanceInv(s: Session, picks: seq<nat>)
    requires Inv(s) && AdvanceFits(s, picks)
    ensures Inv(AfterTimer(s, picks))
  {
  }

  /** An answer followed by its advance, while the result is not shown (the
      only time the options are on screen), keeps the invariant; in
      particular the index stays below the number of questions and the score
      stays at most the index plus one. */
  lemma AnswerAdvanceInv(s: Session, answer: string, picks: seq<nat>)
    requires Inv(s) && !s.showResult
    requires AdvanceFits(Answered(s, answer), picks)
    ensures var r := AfterTimer(Answered(s, answer), picks);
      && Inv(r)
      && (|r.questions| > 0 ==> r.currentQuestionIndex < |r.questions|)
      && r.score <= r.currentQuestionIndex + 1
  {
  }

  /** With no answer lock, answering the only question of a week correctly
      twice before the advance shows a score of 2 out of 1: the result screen
      reports more correct answers than there are questions. */
  lemma DoubleAnswerOverscores(s: Session, answer: string, picks: seq<nat>)
    requires |s.questions| == 1 && s.currentQuestionIndex == 0 && s.score == 0 && !s.showResult
    requires answer == s.questions[0].correctAnswer
    ensures var r := AfterTimer(Answered(Answered(s, answer), answer), picks);
      && r.showResult && r.score == 2 > |r.questions|
      && !Inv(r)
  {
  }

  // ---------------------------------------------------------------------
  // Whole runs

  /** The number of `answers` that equal the correct answers of the questions
      from position `from` on. */
  function CorrectCount(qs: seq<Question>, from: nat, answers: seq<string>): (n: nat)
    requires from + |answers| <= |qs|
    ensures n <= |answers|
    decreases |answers|
  {
    if answers == [] then 0
    else (if answers[0] == qs[from].correctAnswer then 1 else 0) + CorrectCount(qs, from + 1, answers[1..])
  }

  lemma CorrectCountFirst(qs: seq<Question>, from: nat, answers: seq<string>)
    requires from + |answers| <= |qs| && answers != []
    ensures CorrectCount(qs, from, answers) ==
      (if answers[0] == qs[from].correctAnswer then 1 else 0) + CorrectCount(qs, from + 1, answers[1..])
  {
  }

  /** Every answer counts exactly when every answer is the correct one. */
  lemma {:induction false} AllCorrect(qs: seq<Question>, from: nat, answers: seq<string>)
    requires from + |answers| <= |qs|
    ensures CorrectCount(qs, from, answers) == |answers| <==>
      forall k :: 0 <= k < |answers| ==> answers[k] == qs[from + k].correctAnswer
    decreases |answers|
  {
    if answers != [] {
      AllCorrect(qs, from + 1, answers[1..]);
      assert forall k :: 1 <= k < |answers| ==> answers[k] == answers[1..][k - 1];
    }
  }

  /** Neither the answer handler nor the timer callback reads the shuffled
      options, so the option-shuffle effect, which writes only them (see
      `ShowOptions`), has no bearing on index, score or result. */
  lemma OptionsNotRead(s: Session, options: seq<string>, answer: string)
    ensures Answered(s.(shuffledOptions := options), answer) == Answered(s, answer).(shuffledOptions := options)
    ensures Advanced(s.(shuffledOptions := options)) == Advanced(s).(shuffledOptions := options)
  {
  }

  /** Answering with `answers` from a question that is showing, each answer
      followed by the timer callback. */
  function Play(s: Session, answers: seq<string>): (r: Session)
    requires HasCurrent(s) && !s.showResult
    requires s.currentQuestionIndex + |answers| <= |s.questions|
    ensures r.questions == s.questions && r.shuffledOptions == s.shuffledOptions
    decreases |answers|
  {
    if answers == [] then s
    else
      var t := Advanced(Answered(s, answers[0]));
      if t.showResult then t else Play(t, answers[1..])
  }

  /** Playing on from a question that is showing: the index grows by the
      number of answers, and the result shows exactly when the last question
      has been answered (the index then staying on the last question). */
  lemma {:induction false} PlayProgress(s: Session, answers: seq<string>)
    requires HasCurrent(s) && !s.showResult
    requires s.currentQuestionIndex + |answers| <= |s.questions|
    ensures var r := Play(s, answers);
      && r.showResult == (s.currentQuestionIndex + |answers| == |s.questions|)
      && r.currentQuestionIndex ==
           (if r.showResult then |s.questions| - 1 else s.currentQuestionIndex + |answers|)
    decreases |answers|
  {
    if answers != [] {
      var i := s.currentQuestionIndex;
      var t := Advanced(Answered(s, answers[0]));
      if i + 1 < |s.questions| {
        assert t.currentQuestionIndex == i + 1 && !t.showResult;
        assert Play(s, answers) == Play(t, answers[1..]);
        PlayProgress(t, answers[1..]);
      } else {
        assert answers[1..] == [];
        assert Play(s, answers) == t;
      }
    }
  }

  /** Playing on from a question that is showing: the score grows by the
      number of correct answers. */
  lemma {:induction false} PlayScore(s: Session, answers: seq<string>)
    requires HasCurrent(s) && !s.showResult
    requires s.currentQuestionIndex + |answers| <= |s.questions|
    ensures Play(s, answers).score == s.score + CorrectCount(s.questions, s.currentQuestionIndex, answers)
    decreases |answers|
  {
    if answers != [] {
      var i, qs := s.currentQuestionIndex, s.questions;
      var t := Advanced(Answered(s, answers[0]));
      var first := if answers[0] == qs[i].correctAnswer then 1 else 0;
      assert t.questions == qs && t.score == s.score + first;
      CorrectCountFirst(qs, i, answers);
      if i + 1 < |qs| {
        assert t.currentQuestionIndex == i + 1 && !t.showResult;
        assert Play(s, answers) == Play(t, answers[1..]);
        PlayScore(t, answers[1..]);
      } else {
        assert answers[1..] == [];
        assert Play(s, answers) == t;
      }
    }
  }

  /** A whole quiz, one answer per question from a fresh selection, ends on
      the result screen with a score equal to the number of correct answers,
      which is all of them exactly when every answer was right. */
  lemma QuizScore(s: Session, answers: seq<string>)
    requires |s.questions| > 0 && |answers| == |s.questions|
    requires s.currentQuestionIndex == 0 && s.score == 0 && !s.showResult
    ensures var r := Play(s, answers);
      && r.showResult
      && r.score == CorrectCount(s.questions, 0, answers) <= |s.questions|
      && (r.score == |s.questions| <==>
            forall k :: 0 <= k < |answers| ==> answers[k] == s.questions[k].correctAnswer)
  {
    PlayProgress(s, answers);
    PlayScore(s, answers);
    AllCorrect(s.questions, 0, answers);
  }

  /** A three-question quiz answered wrong, right, right ends on the result
      screen with score 2. */
  lemma WrongRightRight(s: Session, answers: seq<string>)
    requires |s.questions| == 3 && |answers| == 3
    requires s.currentQuestionIndex == 0 && s.score == 0 && !s.showResult
    requires answers[0] != s.questions[0].correctAnswer
    requires answers[1] == s.questions[1].correctAnswer && answers[2] == s.questions[2].correctAnswer
    ensures Play(s, answers).showResult && Play(s, answers).score == 2
  {
    QuizScore(s, answers);
    var qs := s.questions;
    CorrectCountFirst(qs, 0, answers);
    CorrectCountFirst(qs, 1, answers[1..]);
    CorrectCountFirst(qs, 2, answers[2..]);
    assert answers[1..][1..] == answers[2..];
    assert answers[2..][1..] == [];
  }

  /** Since no step of `Play` reads the options, the options a run starts
      with are simply carried through it. */
  lemma {:induction false} PlayOptionsCarried(s: Session, options: seq<string>, answers: seq<string>)
    requires HasCurrent(s) && !s.showResult
    requires s.currentQuestionIndex + |answers| <= |s.questions|
    ensures Play(s.(shuffledOptions := options), answers) == Play(s, answers).(shuffledOptions := options)
    decreases |answers|
  {
    if answers != [] {
      var t := Advanced(Answered(s, answers[0]));
      OptionsNotRead(s, options, answers[0]);
      OptionsNotRead(Answered(s, answers[0]), options, answers[0]);
      assert Advanced(Answered(s.(shuffledOptions := options), answers[0])) == t.(shuffledOptions := options);
      if !t.showResult {
        PlayOptionsCarried(t, options, answers[1..]);
      }
    }
  }

  /** The option oracles of a run fit every question the run moves to. */
  predicate RunFits(s: Session, answers: seq<string>, picks: seq<seq<nat>>)
    requires s.currentQuestionIndex + |answers| <= |s.questions|
  {
    && |picks| == |answers|
    && forall k :: 0 <= k < |answers| && s.currentQuestionIndex + k + 1 < |s.questions| ==>
         Fits(picks[k], |s.questions[s.currentQuestionIndex + k + 1].options|)
  }

  /** The run the component performs: each answer is followed by the timer
      callback and the option-shuffle effect (`AfterTimer`), the effect drawing
      from `picks[k]` after the `k`-th answer. */
  function PlayShuffled(s: Session, answers: seq<string>, picks: seq<seq<nat>>): (r: Session)
    requires HasCurrent(s) && !s.showResult
    requires s.currentQuestionIndex + |answers| <= |s.questions|
    requires RunFits(s, answers, picks)
    ensures r.questions == s.questions
    decreases |answers|
  {
    if answers == [] then s
    else
      var a := Answered(s, answers[0]);
      assert a.questions == s.questions && a.currentQuestionIndex == s.currentQuestionIndex;
      var t := AfterTimer(a, picks[0]);
      if t.showResult then t
      else
        RunFitsRest(s, t, answers, picks);
        PlayShuffled(t, answers[1..], picks[1..])
  }

  /** Once a run has moved to the next question, the remaining oracles fit
      the rest of the run. */
  lemma RunFitsRest(s: Session, t: Session, answers: seq<string>, picks: seq<seq<nat>>)
    requires s.currentQuestionIndex + |answers| <= |s.questions| && answers != []
    requires RunFits(s, answers, picks)
    requires t.questions == s.questions && t.currentQuestionIndex == s.currentQuestionIndex + 1
    ensures RunFits(t, answers[1..], picks[1..])
  {
    forall k | 0 <= k < |answers| - 1 && t.currentQuestionIndex + k + 1 < |t.questions|
      ensures Fits(picks[1..][k], |t.questions[t.currentQuestionIndex + k + 1].options|)
    {
      assert picks[1..][k] == picks[k + 1];
    }
  }

  /** The run with the option-shuffle effect reaches the same state as
      `Play` except for the options: index, score, result, answer and
      feedback all agree. */
  lemma {:induction false} PlayShuffledIsPlay(s: Session, answers: seq<string>, picks: seq<seq<nat>>)
    requires HasCurrent(s) && !s.showResult
    requires s.currentQuestionIndex + |answers| <= |s.questions|
    requires RunFits(s, answers, picks)
    ensures PlayShuffled(s, answers, picks) == Play(s, answers).(shuffledOptions := PlayShuffled(s, answers, picks).shuffledOptions)
    decreases |answers|
  {
    if answers != [] {
      var a := Answered(s, answers[0]);
      var t := Advanced(a);
      var u := AfterTimer(a, picks[0]);
      assert u == t.(shuffledOptions := u.shuffledOptions);
      if !t.showResult {
        RunFitsRest(s, u, answers, picks);
        PlayShuffledIsPlay(u, answers[1..], picks[1..]);
        PlayOptionsCarried(t, u.shuffledOptions, answers[1..]);
        assert PlayShuffled(s, answers, picks) == PlayShuffled(u, answers[1..], picks[1..]);
        assert Play(s, answers) == Play(t, answers[1..]);
      }
    }
  }

  /** `QuizScore` for the component's own run, option shuffles included. */
  lemma QuizShuffledScore(s: Session, answers: seq<string>, picks: seq<seq<nat>>)
    requires |s.questions| > 0 && |answers| == |s.questions|
    requires s.currentQuestionIndex == 0 && s.score == 0 && !s.showResult
    requires RunFits(s, answers, picks)
    ensures var r := PlayShuffled(s, answers, picks);
      && r.showResult
      && r.score == CorrectCount(s.questions, 0, answers) <= |s.questions|
      && (r.score == |s.questions| <==>
            forall k :: 0 <= k < |answers| ==> answers[k] == s.questions[k].correctAnswer)
  {
    PlayShuffledIsPlay(s, answers, picks);
    QuizScore(s, answers);
  }

  // ---------------------------------------------------------------------
  // The component

  class QuizComponent {
    /** `quizData.weeks`. */
    const bank: Bank

    var selectedWeek: string
    var questions: seq<Question>
    var currentQuestionIndex: nat
    var userAnswer: string
    var score: nat
    var showResult: bool
    var feedback: string
    var shuffledOptions: seq<string>

    /** The state variables as a value. */
    function Snapshot(): Session
      reads this
    {
      Session(selectedWeek, questions, currentQuestionIndex, userAnswer,
              score, showResult, feedback, shuffledOptions)
    }

    constructor (bank: Bank)
      ensures this.bank == bank && Snapshot() == Initial
    {
      this.bank := bank;
      selectedWeek, questions, currentQuestionIndex, userAnswer := "", [], 0, "";
      score, showResult, feedback, shuffledOptions := 0, false, "", [];
    }

    /** The option-shuffle effect, shuffling a fresh copy of the options so
        that the question itself is left as it was. */
    method ShuffleCurrentOptions(optionPicks: seq<nat>)
      requires OptionsFit(Snapshot(), optionPicks)
      modifies this
      ensures Snapshot() == ShowOptions(old(Snapshot()), optionPicks)
    {
      if |questions| > 0 {
        var options := questions[currentQuestionIndex].options;
        var copy := new string[|options|](k requires 0 <= k < |options| => options[k]);
        assert copy[..] == options;
        var shuffled := ShuffleArray(copy, optionPicks);
        shuffledOptions := shuffled[..];
      }
    }

    /** The questions the selection effect loads: for "combined" the weeks'
        lists are concatenated into a fresh array, which is shuffled in place. */
    method LoadQuestions(week: string, picks: seq<nat>) returns (found: Option<seq<Question>>)
      requires CombinedFits(bank, week, picks)
      ensures found == Load(bank, week, picks)
    {
      if week == Combination {
        var combined := Combined(bank);
        var list := new Question[|combined|](k requires 0 <= k < |combined| => combined[k]);
        assert list[..] == combined;
        var shuffled := ShuffleArray(list, picks);
        found := Some(shuffled[..]);
      } else {
        found := Lookup(bank, week);
      }
    }

    /** A click on a week button (or on "Combined Quiz") and the selection
        effect it triggers; `ok` is false when that effect fails. */
    method SelectWeek(week: string, picks: seq<nat>, optionPicks: seq<nat>) returns (ok: bool)
      requires SelectFits(Snapshot(), bank, week, picks, optionPicks)
      modifies this
      ensures ok == !SelectThrows(old(Snapshot()), bank, week)
      ensures Snapshot() == Selected(old(Snapshot()), bank, week, picks, optionPicks)
    {
      var runs := SelectRuns(Snapshot(), week);
      selectedWeek := week;
      ok := true;
      if !runs {
        return;
      }
      var found := LoadQuestions(week, picks);
      if found.None? {
        ok := false;
        return;
      }
      questions := found.value;
      currentQuestionIndex, score, showResult := 0, 0, false;
      ShuffleCurrentOptions(optionPicks);
    }

    /** `handleAnswer` up to the timer; `ok` is false when there is no
        current question to compare with. */
    method Answer(answer: string) returns (ok: bool)
      modifies this
      ensures ok == HasCurrent(old(Snapshot()))
      ensures Snapshot() == Answered(old(Snapshot()), answer)
    {
      ok := currentQuestionIndex < |questions|;
      if !ok {
        return;
      }
      var correctAnswer := questions[currentQuestionIndex].correctAnswer;
      if answer == correctAnswer {
        score := score + 1;
        feedback := CorrectMessage;
      } else {
        feedback := WrongMessage;
      }
      userAnswer := answer;
    }

    /** The callback the answer schedules, run as the next step. */
    method Advance(optionPicks: seq<nat>)
      requires AdvanceFits(Snapshot(), optionPicks)
      modifies this
      ensures Snapshot() == AfterTimer(old(Snapshot()), optionPicks)
    {
      userAnswer := "";
      feedback := "";
      if currentQuestionIndex + 1 < |questions| {
        currentQuestionIndex := currentQuestionIndex + 1;
        // the index changed, so the option-shuffle effect runs
        ShuffleCurrentOptions(optionPicks);
      } else {
        showResult := true;
      }
    }

    /** `handleRestart`. */
    method Restart()
      modifies this
      ensures Snapshot() == Restarted(old(Snapshot()))
    {
      selectedWeek := "";
      questions := [];
      currentQuestionIndex := 0;
      score := 0;
      showResult := false;
      feedback := "";
    }
  }
}
