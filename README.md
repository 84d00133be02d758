# Weekly quiz component, modelled in Dafny

This project models the quiz component of a small React study application. The user picks one of the weeks of a question bank, or the "combined" quiz drawn from all weeks together. The component then shows the questions one at a time. It shuffles each question's options, scores each answer and shows "Correct!" or "Wrong!". After a delay it moves to the next question, or to a result screen that shows the score out of the number of questions. A restart returns to week selection.

The project has three modules:

- `Shuffle` (`shuffle.dfy`) is the in-place Fisher–Yates shuffle.
  - The random draw at each step is replaced by an oracle sequence `picks`. `Fits` demands that every draw lies in `[0, i]`, the range the source's draw covers.
  - `Shuffled` is the specification: the swaps the loop makes (`Trace`), applied in order (`ApplySwaps`).
  - `ShuffleArray` is the loop on an `array`, proved to produce exactly `Shuffled` of the old contents.
- `QuestionBank` (`bank.dfy`) holds the questions, the weeks and the bank.
  - The bank is a sequence of weeks whose order stands for the key order of the week object.
  - `Lookup` models indexing the bank by week id.
  - `Combined` models the `reduce`/`concat` of all weeks. It is related to an independent right-recursive definition (`Flatten`, `TotalCount`, `Bag`).
- `Quiz` (`quiz.dfy`) is the session.
  - `Session` holds the eight state variables.
  - One pure function per transition: `Selected`, `ShowOptions`, `Answered`, `Advanced`, `AfterTimer` and `Restarted`.
  - There are lemmas about single transitions and two invariants.
    - `Inv` keeps the index on a question and bounds the score by the number of questions passed.
      - Established: initially, by every restart and by every selection that loads questions.
      - Kept: by a selection that loads nothing, by an answer followed by its advance, and by the timer step alone from a state that satisfies it.
      - Broken: between an answer and its advance, a correct answer makes the score one more than the index. Because nothing locks a question once answered, a second answer before the advance breaks `Inv` for good. The score can then exceed the number of questions (`Quiz.DoubleAnswerOverscores`: "2 out of 1").
    - `OptionsShown` keeps the options on screen a permutation of the current question's options. Every transition preserves it.
  - Results about whole runs: `Play` and `QuizScore`, and `PlayShuffled` for the run with the option shuffles included.
  - The class `QuizComponent` keeps the same state in mutable fields. Each of its methods is proved to perform the corresponding transition.

## Model

| member | source | states |
|---|---|---|
| Shuffle.Swap | src/components/Quiz1.jsx:9 | exchanging two elements keeps the length and the multiset of elements |
| Shuffle.SwapElements | src/components/Quiz1.jsx:9 | after the exchange, position i holds the old element at j and j the old one at i; every other position is unchanged |
| Shuffle.Trace | src/components/Quiz1.jsx:7-9 | the loop from counter i makes exactly i swaps; the k-th exchanges position i-k (never 0) with the draw for that position |
| Shuffle.ApplySwaps | src/components/Quiz1.jsx:7-10 | performing any in-bounds sequence of swaps keeps the length and the multiset |
| Shuffle.TraceInBounds | src/components/Quiz1.jsx:7-9 | with draws in [0, i], every swap of a shuffle of n elements stays inside the array |
| Shuffle.Shuffled | src/components/Quiz1.jsx:6-12 | the shuffled sequence is a permutation of the input: same length, same multiset |
| Shuffle.ShuffleSwaps | src/components/Quiz1.jsx:7-9 | a shuffle of n elements makes n-1 swaps (none for n <= 1); it visits positions n-1 down to 1 once each, and always swaps with a position j <= i |
| Shuffle.ApplyIdleSwaps | src/components/Quiz1.jsx:9 | swaps that exchange a position with itself leave the sequence unchanged |
| Shuffle.ShuffleIdentityPicks | src/components/Quiz1.jsx:6-12 | the draws alone decide the order: draws that always pick the position itself give back the input |
| Shuffle.ShuffleArray | src/components/Quiz1.jsx:6-12 | the in-place loop returns the same array; its new contents are exactly `Shuffled` of the old contents, a permutation of them |
| QuestionBank.Lookup | src/components/Quiz1.jsx:36 | indexing by id finds nothing exactly when no week has that id; otherwise it finds the questions of a week with that id |
| QuestionBank.LookupWeek | src/components/Quiz1.jsx:36 | with distinct ids, a week's own id finds exactly that week's questions |
| QuestionBank.FlattenAppend | src/components/Quiz1.jsx:28-30 | concatenating the weeks of two banks is concatenation of their concatenations |
| QuestionBank.CombinedIsFlatten | src/components/Quiz1.jsx:28-30 | the left fold with `concat` from `[]` equals the plain week-after-week concatenation |
| QuestionBank.FlattenCounts | src/components/Quiz1.jsx:28-30 | the concatenation has as many entries as the weeks hold questions, and the same multiset |
| QuestionBank.Combined | src/components/Quiz1.jsx:28-30 | the `reduce`/`concat` over the weeks drops and duplicates nothing: its length is the total question count and its multiset is the bank's |
| QuestionBank.CountsSnoc | src/components/Quiz1.jsx:28-30 | appending one week to a bank adds that week's questions to the total count and to the bag |
| QuestionBank.FlattenBlock | src/components/Quiz1.jsx:28-30 | in the reference concatenation, the k-th question of week w sits at offset TotalCount of the earlier weeks plus k |
| QuestionBank.CombinedBlock | src/components/Quiz1.jsx:28-30 | each week's questions form a contiguous block of the combined list, in order, after the questions of all earlier weeks |
| Quiz.Load | src/components/Quiz1.jsx:26-37 | "combined" always loads a list with every question of the bank, each as often as the weeks hold it; any other week loads exactly what the lookup finds (nothing for an unknown week) |
| Quiz.ShowOptions | src/components/Quiz1.jsx:45-50 | the options effect changes only the shuffled options; when there are questions they become a permutation of the current question's options; with no questions nothing changes |
| Quiz.Answered | src/components/Quiz1.jsx:52-61 | the answer handler never changes the questions, the index, the result flag or the selected week |
| Quiz.Advanced | src/components/Quiz1.jsx:64-75 | the timer callback never changes the questions, the score or the selected week |
| Quiz.AfterTimer | src/components/Quiz1.jsx:45-75 | callback plus effect equals the callback except for the options; on moving to the next question the options are a permutation of that question's; at the end they are kept |
| Quiz.Selected | src/components/Quiz1.jsx:24-43 | a selection always sets the selected week and never touches the answer or the feedback; the questions either stay as they were or become exactly what `Load` loads for the week |
| Quiz.SelectCombined | src/components/Quiz1.jsx:26-33 | selecting "combined" loads a permutation of the concatenation of all weeks in key order, with the bank's total count and multiset |
| Quiz.SelectSingleWeek | src/components/Quiz1.jsx:34-36 | selecting a week of the bank loads exactly that week's questions, in order and unshuffled |
| Quiz.SelectResets | src/components/Quiz1.jsx:24-43 | a selection that loads questions sets index 0, score 0 and no result; the first question's options become a permutation of its options; answer and feedback are left as they were |
| Quiz.SelectWithoutLoad | src/components/Quiz1.jsx:24-25 | a selection whose effect does not run (same or empty week), or fails on an unknown week, changes only the selected week |
| Quiz.AnswerScores | src/components/Quiz1.jsx:52-61 | the score rises by exactly one and the feedback is "Correct!" iff the answer equals the current question's correct answer; otherwise the score stays and the feedback is "Wrong!"; the answer is recorded; nothing else changes |
| Quiz.AnswerTwiceScoresTwice | src/components/Quiz1.jsx:52-61 | nothing locks a question once answered: two correct answers before the advance score two points |
| Quiz.AdvanceSteps | src/components/Quiz1.jsx:64-75 | the advance clears answer and feedback; before the last question it moves to the next and shuffles that one's options; at the last it shows the result and keeps index and options |
| Quiz.Restarted | src/components/Quiz1.jsx:78-85 | a restart returns every state variable to its initial value except the recorded answer and the shuffled options |
| Quiz.InitialInv | src/components/Quiz1.jsx:15-22 | the initial state satisfies the session invariant |
| Quiz.RestartInv | src/components/Quiz1.jsx:78-85 | the state after a restart satisfies the session invariant |
| Quiz.SelectEstablishesInv | src/components/Quiz1.jsx:24-43 | a selection that loads questions establishes the session invariant from any prior state |
| Quiz.SelectInv | src/components/Quiz1.jsx:24-43 | every selection, loading or not, preserves the session invariant |
| Quiz.InitialOptionsShown | src/components/Quiz1.jsx:15-22 | the initial state has no questions, so its empty options satisfy the on-screen options invariant |
| Quiz.SelectOptionsShown | src/components/Quiz1.jsx:24-50 | every selection keeps the options on screen a permutation of the current question's options |
| Quiz.AnswerOptionsShown | src/components/Quiz1.jsx:52-61 | an answer keeps the options on screen a permutation of the current question's options |
| Quiz.AdvanceOptionsShown | src/components/Quiz1.jsx:45-75 | the timer callback and the effect it triggers keep the options on screen a permutation of the current question's options |
| Quiz.RestartOptionsShown | src/components/Quiz1.jsx:78-85 | after a restart there are no questions, so the options invariant holds whatever options remain |
| Quiz.AdvanceInv | src/components/Quiz1.jsx:64-75 | from a state that satisfies the invariant, the timer step with the effect it triggers keeps it: it never raises the score, and it either moves the index up or shows the result |
| Quiz.AnswerAdvanceInv | src/components/Quiz1.jsx:52-75 | an answer on a shown question, followed by its advance, preserves the invariant: the index stays on a question and the score stays at most the index plus one |
| Quiz.DoubleAnswerOverscores | src/components/Quiz1.jsx:52-75 | answering a one-question week correctly twice before the advance ends on the result screen with score 2 out of 1, outside the invariant |
| Quiz.CorrectCount | src/components/Quiz1.jsx:54-55 | the number of correct answers never exceeds the number of answers |
| Quiz.AllCorrect | src/components/Quiz1.jsx:54-55 | all answers count exactly when every answer equals its question's correct answer |
| Quiz.OptionsNotRead | src/components/Quiz1.jsx:45-75 | neither the answer handler nor the timer callback reads the shuffled options; both commute with replacing them |
| Quiz.Play | src/components/Quiz1.jsx:52-75 | a run of answer-then-advance steps never changes the question list or the options |
| Quiz.PlayProgress | src/components/Quiz1.jsx:64-75 | over a run the index grows by one per answer; the result shows exactly when the last question has been answered, and the index then stays on the last question |
| Quiz.PlayScore | src/components/Quiz1.jsx:52-75 | over a run the score grows by exactly the number of correct answers |
| Quiz.QuizScore | src/components/Quiz1.jsx:52-75 | a whole quiz, one answer per question, ends on the result screen with score equal to the number of correct answers, at most the number of questions, and equal to it iff every answer was right |
| Quiz.PlayOptionsCarried | src/components/Quiz1.jsx:52-75 | no step of a run reads the options: a run started with other options ends in the same state with those options |
| Quiz.PlayShuffled | src/components/Quiz1.jsx:45-75 | the component's run, with the option-shuffle effect after each advance, never changes the question list |
| Quiz.PlayShuffledIsPlay | src/components/Quiz1.jsx:45-75 | the run with the option-shuffle effect reaches the same index, score, result, answer and feedback as `Quiz.Play` |
| Quiz.QuizShuffledScore | src/components/Quiz1.jsx:45-75 | the component's own whole quiz, shuffles included, ends on the result screen with score equal to the number of correct answers, all of them iff every answer was right |
| Quiz.WrongRightRight | src/components/Quiz1.jsx:52-75 | three questions answered wrong, right, right end on the result screen with score 2 |
| Quiz.QuizComponent.constructor | src/components/Quiz1.jsx:15-22 | the component starts with every state variable at its initial value |
| Quiz.QuizComponent.ShuffleCurrentOptions | src/components/Quiz1.jsx:45-50 | the effect shuffles a fresh copy of the current options in an array and performs exactly the `ShowOptions` transition |
| Quiz.QuizComponent.LoadQuestions | src/components/Quiz1.jsx:26-37 | the loaded questions are exactly `Load`: for "combined" the concatenation is shuffled in place in a fresh array |
| Quiz.QuizComponent.SelectWeek | src/components/Quiz1.jsx:24-43 | reports failure exactly when the effect hits an unknown week; the new state is exactly the `Selected` transition |
| Quiz.QuizComponent.Answer | src/components/Quiz1.jsx:52-61 | reports failure exactly when there is no current question; the new state is exactly the `Answered` transition |
| Quiz.QuizComponent.Advance | src/components/Quiz1.jsx:64-75 | the new state is exactly the `AfterTimer` transition: the callback followed by the options effect when the index changed |
| Quiz.QuizComponent.Restart | src/components/Quiz1.jsx:78-85 | the new state is exactly the `Restarted` transition |

## Left out

- Randomness: `Math.random` and `Math.floor` are floating point. The draws are instead a parameter (`picks`, `optionPicks`), constrained only to the range the source's draw covers, so nothing is claimed about the distribution.
- Time: the one-second `setTimeout` is not modelled. `Advance` is a separate step that the caller runs after an `Answer` that returned `ok == true`. Those are the only answer/advance pairs the component performs: a failing answer throws at line 53, before it reaches `setTimeout` at line 64, so it schedules no callback.
- Stale closures: the source's callback reads the index and question list captured at answer time, while `Advance` reads the current fields. These agree when each answer is followed by its own advance. Two answers given before the advance schedule two callbacks that both move to the same next index; that is not modelled. The missing answer lock itself is modelled (`Quiz.AnswerTwiceScoresTwice`).
- React scheduling: state updates are applied immediately, in source order. The selection and options effects are assumed to run directly after the state change that triggers them, which makes them part of `SelectWeek` and `Advance`.
- Restart and the options effect: after `handleRestart` the question list is empty, so the options effect does nothing. `Restart` therefore does not call it.
- Rendering: the JSX markup, CSS and styling are not modelled. The answer highlighting and the score display are not modelled either; the display reads `score` and the question count, which are. The interface offers only "week-1" to "week-12" and "combined", and shows options only while the result is hidden and the index is on a question. `Quiz.AnswerAdvanceInv` takes that condition (`!showResult`) as its precondition; `Answer` accepts any string.
- Errors, unknown week: indexing the bank with an unknown week id throws inside the selection effect (line 36). With no error boundary around it, React unmounts the component. The model does not capture the unmounting: `SelectWeek` reports `ok == false`, and only the selected week, set before the effect ran, has changed.
- Errors, no current question: answering with no current question throws in the click handler (line 53) before any setter runs and before the timer is scheduled (line 64). React does not unmount a component for an error in an event handler, so the component stays as it was and no advance follows. The model matches this: `Answer` reports `ok == false` and changes nothing. `Quiz.AnswerAdvanceInv` also covers a failed answer followed by an advance. The component never performs that pair; including it only makes the lemma more general.
- Quiz data: the contents of `quizData.json` are not part of this model. The bank is a parameter, and `Quiz.SelectSingleWeek` assumes distinct week ids, which object keys guarantee.
- Application shell: the routing and the other pages of the application are not part of this model.
- Numbers: JavaScript numbers are modelled as unbounded naturals. No quiz approaches 2^53 questions.
- Quiz.Play: the run omits the option-shuffle effect after each advance, and so carries the starting options through. `Quiz.PlayShuffled` is the run with the effect included. `Quiz.PlayShuffledIsPlay` proves that the two runs agree on everything except the options.
- Single-week shuffling: a single week's questions are loaded in their stored order (`src/components/Quiz1.jsx:36`); only the combined list is shuffled (line 33).
