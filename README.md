# math-quiz session controller in Dafny

This project models `MathQuiz` from `src/MathQuiz.ts`: the browser quiz that asks a
fixed number of arithmetic questions, each under a countdown, and keeps a
high-score list. The model covers the quiz's state machine. That takes in
starting a quiz, showing a question with its answer buttons, scoring an answer
(with a time bonus), the per-question timer, ending the quiz, the high-score
admission check and committing a name to the list. It also covers how questions
and answer choices are built from random numbers.

Modules:

- `Wrappers`: `Option`.
- `Draws`: the range of `Math.random()`.
- `Text`: decimal digits, JavaScript's `trim`, and `_normalizeName`.
- `Questions`: question strings `a op b` built from random draws. Also a parser
  and evaluator for those strings, which stands in for `eval`.
- `Answers`: the decoy loop of `_createAnswers`, the shuffle and `indexOf`.
- `Leaderboard`: entries, the in-place `reverse` and `sort`, and the admission
  rule, both as written and as intended.
- `Quiz`: the class `MathQuiz`.
  - The record `this.state` is a datatype-valued field, because the source
    replaces it wholesale on every start.
  - `highScores`, the screen number, the answer buttons and the liveness of the
    interval are fields that the methods update in place.
  - A ghost field `shown` records the question indices displayed since the start.

Environment inputs:

- The random numbers (`Math.random()`) are parameters: one `QuestionDraw` per
  question, a sequence of draws for the decoy loop, and a shuffle order, which is
  a permutation.
- The interval callback of `setInterval` is the method `Tick`, which the
  environment calls once per second while the interval is live.
- A click on answer button `j` is the method `ClickAnswer`.

The class invariant `Valid()` states the following:

- `timePassed + timeRemaining` equals the time limit.
- An interval runs exactly while a quiz is active.
- While a quiz runs:
  - question `questionNo - 1` is displayed, together with pairwise distinct
    answers, one of which is its value at `correctAnswerIndex`;
  - the questions displayed so far are exactly `0, 1, ..., questionNo - 1`.
- The high-score list never exceeds its capacity, and it is sorted one way or the
  other.
- The score is never negative.

## Model

| member | source | states |
|---|---|---|
| Quiz.InitialState | src/MathQuiz.ts:94-107 | The fresh state has score 0, question 0, no questions, the player "Anonymous" and no timer handle, with no quiz or name entry under way. Its counters already add up to the time limit. |
| Quiz.MathQuiz.constructor | src/MathQuiz.ts:76-87 | The configuration becomes four frozen constants. The session starts valid, on screen 0, with an empty list and no interval. More answers than the decoy window holds (40) are refused, see Findings. |
| Quiz.MathQuiz.SwitchScreen | src/MathQuiz.ts:524-536 | Only the screen number changes, to the one requested. |
| Quiz.MathQuiz.ChangePlayerName | src/MathQuiz.ts:661-663 | Only `playerName` changes, and the invariant is kept. |
| Quiz.MathQuiz.QuitTimer | src/MathQuiz.ts:227-239 | When a handle is stored, both counters are reset and the interval is cancelled. Otherwise nothing changes. Afterwards no interval is live. |
| Quiz.MathQuiz.StartTimer | src/MathQuiz.ts:245-248 | The previous timer is quit before the new interval is scheduled, so exactly one interval is live afterwards. The counters are reset exactly when a handle was stored. |
| Quiz.MathQuiz.Tick | src/MathQuiz.ts:249-266 | One second passes: `timePassed` rises by one and `timeRemaining` falls by one, and nothing else changes. One tick after the limit, the interval stops and the question counts as a wrong answer without bonus, with the whole outcome of `_giveAnswer(0, false)` from a state with both counters at 0: the score is kept; questions and player name are kept; the next question is shown with full time and the list untouched, or, after the last question, the quiz ends with the counters reset to 0 and the limit, the question on display and the timer handle kept, the list reversed and the admission check deciding the screen. The invariant is kept. |
| Quiz.MathQuiz.SetQuestionAndAnswers | src/MathQuiz.ts:380-400 | Question `k` is displayed, `questionNo` rises by exactly one, and `k` is appended to the questions shown. The buttons show distinct answers, with the question's value at `correctAnswerIndex` and decoys everywhere else. |
| Quiz.MathQuiz.StartQuiz | src/MathQuiz.ts:568-593 | While a quiz runs, nothing changes. Otherwise the state is reset and screen 1 is shown. The generated questions read back as the drawn ones. Question 0 is displayed with `questionNo` 1, a live timer with full time, and the quiz active. |
| Quiz.MathQuiz.GiveAnswer | src/MathQuiz.ts:276-294 | The score rises by the points plus, when asked, the time remaining; the questions and the player name are kept. Points and bonus are never negative, so the score stays non-negative. After the last question the state differs from the old one only in the score, the counters (reset to 0 and the limit by `_quitTimer`), the active flag and the name-entry flag; the interval stops, exactly the questions `0 .. N-1` have been shown, the list is reversed, and name entry (screen 2) opens exactly when the as-written check admits the name and the new score, screen 0 otherwise. Otherwise question `questionNo` is displayed as number `questionNo + 1`, appended to the questions shown, the timer restarts with full time, and the list is unchanged. |
| Quiz.MathQuiz.ClickAnswer | src/MathQuiz.ts:355-365 | The whole outcome of `_giveAnswer`, with 10 points plus the time remaining exactly when the clicked button shows the question's value and 0 points otherwise: the next question is displayed with `questionNo` one higher and the counters reset, or the quiz ends after the last question with the counters reset, the question on display and the timer handle kept, the list reversed and the admission check deciding the screen. |
| Quiz.MathQuiz.EndQuiz | src/MathQuiz.ts:508-517 | The timer is quit and the quiz becomes inactive. The list is left reversed. Name entry opens (screen 2) exactly when the as-written check admits the player's name and score; otherwise screen 0 is shown. |
| Quiz.MathQuiz.UpdateHighScores | src/MathQuiz.ts:478-501 | The list is left reversed whatever the decision. A rejection shows screen 0 and leaves `nameEntryPossible` as it was. An admission sets it and shows screen 2. |
| Quiz.MathQuiz.ShowHighScores | src/MathQuiz.ts:406-423 | Without a pending name entry, nothing changes. Otherwise the list becomes the old entries plus the trimmed name (or "Anonymous") with the score, as a permutation sorted by descending score. It still fits the capacity, name entry closes, and screen 3 is shown. |
| Quiz.UptoIndices | src/MathQuiz.ts:288-293 | The shown-questions record `Upto(n)` holds exactly the indices `0 .. n-1`, in order. |
| Leaderboard.Reverse | src/MathQuiz.ts:483 | `reverse()` keeps the length and puts entry `i` at position `n-1-i`. |
| Leaderboard.ReverseFlipsOrder | src/MathQuiz.ts:483 | Reversing a list sorted descending gives one sorted ascending, and the other way round. |
| Leaderboard.ReverseInvolution | src/MathQuiz.ts:483 | Reversing twice gives the list back. |
| Leaderboard.ReverseKeepsEntries | src/MathQuiz.ts:483 | Reversing keeps the same entries, as a multiset. |
| Leaderboard.Insert | src/MathQuiz.ts:421-423 | Inserting into a descending list gives a descending list one longer, holding the old entries plus the new one. |
| Leaderboard.SortByScore | src/MathQuiz.ts:421-423 | The comparator sort yields a permutation of its input, sorted by descending score. |
| Leaderboard.CommitName | src/MathQuiz.ts:411 | The stored name is the trimmed name when that is non-empty, and "Anonymous" exactly when trimming leaves nothing. It is never empty and neither starts nor ends with whitespace. |
| Leaderboard.AdmitsAsWritten | src/MathQuiz.ts:480-487 | Admitted exactly when the score is positive, the name has at least three characters, the list is not full, and the list is empty or the result beats the score at the END of the list it was given. |
| Leaderboard.Admits | src/MathQuiz.ts:478-501 | The intended rule: admitted exactly when the score is positive, the name has at least three characters, the list is not full, and the list is empty or some entry scores below the result. |
| Leaderboard.AdmitsIgnoresOrder | src/MathQuiz.ts:478-501 | The intended decision depends only on the entries of the list, not on their order. |
| Leaderboard.AsWrittenAgreesWhenSorted | src/MathQuiz.ts:482-483 | On a list sorted by descending score, the check as written makes the intended decision: it compares with the minimum. |
| Leaderboard.ReversedBoardRejectsQualifyingScore | src/MathQuiz.ts:482-483 | A rejected quiz leaves [50, 10] as [10, 50]. A following score of 30 is then rejected although the intended rule admits it. |
| Leaderboard.MinScore | src/MathQuiz.ts:483 | The lowest score on a non-empty list: no entry is lower, and some entry has it. |
| Answers.GenerateRandomAnswer | src/MathQuiz.ts:303-307 | A decoy lies strictly between `correct - diff - 1` and `correct + diff`. For an integer `correct` it lies in `[correct - diff, correct + diff - 1]`. |
| Answers.Fill | src/MathQuiz.ts:331-340 | When the retry loop finishes, it has added exactly `missing` answers after the ones it started with. Distinctness is preserved, and every added answer is an integer in the decoy window. |
| Answers.Permute | src/MathQuiz.ts:343 | The shuffled list has the same length, with position `j` holding the answer at `p[j]`. It holds exactly the same values, and a list without repeats stays without repeats. |
| Answers.IndexOf | src/MathQuiz.ts:346 | `indexOf` gives -1 exactly when the value is absent. Otherwise it gives a position holding the value, with no earlier occurrence. |
| Answers.CreateAnswers | src/MathQuiz.ts:315-373 | The result is `n` pairwise distinct answers. The correct value is at `correctIndex`, and every other answer is a decoy in the window. The values are exactly those the retry loop found. |
| Answers.ShuffledAnswers | src/MathQuiz.ts:343-346 | Shuffling keeps distinctness, the correct value, the decoy range and the set of values. |
| Answers.DistinctIntegersInWindow | src/MathQuiz.ts:331-340 | Pairwise distinct integers in a half-open window number at most the window's width. |
| Answers.NoDecoysBeyondWindow | src/MathQuiz.ts:331-340 | For an integer question value, the retry loop can finish only when at most 40 answers are asked for: all of them are distinct integers in a window of width 40. |
| Answers.EvenDraws | src/MathQuiz.ts:333-336 | Forty evenly spread numbers, each a valid `Math.random()` result. |
| Answers.EvenDrawProposes | src/MathQuiz.ts:303-307 | The `d`-th of those draws proposes the decoy `correct - 20 + d`. |
| Answers.FillFromEvenDraws | src/MathQuiz.ts:331-340 | Fed those draws, the retry loop finds every decoy still missing, provided enough draws remain. |
| Answers.Unshuffled | src/MathQuiz.ts:343 | The identity order is a permutation. |
| Answers.SomeDrawsFit | src/MathQuiz.ts:331-346 | For every answer count from 1 to 40 and every question value, some draws make the retry loop finish and some shuffle order applies, so the bound of the constructor excludes no count that can finish. |
| Questions.RandomOperand | src/MathQuiz.ts:545 | `Math.ceil(r * 10)` lies in 0..10. It is 0 only for the draw 0, and it is the least integer not below `r * 10`. |
| Questions.RandomOperation | src/MathQuiz.ts:546-549 | Each of `+`, `-`, `/`, `*` owns one quarter of [0, 1), in the order of the `operations` array. |
| Questions.CharOp | src/MathQuiz.ts:546 | Reading an operator character is the inverse of writing it. Every other character reads as None. |
| Questions.Ceil | src/MathQuiz.ts:545 | `Math.ceil(x)` is the least integer not below `x`. |
| Questions.DrawnQuestion | src/MathQuiz.ts:545-556 | The question three draws produce has operands in 0..10, and it has no value exactly when `/` is drawn together with a right-operand draw of 0. |
| Questions.QuestionText | src/MathQuiz.ts:552-557 | The string `"" + a + op + b + ""` has at least three characters, no space, and the operator right after the digits of the left operand. |
| Questions.ParseLeftDigits | src/MathQuiz.ts:321 | The parser's scan over the digits of the left operand ends at the first non-digit with the value of all the digits before it. |
| Questions.ParseRightDigits | src/MathQuiz.ts:321 | The parser's scan over the right operand reads it to the end of the string with its full value. |
| Questions.ParseRightText | src/MathQuiz.ts:321 | Scanning the decimal text of `n` as the right operand reads exactly `n`. |
| Questions.QuestionRoundTrip | src/MathQuiz.ts:553-557 | Parsing the text `a op b` of a question gives the question back. |
| Questions.Evaluate | src/MathQuiz.ts:321 | The value of a question exists except for division by zero. Sums, differences and products are integers; a quotient times the divisor gives the dividend. |
| Questions.EvaluateText | src/MathQuiz.ts:321 | The stand-in for `eval(question)`: the text of every question evaluates to the value of that question. |
| Questions.GenerateQuestions | src/MathQuiz.ts:543-562 | One string per draw. Each reads back as the question drawn, evaluates to that question's value, and contains no space. |
| Text.DigitChar | src/MathQuiz.ts:553-557 | A digit below 10 is written as the decimal character of that value. |
| Text.DigitValue | src/MathQuiz.ts:553-557 | Reading a decimal character is the inverse of writing it. |
| Text.NatToString | src/MathQuiz.ts:553-557 | A number's decimal text is non-empty, made of digits, and one character long exactly for numbers below 10. |
| Text.ParseNatToString | src/MathQuiz.ts:553-557 | Reading a number's decimal text gives the number back. |
| Text.Leading | src/MathQuiz.ts:411 | Counts exactly the run of whitespace at the start of a string. |
| Text.Trailing | src/MathQuiz.ts:411 | Counts exactly the run of whitespace at the end of a string. |
| Text.TrimStart | src/MathQuiz.ts:411 | Dropping the leading run leaves a string that does not start with whitespace. |
| Text.TrimEnd | src/MathQuiz.ts:411 | Dropping the trailing run leaves a string that does not end with whitespace. |
| Text.Trim | src/MathQuiz.ts:411 | `trim()` gives the contiguous part of the string after its leading whitespace, everything after that part is whitespace, and the part neither starts nor ends with whitespace. |
| Text.ToLower | src/MathQuiz.ts:116 | Upper-case ASCII letters map to their lower-case letters, and every other character is kept. |
| Text.NormalizeName | src/MathQuiz.ts:115-117 | Same length, with every space turned into `-` and every other character lower-cased. The result has no space and no upper-case letter. |
| Text.NormalizeNameIdempotent | src/MathQuiz.ts:115-117 | Normalising twice is the same as normalising once. |

## Left out

- DOM construction and rendering are reduced to the screen number and the
  answer values on the buttons. This covers containers, controls, the name
  input, `_clearNameInput`, the list markup in `_showHighScores`, the
  progress-bar styles and the `init` wiring of `src/MathQuiz.ts:669-838`. So are
  the regular-expression rewrite of the container's class in `_switchScreen`,
  and `console.log`.
- Scheduling is not modelled. The 1000 ms interval is the method `Tick`, the
  environment's call of it, and the handle is a flag. Nothing about time or
  concurrency is modelled.
- Random numbers are parameters. The random-comparator `sort` that shuffles the
  answers is an arbitrary permutation supplied by the caller, so its bias and
  its dependence on the engine's sort algorithm are not modelled.
- Answer values are exact rationals. JavaScript rounds quotients to doubles, and
  its printed form of a fraction is not modelled.
- Quiz.MathQuiz.StartQuiz requires every drawn question to have a value. A draw
  of exactly 0 gives the operand 0, and `x/0` makes `eval` yield `Infinity` or
  `NaN`, so that every decoy is `NaN`. That path is excluded, not modelled.
- Answers.CreateAnswers requires draws with which the retry loop finishes (`DrawsFit`).
  The source loops until enough distinct decoys appear, and for an integer
  question value it never finishes when more than 40 answers are configured (see
  Findings). Draw sequences with which it does not finish are not modelled.
- Quiz.MathQuiz.constructor refuses more than 40 answers, which the source
  accepts and then hangs on at the first integer-valued question (see Findings).
- Answers.CreateAnswers requires at least one answer, which the constructor
  guarantees; the source would show no buttons for a count of 0.
- Quiz.MathQuiz.constructor takes the merged configuration. The default
  values (10 s, 4 answers, 5 questions, 15 results), the spread with a user
  object, and `src/index.ts` (which sets 3 answers) are not modelled. The
  preconditions exclude a negative timeout and empty quizzes.
- Before the first quiz the source's `state` fields are null. Every one of them
  read before a start is a flag, and null reads as false, so they are modelled
  by the initial state.
- String lengths count characters. JavaScript's `length` counts UTF-16 code
  units, which differs for characters outside the Basic Multilingual Plane.
- Text.ToLower covers only ASCII letters, whereas `toLowerCase` maps the whole
  of Unicode.
- `eval` is not modelled. `Questions.EvaluateText` reads strings made of digits,
  one operator character and digits, in decimal, and yields None for every other
  string. Its contract covers only the strings the quiz produces, which are
  `QuestionText` of a question. It also accepts operands with leading zeros such
  as `01+2`, where `eval` would read a legacy octal literal; the quiz never
  produces such a string.
- `webpack.config.js` is build tooling and is not part of this model.

## Findings

| source | as written | input that shows it | evidently intended | confidence | as-written member | corrected member |
|---|---|---|---|---|---|---|
| src/MathQuiz.ts:482-483 | `this.highScores.reverse()[0]` reverses the list in place whenever it is non-empty, even when the score is then rejected. The next check therefore reads the list in ascending order and compares with the HIGHEST score. | The list holds scores [50, 10] with room for 15. A quiz scoring 0 is rejected and leaves [10, 50]. A quiz scoring 30 by "Anonymous" is then rejected, because 50 >= 30, although 30 beats the 10 on the list. | Admit when the list is empty or some entry scores below the result, whatever the list's order. | not executed | Leaderboard.ReversedBoardRejectsQualifyingScore (on Leaderboard.AdmitsAsWritten, used by Quiz.MathQuiz.UpdateHighScores) | Leaderboard.Admits (with Leaderboard.AdmitsIgnoresOrder and Leaderboard.AsWrittenAgreesWhenSorted) |
| src/MathQuiz.ts:331-340 | The decoy loop runs `while (i < NUMBER_OF_ANSWERS - 1)` and only counts a proposal that is not already present. Proposals are integers in a window of width `2 * answerDifference` = 40. Nothing bounds `NUMBER_OF_ANSWERS`. | A configuration with 41 answers and the question `2+3`: every proposal is an integer from -15 to 24, a range of 40 values that includes the correct value 5, so at most 40 distinct answers exist. Once they are all present every proposal is rejected and the loop never ends. | Reject (or cap) a configured answer count above 40. | not executed | Answers.NoDecoysBeyondWindow | Quiz.MathQuiz.constructor (requires at most 40 answers; Answers.SomeDrawsFit shows every count up to 40 can finish) |

The class `Quiz.MathQuiz` keeps the as-written check, because it models the
code. Its invariant therefore only promises that the list is sorted one way or
the other. `Leaderboard.Admits` is the corrected rule, and
`Leaderboard.AsWrittenAgreesWhenSorted` shows the two agree whenever the list
is in descending order, as it is after every commit.
