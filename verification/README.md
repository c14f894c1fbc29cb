# Multiplication games: a Dafny model

This project models the game logic of `script.js`, a browser page of
multiplication games for children. It covers:

- **Array Garden.** The player fills cells of a 10 x 10 grid to form an
  array with a target number of rows and columns.
- **Quiz.** Ten multiple-choice questions with factors from a chosen range.
- **Monster.** Defeat a number by picking two factors whose product it is.
- **Time Attack.** 60 seconds of questions: +10 for a correct answer, and a
  wrong one costs 5, but never below 0.
- **Falling Stars.** Stars carrying a multiplication fall down a canvas.
  Typing a product catches its star, and every star that reaches the bottom
  costs a life.
- **The language button.** It flips between traditional Chinese and English.

Every value `Math.random()` returns is a `real` parameter in [0, 1) (module
`Draws`). The option loop of the quiz and of the time attack retries until it
has four options. It takes a finite sequence of draws and requires that they
let it finish (`Options.Completes`). `Options.SuitableDrawsExist` shows that
such draws exist for every positive answer.

Star positions, speeds and frame times are `real`s. The grid selection, the
quiz, the monster, the time-attack round and the star field are classes whose
methods update their fields, as the page's global state is updated.

Modules:

| module | contents |
|---|---|
| `Wrappers` | `Option` |
| `Collections` | lists without duplicates, `Set` construction, `indexOf` |
| `Draws` | random draws and factors in [2, 9] |
| `Language` | the language toggle |
| `ArrayGarden` | the grid selection and its check |
| `Options` | the option-building loop |
| `Quiz` | the quiz |
| `Monster` | the monster game |
| `TimeAttack` | the timed round |
| `FallingStars` | the star field |

## Model

| member | source | states |
|---|---|---|
| Language.Toggle | script.js:19-20 | The language after a click differs from the one before. With two languages this fixes the result. |
| Language.ToggleTwice | script.js:19-20 | Two clicks return to the starting language. |
| Language.AfterClicksParity | script.js:2 | The page starts in traditional Chinese. After n clicks of the language button it shows English iff n is odd, and traditional Chinese iff n is even. |
| Collections.FirstIndex | script.js:70 | `indexOf` returns the first position holding the value, or -1 exactly when the value is absent. |
| Collections.Distinct | script.js:90-91 | A `Set` built from the mapped rows or columns has no duplicates, holds exactly the mapped values, and is no longer than its source. |
| Collections.DistinctCard | script.js:118-119 | A list without duplicates has as many distinct values as elements, so a `Set`'s size is its length. |
| ArrayGarden.Toggled | script.js:70-77 | A click on an absent cell appends it. A click on a present cell removes exactly one occurrence of it, so the list gets one shorter and its multiset loses exactly that cell. |
| ArrayGarden.SpliceOut | script.js:75 | `splice(idx, 1)` on a list without duplicates keeps it duplicate-free. The removed value is gone and every other value stays. |
| ArrayGarden.ToggledSelection | script.js:69-79 | A click adds an absent cell and removes a present one. The set of selected cells changes by exactly that cell, the length by one, and the selection stays duplicate-free and within the grid. |
| ArrayGarden.ToggleTwice | script.js:69-79 | Clicking a cell twice restores the selected set. When the cell was absent, the very same list comes back. |
| ArrayGarden.Garden.constructor | script.js:52-54 | At page load nothing is selected and the target is 2 x 3. |
| ArrayGarden.Garden.NewTask | script.js:96-107 | The target rows and columns are `2 + floor(u * 4)`, so both lie in [2, 5], and the selection is cleared. |
| ArrayGarden.Garden.ToggleCell | script.js:69-79 | The method pushes an absent cell and splices out a present one. The selected set changes by exactly that cell, and the class invariant (no duplicates, cells 0..99, targets in [2, 5]) is kept. |
| ArrayGarden.Rows | script.js:90 | The `Set` of rows, in order of first occurrence: a value is in it iff it is `Math.floor(i / 10)` of some selected cell `i`, each such row appears once, and it is never larger than the selection. |
| ArrayGarden.Cols | script.js:91 | The `Set` of columns, in order of first occurrence: a value is in it iff it is `i % 10` of some selected cell `i`, each such column appears once, and it is never larger than the selection. |
| ArrayGarden.SelectionInProduct | script.js:90-91 | Every selected cell lies in the product of the selection's row set and column set. Columns are within the grid width. |
| ArrayGarden.ProductCard | script.js:118-122 | The product of r distinct rows and c distinct in-grid columns has r * c cells. |
| ArrayGarden.CountIsProduct | script.js:118-122 | A selection never has more than rows * cols cells. It has exactly rows * cols cells iff it is the full product of its rows and columns. |
| ArrayGarden.Classify | script.js:113-131 | The verdict is "empty" iff nothing is selected. It is "wrong" iff the row or column count differs from the target. A "success" selection has exactly target rows * target cols cells, and a "shape" selection does not. |
| ArrayGarden.ClassifyMeaning | script.js:109-131 | The verdict is "empty" iff nothing is selected. It is "success" iff the rows and columns match the target and the selection is a full array. It is "shape" iff they match but the selection has holes. It is "wrong" iff the rows or the columns differ from the target. On success the count is target rows * target cols. |
| ArrayGarden.Garden.Check | script.js:109-131 | The verdict on the current selection, with the meaning of each verdict stated in terms of rows, columns and the full product. |
| ArrayGarden.Info | script.js:81-94 | The info line shows "? x ?" iff nothing is selected. Otherwise the count shown is the number of selected cells, and the row and column counts are each between 1 and that number. |
| ArrayGarden.InfoBounds | script.js:81-94 | The info line shows "? x ?" iff nothing is selected. Otherwise the filled count is between 1 and rows * cols. |
| Draws.Below | script.js:97 | `Math.floor(Math.random() * n)` lies in [0, n) for positive n. |
| Draws.Factor | script.js:220-221 | `2 + Math.floor(Math.random() * 8)` lies in [2, 9]. |
| Draws.ProductRange | script.js:220-222 | The product of two drawn factors lies in [4, 81]. |
| Options.Offset | script.js:175 | `Math.floor(Math.random() * 11) - 5` lies in [-5, 5]. |
| Options.Step | script.js:175-176 | One round of the loop body only appends, and at most one option. The option it appends is positive, within 5 of the answer, and not already listed. |
| Options.Fill | script.js:173-177 | The loop only appends. It stops adding once four options are held. Every option it appends is positive, within 5 of the answer, and not already listed. |
| Options.FillDistinct | script.js:176 | The `includes` test keeps the option list free of duplicates. |
| Options.FillOffers | script.js:174-177 | A drawn positive candidate ends up among the options unless four were already held. |
| Options.ThreeOffsetsComplete | script.js:174-177 | Three distinct non-zero offsets with positive candidates are enough for the loop to finish. |
| Options.SuitableDrawsExist | script.js:173-177 | For every answer of at least 1, some draws let the loop finish. |
| Options.CompletedOptions | script.js:173-177 | A finished loop holds four distinct options. The first is the answer, and the others are positive, differ from it, and lie within 5 of it. |
| Options.BuildOptions | script.js:173-177 | The `while` loop returns the list `Fill` describes: four distinct options, the answer first, and the others positive and within 5 of it. |
| Quiz.QuizFactor | script.js:165-166 | `min + floor(u * (max - min + 1))` lies in [min, max] when min <= max. |
| Quiz.QuizGame.constructor | script.js:135 | At page load the range is 2..9, with 10 questions, none asked and score 0. |
| Quiz.QuizGame.Start | script.js:142-147 | Starting resets the range, current = 0, total = 10 and score = 0, then poses question 1. Calls of `nextQuizQuestion` still scheduled are not cancelled. |
| Quiz.QuizGame.NextQuestion | script.js:149-177 | When current >= total, the quiz ends without incrementing and shows the score, with "excellent" iff score >= 8. Otherwise current rises by exactly 1 and a question with the loop's four distinct options, the answer first, is posed, whether or not the question on screen was answered. When the score does not exceed the questions asked, score <= current <= total holds afterwards. |
| Quiz.QuizGame.CheckAnswer | script.js:190-201 | Only the first click on a question counts. It adds one point iff the clicked value is the answer and schedules exactly one next question, so score <= current <= total is kept. Later clicks change nothing. |
| Quiz.QuizGame.CheckAnswerAsWritten | script.js:190-201 | As written, every click on the correct value adds one point, and every click schedules one more call of `nextQuizQuestion`. |
| Quiz.QuizGame.TimerFires | script.js:201 | One scheduled `nextQuizQuestion` runs: the pending count drops by one, and the quiz ends or moves to the next question as `NextQuestion` states. |
| Quiz.DoubleClickOnLastQuestion | script.js:190-201 | With every click counted, two clicks on the last question's answer give a score above the total. |
| Quiz.DoubleClickSkipsQuestion | script.js:190-201 | As written, two clicks on the first question's answer schedule two next questions. Once both run, the quiz is on question 3 with 2 points, so question 2 was shown and replaced unanswered. |
| Quiz.DoubleClickCountsOnce | script.js:190-201 | With only the first click counting, the same two clicks give 1 point and one next question, and the quiz is on question 2 with the score bound kept. |
| Monster.Hits | script.js:235 | An attack wins iff the first pick divides the monster's number and the second pick is the quotient. |
| Monster.Beatable | script.js:211-222 | Both factors a monster was made from are offered by the selects. Picked in either order they win, and for each first pick at most one second pick wins. |
| Monster.MonsterGame.constructor | script.js:205 | Before the first monster the number is 0. |
| Monster.MonsterGame.NewMonster | script.js:219-222 | The monster's number is the product of two drawn factors in [2, 9], so it lies in [4, 81]. |
| Monster.MonsterGame.Attack | script.js:229-243 | The verdict is a win iff the picks are a factorisation of the number (first pick divides it, second is the quotient). The monster is unchanged. |
| TimeAttack.AnswerScore | script.js:308-312 | A correct answer adds exactly 10. A wrong one gives the larger of 0 and score - 5: never negative, never below score - 5, and equal to one of the two. |
| TimeAttack.AnswerScoreGrid | script.js:307-314 | One answer keeps the score a non-negative multiple of 5. |
| TimeAttack.ScoreAfterBounds | script.js:307-314 | After any answers the score is non-negative and a multiple of 5. It is at most 10 per correct answer and at least 10 per correct answer minus 5 per wrong one. |
| TimeAttack.Round.constructor | script.js:258 | At page load 60 seconds are left and the score is 0. |
| TimeAttack.Round.NextQuestion | script.js:288-299 | The answer is a product of two factors in [2, 9], and the options are the four the loop builds. |
| TimeAttack.Round.Start | script.js:265-272 | A round starts with 60 seconds, score 0, a first question, and the interval running. |
| TimeAttack.Round.Tick | script.js:272-279 | A tick lowers the time by exactly 1. The round ends exactly when it reaches 0. |
| TimeAttack.Round.Answer | script.js:307-315 | A correct click adds 10 and poses a new question. A wrong one makes the score `max(0, score - 5)` and keeps the question. The score stays a non-negative multiple of 5. |
| TimeAttack.PlayOutClock | script.js:265-279 | A round started afresh ends after exactly 60 ticks. |
| FallingStars.SpawnX | script.js:406 | `Math.random() * (width - 60) + 30` keeps 30 pixels from both sides when the canvas is wider than 60. |
| FallingStars.SpawnSpeed | script.js:408 | `1 + Math.random() * 1.5` lies in [1, 2.5). |
| FallingStars.NewStar | script.js:399-410 | A spawned star has a and b in [2, 9], answer a * b, y = -30, speed in [1, 2.5), and x within the margins. |
| FallingStars.Advance | script.js:390 | A star only moves down, and by `speed * dt / 16`. Its factors, answer, x and speed do not change. |
| FallingStars.AdvanceCompose | script.js:390 | Moving for dt1 and then dt2 is moving for dt1 + dt2. |
| FallingStars.AdvanceAll | script.js:389-390 | Every star of the list moves, and nothing else changes: the list keeps its length and order, and entry k is star k moved by dt. |
| FallingStars.FallenStays | script.js:391 | A star past the bottom edge stays past it as time goes on, so a star above the edge after moving was above it before. |
| FallingStars.Survivors | script.js:391-395 | No star kept after a frame is past the bottom edge. |
| FallingStars.SurvivorsFallen | script.js:389-396 | Each star is either kept or counted as fallen: kept + fallen = all. |
| FallingStars.SurvivorsAppend | script.js:389-396 | Removal keeps the relative order of the stars. The survivors and fallen counts of a concatenation are those of its parts. |
| FallingStars.NoneFallen | script.js:391-395 | When no star is past the bottom edge, all of them are kept unchanged and no life is lost. |
| FallingStars.NextTimer | script.js:383-387 | After a frame the spawn timer never exceeds 2000 ms. |
| FallingStars.SpawnRate | script.js:383-387 | Over any frames, each spawn consumes more than 2000 ms of elapsed time. The timer holds the remainder. |
| FallingStars.Pool | script.js:383-386 | The stars of a frame keep the old ones in order. One new star, well formed, is appended iff the accumulated time exceeds 2000 ms. |
| FallingStars.AdvanceAllLast | script.js:389-390 | Moving a list is moving all but its last star, then the last one. |
| FallingStars.SplitLast | script.js:389-396 | The survivors and the fallen count of a moved list are those of all but its last star, plus the last star's own. |
| FallingStars.SweepWithoutThrow | script.js:389-396 | While the lives cover every star that falls in the frame, the loop as written never throws. It keeps exactly the moved stars above the edge, and lives drop by exactly the number that fell. |
| FallingStars.SweepThrows | script.js:389-396 | When more stars fall in one frame than there are lives, the loop as written throws, with lives at exactly -1. |
| FallingStars.SweepWellFormed | script.js:389-396 | Every star the loop as written leaves, thrown or not, is well formed. |
| FallingStars.SweepStep | script.js:389-396 | One step of the backward loop at index i: a moved star above the edge is kept; a fallen one is removed at a life, and the loop stops if lives go negative. |
| FallingStars.ThreeFallWithOneLife | script.js:389-396 | With 1 life and three stars that all fall, the loop as written throws after two removals. The first star stays on the list, unmoved, and lives end at -1, although all three stars fell. |
| FallingStars.SurvivorsWellFormed | script.js:389-396 | Removing fallen stars keeps every remaining star well formed. |
| FallingStars.FindAnswer | script.js:433 | `findIndex` returns the first star whose answer equals the typed value. It returns -1 exactly when none matches or the input is not a number. |
| FallingStars.RemoveOne | script.js:436 | Splicing out one star removes exactly that star and keeps the others. |
| FallingStars.StarsGame.constructor | script.js:333-335 | At page load there are no stars, score 0 and 3 lives. |
| FallingStars.StarsGame.Start | script.js:345-363 | A game starts with no stars, score 0, 3 lives, the spawn timer at 0, the clock at the current time, the frames running, and the game-over screen hidden. |
| FallingStars.StarsGame.SpawnStar | script.js:399-410 | Exactly one new star, `NewStar` of the draws, is appended, and the class invariant (every star well formed, timer and score in range) is kept. |
| FallingStars.StarsGame.MoveStars | script.js:389-396 | The backward loop leaves exactly the moved stars above the bottom edge, in order. Lives drop by exactly the number removed. |
| FallingStars.StarsGame.UpdateStars | script.js:382-397 | A star spawns iff the accumulated time exceeds 2000 ms, and then the timer is reset to 0. All stars, the new one included, move. The fallen ones are removed at one life each. |
| FallingStars.StarsGame.Frame | script.js:368-380 | With the lives display never asked for a negative count, a frame is driven by the time since the previous one and removes every fallen star. The next frame is requested iff lives remain, and otherwise the game-over screen is shown. |
| FallingStars.StarsGame.MoveStarsAsWritten | script.js:389-396 | The backward loop as written gives exactly what `Sweep` describes: the stars left, the lives left, and whether `"❤".repeat(lives)` in `updateStarsUI` (line 446) threw. |
| FallingStars.StarsGame.UpdateStarsAsWritten | script.js:382-397 | The spawn as in `UpdateStars`, then the loop as written, with the outcome `Sweep` describes on the frame's pool. |
| FallingStars.StarsGame.FrameAsWritten | script.js:368-380 | A frame as written. Without a throw, the next frame is requested iff lives remain, and otherwise the game-over screen is shown. With a throw, neither happens: no next frame, no game-over screen, a frozen game. |
| FallingStars.StarsGame.Submit | script.js:431-442 | A typed answer removes the first star with that answer and adds 10. With no match, the stars and the score are unchanged. |
| FallingStars.FirstFrame | script.js:382-397 | On a 400 x 300 canvas, a first frame 2100 ms after the start spawns one star. That star is still above the bottom edge after moving, so no life is lost. |
| FallingStars.CatchFirstStar | script.js:345-442 | A game started at 0 ms spawns its first star at the 2100 ms frame. Typing the star's product catches it for 10 points with all lives left. |

## Left out

- Drawing is not modelled: text, styles, the grid cells, the canvas drawing (`drawStars`), `drawMonsterArray` and the end screens.
- Scheduling is modelled only as the events it produces: `setInterval`, `setTimeout` and `requestAnimationFrame` are not. Each tick, frame or click is a method call. The quiz keeps the number of `nextQuizQuestion` calls scheduled and not yet run (`pending`), and `TimerFires` runs one of them. The one-second delay is the interval between the click and that call. The model does not state which order the calls run in relative to other clicks.
- The shuffle of the option list (`opts.sort(() => Math.random() - 0.5)`) is not modelled. The options are kept in the order the loop builds them.
- `parseInt` of the star input is not modelled. The input is an already-parsed integer, or `None` when it is not a number; `None` matches no star. The monster selects are integers 1..9.
- Floating point is not modelled. Star positions, speeds, canvas sizes and frame times are exact reals, with no IEEE rounding.
- Options.BuildOptions: the source loop retries without bound. The model consumes a finite list of draws and requires that those draws finish the loop.
- FallingStars.StarsGame.MoveStars: the corrected loop runs to the end, as it does once the lives display cannot throw. The loop as written is `MoveStarsAsWritten`; see Findings. Both update a local copy of `stars` and assign it at the end. Neither loop lets other code see the list before that, and a throw leaves the copy in the state the source's list has at that point.
- FallingStars.StarsGame.UpdateStars: in the corrected frame, lives are not bounded below. When several stars fall in one frame, lives can go below 0, and the game then ends.
- FallingStars.StarsGame.Submit: the source calls `updateStarsUI` after its changes. Once a frame as written has frozen the game with lives at -1, that call throws again. The throw comes after the changes, so it changes no state and is not modelled.
- Star objects are plain values, so the model cannot express aliasing of a star object. The source shares no star object outside the list.
- Star falling speed follows the code: `1 + Math.random() * 1.5`, with no further damping of the speed.
- Quiz, time attack, monster and star factors are drawn independently per question. The model does not reason about distributions.

## Findings

| source | as written | input that shows it | evidently intended | confidence | as-written member | corrected member |
|---|---|---|---|---|---|---|
| script.js:389-396 | Each star removal calls `updateStarsUI`, and `"❤".repeat(lives)` (line 446) throws a RangeError once lives is negative. The loop and the frame stop there: the stars before that index are neither moved nor removed, and neither the next frame nor `endStarsGame` runs. | 1 life left and three stars that all pass the bottom edge in one frame. The first star stays on the list, unmoved, and lives end at -1. The game freezes without the game-over screen. | Every fallen star is removed and the game-over screen appears. | high, not executed | FallingStars.ThreeFallWithOneLife | FallingStars.StarsGame.Frame |
| script.js:190-201 | `checkQuizAnswer` adds a point on every click of the correct option. The buttons stay active for the one-second delay before the next question. | Answer all ten questions, then click the last question's correct option twice before the delay ends. The score becomes 11 out of 10. | Only the first answer to a question counts, so the score never exceeds the number of questions asked. | medium, not executed | Quiz.DoubleClickOnLastQuestion | Quiz.QuizGame.CheckAnswer |
| script.js:201 | `checkQuizAnswer` schedules `nextQuizQuestion` on every click, not only on the first answer to a question. | Click the correct option of question 1 twice within a second. Both scheduled calls run: question 2 appears and is replaced by question 3 at once, unanswered. | One next question per answered question. | medium, not executed | Quiz.DoubleClickSkipsQuestion | Quiz.DoubleClickCountsOnce |
