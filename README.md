# Cosmic snake: a verified model of the game, its leaderboards and its users

This project models the core of a snake game website:

- **The game engine** (`frontend/app/game/GameCanvas.js`). The snake moves on a 40×30 grid. Eating food gives 10 points and grows the snake by one. A "reset" power-up gives 100 points and cuts the snake back to three cells. The game ends on the walls, on the snake's own body, or on a bomb. Food, power-ups and up to three bombs appear on free cells.
- **The game page phases** (`frontend/app/game/page.js`): not started, running, paused and over.
- **The front-end leaderboards.** `frontend/app/components/Leaderboard.js` merges the player's stored high score into ten built-in rows. `frontend/app/dashboard/page.tsx` does the same on the dashboard.
- **The score API.** `backend/scores/views.py` submits a high score and lists the top ten. The score record is in `backend/scores/models.py`.
- **The user model and its manager** (`backend/users/models.py`).
- **The display-name hook** (`frontend/hooks/use-retrieve-user.ts`).

## Modules

- `SnakeRules` holds the rules of one tick as pure functions over a `Board` snapshot, with lemmas about them.
- `Canvas.GameCanvas` is a class. Its fields are the component's refs: the snake, food, power-up, bombs and the two directions. Each method states its new state through the `SnakeRules` functions.
- `GamePage` holds the page's React state as the class `GamePage.GamePage`, plus pure transition functions.
- `Ranking` holds the ordering used everywhere:
  - JavaScript's stable `sort` by descending score;
  - `slice(0, n)`;
  - Django's `order_by('-score')[:n]`.
- `Leaderboard` and `Dashboard` hold the two front-end merges. `LeaderboardView` and `DashboardPage` are classes for their effects.
- `ScoreModel` and `ScoreViews` hold the score record, its validators, and the submission decision. `ScoreViews.ScoreStore` is the table of stored scores.
- `Users` holds the user record, the manager's creation rules and `__str__`. `Users.UserTable` is the users table.
- `RetrieveUser` holds the display-name computation and the "skip when not authenticated" query.
- `Text` and `Decimal` hold the string and number conversions the sources rely on:
  - `trim`/`strip`;
  - `padStart`;
  - `filter(Boolean).join(' ')`;
  - `toString`;
  - `parseInt(s, 10)`;
  - Python's `int(str)`.

## Randomness and other inputs

- Every `Math.random() < CHANCE` test is a `bool` parameter (`Canvas.Rolls`).
- Each spawn loop ("pick a random cell until it is free") becomes a choice of any free cell. `SnakeRules.FreeCellExists` proves that such a cell exists whenever fewer cells than the grid holds are occupied.
- The following values are parameters:
  - `localStorage` contents;
  - the server's answer to `getLeaderboard`;
  - the request body of a score submission;
  - the authenticated flag and query reply of the user hook.
- Timers are methods called when they fire: `ExpirePowerUp` and `ExpireBomb`.

## Behaviour of the code worth knowing

The model follows the code in each of these:

- Starting a game (`initializeGame`, GameCanvas.js:194-214) resets the snake, the directions, the food and the score. It keeps any bombs and power-up from the previous game, so these may lie under the new snake.
- `createFood` avoids only the snake (GameCanvas.js:222-231). Food may therefore land on a bomb or a power-up.
- The game page wires the canvas's `resetGame` prop to `startGame` (page.js:83). So Space after a game over starts a new running game; it does not return to the start screen.
- The page's own `resetGame` runs from the "Reset Game" button, which is always shown (page.js:217-226). It returns the page to the start overlay with score 0 but does not touch the canvas. The canvas clears its snake only when a game has ended before (GameCanvas.js:136-141), and the loop builds a snake only when there is none (GameCanvas.js:154-156). So after Reset Game and Start Game in a game that never ended, the old snake, food, power-up and directions come back, at score 0 (`Canvas.GameCanvas.ResetThenStart`).

## Model

| member | source | states |
|---|---|---|
| SnakeRules.Opposite | frontend/app/game/GameCanvas.js:83-110 | The reverse of a direction differs from it and lies on the same axis (up/down or left/right). |
| SnakeRules.StepBack | frontend/app/game/GameCanvas.js:350-363 | Stepping one cell and then one cell the opposite way returns to the start. |
| SnakeRules.JsRem | frontend/app/game/GameCanvas.js:369-372 | JavaScript's `%` keeps the sign of the dividend. The result lies strictly between -n and n. For a non-negative dividend it is the Euclidean remainder; for a negative one it is at most 0 and differs from the dividend by a multiple of n. |
| SnakeRules.Wrap | frontend/app/game/GameCanvas.js:369-372 | The wrap-around formula brings any cell at most one grid width/height off the board back onto the grid, and leaves on-grid cells alone. |
| SnakeRules.InitialSnake | frontend/app/game/GameCanvas.js:196-203 | The starting snake is three distinct on-grid cells: its head is at the centre, and each further cell lies one step to the left. |
| SnakeRules.Steer | frontend/app/game/GameCanvas.js:83-110 | A direction key sets the next direction unless it is opposite to the current one. When the pending direction does not reverse, the result never reverses either. |
| SnakeRules.WallEndsGame | frontend/app/game/GameCanvas.js:365-378 | Without wrap-around, a step off the grid ends the game with the snake unchanged and no points. |
| SnakeRules.TailCellIsSafe | frontend/app/game/GameCanvas.js:380-385 | Moving onto the cell the tail leaves is never a self-collision. |
| SnakeRules.BodyCellIsFatal | frontend/app/game/GameCanvas.js:380-391 | Moving onto any body cell other than the head and the tail ends the game with the snake unchanged. |
| SnakeRules.BombEndsGame | frontend/app/game/GameCanvas.js:399-408 | A new head on a bomb, once it has passed the wall and body checks, ends the game without moving or scoring. |
| SnakeRules.FoodBeforePowerUp | frontend/app/game/GameCanvas.js:414-429 | With food and the power-up on the same cell under a surviving head, the food test comes first: the tick eats the food, not the power-up. The snake keeps its tail behind the new head, and 10 points are scored. |
| SnakeRules.SurvivingTick | frontend/app/game/GameCanvas.js:410-446 | On a surviving tick, the new head is on the grid in front of the old body. The length grows by one (food), becomes three (power-up on a snake of at least three), or stays the same. |
| SnakeRules.TickKeepsSnake | frontend/app/game/GameCanvas.js:365-446 | A surviving tick keeps the snake at least three distinct on-grid cells. Uneaten food stays off the snake, and the head is never on a bomb. |
| SnakeRules.NoReversal | frontend/app/game/GameCanvas.js:83-110 | Over any sequence of direction keys and ticks, each direction a tick commits (`directionRef.current = nextDirectionRef.current`, GameCanvas.js:344) differs from the reverse of the one before it. |
| SnakeRules.RemoveCell | frontend/app/game/GameCanvas.js:324-327 | Removing a bomb takes exactly that cell out. Distinctness and on-grid positions are kept, and the length drops by one when the bomb was present. |
| SnakeRules.CellAt | frontend/app/game/GameCanvas.js:223-226 | Every cell index below the grid size names an on-grid cell, and the numbering is row-major. |
| SnakeRules.MissingIndex | frontend/app/game/GameCanvas.js:222-231 | Fewer than n indices cannot cover 0..n-1 (pigeonhole). |
| SnakeRules.FreeCellExists | frontend/app/game/GameCanvas.js:222-231 | When fewer cells are occupied than the grid holds, a free cell exists, so a spawn loop can stop. |
| Canvas.ClockSeconds | frontend/app/game/GameCanvas.js:46-50 | Reading a clock display succeeds only on text of at least five characters with ':' before the last two. |
| Canvas.FormatTimeReadsBack | frontend/app/game/GameCanvas.js:46-50 | `formatTime` loses nothing: reading its mm:ss display back gives the seconds it was given. |
| Canvas.FormatTimeWidth | frontend/app/game/GameCanvas.js:46-50 | Below 100 minutes the display is exactly five characters, with ':' in the middle. |
| Canvas.GameCanvas.FreeCell | frontend/app/game/GameCanvas.js:222-231 | A spawn position is an on-grid cell outside the occupied cells. |
| Canvas.GameCanvas.CreatePowerUp | frontend/app/game/GameCanvas.js:242-276 | The new power-up is off the snake and the food; nothing else changes. |
| Canvas.GameCanvas.CreateFood | frontend/app/game/GameCanvas.js:217-239 | The new food is off the snake. A power-up is created only when none exists and the chance roll succeeds. |
| Canvas.GameCanvas.CreateBomb | frontend/app/game/GameCanvas.js:279-328 | With three bombs nothing changes. Otherwise one bomb is appended, off the snake, food, power-up and other bombs. |
| Canvas.GameCanvas.ExpirePowerUp | frontend/app/game/GameCanvas.js:270-275 | When the power-up timer fires, the power-up is gone. |
| Canvas.GameCanvas.ExpireBomb | frontend/app/game/GameCanvas.js:324-327 | When a bomb's timer fires, exactly that bomb is removed. |
| Canvas.GameCanvas.InitializeGame | frontend/app/game/GameCanvas.js:194-214 | A new game has the three-cell snake heading right, fresh food off the snake, and score 0. Bombs are kept. |
| Canvas.GameCanvas.EndGame | frontend/app/game/GameCanvas.js:460-464 | Ending the game makes the page's phase "over", keeps the score, and remembers the game over. |
| Canvas.GameCanvas.MoveSnake | frontend/app/game/GameCanvas.js:410-446 | The unshift and the food/power-up/tail branch produce exactly `NextSnake` and add exactly `Points` to the score. Eating food replaces it; taking the power-up clears it. |
| Canvas.GameCanvas.SpawnChances | frontend/app/game/GameCanvas.js:448-456 | At the end of a tick, a power-up appears only when none exists and its roll succeeds, and a bomb only below three bombs with its roll. |
| Canvas.GameCanvas.Advance | frontend/app/game/GameCanvas.js:410-456 | A surviving tick moves the snake to `NextSnake` and adds `Points`. The power-up and the bombs follow the same rules as in `UpdateGame`. |
| Canvas.GameCanvas.UpdateGame | frontend/app/game/GameCanvas.js:342-457 | One tick commits the pending direction, which never reverses the old one. A fatal outcome ends the game with the board unchanged. Otherwise the snake becomes `NextSnake`, the score grows by `Points`, and food is replaced exactly when eaten. A power-up stays unless taken. When there was none, or it was taken, a new one appears off the snake and the food exactly when the food roll (on eating) or the tick roll comes up; otherwise there is none. A bomb is appended exactly when its roll comes up below three bombs. The invariant is kept. |
| Canvas.GameCanvas.KeyDown | frontend/app/game/GameCanvas.js:78-124 | Direction keys steer without reversing. Space toggles pause in a running or paused game, and starts a new game after a game over (page.js:83). Other keys change nothing. |
| Canvas.GameCanvas.OnPhaseChange | frontend/app/game/GameCanvas.js:136-147 | The snake is cleared exactly when a started game is no longer over after having been over. |
| Canvas.GameCanvas.StartLoop | frontend/app/game/GameCanvas.js:150-157 | When the game is running, an empty snake is initialised heading right, with fresh food, the power-up chance and score 0. In any other phase, or with a snake already present, the whole board and the page state are unchanged. |
| Canvas.GameCanvas.SpaceAfterGameOver | frontend/app/game/GameCanvas.js:111-157 | Space after a game over leads to a running game with score 0, the initial snake heading right, and fresh food. |
| Canvas.GameCanvas.LoopFrame | frontend/app/game/GameCanvas.js:159-172 | Outside the running phase a frame changes nothing. While running, it is one tick: the pending direction is committed without reversing. A fatal outcome ends the game with the board unchanged; otherwise the snake becomes `NextSnake` and the score grows by `Points`. |
| Canvas.GameCanvas.ResetThenStart | frontend/app/game/GameCanvas.js:136-157 | Reset Game then Start Game (page.js:35-42, 112-121, 217-226) give a running game with score 0. If no game has ended before and a snake exists, the whole board is unchanged, so the old game resumes. After an earlier game over, or with no snake, the initial snake with fresh food is laid out. |
| GamePage.Initial | frontend/app/game/page.js:13-17 | The page starts not started, with score 0, before the client mount. |
| GamePage.AfterStart | frontend/app/game/page.js:25-32 | On the client, starting leads to running with score 0 and not paused; before mount it does nothing. |
| GamePage.AfterReset | frontend/app/game/page.js:35-42 | On the client, reset returns to not started with score 0; before mount it does nothing. |
| GamePage.AfterTogglePause | frontend/app/game/page.js:45-49 | Pause flips exactly when the game is started and not over (running to paused and back). Nothing else changes. |
| GamePage.AfterGameOver | frontend/app/game/page.js:52-54 | Game over sets only the over flag and keeps the score. |
| GamePage.TogglePauseTwice | frontend/app/game/page.js:45-49 | Toggling pause twice changes nothing. |
| GamePage.RestartFromGameOver | frontend/app/game/page.js:25-32 | From "over", starting gives a running game with score 0. |
| GamePage.GamePage.StartGame | frontend/app/game/page.js:25-32 | The page's state becomes `AfterStart` of the old state. |
| GamePage.GamePage.ResetGame | frontend/app/game/page.js:35-42 | The page's state becomes `AfterReset` of the old state. |
| GamePage.GamePage.TogglePause | frontend/app/game/page.js:45-49 | The page's state becomes `AfterTogglePause` of the old state. |
| GamePage.GamePage.HandleGameOver | frontend/app/game/page.js:52-54 | The page's state becomes `AfterGameOver` of the old state. |
| GamePage.GamePage.AddToScore | frontend/app/game/GameCanvas.js:421-434 | A functional score update adds the points to the previous score. |
| Ranking.InsertPermutes | frontend/app/components/Leaderboard.js:95-97 | Inserting keeps every element and adds x once. |
| Ranking.SortPermutes | frontend/app/components/Leaderboard.js:95-97 | The sort is a permutation of its input. |
| Ranking.SortIsOrdered | frontend/app/components/Leaderboard.js:95-97 | The sort orders by descending score. |
| Ranking.TopIsBest | backend/scores/views.py:98 | The first n of the sorted list are ordered and drawn from the input, as many as possible. Nothing left out outscores anything kept. |
| Ranking.TopOfOrdered | backend/scores/views.py:98 | Cutting an ordered list after n entries keeps it ordered. Nothing cut off outscores anything kept. |
| Ranking.SortKeepsOrdered | frontend/app/components/Leaderboard.js:95-97 | Sorting an already ordered list leaves it unchanged. |
| Ranking.SortAppended | frontend/app/components/Leaderboard.js:88-97 | Sorting an ordered list with x pushed at the end places x after all entries scoring at least as much, and before the rest. |
| Ranking.AppendedMakesTop | frontend/app/components/Leaderboard.js:95-97 | The appended entry lands among the first n exactly when it beats the n-th entry. |
| Leaderboard.SeededHighScore | frontend/app/components/Leaderboard.js:29-37 | With dummy data on, a missing or empty stored high score becomes "550"; any other stored value is kept. |
| Leaderboard.UserHighScoreReadsBack | frontend/app/components/Leaderboard.js:75-83 | A stored rendered integer reads back as itself; a missing or empty one reads as 0. |
| Leaderboard.SeededScoreIsRead | frontend/app/components/Leaderboard.js:29-37 | After seeding an empty store, the player's high score reads as 550. |
| Leaderboard.AddUserScoreIsTopTen | frontend/app/components/Leaderboard.js:86-98 | Adding the player gives at most ten rows, ordered and drawn from the rows plus the player. No dropped row outscores a kept one. |
| Leaderboard.AddUserScoreSlotsIn | frontend/app/components/Leaderboard.js:86-98 | On an ordered board the player is placed after every row scoring at least as much, and the list is cut to ten. |
| Leaderboard.DummyScoresOrdered | frontend/app/components/Leaderboard.js:11-22 | The built-in rows are ordered by descending score. |
| Leaderboard.PlayerMakesBoard | frontend/app/components/Leaderboard.js:86-98 | On a full ordered board of ten, the player appears exactly when their score beats the tenth row. |
| Leaderboard.PlayerOnDummyBoard | frontend/app/components/Leaderboard.js:86-98 | The player appears on the built-in board exactly when their score is above 300. |
| Leaderboard.FetchedScoresIgnoreServer | frontend/app/components/Leaderboard.js:41-69 | With dummy data on, the server's rows never show. The board is ten ordered rows, each a built-in row or the player with a positive score. |
| Leaderboard.MergedBoardShape | frontend/app/components/Leaderboard.js:52-61 | Merging into a ten-row board keeps ten rows. |
| Leaderboard.ServerRowsShown | frontend/app/components/Leaderboard.js:47-62 | With dummy data off, a non-empty array from the server is shown as is. An empty one falls back like the dummy-data board. |
| Leaderboard.FailedFetchShowsDummies | frontend/app/components/Leaderboard.js:63-66 | When the request throws, the built-in rows are shown as they are, with dummy data on or off, and the player's entry is never among them. |
| Leaderboard.LeaderboardView.SeedTestScore | frontend/app/components/Leaderboard.js:29-37 | The stored high score becomes `SeededHighScore` of the old one. |
| Leaderboard.LeaderboardView.FetchLeaderboard | frontend/app/components/Leaderboard.js:41-69 | Fetching sets the board to `FetchedScores` and stops loading. |
| Dashboard.WithoutYou | frontend/app/dashboard/page.tsx:55-57 | The filter removes exactly the rows named "You" and keeps all the others, each as often as before. |
| Dashboard.MergeKeepsOneYou | frontend/app/dashboard/page.tsx:55-68 | After the merge, the board holds the new "You" row once and no other "You" row; every other row is kept. |
| Dashboard.MergeIsOrdered | frontend/app/dashboard/page.tsx:68 | The merged board is ordered by descending score. |
| Dashboard.MergeReplacesYou | frontend/app/dashboard/page.tsx:55-68 | Merging a second score into a merged board gives the same rows as merging only the second score. |
| Dashboard.MockOrdered | frontend/app/dashboard/page.tsx:24-35 | The mock board is ordered by descending score. |
| Dashboard.MockHasNoYou | frontend/app/dashboard/page.tsx:24-35 | The mock board has no "You" row. |
| Dashboard.NoYouKept | frontend/app/dashboard/page.tsx:55-57 | A board without "You" passes the filter unchanged. |
| Dashboard.MergeIntoOrdered | frontend/app/dashboard/page.tsx:55-68 | On an ordered board without "You", the player is inserted after every row scoring at least as much. |
| Dashboard.MergeIntoMock | frontend/app/dashboard/page.tsx:50-68 | On the mock board, the player takes the slot after the rows scoring at least as much, and the board has 11 rows (nothing is cut). |
| Dashboard.DashboardPage.LoadHighScore | frontend/app/dashboard/page.tsx:42-75 | The high score is `parseInt` of a non-empty stored value, else 0. The board becomes the merge only for a positive score; otherwise it stays the mock. |
| ScoreModel.CleanErrors | backend/scores/models.py:18-26 | `full_clean` rejects the score exactly when it is negative or above the column's 32-bit range, and likewise the time played. A record it accepts can be stored. |
| ScoreModel.NegativeScoreRejected | backend/scores/tests/test_models.py:21-28 | A score of -5 fails validation, on the score field only unless the time played is also out of range. |
| ScoreModel.DefaultOrderRanks | backend/scores/models.py:33 | The default ordering is a descending-score permutation of the records. |
| ScoreModel.LabelReadsBack | backend/scores/models.py:41-42 | `__str__` loses nothing: the score and the time played can be read back from it. |
| ScoreViews.ToInt | backend/scores/views.py:40 | `int()` keeps an integer, maps booleans to 1 and 0, and raises ValueError only for strings. |
| ScoreViews.TextConverts | backend/scores/views.py:40 | The decimal text of an integer converts back to that integer. |
| ScoreViews.Best | backend/scores/views.py:43 | The user's best record is absent exactly when the user has no records. When present, it is one of theirs and no record of theirs scores higher. |
| ScoreViews.Failure | backend/scores/views.py:68-81 | ValueError answers 400 and any other error answers 500. |
| ScoreViews.SubmitAsWrittenStoresNegative | backend/scores/views.py:40-67 | As written, a user's first negative score within the column's range is stored with 201 although the record fails validation; below the range the database refuses it. |
| ScoreViews.AboveColumnRangeFails | backend/scores/views.py:55-81 | A score above the column's 32-bit range that beats the user's best reaches the insert, which the database refuses: 500 server_error, nothing stored. With the validators applied it is invalid_score. |
| ScoreViews.SubmitKeepsClean | backend/scores/views.py:26-81 | A checked submission stores only valid records and answers invalid_score to a score below 0 or above the column's range. |
| ScoreViews.CheckOnlyRejects | backend/scores/views.py:26-81 | The checked submission differs from the code as written only by answering invalid_score, when the score or the time played fails a validator. |
| ScoreViews.FalsyScoreIsMissing | backend/scores/views.py:26-33 | A falsy score answers 400 missing_score and stores nothing, both as written and with the validators applied. |
| ScoreViews.NonNumberIsInvalid | backend/scores/views.py:40-74 | Non-numeric text answers invalid_score and stores nothing, both as written and with the validators applied. |
| ScoreViews.KeepOrCreate | backend/scores/views.py:36-81 | For a score `int()` accepts: a best score at least as high is retained with 200 and nothing is stored. Otherwise, if `int()` rejects the time played (default 0), the conversion error is answered. If both values fit the column, exactly one record is created with the user, the score and that time, and 201 echoes the score; if not, the database refuses the insert and 500 is answered. Nothing is stored on a failure. |
| ScoreViews.BestAfterSubmit | backend/scores/views.py:43-67 | After a successful submission as written, the user's best is the larger of the old best and the new score. Other users' bests do not change. |
| ScoreViews.BestAfterCheckedSubmit | backend/scores/views.py:43-67 | The same holds for the submission with the validators applied. |
| ScoreViews.SubmitSucceeds | backend/scores/views.py:43-67 | As written, a record is stored exactly when the answer is 201. A 200 reports the previous best, at least the submitted score. A 201 stores the user's record of the submitted score, which beats any previous best. |
| ScoreViews.BestScoreAppended | backend/scores/views.py:43 | After one record is stored, its user's best is the larger of the old best and its score. Every other user's best is unchanged. |
| ScoreViews.LeaderboardIsTopTen | backend/scores/views.py:98 | The leaderboard is the ten highest records, ordered, with nothing higher left out. |
| ScoreViews.ScoreStore.SubmitScore | backend/scores/views.py:18-81 | The store answers `SubmitAsWritten` (no validator runs, the column's range is enforced by the database) and appends its record, if any. Ids stay below the next id, and every stored value fits its column. |
| ScoreViews.ScoreStore.SubmitScoreChecked | backend/scores/views.py:18-81 | With the validators applied, the store answers `Submit` and appends its record, if any. A store whose records all pass `full_clean` keeps that property. |
| ScoreViews.ScoreStore.GetLeaderboard | backend/scores/views.py:90-104 | The answer is `Leaderboard` of the store. |
| Users.SetDefault | backend/users/models.py:29-30 | `setdefault` keeps an existing value, adds the default otherwise, and keeps every other key. |
| Users.CreateUserRecord | backend/users/models.py:15-26 | Creation succeeds exactly for a non-empty email not yet taken, and None or "" raises the missing-email error. The user keeps the email and the fields, and checks only the given password. |
| Users.CreateUserFlags | backend/users/models.py:28-31 | A plain user is neither staff nor superuser unless the caller says so. |
| Users.CreateSuperuserFlags | backend/users/models.py:33-42 | A superuser is created only with both flags exactly True. A bad is_staff is reported first. |
| Users.UserLabel | backend/users/models.py:58-59 | `__str__` is the email, or a trimmed non-empty full name; with blank names it is the email. |
| Users.UserLabelCases | backend/users/tests/test_models.py:10-57 | With no names the label is the email; with a first and a last name it is the two joined by a space. |
| Users.UserTable.Save | backend/users/models.py:15-26 | A saved user is appended and emails stay unique. A failed creation stores nothing. |
| Users.UserTable.CreateUser | backend/users/models.py:28-31 | The answer is `CreatedUser` of the table; a new user is appended and emails stay unique. |
| Users.UserTable.CreateSuperuser | backend/users/models.py:33-42 | The answer is `CreatedSuperuser` of the table; a new user is appended and emails stay unique. |
| RetrieveUser.DisplayName | frontend/hooks/use-retrieve-user.ts:17-22 | The display name is the email, or a trimmed non-empty name. |
| RetrieveUser.NamePart | frontend/hooks/use-retrieve-user.ts:20 | A name field gives text exactly when it is truthy. A string gives itself. |
| RetrieveUser.DisplayNameIsUserLabel | frontend/hooks/use-retrieve-user.ts:19-21 | For string names, the front end's display name equals the back end's `__str__`. |
| RetrieveUser.DisplayNameFallsBack | frontend/hooks/use-retrieve-user.ts:19-21 | Without truthy names the display name is the email; a first name alone is shown trimmed. |
| RetrieveUser.DisplayNameOfNonString | frontend/hooks/use-retrieve-user.ts:19-21 | A first name that is a non-zero number or `true` is kept by the filter: with no truthy last name, the display name is its text, not the email. |
| RetrieveUser.NoDispatchWithoutUser | frontend/hooks/use-retrieve-user.ts:10-15 | Nothing is dispatched when not authenticated, on failure, or without data. |
| RetrieveUser.DispatchedCopiesData | frontend/hooks/use-retrieve-user.ts:17-24 | The dispatched user keeps every field of the data and adds its display name. |
| Text.Trim | backend/users/models.py:58-59 | The trimmed text neither starts nor ends with a space, and it is empty exactly when the text is all spaces. |
| Text.TrimIsInfix | backend/users/models.py:58-59 | The trimmed text is the part of the text between a leading and a trailing run of spaces. |
| Text.TrimSpaceSuffix | frontend/hooks/use-retrieve-user.ts:20 | A trailing space never survives trimming. |
| Text.PadStart | frontend/app/game/GameCanvas.js:47-48 | `padStart` pads with the fill on the left up to the width. |
| Text.PadStartKeepsText | frontend/app/game/GameCanvas.js:47-48 | `padStart` keeps the text itself at the end. |
| Text.NonEmpty | frontend/hooks/use-retrieve-user.ts:20 | `filter(Boolean)` keeps exactly the non-empty strings. |
| Text.NonEmptyAppend | frontend/hooks/use-retrieve-user.ts:20 | Filtering two lists joined is joining the filtered lists. A single string is kept exactly when it is not empty. |
| Text.IndexOfJoin | backend/scores/models.py:41-42 | The first separator in a text that starts with a separator-free part is right after that part. |
| Decimal.ValueOfShowNat | frontend/app/game/GameCanvas.js:47-48 | The decimal text of a number reads back as that number. |
| Decimal.ValueOfZeroPadded | frontend/app/game/GameCanvas.js:47-48 | Leading zeros do not change a decimal's value. |
| Decimal.RenderThenParse | backend/scores/views.py:40 | Python `int()` reads the rendering of any integer back. |
| Decimal.DropUnderscores | backend/scores/views.py:40 | Dropping the underscores allowed by `int()` leaves digits, and leaves plain digits unchanged. |
| Decimal.DigitRunOfDigits | frontend/app/components/Leaderboard.js:79 | The digit run of digits followed by a non-digit is exactly those digits. |
| Decimal.JsIntReadsRendered | frontend/app/components/Leaderboard.js:79 | `parseInt(s, 10)` reads a rendered integer back, whatever non-digit text follows it. |

## Left out

- Drawing (`drawGame`), the canvas context, focus, the console logs and the `requestAnimationFrame` timing are left out. `LoopFrame` is one frame in which the speed threshold has passed.
- Time warp and `getCurrentGameSpeed` are left out: they only change the frame rate.
- `Math.random` is not modelled as a distribution. Each chance test is a `bool` parameter, and each spawn loop picks any free cell.
- Canvas.GameCanvas.CreateFood, CreatePowerUp, CreateBomb: each requires room on the grid. The source's `do … while` loops would never end on a full grid.
- Canvas.GameCanvas.MoveSnake, Advance, UpdateGame, LoopFrame: each requires room for the spawns one tick may make (`|snake| + |bombs| + 3 < GridCells`), since they may call the spawners above. The source runs `updateGame` on any board.
- Timers (`setTimeout`) are not scheduled. `ExpirePowerUp` and `ExpireBomb` model the moments they fire; bomb `createdAt` stamps are left out.
- The power-up type is always "reset" in the source (GameCanvas.js:265), so it is not a field.
- `WRAP_AROUND` is the constant false, as in the source. The wrap branch is modelled (`SnakeRules.Wrap`) but does not run.
- The game page passes no `gameTime`, so the canvas never shows a real time. `FormatTime` is modelled on the seconds it would be given.
- `previousGameOverRef` is set by `EndGame` and never cleared, as in the source.
- The UI markup, styling and navigation of both pages are left out.
- `localStorage` and the `typeof window` checks are left out; the stored string is a parameter.
- `getLeaderboard` (GameAPI.js) is not part of this model. Its result is a parameter: an array, anything else, or a thrown error.
- Leaderboard.AddUserScore and Dashboard.MergeLocalScore are modelled on values. The in-place `push` and `sort` on the copied array are not, and neither is aliasing.
- Whitespace is the six ASCII spaces. The wider Unicode whitespace sets of JavaScript's `trim` and Python's `strip` are left out.
- Decimal.JsIntReadsRendered: integers are unbounded. JavaScript numbers are doubles, so above 2^53 `parseInt` rounds and from 1e21 `String(n)` uses exponent notation; neither is modelled.
- Leaderboard.UserHighScoreReadsBack: the same double-precision limits are not modelled; a stored high score is read as an unbounded integer.
- RetrieveUser.NamePart: objects and arrays as names (joined through their `toString`), fractional numbers and NaN are left out. A name field is a string, an integer, a boolean, null or undefined.
- Ranking.SortKeepsOrdered: the general stability of `sort` (equal scores keep their input order in any list) is not stated, only that an ordered list is left as it is.
- Decimal.ParsePyInt: does not accept non-ASCII digits, which Python's `int()` does. Floats (`int(3.7)`) are left out.
- `normalize_email`, password hashing (a password is kept as what it was made from) and `full_clean` on users are left out.
- ScoreModel.CleanErrors, ScoreViews.SubmitAsWritten: the column range is PostgreSQL's 32-bit `integer`, as in the CI settings (settings.py:119-127). On SQLite, the development database, it is 64-bit; the model does not follow that.
- ScoreViews.Best: among equal best scores, the record stored first is taken. `order_by('-score').first()` leaves that choice to the database, so the id in a 200 answer may differ.
- ScoreViews.Leaderboard: equal scores keep store order. The database leaves their order unspecified.
- The serializer, logging, authentication and permissions of the score API are left out. The request's user is a parameter.
- Concurrent submissions are left out; each submission is one atomic step.
- Redux `setUser`, RTK Query caching and refetching are left out. `RunQuery` is one answered query.

## Findings

| source | as written | input that shows it | evidently intended | confidence | as-written member | corrected member |
|---|---|---|---|---|---|---|
| backend/scores/views.py:40-67 | `Score.objects.create` skips the model's `MinValueValidator(0)`, so a negative score or time played is stored. | A user's first submission `{"score": -5}` or `{"score": "-5"}` answers 201 and stores a record that `full_clean` rejects. | A negative score is refused with 400 invalid_score, as the validators at models.py:18-26 and the expectations in tests/test_models.py:11-28 state. | medium, not executed | ScoreViews.SubmitAsWrittenStoresNegative | ScoreViews.SubmitKeepsClean |
