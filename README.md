# Car racing game: race engine model

This project models the race engine of a browser car racing game (src/js/script.js).

- **Roster.** A game rebuilds the global `currentPlayers` as players 1 .. n, each with score 0.
- **Flag and buttons.** The game sets the `hasGameStarted` flag. The flag decides which of the two form buttons is hidden.
- **Race.** Rounds run over the roster in array order:
  - each turn draws an advantage `floor(Math.random() * 10) + 1`;
  - the advantage is added to the player's score, clamped to `scoreToWin`;
  - a labelled `break` ends the race as soon as a player reaches the target.
- **Results table.** `currentPlayers` is sorted in place by ascending score. Each player is then inserted as the new first row of the results table, so the table reads in descending score.

There are three modules:

- `RaceEngine` (race_engine.dfy) contains:
  - the `Player` record;
  - the advantage `CarAdvantage`;
  - a single `Turn`;
  - the whole race as the reference function `RaceFrom`;
  - `PlayTurns`, the race's sequence of turns played without the stop check, and `MoverOf`, the index of the player who takes turn t (helpers for stating the lemmas; neither models a function of the source);
  - the lemmas about them.

  `random(k)` stands for the k-th value of `Math.random()`. It is a parameter, so the race is a function of its inputs.
- `Ranking` (ranking.dfy) contains:
  - `SortByScore`, the stable ascending sort, which models `Array.prototype.sort` with the comparator `a.score - b.score`;
  - `Reversed`, the order the rows end up in;
  - lemmas proving the sort is sorted, a permutation and stable, and lemmas about the table order.
- `Game` (game.dfy) holds the page's global state as the class `Game`:
  - the started flag;
  - `currentPlayers`, a `seq` the methods reassign;
  - the two button visibilities;
  - the table's visibility and rows.

  The methods follow the source's functions and loops. Three of them are proved to compute exactly what a reference function describes: CreatePlayers computes Roster, Race computes RaceFrom, and CreateOutputTable computes SortByScore followed by Reversed. The flag, button and reset methods state their new state directly.

Three points of the code's behaviour are easy to misread:

- **Resets.** Neither reset touches `currentPlayers`. The hard reset only empties the lanes on the page, and the soft reset only moves the car images back to the start. No score is zeroed, and the roster is not discarded. Fresh scores come only from `createPlayersInDom`, which `startGame` calls after its hard reset.
- **Table order.** The sorted order is ascending, but the rows are shown in descending score, because each row is inserted at index 0.
- **Non-positive `scoreToWin`.** The value is not checked. With `scoreToWin <= 0`, the first player to move is clamped to the target and wins at once. When `scoreToWin` is negative, that clamp lowers the first mover's score from 0 to `scoreToWin`. So "every other player is strictly below the target" is stated only for `scoreToWin >= 1`, and "no score decreases" only for rosters that start at or below the target.

## Model

| member | source | states |
|---|---|---|
| RaceEngine.CarAdvantage | src/js/script.js:211-215 | For a random value r in [0, 1), the advantage is an integer in [1, 10], and r lies in the tenth of [0, 1) that belongs to that advantage. |
| RaceEngine.TurnScore | src/js/script.js:125-129 | The new score is at most scoreToWin. It equals either the old score plus the advantage or scoreToWin, and it is the smaller of the two. It never goes below the old score when the advantage is not negative and the old score is within the target. |
| RaceEngine.Turn | src/js/script.js:116-129 | A turn changes only the score of the player whose turn it is. That player keeps their number, and their new score is TurnScore of the old score and the advantage: the sum clamped to scoreToWin, so at most scoreToWin and, when the old score was within the target and the advantage is not negative, not below the old score. The roster keeps its length. |
| RaceEngine.Next | src/js/script.js:115-116 | The turn order: the next index stays in range, it wraps to 0 exactly after the last player, and otherwise it is the following index. |
| RaceEngine.RaceFrom | src/js/script.js:115-142 | The reference race: the roster keeps its size and the winner is one of its players. Its properties are the lemmas RaceEndsAtTarget, RaceLeavesOthersBelow, RaceNeverLowersScores, RaceTurnBound and RaceIsFirstHit below. |
| RaceEngine.RaceEndsAtTarget | src/js/script.js:115-142 | When the loop stops, the winner's score equals scoreToWin and at least one turn was played. The roster keeps its size and every player number. |
| RaceEngine.RaceLeavesOthersBelow | src/js/script.js:115-142 | If every player starts strictly below scoreToWin (for a fresh roster, scoreToWin >= 1), every player except the winner ends strictly below scoreToWin. |
| RaceEngine.RaceNeverLowersScores | src/js/script.js:116-129 | If every player starts at or below scoreToWin, then over the whole race no score decreases and none ends above scoreToWin. |
| RaceEngine.RaceTurnBound | src/js/script.js:115-142 | The race stops after at least one turn and within max(D, 1) turns, where D is the sum of the remaining distances to the target: every turn that does not end the race lowers D by at least 1. |
| RaceEngine.FreshRaceTurnBound | src/js/script.js:115-142 | With n >= 1 players all at score 0, the race stops within n * max(scoreToWin, 1) turns. |
| RaceEngine.RaceIsFirstHit | src/js/script.js:137-139 | If every player starts strictly below scoreToWin, the race stops at the first turn of the unconditional trajectory on which the mover reaches scoreToWin. The final state is that trajectory's state, the winner is the player who took the last turn, and in every earlier state all scores are below the target. |
| RaceEngine.FinalRoundStopsAtWinner | src/js/script.js:115-142 | For a race that starts with the first player and with every player strictly below scoreToWin (for a fresh roster, scoreToWin >= 1), the final round begins with the first player and stops at the winner: every player after the winner keeps the score they had when the previous round ended. |
| RaceEngine.PlayTurnsSplit | src/js/script.js:115-116 | Playing a + b turns is playing a turns and then b turns from the player and draw index reached. |
| RaceEngine.PlayTurnsLeavesLater | src/js/script.js:116-129 | The first turns of a round leave every later player in that round untouched. |
| Ranking.SortByScore | src/js/script.js:166-168 | The sorted roster has the same length as before and is a permutation of it (equal multisets). |
| Ranking.SortByScoreSorted | src/js/script.js:166-168 | The sorted roster is ordered by non-decreasing score. |
| Ranking.SortIsStable | src/js/script.js:166-168 | For every score value, the players with that score appear in the same relative order before and after sorting. |
| Ranking.Reversed | src/js/script.js:171-179 | The table built by inserting each entry at index 0 has entry i equal to entry n-1-i of the sorted order. |
| Ranking.TableDescending | src/js/script.js:162-179 | The rows of the results table are ordered by non-increasing score. |
| Ranking.TableLeaderOnTop | src/js/script.js:162-179 | If one player scores strictly above everyone else, that player is the first row, and every other row scores strictly less. |
| Ranking.TableScoresWithin | src/js/script.js:162-179 | Sorting and inserting rows keep every score within any bounds that held before. |
| Game.Roster | src/js/script.js:50-60 | The roster for n has exactly n entries, and the entry at position i is player i+1 with score 0. |
| Game.FreshGameScoresInRange | src/js/script.js:18-27 | In a game started with n >= 1 players and scoreToWin >= 0, the table has n rows and every score shown is between 0 and scoreToWin. |
| Game.FreshGameWinnerOnTop | src/js/script.js:18-27 | In a game started with n >= 1 players and scoreToWin >= 1, the first row of the table is the winner and every other row scores strictly below scoreToWin. |
| Game.Game.constructor | src/js/script.js:9-10 | The page starts with no game started and no players. The start state of the buttons and of the results table comes from the page markup; see Left out. |
| Game.Game.FormButtonToggler | src/js/script.js:188-200 | The submit button is hidden exactly when a game has started, and the reset button exactly when none has. |
| Game.Game.ResetOutputTable | src/js/script.js:182-186 | The results table is hidden and has no rows. |
| Game.Game.ResetGame | src/js/script.js:35-47 | After either reset, the started flag is clear, the buttons match it, the table is hidden and empty, and currentPlayers is unchanged. |
| Game.Game.CreatePlayers | src/js/script.js:49-60 | The push loop rebuilds currentPlayers as the roster for numberOfPlayers (none when that is not positive): the entry at i is player i+1 with score 0. |
| Game.Game.Race | src/js/script.js:110-142 | The nested loop with its labelled break leaves currentPlayers, the winner's index and the number of draws exactly as RaceFrom describes. The winner's score is scoreToWin. |
| Game.Game.CreateOutputTable | src/js/script.js:162-180 | The table is shown, and currentPlayers becomes its stable sorted permutation. The rows are the sorted order reversed, placed above any rows already there. |
| Game.Game.StartRacing | src/js/script.js:110-145 | The race followed by the table: the winner is the player RaceFrom names, at scoreToWin, and currentPlayers ends sorted. |
| Game.Game.StartGame | src/js/script.js:18-27 | A started game leaves the flag set and the buttons matching it, and plays the race RaceFrom describes on a fresh roster. Within n * max(scoreToWin, 1) turns it shows n rows in descending score, between 0 and scoreToWin when scoreToWin >= 0, with the winner on top and every other row below the target when scoreToWin >= 1. |

## Left out

- Page work is left out because it is presentation through browser objects. This covers creating the lanes and car images, clearing `innerHTML`, element lookups, and the text of the table cells. The table is modelled as a sequence of player records, top row first.
- `movePlayerTo` and its Web Animations callback are left out because they are visual only.
- `sleep`, `setTimeout` and the `async`/`await` pacing are left out, and the race is modelled as running without interruption. A reset or a second start during a race runs concurrently with the pending loop, and that interleaving is not modelled.
- Game.Game.Race: does not model a race over an empty roster. With no players the inner loop never runs, so the outer loop never ends (and never yields). The race therefore requires at least one player, and StartGame requires numberOfPlayers >= 1.
- RaceEngine.CarAdvantage: does not model floating-point rounding. `Math.random()` is a parameter `random(k)` in [0, 1), and `floor(r * 10) + 1` is computed over exact reals.
- `Number(...)` coercion of the form inputs is left out. Non-integer values and `NaN` are not modelled: numberOfPlayers and scoreToWin are integers.
- RaceEngine.TurnScore: scores are modelled as exact, unbounded integers. JavaScript numbers are IEEE doubles, so `player.score += turnCarAdvantage` agrees with the model only while scores stay below 2^53. Above that the sum is rounded, and past about 2^57 an advantage no longer changes a score at all. With such a huge scoreToWin the source's loop would never end, so the turn bounds of RaceEngine.FreshRaceTurnBound and Game.Game.StartGame hold only for scores in the exact range.
- The `imagePath` string and the event-listener wiring are left out because neither affects the race or the ranking.
- Game.Game.constructor: does not model the page markup. The initial visibility of the two buttons, and the results table's visibility and rows (outputHidden, outputRows), come from the markup and not from src/js/script.js. The start state is taken to have the buttons match the cleared flag and the table hidden and empty.
- Game.Game.StartRacing: the winner is returned as the player's record, together with the turn count. Game.Game.Race returns the winner's index in turn order. The source instead keeps a reference to the same object, which the later sort moves.
