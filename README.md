# Pokémon memory game — a Dafny model

A model of the game logic of a two-version Pokémon memory game, with proofs of its rules. Players flip two face-down cards at a time. A matching pair stays face up and scores; a mismatch turns the cards back and may pass the turn.

- **The AngularJS version** is `GameController` in src/app.ts. It has a power-up card that gives a peek, streaks and combos, end-of-game bonuses, one or two players, and a persisted leaderboard.
  - `Engine` models its rules as functions from state to state.
  - `Controller.GameController` is a class with the controller's fields. Each of its methods is proved to leave those fields exactly as the matching `Engine` function says.
  - Every method that moves the game forward keeps the game invariant `Engine.Inv`. Under it:
    - at most two cards are pending, and they are distinct, face up and unmatched;
    - matched cards stay face up;
    - twice the total score equals the number of matched cards plus twice the bonus points;
    - a won game has every card matched.
  - The controller's `$timeout` callbacks are explicit steps. These are the match check, the mismatch revert, the end of the power-up peek and the delayed win.
  - The callbacks still due are part of the state (`Engine.Due`).
- **The Angular version** is `GameService` in src/app/services/game.ts, plus the winner banner of src/app/game-board/game-board.ts.
  - `Service.GameService` is a class holding the service's one `GameState` value.
  - `Service.Inv` is the service's invariant:
    - `matchedPairs` is half the matched cards and the sum of the scores;
    - the pending cards are distinct, face up and unmatched;
    - a won game has every card matched.
  - `Board.GetWinner` is the winner banner.

Modules:
- `Wrappers`: the `Option` type.
- `Text`: decimal rendering and reading back.
- `Shuffle`: the Fisher–Yates shuffle both versions use.
- `Leaderboard`: the ranking, trimming and queries.
- `Engine`, `Controller`: the AngularJS version, as described above.
- `Findings`: two defects of the AngularJS version, modelled as written.
- `Display`: `formatTime` and `getStreakMessage`.
- `Service`, `Board`: the Angular version, as described above.

Inputs the source takes from outside become parameters:
- random draws: the swap partners `js`, with `js[i] <= i`, and the two power-up draws `roll` and `pick` in `[0, 1)`;
- the fetched faces;
- the milliseconds the clock reports;
- the date string of a leaderboard entry;
- the stored leaderboard (`Engine.Stored`).

## Model

| member | source | states |
|---|---|---|
| Shuffle.FisherYatesPermutes | src/app.ts:405-410 | The swap loop, for any draws with `0 <= j <= i`, returns a permutation of its input of the same length. |
| Shuffle.ShuffleInPlace | src/app/services/game.ts:148-153 | The in-place swap loop on an array leaves the array as the shuffle function says, a permutation of its old contents. |
| Shuffle.ShuffleSeq | src/app.ts:405-410 | Shuffling a copy in an array returns the shuffle function's result, a permutation of the input. |
| Text.NatToStringRoundTrip | src/app.ts:573 | Reading the decimal digits of `n.toString()` back gives `n`. |
| Text.IntToStringInjective | src/app/services/game.ts:31-32 | Different integers print differently in a template literal. |
| Text.PadTwo | src/app.ts:573 | `padStart(2, '0')` gives digits that read back as the number, two of them below 100. |
| Display.FormatTime | src/app.ts:570-574 | The text is the digits for the minutes, a colon, then two digits; they read back as `m` and `ss` with `m * 60 + ss == seconds` and `ss < 60`. |
| Display.StreakMessage | src/app.ts:635-639 | Empty exactly below a streak of 3. From 5 the banner opens and closes with the fire emoji; at 3 and 4, with the lightning emoji. |
| Display.StreakMessageShowsCount | src/app.ts:636-637 | The banner shows the streak length in decimal, right after its opening words. |
| Leaderboard.DifficultyName | src/app.ts:690-697 | 4 gives Easy, 6 Medium, 8 Hard, and any other size Custom, each as an if-and-only-if. |
| Leaderboard.CompareIsLexicographic | src/app.ts:669-674 | The comparator puts `a` first exactly in the lexicographic order: grid size ascending, score descending, time ascending, moves ascending. |
| Leaderboard.PrecedesTotalPreorder | src/app.ts:669-674 | The comparator's order is total and transitive, so sorting by it is well defined. |
| Leaderboard.SortSpec | src/app.ts:668-674 | Sorting yields an ordered permutation of the list. |
| Leaderboard.SortStable | src/app.ts:668-674 | The sort is stable, like `Array.prototype.sort`: entries that tie on all four keys keep their relative order. |
| Leaderboard.RecordNewEntryLast | src/app.ts:668-674 | After the push and the sort, the new entry comes after every older entry with the same four keys. So when it ties the tenth entry of its size, it is the one the splice drops. |
| Leaderboard.Prune | src/app.ts:676-685 | The removal loop splices out every entry of the current grid size past the tenth and keeps the rest in order. |
| Leaderboard.RecordSortedAndCapped | src/app.ts:656-688 | After `addToLeaderboard` the list is sorted by the four keys, and the current size holds `min(10, previous count + 1)` entries. |
| Leaderboard.RecordOtherSizes | src/app.ts:676-685 | The entries of every other grid size are the same multiset before and after a record: none is dropped, added or duplicated. |
| Leaderboard.RecordKeepsBest | src/app.ts:676-685 | The surviving entries of the current size are the first ten of its sorted tier, and each ranks at least as high as every dropped one. |
| Leaderboard.RecordPreservesCap | src/app.ts:676-685 | When every grid size holds at most ten entries before a record, that still holds after it. |
| Leaderboard.QueryDifficulty | src/app.ts:723-727 | The current-difficulty view is a prefix of that size's entries in list order, of length `min(10, count)`. |
| Leaderboard.QueryAll | src/app.ts:729-731 | The all-difficulties view is a prefix of the list, of length `min(20, length)`. |
| Leaderboard.QueryShowsWholeTier | src/app.ts:723-727 | On a list with at most ten entries per size, the current-difficulty view shows that size's whole tier. |
| Engine.FaceFor | src/app.ts:378-403 | A failed fetch yields a placeholder face with the requested id; a successful one yields the fetched face. |
| Engine.Faces | src/app.ts:344-347 | One face per requested id, in order, each as `fetchPokemon` returns it. |
| Engine.DealPairs | src/app.ts:349-361 | The pairing loop puts every face on exactly two cards, numbered by position, all face down, unmatched and not power-ups. |
| Engine.BoardPairs | src/app.ts:296-299 | After dealing, shuffling and tagging the power-up, every face is still on twice as many cards as it was fetched, and nothing is flipped or matched. |
| Engine.PickIndex | src/app.ts:231 | `Math.floor(pick * n)` is an index in `0..n-1`. |
| Engine.AddPowerUp | src/app.ts:229-236 | Below 0.1, with more than four cards, exactly the drawn card becomes a power-up; otherwise the board is unchanged. |
| Engine.Revealed | src/app.ts:243-247 | The peek makes every unmatched card face up and changes nothing else. |
| Engine.Hidden | src/app.ts:249-256 | The peek's end turns face down every card that is neither matched nor pending, and changes nothing else. |
| Engine.KeptName | src/app.ts:259-271 | Corrected rule (see Findings): a player keeps a previous non-empty name when the first previous player had one; otherwise the name is `Player i+1`. The name is never empty. |
| Engine.InitialPlayers | src/app.ts:259-271 | `count` fresh players with zero counters, named by `KeptName`. This is the corrected behaviour; see Findings. |
| Engine.DisplayName | src/app.ts:484 | `name \|\| 'Anonymous'` is never empty and is the name when there is one. |
| Engine.BonusPoints | src/app.ts:547-552 | The bonuses add 5 and 3 and stack: 8 exactly when both hold, 0 exactly when neither does. |
| Engine.Credited | src/app.ts:483-491 | A single player is always credited. Of two players, somebody is credited exactly when the scores differ, and it is the one with the higher score. |
| Engine.LoadLeaderboard | src/app.ts:641-650 | A parsed blob replaces the list, an unparsable one empties it, and an absent one leaves it. |
| Engine.Initial | src/app.ts:121-126 | The constructor's state satisfies the invariant with nothing due, grid size 4, one fresh `Player 1` and the stored leaderboard. |
| Engine.ActivatePowerUp | src/app.ts:238-257 | The activation keeps the state well formed. Its effect is stated in `FlipPowerUp`. |
| Engine.Flip | src/app.ts:412-417 | A flip of a face-up or matched card, or with two cards pending, changes nothing at all. |
| Engine.FlipPowerUp | src/app.ts:419-423 | A power-up flip is no move and adds nothing pending. The current player's power-ups go up by exactly 1 and nothing else of theirs changes. Every unmatched card turns face up, and the flipped card stops being a power-up; no other field of any card changes. One peek end becomes due, and every other field of the state is unchanged. |
| Engine.FlipOrdinary | src/app.ts:425-434 | A normal flip turns the card face up and appends it to the pending list. `moves` goes up exactly when this is the second pending card. No other field of the state changes. |
| Engine.CheckMatch | src/app.ts:436-527 | A match marks both cards matched and adds 1 to the current player's score and streak and to both counters. A mismatch zeroes those three and schedules the revert of the two cards. Either way the turn is kept and nothing is pending afterwards. The win becomes due exactly when every card is matched. Moves, the clock, the flags, the settings, the leaderboard and the peek ends are unchanged. |
| Engine.NextPlayer | src/app.ts:518-520 | The turn changes only in a two-player game, and then to the other player. |
| Engine.RevertMismatch | src/app.ts:514-522 | The corrected revert turns the two captured cards face down unless they are matched or pending, passes the turn like `NextPlayer`, and changes nothing else. |
| Engine.EndPeek | src/app.ts:249-256 | After the peek, exactly the matched and the pending cards stay face up. No other field of any card changes, one peek end stops being due, and nothing else in the state changes. |
| Engine.CalculateBonuses | src/app.ts:542-553 | `perfectGameBonus` is `moves <= gridSize^2 / 2` and `speedBonus` is `elapsedTime < 60`. Their points go to the current player and nothing else changes. |
| Engine.BonusScenario | src/app.ts:542-553 | On a 4×4 board, 8 moves in 45 seconds earn both bonuses, 8 points. |
| Engine.EntryFor | src/app.ts:657-666 | The entry records the name, score, elapsed time, moves, grid size and its difficulty name. |
| Engine.AddToLeaderboard | src/app.ts:656-688 | Only the leaderboard changes, and it becomes the recorded list. |
| Engine.CompleteWin | src/app.ts:477-491 | The delayed win sets `gameWon` and awards the bonuses. When `Credited` names a player, it records that player's display name and score. |
| Engine.ClockTick | src/app.ts:555-560 | The elapsed time becomes the whole seconds in the milliseconds since the start, and nothing else changes. |
| Engine.ClearLeaderboard | src/app.ts:733-736 | The list becomes empty and nothing else changes. |
| Engine.ResetGame | src/app.ts:273-294 | On the new settings: the invariant holds, the board, counters, flags and pending list are empty or zero, players are fresh via `InitialPlayers`, and the leaderboard is kept. |
| Engine.DealBoard | src/app.ts:296-299 | The rest of the reset deals, shuffles and tags the board, and changes nothing else. |
| Engine.FlipKeepsInv | src/app.ts:412-434 | A flip keeps the game invariant. |
| Engine.CheckMatchKeepsInv | src/app.ts:436-527 | The match check keeps the game invariant. |
| Engine.RevertMismatchKeepsInv | src/app.ts:514-522 | The corrected revert keeps the game invariant. |
| Engine.EndPeekKeepsInv | src/app.ts:249-256 | The end of the peek keeps the game invariant. |
| Engine.CompleteWinKeepsInv | src/app.ts:477-491 | The delayed win keeps the game invariant, and the bonus is counted in the scores. |
| Engine.DealBoardKeepsInv | src/app.ts:296-299 | Dealing a fresh board keeps the game invariant. |
| Engine.ScoresNeverDecrease | src/app.ts:412-553 | No step lowers a score or changes the number of players. This covers a flip, the match check, the revert, the peek end and the delayed win with its bonuses. |
| Controller.GameController.constructor | src/app.ts:121-126 | The fields equal `Engine.Initial(stored)`, and the invariant holds. |
| Controller.GameController.LoadLeaderboard | src/app.ts:641-650 | Only the leaderboard changes, as `Engine.LoadLeaderboard` says. |
| Controller.GameController.InitializePlayers | src/app.ts:259-271 | Corrected rule (see Findings): the push loop leaves `players == InitialPlayers(old players, playerCount)` and player 0 current. |
| Controller.GameController.ResetGame | src/app.ts:273-294 | The fields become `Engine.ResetGame` of the old fields, and the invariant holds. |
| Controller.GameController.ClearGame | src/app.ts:274-287 | The field resets at the top of `resetGame`. |
| Controller.GameController.LoadPokemonCards | src/app.ts:349-361 | The push loop leaves `cards == Engine.Deal(faces)` and changes nothing else. |
| Controller.GameController.ShuffleCards | src/app.ts:405-410 | The swap loop leaves the shuffle of the old cards. |
| Controller.GameController.AddPowerUpCard | src/app.ts:229-236 | The cards become `Engine.AddPowerUp` of the old cards. |
| Controller.GameController.FinishReset | src/app.ts:296-299 | Deals, shuffles and tags as `Engine.DealBoard` says, and keeps the invariant. |
| Controller.GameController.ActivatePowerUp | src/app.ts:238-257 | The counter increment and the reveal loop leave the fields as `Engine.ActivatePowerUp` says. |
| Controller.GameController.FlipCard | src/app.ts:412-434 | The fields become `Engine.Flip` of the old fields, and the invariant is kept. |
| Controller.GameController.CheckMatch | src/app.ts:436-527 | The fields become `Engine.CheckMatch` of the old fields, and the invariant is kept. |
| Controller.GameController.ScoreMatch | src/app.ts:441-501 | The statements of the match branch. |
| Controller.GameController.ScoreMismatch | src/app.ts:502-514 | The statements of the mismatch branch. |
| Controller.GameController.MarkMatched | src/app.ts:442-443 | Exactly one card becomes matched. |
| Controller.GameController.RewardMatch | src/app.ts:444-447 | The current player's score and streak, `comboCount` and `streakCount` all go up by one, and nothing else changes. |
| Controller.GameController.BreakStreak | src/app.ts:503-505 | The current player's streak, `comboCount` and `streakCount` become 0, and nothing else changes. |
| Controller.GameController.ScheduleWin | src/app.ts:474-477 | The delayed win becomes due. |
| Controller.GameController.ScheduleRevert | src/app.ts:514 | The revert of the two cards is queued behind the earlier ones. |
| Controller.GameController.ClearPending | src/app.ts:525 | The pending list becomes empty. |
| Controller.GameController.RevertMismatch | src/app.ts:514-522 | Corrected revert (see Findings): the fields become `Engine.RevertMismatch` of the old fields, and the invariant is kept. |
| Controller.GameController.PopRevert | src/app.ts:514-522 | The revert at the head of the queue runs and leaves it. |
| Controller.GameController.HideUnlessPending | src/app.ts:515-516 | Corrected revert (see Findings): one card turns face down unless it is matched or pending, where the source hides it unconditionally. |
| Controller.GameController.PassTurn | src/app.ts:518-520 | The turn passes as `Engine.NextPlayer` says. |
| Controller.GameController.EndPeek | src/app.ts:249-256 | The hide loop leaves the fields as `Engine.EndPeek` says, and the invariant is kept. |
| Controller.GameController.CalculateBonuses | src/app.ts:542-553 | The fields become `Engine.CalculateBonuses` of the old fields. |
| Controller.GameController.SetBonuses | src/app.ts:543-545 | The two bonus flags are set. |
| Controller.GameController.AddToCurrentScore | src/app.ts:547-552 | Only the current player's score changes, by the given points. |
| Controller.GameController.AddToLeaderboard | src/app.ts:656-688 | Push, sort and splice leave the list as `Engine.AddToLeaderboard` says. |
| Controller.GameController.CompleteWin | src/app.ts:477-491 | The fields become `Engine.CompleteWin` of the old fields, and the invariant is kept. |
| Controller.GameController.DeclareWin | src/app.ts:478 | `gameWon` becomes true as the delayed win runs. |
| Controller.GameController.ClockTick | src/app.ts:557-560 | The fields become `Engine.ClockTick` of the old fields. |
| Controller.GameController.ClearLeaderboard | src/app.ts:733-736 | The list becomes empty. |
| Findings.NameAt | src/app.ts:267 | `list[i]?.name` has a value exactly when `i` is within the list. |
| Findings.InitializePlayersForgetsNames | src/app.ts:259-271 | As written, every player gets the default name `Player i+1`, whatever the previous names were. |
| Findings.InitializePlayersNameLost | src/app.ts:259-271 | A player named `Ash` becomes `Player 1` as written, and stays `Ash` once corrected. |
| Findings.RevertAsWrittenSelfMatch | src/app.ts:514-522 | As written, a revert that fires while its first card is pending again lets that card be flipped twice. The check then matches the card with itself and scores a point for one matched card, which breaks the score invariant. |
| Findings.SelfMatch | src/app.ts:436-447 | A check of the pending pair `[i, i]` matches card `i` alone and scores a point for it. |
| Findings.RaceReachable | src/app.ts:412-434 | The race can be reached from any board that allows it: mismatch, power-up, peek end, re-flip. |
| Findings.RaceStartReady | src/app.ts:273-299 | The 4×4 one-player board that `resetGame` deals allows the race and satisfies the invariant. It uses shuffle draws that leave every card in place and a roll that tags card 4 as the power-up. |
| Findings.RevertRaceCorrected | src/app.ts:249-256 | With the corrected revert, the second flip of the pending card is refused and the invariant holds. |
| Service.PairsNeeded | src/app/services/game.ts:24-29 | The loop runs `ceil(gridSize^2 / 2)` times: the least `n` with `2n >= gridSize^2`. |
| Service.EvenGridCards | src/app/services/game.ts:24-29 | An even grid gets exactly `gridSize^2` cards. |
| Service.CardIdInjective | src/app/services/game.ts:31-32 | The ids `<id>-1` and `<id>-2` are equal exactly when the face ids and the copies are. |
| Service.DealPairs | src/app/services/game.ts:29-53 | Pair `i` is two cards of face `i`, with ids `<id>-1` and `<id>-2`, at positions `2i` and `2i+1`. |
| Service.DealFaceCount | src/app/services/game.ts:29-53 | Every face is on exactly twice as many cards as pairs it was used for. |
| Service.DealAppend | src/app/services/game.ts:52 | `cards.push(card1, card2)` extends the deal by one face. |
| Service.ShuffledDeal | src/app/services/game.ts:52-56 | After the shuffle: twice as many cards as faces, the same cards, each face twice per use, and all face down and unmatched. |
| Service.DealtIdsDistinct | src/app/services/game.ts:29-32 | When there is at least one face per pair and the face ids are distinct, every card gets its own id. |
| Service.UsedFacesPrefix | src/app/services/game.ts:30 | With enough faces, `pokemon[i % pokemon.length]` uses each face once, in order. |
| Service.NewGameSpec | src/app/services/game.ts:23-69 | `initializeGame` publishes:<br>- `2 * PairsNeeded(gridSize)` cards, which is `gridSize^2` for an even grid;<br>- a permutation of the deal, with every face twice per use, all face down and unmatched;<br>- `numberOfPlayers` zero scores, player 1, no moves, no matched pairs, nothing pending, not won. |
| Service.DealPairsLoop | src/app/services/game.ts:28-53 | The pairing loop produces the deal. |
| Service.NewGameInv | src/app/services/game.ts:23-69 | With at least one player, a new game satisfies the service invariant. |
| Service.InitialInv | src/app/services/game.ts:9-17 | The subject's initial value satisfies the invariant. |
| Service.WonMeansAllMatched | src/app/services/game.ts:108-110 | In a reachable state a won game has every card matched. |
| Service.FindById | src/app/services/game.ts:78 | `find` returns the first card with the id, or nothing exactly when no card has it. |
| Service.Flip | src/app/services/game.ts:71-94 | The state changes exactly when the flip is accepted. An accepted flip has fewer than two pending, the game not won, and the card found face down and unmatched. It turns that card face up, appends it to the pending list, adds one move, and changes nothing else; `moves` goes up on every accepted flip. |
| Service.FlipFindsFirst | src/app/services/game.ts:78-83 | A card whose id an earlier card carries is never the one flipped. |
| Service.FlipKeepsInv | src/app/services/game.ts:71-94 | A flip keeps the invariant, including at most two pending. |
| Service.OtherPlayer | src/app/services/game.ts:116-119 | With more than one score the turn goes to the other of players 1 and 2; with one score it stays. |
| Service.ResolveMatch | src/app/services/game.ts:100-110 | A match marks both cards matched and adds 1 to `matchedPairs` and to `playerScores[currentPlayer-1]`. Both cards change in `isMatched` only. The game becomes won exactly when it was won or `2 * matchedPairs` reaches the card count. Nothing else changes; the turn and moves are kept and nothing stays pending. |
| Service.ResolveMismatch | src/app/services/game.ts:111-122 | A mismatch turns both cards face down and changes nothing else about them. No score or match changes. The player becomes `OtherPlayer`: the other of players 1 and 2 when there is more than one score. Nothing stays pending, and nothing else in the state changes. |
| Service.ResolveKeepsInv | src/app/services/game.ts:96-124 | The check keeps the invariant. |
| Service.ResolveWins | src/app/services/game.ts:104-110 | After a check of a reachable state, the game is won exactly when `matchedPairs == cards.length / 2`, which is exactly when every card is matched. |
| Service.ResetSpec | src/app/services/game.ts:126-146 | The cards are a permutation of the old cards turned face down and unmatched. Scores are zeroed with their length kept; `matchedPairs`, moves and pending are empty, player 1 is current, and the game is not won. |
| Service.ResetKeepsInv | src/app/services/game.ts:126-146 | The reset keeps the invariant. |
| Service.GameService.constructor | src/app/services/game.ts:9-17 | The state is the subject's initial value. |
| Service.GameService.InitializeGame | src/app/services/game.ts:23-69 | The published state is `NewGame` of the arguments. |
| Service.GameService.FlipCard | src/app/services/game.ts:71-94 | The state becomes `Flip` of the old state. |
| Service.GameService.CheckForMatch | src/app/services/game.ts:96-124 | The state becomes `Resolve` of the old state. |
| Service.GameService.ResetGame | src/app/services/game.ts:126-146 | The `forEach` loop and the shuffle leave `Reset` of the old state. |
| Board.ScoreAt | src/app/game-board/game-board.ts:95-96 | `playerScores[i]` is defined exactly within the list. |
| Board.GetWinner | src/app/game-board/game-board.ts:89-106 | Empty exactly when there is no state or the game is not won. Once won: the congratulation exactly with one score; `Player 1 Wins!` exactly when score 1 beats score 2; `Player 2 Wins!` exactly when score 2 beats score 1; the tie message otherwise. So exactly one outcome holds. |
| Board.WinnerOfTwoPlayerGame | src/app/game-board/game-board.ts:98-104 | In a reachable won two-player game, the banner names the player who matched more than half the pairs, and a tie means each matched half. |

## Left out

- Audio is not modelled: `initializeAudio` and the `play*Sound` family.
- Flavour text is not modelled: `funnyMessages`, `getRandomMessage` and `showMessage`.
- UI-only transient flags are not modelled: `showFireworks`, `showCombo`, `showStreak`, `showMatchEffect`, `shakeCard`, `clearAllMessages`, `generateRandomLayout`, `getCardImage` and the other view helpers. They only drive the UI.
- `saveLeaderboard` and JSON handling are left out; they are I/O. A stored leaderboard is the `Engine.Stored` parameter.
- The fetch is a parameter. Each fetch result is an `Engine.Fetch` value; the network call is left out.
- `generateRandomPokemonIds` is not modelled: the faces are a parameter with one face per pair. The source's draw loop never ends when more than 151 distinct ids are requested (grids larger than 17×17).
- The clock is not modelled. `Date.now` becomes the `millis` parameter of `ClockTick`.
- `stopTimer` and the interval handles are not modelled. `resetGame` starts a new interval without clearing the old one, and nothing here depends on how many run.
- The `loading` flag and `startTime` are not modelled.
- `Engine.ResetGame` requires that no callback of the previous game is outstanding. Stale callbacks that fire after a reset are not modelled:
  - a stale `checkMatch` reads an empty pending list and throws;
  - a stale revert turns face down only the two cards it captured from the old board, but its turn hand-over (src/app.ts:518-520) applies to the new game;
  - a stale peek end hides the cards of the new board;
  - a stale delayed win that fires within 800 ms of a reset (src/app.ts:477-499):
    - it sets `gameWon` on the new game and stops its clock;
    - it awards both bonuses, 8 points, because moves and time are 0;
    - it records a leaderboard entry for the new grid size.
- `Controller.GameController.FlipCard` requires `index < |cards|`. The view only passes indices of rendered cards; an index out of range throws in the source.
- `confirmPlayerNames` is not modelled as an operation. When the player count is unchanged or lowered, the names it writes are lost in the `resetGame` it calls; see Findings.
- A player-count change is modelled only through `ResetGame`. The select writes `playerCount` at once, and `onPlayerCountChange` (src/app.ts:749-751) only opens the name dialog. Going from one to two players therefore leaves `playerCount` and `players` out of step:
  - `confirmPlayerNames` throws at `this.players[1]` (src/app.ts:708-709) before any reset;
  - after `cancelNameInput`, a mismatch passes the turn to a missing player.
  `Engine.Valid` requires `playerCount == |players|`, so this state is not modelled.
- Number formatting: decimal rendering covers integers only. Exponent notation of very large numbers is not modelled.
- `Service.GameService.CheckForMatch` requires two pending cards. A check scheduled before `resetGame` or `initializeGame`, firing after it, destructures an empty list and throws; that is not modelled.
- `Service.NewGameInv` requires at least one player. With zero players the first match would write a score at index 0 of an empty list, and the invariant does not cover that.
- `Service.GameService` never gives a turn to players beyond the second. `OtherPlayer` alternates between players 1 and 2 as the source does.
- Duplicate card ids are not excluded. When fewer faces than pairs are passed, ids repeat, and `find` always returns the first card with an id; `Service.FlipFindsFirst` states this.
- `Service` keeps `flippedCards` as positions in `cards` instead of object references. No operation reorders `cards` while cards are pending, since `resetGame` also empties the list.
- `getGridClass` uses a floating-point square root and is not modelled.
- The UI components are not modelled: `card.ts`, `game-settings.ts` and `app/app.ts`. They hold only wiring.
- `Engine.RevertMismatch` deliberately differs from the source: it models the corrected revert, which keeps matched and pending cards face up. The as-written revert is `Findings.RevertMismatchAsWritten`; see Findings.
- `Controller.GameController.RevertMismatch` runs the corrected revert of `Engine.RevertMismatch`, not the as-written one.
- `Controller.GameController.HideUnlessPending` is the corrected hide: it skips a matched or pending card, where src/app.ts:515-516 hide both cards unconditionally.
- `Engine.KeptName` states the corrected name rule. As written, src/app.ts:259-271 never keeps a name.
- `Controller.GameController.InitializePlayers` implements the corrected name rule of `Engine.InitialPlayers`, not the as-written loop.
- `Engine.InitialPlayers` deliberately models the corrected name rule. The as-written loop is `Findings.InitializePlayersAsWritten`; see Findings.

## Findings

| source | as written | input that shows it | evidently intended | confidence | as-written member | corrected member |
|---|---|---|---|---|---|---|
| src/app.ts:259-271 | `this.players = []` runs before the loop reads `this.players[i]?.name`, so the names are read from the empty list being rebuilt. Every player comes out as `Player i+1`, and names entered in `confirmPlayerNames` are lost in the reset it triggers whenever the player count was not raised. | one player named `Ash`, `playerCount` 1 | keep each previous non-empty name | not executed | Findings.InitializePlayersAsWritten | Engine.InitialPlayers |
| src/app.ts:514-522 | The mismatch revert, 1200 ms later, turns both captured cards face down unconditionally. If it fires while one of them is pending again, the card becomes flippable a second time: the pending list becomes `[i, i]` and the check scores a card matched with itself. | cards 0 and 2 mismatch; the power-up is flipped less than 200 ms later; its peek end at 1000 ms hides both cards; card 0 is flipped again before the revert fires (the 4×4 board of `Findings.RaceStart`) | hide only cards that are neither matched nor pending, as the peek end at src/app.ts:249-256 does | not executed | Findings.RevertMismatchAsWritten | Engine.RevertMismatch |

How each finding is shown and corrected:
- **Player names.** `Findings.InitializePlayersForgetsNames` shows the default names for every input. `Findings.InitializePlayersNameLost` is the concrete case. `Engine.InitialPlayers` states the corrected rule through `Engine.KeptName`, and `Controller.GameController.InitializePlayers` implements it.
- **Revert race.** `Findings.RaceStartReady` shows a board the race can start from. `Findings.RaceReachable` reaches the state before the revert fires. `Findings.RevertAsWrittenSelfMatch` shows the self-match and the broken score invariant. `Engine.RevertMismatchKeepsInv` proves that the corrected revert keeps the invariant. `Findings.RevertRaceCorrected` shows that the second flip is then refused.
