/**
 * `GameController` of src/app.ts as a class whose fields the operations update
 * in place. Each method is proved to leave the fields as the matching function
 * of `Engine` says, and the methods that move the game forward keep
 * `Engine.Inv`.
 */
module Controller {
  import Shuffle
  import Leaderboard
  import Engine

  class GameController {
    var gridSize: nat
    var playerCount: nat
    var cards: seq<Engine.Card>
    var players: seq<Engine.Player>
    var currentPlayer: nat
    var flippedCards: seq<nat>
    var moves: nat
    var gameWon: bool
    var elapsedTime: nat
    var comboCount: nat
    var streakCount: nat
    var perfectGameBonus: bool
    var speedBonus: bool
    var leaderboard: seq<Leaderboard.Entry>
    var revertsDue: seq<(nat, nat)>
    var peekEndsDue: nat
    var winDue: bool

    /** The fields as one value. */
    ghost function Snapshot(): Engine.State
      reads this
    {
      Engine.State(gridSize, playerCount, cards, players, currentPlayer, flippedCards, moves, gameWon,
                   elapsedTime, comboCount, streakCount, perfectGameBonus, speedBonus, leaderboard,
                   Engine.Due(revertsDue, peekEndsDue, winDue))
    }

    ghost predicate Valid()
      reads this
    {
      Engine.Valid(Snapshot())
    }

    ghost predicate Inv()
      reads this
    {
      Engine.Inv(Snapshot())
    }

    /** Defaults, the stored leaderboard, one fresh player and the first reset up to its `await`. */
    constructor (stored: Engine.Stored)
      ensures Snapshot() == Engine.Initial(stored)
      ensures Inv()
    {
      gridSize, playerCount := 4, 1;
      cards, players, currentPlayer, flippedCards := [], [], 0, [];
      moves, gameWon, elapsedTime := 0, false, 0;
      comboCount, streakCount, perfectGameBonus, speedBonus := 0, 0, false, false;
      leaderboard := [];
      revertsDue, peekEndsDue, winDue := [], 0, false;
      new;
      LoadLeaderboard(stored);
      InitializePlayers();
      ResetGame(4, 1);
    }

    method LoadLeaderboard(stored: Engine.Stored)
      modifies this`leaderboard
      ensures Snapshot() == old(Snapshot()).(leaderboard := Engine.LoadLeaderboard(old(leaderboard), stored))
    {
      match stored
      case Absent =>
      case Unparsable => leaderboard := [];
      case Parsed(entries) => leaderboard := entries;
    }

    /** `initializePlayers`, reading the names from the list it replaces. */
    method InitializePlayers()
      modifies this`players, this`currentPlayer
      ensures Snapshot() == old(Snapshot()).(players := Engine.InitialPlayers(old(players), playerCount), currentPlayer := 0)
    {
      var previous := players;
      var hadNames := |previous| > 0 && previous[0].name != "";
      var rebuilt: seq<Engine.Player> := [];
      var i := 0;
      while i < playerCount
        invariant 0 <= i <= playerCount && |rebuilt| == i
        invariant forall j :: 0 <= j < i ==> rebuilt[j] == Engine.Player(0, 0, 0, Engine.KeptName(previous, j))
      {
        var name := if hadNames && i < |previous| && previous[i].name != "" then previous[i].name else Engine.DefaultName(i);
        rebuilt := rebuilt + [Engine.Player(0, 0, 0, name)];
        i := i + 1;
      }
      assert rebuilt == Engine.InitialPlayers(previous, playerCount);
      players := rebuilt;
      currentPlayer := 0;
    }

    /** `resetGame` up to its `await`, for the settings the controls hold. */
    method ResetGame(newGridSize: nat, newPlayerCount: nat)
      requires Valid() && Engine.NoCallbacks(Snapshot()) && newPlayerCount >= 1
      modifies this`gridSize, this`playerCount, this`gameWon, this`moves, this`elapsedTime, this`flippedCards,
               this`cards, this`comboCount, this`streakCount, this`perfectGameBonus, this`speedBonus,
               this`players, this`currentPlayer
      ensures Snapshot() == Engine.ResetGame(old(Snapshot()), newGridSize, newPlayerCount)
      ensures Inv()
    {
      ClearGame(newGridSize, newPlayerCount);
      InitializePlayers();
    }

    /** The field resets at the start of `resetGame`, with the new settings. */
    method ClearGame(newGridSize: nat, newPlayerCount: nat)
      modifies this`gridSize, this`playerCount, this`gameWon, this`moves, this`elapsedTime, this`flippedCards,
               this`cards, this`comboCount, this`streakCount, this`perfectGameBonus, this`speedBonus
      ensures gridSize == newGridSize && playerCount == newPlayerCount && !gameWon && moves == 0 && elapsedTime == 0
      ensures flippedCards == [] && cards == [] && comboCount == 0 && streakCount == 0
      ensures !perfectGameBonus && !speedBonus
    {
      gridSize, playerCount, gameWon, moves, elapsedTime := newGridSize, newPlayerCount, false, 0, 0;
      flippedCards, cards := [], [];
      comboCount, streakCount, perfectGameBonus, speedBonus := 0, 0, false, false;
    }

    /** The pairing loop of `loadPokemonCards`. */
    method LoadPokemonCards(faces: seq<Engine.Pokemon>)
      modifies this`cards
      ensures Snapshot() == old(Snapshot()).(cards := Engine.Deal(faces))
    {
      var dealt: seq<Engine.Card> := [];
      var cardId := 0;
      var f := 0;
      while f < |faces|
        invariant 0 <= f <= |faces| && cardId == |dealt| == 2 * f
        invariant forall k :: 0 <= k < |dealt| ==> dealt[k] == Engine.Card(faces[k / 2], false, false, k, false)
        invariant Snapshot() == old(Snapshot())
      {
        var copy := 0;
        while copy < 2
          invariant 0 <= copy <= 2 && cardId == |dealt| == 2 * f + copy
          invariant forall k :: 0 <= k < |dealt| ==> dealt[k] == Engine.Card(faces[k / 2], false, false, k, false)
        {
          dealt := dealt + [Engine.Card(faces[f], false, false, cardId, false)];
          cardId := cardId + 1;
          copy := copy + 1;
        }
        f := f + 1;
      }
      cards := dealt;
    }

    /** `shuffleCards`, with the swap partners `js` standing for `Math.floor(Math.random() * (i + 1))`. */
    method ShuffleCards(js: seq<nat>)
      requires |js| == |cards| && Shuffle.ValidChoices(js)
      modifies this`cards
      ensures Snapshot() == old(Snapshot()).(cards := Shuffle.FisherYates(old(cards), js))
    {
      cards := Shuffle.ShuffleSeq(cards, js);
    }

    /** `addPowerUpCard`, with its two draws as parameters. */
    method AddPowerUpCard(roll: real, pick: real)
      requires 0.0 <= roll < 1.0 && 0.0 <= pick < 1.0
      modifies this`cards
      ensures Snapshot() == old(Snapshot()).(cards := Engine.AddPowerUp(old(cards), roll, pick))
    {
      if roll < 0.1 && |cards| > 4 {
        var randomIndex := Engine.PickIndex(pick, |cards|);
        if !cards[randomIndex].isPowerUp {
          cards := cards[randomIndex := cards[randomIndex].(isPowerUp := true)];
        }
      }
    }

    /** The rest of `resetGame` once the faces of `loadPokemonCards` have arrived. */
    method FinishReset(faces: seq<Engine.Pokemon>, js: seq<nat>, roll: real, pick: real)
      requires Valid() && Engine.NoCallbacks(Snapshot()) && cards == [] && flippedCards == [] && !gameWon
      requires |faces| == Engine.PairCount(gridSize) && |js| == 2 * |faces| && Shuffle.ValidChoices(js)
      requires 0.0 <= roll < 1.0 && 0.0 <= pick < 1.0
      modifies this`cards
      ensures Snapshot() == Engine.DealBoard(old(Snapshot()), faces, js, roll, pick)
      ensures old(Inv()) ==> Inv()
    {
      if Inv() {
        Engine.DealBoardKeepsInv(Snapshot(), faces, js, roll, pick);
      }
      LoadPokemonCards(faces);
      Engine.DealPairs(faces, 0);
      ShuffleCards(js);
      AddPowerUpCard(roll, pick);
    }

    /** The reveal of `activatePowerUp`; its delayed hide becomes due. */
    method ActivatePowerUp()
      requires Valid() && cards != []
      modifies this`players, this`cards, this`peekEndsDue
      ensures Snapshot() == Engine.ActivatePowerUp(old(Snapshot()))
    {
      var p := players[currentPlayer];
      players := players[currentPlayer := p.(powerUps := p.powerUps + 1)];
      var board := cards;
      var k := 0;
      while k < |board|
        invariant 0 <= k <= |board| == |cards|
        invariant forall j :: 0 <= j < k ==> board[j] == Engine.RevealCard(cards[j])
        invariant forall j :: k <= j < |board| ==> board[j] == cards[j]
      {
        board := board[k := Engine.RevealCard(board[k])];
        k := k + 1;
      }
      assert board == Engine.Revealed(cards);
      cards := board;
      peekEndsDue := peekEndsDue + 1;
    }

    /** `flipCard(index)`. */
    method FlipCard(index: nat)
      requires Valid() && index < |cards|
      modifies this`players, this`cards, this`peekEndsDue, this`flippedCards, this`moves
      ensures Snapshot() == Engine.Flip(old(Snapshot()), index)
      ensures old(Inv()) ==> Inv()
    {
      if Inv() {
        Engine.FlipKeepsInv(Snapshot(), index);
      }
      var card := cards[index];
      if card.isFlipped || card.isMatched || |flippedCards| >= 2 {
        return;
      }
      if card.isPowerUp && !card.isMatched {
        ActivatePowerUp();
        cards := cards[index := cards[index].(isPowerUp := false)];
        return;
      }
      cards := cards[index := card.(isFlipped := true)];
      flippedCards := flippedCards + [index];
      if |flippedCards| == 2 {
        moves := moves + 1;
      }
    }

    /** `checkMatch`, run 800 ms after the second flip. */
    method CheckMatch()
      requires Valid() && |flippedCards| == 2
      modifies this`cards, this`players, this`comboCount, this`streakCount, this`winDue, this`revertsDue, this`flippedCards
      ensures Snapshot() == Engine.CheckMatch(old(Snapshot()))
      ensures old(Inv()) ==> Inv()
    {
      if Inv() {
        Engine.CheckMatchKeepsInv(Snapshot());
      }
      if cards[flippedCards[0]].pokemon.id == cards[flippedCards[1]].pokemon.id {
        ScoreMatch();
      } else {
        ScoreMismatch();
      }
    }

    /** The match branch of `checkMatch`. */
    method ScoreMatch()
      requires Valid() && |flippedCards| == 2
      modifies this`cards, this`players, this`comboCount, this`streakCount, this`winDue, this`flippedCards
      ensures Snapshot() == Engine.MatchPair(old(Snapshot()))
    {
      MarkMatched(flippedCards[0]);
      MarkMatched(flippedCards[1]);
      RewardMatch();
      if Engine.AllMatched(cards) {
        ScheduleWin();
      }
      ClearPending();
    }

    /** The mismatch branch of `checkMatch`. */
    method ScoreMismatch()
      requires Valid() && |flippedCards| == 2
      modifies this`players, this`comboCount, this`streakCount, this`revertsDue, this`flippedCards
      ensures Snapshot() == Engine.MismatchPair(old(Snapshot()))
    {
      BreakStreak();
      ScheduleRevert(flippedCards[0], flippedCards[1]);
      ClearPending();
    }

    /** `card.isMatched = true`. */
    method MarkMatched(index: nat)
      requires index < |cards|
      modifies this`cards
      ensures Snapshot() == old(Snapshot()).(cards := old(cards)[index := old(cards)[index].(isMatched := true)])
    {
      cards := cards[index := cards[index].(isMatched := true)];
    }

    /** The current player's score and streak, the combo and the streak counter all go up by one. */
    method RewardMatch()
      requires currentPlayer < |players|
      modifies this`players, this`comboCount, this`streakCount
      ensures var p := old(players)[currentPlayer];
        Snapshot() == old(Snapshot()).(players := old(players)[currentPlayer := p.(score := p.score + 1, streak := p.streak + 1)],
                                       comboCount := old(comboCount) + 1, streakCount := old(streakCount) + 1)
    {
      var p := players[currentPlayer];
      players := players[currentPlayer := p.(score := p.score + 1, streak := p.streak + 1)];
      comboCount := comboCount + 1;
      streakCount := streakCount + 1;
    }

    /** The current player's streak, the combo and the streak counter all drop to zero. */
    method BreakStreak()
      requires currentPlayer < |players|
      modifies this`players, this`comboCount, this`streakCount
      ensures var p := old(players)[currentPlayer];
        Snapshot() == old(Snapshot()).(players := old(players)[currentPlayer := p.(streak := 0)], comboCount := 0, streakCount := 0)
    {
      var p := players[currentPlayer];
      players := players[currentPlayer := p.(streak := 0)];
      comboCount := 0;
      streakCount := 0;
    }

    /** The `$timeout` of the delayed win. */
    method ScheduleWin()
      modifies this`winDue
      ensures Snapshot() == old(Snapshot()).(due := old(Snapshot()).due.(win := true))
    {
      winDue := true;
    }

    /** The `$timeout` of the mismatch revert, holding the two cards. */
    method ScheduleRevert(index1: nat, index2: nat)
      modifies this`revertsDue
      ensures Snapshot() == old(Snapshot()).(due := old(Snapshot()).due.(reverts := old(revertsDue) + [(index1, index2)]))
    {
      revertsDue := revertsDue + [(index1, index2)];
    }

    /** `this.flippedCards = []`. */
    method ClearPending()
      modifies this`flippedCards
      ensures Snapshot() == old(Snapshot()).(flippedCards := [])
    {
      flippedCards := [];
    }

    /** The mismatch callback, 1200 ms after `checkMatch`, hiding only cards that are neither matched nor pending. */
    method RevertMismatch()
      requires Valid() && revertsDue != []
      modifies this`revertsDue, this`cards, this`currentPlayer
      ensures Snapshot() == Engine.RevertMismatch(old(Snapshot()))
      ensures old(Inv()) ==> Inv()
    {
      if Inv() {
        Engine.RevertMismatchKeepsInv(Snapshot());
      }
      var (index1, index2) := revertsDue[0];
      PopRevert();
      HideUnlessPending(index1);
      HideUnlessPending(index2);
      PassTurn();
    }

    /** The revert callback at the head of the queue runs and leaves it. */
    method PopRevert()
      requires revertsDue != []
      modifies this`revertsDue
      ensures Snapshot() == old(Snapshot()).(due := old(Snapshot()).due.(reverts := old(revertsDue)[1..]))
    {
      revertsDue := revertsDue[1..];
    }

    /** `card.isFlipped = false`, for a card that is neither matched nor pending. */
    method HideUnlessPending(index: nat)
      requires index < |cards|
      modifies this`cards
      ensures Snapshot() == old(Snapshot()).(cards := old(cards)[index := Engine.HideCard(old(cards)[index], index in flippedCards)])
    {
      cards := cards[index := Engine.HideCard(cards[index], index in flippedCards)];
    }

    /** The turn hand-over of the mismatch callback. */
    method PassTurn()
      requires Valid()
      modifies this`currentPlayer
      ensures Snapshot() == old(Snapshot()).(currentPlayer := Engine.NextPlayer(old(Snapshot())))
    {
      if playerCount == 2 {
        currentPlayer := (currentPlayer + 1) % 2;
      }
    }

    /** The power-up callback, 1000 ms after the peek. */
    method EndPeek()
      requires Valid() && peekEndsDue > 0
      modifies this`cards, this`peekEndsDue
      ensures Snapshot() == Engine.EndPeek(old(Snapshot()))
      ensures old(Inv()) ==> Inv()
    {
      if Inv() {
        Engine.EndPeekKeepsInv(Snapshot());
      }
      var board := cards;
      var k := 0;
      while k < |board|
        invariant 0 <= k <= |board| == |cards|
        invariant forall j :: 0 <= j < k ==> board[j] == Engine.HideCard(cards[j], j in flippedCards)
        invariant forall j :: k <= j < |board| ==> board[j] == cards[j]
      {
        board := board[k := Engine.HideCard(board[k], k in flippedCards)];
        k := k + 1;
      }
      assert board == Engine.Hidden(cards, flippedCards);
      cards := board;
      peekEndsDue := peekEndsDue - 1;
    }

    /** `calculateBonuses`. */
    method CalculateBonuses()
      requires Valid()
      modifies this`perfectGameBonus, this`speedBonus, this`players
      ensures Snapshot() == Engine.CalculateBonuses(old(Snapshot()))
    {
      SetBonuses(2 * moves <= gridSize * gridSize, elapsedTime < 60);
      if perfectGameBonus {
        AddToCurrentScore(5);
      }
      if speedBonus {
        AddToCurrentScore(3);
      }
    }

    method SetBonuses(perfect: bool, speed: bool)
      modifies this`perfectGameBonus, this`speedBonus
      ensures Snapshot() == old(Snapshot()).(perfectGameBonus := perfect, speedBonus := speed)
    {
      perfectGameBonus, speedBonus := perfect, speed;
    }

    /** `this.players[this.currentPlayer].score += points`. */
    method AddToCurrentScore(points: int)
      requires currentPlayer < |players|
      modifies this`players
      ensures var p := old(players)[currentPlayer];
        Snapshot() == old(Snapshot()).(players := old(players)[currentPlayer := p.(score := p.score + points)])
    {
      var p := players[currentPlayer];
      players := players[currentPlayer := p.(score := p.score + points)];
    }

    /** `addToLeaderboard`: push, sort, then splice out the current grid size's entries past the tenth. */
    method AddToLeaderboard(playerName: string, playerScore: int, date: string)
      modifies this`leaderboard
      ensures Snapshot() == Engine.AddToLeaderboard(old(Snapshot()), playerName, playerScore, date)
    {
      var entry := Leaderboard.Entry(playerName, elapsedTime, moves, playerScore, gridSize, date,
                                     Leaderboard.DifficultyName(gridSize));
      var sorted := Leaderboard.Sort(leaderboard + [entry]);
      leaderboard := Leaderboard.Prune(sorted, gridSize, Leaderboard.MaxPerDifficulty);
    }

    /** The delayed win, 800 ms after the last match. */
    method CompleteWin(date: string)
      requires Valid() && winDue
      modifies this`gameWon, this`winDue, this`perfectGameBonus, this`speedBonus, this`players, this`leaderboard
      ensures Snapshot() == Engine.CompleteWin(old(Snapshot()), date)
      ensures old(Inv()) ==> Inv()
    {
      if Inv() {
        Engine.CompleteWinKeepsInv(Snapshot(), date);
      }
      DeclareWin();
      CalculateBonuses();
      if playerCount == 1 {
        AddToLeaderboard(Engine.DisplayName(players[0]), players[0].score, date);
      } else {
        var winner := if players[0].score > players[1].score then players[0] else players[1];
        if players[0].score != players[1].score {
          AddToLeaderboard(Engine.DisplayName(winner), winner.score, date);
        }
      }
    }

    /** `this.gameWon = true`, as the delayed win callback runs. */
    method DeclareWin()
      modifies this`gameWon, this`winDue
      ensures Snapshot() == old(Snapshot()).(gameWon := true, due := old(Snapshot()).due.(win := false))
    {
      gameWon, winDue := true, false;
    }

    /** The `setInterval` callback, given the milliseconds since `startTimer`. */
    method ClockTick(millis: nat)
      modifies this`elapsedTime
      ensures Snapshot() == Engine.ClockTick(old(Snapshot()), millis)
    {
      elapsedTime := millis / 1000;
    }

    /** `clearLeaderboard`. */
    method ClearLeaderboard()
      modifies this`leaderboard
      ensures Snapshot() == Engine.ClearLeaderboard(old(Snapshot()))
    {
      leaderboard := [];
    }
  }
}
