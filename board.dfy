/**
 * `GameBoardComponent.getWinner` (src/app/game-board/game-board.ts): the
 * banner shown over the board of the Angular version once its game is won.
 */
module Board {
  import Wrappers
  import Service

  /** `playerScores[i]`, which JavaScript reads as `undefined` past the end. */
  function ScoreAt(scores: seq<nat>, i: nat): (s: Wrappers.Option<nat>)
    ensures s.Some? <==> i < |scores|
    ensures i < |scores| ==> s.value == scores[i]
  {
    if i < |scores| then Wrappers.Some(scores[i]) else Wrappers.None
  }

  /** `a > b` on two scores: false when either is `undefined`. */
  predicate Beats(a: Wrappers.Option<nat>, b: Wrappers.Option<nat>) {
    a.Some? && b.Some? && a.value > b.value
  }

  /**
   * Nothing before the game is won; the congratulation for a single player;
   * otherwise the player with more points between players 1 and 2, or a tie.
   */
  function GetWinner(gameState: Wrappers.Option<Service.GameState>): (m: string)
    ensures m == "" <==> gameState.None? || !gameState.value.isGameWon
    ensures gameState.Some? && gameState.value.isGameWon ==>
      var scores := gameState.value.playerScores;
      && (m == "Congratulations! You won!" <==> |scores| == 1)
      && (m == "Player 1 Wins!" <==> |scores| >= 2 && scores[0] > scores[1])
      && (m == "Player 2 Wins!" <==> |scores| >= 2 && scores[1] > scores[0])
      && (m == "It's a Tie!" <==> |scores| == 0 || (|scores| >= 2 && scores[0] == scores[1]))
  {
    if gameState.None? || !gameState.value.isGameWon then ""
    else
      var scores := gameState.value.playerScores;
      if |scores| == 1 then "Congratulations! You won!"
      else
        var player1Score, player2Score := ScoreAt(scores, 0), ScoreAt(scores, 1);
        if Beats(player1Score, player2Score) then "Player 1 Wins!"
        else if Beats(player2Score, player1Score) then "Player 2 Wins!"
        else "It's a Tie!"
  }

  /**
   * In a won two-player game of the service the banner names the player who
   * matched more pairs, and a tie means each matched half of them.
   */
  lemma WinnerOfTwoPlayerGame(st: Service.GameState)
    requires Service.Inv(st) && st.isGameWon && |st.playerScores| == 2
    ensures var m := GetWinner(Wrappers.Some(st));
      && (m == "Player 1 Wins!" <==> 2 * st.playerScores[0] > st.matchedPairs)
      && (m == "Player 2 Wins!" <==> 2 * st.playerScores[1] > st.matchedPairs)
      && (m == "It's a Tie!" <==> 2 * st.playerScores[0] == st.matchedPairs)
  {
    var s := st.playerScores;
    assert s[1..][1..] == [];
    assert Service.Sum(s[1..]) == s[1] + Service.Sum(s[1..][1..]);
    assert Service.Sum(s) == s[0] + s[1];
  }
}
