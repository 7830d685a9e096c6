/**
 * Two places where src/app.ts does not do what it evidently means to do,
 * each modelled as written next to the corrected definition that `Engine`
 * and `Controller` use.
 */
module Findings {
  import Wrappers
  import Shuffle
  import Engine

  // ---------------------------------------------------------------- player names

  /** JavaScript's `list[i]?.name`: nothing past the end of the list. */
  function NameAt(list: seq<Engine.Player>, i: nat): (n: Wrappers.Option<string>)
    ensures n.Some? <==> i < |list|
    ensures i < |list| ==> n == Wrappers.Some(list[i].name)
  {
    if i < |list| then Wrappers.Some(list[i].name) else Wrappers.None
  }

  /**
   * The loop of `initializePlayers` as written: `this.players` is emptied
   * first, so `this.players[i]?.name` reads the list being rebuilt, which at
   * step `i` holds only `i` players.
   */
  function PlayersAsWritten(hadNames: bool, built: seq<Engine.Player>, count: nat): (r: seq<Engine.Player>)
    decreases count - |built|
  {
    if |built| >= count then built
    else
      var i: nat := |built|;
      var name := match NameAt(built, i)
        case Some(n) => if hadNames && n != "" then n else Engine.DefaultName(i)
        case None => Engine.DefaultName(i);
      PlayersAsWritten(hadNames, built + [Engine.Player(0, 0, 0, name)], count)
  }

  /** `initializePlayers` as written. */
  function InitializePlayersAsWritten(previous: seq<Engine.Player>, count: nat): (r: seq<Engine.Player>)
  {
    PlayersAsWritten(|previous| > 0 && previous[0].name != "", [], count)
  }

  lemma {:induction false} PlayersAsWrittenDefaults(hadNames: bool, built: seq<Engine.Player>, count: nat)
    requires |built| <= count
    requires forall k :: 0 <= k < |built| ==> built[k] == Engine.Player(0, 0, 0, Engine.DefaultName(k))
    ensures var r := PlayersAsWritten(hadNames, built, count);
      |r| == count && forall k :: 0 <= k < count ==> r[k] == Engine.Player(0, 0, 0, Engine.DefaultName(k))
    decreases count - |built|
  {
    if |built| < count {
      var next := built + [Engine.Player(0, 0, 0, Engine.DefaultName(|built|))];
      PlayersAsWrittenDefaults(hadNames, next, count);
    }
  }

  /** As written, every player comes out with the default name, whatever names the previous players had. */
  lemma InitializePlayersForgetsNames(previous: seq<Engine.Player>, count: nat)
    ensures var r := InitializePlayersAsWritten(previous, count);
      |r| == count && forall k :: 0 <= k < count ==> r[k].name == Engine.DefaultName(k)
  {
    PlayersAsWrittenDefaults(|previous| > 0 && previous[0].name != "", [], count);
  }

  /** A single player named `Ash` is renamed `Player 1` by the code as written and keeps the name once corrected. */
  lemma InitializePlayersNameLost()
    ensures InitializePlayersAsWritten([Engine.Player(3, 1, 0, "Ash")], 1)[0].name == "Player 1"
    ensures Engine.InitialPlayers([Engine.Player(3, 1, 0, "Ash")], 1)[0].name == "Ash"
  {
    InitializePlayersForgetsNames([Engine.Player(3, 1, 0, "Ash")], 1);
    assert Engine.DefaultName(0) == "Player 1";
  }

  // ---------------------------------------------------------------- the mismatch revert

  /**
   * The mismatch callback as written: both captured cards are turned face down
   * unconditionally, even when one of them has become pending again since the
   * power-up peek hid it and it was flipped anew.
   */
  function RevertMismatchAsWritten(st: Engine.State): (r: Engine.State)
    requires Engine.Valid(st) && st.due.reverts != []
  {
    var (i1, i2) := st.due.reverts[0];
    var c1 := st.cards[i1 := st.cards[i1].(isFlipped := false)];
    st.(cards := c1[i2 := c1[i2].(isFlipped := false)],
        currentPlayer := Engine.NextPlayer(st),
        due := st.due.(reverts := st.due.reverts[1..]))
  }

  /**
   * As written, a revert that fires while the first of its two cards is
   * pending again turns that card face down, so it can be flipped a second
   * time: it becomes the pending pair `[i, i]`, and the check matches the card
   * with itself, scoring a point for a single matched card. The invariant that
   * points come from matched pairs is then broken.
   */
  lemma RevertAsWrittenSelfMatch(st: Engine.State)
    requires Engine.Inv(st) && st.due.reverts != [] && st.flippedCards == [st.due.reverts[0].0]
    requires !st.cards[st.due.reverts[0].0].isPowerUp
    ensures var i := st.due.reverts[0].0;
      var s7 := RevertMismatchAsWritten(st);
      && Engine.Valid(s7) && !Engine.FlipBlocked(s7, i)
      && Engine.Flip(s7, i).flippedCards == [i, i]
      && var s9 := Engine.CheckMatch(Engine.Flip(s7, i));
        && s9.cards[i].isMatched
        && Engine.MatchedCount(s9.cards) == Engine.MatchedCount(st.cards) + 1
        && Engine.TotalScore(s9.players) == Engine.TotalScore(st.players) + 1
        && !Engine.ScoresAccounted(s9)
  {
    var i := st.due.reverts[0].0;
    var s7 := RevertMismatchAsWritten(st);
    assert s7.cards[i] == st.cards[i].(isFlipped := false);
    var s8 := Engine.Flip(s7, i);
    Engine.FlipOrdinary(s7, i);
    assert forall k :: 0 <= k < |st.cards| ==> st.cards[k].isMatched == s8.cards[k].isMatched;
    Engine.MatchedCountSame(st.cards, s8.cards);
    SelfMatch(s8, i);
  }

  /** A check of the pending pair `[i, i]` matches card `i` alone and scores a point for it. */
  lemma SelfMatch(s: Engine.State, i: nat)
    requires Engine.Valid(s) && s.flippedCards == [i, i] && !s.cards[i].isMatched
    ensures var r := Engine.CheckMatch(s);
      && r.cards[i].isMatched
      && Engine.MatchedCount(r.cards) == Engine.MatchedCount(s.cards) + 1
      && Engine.TotalScore(r.players) == Engine.TotalScore(s.players) + 1
      && Engine.AwardedBonus(r) == Engine.AwardedBonus(s)
  {
    assert Engine.PendingMatch(s);
    var r := Engine.CheckMatch(s);
    assert r.cards == s.cards[i := s.cards[i].(isMatched := true)];
    Engine.MatchedCountUpdate(s.cards, i, s.cards[i].(isMatched := true));
    var p := s.players[s.currentPlayer];
    Engine.TotalScoreUpdate(s.players, s.currentPlayer, p.(score := p.score + 1, streak := p.streak + 1));
  }

  /** Eight faces with the ids 1 to 8. */
  function RaceFaces(): (faces: seq<Engine.Pokemon>)
    ensures |faces| == 8
  {
    seq(8, i => Engine.Pokemon(i + 1, "p"))
  }

  /** The one-player 4x4 game freshly set up before any deal: the constructor's state after the top of `resetGame`. */
  function RaceReset(): (st: Engine.State)
    ensures Engine.Valid(st) && Engine.NoCallbacks(st)
    ensures st.cards == [] && st.flippedCards == [] && !st.gameWon && st.gridSize == 4
  {
    Engine.ResetGame(Engine.Initial(Engine.Absent), 4, 1)
  }

  lemma RaceResetInv()
    ensures Engine.Inv(RaceReset())
  {
  }

  /**
   * The board `resetGame` deals on a 4x4 grid with one player when the shuffle
   * draws leave every card in place and the power-up roll tags card 4.
   */
  function RaceStart(): (st: Engine.State)
  {
    var st, faces, js := RaceReset(), RaceFaces(), Shuffle.StayDraws(16);
    assert Engine.PairCount(st.gridSize) == |faces| && |js| == 2 * |faces|;
    Engine.DealBoard(st, faces, js, 0.0, 0.25)
  }

  /** The board of `st` allows the race: cards `i` and `j` differ and are face down, `p` is a face-down power-up. */
  predicate RaceReady(st: Engine.State, i: nat, j: nat, p: nat)
  {
    && i < |st.cards| && j < |st.cards| && p < |st.cards| && i != j && i != p && j != p
    && st.flippedCards == [] && st.due == Engine.Due([], 0, false)
    && st.cards[i].pokemon.id != st.cards[j].pokemon.id
    && !st.cards[i].isFlipped && !st.cards[i].isMatched && !st.cards[i].isPowerUp
    && !st.cards[j].isFlipped && !st.cards[j].isMatched && !st.cards[j].isPowerUp
    && !st.cards[p].isFlipped && !st.cards[p].isMatched && st.cards[p].isPowerUp
  }

  /**
   * Flip `i` and `j` (a mismatch, whose revert of both is now due), flip the
   * power-up `p` and let its peek end, which hides `i` and `j` before the revert
   * fires, then flip `i` again.
   */
  function RaceBeforeRevert(st: Engine.State, i: nat, j: nat, p: nat): (r: Engine.State)
    requires Engine.Valid(st) && RaceReady(st, i, j, p)
  {
    var s1 := Engine.Flip(st, i);
    var s2 := Engine.Flip(s1, j);
    var s3 := Engine.CheckMatch(s2);
    var s4 := Engine.Flip(s3, p);
    var s5 := Engine.EndPeek(s4);
    Engine.Flip(s5, i)
  }

  /**
   * The race is reachable from every board that allows it: the revert fires
   * with `i` pending again, so `RevertAsWrittenSelfMatch` applies.
   */
  lemma RaceReachable(st: Engine.State, i: nat, j: nat, p: nat)
    requires Engine.Inv(st) && RaceReady(st, i, j, p)
    ensures var r := RaceBeforeRevert(st, i, j, p);
      Engine.Inv(r) && r.flippedCards == [i] && r.due.reverts == [(i, j)] && !r.cards[i].isPowerUp
  {
    var s1 := Engine.Flip(st, i);
    Engine.FlipOrdinary(st, i);
    Engine.FlipKeepsInv(st, i);
    var s2 := Engine.Flip(s1, j);
    Engine.FlipOrdinary(s1, j);
    Engine.FlipKeepsInv(s1, j);
    var s3 := Engine.CheckMatch(s2);
    Engine.CheckMatchKeepsInv(s2);
    var s4 := Engine.Flip(s3, p);
    Engine.FlipPowerUp(s3, p);
    Engine.FlipKeepsInv(s3, p);
    var s5 := Engine.EndPeek(s4);
    Engine.EndPeekKeepsInv(s4);
    Engine.FlipOrdinary(s5, i);
    Engine.FlipKeepsInv(s5, i);
  }

  /** The freshly dealt 4x4 board of `RaceStart` allows the race with cards 0 and 2 and the power-up 4. */
  lemma RaceStartReady()
    ensures Engine.Inv(RaceStart()) && RaceReady(RaceStart(), 0, 2, 4)
  {
    var faces := RaceFaces();
    var dealt := Engine.Deal(faces);
    assert Engine.PairCount(4) == 8;
    RaceResetInv();
    Engine.DealBoardKeepsInv(RaceReset(), faces, Shuffle.StayDraws(16), 0.0, 0.25);
    Shuffle.FisherYatesStays(dealt);
    assert Engine.PickIndex(0.25, 16) == 4;
    var st := RaceStart();
    assert st.cards == dealt[4 := dealt[4].(isPowerUp := true)];
    assert dealt[0] == Engine.Card(faces[0], false, false, 0, false);
    assert dealt[2] == Engine.Card(faces[1], false, false, 2, false);
    assert dealt[4] == Engine.Card(faces[2], false, false, 4, false);
  }

  /**
   * With the revert corrected, the first card stays face up because it is
   * pending, so the second flip of it is refused, and the game invariant holds.
   */
  lemma RevertRaceCorrected(st: Engine.State, i: nat, j: nat, p: nat)
    requires Engine.Inv(st) && RaceReady(st, i, j, p)
    ensures var s7 := Engine.RevertMismatch(RaceBeforeRevert(st, i, j, p));
      Engine.FlipBlocked(s7, i) && Engine.Inv(s7)
  {
    RaceReachable(st, i, j, p);
    Engine.RevertMismatchKeepsInv(RaceBeforeRevert(st, i, j, p));
  }
}
