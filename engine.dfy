/**
 * The game rules of the AngularJS version (`GameController` in src/app.ts) as
 * functions on the controller's state: every operation, every `$timeout`
 * callback and the `setInterval` tick maps a `State` to a `State`. The class
 * `Controller.GameController` holds the same fields and is proved to update
 * them as these functions say. Randomness, the milliseconds the clock shows and
 * the fetched faces are parameters.
 */
module Engine {
  import opened Wrappers
  import Text
  import Shuffle
  import Leaderboard

  /** The part of a fetched face the game logic looks at. */
  datatype Pokemon = Pokemon(id: int, name: string)

  /** What `fetchPokemon` got for one requested id. */
  datatype Fetch = Fetched(pokemon: Pokemon) | FetchFailed

  /** `fetchPokemon`: a failed request yields a placeholder face that keeps the requested id. */
  function FaceFor(requestedId: int, result: Fetch): (p: Pokemon)
    ensures result.FetchFailed? ==> p.id == requestedId
    ensures result.Fetched? ==> p == result.pokemon
  {
    match result
    case Fetched(pokemon) => pokemon
    case FetchFailed => Pokemon(requestedId, "Pokemon " + Text.IntToString(requestedId))
  }

  datatype Card = Card(pokemon: Pokemon, isFlipped: bool, isMatched: bool, id: int, isPowerUp: bool)

  datatype Player = Player(score: int, streak: int, powerUps: int, name: string)

  // ---------------------------------------------------------------- counting

  function MatchedCount(cards: seq<Card>): nat
  {
    if cards == [] then 0 else (if cards[0].isMatched then 1 else 0) + MatchedCount(cards[1..])
  }

  predicate AllMatched(cards: seq<Card>) {
    forall k :: 0 <= k < |cards| ==> cards[k].isMatched
  }

  /** Two boards whose cards agree on `isMatched` position by position have as many matched cards. */
  lemma {:induction false} MatchedCountSame(a: seq<Card>, b: seq<Card>)
    requires |a| == |b|
    requires forall k :: 0 <= k < |a| ==> a[k].isMatched == b[k].isMatched
    ensures MatchedCount(a) == MatchedCount(b)
  {
    if a != [] {
      MatchedCountSame(a[1..], b[1..]);
    }
  }

  /** Replacing one card changes the number of matched cards by the change in that card. */
  lemma {:induction false} MatchedCountUpdate(cards: seq<Card>, i: nat, c: Card)
    requires i < |cards|
    ensures MatchedCount(cards[i := c]) ==
      MatchedCount(cards) - (if cards[i].isMatched then 1 else 0) + (if c.isMatched then 1 else 0)
  {
    if i > 0 {
      MatchedCountUpdate(cards[1..], i - 1, c);
      assert cards[i := c][1..] == cards[1..][i - 1 := c];
    }
  }

  /** There are at most as many matched cards as cards, and exactly as many when all are matched. */
  lemma {:induction false} MatchedCountBound(cards: seq<Card>)
    ensures MatchedCount(cards) <= |cards|
    ensures MatchedCount(cards) == |cards| <==> AllMatched(cards)
  {
    if cards != [] {
      MatchedCountBound(cards[1..]);
      if !cards[0].isMatched {
        assert !AllMatched(cards);
      }
      if AllMatched(cards) {
        assert AllMatched(cards[1..]) by {
          forall k | 0 <= k < |cards| - 1 ensures cards[1..][k].isMatched {
            assert cards[1..][k] == cards[k + 1];
          }
        }
      }
      if !AllMatched(cards[1..]) {
        var k :| 0 <= k < |cards| - 1 && !cards[1..][k].isMatched;
        assert !cards[k + 1].isMatched;
      }
    }
  }

  function TotalScore(players: seq<Player>): int
  {
    if players == [] then 0 else players[0].score + TotalScore(players[1..])
  }

  lemma {:induction false} TotalScoreUpdate(players: seq<Player>, i: nat, p: Player)
    requires i < |players|
    ensures TotalScore(players[i := p]) == TotalScore(players) - players[i].score + p.score
  {
    if i > 0 {
      TotalScoreUpdate(players[1..], i - 1, p);
      assert players[i := p][1..] == players[1..][i - 1 := p];
    }
  }

  lemma {:induction false} TotalScoreZero(players: seq<Player>)
    requires forall k :: 0 <= k < |players| ==> players[k].score == 0
    ensures TotalScore(players) == 0
  {
    if players != [] {
      TotalScoreZero(players[1..]);
    }
  }

  // ---------------------------------------------------------------- board setup

  /** `generateRandomPokemonIds(totalCards / 2)` draws ids until it has at least half the cards: `ceil(gridSize^2 / 2)` faces. */
  function PairCount(gridSize: nat): nat {
    (gridSize * gridSize + 1) / 2
  }

  /** The pairing loop of `loadPokemonCards`: every face twice, in order, face down, numbered from 0. */
  function Deal(faces: seq<Pokemon>): seq<Card>
  {
    seq(2 * |faces|, k requires 0 <= k < 2 * |faces| => Card(faces[k / 2], false, false, k, false))
  }

  /** The number of cards showing a face with the given id. */
  function FaceCount(cards: seq<Card>, pokemonId: int): nat
  {
    if cards == [] then 0 else (if cards[0].pokemon.id == pokemonId then 1 else 0) + FaceCount(cards[1..], pokemonId)
  }

  /** The number of faces with the given id. */
  function IdCount(faces: seq<Pokemon>, pokemonId: int): nat
  {
    if faces == [] then 0 else (if faces[0].id == pokemonId then 1 else 0) + IdCount(faces[1..], pokemonId)
  }

  lemma {:induction false} DealSuffixPairs(faces: seq<Pokemon>, m: nat, pokemonId: int)
    requires m <= |faces|
    ensures FaceCount(Deal(faces)[2 * m..], pokemonId) == 2 * IdCount(faces[m..], pokemonId)
    decreases |faces| - m
  {
    if m < |faces| {
      DealSuffixPairs(faces, m + 1, pokemonId);
      var d := Deal(faces)[2 * m..];
      assert d[1..][1..] == Deal(faces)[2 * (m + 1)..];
      assert faces[m..][1..] == faces[m + 1..];
    }
  }

  /** Dealing puts every face on exactly two cards, all face down and unmatched, none a power-up. */
  lemma DealPairs(faces: seq<Pokemon>, pokemonId: int)
    ensures |Deal(faces)| == 2 * |faces|
    ensures FaceCount(Deal(faces), pokemonId) == 2 * IdCount(faces, pokemonId)
    ensures forall k :: 0 <= k < |Deal(faces)| ==>
      var c := Deal(faces)[k]; !c.isFlipped && !c.isMatched && !c.isPowerUp && c.id == k
  {
    DealSuffixPairs(faces, 0, pokemonId);
    assert Deal(faces)[0..] == Deal(faces);
    assert faces[0..] == faces;
  }

  /** Face counts of a board change only with the card that is replaced. */
  lemma {:induction false} FaceCountUpdate(cards: seq<Card>, i: nat, c: Card, pokemonId: int)
    requires i < |cards|
    ensures FaceCount(cards[i := c], pokemonId) ==
      FaceCount(cards, pokemonId) - (if cards[i].pokemon.id == pokemonId then 1 else 0) + (if c.pokemon.id == pokemonId then 1 else 0)
  {
    if i > 0 {
      FaceCountUpdate(cards[1..], i - 1, c, pokemonId);
      assert cards[i := c][1..] == cards[1..][i - 1 := c];
    }
  }

  lemma {:induction false} FaceCountFromFisherYates(cards: seq<Card>, js: seq<nat>, i: nat, pokemonId: int)
    requires i < |cards| == |js| && Shuffle.ValidChoices(js)
    ensures FaceCount(Shuffle.FisherYatesFrom(cards, js, i), pokemonId) == FaceCount(cards, pokemonId)
    decreases i
  {
    if i > 0 {
      var j := js[i];
      var swapped := Shuffle.Swap(cards, i, j);
      FaceCountUpdate(cards, i, cards[j], pokemonId);
      FaceCountUpdate(cards[i := cards[j]], j, cards[i], pokemonId);
      FaceCountFromFisherYates(swapped, js, i - 1, pokemonId);
    }
  }

  /** Shuffling keeps every face on as many cards as before. */
  lemma FaceCountShuffle(cards: seq<Card>, js: seq<nat>, pokemonId: int)
    requires |cards| == |js| && Shuffle.ValidChoices(js)
    ensures FaceCount(Shuffle.FisherYates(cards, js), pokemonId) == FaceCount(cards, pokemonId)
  {
    if |cards| > 0 {
      FaceCountFromFisherYates(cards, js, |cards| - 1, pokemonId);
    }
  }

  /** The faces `loadPokemonCards` receives for the requested ids, one `fetchPokemon` result each. */
  function Faces(ids: seq<int>, results: seq<Fetch>): (faces: seq<Pokemon>)
    requires |ids| == |results|
    ensures |faces| == |ids|
    ensures forall i :: 0 <= i < |ids| && results[i].FetchFailed? ==> faces[i].id == ids[i]
    ensures forall i :: 0 <= i < |ids| && results[i].Fetched? ==> faces[i] == results[i].pokemon
  {
    seq(|ids|, i requires 0 <= i < |ids| => FaceFor(ids[i], results[i]))
  }

  /** `Math.floor(pick * n)`: a uniform draw in `0..n-1`. */
  function PickIndex(pick: real, n: nat): (i: nat)
    requires 0.0 <= pick < 1.0 && n > 0
    ensures i < n
  {
    assert pick * (n as real) < n as real by {
      assert (1.0 - pick) * (n as real) > 0.0;
    }
    (pick * (n as real)).Floor
  }

  /**
   * `addPowerUpCard`: when the first draw is below 0.1 and the board has more
   * than four cards, the card at the second draw's index becomes a power-up.
   */
  function AddPowerUp(cards: seq<Card>, roll: real, pick: real): (r: seq<Card>)
    requires 0.0 <= roll < 1.0 && 0.0 <= pick < 1.0
    ensures |r| == |cards|
    ensures roll >= 0.1 || |cards| <= 4 ==> r == cards
    ensures roll < 0.1 && |cards| > 4 ==>
      var i := PickIndex(pick, |cards|); r[i].isPowerUp && r == cards[i := cards[i].(isPowerUp := true)]
  {
    if roll < 0.1 && |cards| > 4 then
      var i := PickIndex(pick, |cards|);
      if !cards[i].isPowerUp then cards[i := cards[i].(isPowerUp := true)] else cards
    else
      cards
  }

  // ---------------------------------------------------------------- card sweeps

  /** The reveal of `activatePowerUp`: an unmatched face-down card turns face up. */
  function RevealCard(c: Card): Card {
    if !c.isMatched && !c.isFlipped then c.(isFlipped := true) else c
  }

  /** The sweep of `activatePowerUp` over the whole board. */
  function Revealed(cards: seq<Card>): (r: seq<Card>)
    ensures |r| == |cards|
    ensures forall k :: 0 <= k < |r| ==> r[k].isFlipped == (cards[k].isFlipped || !cards[k].isMatched)
    ensures forall k :: 0 <= k < |r| ==> r[k] == cards[k].(isFlipped := r[k].isFlipped)
  {
    seq(|cards|, k requires 0 <= k < |cards| => RevealCard(cards[k]))
  }

  /** The filter of the power-up's delayed callback: a face-up card turns face down unless it is matched or pending. */
  function HideCard(c: Card, pending: bool): Card {
    if !c.isMatched && c.isFlipped && !pending then c.(isFlipped := false) else c
  }

  /** The power-up's delayed callback over the whole board, `pending` being `flippedCards` at that time. */
  function Hidden(cards: seq<Card>, pending: seq<nat>): (r: seq<Card>)
    ensures |r| == |cards|
    ensures forall k :: 0 <= k < |r| ==> r[k].isFlipped == (cards[k].isFlipped && (cards[k].isMatched || k in pending))
    ensures forall k :: 0 <= k < |r| ==> r[k] == cards[k].(isFlipped := r[k].isFlipped)
  {
    seq(|cards|, k requires 0 <= k < |cards| => HideCard(cards[k], k in pending))
  }

  // ---------------------------------------------------------------- players

  /** The name `initializePlayers` gives player `i` when it has none to keep: `Player ${i + 1}`. */
  function DefaultName(i: nat): string {
    "Player " + Text.NatToString(i + 1)
  }

  /**
   * The name `initializePlayers`, as evidently intended, gives player `i`: the
   * previous player's name when the first previous player had one and player
   * `i` had one too, `Player i+1` otherwise.
   */
  function KeptName(previous: seq<Player>, i: nat): (name: string)
    ensures name != ""
    ensures i < |previous| && previous[0].name != "" && previous[i].name != "" ==> name == previous[i].name
    ensures i >= |previous| || previous[0].name == "" || previous[i].name == "" ==> name == DefaultName(i)
  {
    var hadNames := |previous| > 0 && previous[0].name != "";
    if hadNames && i < |previous| && previous[i].name != "" then previous[i].name else DefaultName(i)
  }

  /** `initializePlayers`, as evidently intended: fresh counters for `count` players, named by `KeptName`. */
  function InitialPlayers(previous: seq<Player>, count: nat): (r: seq<Player>)
    ensures |r| == count
    ensures forall i :: 0 <= i < count ==> r[i] == Player(0, 0, 0, KeptName(previous, i))
  {
    seq(count, i requires 0 <= i < count => Player(0, 0, 0, KeptName(previous, i)))
  }

  /** `name || 'Anonymous'`. */
  function DisplayName(p: Player): (n: string)
    ensures n != ""
    ensures p.name != "" ==> n == p.name
  {
    if p.name == "" then "Anonymous" else p.name
  }

  // ---------------------------------------------------------------- scoring

  /** `perfectGameBonus`: no more moves than `gridSize * gridSize / 2` (exact division in JavaScript). */
  predicate PerfectGame(moves: nat, gridSize: nat) {
    2 * moves <= gridSize * gridSize
  }

  /** `speedBonus`: finished in under a minute. */
  predicate SpeedBonus(elapsedTime: nat) {
    elapsedTime < 60
  }

  /** The points `calculateBonuses` adds: 5 for a perfect game, 3 for speed, both when both hold. */
  function BonusPoints(perfect: bool, speed: bool): (b: nat)
    ensures b == 8 <==> perfect && speed
    ensures b == 0 <==> !perfect && !speed
    ensures perfect && !speed ==> b == 5
    ensures speed && !perfect ==> b == 3
  {
    (if perfect then 5 else 0) + (if speed then 3 else 0)
  }

  /**
   * The leaderboard crediting of the delayed win: a single player is always
   * credited; of two players the one with the higher score, and nobody on a tie.
   */
  function Credited(players: seq<Player>, playerCount: nat): (w: Option<Player>)
    requires 1 <= playerCount == |players|
    ensures playerCount == 1 ==> w == Some(players[0])
    ensures playerCount > 1 ==> (w.Some? <==> players[0].score != players[1].score)
    ensures playerCount > 1 && w.Some? ==>
      (w.value == players[0] && players[0].score > players[1].score)
      || (w.value == players[1] && players[1].score > players[0].score)
  {
    if playerCount == 1 then Some(players[0])
    else
      var winner := if players[0].score > players[1].score then players[0] else players[1];
      if players[0].score != players[1].score then Some(winner) else None
  }

  // ---------------------------------------------------------------- state

  /**
   * The `$timeout` callbacks scheduled and not yet run: the mismatch reverts,
   * each with the two cards it captured, in the order they were scheduled;
   * the number of power-up peeks still to end; the delayed win. (The match
   * check is due exactly while two cards are pending.)
   */
  datatype Due = Due(reverts: seq<(nat, nat)>, peekEnds: nat, win: bool)

  /** The controller's fields that the game logic uses, and the callbacks due. */
  datatype State = State(
    gridSize: nat,
    playerCount: nat,
    cards: seq<Card>,
    players: seq<Player>,
    currentPlayer: nat,
    flippedCards: seq<nat>,
    moves: nat,
    gameWon: bool,
    elapsedTime: nat,
    comboCount: nat,
    streakCount: nat,
    perfectGameBonus: bool,
    speedBonus: bool,
    leaderboard: seq<Leaderboard.Entry>,
    due: Due)

  /** No callback is outstanding: no check (fewer than two pending), no revert, no peek end, no win. */
  predicate NoCallbacks(st: State) {
    |st.flippedCards| < 2 && st.due == Due([], 0, false)
  }

  /** Well-formedness every operation keeps: players and indices in range, at most two cards pending. */
  ghost predicate Valid(st: State) {
    && 1 <= st.playerCount == |st.players|
    && st.currentPlayer < st.playerCount
    && |st.flippedCards| <= 2
    && (forall k :: 0 <= k < |st.flippedCards| ==> st.flippedCards[k] < |st.cards|)
    && (forall k :: 0 <= k < |st.due.reverts| ==> st.due.reverts[k].0 < |st.cards| && st.due.reverts[k].1 < |st.cards|)
  }

  /** The pending cards are distinct, face up and unmatched, and matched cards stay face up. */
  ghost predicate PendingFaceUp(st: State)
    requires Valid(st)
  {
    && (forall k :: 0 <= k < |st.flippedCards| ==>
          st.cards[st.flippedCards[k]].isFlipped && !st.cards[st.flippedCards[k]].isMatched)
    && (|st.flippedCards| == 2 ==> st.flippedCards[0] != st.flippedCards[1])
    && (forall i :: 0 <= i < |st.cards| && st.cards[i].isMatched ==> st.cards[i].isFlipped)
  }

  function AwardedBonus(st: State): nat {
    BonusPoints(st.perfectGameBonus, st.speedBonus)
  }

  /**
   * Points come only from matches and the end-of-game bonus: twice the total
   * score is the number of matched cards plus twice the bonus; the bonus and
   * the delayed win exist only once every card is matched.
   */
  ghost predicate ScoresAccounted(st: State) {
    && 2 * TotalScore(st.players) == MatchedCount(st.cards) + 2 * AwardedBonus(st)
    && (!st.gameWon ==> !st.perfectGameBonus && !st.speedBonus)
    && (st.due.win ==> AllMatched(st.cards) && !st.gameWon)
    && (st.gameWon ==> AllMatched(st.cards))
  }

  /** The game invariant. */
  ghost predicate Inv(st: State) {
    Valid(st) && PendingFaceUp(st) && ScoresAccounted(st)
  }

  /** What `localStorage` holds under the leaderboard key. */
  datatype Stored = Absent | Unparsable | Parsed(entries: seq<Leaderboard.Entry>)

  /** `loadLeaderboard`: a parsed blob replaces the list, an unparsable one empties it, an absent one leaves it. */
  function LoadLeaderboard(current: seq<Leaderboard.Entry>, stored: Stored): (lb: seq<Leaderboard.Entry>)
    ensures stored.Absent? ==> lb == current
    ensures stored.Unparsable? ==> lb == []
    ensures stored.Parsed? ==> lb == stored.entries
  {
    match stored
    case Absent => current
    case Unparsable => []
    case Parsed(entries) => entries
  }

  /**
   * What the constructor leaves behind once `resetGame` reaches its `await`:
   * default settings, one fresh player named `Player 1`, an empty board.
   */
  function Initial(stored: Stored): (st: State)
    ensures Inv(st) && NoCallbacks(st) && st.cards == [] && st.gridSize == 4
    ensures st.players == [Player(0, 0, 0, DefaultName(0))]
    ensures stored.Parsed? ==> st.leaderboard == stored.entries
    ensures !stored.Parsed? ==> st.leaderboard == []
  {
    var st := State(4, 1, [], InitialPlayers(InitialPlayers([], 1), 1), 0, [], 0, false, 0, 0, 0,
                    false, false, LoadLeaderboard([], stored), Due([], 0, false));
    TotalScoreZero(st.players);
    st
  }

  // ---------------------------------------------------------------- flipping

  /** The guard of `flipCard`: the card is face up or matched, or two cards are already pending. */
  predicate FlipBlocked(st: State, index: nat)
    requires index < |st.cards|
  {
    st.cards[index].isFlipped || st.cards[index].isMatched || |st.flippedCards| >= 2
  }

  /** `activatePowerUp`, without its timer: one more power-up for the current player, every unmatched card revealed. */
  function ActivatePowerUp(st: State): (r: State)
    requires Valid(st)
    ensures Valid(r)
  {
    var p := st.players[st.currentPlayer];
    st.(players := st.players[st.currentPlayer := p.(powerUps := p.powerUps + 1)],
        cards := Revealed(st.cards),
        due := st.due.(peekEnds := st.due.peekEnds + 1))
  }

  /** `flipCard(index)`. */
  function Flip(st: State, index: nat): (r: State)
    requires Valid(st) && index < |st.cards|
    ensures Valid(r)
    ensures FlipBlocked(st, index) ==> r == st
  {
    var c := st.cards[index];
    if c.isFlipped || c.isMatched || |st.flippedCards| >= 2 then
      st
    else if c.isPowerUp && !c.isMatched then
      var a := ActivatePowerUp(st);
      a.(cards := a.cards[index := a.cards[index].(isPowerUp := false)])
    else
      var pending := st.flippedCards + [index];
      st.(cards := st.cards[index := c.(isFlipped := true)],
          flippedCards := pending,
          moves := if |pending| == 2 then st.moves + 1 else st.moves)
  }

  /**
   * Flipping a power-up card is not a move: nothing becomes pending, every
   * unmatched card is revealed, the card stops being a power-up and the current
   * player gains one power-up.
   */
  lemma FlipPowerUp(st: State, index: nat)
    requires Valid(st) && index < |st.cards|
    requires !FlipBlocked(st, index) && st.cards[index].isPowerUp
    ensures var r := Flip(st, index);
      && r.flippedCards == st.flippedCards && r.moves == st.moves
      && r.currentPlayer == st.currentPlayer && |r.players| == |st.players|
      && r.players[st.currentPlayer].powerUps == st.players[st.currentPlayer].powerUps + 1
      && r.players[st.currentPlayer].score == st.players[st.currentPlayer].score
      && (forall k :: 0 <= k < |r.players| && k != st.currentPlayer ==> r.players[k] == st.players[k])
      && (var p := st.players[st.currentPlayer]; r.players == st.players[st.currentPlayer := p.(powerUps := p.powerUps + 1)])
      && |r.cards| == |st.cards| && !r.cards[index].isPowerUp
      && (forall k :: 0 <= k < |r.cards| ==> r.cards[k].isFlipped == (st.cards[k].isFlipped || !st.cards[k].isMatched))
      && (forall k :: 0 <= k < |r.cards| ==> r.cards[k].isMatched == st.cards[k].isMatched)
      && (forall k :: 0 <= k < |r.cards| ==>
            r.cards[k] == st.cards[k].(isFlipped := r.cards[k].isFlipped,
                                       isPowerUp := if k == index then false else st.cards[k].isPowerUp))
      && r.due.peekEnds == st.due.peekEnds + 1
      && r == st.(cards := r.cards, players := r.players, due := st.due.(peekEnds := st.due.peekEnds + 1))
  {
  }

  /**
   * Flipping an ordinary card turns it face up and appends it to the pending
   * list; the move counter goes up exactly when it is the second pending card,
   * which is also when the match check becomes due.
   */
  lemma FlipOrdinary(st: State, index: nat)
    requires Valid(st) && index < |st.cards|
    requires !FlipBlocked(st, index) && !st.cards[index].isPowerUp
    ensures var r := Flip(st, index);
      && r.cards == st.cards[index := st.cards[index].(isFlipped := true)]
      && r.flippedCards == st.flippedCards + [index]
      && (r.moves == st.moves + 1 <==> |r.flippedCards| == 2)
      && (r.moves == st.moves <==> |r.flippedCards| == 1)
      && r.players == st.players && r.currentPlayer == st.currentPlayer && r.due == st.due
      && r == st.(cards := r.cards, flippedCards := r.flippedCards, moves := r.moves)
  {
  }

  /** The two pending cards show the same face. */
  predicate PendingMatch(st: State)
    requires Valid(st) && |st.flippedCards| == 2
  {
    st.cards[st.flippedCards[0]].pokemon.id == st.cards[st.flippedCards[1]].pokemon.id
  }

  /** `checkMatch`, the callback run 800 ms after the second flip. */
  function CheckMatch(st: State): (r: State)
    requires Valid(st) && |st.flippedCards| == 2
    ensures Valid(r) && r.flippedCards == []
    ensures r.currentPlayer == st.currentPlayer && r.moves == st.moves && |r.players| == |st.players|
    ensures forall k :: 0 <= k < |r.players| && k != st.currentPlayer ==> r.players[k] == st.players[k]
    ensures var i1, i2, p := st.flippedCards[0], st.flippedCards[1], st.players[st.currentPlayer];
      PendingMatch(st) ==>
        && r.cards == st.cards[i1 := st.cards[i1].(isMatched := true)][i2 := st.cards[i2].(isMatched := true)]
        && r.players[st.currentPlayer] == p.(score := p.score + 1, streak := p.streak + 1)
        && r.comboCount == st.comboCount + 1 && r.streakCount == st.streakCount + 1
        && r.due.reverts == st.due.reverts && r.due.peekEnds == st.due.peekEnds
        && r.due.win == (st.due.win || AllMatched(r.cards))
    ensures var i1, i2, p := st.flippedCards[0], st.flippedCards[1], st.players[st.currentPlayer];
      !PendingMatch(st) ==>
        && r.cards == st.cards
        && r.players[st.currentPlayer] == p.(streak := 0)
        && r.comboCount == 0 && r.streakCount == 0
        && r.due == st.due.(reverts := st.due.reverts + [(i1, i2)])
    ensures r == st.(cards := r.cards, players := r.players, comboCount := r.comboCount,
                     streakCount := r.streakCount, due := r.due, flippedCards := [])
  {
    if PendingMatch(st) then MatchPair(st) else MismatchPair(st)
  }

  /** The match branch of `checkMatch`, statement by statement. */
  function MatchPair(st: State): (r: State)
    requires Valid(st) && |st.flippedCards| == 2
  {
    var i1, i2 := st.flippedCards[0], st.flippedCards[1];
    var p := st.players[st.currentPlayer];
    var c1 := st.cards[i1 := st.cards[i1].(isMatched := true)];
    var cards := c1[i2 := c1[i2].(isMatched := true)];
    st.(cards := cards,
        players := st.players[st.currentPlayer := p.(score := p.score + 1, streak := p.streak + 1)],
        comboCount := st.comboCount + 1,
        streakCount := st.streakCount + 1,
        due := st.due.(win := st.due.win || AllMatched(cards)),
        flippedCards := [])
  }

  /** The mismatch branch of `checkMatch`, statement by statement. */
  function MismatchPair(st: State): (r: State)
    requires Valid(st) && |st.flippedCards| == 2
  {
    var p := st.players[st.currentPlayer];
    st.(players := st.players[st.currentPlayer := p.(streak := 0)],
        comboCount := 0,
        streakCount := 0,
        due := st.due.(reverts := st.due.reverts + [(st.flippedCards[0], st.flippedCards[1])]),
        flippedCards := [])
  }

  /** The turn hand-over of the mismatch callback: only a two-player game switches. */
  function NextPlayer(st: State): (n: nat)
    requires Valid(st)
    ensures n < st.playerCount
    ensures st.playerCount == 2 ==> n != st.currentPlayer
    ensures st.playerCount != 2 ==> n == st.currentPlayer
  {
    if st.playerCount == 2 then (st.currentPlayer + 1) % 2 else st.currentPlayer
  }

  /**
   * The mismatch callback, 1200 ms after `checkMatch`, with the hide filter of
   * the power-up callback: each of the two captured cards turns face down
   * unless it has been matched or is pending again by then. (The source turns
   * both face down unconditionally; see `Findings.RevertMismatchAsWritten`.)
   * Callbacks with the same delay run in the order they were scheduled.
   */
  function RevertMismatch(st: State): (r: State)
    requires Valid(st) && st.due.reverts != []
    ensures Valid(r)
    ensures r.due == st.due.(reverts := st.due.reverts[1..])
    ensures r.currentPlayer == NextPlayer(st)
    ensures |r.cards| == |st.cards|
    ensures var (i1, i2) := st.due.reverts[0];
      forall k :: 0 <= k < |r.cards| ==>
        r.cards[k] == if k == i1 || k == i2 then HideCard(st.cards[k], k in st.flippedCards) else st.cards[k]
    ensures r.flippedCards == st.flippedCards && r.players == st.players && r.moves == st.moves
    ensures r == st.(cards := r.cards, currentPlayer := r.currentPlayer, due := r.due)
  {
    var (i1, i2) := st.due.reverts[0];
    var c1 := st.cards[i1 := HideCard(st.cards[i1], i1 in st.flippedCards)];
    var cards := c1[i2 := HideCard(c1[i2], i2 in st.flippedCards)];
    assert forall k :: 0 <= k < |cards| ==>
      cards[k] == if k == i1 || k == i2 then HideCard(st.cards[k], k in st.flippedCards) else st.cards[k];
    st.(cards := cards, currentPlayer := NextPlayer(st), due := st.due.(reverts := st.due.reverts[1..]))
  }

  /** The power-up callback, 1000 ms after the peek: hide every face-up card that is neither matched nor pending. */
  function EndPeek(st: State): (r: State)
    requires Valid(st) && st.due.peekEnds > 0
    ensures Valid(r)
    ensures r.due == st.due.(peekEnds := st.due.peekEnds - 1)
    ensures |r.cards| == |st.cards|
    ensures forall k :: 0 <= k < |r.cards| ==>
      r.cards[k].isFlipped == (st.cards[k].isFlipped && (st.cards[k].isMatched || k in st.flippedCards))
    ensures forall k :: 0 <= k < |r.cards| ==> r.cards[k].isMatched == st.cards[k].isMatched
    ensures forall k :: 0 <= k < |r.cards| ==> r.cards[k] == st.cards[k].(isFlipped := r.cards[k].isFlipped)
    ensures r.flippedCards == st.flippedCards && r.players == st.players && r.currentPlayer == st.currentPlayer
    ensures r == st.(cards := r.cards, due := r.due)
  {
    st.(cards := Hidden(st.cards, st.flippedCards), due := st.due.(peekEnds := st.due.peekEnds - 1))
  }

  // ---------------------------------------------------------------- winning

  /** `calculateBonuses`: set both flags and credit their points to the current player. */
  function CalculateBonuses(st: State): (r: State)
    requires Valid(st)
    ensures Valid(r)
    ensures r.perfectGameBonus == PerfectGame(st.moves, st.gridSize)
    ensures r.speedBonus == SpeedBonus(st.elapsedTime)
    ensures var p := st.players[st.currentPlayer];
      r.players == st.players[st.currentPlayer := p.(score := p.score + BonusPoints(r.perfectGameBonus, r.speedBonus))]
    ensures r == st.(perfectGameBonus := r.perfectGameBonus, speedBonus := r.speedBonus, players := r.players)
  {
    var perfect := PerfectGame(st.moves, st.gridSize);
    var speed := SpeedBonus(st.elapsedTime);
    var p := st.players[st.currentPlayer];
    var p1 := if perfect then p.(score := p.score + 5) else p;
    var p2 := if speed then p1.(score := p1.score + 3) else p1;
    st.(perfectGameBonus := perfect, speedBonus := speed, players := st.players[st.currentPlayer := p2])
  }

  /** The four-by-four scenario: 8 moves and 45 seconds earn both bonuses, 8 points. */
  lemma BonusScenario(st: State)
    requires Valid(st) && st.gridSize == 4 && st.moves == 8 && st.elapsedTime == 45
    ensures var r := CalculateBonuses(st);
      r.perfectGameBonus && r.speedBonus
      && r.players[st.currentPlayer].score == st.players[st.currentPlayer].score + 8
  {
  }

  /** The entry `addToLeaderboard(name, score)` records for the current game. */
  function EntryFor(st: State, name: string, score: int, date: string): (e: Leaderboard.Entry)
    ensures e.gridSize == st.gridSize && e.difficulty == Leaderboard.DifficultyName(st.gridSize)
    ensures e.name == name && e.score == score && e.time == st.elapsedTime && e.moves == st.moves
  {
    Leaderboard.Entry(name, st.elapsedTime, st.moves, score, st.gridSize, date, Leaderboard.DifficultyName(st.gridSize))
  }

  /** `addToLeaderboard`. */
  function AddToLeaderboard(st: State, name: string, score: int, date: string): (r: State)
    ensures r == st.(leaderboard := Leaderboard.Record(st.leaderboard, EntryFor(st, name, score, date)))
  {
    st.(leaderboard := Leaderboard.Record(st.leaderboard, EntryFor(st, name, score, date)))
  }

  /** The delayed win, 800 ms after the last match: the game is won, bonuses are awarded, the winner is credited. */
  function CompleteWin(st: State, date: string): (r: State)
    requires Valid(st) && st.due.win
    ensures Valid(r) && r.gameWon && !r.due.win
    ensures var b := CalculateBonuses(st.(gameWon := true, due := st.due.(win := false)));
      r.leaderboard == match Credited(b.players, b.playerCount)
        case None => st.leaderboard
        case Some(w) => Leaderboard.Record(st.leaderboard, EntryFor(b, DisplayName(w), w.score, date))
    ensures var b := CalculateBonuses(st.(gameWon := true, due := st.due.(win := false)));
      r == b.(leaderboard := r.leaderboard)
  {
    var b := CalculateBonuses(st.(gameWon := true, due := st.due.(win := false)));
    match Credited(b.players, b.playerCount)
    case None => b
    case Some(w) => AddToLeaderboard(b, DisplayName(w), w.score, date)
  }

  /**
   * The `setInterval` tick of `startTimer`, given the milliseconds since the
   * timer started: the elapsed time becomes the whole seconds in it.
   */
  function ClockTick(st: State, millis: nat): (r: State)
    ensures r.elapsedTime * 1000 <= millis < (r.elapsedTime + 1) * 1000
    ensures r == st.(elapsedTime := r.elapsedTime)
  {
    st.(elapsedTime := millis / 1000)
  }

  /** `clearLeaderboard`. */
  function ClearLeaderboard(st: State): (r: State)
    ensures r.leaderboard == [] && r == st.(leaderboard := [])
  {
    st.(leaderboard := [])
  }

  // ---------------------------------------------------------------- new games

  /**
   * `resetGame` up to its `await`, for the settings the controls hold: clear the
   * game, fresh players, an empty board. Run while no callback of the previous
   * game is outstanding.
   */
  function ResetGame(st: State, gridSize: nat, playerCount: nat): (r: State)
    requires Valid(st) && NoCallbacks(st) && playerCount >= 1
    ensures Inv(r) && NoCallbacks(r) && r.cards == [] && r.flippedCards == []
    ensures r.gridSize == gridSize && r.playerCount == playerCount && r.currentPlayer == 0
    ensures r.players == InitialPlayers(st.players, playerCount)
    ensures r.moves == 0 && r.elapsedTime == 0 && r.comboCount == 0 && r.streakCount == 0
    ensures !r.gameWon && !r.perfectGameBonus && !r.speedBonus
    ensures r.leaderboard == st.leaderboard
  {
    var r := st.(gridSize := gridSize, playerCount := playerCount, gameWon := false, moves := 0,
                 elapsedTime := 0, flippedCards := [], cards := [], comboCount := 0, streakCount := 0,
                 perfectGameBonus := false, speedBonus := false,
                 players := InitialPlayers(st.players, playerCount), currentPlayer := 0);
    TotalScoreZero(r.players);
    r
  }

  /**
   * The rest of `resetGame` once the faces have arrived: deal two cards per
   * face, shuffle with the draws `js`, maybe tag a power-up.
   */
  function DealBoard(st: State, faces: seq<Pokemon>, js: seq<nat>, roll: real, pick: real): (r: State)
    requires Valid(st) && NoCallbacks(st) && st.cards == [] && st.flippedCards == [] && !st.gameWon
    requires |faces| == PairCount(st.gridSize) && |js| == 2 * |faces| && Shuffle.ValidChoices(js)
    requires 0.0 <= roll < 1.0 && 0.0 <= pick < 1.0
    ensures Valid(r) && NoCallbacks(r)
    ensures r.cards == AddPowerUp(Shuffle.FisherYates(Deal(faces), js), roll, pick)
    ensures r == st.(cards := r.cards)
  {
    DealPairs(faces, 0);
    st.(cards := AddPowerUp(Shuffle.FisherYates(Deal(faces), js), roll, pick))
  }

  // ---------------------------------------------------------------- what the operations keep

  lemma {:induction false} MatchedCountNone(cards: seq<Card>)
    requires forall k :: 0 <= k < |cards| ==> !cards[k].isMatched
    ensures MatchedCount(cards) == 0
  {
    if cards != [] {
      MatchedCountNone(cards[1..]);
    }
  }

  /** A freshly dealt, shuffled board, with or without its power-up, has every face on exactly two cards and nothing matched or face up. */
  lemma BoardPairs(faces: seq<Pokemon>, js: seq<nat>, roll: real, pick: real, pokemonId: int)
    requires |js| == 2 * |faces| && Shuffle.ValidChoices(js)
    requires 0.0 <= roll < 1.0 && 0.0 <= pick < 1.0
    ensures var board := AddPowerUp(Shuffle.FisherYates(Deal(faces), js), roll, pick);
      && |board| == 2 * |faces|
      && FaceCount(board, pokemonId) == 2 * IdCount(faces, pokemonId)
      && (forall k :: 0 <= k < |board| ==> !board[k].isFlipped && !board[k].isMatched)
  {
    var dealt := Deal(faces);
    DealPairs(faces, pokemonId);
    var shuffled := Shuffle.FisherYates(dealt, js);
    Shuffle.FisherYatesPermutes(dealt, js);
    FaceCountShuffle(dealt, js, pokemonId);
    forall k | 0 <= k < |shuffled| ensures !shuffled[k].isFlipped && !shuffled[k].isMatched {
      assert shuffled[k] in multiset(dealt);
      var j :| 0 <= j < |dealt| && dealt[j] == shuffled[k];
    }
    var board := AddPowerUp(shuffled, roll, pick);
    if board != shuffled {
      var i := PickIndex(pick, |shuffled|);
      FaceCountUpdate(shuffled, i, shuffled[i].(isPowerUp := true), pokemonId);
    }
  }

  lemma FlipKeepsInv(st: State, index: nat)
    requires Inv(st) && index < |st.cards|
    ensures Inv(Flip(st, index))
  {
    var r := Flip(st, index);
    if !FlipBlocked(st, index) {
      var p := st.players[st.currentPlayer];
      if st.cards[index].isPowerUp {
        FlipPowerUp(st, index);
        MatchedCountSame(st.cards, r.cards);
        TotalScoreUpdate(st.players, st.currentPlayer, p.(powerUps := p.powerUps + 1));
        assert r.players == st.players[st.currentPlayer := p.(powerUps := p.powerUps + 1)];
      } else {
        FlipOrdinary(st, index);
        MatchedCountUpdate(st.cards, index, st.cards[index].(isFlipped := true));
        if |st.flippedCards| == 1 {
          assert st.flippedCards[0] != index;
        }
      }
    }
  }

  lemma CheckMatchKeepsInv(st: State)
    requires Inv(st) && |st.flippedCards| == 2
    ensures Inv(CheckMatch(st))
  {
    var r := CheckMatch(st);
    var i1, i2 := st.flippedCards[0], st.flippedCards[1];
    assert !st.cards[i1].isMatched;
    assert !AllMatched(st.cards);
    var p := st.players[st.currentPlayer];
    if PendingMatch(st) {
      var c1 := st.cards[i1 := st.cards[i1].(isMatched := true)];
      MatchedCountUpdate(st.cards, i1, st.cards[i1].(isMatched := true));
      MatchedCountUpdate(c1, i2, st.cards[i2].(isMatched := true));
      TotalScoreUpdate(st.players, st.currentPlayer, p.(score := p.score + 1, streak := p.streak + 1));
    } else {
      TotalScoreUpdate(st.players, st.currentPlayer, p.(streak := 0));
    }
  }

  lemma RevertMismatchKeepsInv(st: State)
    requires Inv(st) && st.due.reverts != []
    ensures Inv(RevertMismatch(st))
  {
    var r := RevertMismatch(st);
    MatchedCountSame(st.cards, r.cards);
    assert AllMatched(r.cards) == AllMatched(st.cards);
  }

  lemma EndPeekKeepsInv(st: State)
    requires Inv(st) && st.due.peekEnds > 0
    ensures Inv(EndPeek(st))
  {
    var r := EndPeek(st);
    MatchedCountSame(st.cards, r.cards);
    assert AllMatched(r.cards) == AllMatched(st.cards);
  }

  lemma CompleteWinKeepsInv(st: State, date: string)
    requires Inv(st) && st.due.win
    ensures Inv(CompleteWin(st, date))
  {
    var b := CalculateBonuses(st.(gameWon := true, due := st.due.(win := false)));
    var p := st.players[st.currentPlayer];
    TotalScoreUpdate(st.players, st.currentPlayer,
                     p.(score := p.score + BonusPoints(b.perfectGameBonus, b.speedBonus)));
  }

  /** No player loses points and no player appears or disappears between `st` and `r`. */
  predicate ScoresGrow(st: State, r: State) {
    |r.players| == |st.players| && forall k :: 0 <= k < |st.players| ==> st.players[k].score <= r.players[k].score
  }

  /** Scores never go down: every step of a game only adds points. */
  lemma ScoresNeverDecrease(st: State, index: nat, date: string)
    requires Valid(st)
    ensures index < |st.cards| ==> ScoresGrow(st, Flip(st, index))
    ensures |st.flippedCards| == 2 ==> ScoresGrow(st, CheckMatch(st))
    ensures st.due.reverts != [] ==> ScoresGrow(st, RevertMismatch(st))
    ensures st.due.peekEnds > 0 ==> ScoresGrow(st, EndPeek(st))
    ensures st.due.win ==> ScoresGrow(st, CompleteWin(st, date))
  {
    if index < |st.cards| && !FlipBlocked(st, index) {
      if st.cards[index].isPowerUp {
        FlipPowerUp(st, index);
      } else {
        FlipOrdinary(st, index);
      }
    }
  }

  lemma DealBoardKeepsInv(st: State, faces: seq<Pokemon>, js: seq<nat>, roll: real, pick: real)
    requires Inv(st) && NoCallbacks(st) && st.cards == [] && st.flippedCards == [] && !st.gameWon
    requires |faces| == PairCount(st.gridSize) && |js| == 2 * |faces| && Shuffle.ValidChoices(js)
    requires 0.0 <= roll < 1.0 && 0.0 <= pick < 1.0
    ensures Inv(DealBoard(st, faces, js, roll, pick))
  {
    var r := DealBoard(st, faces, js, roll, pick);
    BoardPairs(faces, js, roll, pick, 0);
    MatchedCountNone(r.cards);
    MatchedCountBound(r.cards);
  }
}
