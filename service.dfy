/**
 * The Angular `GameService` (src/app/services/game.ts): a simpler variant of
 * the memory game whose whole state is one `GameState` value, held by a
 * `BehaviorSubject` and updated in place.
 *
 * `flippedCards` holds references to card objects in the source; here it
 * holds their positions in `cards`, which no operation reorders except
 * `resetGame`, and that one also empties `flippedCards`.
 * The one-second `setTimeout` before `checkForMatch` is a separate step, and
 * the random draws of the shuffle are the parameter `js`.
 */
module Service {
  import Wrappers
  import Text
  import Shuffle

  /** The fields of a Pokemon record the service reads; an empty `artwork` stands for a missing official artwork. */
  datatype Pokemon = Pokemon(id: int, name: string, artwork: string, sprite: string)

  datatype Card = Card(id: string, pokemonId: int, name: string, imageUrl: string, isFlipped: bool, isMatched: bool)

  /** `currentPlayer` is 1-based; `playerScores` holds one score per player. */
  datatype GameState = GameState(cards: seq<Card>, flippedCards: seq<nat>, matchedPairs: nat, currentPlayer: nat,
                                 playerScores: seq<nat>, isGameWon: bool, moves: nat)

  /** The value the subject starts with: no cards, two zero scores, player 1. */
  function Initial(): GameState {
    GameState([], [], 0, 1, [0, 0], false, 0)
  }

  // ---------------------------------------------------------------- counting

  function MatchedCount(cards: seq<Card>): nat
  {
    if cards == [] then 0 else (if cards[0].isMatched then 1 else 0) + MatchedCount(cards[1..])
  }

  predicate AllMatched(cards: seq<Card>) {
    forall k :: 0 <= k < |cards| ==> cards[k].isMatched
  }

  function Sum(scores: seq<nat>): nat
  {
    if scores == [] then 0 else scores[0] + Sum(scores[1..])
  }

  /** The number of cards showing the face with the given id. */
  function FaceCount(cards: seq<Card>, pokemonId: int): nat
  {
    if cards == [] then 0 else (if cards[0].pokemonId == pokemonId then 1 else 0) + FaceCount(cards[1..], pokemonId)
  }

  /** The number of faces with the given id. */
  function IdCount(faces: seq<Pokemon>, pokemonId: int): nat
  {
    if faces == [] then 0 else (if faces[0].id == pokemonId then 1 else 0) + IdCount(faces[1..], pokemonId)
  }

  lemma {:induction false} MatchedCountUpdate(cards: seq<Card>, i: nat, c: Card)
    requires i < |cards|
    ensures MatchedCount(cards[i := c]) ==
      MatchedCount(cards) - (if cards[i].isMatched then 1 else 0) + (if c.isMatched then 1 else 0)
  {
    if i > 0 {
      MatchedCountUpdate(cards[1..], i - 1, c);
      assert cards[i := c][1..] == cards[1..][i - 1 := c];
    }
  }

  /** There are at most as many matched cards as cards, and exactly as many when all are matched. */
  lemma {:induction false} MatchedCountBound(cards: seq<Card>)
    ensures MatchedCount(cards) <= |cards|
    ensures MatchedCount(cards) == |cards| <==> AllMatched(cards)
  {
    if cards != [] {
      MatchedCountBound(cards[1..]);
      if !cards[0].isMatched {
        assert !AllMatched(cards);
      }
      if AllMatched(cards) {
        assert AllMatched(cards[1..]) by {
          forall k | 0 <= k < |cards| - 1 ensures cards[1..][k].isMatched {
            assert cards[1..][k] == cards[k + 1];
          }
        }
      }
      if AllMatched(cards[1..]) && cards[0].isMatched {
        forall k | 0 <= k < |cards| ensures cards[k].isMatched {
          if k > 0 { assert cards[k] == cards[1..][k - 1]; }
        }
      }
    }
  }

  lemma {:induction false} MatchedCountNone(cards: seq<Card>)
    requires forall k :: 0 <= k < |cards| ==> !cards[k].isMatched
    ensures MatchedCount(cards) == 0
  {
    if cards != [] {
      MatchedCountNone(cards[1..]);
    }
  }

  lemma {:induction false} SumUpdate(scores: seq<nat>, i: nat, v: nat)
    requires i < |scores|
    ensures Sum(scores[i := v]) == Sum(scores) - scores[i] + v
  {
    if i > 0 {
      SumUpdate(scores[1..], i - 1, v);
      assert scores[i := v][1..] == scores[1..][i - 1 := v];
    }
  }

  lemma {:induction false} SumZero(scores: seq<nat>)
    requires forall k :: 0 <= k < |scores| ==> scores[k] == 0
    ensures Sum(scores) == 0
  {
    if scores != [] {
      SumZero(scores[1..]);
    }
  }

  lemma {:induction false} FaceCountUpdate(cards: seq<Card>, i: nat, c: Card, pokemonId: int)
    requires i < |cards|
    ensures FaceCount(cards[i := c], pokemonId) ==
      FaceCount(cards, pokemonId) - (if cards[i].pokemonId == pokemonId then 1 else 0) + (if c.pokemonId == pokemonId then 1 else 0)
  {
    if i > 0 {
      FaceCountUpdate(cards[1..], i - 1, c, pokemonId);
      assert cards[i := c][1..] == cards[1..][i - 1 := c];
    }
  }

  lemma {:induction false} FaceCountFromFisherYates(cards: seq<Card>, js: seq<nat>, i: nat, pokemonId: int)
    requires i < |cards| == |js| && Shuffle.ValidChoices(js)
    ensures FaceCount(Shuffle.FisherYatesFrom(cards, js, i), pokemonId) == FaceCount(cards, pokemonId)
    decreases i
  {
    if i > 0 {
      var j := js[i];
      FaceCountUpdate(cards, i, cards[j], pokemonId);
      FaceCountUpdate(cards[i := cards[j]], j, cards[i], pokemonId);
      FaceCountFromFisherYates(Shuffle.Swap(cards, i, j), js, i - 1, pokemonId);
    }
  }

  /** Shuffling keeps every face on as many cards as before. */
  lemma FaceCountShuffle(cards: seq<Card>, js: seq<nat>, pokemonId: int)
    requires |cards| == |js| && Shuffle.ValidChoices(js)
    ensures FaceCount(Shuffle.FisherYates(cards, js), pokemonId) == FaceCount(cards, pokemonId)
  {
    if |cards| > 0 {
      FaceCountFromFisherYates(cards, js, |cards| - 1, pokemonId);
    }
  }

  // ---------------------------------------------------------------- initializeGame

  /** The loop `for (i = 0; i < gridSize * gridSize / 2; i++)` divides as reals: it runs `ceil(gridSize^2 / 2)` times. */
  function PairsNeeded(gridSize: nat): (n: nat)
    ensures 2 * n >= gridSize * gridSize
    ensures n > 0 ==> 2 * (n - 1) < gridSize * gridSize
  {
    (gridSize * gridSize + 1) / 2
  }

  /** An even grid gets exactly one card per cell. */
  lemma EvenGridCards(gridSize: nat)
    requires gridSize % 2 == 0
    ensures 2 * PairsNeeded(gridSize) == gridSize * gridSize
  {
    var m := gridSize / 2;
    assert gridSize * gridSize == 2 * (2 * m * m);
  }

  /** The template `${id}-1` or `${id}-2`. */
  function CardId(pokemonId: int, second: bool): string {
    Text.IntToString(pokemonId) + ['-', if second then '2' else '1']
  }

  /** Different faces or different copies never share an id. */
  lemma CardIdInjective(a: int, sa: bool, b: int, sb: bool)
    ensures CardId(a, sa) == CardId(b, sb) <==> a == b && sa == sb
  {
    if CardId(a, sa) == CardId(b, sb) {
      var x, y := CardId(a, sa), CardId(b, sb);
      assert |Text.IntToString(a)| == |Text.IntToString(b)|;
      assert Text.IntToString(a) == x[..|x| - 2];
      assert Text.IntToString(b) == y[..|y| - 2];
      Text.IntToStringInjective(a, b);
      assert x[|x| - 1] == y[|y| - 1];
    }
  }

  /** `artwork || front_default`. */
  function ImageUrl(p: Pokemon): string {
    if p.artwork != "" then p.artwork else p.sprite
  }

  function MakeCard(p: Pokemon, second: bool): Card {
    Card(CardId(p.id, second), p.id, p.name, ImageUrl(p), false, false)
  }

  /** The faces the loop uses, `pokemon[i % pokemon.length]` for each pair `i`. */
  function UsedFaces(pokemon: seq<Pokemon>, pairs: nat): seq<Pokemon>
    requires pairs == 0 || |pokemon| > 0
  {
    seq(pairs, i requires 0 <= i < pairs => pokemon[i % |pokemon|])
  }

  /** The cards of a deal, pair by pair: `card1, card2` of face `i` at positions `2i` and `2i + 1`. */
  function Deal(faces: seq<Pokemon>): seq<Card>
  {
    seq(2 * |faces|, k requires 0 <= k < 2 * |faces| => MakeCard(faces[k / 2], k % 2 == 1))
  }

  /** The cards the loop of `initializeGame` pushes. */
  function Dealt(pokemon: seq<Pokemon>, pairs: nat): seq<Card>
    requires pairs == 0 || |pokemon| > 0
  {
    Deal(UsedFaces(pokemon, pairs))
  }

  /** Dealing one more face appends its two cards. */
  lemma DealAppend(faces: seq<Pokemon>, f: Pokemon)
    ensures Deal(faces + [f]) == Deal(faces) + [MakeCard(f, false), MakeCard(f, true)]
  {
    var n := |faces|;
    DealAt(faces + [f], n);
    forall k | 0 <= k < 2 * n ensures Deal(faces + [f])[k] == Deal(faces)[k] {
      assert (faces + [f])[k / 2] == faces[k / 2];
    }
  }

  function Zeros(n: nat): (z: seq<nat>)
    ensures |z| == n && forall k :: 0 <= k < n ==> z[k] == 0
  {
    seq(n, _ => 0)
  }

  /** The state `initializeGame` publishes. */
  function NewGame(gridSize: nat, numberOfPlayers: nat, pokemon: seq<Pokemon>, js: seq<nat>): GameState
    requires PairsNeeded(gridSize) == 0 || |pokemon| > 0
    requires |js| == 2 * PairsNeeded(gridSize) && Shuffle.ValidChoices(js)
  {
    GameState(Shuffle.FisherYates(Dealt(pokemon, PairsNeeded(gridSize)), js), [], 0, 1, Zeros(numberOfPlayers), false, 0)
  }

  lemma {:induction false} DealSuffixPairs(faces: seq<Pokemon>, m: nat, pokemonId: int)
    requires m <= |faces|
    ensures FaceCount(Deal(faces)[2 * m..], pokemonId) == 2 * IdCount(faces[m..], pokemonId)
    decreases |faces| - m
  {
    if m < |faces| {
      DealSuffixPairs(faces, m + 1, pokemonId);
      var d := Deal(faces)[2 * m..];
      DealAt(faces, m);
      assert d[0] == MakeCard(faces[m], false) && d[1] == MakeCard(faces[m], true);
      assert d[1..][1..] == Deal(faces)[2 * (m + 1)..];
      assert faces[m..][1..] == faces[m + 1..];
      assert FaceCount(d, pokemonId) ==
        2 * (if faces[m].id == pokemonId then 1 else 0) + FaceCount(d[1..][1..], pokemonId);
    }
  }

  lemma DealAt(faces: seq<Pokemon>, i: nat)
    requires i < |faces|
    ensures |Deal(faces)| == 2 * |faces|
    ensures Deal(faces)[2 * i] == MakeCard(faces[i], false) && Deal(faces)[2 * i + 1] == MakeCard(faces[i], true)
  {
    assert (2 * i) / 2 == i && (2 * i + 1) / 2 == i;
  }

  /** Every pair of a deal is two cards of the same face with the ids `<id>-1` and `<id>-2`. */
  lemma DealPairs(faces: seq<Pokemon>)
    ensures |Deal(faces)| == 2 * |faces|
    ensures forall i :: 0 <= i < |faces| ==>
      Deal(faces)[2 * i] == MakeCard(faces[i], false) && Deal(faces)[2 * i + 1] == MakeCard(faces[i], true)
  {
    forall i | 0 <= i < |faces|
      ensures Deal(faces)[2 * i] == MakeCard(faces[i], false) && Deal(faces)[2 * i + 1] == MakeCard(faces[i], true)
    {
      DealAt(faces, i);
    }
  }

  /** Every face is on exactly twice as many cards of a deal as it is in the faces dealt. */
  lemma DealFaceCount(faces: seq<Pokemon>, pokemonId: int)
    ensures FaceCount(Deal(faces), pokemonId) == 2 * IdCount(faces, pokemonId)
  {
    DealSuffixPairs(faces, 0, pokemonId);
    assert Deal(faces)[0..] == Deal(faces);
    assert faces[0..] == faces;
  }

  /**
   * The board a deal and a shuffle make: twice as many cards as faces, every
   * face on two cards per time it was dealt, all face down and unmatched.
   */
  lemma ShuffledDeal(faces: seq<Pokemon>, js: seq<nat>, pokemonId: int)
    requires |js| == 2 * |faces| && Shuffle.ValidChoices(js)
    ensures var s := Shuffle.FisherYates(Deal(faces), js);
      && |s| == 2 * |faces| && multiset(s) == multiset(Deal(faces))
      && FaceCount(s, pokemonId) == 2 * IdCount(faces, pokemonId)
      && forall k :: 0 <= k < |s| ==> !s[k].isFlipped && !s[k].isMatched
  {
    var d := Deal(faces);
    assert forall k :: 0 <= k < |d| ==> !d[k].isFlipped && !d[k].isMatched;
    ShuffleFaceDown(d, js);
    DealFaceCount(faces, pokemonId);
    FaceCountShuffle(d, js, pokemonId);
  }

  /** With distinct face ids, no two cards of a deal share an id. */
  lemma DealIdsDistinct(faces: seq<Pokemon>)
    requires forall a, b :: 0 <= a < b < |faces| ==> faces[a].id != faces[b].id
    ensures forall a, b :: 0 <= a < b < |Deal(faces)| ==> Deal(faces)[a].id != Deal(faces)[b].id
  {
    var d := Deal(faces);
    forall a, b | 0 <= a < b < |d| ensures d[a].id != d[b].id {
      var fa, fb := a / 2, b / 2;
      assert a == 2 * fa + a % 2 && b == 2 * fb + b % 2;
      CardIdInjective(faces[fa].id, a % 2 == 1, faces[fb].id, b % 2 == 1);
      if fa != fb {
        assert fa < fb;
        assert faces[fa].id != faces[fb].id;
      }
    }
  }

  lemma ModBelow(i: nat, n: nat)
    requires i < n
    ensures i % n == i
  {
  }

  /** With at least as many faces as pairs, the loop uses each face once, in order. */
  lemma UsedFacesPrefix(pokemon: seq<Pokemon>, pairs: nat)
    requires 0 < pairs <= |pokemon|
    ensures UsedFaces(pokemon, pairs) == pokemon[..pairs]
  {
    forall i | 0 <= i < pairs ensures UsedFaces(pokemon, pairs)[i] == pokemon[i] {
      ModBelow(i, |pokemon|);
    }
  }

  /** Given at least one face per pair, all with distinct ids, `initializeGame` gives every card its own id. */
  lemma DealtIdsDistinct(pokemon: seq<Pokemon>, pairs: nat)
    requires pairs <= |pokemon|
    requires forall a, b :: 0 <= a < b < |pokemon| ==> pokemon[a].id != pokemon[b].id
    ensures forall a, b :: 0 <= a < b < 2 * pairs ==> Dealt(pokemon, pairs)[a].id != Dealt(pokemon, pairs)[b].id
  {
    if pairs > 0 {
      UsedFacesPrefix(pokemon, pairs);
      DealIdsDistinct(pokemon[..pairs]);
    }
  }

  /**
   * `initializeGame` deals `2 * PairsNeeded(gridSize)` cards (`gridSize^2`
   * for an even grid), every face twice per pair it is used for, all face
   * down and unmatched, and starts player 1 with one zero score per player
   * and no moves.
   */
  lemma NewGameSpec(gridSize: nat, numberOfPlayers: nat, pokemon: seq<Pokemon>, js: seq<nat>, pokemonId: int)
    requires PairsNeeded(gridSize) == 0 || |pokemon| > 0
    requires |js| == 2 * PairsNeeded(gridSize) && Shuffle.ValidChoices(js)
    ensures var r := NewGame(gridSize, numberOfPlayers, pokemon, js);
      && |r.cards| == 2 * PairsNeeded(gridSize)
      && (gridSize % 2 == 0 ==> |r.cards| == gridSize * gridSize)
      && multiset(r.cards) == multiset(Dealt(pokemon, PairsNeeded(gridSize)))
      && FaceCount(r.cards, pokemonId) == 2 * IdCount(UsedFaces(pokemon, PairsNeeded(gridSize)), pokemonId)
      && (forall k :: 0 <= k < |r.cards| ==> !r.cards[k].isFlipped && !r.cards[k].isMatched)
      && |r.playerScores| == numberOfPlayers && (forall k :: 0 <= k < numberOfPlayers ==> r.playerScores[k] == 0)
      && r.currentPlayer == 1 && r.moves == 0 && r.matchedPairs == 0 && r.flippedCards == [] && !r.isGameWon
  {
    var pairs := PairsNeeded(gridSize);
    ShuffledDeal(UsedFaces(pokemon, pairs), js, pokemonId);
    if gridSize % 2 == 0 {
      EvenGridCards(gridSize);
    }
  }

  /** Shuffling cards that are all face down and unmatched keeps them so, and keeps the same cards. */
  lemma ShuffleFaceDown(d: seq<Card>, js: seq<nat>)
    requires |js| == |d| && Shuffle.ValidChoices(js)
    requires forall k :: 0 <= k < |d| ==> !d[k].isFlipped && !d[k].isMatched
    ensures var s := Shuffle.FisherYates(d, js);
      && |s| == |d| && multiset(s) == multiset(d)
      && forall k :: 0 <= k < |s| ==> !s[k].isFlipped && !s[k].isMatched
  {
    var s := Shuffle.FisherYates(d, js);
    Shuffle.FisherYatesPermutes(d, js);
    forall k | 0 <= k < |s| ensures !s[k].isFlipped && !s[k].isMatched {
      assert s[k] in multiset(d);
      var j :| 0 <= j < |d| && d[j] == s[k];
    }
  }

  // ---------------------------------------------------------------- the invariant

  /** What every operation needs: pending positions on the board, and the current player has a score. */
  predicate Valid(st: GameState) {
    && |st.flippedCards| <= 2
    && (forall k :: 0 <= k < |st.flippedCards| ==> st.flippedCards[k] < |st.cards|)
    && 1 <= st.currentPlayer <= |st.playerScores|
  }

  /**
   * The rules the service keeps: the pending cards are distinct, face up and
   * unmatched; there is an even number of cards; `matchedPairs` counts the
   * matched pairs and the points scored; a won game has every card matched and
   * nothing pending.
   */
  ghost predicate Inv(st: GameState) {
    && Valid(st)
    && (|st.flippedCards| == 2 ==> st.flippedCards[0] != st.flippedCards[1])
    && (forall k :: 0 <= k < |st.flippedCards| ==>
          st.cards[st.flippedCards[k]].isFlipped && !st.cards[st.flippedCards[k]].isMatched)
    && |st.cards| % 2 == 0
    && 2 * st.matchedPairs == MatchedCount(st.cards)
    && Sum(st.playerScores) == st.matchedPairs
    && (st.isGameWon ==> 2 * st.matchedPairs == |st.cards| && st.flippedCards == [])
  }

  lemma InitialInv()
    ensures Inv(Initial())
  {
    assert Sum([0, 0]) == 0 by { SumZero([0, 0]); }
  }

  lemma NewGameInv(gridSize: nat, numberOfPlayers: nat, pokemon: seq<Pokemon>, js: seq<nat>)
    requires PairsNeeded(gridSize) == 0 || |pokemon| > 0
    requires |js| == 2 * PairsNeeded(gridSize) && Shuffle.ValidChoices(js)
    requires numberOfPlayers >= 1
    ensures Inv(NewGame(gridSize, numberOfPlayers, pokemon, js))
  {
    var faces := UsedFaces(pokemon, PairsNeeded(gridSize));
    ShuffledDeal(faces, js, 0);
    var r := NewGame(gridSize, numberOfPlayers, pokemon, js);
    assert r.cards == Shuffle.FisherYates(Deal(faces), js);
    assert |r.cards| == 2 * |faces|;
    MatchedCountNone(r.cards);
    SumZero(r.playerScores);
    Even(|faces|);
  }

  lemma Even(n: nat)
    ensures (2 * n) % 2 == 0
  {
  }

  /** A won game has every card matched. */
  lemma WonMeansAllMatched(st: GameState)
    requires Inv(st) && st.isGameWon
    ensures AllMatched(st.cards)
  {
    MatchedCountBound(st.cards);
  }

  // ---------------------------------------------------------------- flipCard

  /** `cards.find(c => c.id === cardId)`: the first card with the id. */
  function FindById(cards: seq<Card>, cardId: string, from: nat): (r: Wrappers.Option<nat>)
    requires from <= |cards|
    ensures r.Some? ==> from <= r.value < |cards| && cards[r.value].id == cardId
    ensures r.Some? ==> forall k :: from <= k < r.value ==> cards[k].id != cardId
    ensures r.None? ==> forall k :: from <= k < |cards| ==> cards[k].id != cardId
    decreases |cards| - from
  {
    if from == |cards| then Wrappers.None
    else if cards[from].id == cardId then Wrappers.Some(from)
    else FindById(cards, cardId, from + 1)
  }

  /** The guards of `flipCard`: fewer than two pending, not won, and a face-down, unmatched card with the id. */
  predicate FlipAccepted(st: GameState, cardId: string) {
    && |st.flippedCards| < 2 && !st.isGameWon
    && var found := FindById(st.cards, cardId, 0);
    && found.Some? && !st.cards[found.value].isFlipped && !st.cards[found.value].isMatched
  }

  /**
   * `flipCard`: an accepted flip turns the first card with the id face up,
   * makes it pending and counts a move; anything else changes nothing.
   */
  function Flip(st: GameState, cardId: string): (r: GameState)
    ensures !FlipAccepted(st, cardId) <==> r == st
    ensures r.moves == st.moves + (if FlipAccepted(st, cardId) then 1 else 0)
    ensures FlipAccepted(st, cardId) ==>
      var k := FindById(st.cards, cardId, 0).value;
      && r.flippedCards == st.flippedCards + [k]
      && |r.cards| == |st.cards| && r.cards[k].isFlipped && r.cards[k].id == cardId
      && r.cards[k] == st.cards[k].(isFlipped := true)
      && (forall j :: 0 <= j < |st.cards| && j != k ==> r.cards[j] == st.cards[j])
      && r.(cards := st.cards, flippedCards := st.flippedCards, moves := st.moves) == st
  {
    if !FlipAccepted(st, cardId) then st
    else
      var k := FindById(st.cards, cardId, 0).value;
      st.(cards := st.cards[k := st.cards[k].(isFlipped := true)],
          flippedCards := st.flippedCards + [k],
          moves := st.moves + 1)
  }

  /** A card whose id an earlier card carries is never the one `flipCard` turns. */
  lemma FlipFindsFirst(st: GameState, cardId: string, j: nat)
    requires FlipAccepted(st, cardId)
    requires j < |st.cards| && st.cards[j].id == cardId
    requires exists k :: 0 <= k < j && st.cards[k].id == cardId
    ensures Flip(st, cardId).cards[j] == st.cards[j]
  {
  }

  lemma FlipKeepsInv(st: GameState, cardId: string)
    requires Inv(st)
    ensures Inv(Flip(st, cardId))
  {
    if FlipAccepted(st, cardId) {
      var k := FindById(st.cards, cardId, 0).value;
      MatchedCountUpdate(st.cards, k, st.cards[k].(isFlipped := true));
    }
  }

  // ---------------------------------------------------------------- checkForMatch

  /** The pending cards show the same face. */
  predicate PendingMatch(st: GameState)
    requires Valid(st) && |st.flippedCards| == 2
  {
    st.cards[st.flippedCards[0]].pokemonId == st.cards[st.flippedCards[1]].pokemonId
  }

  /** `currentPlayer === 1 ? 2 : 1` when there is more than one score. */
  function OtherPlayer(st: GameState): (p: nat)
    requires Valid(st)
    ensures 1 <= p <= |st.playerScores|
    ensures |st.playerScores| > 1 ==> p != st.currentPlayer && p <= 2
    ensures |st.playerScores| == 1 ==> p == st.currentPlayer
  {
    if |st.playerScores| > 1 then (if st.currentPlayer == 1 then 2 else 1) else st.currentPlayer
  }

  /** `checkForMatch`, the callback a second flip schedules. */
  function Resolve(st: GameState): (r: GameState)
    requires Valid(st) && |st.flippedCards| == 2
  {
    var i1, i2 := st.flippedCards[0], st.flippedCards[1];
    if PendingMatch(st) then
      var c1 := st.cards[i1 := st.cards[i1].(isMatched := true)];
      var pairs := st.matchedPairs + 1;
      var p := st.currentPlayer - 1;
      st.(cards := c1[i2 := c1[i2].(isMatched := true)],
          matchedPairs := pairs,
          playerScores := st.playerScores[p := st.playerScores[p] + 1],
          isGameWon := st.isGameWon || 2 * pairs == |st.cards|,
          flippedCards := [])
    else
      var c1 := st.cards[i1 := st.cards[i1].(isFlipped := false)];
      st.(cards := c1[i2 := c1[i2].(isFlipped := false)],
          currentPlayer := OtherPlayer(st),
          flippedCards := [])
  }

  /**
   * A match marks both pending cards matched and gives the current player a
   * point and the service a matched pair, keeping the turn; nothing else changes.
   */
  lemma ResolveMatch(st: GameState)
    requires Valid(st) && |st.flippedCards| == 2 && PendingMatch(st)
    ensures var r := Resolve(st);
      var i1, i2, p := st.flippedCards[0], st.flippedCards[1], st.currentPlayer - 1;
      && |r.cards| == |st.cards|
      && r.cards[i1].isMatched && r.cards[i2].isMatched
      && (forall k :: 0 <= k < |st.cards| && k != i1 && k != i2 ==> r.cards[k] == st.cards[k])
      && r.matchedPairs == st.matchedPairs + 1
      && |r.playerScores| == |st.playerScores| && r.playerScores[p] == st.playerScores[p] + 1
      && (forall k :: 0 <= k < |st.playerScores| && k != p ==> r.playerScores[k] == st.playerScores[k])
      && r.currentPlayer == st.currentPlayer && r.moves == st.moves && r.flippedCards == []
      && r.cards[i1] == st.cards[i1].(isMatched := true) && r.cards[i2] == st.cards[i2].(isMatched := true)
      && r.isGameWon == (st.isGameWon || 2 * r.matchedPairs == |st.cards|)
      && r == st.(cards := r.cards, matchedPairs := r.matchedPairs, playerScores := r.playerScores,
                  isGameWon := r.isGameWon, flippedCards := [])
  {
  }

  /**
   * A mismatch turns both pending cards face down, changes no score, and
   * passes the turn between players 1 and 2 when there is more than one score.
   */
  lemma ResolveMismatch(st: GameState)
    requires Valid(st) && |st.flippedCards| == 2 && !PendingMatch(st)
    ensures var r := Resolve(st);
      var i1, i2 := st.flippedCards[0], st.flippedCards[1];
      && |r.cards| == |st.cards|
      && !r.cards[i1].isFlipped && !r.cards[i2].isFlipped
      && (forall k :: 0 <= k < |st.cards| ==> r.cards[k].isMatched == st.cards[k].isMatched)
      && (forall k :: 0 <= k < |st.cards| && k != i1 && k != i2 ==> r.cards[k] == st.cards[k])
      && r.playerScores == st.playerScores && r.matchedPairs == st.matchedPairs && !r.isGameWon == !st.isGameWon
      && (|st.playerScores| > 1 <==> r.currentPlayer != st.currentPlayer)
      && r.currentPlayer == OtherPlayer(st)
      && r.cards[i1] == st.cards[i1].(isFlipped := false) && r.cards[i2] == st.cards[i2].(isFlipped := false)
      && r.flippedCards == [] && r.moves == st.moves
      && r == st.(cards := r.cards, currentPlayer := r.currentPlayer, flippedCards := [])
  {
  }

  lemma ResolveKeepsInv(st: GameState)
    requires Inv(st) && |st.flippedCards| == 2
    ensures Inv(Resolve(st))
  {
    if PendingMatch(st) {
      MatchKeepsInv(st);
    } else {
      MismatchKeepsInv(st);
    }
  }

  lemma MatchKeepsInv(st: GameState)
    requires Inv(st) && |st.flippedCards| == 2 && PendingMatch(st)
    ensures Inv(Resolve(st))
  {
    var i1, i2 := st.flippedCards[0], st.flippedCards[1];
    var c1 := st.cards[i1 := st.cards[i1].(isMatched := true)];
    MatchedCountUpdate(st.cards, i1, st.cards[i1].(isMatched := true));
    MatchedCountUpdate(c1, i2, c1[i2].(isMatched := true));
    var p := st.currentPlayer - 1;
    SumUpdate(st.playerScores, p, st.playerScores[p] + 1);
  }

  lemma MismatchKeepsInv(st: GameState)
    requires Inv(st) && |st.flippedCards| == 2 && !PendingMatch(st)
    ensures Inv(Resolve(st))
  {
    var i1, i2 := st.flippedCards[0], st.flippedCards[1];
    var c1 := st.cards[i1 := st.cards[i1].(isFlipped := false)];
    MatchedCountUpdate(st.cards, i1, st.cards[i1].(isFlipped := false));
    MatchedCountUpdate(c1, i2, c1[i2].(isFlipped := false));
  }

  /**
   * After a check of a reachable state the game is won exactly when
   * `matchedPairs == cards.length / 2`, which is exactly when every card is matched.
   */
  lemma ResolveWins(st: GameState)
    requires Inv(st) && |st.flippedCards| == 2
    ensures var r := Resolve(st);
      && (r.isGameWon <==> 2 * r.matchedPairs == |r.cards|)
      && (r.isGameWon <==> AllMatched(r.cards))
  {
    var r := Resolve(st);
    ResolveKeepsInv(st);
    MatchedCountBound(r.cards);
    MatchedCountBound(st.cards);
    var i1 := st.flippedCards[0];
    assert !st.cards[i1].isMatched;
    assert !AllMatched(st.cards);
    if !PendingMatch(st) {
      assert r.cards[i1] == st.cards[i1].(isFlipped := false);
      assert !AllMatched(r.cards);
    }
  }

  // ---------------------------------------------------------------- resetGame

  /** Every card face down and unmatched, in place. */
  function Cleared(cards: seq<Card>): seq<Card> {
    seq(|cards|, k requires 0 <= k < |cards| => cards[k].(isFlipped := false, isMatched := false))
  }

  /** The state `resetGame` publishes. */
  function Reset(st: GameState, js: seq<nat>): GameState
    requires |js| == |st.cards| && Shuffle.ValidChoices(js)
  {
    st.(cards := Shuffle.FisherYates(Cleared(st.cards), js), flippedCards := [], matchedPairs := 0,
        currentPlayer := 1, playerScores := Zeros(|st.playerScores|), isGameWon := false, moves := 0)
  }

  /**
   * A reset shuffles the same cards, all turned face down and unmatched,
   * zeroes every score without changing how many there are, and starts over
   * with player 1, no moves and nothing pending.
   */
  lemma ResetSpec(st: GameState, js: seq<nat>)
    requires |js| == |st.cards| && Shuffle.ValidChoices(js)
    ensures var r := Reset(st, js);
      && multiset(r.cards) == multiset(Cleared(st.cards))
      && |r.cards| == |st.cards|
      && (forall k :: 0 <= k < |r.cards| ==> !r.cards[k].isFlipped && !r.cards[k].isMatched)
      && |r.playerScores| == |st.playerScores| && (forall k :: 0 <= k < |r.playerScores| ==> r.playerScores[k] == 0)
      && r.matchedPairs == 0 && r.moves == 0 && r.currentPlayer == 1 && !r.isGameWon && r.flippedCards == []
  {
    ShuffleFaceDown(Cleared(st.cards), js);
  }

  lemma ResetKeepsInv(st: GameState, js: seq<nat>)
    requires Inv(st) && |js| == |st.cards| && Shuffle.ValidChoices(js)
    ensures Inv(Reset(st, js))
  {
    var r := Reset(st, js);
    ResetSpec(st, js);
    MatchedCountNone(r.cards);
    SumZero(r.playerScores);
  }

  /** The pairing loop of `initializeGame`: `cards.push(card1, card2)` for each pair. */
  method DealPairsLoop(pokemon: seq<Pokemon>, pairs: nat) returns (cards: seq<Card>)
    requires pairs == 0 || |pokemon| > 0
    ensures cards == Dealt(pokemon, pairs)
  {
    ghost var faces := UsedFaces(pokemon, pairs);
    cards := [];
    var i := 0;
    assert faces[..0] == [];
    while i < pairs
      invariant i <= pairs && cards == Deal(faces[..i])
    {
      var pokemonData := pokemon[i % |pokemon|];
      assert faces[..i + 1] == faces[..i] + [pokemonData];
      DealAppend(faces[..i], pokemonData);
      cards := cards + [MakeCard(pokemonData, false), MakeCard(pokemonData, true)];
      i := i + 1;
    }
    assert faces[..pairs] == faces;
  }

  // ---------------------------------------------------------------- the service

  class GameService {
    var state: GameState

    constructor()
      ensures state == Initial()
    {
      state := Initial();
    }

    /** Builds the pairs, shuffles them and publishes a fresh game. */
    method InitializeGame(gridSize: nat, numberOfPlayers: nat, pokemon: seq<Pokemon>, js: seq<nat>)
      requires PairsNeeded(gridSize) == 0 || |pokemon| > 0
      requires |js| == 2 * PairsNeeded(gridSize) && Shuffle.ValidChoices(js)
      modifies this
      ensures state == NewGame(gridSize, numberOfPlayers, pokemon, js)
    {
      var cards := DealPairsLoop(pokemon, PairsNeeded(gridSize));
      cards := Shuffle.ShuffleSeq(cards, js);
      state := GameState(cards, [], 0, 1, Zeros(numberOfPlayers), false, 0);
    }

    method FlipCard(cardId: string)
      modifies this
      ensures state == Flip(old(state), cardId)
    {
      if |state.flippedCards| >= 2 || state.isGameWon {
        return;
      }
      var found := FindById(state.cards, cardId, 0);
      if found.None? || state.cards[found.value].isFlipped || state.cards[found.value].isMatched {
        return;
      }
      var k := found.value;
      state := state.(cards := state.cards[k := state.cards[k].(isFlipped := true)]);
      state := state.(flippedCards := state.flippedCards + [k]);
      state := state.(moves := state.moves + 1);
    }

    method CheckForMatch()
      requires Valid(state) && |state.flippedCards| == 2
      modifies this
      ensures state == Resolve(old(state))
    {
      var card1, card2 := state.flippedCards[0], state.flippedCards[1];
      if state.cards[card1].pokemonId == state.cards[card2].pokemonId {
        state := state.(cards := state.cards[card1 := state.cards[card1].(isMatched := true)]);
        state := state.(cards := state.cards[card2 := state.cards[card2].(isMatched := true)]);
        state := state.(matchedPairs := state.matchedPairs + 1);
        var p := state.currentPlayer - 1;
        state := state.(playerScores := state.playerScores[p := state.playerScores[p] + 1]);
        if 2 * state.matchedPairs == |state.cards| {
          state := state.(isGameWon := true);
        }
      } else {
        state := state.(cards := state.cards[card1 := state.cards[card1].(isFlipped := false)]);
        state := state.(cards := state.cards[card2 := state.cards[card2].(isFlipped := false)]);
        if |state.playerScores| > 1 {
          state := state.(currentPlayer := if state.currentPlayer == 1 then 2 else 1);
        }
      }
      state := state.(flippedCards := []);
    }

    /** Turns every card face down and unmatched in a loop, shuffles them and starts over. */
    method ResetGame(js: seq<nat>)
      requires |js| == |state.cards| && Shuffle.ValidChoices(js)
      modifies this
      ensures state == Reset(old(state), js)
    {
      var cards := state.cards;
      var i := 0;
      while i < |cards|
        invariant i <= |cards| == |state.cards|
        invariant forall k :: 0 <= k < i ==> cards[k] == Cleared(state.cards)[k]
        invariant forall k :: i <= k < |cards| ==> cards[k] == state.cards[k]
      {
        cards := cards[i := cards[i].(isFlipped := false, isMatched := false)];
        i := i + 1;
      }
      assert cards == Cleared(state.cards);
      cards := Shuffle.ShuffleSeq(cards, js);
      state := state.(cards := cards, flippedCards := [], matchedPairs := 0, currentPlayer := 1,
                      playerScores := Zeros(|state.playerScores|), isGameWon := false, moves := 0);
    }
  }
}
