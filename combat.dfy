/**
 * The card game Combat: both players reveal their top card; the higher card's owner puts both
 * cards, their own first, at the bottom of their deck; the game ends when a deck runs out.
 */
module Combat {
  import opened Wrappers
  import Sorting

  datatype Player = Player(name: string, cards: seq<int>)
  datatype Game = Game(player1: Player, player2: Player)
  datatype Winner = Player1 | Player2

  predicate Playable(g: Game)
  {
    |g.player1.cards| > 0 && |g.player2.cards| > 0
  }

  /** The decks after one round: the higher card's owner takes both, their own first. A tie goes to player 2. */
  function Round(g: Game): Game
    requires Playable(g)
  {
    var c1, c2 := g.player1.cards[0], g.player2.cards[0];
    var p1, p2 := g.player1.cards[1..], g.player2.cards[1..];
    if c1 > c2 then
      Game(g.player1.(cards := p1 + [c1, c2]), g.player2.(cards := p2))
    else
      Game(g.player1.(cards := p1), g.player2.(cards := p2 + [c2, c1]))
  }

  /** A round moves two cards and loses none: the players keep their names and the cards their multiset. */
  lemma RoundKeepsCards(g: Game)
    requires Playable(g)
    ensures var g' := Round(g);
      g'.player1.name == g.player1.name && g'.player2.name == g.player2.name &&
      |g'.player1.cards| + |g'.player2.cards| == |g.player1.cards| + |g.player2.cards| &&
      multiset(g'.player1.cards + g'.player2.cards) == multiset(g.player1.cards + g.player2.cards)
  {
    var c1, c2 := g.player1.cards[0], g.player2.cards[0];
    var p1, p2 := g.player1.cards[1..], g.player2.cards[1..];
    assert g.player1.cards == [c1] + p1 && g.player2.cards == [c2] + p2;
  }

  /** The winner once a deck is empty: player 1's empty deck is checked first. */
  function WinnerOf(g: Game): (w: Option<Winner>)
    ensures w == Some(Player2) <==> |g.player1.cards| == 0
    ensures w == Some(Player1) <==> |g.player1.cards| > 0 && |g.player2.cards| == 0
  {
    if |g.player1.cards| == 0 then Some(Player2)
    else if |g.player2.cards| == 0 then Some(Player1)
    else None
  }

  /** `playRound`: `removeFirst` traps on an empty deck, so both players need a card. */
  method PlayRound(g: Game) returns (g': Game, winner: Option<Winner>)
    requires Playable(g)
    ensures g' == Round(g) && winner == WinnerOf(g')
  {
    var cards1, cards2 := g.player1.cards, g.player2.cards;
    var card1 := cards1[0];
    cards1 := cards1[1..];
    var card2 := cards2[0];
    cards2 := cards2[1..];
    if card1 > card2 {
      cards1 := cards1 + [card1, card2];
    } else {
      cards2 := cards2 + [card2, card1];
    }
    g' := Game(g.player1.(cards := cards1), g.player2.(cards := cards2));
    if |cards1| == 0 {
      return g', Some(Player2);
    }
    if |cards2| == 0 {
      return g', Some(Player1);
    }
    return g', None;
  }

  /** The game ends within `n` rounds. */
  ghost predicate EndsWithin(g: Game, n: nat)
    decreases n
  {
    Playable(g) && n > 0 && (WinnerOf(Round(g)).Some? || EndsWithin(Round(g), n - 1))
  }

  /** The decks when the game ends. */
  ghost function Final(g: Game, n: nat): (f: Game)
    requires EndsWithin(g, n)
    ensures WinnerOf(f).Some?
    ensures multiset(f.player1.cards + f.player2.cards) == multiset(g.player1.cards + g.player2.cards)
    decreases n
  {
    RoundKeepsCards(g);
    if WinnerOf(Round(g)).Some? then Round(g) else Final(Round(g), n - 1)
  }

  /**
   * `playUntilWinner`: play rounds until a deck runs out. The loop has no bound of its own: a
   * game that never ends never returns, so the model asks for a number of rounds `n` within which it ends.
   */
  method PlayUntilWinner(g: Game, ghost n: nat) returns (g': Game, winner: Winner)
    requires EndsWithin(g, n)
    ensures g' == Final(g, n) && Some(winner) == WinnerOf(g')
    ensures winner == Player2 ==> g'.player1.cards == [] && multiset(g'.player2.cards) == multiset(g.player1.cards + g.player2.cards)
    ensures winner == Player1 ==> g'.player2.cards == [] && multiset(g'.player1.cards) == multiset(g.player1.cards + g.player2.cards)
  {
    g' := g;
    ghost var k := n;
    while true
      invariant EndsWithin(g', k) && Final(g', k) == Final(g, n)
      decreases k
    {
      FinalStep(g', k);
      var w;
      g', w := PlayRound(g');
      if w.Some? {
        FinalOutcome(g, n, w.value);
        return g', w.value;
      }
      k := k - 1;
    }
  }

  /** One round nearer the end: the final decks are the next round's, or those of the game from there. */
  lemma FinalStep(g: Game, k: nat)
    requires EndsWithin(g, k)
    ensures Playable(g) && k > 0
    ensures WinnerOf(Round(g)).Some? ==> Final(g, k) == Round(g)
    ensures WinnerOf(Round(g)).None? ==> EndsWithin(Round(g), k - 1) && Final(g, k) == Final(Round(g), k - 1)
  {
  }

  /** The winner holds every card of the game. */
  lemma FinalOutcome(g: Game, n: nat, winner: Winner)
    requires EndsWithin(g, n) && Some(winner) == WinnerOf(Final(g, n))
    ensures var f := Final(g, n);
      && (winner == Player2 ==> f.player1.cards == [] && multiset(f.player2.cards) == multiset(g.player1.cards + g.player2.cards))
      && (winner == Player1 ==> f.player2.cards == [] && multiset(f.player1.cards) == multiset(g.player1.cards + g.player2.cards))
  {
    var f := Final(g, n);
    if winner == Player2 {
      assert f.player1.cards + f.player2.cards == f.player2.cards;
    } else {
      assert f.player1.cards + f.player2.cards == f.player1.cards;
    }
  }

  /** `score`: the bottom card times 1, the next times 2, and so on, as `reversed().enumerated()` reads them. */
  function Score(p: Player): int
  {
    WeightedSum(Sorting.Reverse(p.cards), 1)
  }

  /** `w * s[0] + (w + 1) * s[1] + ...`. */
  function WeightedSum(s: seq<int>, w: int): int
  {
    if s == [] then 0 else w * s[0] + WeightedSum(s[1..], w + 1)
  }

  /** Read from the top, each card is multiplied by its position counted from the bottom. */
  function TopDownScore(cards: seq<int>): int
  {
    if cards == [] then 0 else |cards| * cards[0] + TopDownScore(cards[1..])
  }

  lemma {:induction false} WeightedSumSnoc(s: seq<int>, x: int, w: int)
    ensures WeightedSum(s + [x], w) == WeightedSum(s, w) + (w + |s|) * x
  {
    if s != [] {
      assert (s + [x])[1..] == s[1..] + [x];
      WeightedSumSnoc(s[1..], x, w + 1);
    }
  }

  /** The score of a deck is the sum over its cards of the card times its position from the bottom. */
  lemma {:induction false} ScoreTopDown(p: Player)
    ensures Score(p) == TopDownScore(p.cards)
    ensures p.cards == [] ==> Score(p) == 0
  {
    TopDownStep(p.cards);
  }

  lemma {:induction false} TopDownStep(cards: seq<int>)
    ensures WeightedSum(Sorting.Reverse(cards), 1) == TopDownScore(cards)
  {
    if cards != [] {
      var rest := cards[1..];
      TopDownStep(rest);
      WeightedSumSnoc(Sorting.Reverse(rest), cards[0], 1);
      assert WeightedSum(Sorting.Reverse(cards), 1) == WeightedSum(Sorting.Reverse(rest), 1) + (1 + |rest|) * cards[0];
    }
  }
}
