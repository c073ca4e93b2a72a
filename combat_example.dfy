/** The example game: player 2 wins after 29 rounds with a score of 306; player 1 scores 0. */
module CombatExample {
  import opened Wrappers
  import opened Combat

  function G(cards1: seq<int>, cards2: seq<int>): Game
  {
    Game(Player("Player 1", cards1), Player("Player 2", cards2))
  }

  lemma Player1Takes(c1: int, c2: int, p1: seq<int>, p2: seq<int>)
    requires c1 > c2
    ensures Round(G([c1] + p1, [c2] + p2)) == G(p1 + [c1, c2], p2)
  {
    var g := G([c1] + p1, [c2] + p2);
    assert g.player1.cards[0] == c1 && g.player1.cards[1..] == p1;
    assert g.player2.cards[0] == c2 && g.player2.cards[1..] == p2;
  }

  lemma Player2Takes(c1: int, c2: int, p1: seq<int>, p2: seq<int>)
    requires c1 <= c2
    ensures Round(G([c1] + p1, [c2] + p2)) == G(p1, p2 + [c2, c1])
  {
    var g := G([c1] + p1, [c2] + p2);
    assert g.player1.cards[0] == c1 && g.player1.cards[1..] == p1;
    assert g.player2.cards[0] == c2 && g.player2.cards[1..] == p2;
  }

  lemma Round1()
    ensures Round(G([9, 2, 6, 3, 1], [5, 8, 4, 7, 10])) == G([2, 6, 3, 1, 9, 5], [8, 4, 7, 10])
  {
    Player1Takes(9, 5, [2, 6, 3, 1], [8, 4, 7, 10]);
    assert [9] + [2, 6, 3, 1] == [9, 2, 6, 3, 1] && [5] + [8, 4, 7, 10] == [5, 8, 4, 7, 10];
  }

  lemma Round2()
    ensures Round(G([2, 6, 3, 1, 9, 5], [8, 4, 7, 10])) == G([6, 3, 1, 9, 5], [4, 7, 10, 8, 2])
  {
    Player2Takes(2, 8, [6, 3, 1, 9, 5], [4, 7, 10]);
    assert [2] + [6, 3, 1, 9, 5] == [2, 6, 3, 1, 9, 5] && [8] + [4, 7, 10] == [8, 4, 7, 10];
  }

  lemma Round3()
    ensures Round(G([6, 3, 1, 9, 5], [4, 7, 10, 8, 2])) == G([3, 1, 9, 5, 6, 4], [7, 10, 8, 2])
  {
    Player1Takes(6, 4, [3, 1, 9, 5], [7, 10, 8, 2]);
    assert [6] + [3, 1, 9, 5] == [6, 3, 1, 9, 5] && [4] + [7, 10, 8, 2] == [4, 7, 10, 8, 2];
  }

  lemma Round4()
    ensures Round(G([3, 1, 9, 5, 6, 4], [7, 10, 8, 2])) == G([1, 9, 5, 6, 4], [10, 8, 2, 7, 3])
  {
    Player2Takes(3, 7, [1, 9, 5, 6, 4], [10, 8, 2]);
    assert [3] + [1, 9, 5, 6, 4] == [3, 1, 9, 5, 6, 4] && [7] + [10, 8, 2] == [7, 10, 8, 2];
  }

  lemma Round5()
    ensures Round(G([1, 9, 5, 6, 4], [10, 8, 2, 7, 3])) == G([9, 5, 6, 4], [8, 2, 7, 3, 10, 1])
  {
    Player2Takes(1, 10, [9, 5, 6, 4], [8, 2, 7, 3]);
    assert [1] + [9, 5, 6, 4] == [1, 9, 5, 6, 4] && [10] + [8, 2, 7, 3] == [10, 8, 2, 7, 3];
  }

  lemma Round6()
    ensures Round(G([9, 5, 6, 4], [8, 2, 7, 3, 10, 1])) == G([5, 6, 4, 9, 8], [2, 7, 3, 10, 1])
  {
    Player1Takes(9, 8, [5, 6, 4], [2, 7, 3, 10, 1]);
    assert [9] + [5, 6, 4] == [9, 5, 6, 4] && [8] + [2, 7, 3, 10, 1] == [8, 2, 7, 3, 10, 1];
  }

  lemma Round7()
    ensures Round(G([5, 6, 4, 9, 8], [2, 7, 3, 10, 1])) == G([6, 4, 9, 8, 5, 2], [7, 3, 10, 1])
  {
    Player1Takes(5, 2, [6, 4, 9, 8], [7, 3, 10, 1]);
    assert [5] + [6, 4, 9, 8] == [5, 6, 4, 9, 8] && [2] + [7, 3, 10, 1] == [2, 7, 3, 10, 1];
  }

  lemma Round8()
    ensures Round(G([6, 4, 9, 8, 5, 2], [7, 3, 10, 1])) == G([4, 9, 8, 5, 2], [3, 10, 1, 7, 6])
  {
    Player2Takes(6, 7, [4, 9, 8, 5, 2], [3, 10, 1]);
    assert [6] + [4, 9, 8, 5, 2] == [6, 4, 9, 8, 5, 2] && [7] + [3, 10, 1] == [7, 3, 10, 1];
  }

  lemma Round9()
    ensures Round(G([4, 9, 8, 5, 2], [3, 10, 1, 7, 6])) == G([9, 8, 5, 2, 4, 3], [10, 1, 7, 6])
  {
    Player1Takes(4, 3, [9, 8, 5, 2], [10, 1, 7, 6]);
    assert [4] + [9, 8, 5, 2] == [4, 9, 8, 5, 2] && [3] + [10, 1, 7, 6] == [3, 10, 1, 7, 6];
  }

  lemma Round10()
    ensures Round(G([9, 8, 5, 2, 4, 3], [10, 1, 7, 6])) == G([8, 5, 2, 4, 3], [1, 7, 6, 10, 9])
  {
    Player2Takes(9, 10, [8, 5, 2, 4, 3], [1, 7, 6]);
    assert [9] + [8, 5, 2, 4, 3] == [9, 8, 5, 2, 4, 3] && [10] + [1, 7, 6] == [10, 1, 7, 6];
  }

  lemma Round11()
    ensures Round(G([8, 5, 2, 4, 3], [1, 7, 6, 10, 9])) == G([5, 2, 4, 3, 8, 1], [7, 6, 10, 9])
  {
    Player1Takes(8, 1, [5, 2, 4, 3], [7, 6, 10, 9]);
    assert [8] + [5, 2, 4, 3] == [8, 5, 2, 4, 3] && [1] + [7, 6, 10, 9] == [1, 7, 6, 10, 9];
  }

  lemma Round12()
    ensures Round(G([5, 2, 4, 3, 8, 1], [7, 6, 10, 9])) == G([2, 4, 3, 8, 1], [6, 10, 9, 7, 5])
  {
    Player2Takes(5, 7, [2, 4, 3, 8, 1], [6, 10, 9]);
    assert [5] + [2, 4, 3, 8, 1] == [5, 2, 4, 3, 8, 1] && [7] + [6, 10, 9] == [7, 6, 10, 9];
  }

  lemma Round13()
    ensures Round(G([2, 4, 3, 8, 1], [6, 10, 9, 7, 5])) == G([4, 3, 8, 1], [10, 9, 7, 5, 6, 2])
  {
    Player2Takes(2, 6, [4, 3, 8, 1], [10, 9, 7, 5]);
    assert [2] + [4, 3, 8, 1] == [2, 4, 3, 8, 1] && [6] + [10, 9, 7, 5] == [6, 10, 9, 7, 5];
  }

  lemma Round14()
    ensures Round(G([4, 3, 8, 1], [10, 9, 7, 5, 6, 2])) == G([3, 8, 1], [9, 7, 5, 6, 2, 10, 4])
  {
    Player2Takes(4, 10, [3, 8, 1], [9, 7, 5, 6, 2]);
    assert [4] + [3, 8, 1] == [4, 3, 8, 1] && [10] + [9, 7, 5, 6, 2] == [10, 9, 7, 5, 6, 2];
  }

  lemma Round15()
    ensures Round(G([3, 8, 1], [9, 7, 5, 6, 2, 10, 4])) == G([8, 1], [7, 5, 6, 2, 10, 4, 9, 3])
  {
    Player2Takes(3, 9, [8, 1], [7, 5, 6, 2, 10, 4]);
    assert [3] + [8, 1] == [3, 8, 1] && [9] + [7, 5, 6, 2, 10, 4] == [9, 7, 5, 6, 2, 10, 4];
  }

  lemma Round16()
    ensures Round(G([8, 1], [7, 5, 6, 2, 10, 4, 9, 3])) == G([1, 8, 7], [5, 6, 2, 10, 4, 9, 3])
  {
    Player1Takes(8, 7, [1], [5, 6, 2, 10, 4, 9, 3]);
    assert [8] + [1] == [8, 1] && [7] + [5, 6, 2, 10, 4, 9, 3] == [7, 5, 6, 2, 10, 4, 9, 3];
  }

  lemma Round17()
    ensures Round(G([1, 8, 7], [5, 6, 2, 10, 4, 9, 3])) == G([8, 7], [6, 2, 10, 4, 9, 3, 5, 1])
  {
    Player2Takes(1, 5, [8, 7], [6, 2, 10, 4, 9, 3]);
    assert [1] + [8, 7] == [1, 8, 7] && [5] + [6, 2, 10, 4, 9, 3] == [5, 6, 2, 10, 4, 9, 3];
  }

  lemma Round18()
    ensures Round(G([8, 7], [6, 2, 10, 4, 9, 3, 5, 1])) == G([7, 8, 6], [2, 10, 4, 9, 3, 5, 1])
  {
    Player1Takes(8, 6, [7], [2, 10, 4, 9, 3, 5, 1]);
    assert [8] + [7] == [8, 7] && [6] + [2, 10, 4, 9, 3, 5, 1] == [6, 2, 10, 4, 9, 3, 5, 1];
  }

  lemma Round19()
    ensures Round(G([7, 8, 6], [2, 10, 4, 9, 3, 5, 1])) == G([8, 6, 7, 2], [10, 4, 9, 3, 5, 1])
  {
    Player1Takes(7, 2, [8, 6], [10, 4, 9, 3, 5, 1]);
    assert [7] + [8, 6] == [7, 8, 6] && [2] + [10, 4, 9, 3, 5, 1] == [2, 10, 4, 9, 3, 5, 1];
  }

  lemma Round20()
    ensures Round(G([8, 6, 7, 2], [10, 4, 9, 3, 5, 1])) == G([6, 7, 2], [4, 9, 3, 5, 1, 10, 8])
  {
    Player2Takes(8, 10, [6, 7, 2], [4, 9, 3, 5, 1]);
    assert [8] + [6, 7, 2] == [8, 6, 7, 2] && [10] + [4, 9, 3, 5, 1] == [10, 4, 9, 3, 5, 1];
  }

  lemma Round21()
    ensures Round(G([6, 7, 2], [4, 9, 3, 5, 1, 10, 8])) == G([7, 2, 6, 4], [9, 3, 5, 1, 10, 8])
  {
    Player1Takes(6, 4, [7, 2], [9, 3, 5, 1, 10, 8]);
    assert [6] + [7, 2] == [6, 7, 2] && [4] + [9, 3, 5, 1, 10, 8] == [4, 9, 3, 5, 1, 10, 8];
  }

  lemma Round22()
    ensures Round(G([7, 2, 6, 4], [9, 3, 5, 1, 10, 8])) == G([2, 6, 4], [3, 5, 1, 10, 8, 9, 7])
  {
    Player2Takes(7, 9, [2, 6, 4], [3, 5, 1, 10, 8]);
    assert [7] + [2, 6, 4] == [7, 2, 6, 4] && [9] + [3, 5, 1, 10, 8] == [9, 3, 5, 1, 10, 8];
  }

  lemma Round23()
    ensures Round(G([2, 6, 4], [3, 5, 1, 10, 8, 9, 7])) == G([6, 4], [5, 1, 10, 8, 9, 7, 3, 2])
  {
    Player2Takes(2, 3, [6, 4], [5, 1, 10, 8, 9, 7]);
    assert [2] + [6, 4] == [2, 6, 4] && [3] + [5, 1, 10, 8, 9, 7] == [3, 5, 1, 10, 8, 9, 7];
  }

  lemma Round24()
    ensures Round(G([6, 4], [5, 1, 10, 8, 9, 7, 3, 2])) == G([4, 6, 5], [1, 10, 8, 9, 7, 3, 2])
  {
    Player1Takes(6, 5, [4], [1, 10, 8, 9, 7, 3, 2]);
    assert [6] + [4] == [6, 4] && [5] + [1, 10, 8, 9, 7, 3, 2] == [5, 1, 10, 8, 9, 7, 3, 2];
  }

  lemma Round25()
    ensures Round(G([4, 6, 5], [1, 10, 8, 9, 7, 3, 2])) == G([6, 5, 4, 1], [10, 8, 9, 7, 3, 2])
  {
    Player1Takes(4, 1, [6, 5], [10, 8, 9, 7, 3, 2]);
    assert [4] + [6, 5] == [4, 6, 5] && [1] + [10, 8, 9, 7, 3, 2] == [1, 10, 8, 9, 7, 3, 2];
  }

  lemma Round26()
    ensures Round(G([6, 5, 4, 1], [10, 8, 9, 7, 3, 2])) == G([5, 4, 1], [8, 9, 7, 3, 2, 10, 6])
  {
    Player2Takes(6, 10, [5, 4, 1], [8, 9, 7, 3, 2]);
    assert [6] + [5, 4, 1] == [6, 5, 4, 1] && [10] + [8, 9, 7, 3, 2] == [10, 8, 9, 7, 3, 2];
  }

  lemma Round27()
    ensures Round(G([5, 4, 1], [8, 9, 7, 3, 2, 10, 6])) == G([4, 1], [9, 7, 3, 2, 10, 6, 8, 5])
  {
    Player2Takes(5, 8, [4, 1], [9, 7, 3, 2, 10, 6]);
    assert [5] + [4, 1] == [5, 4, 1] && [8] + [9, 7, 3, 2, 10, 6] == [8, 9, 7, 3, 2, 10, 6];
  }

  lemma Round28()
    ensures Round(G([4, 1], [9, 7, 3, 2, 10, 6, 8, 5])) == G([1], [7, 3, 2, 10, 6, 8, 5, 9, 4])
  {
    Player2Takes(4, 9, [1], [7, 3, 2, 10, 6, 8, 5]);
    assert [4] + [1] == [4, 1] && [9] + [7, 3, 2, 10, 6, 8, 5] == [9, 7, 3, 2, 10, 6, 8, 5];
  }

  lemma Round29()
    ensures Round(G([1], [7, 3, 2, 10, 6, 8, 5, 9, 4])) == G([], [3, 2, 10, 6, 8, 5, 9, 4, 7, 1])
  {
    Player2Takes(1, 7, [], [3, 2, 10, 6, 8, 5, 9, 4]);
    assert [1] + [] == [1] && [7] + [3, 2, 10, 6, 8, 5, 9, 4] == [7, 3, 2, 10, 6, 8, 5, 9, 4];
  }

  lemma Ends28()
    ensures EndsWithin(G([1], [7, 3, 2, 10, 6, 8, 5, 9, 4]), 1) && Final(G([1], [7, 3, 2, 10, 6, 8, 5, 9, 4]), 1) == G([], [3, 2, 10, 6, 8, 5, 9, 4, 7, 1])
  {
    Round29();
  }

  lemma Ends27()
    ensures EndsWithin(G([4, 1], [9, 7, 3, 2, 10, 6, 8, 5]), 2) && Final(G([4, 1], [9, 7, 3, 2, 10, 6, 8, 5]), 2) == G([], [3, 2, 10, 6, 8, 5, 9, 4, 7, 1])
  {
    Round28();
    Ends28();
  }

  lemma Ends26()
    ensures EndsWithin(G([5, 4, 1], [8, 9, 7, 3, 2, 10, 6]), 3) && Final(G([5, 4, 1], [8, 9, 7, 3, 2, 10, 6]), 3) == G([], [3, 2, 10, 6, 8, 5, 9, 4, 7, 1])
  {
    Round27();
    Ends27();
  }

  lemma Ends25()
    ensures EndsWithin(G([6, 5, 4, 1], [10, 8, 9, 7, 3, 2]), 4) && Final(G([6, 5, 4, 1], [10, 8, 9, 7, 3, 2]), 4) == G([], [3, 2, 10, 6, 8, 5, 9, 4, 7, 1])
  {
    Round26();
    Ends26();
  }

  lemma Ends24()
    ensures EndsWithin(G([4, 6, 5], [1, 10, 8, 9, 7, 3, 2]), 5) && Final(G([4, 6, 5], [1, 10, 8, 9, 7, 3, 2]), 5) == G([], [3, 2, 10, 6, 8, 5, 9, 4, 7, 1])
  {
    Round25();
    Ends25();
  }

  lemma Ends23()
    ensures EndsWithin(G([6, 4], [5, 1, 10, 8, 9, 7, 3, 2]), 6) && Final(G([6, 4], [5, 1, 10, 8, 9, 7, 3, 2]), 6) == G([], [3, 2, 10, 6, 8, 5, 9, 4, 7, 1])
  {
    Round24();
    Ends24();
  }

  lemma Ends22()
    ensures EndsWithin(G([2, 6, 4], [3, 5, 1, 10, 8, 9, 7]), 7) && Final(G([2, 6, 4], [3, 5, 1, 10, 8, 9, 7]), 7) == G([], [3, 2, 10, 6, 8, 5, 9, 4, 7, 1])
  {
    Round23();
    Ends23();
  }

  lemma Ends21()
    ensures EndsWithin(G([7, 2, 6, 4], [9, 3, 5, 1, 10, 8]), 8) && Final(G([7, 2, 6, 4], [9, 3, 5, 1, 10, 8]), 8) == G([], [3, 2, 10, 6, 8, 5, 9, 4, 7, 1])
  {
    Round22();
    Ends22();
  }

  lemma Ends20()
    ensures EndsWithin(G([6, 7, 2], [4, 9, 3, 5, 1, 10, 8]), 9) && Final(G([6, 7, 2], [4, 9, 3, 5, 1, 10, 8]), 9) == G([], [3, 2, 10, 6, 8, 5, 9, 4, 7, 1])
  {
    Round21();
    Ends21();
  }

  lemma Ends19()
    ensures EndsWithin(G([8, 6, 7, 2], [10, 4, 9, 3, 5, 1]), 10) && Final(G([8, 6, 7, 2], [10, 4, 9, 3, 5, 1]), 10) == G([], [3, 2, 10, 6, 8, 5, 9, 4, 7, 1])
  {
    Round20();
    Ends20();
  }

  lemma Ends18()
    ensures EndsWithin(G([7, 8, 6], [2, 10, 4, 9, 3, 5, 1]), 11) && Final(G([7, 8, 6], [2, 10, 4, 9, 3, 5, 1]), 11) == G([], [3, 2, 10, 6, 8, 5, 9, 4, 7, 1])
  {
    Round19();
    Ends19();
  }

  lemma Ends17()
    ensures EndsWithin(G([8, 7], [6, 2, 10, 4, 9, 3, 5, 1]), 12) && Final(G([8, 7], [6, 2, 10, 4, 9, 3, 5, 1]), 12) == G([], [3, 2, 10, 6, 8, 5, 9, 4, 7, 1])
  {
    Round18();
    Ends18();
  }

  lemma Ends16()
    ensures EndsWithin(G([1, 8, 7], [5, 6, 2, 10, 4, 9, 3]), 13) && Final(G([1, 8, 7], [5, 6, 2, 10, 4, 9, 3]), 13) == G([], [3, 2, 10, 6, 8, 5, 9, 4, 7, 1])
  {
    Round17();
    Ends17();
  }

  lemma Ends15()
    ensures EndsWithin(G([8, 1], [7, 5, 6, 2, 10, 4, 9, 3]), 14) && Final(G([8, 1], [7, 5, 6, 2, 10, 4, 9, 3]), 14) == G([], [3, 2, 10, 6, 8, 5, 9, 4, 7, 1])
  {
    Round16();
    Ends16();
  }

  lemma Ends14()
    ensures EndsWithin(G([3, 8, 1], [9, 7, 5, 6, 2, 10, 4]), 15) && Final(G([3, 8, 1], [9, 7, 5, 6, 2, 10, 4]), 15) == G([], [3, 2, 10, 6, 8, 5, 9, 4, 7, 1])
  {
    Round15();
    Ends15();
  }

  lemma Ends13()
    ensures EndsWithin(G([4, 3, 8, 1], [10, 9, 7, 5, 6, 2]), 16) && Final(G([4, 3, 8, 1], [10, 9, 7, 5, 6, 2]), 16) == G([], [3, 2, 10, 6, 8, 5, 9, 4, 7, 1])
  {
    Round14();
    Ends14();
  }

  lemma Ends12()
    ensures EndsWithin(G([2, 4, 3, 8, 1], [6, 10, 9, 7, 5]), 17) && Final(G([2, 4, 3, 8, 1], [6, 10, 9, 7, 5]), 17) == G([], [3, 2, 10, 6, 8, 5, 9, 4, 7, 1])
  {
    Round13();
    Ends13();
  }

  lemma Ends11()
    ensures EndsWithin(G([5, 2, 4, 3, 8, 1], [7, 6, 10, 9]), 18) && Final(G([5, 2, 4, 3, 8, 1], [7, 6, 10, 9]), 18) == G([], [3, 2, 10, 6, 8, 5, 9, 4, 7, 1])
  {
    Round12();
    Ends12();
  }

  lemma Ends10()
    ensures EndsWithin(G([8, 5, 2, 4, 3], [1, 7, 6, 10, 9]), 19) && Final(G([8, 5, 2, 4, 3], [1, 7, 6, 10, 9]), 19) == G([], [3, 2, 10, 6, 8, 5, 9, 4, 7, 1])
  {
    Round11();
    Ends11();
  }

  lemma Ends9()
    ensures EndsWithin(G([9, 8, 5, 2, 4, 3], [10, 1, 7, 6]), 20) && Final(G([9, 8, 5, 2, 4, 3], [10, 1, 7, 6]), 20) == G([], [3, 2, 10, 6, 8, 5, 9, 4, 7, 1])
  {
    Round10();
    Ends10();
  }

  lemma Ends8()
    ensures EndsWithin(G([4, 9, 8, 5, 2], [3, 10, 1, 7, 6]), 21) && Final(G([4, 9, 8, 5, 2], [3, 10, 1, 7, 6]), 21) == G([], [3, 2, 10, 6, 8, 5, 9, 4, 7, 1])
  {
    Round9();
    Ends9();
  }

  lemma Ends7()
    ensures EndsWithin(G([6, 4, 9, 8, 5, 2], [7, 3, 10, 1]), 22) && Final(G([6, 4, 9, 8, 5, 2], [7, 3, 10, 1]), 22) == G([], [3, 2, 10, 6, 8, 5, 9, 4, 7, 1])
  {
    Round8();
    Ends8();
  }

  lemma Ends6()
    ensures EndsWithin(G([5, 6, 4, 9, 8], [2, 7, 3, 10, 1]), 23) && Final(G([5, 6, 4, 9, 8], [2, 7, 3, 10, 1]), 23) == G([], [3, 2, 10, 6, 8, 5, 9, 4, 7, 1])
  {
    Round7();
    Ends7();
  }

  lemma Ends5()
    ensures EndsWithin(G([9, 5, 6, 4], [8, 2, 7, 3, 10, 1]), 24) && Final(G([9, 5, 6, 4], [8, 2, 7, 3, 10, 1]), 24) == G([], [3, 2, 10, 6, 8, 5, 9, 4, 7, 1])
  {
    Round6();
    Ends6();
  }

  lemma Ends4()
    ensures EndsWithin(G([1, 9, 5, 6, 4], [10, 8, 2, 7, 3]), 25) && Final(G([1, 9, 5, 6, 4], [10, 8, 2, 7, 3]), 25) == G([], [3, 2, 10, 6, 8, 5, 9, 4, 7, 1])
  {
    Round5();
    Ends5();
  }

  lemma Ends3()
    ensures EndsWithin(G([3, 1, 9, 5, 6, 4], [7, 10, 8, 2]), 26) && Final(G([3, 1, 9, 5, 6, 4], [7, 10, 8, 2]), 26) == G([], [3, 2, 10, 6, 8, 5, 9, 4, 7, 1])
  {
    Round4();
    Ends4();
  }

  lemma Ends2()
    ensures EndsWithin(G([6, 3, 1, 9, 5], [4, 7, 10, 8, 2]), 27) && Final(G([6, 3, 1, 9, 5], [4, 7, 10, 8, 2]), 27) == G([], [3, 2, 10, 6, 8, 5, 9, 4, 7, 1])
  {
    Round3();
    Ends3();
  }

  lemma Ends1()
    ensures EndsWithin(G([2, 6, 3, 1, 9, 5], [8, 4, 7, 10]), 28) && Final(G([2, 6, 3, 1, 9, 5], [8, 4, 7, 10]), 28) == G([], [3, 2, 10, 6, 8, 5, 9, 4, 7, 1])
  {
    Round2();
    Ends2();
  }

  /** The game ends within 29 rounds, with player 1's deck empty. */
  lemma Ends0()
    ensures EndsWithin(G([9, 2, 6, 3, 1], [5, 8, 4, 7, 10]), 29) && Final(G([9, 2, 6, 3, 1], [5, 8, 4, 7, 10]), 29) == G([], [3, 2, 10, 6, 8, 5, 9, 4, 7, 1])
  {
    Round1();
    Ends1();
  }

  lemma ExampleScores()
    ensures WinnerOf(G([], [3, 2, 10, 6, 8, 5, 9, 4, 7, 1])) == Some(Player2)
    ensures Score(Player("Player 2", [3, 2, 10, 6, 8, 5, 9, 4, 7, 1])) == 306
    ensures Score(Player("Player 1", [])) == 0
  {
    ScoreTopDown(Player("Player 2", [3, 2, 10, 6, 8, 5, 9, 4, 7, 1]));
    ScoreTopDown(Player("Player 1", []));
  }
}
