/**
 * The example game of the puzzle, cups 389125467, checked move by move against
 * `MoveSpec`. Each move is split into what is picked up, where it is put back
 * and the resulting circle.
 */
module CrabCupsExample {
  import opened ListSpec
  import opened LinkedLists
  import opened CrabCups

  lemma PickUp1()
    ensures Removed([3, 8, 9, 1, 2, 5, 4, 6, 7], 1, 3) == [3, 2, 5, 4, 6, 7] && Taken([3, 8, 9, 1, 2, 5, 4, 6, 7], 1, 3) == [8, 9, 1]
  {
  }

  lemma PutBack1()
    ensures IsDestination([3, 2, 5, 4, 6, 7], 3, 1)
    ensures Rotated(InsertedAsWritten([3, 2, 5, 4, 6, 7], 2, [8, 9, 1]), 1) == [2, 8, 9, 1, 5, 4, 6, 7, 3]
  {
  }

  lemma Move1()
    ensures MoveSpec([3, 8, 9, 1, 2, 5, 4, 6, 7]) == [2, 8, 9, 1, 5, 4, 6, 7, 3]
  {
    PickUp1();
    PutBack1();
    MoveTo([3, 8, 9, 1, 2, 5, 4, 6, 7], [3, 2, 5, 4, 6, 7], [8, 9, 1], 1);
  }

  lemma PickUp2()
    ensures Removed([2, 8, 9, 1, 5, 4, 6, 7, 3], 1, 3) == [2, 5, 4, 6, 7, 3] && Taken([2, 8, 9, 1, 5, 4, 6, 7, 3], 1, 3) == [8, 9, 1]
  {
  }

  lemma PutBack2()
    ensures IsDestination([2, 5, 4, 6, 7, 3], 2, 4)
    ensures Rotated(InsertedAsWritten([2, 5, 4, 6, 7, 3], 5, [8, 9, 1]), 1) == [5, 4, 6, 7, 8, 9, 1, 3, 2]
  {
  }

  lemma Move2()
    ensures MoveSpec([2, 8, 9, 1, 5, 4, 6, 7, 3]) == [5, 4, 6, 7, 8, 9, 1, 3, 2]
  {
    PickUp2();
    PutBack2();
    MoveTo([2, 8, 9, 1, 5, 4, 6, 7, 3], [2, 5, 4, 6, 7, 3], [8, 9, 1], 4);
  }

  lemma PickUp3()
    ensures Removed([5, 4, 6, 7, 8, 9, 1, 3, 2], 1, 3) == [5, 8, 9, 1, 3, 2] && Taken([5, 4, 6, 7, 8, 9, 1, 3, 2], 1, 3) == [4, 6, 7]
  {
  }

  lemma PutBack3()
    ensures IsDestination([5, 8, 9, 1, 3, 2], 5, 4)
    ensures Rotated(InsertedAsWritten([5, 8, 9, 1, 3, 2], 5, [4, 6, 7]), 1) == [8, 9, 1, 3, 4, 6, 7, 2, 5]
  {
  }

  lemma Move3()
    ensures MoveSpec([5, 4, 6, 7, 8, 9, 1, 3, 2]) == [8, 9, 1, 3, 4, 6, 7, 2, 5]
  {
    PickUp3();
    PutBack3();
    MoveTo([5, 4, 6, 7, 8, 9, 1, 3, 2], [5, 8, 9, 1, 3, 2], [4, 6, 7], 4);
  }

  lemma PickUp4()
    ensures Removed([8, 9, 1, 3, 4, 6, 7, 2, 5], 1, 3) == [8, 4, 6, 7, 2, 5] && Taken([8, 9, 1, 3, 4, 6, 7, 2, 5], 1, 3) == [9, 1, 3]
  {
  }

  lemma PutBack4()
    ensures IsDestination([8, 4, 6, 7, 2, 5], 8, 3)
    ensures Rotated(InsertedAsWritten([8, 4, 6, 7, 2, 5], 4, [9, 1, 3]), 1) == [4, 6, 7, 9, 1, 3, 2, 5, 8]
  {
  }

  lemma Move4()
    ensures MoveSpec([8, 9, 1, 3, 4, 6, 7, 2, 5]) == [4, 6, 7, 9, 1, 3, 2, 5, 8]
  {
    PickUp4();
    PutBack4();
    MoveTo([8, 9, 1, 3, 4, 6, 7, 2, 5], [8, 4, 6, 7, 2, 5], [9, 1, 3], 3);
  }

  lemma PickUp5()
    ensures Removed([4, 6, 7, 9, 1, 3, 2, 5, 8], 1, 3) == [4, 1, 3, 2, 5, 8] && Taken([4, 6, 7, 9, 1, 3, 2, 5, 8], 1, 3) == [6, 7, 9]
  {
  }

  lemma PutBack5()
    ensures IsDestination([4, 1, 3, 2, 5, 8], 4, 2)
    ensures Rotated(InsertedAsWritten([4, 1, 3, 2, 5, 8], 3, [6, 7, 9]), 1) == [1, 3, 6, 7, 9, 2, 5, 8, 4]
  {
  }

  lemma Move5()
    ensures MoveSpec([4, 6, 7, 9, 1, 3, 2, 5, 8]) == [1, 3, 6, 7, 9, 2, 5, 8, 4]
  {
    PickUp5();
    PutBack5();
    MoveTo([4, 6, 7, 9, 1, 3, 2, 5, 8], [4, 1, 3, 2, 5, 8], [6, 7, 9], 2);
  }

  lemma PickUp6()
    ensures Removed([1, 3, 6, 7, 9, 2, 5, 8, 4], 1, 3) == [1, 9, 2, 5, 8, 4] && Taken([1, 3, 6, 7, 9, 2, 5, 8, 4], 1, 3) == [3, 6, 7]
  {
  }

  lemma PutBack6()
    ensures IsDestination([1, 9, 2, 5, 8, 4], 1, 1)
    ensures Rotated(InsertedAsWritten([1, 9, 2, 5, 8, 4], 2, [3, 6, 7]), 1) == [9, 3, 6, 7, 2, 5, 8, 4, 1]
  {
  }

  lemma Move6()
    ensures MoveSpec([1, 3, 6, 7, 9, 2, 5, 8, 4]) == [9, 3, 6, 7, 2, 5, 8, 4, 1]
  {
    PickUp6();
    PutBack6();
    MoveTo([1, 3, 6, 7, 9, 2, 5, 8, 4], [1, 9, 2, 5, 8, 4], [3, 6, 7], 1);
  }

  lemma PickUp7()
    ensures Removed([9, 3, 6, 7, 2, 5, 8, 4, 1], 1, 3) == [9, 2, 5, 8, 4, 1] && Taken([9, 3, 6, 7, 2, 5, 8, 4, 1], 1, 3) == [3, 6, 7]
  {
  }

  lemma PutBack7()
    ensures IsDestination([9, 2, 5, 8, 4, 1], 9, 3)
    ensures Rotated(InsertedAsWritten([9, 2, 5, 8, 4, 1], 4, [3, 6, 7]), 1) == [2, 5, 8, 3, 6, 7, 4, 1, 9]
  {
  }

  lemma Move7()
    ensures MoveSpec([9, 3, 6, 7, 2, 5, 8, 4, 1]) == [2, 5, 8, 3, 6, 7, 4, 1, 9]
  {
    PickUp7();
    PutBack7();
    MoveTo([9, 3, 6, 7, 2, 5, 8, 4, 1], [9, 2, 5, 8, 4, 1], [3, 6, 7], 3);
  }

  lemma PickUp8()
    ensures Removed([2, 5, 8, 3, 6, 7, 4, 1, 9], 1, 3) == [2, 6, 7, 4, 1, 9] && Taken([2, 5, 8, 3, 6, 7, 4, 1, 9], 1, 3) == [5, 8, 3]
  {
  }

  lemma PutBack8()
    ensures IsDestination([2, 6, 7, 4, 1, 9], 2, 4)
    ensures Rotated(InsertedAsWritten([2, 6, 7, 4, 1, 9], 5, [5, 8, 3]), 1) == [6, 7, 4, 1, 5, 8, 3, 9, 2]
  {
  }

  lemma Move8()
    ensures MoveSpec([2, 5, 8, 3, 6, 7, 4, 1, 9]) == [6, 7, 4, 1, 5, 8, 3, 9, 2]
  {
    PickUp8();
    PutBack8();
    MoveTo([2, 5, 8, 3, 6, 7, 4, 1, 9], [2, 6, 7, 4, 1, 9], [5, 8, 3], 4);
  }

  lemma PickUp9()
    ensures Removed([6, 7, 4, 1, 5, 8, 3, 9, 2], 1, 3) == [6, 5, 8, 3, 9, 2] && Taken([6, 7, 4, 1, 5, 8, 3, 9, 2], 1, 3) == [7, 4, 1]
  {
  }

  lemma PutBack9()
    ensures IsDestination([6, 5, 8, 3, 9, 2], 6, 1)
    ensures Rotated(InsertedAsWritten([6, 5, 8, 3, 9, 2], 2, [7, 4, 1]), 1) == [5, 7, 4, 1, 8, 3, 9, 2, 6]
  {
  }

  lemma Move9()
    ensures MoveSpec([6, 7, 4, 1, 5, 8, 3, 9, 2]) == [5, 7, 4, 1, 8, 3, 9, 2, 6]
  {
    PickUp9();
    PutBack9();
    MoveTo([6, 7, 4, 1, 5, 8, 3, 9, 2], [6, 5, 8, 3, 9, 2], [7, 4, 1], 1);
  }

  lemma PickUp10()
    ensures Removed([5, 7, 4, 1, 8, 3, 9, 2, 6], 1, 3) == [5, 8, 3, 9, 2, 6] && Taken([5, 7, 4, 1, 8, 3, 9, 2, 6], 1, 3) == [7, 4, 1]
  {
  }

  lemma PutBack10()
    ensures IsDestination([5, 8, 3, 9, 2, 6], 5, 2)
    ensures Rotated(InsertedAsWritten([5, 8, 3, 9, 2, 6], 3, [7, 4, 1]), 1) == [8, 3, 7, 4, 1, 9, 2, 6, 5]
  {
  }

  lemma Move10()
    ensures MoveSpec([5, 7, 4, 1, 8, 3, 9, 2, 6]) == [8, 3, 7, 4, 1, 9, 2, 6, 5]
  {
    PickUp10();
    PutBack10();
    MoveTo([5, 7, 4, 1, 8, 3, 9, 2, 6], [5, 8, 3, 9, 2, 6], [7, 4, 1], 2);
  }

  /** Ten moves of the example game. */
  lemma TenMoves()
    ensures Moves([3, 8, 9, 1, 2, 5, 4, 6, 7], 10) == [8, 3, 7, 4, 1, 9, 2, 6, 5]
  {
    Move1();
    Move2();
    Move3();
    Move4();
    Move5();
    Move6();
    Move7();
    Move8();
    Move9();
    Move10();
    assert Moves([5, 7, 4, 1, 8, 3, 9, 2, 6], 1) == [8, 3, 7, 4, 1, 9, 2, 6, 5];
    assert Moves([6, 7, 4, 1, 5, 8, 3, 9, 2], 2) == [8, 3, 7, 4, 1, 9, 2, 6, 5];
    assert Moves([2, 5, 8, 3, 6, 7, 4, 1, 9], 3) == [8, 3, 7, 4, 1, 9, 2, 6, 5];
    assert Moves([9, 3, 6, 7, 2, 5, 8, 4, 1], 4) == [8, 3, 7, 4, 1, 9, 2, 6, 5];
    assert Moves([1, 3, 6, 7, 9, 2, 5, 8, 4], 5) == [8, 3, 7, 4, 1, 9, 2, 6, 5];
    assert Moves([4, 6, 7, 9, 1, 3, 2, 5, 8], 6) == [8, 3, 7, 4, 1, 9, 2, 6, 5];
    assert Moves([8, 9, 1, 3, 4, 6, 7, 2, 5], 7) == [8, 3, 7, 4, 1, 9, 2, 6, 5];
    assert Moves([5, 4, 6, 7, 8, 9, 1, 3, 2], 8) == [8, 3, 7, 4, 1, 9, 2, 6, 5];
    assert Moves([2, 8, 9, 1, 5, 4, 6, 7, 3], 9) == [8, 3, 7, 4, 1, 9, 2, 6, 5];
    assert Moves([3, 8, 9, 1, 2, 5, 4, 6, 7], 10) == [8, 3, 7, 4, 1, 9, 2, 6, 5];
  }

  /** After ten moves, the labels read from cup 1. */
  lemma RotateToOne()
    ensures RotatedTo([8, 3, 7, 4, 1, 9, 2, 6, 5], 1) == [1, 9, 2, 6, 5, 8, 3, 7, 4]
  {
    FirstIndexAt([8, 3, 7, 4, 1, 9, 2, 6, 5], c => c == 1, 4);
  }
}
