/** The example 0, 3, 6: the game runs 0, 3, 6, 0, 3, 3, 1, 0, 4, 0, so the tenth number is 0. */
module MemoryGameExample {
  import opened MemoryGame

  const Start := [0, 3, 6]

  lemma Turn1()
    ensures Spoken(Start, 1) == [0]
  {
  }

  lemma Turn2()
    ensures Spoken(Start, 2) == [0, 3]
  {
    Turn1();
  }

  lemma Turn3()
    ensures Spoken(Start, 3) == [0, 3, 6]
  {
    Turn2();
  }

  lemma Turn4()
    ensures Spoken(Start, 4) == [0, 3, 6, 0]
  {
    Turn3();
  }

  lemma Turn5()
    ensures Spoken(Start, 5) == [0, 3, 6, 0, 3]
  {
    Turn4();
  }

  lemma Turn6()
    ensures Spoken(Start, 6) == [0, 3, 6, 0, 3, 3]
  {
    Turn5();
  }

  lemma Turn7()
    ensures Spoken(Start, 7) == [0, 3, 6, 0, 3, 3, 1]
  {
    Turn6();
  }

  lemma Turn8()
    ensures Spoken(Start, 8) == [0, 3, 6, 0, 3, 3, 1, 0]
  {
    Turn7();
  }

  lemma Turn9()
    ensures Spoken(Start, 9) == [0, 3, 6, 0, 3, 3, 1, 0, 4]
  {
    Turn8();
  }

  lemma Turn10()
    ensures Spoken(Start, 10) == [0, 3, 6, 0, 3, 3, 1, 0, 4, 0]
  {
    Turn9();
  }

  lemma TenthIsZero()
    ensures Spoken(Start, 10)[9] == 0
  {
    Turn10();
  }
}
