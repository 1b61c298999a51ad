/** The scenarios of the board tests in `src/board.rs`, proved on the model:
    two seven-move games (with and without capture), the key round trip on
    the boards of a short game, the relative scores, and `from_seeds` on a
    decoded key. */
module KalahExamples {
  import opened Basics
  import opened Sowing
  import opened Kalah
  import opened CompactKey

  /** The seeds of a six-pit row, added up. */
  lemma SumOfRow(a: nat, b: nat, c: nat, d: nat, e: nat, f: nat)
    ensures Sum([a, b, c, d, e, f]) == a + b + c + d + e + f
  {
    assert [a, b, c, d, e, f][1..] == [b, c, d, e, f];
    assert [b, c, d, e, f][1..] == [c, d, e, f];
    assert [c, d, e, f][1..] == [d, e, f];
    assert [d, e, f][1..] == [e, f];
    assert [e, f][1..] == [f];
    assert [f][1..] == [];
    assert Sum([f]) == f;
    assert Sum([e, f]) == e + f;
    assert Sum([d, e, f]) == d + e + f;
    assert Sum([c, d, e, f]) == c + d + e + f;
    assert Sum([b, c, d, e, f]) == b + c + d + e + f;
  }

  /** Move 1 of `sow_with_stealing`. */
  lemma StealingMove1()
    ensures Sow(Board(First, true, Pits([4, 4, 4, 4, 4, 4], [4, 4, 4, 4, 4, 4], 0, 0)), 2)
            == Board(First, true, Pits([4, 4, 0, 5, 5, 5], [4, 4, 4, 4, 4, 4], 1, 0))
  {
    assert Lifted(Board(First, true, Pits([4, 4, 4, 4, 4, 4], [4, 4, 4, 4, 4, 4], 0, 0)), 2) == Pits([4, 4, 0, 4, 4, 4], [4, 4, 4, 4, 4, 4], 0, 0);
    assert IncRange([4, 4, 0, 4, 4, 4], 3, 6) == [4, 4, 0, 5, 5, 5];
    assert MoveSeed(Pits([4, 4, 0, 4, 4, 4], [4, 4, 4, 4, 4, 4], 0, 0), First, First, 3, 4) == Landing(Pits([4, 4, 0, 5, 5, 5], [4, 4, 4, 4, 4, 4], 1, 0), First, 6);
    assert SowLanding(Board(First, true, Pits([4, 4, 4, 4, 4, 4], [4, 4, 4, 4, 4, 4], 0, 0)), 2) == Landing(Pits([4, 4, 0, 5, 5, 5], [4, 4, 4, 4, 4, 4], 1, 0), First, 6);
    assert Pits([4, 4, 0, 5, 5, 5], [4, 4, 4, 4, 4, 4], 1, 0).first[0] != 0;
    assert Pits([4, 4, 0, 5, 5, 5], [4, 4, 4, 4, 4, 4], 1, 0).second[0] != 0;
  }

  /** Move 2 of `sow_with_stealing`. */
  lemma StealingMove2()
    ensures Sow(Board(First, true, Pits([4, 4, 0, 5, 5, 5], [4, 4, 4, 4, 4, 4], 1, 0)), 5)
            == Board(Second, true, Pits([4, 4, 0, 5, 5, 0], [5, 5, 5, 5, 4, 4], 2, 0))
  {
    assert Lifted(Board(First, true, Pits([4, 4, 0, 5, 5, 5], [4, 4, 4, 4, 4, 4], 1, 0)), 5) == Pits([4, 4, 0, 5, 5, 0], [4, 4, 4, 4, 4, 4], 1, 0);
    assert IncRange([4, 4, 0, 5, 5, 0], 6, 6) == [4, 4, 0, 5, 5, 0];
    assert MoveSeed(Pits([4, 4, 0, 5, 5, 0], [4, 4, 4, 4, 4, 4], 1, 0), First, First, 6, 5) == MoveSeed(Pits([4, 4, 0, 5, 5, 0], [4, 4, 4, 4, 4, 4], 2, 0), First, Second, 0, 4);
    assert IncRange([4, 4, 4, 4, 4, 4], 0, 4) == [5, 5, 5, 5, 4, 4];
    assert MoveSeed(Pits([4, 4, 0, 5, 5, 0], [4, 4, 4, 4, 4, 4], 2, 0), First, Second, 0, 4) == Landing(Pits([4, 4, 0, 5, 5, 0], [5, 5, 5, 5, 4, 4], 2, 0), Second, 3);
    assert SowLanding(Board(First, true, Pits([4, 4, 0, 5, 5, 5], [4, 4, 4, 4, 4, 4], 1, 0)), 5) == Landing(Pits([4, 4, 0, 5, 5, 0], [5, 5, 5, 5, 4, 4], 2, 0), Second, 3);
  }

  /** Move 3 of `sow_with_stealing`. */
  lemma StealingMove3()
    ensures Sow(Board(Second, true, Pits([4, 4, 0, 5, 5, 0], [5, 5, 5, 5, 4, 4], 2, 0)), 1)
            == Board(Second, true, Pits([4, 4, 0, 5, 5, 0], [5, 0, 6, 6, 5, 5], 2, 1))
  {
    assert Lifted(Board(Second, true, Pits([4, 4, 0, 5, 5, 0], [5, 5, 5, 5, 4, 4], 2, 0)), 1) == Pits([4, 4, 0, 5, 5, 0], [5, 0, 5, 5, 4, 4], 2, 0);
    assert IncRange([5, 0, 5, 5, 4, 4], 2, 6) == [5, 0, 6, 6, 5, 5];
    assert MoveSeed(Pits([4, 4, 0, 5, 5, 0], [5, 0, 5, 5, 4, 4], 2, 0), Second, Second, 2, 5) == Landing(Pits([4, 4, 0, 5, 5, 0], [5, 0, 6, 6, 5, 5], 2, 1), Second, 6);
    assert SowLanding(Board(Second, true, Pits([4, 4, 0, 5, 5, 0], [5, 5, 5, 5, 4, 4], 2, 0)), 1) == Landing(Pits([4, 4, 0, 5, 5, 0], [5, 0, 6, 6, 5, 5], 2, 1), Second, 6);
    assert Pits([4, 4, 0, 5, 5, 0], [5, 0, 6, 6, 5, 5], 2, 1).first[0] != 0;
    assert Pits([4, 4, 0, 5, 5, 0], [5, 0, 6, 6, 5, 5], 2, 1).second[0] != 0;
  }

  /** Move 4 of `sow_with_stealing`. */
  lemma StealingMove4()
    ensures Sow(Board(Second, true, Pits([4, 4, 0, 5, 5, 0], [5, 0, 6, 6, 5, 5], 2, 1)), 5)
            == Board(First, true, Pits([5, 5, 1, 6, 5, 0], [5, 0, 6, 6, 5, 0], 2, 2))
  {
    assert Lifted(Board(Second, true, Pits([4, 4, 0, 5, 5, 0], [5, 0, 6, 6, 5, 5], 2, 1)), 5) == Pits([4, 4, 0, 5, 5, 0], [5, 0, 6, 6, 5, 0], 2, 1);
    assert IncRange([5, 0, 6, 6, 5, 0], 6, 6) == [5, 0, 6, 6, 5, 0];
    assert MoveSeed(Pits([4, 4, 0, 5, 5, 0], [5, 0, 6, 6, 5, 0], 2, 1), Second, Second, 6, 5) == MoveSeed(Pits([4, 4, 0, 5, 5, 0], [5, 0, 6, 6, 5, 0], 2, 2), Second, First, 0, 4);
    assert IncRange([4, 4, 0, 5, 5, 0], 0, 4) == [5, 5, 1, 6, 5, 0];
    assert MoveSeed(Pits([4, 4, 0, 5, 5, 0], [5, 0, 6, 6, 5, 0], 2, 2), Second, First, 0, 4) == Landing(Pits([5, 5, 1, 6, 5, 0], [5, 0, 6, 6, 5, 0], 2, 2), First, 3);
    assert SowLanding(Board(Second, true, Pits([4, 4, 0, 5, 5, 0], [5, 0, 6, 6, 5, 5], 2, 1)), 5) == Landing(Pits([5, 5, 1, 6, 5, 0], [5, 0, 6, 6, 5, 0], 2, 2), First, 3);
  }

  /** Move 5 of `sow_with_stealing`. */
  lemma StealingMove5()
    ensures Sow(Board(First, true, Pits([5, 5, 1, 6, 5, 0], [5, 0, 6, 6, 5, 0], 2, 2)), 1)
            == Board(First, true, Pits([5, 0, 2, 7, 6, 1], [5, 0, 6, 6, 5, 0], 3, 2))
  {
    assert Lifted(Board(First, true, Pits([5, 5, 1, 6, 5, 0], [5, 0, 6, 6, 5, 0], 2, 2)), 1) == Pits([5, 0, 1, 6, 5, 0], [5, 0, 6, 6, 5, 0], 2, 2);
    assert IncRange([5, 0, 1, 6, 5, 0], 2, 6) == [5, 0, 2, 7, 6, 1];
    assert MoveSeed(Pits([5, 0, 1, 6, 5, 0], [5, 0, 6, 6, 5, 0], 2, 2), First, First, 2, 5) == Landing(Pits([5, 0, 2, 7, 6, 1], [5, 0, 6, 6, 5, 0], 3, 2), First, 6);
    assert SowLanding(Board(First, true, Pits([5, 5, 1, 6, 5, 0], [5, 0, 6, 6, 5, 0], 2, 2)), 1) == Landing(Pits([5, 0, 2, 7, 6, 1], [5, 0, 6, 6, 5, 0], 3, 2), First, 6);
    assert Pits([5, 0, 2, 7, 6, 1], [5, 0, 6, 6, 5, 0], 3, 2).first[0] != 0;
    assert Pits([5, 0, 2, 7, 6, 1], [5, 0, 6, 6, 5, 0], 3, 2).second[0] != 0;
  }

  /** Move 6 of `sow_with_stealing`. */
  lemma StealingMove6()
    ensures Sow(Board(First, true, Pits([5, 0, 2, 7, 6, 1], [5, 0, 6, 6, 5, 0], 3, 2)), 5)
            == Board(First, true, Pits([5, 0, 2, 7, 6, 0], [5, 0, 6, 6, 5, 0], 4, 2))
  {
    assert Lifted(Board(First, true, Pits([5, 0, 2, 7, 6, 1], [5, 0, 6, 6, 5, 0], 3, 2)), 5) == Pits([5, 0, 2, 7, 6, 0], [5, 0, 6, 6, 5, 0], 3, 2);
    assert IncRange([5, 0, 2, 7, 6, 0], 6, 6) == [5, 0, 2, 7, 6, 0];
    assert MoveSeed(Pits([5, 0, 2, 7, 6, 0], [5, 0, 6, 6, 5, 0], 3, 2), First, First, 6, 1) == Landing(Pits([5, 0, 2, 7, 6, 0], [5, 0, 6, 6, 5, 0], 4, 2), First, 6);
    assert SowLanding(Board(First, true, Pits([5, 0, 2, 7, 6, 1], [5, 0, 6, 6, 5, 0], 3, 2)), 5) == Landing(Pits([5, 0, 2, 7, 6, 0], [5, 0, 6, 6, 5, 0], 4, 2), First, 6);
    assert Pits([5, 0, 2, 7, 6, 0], [5, 0, 6, 6, 5, 0], 4, 2).first[0] != 0;
    assert Pits([5, 0, 2, 7, 6, 0], [5, 0, 6, 6, 5, 0], 4, 2).second[0] != 0;
  }

  /** Move 7 of `sow_with_stealing`. */
  lemma StealingMove7()
    ensures Sow(Board(First, true, Pits([5, 0, 2, 7, 6, 0], [5, 0, 6, 6, 5, 0], 4, 2)), 0)
            == Board(Second, true, Pits([0, 1, 3, 8, 7, 0], [0, 0, 6, 6, 5, 0], 10, 2))
  {
    assert Lifted(Board(First, true, Pits([5, 0, 2, 7, 6, 0], [5, 0, 6, 6, 5, 0], 4, 2)), 0) == Pits([0, 0, 2, 7, 6, 0], [5, 0, 6, 6, 5, 0], 4, 2);
    assert IncRange([0, 0, 2, 7, 6, 0], 1, 6) == [0, 1, 3, 8, 7, 1];
    assert MoveSeed(Pits([0, 0, 2, 7, 6, 0], [5, 0, 6, 6, 5, 0], 4, 2), First, First, 1, 5) == Landing(Pits([0, 1, 3, 8, 7, 1], [5, 0, 6, 6, 5, 0], 4, 2), First, 5);
    assert SowLanding(Board(First, true, Pits([5, 0, 2, 7, 6, 0], [5, 0, 6, 6, 5, 0], 4, 2)), 0) == Landing(Pits([0, 1, 3, 8, 7, 1], [5, 0, 6, 6, 5, 0], 4, 2), First, 5);
    assert Capture(Pits([0, 1, 3, 8, 7, 1], [5, 0, 6, 6, 5, 0], 4, 2), First, 5) == Pits([0, 1, 3, 8, 7, 0], [0, 0, 6, 6, 5, 0], 10, 2);
  }

  /** The totals of the last board of `sow_with_stealing`. */
  lemma StealingFinalTotals()
    ensures Board(Second, true, Pits([0, 1, 3, 8, 7, 0], [0, 0, 6, 6, 5, 0], 10, 2)).LastScores() == (29, 19)
  {
    SumOfRow(0, 1, 3, 8, 7, 0);
    SumOfRow(0, 0, 6, 6, 5, 0);
  }

  /** The game of `sow_with_stealing`: the side to move and the stores after every move, and the final totals. */
  lemma StealingGame()
    ensures var b0 := New(true);
      var b1 := Sow(b0, 2);
      var b2 := Sow(b1, 5);
      var b3 := Sow(b2, 1);
      var b4 := Sow(b3, 5);
      var b5 := Sow(b4, 1);
      var b6 := Sow(b5, 5);
      var b7 := Sow(b6, 0);
      && b1.side == First && b1.Scores() == (1, 0)
      && b2.side == Second && b2.Scores() == (2, 0)
      && b3.side == Second && b3.Scores() == (2, 1)
      && b4.side == First && b4.Scores() == (2, 2)
      && b5.side == First && b5.Scores() == (3, 2)
      && b6.side == First && b6.Scores() == (4, 2)
      && b7.side == Second && b7.Scores() == (10, 2)
      && b7.LastScores() == (29, 19)
  {
    assert New(true) == Board(First, true, Pits([4, 4, 4, 4, 4, 4], [4, 4, 4, 4, 4, 4], 0, 0));
    StealingMove1();
    StealingMove2();
    StealingMove3();
    StealingMove4();
    StealingMove5();
    StealingMove6();
    StealingMove7();
    StealingFinalTotals();
  }

  /** Move 1 of `sow_no_stealing`. */
  lemma NoStealingMove1()
    ensures Sow(Board(First, false, Pits([4, 4, 4, 4, 4, 4], [4, 4, 4, 4, 4, 4], 0, 0)), 2)
            == Board(First, false, Pits([4, 4, 0, 5, 5, 5], [4, 4, 4, 4, 4, 4], 1, 0))
  {
    assert Lifted(Board(First, false, Pits([4, 4, 4, 4, 4, 4], [4, 4, 4, 4, 4, 4], 0, 0)), 2) == Pits([4, 4, 0, 4, 4, 4], [4, 4, 4, 4, 4, 4], 0, 0);
    assert IncRange([4, 4, 0, 4, 4, 4], 3, 6) == [4, 4, 0, 5, 5, 5];
    assert MoveSeed(Pits([4, 4, 0, 4, 4, 4], [4, 4, 4, 4, 4, 4], 0, 0), First, First, 3, 4) == Landing(Pits([4, 4, 0, 5, 5, 5], [4, 4, 4, 4, 4, 4], 1, 0), First, 6);
    assert SowLanding(Board(First, false, Pits([4, 4, 4, 4, 4, 4], [4, 4, 4, 4, 4, 4], 0, 0)), 2) == Landing(Pits([4, 4, 0, 5, 5, 5], [4, 4, 4, 4, 4, 4], 1, 0), First, 6);
    assert Pits([4, 4, 0, 5, 5, 5], [4, 4, 4, 4, 4, 4], 1, 0).first[0] != 0;
    assert Pits([4, 4, 0, 5, 5, 5], [4, 4, 4, 4, 4, 4], 1, 0).second[0] != 0;
  }

  /** Move 2 of `sow_no_stealing`. */
  lemma NoStealingMove2()
    ensures Sow(Board(First, false, Pits([4, 4, 0, 5, 5, 5], [4, 4, 4, 4, 4, 4], 1, 0)), 5)
            == Board(Second, false, Pits([4, 4, 0, 5, 5, 0], [5, 5, 5, 5, 4, 4], 2, 0))
  {
    assert Lifted(Board(First, false, Pits([4, 4, 0, 5, 5, 5], [4, 4, 4, 4, 4, 4], 1, 0)), 5) == Pits([4, 4, 0, 5, 5, 0], [4, 4, 4, 4, 4, 4], 1, 0);
    assert IncRange([4, 4, 0, 5, 5, 0], 6, 6) == [4, 4, 0, 5, 5, 0];
    assert MoveSeed(Pits([4, 4, 0, 5, 5, 0], [4, 4, 4, 4, 4, 4], 1, 0), First, First, 6, 5) == MoveSeed(Pits([4, 4, 0, 5, 5, 0], [4, 4, 4, 4, 4, 4], 2, 0), First, Second, 0, 4);
    assert IncRange([4, 4, 4, 4, 4, 4], 0, 4) == [5, 5, 5, 5, 4, 4];
    assert MoveSeed(Pits([4, 4, 0, 5, 5, 0], [4, 4, 4, 4, 4, 4], 2, 0), First, Second, 0, 4) == Landing(Pits([4, 4, 0, 5, 5, 0], [5, 5, 5, 5, 4, 4], 2, 0), Second, 3);
    assert SowLanding(Board(First, false, Pits([4, 4, 0, 5, 5, 5], [4, 4, 4, 4, 4, 4], 1, 0)), 5) == Landing(Pits([4, 4, 0, 5, 5, 0], [5, 5, 5, 5, 4, 4], 2, 0), Second, 3);
  }

  /** Move 3 of `sow_no_stealing`. */
  lemma NoStealingMove3()
    ensures Sow(Board(Second, false, Pits([4, 4, 0, 5, 5, 0], [5, 5, 5, 5, 4, 4], 2, 0)), 1)
            == Board(Second, false, Pits([4, 4, 0, 5, 5, 0], [5, 0, 6, 6, 5, 5], 2, 1))
  {
    assert Lifted(Board(Second, false, Pits([4, 4, 0, 5, 5, 0], [5, 5, 5, 5, 4, 4], 2, 0)), 1) == Pits([4, 4, 0, 5, 5, 0], [5, 0, 5, 5, 4, 4], 2, 0);
    assert IncRange([5, 0, 5, 5, 4, 4], 2, 6) == [5, 0, 6, 6, 5, 5];
    assert MoveSeed(Pits([4, 4, 0, 5, 5, 0], [5, 0, 5, 5, 4, 4], 2, 0), Second, Second, 2, 5) == Landing(Pits([4, 4, 0, 5, 5, 0], [5, 0, 6, 6, 5, 5], 2, 1), Second, 6);
    assert SowLanding(Board(Second, false, Pits([4, 4, 0, 5, 5, 0], [5, 5, 5, 5, 4, 4], 2, 0)), 1) == Landing(Pits([4, 4, 0, 5, 5, 0], [5, 0, 6, 6, 5, 5], 2, 1), Second, 6);
    assert Pits([4, 4, 0, 5, 5, 0], [5, 0, 6, 6, 5, 5], 2, 1).first[0] != 0;
    assert Pits([4, 4, 0, 5, 5, 0], [5, 0, 6, 6, 5, 5], 2, 1).second[0] != 0;
  }

  /** Move 4 of `sow_no_stealing`. */
  lemma NoStealingMove4()
    ensures Sow(Board(Second, false, Pits([4, 4, 0, 5, 5, 0], [5, 0, 6, 6, 5, 5], 2, 1)), 5)
            == Board(First, false, Pits([5, 5, 1, 6, 5, 0], [5, 0, 6, 6, 5, 0], 2, 2))
  {
    assert Lifted(Board(Second, false, Pits([4, 4, 0, 5, 5, 0], [5, 0, 6, 6, 5, 5], 2, 1)), 5) == Pits([4, 4, 0, 5, 5, 0], [5, 0, 6, 6, 5, 0], 2, 1);
    assert IncRange([5, 0, 6, 6, 5, 0], 6, 6) == [5, 0, 6, 6, 5, 0];
    assert MoveSeed(Pits([4, 4, 0, 5, 5, 0], [5, 0, 6, 6, 5, 0], 2, 1), Second, Second, 6, 5) == MoveSeed(Pits([4, 4, 0, 5, 5, 0], [5, 0, 6, 6, 5, 0], 2, 2), Second, First, 0, 4);
    assert IncRange([4, 4, 0, 5, 5, 0], 0, 4) == [5, 5, 1, 6, 5, 0];
    assert MoveSeed(Pits([4, 4, 0, 5, 5, 0], [5, 0, 6, 6, 5, 0], 2, 2), Second, First, 0, 4) == Landing(Pits([5, 5, 1, 6, 5, 0], [5, 0, 6, 6, 5, 0], 2, 2), First, 3);
    assert SowLanding(Board(Second, false, Pits([4, 4, 0, 5, 5, 0], [5, 0, 6, 6, 5, 5], 2, 1)), 5) == Landing(Pits([5, 5, 1, 6, 5, 0], [5, 0, 6, 6, 5, 0], 2, 2), First, 3);
  }

  /** Move 5 of `sow_no_stealing`. */
  lemma NoStealingMove5()
    ensures Sow(Board(First, false, Pits([5, 5, 1, 6, 5, 0], [5, 0, 6, 6, 5, 0], 2, 2)), 1)
            == Board(First, false, Pits([5, 0, 2, 7, 6, 1], [5, 0, 6, 6, 5, 0], 3, 2))
  {
    assert Lifted(Board(First, false, Pits([5, 5, 1, 6, 5, 0], [5, 0, 6, 6, 5, 0], 2, 2)), 1) == Pits([5, 0, 1, 6, 5, 0], [5, 0, 6, 6, 5, 0], 2, 2);
    assert IncRange([5, 0, 1, 6, 5, 0], 2, 6) == [5, 0, 2, 7, 6, 1];
    assert MoveSeed(Pits([5, 0, 1, 6, 5, 0], [5, 0, 6, 6, 5, 0], 2, 2), First, First, 2, 5) == Landing(Pits([5, 0, 2, 7, 6, 1], [5, 0, 6, 6, 5, 0], 3, 2), First, 6);
    assert SowLanding(Board(First, false, Pits([5, 5, 1, 6, 5, 0], [5, 0, 6, 6, 5, 0], 2, 2)), 1) == Landing(Pits([5, 0, 2, 7, 6, 1], [5, 0, 6, 6, 5, 0], 3, 2), First, 6);
    assert Pits([5, 0, 2, 7, 6, 1], [5, 0, 6, 6, 5, 0], 3, 2).first[0] != 0;
    assert Pits([5, 0, 2, 7, 6, 1], [5, 0, 6, 6, 5, 0], 3, 2).second[0] != 0;
  }

  /** Move 6 of `sow_no_stealing`. */
  lemma NoStealingMove6()
    ensures Sow(Board(First, false, Pits([5, 0, 2, 7, 6, 1], [5, 0, 6, 6, 5, 0], 3, 2)), 5)
            == Board(First, false, Pits([5, 0, 2, 7, 6, 0], [5, 0, 6, 6, 5, 0], 4, 2))
  {
    assert Lifted(Board(First, false, Pits([5, 0, 2, 7, 6, 1], [5, 0, 6, 6, 5, 0], 3, 2)), 5) == Pits([5, 0, 2, 7, 6, 0], [5, 0, 6, 6, 5, 0], 3, 2);
    assert IncRange([5, 0, 2, 7, 6, 0], 6, 6) == [5, 0, 2, 7, 6, 0];
    assert MoveSeed(Pits([5, 0, 2, 7, 6, 0], [5, 0, 6, 6, 5, 0], 3, 2), First, First, 6, 1) == Landing(Pits([5, 0, 2, 7, 6, 0], [5, 0, 6, 6, 5, 0], 4, 2), First, 6);
    assert SowLanding(Board(First, false, Pits([5, 0, 2, 7, 6, 1], [5, 0, 6, 6, 5, 0], 3, 2)), 5) == Landing(Pits([5, 0, 2, 7, 6, 0], [5, 0, 6, 6, 5, 0], 4, 2), First, 6);
    assert Pits([5, 0, 2, 7, 6, 0], [5, 0, 6, 6, 5, 0], 4, 2).first[0] != 0;
    assert Pits([5, 0, 2, 7, 6, 0], [5, 0, 6, 6, 5, 0], 4, 2).second[0] != 0;
  }

  /** Move 7 of `sow_no_stealing`. */
  lemma NoStealingMove7()
    ensures Sow(Board(First, false, Pits([5, 0, 2, 7, 6, 0], [5, 0, 6, 6, 5, 0], 4, 2)), 0)
            == Board(Second, false, Pits([0, 1, 3, 8, 7, 1], [5, 0, 6, 6, 5, 0], 4, 2))
  {
    assert Lifted(Board(First, false, Pits([5, 0, 2, 7, 6, 0], [5, 0, 6, 6, 5, 0], 4, 2)), 0) == Pits([0, 0, 2, 7, 6, 0], [5, 0, 6, 6, 5, 0], 4, 2);
    assert IncRange([0, 0, 2, 7, 6, 0], 1, 6) == [0, 1, 3, 8, 7, 1];
    assert MoveSeed(Pits([0, 0, 2, 7, 6, 0], [5, 0, 6, 6, 5, 0], 4, 2), First, First, 1, 5) == Landing(Pits([0, 1, 3, 8, 7, 1], [5, 0, 6, 6, 5, 0], 4, 2), First, 5);
    assert SowLanding(Board(First, false, Pits([5, 0, 2, 7, 6, 0], [5, 0, 6, 6, 5, 0], 4, 2)), 0) == Landing(Pits([0, 1, 3, 8, 7, 1], [5, 0, 6, 6, 5, 0], 4, 2), First, 5);
  }

  /** The totals of the last board of `sow_no_stealing`. */
  lemma NoStealingFinalTotals()
    ensures Board(Second, false, Pits([0, 1, 3, 8, 7, 1], [5, 0, 6, 6, 5, 0], 4, 2)).LastScores() == (24, 24)
  {
    SumOfRow(0, 1, 3, 8, 7, 1);
    SumOfRow(5, 0, 6, 6, 5, 0);
  }

  /** The game of `sow_no_stealing`: the side to move and the stores after every move, and the final totals. */
  lemma NoStealingGame()
    ensures var b0 := New(false);
      var b1 := Sow(b0, 2);
      var b2 := Sow(b1, 5);
      var b3 := Sow(b2, 1);
      var b4 := Sow(b3, 5);
      var b5 := Sow(b4, 1);
      var b6 := Sow(b5, 5);
      var b7 := Sow(b6, 0);
      && b1.side == First && b1.Scores() == (1, 0)
      && b2.side == Second && b2.Scores() == (2, 0)
      && b3.side == Second && b3.Scores() == (2, 1)
      && b4.side == First && b4.Scores() == (2, 2)
      && b5.side == First && b5.Scores() == (3, 2)
      && b6.side == First && b6.Scores() == (4, 2)
      && b7.side == Second && b7.Scores() == (4, 2)
      && b7.LastScores() == (24, 24)
  {
    assert New(false) == Board(First, false, Pits([4, 4, 4, 4, 4, 4], [4, 4, 4, 4, 4, 4], 0, 0));
    NoStealingMove1();
    NoStealingMove2();
    NoStealingMove3();
    NoStealingMove4();
    NoStealingMove5();
    NoStealingMove6();
    NoStealingMove7();
    NoStealingFinalTotals();
  }

  /** Move 4 of `test_compact_key`; its first three moves are those of
      `sow_no_stealing`. */
  lemma KeyGameMove4()
    ensures Sow(Board(Second, false, Pits([4, 4, 0, 5, 5, 0], [5, 0, 6, 6, 5, 5], 2, 1)), 3)
            == Board(First, false, Pits([5, 5, 1, 5, 5, 0], [5, 0, 6, 0, 6, 6], 2, 2))
  {
    assert Lifted(Board(Second, false, Pits([4, 4, 0, 5, 5, 0], [5, 0, 6, 6, 5, 5], 2, 1)), 3) == Pits([4, 4, 0, 5, 5, 0], [5, 0, 6, 0, 5, 5], 2, 1);
    assert IncRange([5, 0, 6, 0, 5, 5], 4, 6) == [5, 0, 6, 0, 6, 6];
    assert MoveSeed(Pits([4, 4, 0, 5, 5, 0], [5, 0, 6, 0, 5, 5], 2, 1), Second, Second, 4, 6) == MoveSeed(Pits([4, 4, 0, 5, 5, 0], [5, 0, 6, 0, 6, 6], 2, 2), Second, First, 0, 3);
    assert IncRange([4, 4, 0, 5, 5, 0], 0, 3) == [5, 5, 1, 5, 5, 0];
    assert MoveSeed(Pits([4, 4, 0, 5, 5, 0], [5, 0, 6, 0, 6, 6], 2, 2), Second, First, 0, 3) == Landing(Pits([5, 5, 1, 5, 5, 0], [5, 0, 6, 0, 6, 6], 2, 2), First, 2);
    assert SowLanding(Board(Second, false, Pits([4, 4, 0, 5, 5, 0], [5, 0, 6, 6, 5, 5], 2, 1)), 3) == Landing(Pits([5, 5, 1, 5, 5, 0], [5, 0, 6, 0, 6, 6], 2, 2), First, 2);
  }

  /** Move 5 of `test_compact_key`. */
  lemma KeyGameMove5()
    ensures Sow(Board(First, false, Pits([5, 5, 1, 5, 5, 0], [5, 0, 6, 0, 6, 6], 2, 2)), 4)
            == Board(Second, false, Pits([5, 5, 1, 5, 0, 1], [6, 1, 7, 0, 6, 6], 3, 2))
  {
    assert Lifted(Board(First, false, Pits([5, 5, 1, 5, 5, 0], [5, 0, 6, 0, 6, 6], 2, 2)), 4) == Pits([5, 5, 1, 5, 0, 0], [5, 0, 6, 0, 6, 6], 2, 2);
    assert IncRange([5, 5, 1, 5, 0, 0], 5, 6) == [5, 5, 1, 5, 0, 1];
    assert MoveSeed(Pits([5, 5, 1, 5, 0, 0], [5, 0, 6, 0, 6, 6], 2, 2), First, First, 5, 5) == MoveSeed(Pits([5, 5, 1, 5, 0, 1], [5, 0, 6, 0, 6, 6], 3, 2), First, Second, 0, 3);
    assert IncRange([5, 0, 6, 0, 6, 6], 0, 3) == [6, 1, 7, 0, 6, 6];
    assert MoveSeed(Pits([5, 5, 1, 5, 0, 1], [5, 0, 6, 0, 6, 6], 3, 2), First, Second, 0, 3) == Landing(Pits([5, 5, 1, 5, 0, 1], [6, 1, 7, 0, 6, 6], 3, 2), Second, 2);
    assert SowLanding(Board(First, false, Pits([5, 5, 1, 5, 5, 0], [5, 0, 6, 0, 6, 6], 2, 2)), 4) == Landing(Pits([5, 5, 1, 5, 0, 1], [6, 1, 7, 0, 6, 6], 3, 2), Second, 2);
  }

  /** `test_compact_key`: the key of every board of its game decodes to the
      row of the side to move followed by the opponent's. */
  lemma KeyGameRoundTrips()
    ensures forall b :: b in KeyGameBoards() ==> FromKey(Key(b)) == b.SelfSeeds() + b.OppositeSeeds()
  {
    forall b | b in KeyGameBoards()
      ensures FromKey(Key(b)) == b.SelfSeeds() + b.OppositeSeeds()
    {
      KeyRoundTrip(b);
    }
  }

  /** The boards of the game of `test_compact_key`. */
  function KeyGameBoards(): (r: seq<Board>)
    ensures forall b :: b in r ==> b.Valid() && Small(b)
  {
    [Board(First, false, Pits([4, 4, 4, 4, 4, 4], [4, 4, 4, 4, 4, 4], 0, 0)),
     Board(First, false, Pits([4, 4, 0, 5, 5, 5], [4, 4, 4, 4, 4, 4], 1, 0)),
     Board(Second, false, Pits([4, 4, 0, 5, 5, 0], [5, 5, 5, 5, 4, 4], 2, 0)),
     Board(Second, false, Pits([4, 4, 0, 5, 5, 0], [5, 0, 6, 6, 5, 5], 2, 1)),
     Board(First, false, Pits([5, 5, 1, 5, 5, 0], [5, 0, 6, 0, 6, 6], 2, 2)),
     Board(Second, false, Pits([5, 5, 1, 5, 0, 1], [6, 1, 7, 0, 6, 6], 3, 2))]
  }

  /** The game of `test_compact_key` passes through `KeyGameBoards()`. */
  lemma KeyGame()
    ensures var b0 := New(false);
      var b1 := Sow(b0, 2);
      var b2 := Sow(b1, 5);
      var b3 := Sow(b2, 1);
      var b4 := Sow(b3, 3);
      var b5 := Sow(b4, 4);
      [b0, b1, b2, b3, b4, b5] == KeyGameBoards()
  {
    assert New(false) == Board(First, false, Pits([4, 4, 4, 4, 4, 4], [4, 4, 4, 4, 4, 4], 0, 0));
    NoStealingMove1();
    NoStealingMove2();
    NoStealingMove3();
    KeyGameMove4();
    KeyGameMove5();
  }

  /** `test_score`: the banked-score differences over the first two moves
      of the capture game, and the boards they reach (whose final-score
      differences `OpeningLastScores` gives). */
  lemma ScoreAfterTwoMoves()
    ensures var b0 := New(true);
      var b1 := Sow(b0, 2);
      var b2 := Sow(b1, 5);
      && b0 == Board(First, true, Pits([4, 4, 4, 4, 4, 4], [4, 4, 4, 4, 4, 4], 0, 0)) && b0.Score() == 0
      && b1 == Board(First, true, Pits([4, 4, 0, 5, 5, 5], [4, 4, 4, 4, 4, 4], 1, 0)) && b1.Score() == 1
      && b2 == Board(Second, true, Pits([4, 4, 0, 5, 5, 0], [5, 5, 5, 5, 4, 4], 2, 0)) && b2.Score() == -2
  {
    assert New(true) == Board(First, true, Pits([4, 4, 4, 4, 4, 4], [4, 4, 4, 4, 4, 4], 0, 0));
    StealingMove1();
    StealingMove2();
  }

  /** The end-of-game totals of the first three boards of the capture
      game. */
  lemma OpeningTotals()
    ensures Board(First, true, Pits([4, 4, 4, 4, 4, 4], [4, 4, 4, 4, 4, 4], 0, 0)).LastScores() == (24, 24)
    ensures Board(First, true, Pits([4, 4, 0, 5, 5, 5], [4, 4, 4, 4, 4, 4], 1, 0)).LastScores() == (24, 24)
    ensures Board(Second, true, Pits([4, 4, 0, 5, 5, 0], [5, 5, 5, 5, 4, 4], 2, 0)).LastScores() == (20, 28)
  {
    SumOfRow(4, 4, 4, 4, 4, 4);
    SumOfRow(4, 4, 4, 4, 4, 4);
    SumOfRow(4, 4, 0, 5, 5, 5);
    SumOfRow(4, 4, 4, 4, 4, 4);
    SumOfRow(4, 4, 0, 5, 5, 0);
    SumOfRow(5, 5, 5, 5, 4, 4);
  }

  /** The final-score differences on the first three boards of the capture
      game. */
  lemma OpeningLastScores()
    ensures Board(First, true, Pits([4, 4, 4, 4, 4, 4], [4, 4, 4, 4, 4, 4], 0, 0)).LastScore() == 0
    ensures Board(First, true, Pits([4, 4, 0, 5, 5, 5], [4, 4, 4, 4, 4, 4], 1, 0)).LastScore() == 0
    ensures Board(Second, true, Pits([4, 4, 0, 5, 5, 0], [5, 5, 5, 5, 4, 4], 2, 0)).LastScore() == (5 - 1) * 2
  {
    OpeningTotals();
  }

  /** `from_seeds`: rebuilding a board from the decoded key of the board
      two moves into the capture game (see `ScoreAfterTwoMoves`) keeps both
      rows as seen by the side to move. */
  lemma FromSeedsAfterTwoMoves()
    ensures var c := FromSeeds(true, FromKey(Key(Board(Second, true, Pits([4, 4, 0, 5, 5, 0], [5, 5, 5, 5, 4, 4], 2, 0)))));
      c.SelfSeeds() == Board(Second, true, Pits([4, 4, 0, 5, 5, 0], [5, 5, 5, 5, 4, 4], 2, 0)).SelfSeeds() && c.OppositeSeeds() == Board(Second, true, Pits([4, 4, 0, 5, 5, 0], [5, 5, 5, 5, 4, 4], 2, 0)).OppositeSeeds()
  {
    FromSeedsOfKey(Board(Second, true, Pits([4, 4, 0, 5, 5, 0], [5, 5, 5, 5, 4, 4], 2, 0)), true);
  }
}
