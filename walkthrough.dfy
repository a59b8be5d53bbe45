/**
 * A worked session: from the initial fill, play once, reserve four times (the fourth is
 * rejected because the stack already holds three pieces) and use the reserved top.
 */
module Walkthrough {
  import opened Pieces
  import opened Generators
  import opened Flow

  const I1 := Piece('I', 1)
  const O2 := Piece('O', 2)
  const T3 := Piece('T', 3)
  const L4 := Piece('L', 4)
  const J5 := Piece('J', 5)
  const S6 := Piece('S', 6)
  const Z7 := Piece('Z', 7)
  const I8 := Piece('I', 8)
  const O9 := Piece('O', 9)

  /** The states between the commands of the session. */
  const Filled := State([I1, O2, T3, L4, J5], [], Gen(6, 5))
  const AfterPlay := State([O2, T3, L4, J5, S6], [], Gen(7, 6))
  const AfterReserve1 := State([T3, L4, J5, S6, Z7], [O2], Gen(8, 0))
  const AfterReserve2 := State([L4, J5, S6, Z7, I8], [O2, T3], Gen(9, 1))
  const AfterReserve3 := State([J5, S6, Z7, I8, O9], [O2, T3, L4], Gen(10, 2))
  const AfterUse := State([J5, S6, Z7, I8, O9], [O2, T3], Gen(10, 2))

  /** The initial fill hands out I#1, O#2, T#3, L#4, J#5. */
  lemma FillGivesFirstFive()
    ensures Initial() == Filled
  {
    FirstSeven();
    GeneratedSplit(Start, 5, 2);
  }

  lemma PlayTakesFront()
    ensures Step(Filled, 1) == (AfterPlay, Played(I1, true))
  {
    assert Filled.gen.Current() == S6 && Filled.gen.Next() == AfterPlay.gen;
    assert Filled.queue[1..] + [S6] == AfterPlay.queue;
  }

  lemma FirstReserve()
    ensures Step(AfterPlay, 2) == (AfterReserve1, Reserved(O2, true))
  {
    assert AfterPlay.gen.Current() == Z7 && AfterPlay.gen.Next() == AfterReserve1.gen;
    assert AfterPlay.queue[1..] + [Z7] == AfterReserve1.queue;
    assert AfterPlay.stack + [O2] == AfterReserve1.stack;
  }

  lemma SecondReserve()
    ensures Step(AfterReserve1, 2) == (AfterReserve2, Reserved(T3, true))
  {
    assert AfterReserve1.gen.Current() == I8 && AfterReserve1.gen.Next() == AfterReserve2.gen;
    assert AfterReserve1.queue[1..] + [I8] == AfterReserve2.queue;
    assert AfterReserve1.stack + [T3] == AfterReserve2.stack;
  }

  lemma ThirdReserve()
    ensures Step(AfterReserve2, 2) == (AfterReserve3, Reserved(L4, true))
  {
    assert AfterReserve2.gen.Current() == O9 && AfterReserve2.gen.Next() == AfterReserve3.gen;
    assert AfterReserve2.queue[1..] + [O9] == AfterReserve3.queue;
    assert AfterReserve2.stack + [L4] == AfterReserve3.stack;
  }

  /** A fourth reserve is rejected and leaves the front of the queue at J#5; then L#4 is used. */
  lemma RejectThenUse()
    ensures Step(AfterReserve3, 2) == (AfterReserve3, StackFull)
    ensures Step(AfterReserve3, 3) == (AfterUse, Used(L4))
  {
    assert AfterReserve3.stack[..2] == AfterUse.stack;
  }

  /** The last three commands: the rejected reserve and the use of L#4. */
  lemma RunRejectThenUse()
    ensures Run(AfterReserve3, [2, 3]) == (AfterUse, [StackFull, Used(L4)])
  {
    RejectThenUse();
    assert [3] + [] == [3] && [2] + [3] == [2, 3];
    assert Run(AfterUse, []) == (AfterUse, []) && [Used(L4)] + [] == [Used(L4)];
    RunCons(AfterReserve3, 3, []);
    RunCons(AfterReserve3, 2, [3]);
    assert [StackFull] + [Used(L4)] == [StackFull, Used(L4)];
  }

  /** The four reserves and the use, after the play. */
  lemma RunReservesThenUse()
    ensures Run(AfterPlay, [2, 2, 2, 2, 3]) ==
      (AfterUse, [Reserved(O2, true), Reserved(T3, true), Reserved(L4, true), StackFull, Used(L4)])
  {
    RunRejectThenUse();
    FirstReserve();
    SecondReserve();
    ThirdReserve();
    assert [2] + [2, 3] == [2, 2, 3] && [2] + [2, 2, 3] == [2, 2, 2, 3];
    assert [2] + [2, 2, 2, 3] == [2, 2, 2, 2, 3];
    RunCons(AfterReserve2, 2, [2, 3]);
    RunCons(AfterReserve1, 2, [2, 2, 3]);
    RunCons(AfterPlay, 2, [2, 2, 2, 3]);
    var tail := [StackFull, Used(L4)];
    assert [Reserved(L4, true)] + tail == [Reserved(L4, true), StackFull, Used(L4)];
    assert [Reserved(T3, true)] + ([Reserved(L4, true)] + tail) ==
      [Reserved(T3, true), Reserved(L4, true), StackFull, Used(L4)];
    assert [Reserved(O2, true)] + ([Reserved(T3, true)] + ([Reserved(L4, true)] + tail)) ==
      [Reserved(O2, true), Reserved(T3, true), Reserved(L4, true), StackFull, Used(L4)];
  }

  /** The whole session from the filled queue (which is `Initial()`, by FillGivesFirstFive). */
  lemma ExampleSession()
    ensures Run(Filled, [1, 2, 2, 2, 2, 3]) ==
      (AfterUse, [Played(I1, true), Reserved(O2, true), Reserved(T3, true), Reserved(L4, true),
                  StackFull, Used(L4)])
  {
    PlayTakesFront();
    RunReservesThenUse();
    assert [1] + [2, 2, 2, 2, 3] == [1, 2, 2, 2, 2, 3];
    RunCons(Filled, 1, [2, 2, 2, 2, 3]);
    var rest := [Reserved(O2, true), Reserved(T3, true), Reserved(L4, true), StackFull, Used(L4)];
    assert [Played(I1, true)] + rest == [Played(I1, true), Reserved(O2, true), Reserved(T3, true),
      Reserved(L4, true), StackFull, Used(L4)];
  }

  /** The same session from program start. */
  lemma SessionFromStart()
    ensures Run(Initial(), [1, 2, 2, 2, 2, 3]) == Run(Filled, [1, 2, 2, 2, 2, 3])
  {
    FillGivesFirstFive();
  }
}
