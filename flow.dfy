/**
 * The piece-flow controller as a function on values: the queue (head to tail), the reserve
 * stack (base to top) and the generator, and what each menu command does to them.
 * Commands are the menu's integers: 1 play, 2 reserve, 3 use a reserved piece, 0 exit;
 * any other integer is an unknown option.
 */
module Flow {
  import opened Pieces
  import opened Generators

  datatype State = State(queue: seq<Piece>, stack: seq<Piece>, gen: Gen)

  /** What a command reports; each constructor is one of the messages of the menu loop. */
  datatype Outcome =
    | Played(piece: Piece, refilled: bool)
    | Reserved(piece: Piece, refilled: bool)
    | ReserveFailed(piece: Piece)
    | Used(piece: Piece)
    | QueueEmpty
    | StackFull
    | NothingReserved
    | Quit
    | Unknown

  /** The bounds the two containers enforce by themselves, and a valid shape cursor. */
  predicate WellFormed(s: State) {
    |s.queue| <= QueueCap && |s.stack| <= StackCap && s.gen.Valid()
  }

  /**
   * The invariant the controller keeps: the queue is full, and the pieces read from the stack's
   * base to its top and then from the queue's head to its tail have strictly increasing ids,
   * all below the generator's next id (so no piece is ever duplicated or handed out twice).
   */
  ghost predicate Inv(s: State) {
    WellFormed(s) && |s.queue| == QueueCap &&
    IdsIncreasing(s.stack + s.queue) && IdsBelow(s.stack + s.queue, s.gen.nextId)
  }

  /** The state after the initial fill: five generated pieces, an empty stack. */
  function Initial(): State {
    State(Generated(Start, QueueCap), [], Advance(Start, QueueCap))
  }

  /** Play: take the front of the queue and refill the queue with a new piece. */
  function Play(s: State): (r: (State, Outcome))
    requires WellFormed(s)
    ensures WellFormed(r.0) && r.0.stack == s.stack
    ensures s.queue == [] ==> r == (s, QueueEmpty)
    ensures s.queue != [] ==>
      r.1 == Played(s.queue[0], true) &&
      r.0.queue == s.queue[1..] + [s.gen.Current()] && r.0.gen == s.gen.Next()
  {
    if s.queue == [] then (s, QueueEmpty)
    else
      var played := s.queue[0];
      var rest := s.queue[1..];
      var p := s.gen.Current();
      var refilled := |rest| < QueueCap;
      (State(if refilled then rest + [p] else rest, s.stack, s.gen.Next()), Played(played, refilled))
  }

  /**
   * Reserve: move the front of the queue onto the stack and refill the queue. A full stack
   * is checked first, so a rejected reserve touches neither container.
   */
  function Reserve(s: State): (r: (State, Outcome))
    requires WellFormed(s)
    ensures WellFormed(r.0)
    ensures s.queue == [] ==> r == (s, QueueEmpty)
    ensures s.queue != [] && |s.stack| == StackCap ==> r == (s, StackFull)
    ensures s.queue != [] && |s.stack| < StackCap ==>
      r.1 == Reserved(s.queue[0], true) &&
      r.0.stack == s.stack + [s.queue[0]] &&
      r.0.stack + r.0.queue == s.stack + s.queue + [s.gen.Current()] &&
      r.0.gen == s.gen.Next()
  {
    if s.queue == [] then (s, QueueEmpty)
    else if |s.stack| >= StackCap then (s, StackFull)
    else
      var front := s.queue[0];
      var rest := s.queue[1..];
      var pushed := |s.stack| < StackCap;
      if !pushed then (State(rest, s.stack, s.gen), ReserveFailed(front))
      else
        var p := s.gen.Current();
        var refilled := |rest| < QueueCap;
        (State(if refilled then rest + [p] else rest, s.stack + [front], s.gen.Next()),
         Reserved(front, refilled))
  }

  /** Use a reserved piece: pop the stack. The queue and the generator are never touched. */
  function UseReserved(s: State): (r: (State, Outcome))
    requires WellFormed(s)
    ensures WellFormed(r.0)
    ensures r.0.queue == s.queue && r.0.gen == s.gen
    ensures s.stack == [] ==> r == (s, NothingReserved)
    ensures s.stack != [] ==> r.1 == Used(Last(s.stack)) && r.0.stack + [Last(s.stack)] == s.stack
  {
    if s.stack == [] then (s, NothingReserved)
    else (State(s.queue, s.stack[..|s.stack| - 1], s.gen), Used(Last(s.stack)))
  }

  /** One pass of the menu loop for command `op`. */
  function Step(s: State, op: int): (r: (State, Outcome))
    requires WellFormed(s)
    ensures WellFormed(r.0)
    ensures |s.queue| == QueueCap ==>
      |r.0.queue| == QueueCap && r.1 != QueueEmpty && !r.1.ReserveFailed?
    ensures r.1.Played? || r.1.Reserved? ==> r.1.refilled
    ensures op != 1 && op != 2 ==> r.0.queue == s.queue && r.0.gen == s.gen
    ensures op != 1 && op != 2 && op != 3 ==> r.0 == s
  {
    if op == 1 then Play(s)
    else if op == 2 then Reserve(s)
    else if op == 3 then UseReserved(s)
    else if op == 0 then (s, Quit)
    else (s, Unknown)
  }

  /**
   * The menu loop over a list of commands: runs each in turn and stops after exit (0);
   * running out of commands stands for the end of the input.
   */
  function Run(s: State, ops: seq<int>): (r: (State, seq<Outcome>))
    requires WellFormed(s)
    ensures WellFormed(r.0)
    ensures |r.1| <= |ops|
    decreases |ops|
  {
    if ops == [] then (s, [])
    else
      var first := Step(s, ops[0]);
      if ops[0] == 0 then (first.0, [first.1])
      else
        var rest := Run(first.0, ops[1..]);
        (rest.0, [first.1] + rest.1)
  }

  /** Running a command other than exit, then the rest. */
  lemma RunCons(s: State, op: int, ops: seq<int>)
    requires WellFormed(s) && op != 0
    ensures var first := Step(s, op);
      Run(s, [op] + ops) == (Run(first.0, ops).0, [first.1] + Run(first.0, ops).1)
  {
    assert ([op] + ops)[1..] == ops;
  }

  /** Command `i` of a run either ends it (exit) or is followed by the commands after it. */
  lemma RunAt(s: State, ops: seq<int>, i: nat)
    requires WellFormed(s) && i < |ops|
    ensures var first := Step(s, ops[i]);
      if ops[i] == 0 then Run(s, ops[i..]) == (first.0, [first.1])
      else Run(s, ops[i..]) == (Run(first.0, ops[i + 1..]).0, [first.1] + Run(first.0, ops[i + 1..]).1)
  {
    var op := ops[i];
    var later := ops[i + 1..];
    assert ops[i..] == [op] + later;
    if op != 0 {
      RunCons(s, op, later);
    }
  }

  /**
   * The loop runs every command up to and including the first exit (0) and reports once for
   * each; the exit itself reports Quit. Without an exit, every command is run.
   */
  lemma {:induction false} RunReportsUpToExit(s: State, ops: seq<int>)
    requires WellFormed(s)
    ensures 0 !in ops ==> |Run(s, ops).1| == |ops|
    ensures forall k :: 0 <= k < |ops| && ops[k] == 0 && 0 !in ops[..k] ==>
      |Run(s, ops).1| == k + 1 && Run(s, ops).1[k] == Quit
    decreases |ops|
  {
    if ops != [] && ops[0] != 0 {
      var t := Step(s, ops[0]).0;
      RunReportsUpToExit(t, ops[1..]);
      assert 0 !in ops ==> 0 !in ops[1..];
      forall k | 0 < k < |ops| && ops[k] == 0 && 0 !in ops[..k]
        ensures |Run(s, ops).1| == k + 1 && Run(s, ops).1[k] == Quit
      {
        assert ops[1..][k - 1] == 0;
        assert ops[1..][..k - 1] == ops[1..k];
        assert 0 !in ops[1..][..k - 1];
      }
    }
  }

  /**
   * The initial fill establishes the invariant; the queue holds ids 1..5 in order and the
   * stack is empty.
   */
  lemma InitialInv()
    ensures Inv(Initial())
    ensures Initial().stack == [] && Initial().gen.nextId == QueueCap + 1
    ensures forall k :: 0 <= k < QueueCap ==> Initial().queue[k].id == k + 1
  {
    IdsStrictlyIncrease(Start, QueueCap);
    assert Initial().stack + Initial().queue == Generated(Start, QueueCap);
    forall k | 0 <= k < QueueCap
      ensures Initial().queue[k].id == k + 1
    {
      GeneratedAt(Start, QueueCap, k);
    }
  }

  /** Every command keeps the invariant. */
  lemma StepPreservesInv(s: State, op: int)
    requires Inv(s)
    ensures Inv(Step(s, op).0)
  {
    var all := s.stack + s.queue;
    var t := Step(s, op).0;
    if op == 1 {
      var p := s.gen.Current();
      assert all == s.stack + [s.queue[0]] + s.queue[1..];
      RemoveKeepsOrder(s.stack, s.queue[0], s.queue[1..], s.gen.nextId);
      AppendKeepsOrder(s.stack + s.queue[1..], p);
      assert t.stack + t.queue == s.stack + s.queue[1..] + [p];
    } else if op == 2 && |s.stack| < StackCap {
      AppendKeepsOrder(all, s.gen.Current());
    } else if op == 3 && s.stack != [] {
      var n := |s.stack| - 1;
      assert all == s.stack[..n] + [s.stack[n]] + s.queue;
      RemoveKeepsOrder(s.stack[..n], s.stack[n], s.queue, s.gen.nextId);
      assert t.stack + t.queue == s.stack[..n] + s.queue;
    }
  }

  /** Any run of commands keeps the invariant, so the queue is full after every command. */
  lemma {:induction false} RunPreservesInv(s: State, ops: seq<int>)
    requires Inv(s)
    ensures Inv(Run(s, ops).0)
    decreases |ops|
  {
    if ops != [] {
      StepPreservesInv(s, ops[0]);
      if ops[0] != 0 {
        RunPreservesInv(Step(s, ops[0]).0, ops[1..]);
      }
    }
  }

  /**
   * A run of n plays on a full queue reports the first n pieces of the queue followed by the
   * generated ones, in FIFO order, and leaves the last five of them in the queue; the stack is
   * untouched and the generator has advanced n times.
   */
  lemma {:induction false} PlaysAreFifo(s: State, ops: seq<int>)
    requires WellFormed(s) && |s.queue| == QueueCap
    requires forall i :: 0 <= i < |ops| ==> ops[i] == 1
    ensures var r := Run(s, ops);
      var flow := s.queue + Generated(s.gen, |ops|);
      r.0.queue == flow[|ops|..] && r.0.stack == s.stack && r.0.gen == Advance(s.gen, |ops|) &&
      |r.1| == |ops| && forall i :: 0 <= i < |ops| ==> r.1[i] == Played(flow[i], true)
    decreases |ops|
  {
    var n := |ops|;
    var g := s.gen;
    var flow := s.queue + Generated(g, n);
    if n == 0 {
      assert Advance(g, 0) == g;
    } else {
      var first := Play(s);
      assert Step(s, ops[0]) == first;
      var s1 := first.0;
      var r1 := Run(s1, ops[1..]);
      PlaysAreFifo(s1, ops[1..]);
      AdvanceNext(g, n);
      var flow1 := s1.queue + Generated(g.Next(), n - 1);
      assert flow1 == flow[1..] by {
        assert Generated(g, n) == [g.Current()] + Generated(g.Next(), n - 1);
        assert s1.queue == s.queue[1..] + [g.Current()];
      }
      assert Run(s, ops) == (r1.0, [first.1] + r1.1);
      forall i | 0 <= i < n
        ensures ([first.1] + r1.1)[i] == Played(flow[i], true)
      {
        if i > 0 {
          assert r1.1[i - 1] == Played(flow1[i - 1], true);
        }
      }
    }
  }
}
