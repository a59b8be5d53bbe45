/**
 * The game loop's owner of the look-ahead queue, the reserve stack and the generator. Each
 * action is proved against the matching function of module Flow, and every action keeps
 * Flow.Inv, so the queue is full between any two commands.
 */
module Controllers {
  import opened Pieces
  import opened Queues
  import opened Stacks
  import opened Generators
  import opened Flow

  class Controller {
    const queue: Queue
    const stack: Stack
    const gen: Generator

    ghost function Repr(): set<object> {
      {queue, queue.v, stack, stack.v, gen}
    }

    ghost function Model(): State
      reads queue, stack, gen
    {
      State(queue.Contents, stack.Contents, gen.Model())
    }

    ghost predicate Valid()
      reads Repr()
    {
      queue.Valid() && stack.Valid() && gen.Valid() &&
      queue.v != stack.v &&
      Inv(Model())
    }

    /** Empty queue and stack, then the queue is filled with five generated pieces. */
    constructor ()
      ensures Valid() && fresh(Repr())
      ensures Model() == Initial()
    {
      queue := new Queue();
      stack := new Stack();
      gen := new Generator();
      new;
      Fill(queue, gen);
      InitialInv();
    }

    /** Play: dequeue the front piece and refill the queue from the generator. */
    method Play() returns (out: Outcome)
      requires Valid()
      modifies Repr()
      ensures Valid()
      ensures Model() == Flow.Play(old(Model())).0 && out == Flow.Play(old(Model())).1
      ensures out == Played(old(queue.Contents)[0], true)
    {
      ghost var s := Model();
      var played := queue.Dequeue();
      if played.None? {
        out := QueueEmpty;
      } else {
        var p := gen.Generate();
        var refilled := queue.Enqueue(p);
        out := Played(played.value, refilled);
      }
      StepPreservesInv(s, 1);
    }

    /**
     * Reserve: if the stack has room, move the front piece onto it and refill the queue;
     * with a full stack nothing changes.
     */
    method Reserve() returns (out: Outcome)
      requires Valid()
      modifies Repr()
      ensures Valid()
      ensures Model() == Flow.Reserve(old(Model())).0 && out == Flow.Reserve(old(Model())).1
      ensures |old(stack.Contents)| == StackCap ==> out == StackFull && Model() == old(Model())
    {
      ghost var s := Model();
      var front := queue.Front();
      if front.None? {
        out := QueueEmpty;
      } else if stack.IsFull() {
        out := StackFull;
      } else {
        var piece := front.value;
        var taken := queue.Dequeue();
        if taken.Some? {
          piece := taken.value;
        }
        var pushed := stack.Push(piece);
        if !pushed {
          out := ReserveFailed(piece);
        } else {
          var p := gen.Generate();
          var refilled := queue.Enqueue(p);
          out := Reserved(piece, refilled);
        }
      }
      StepPreservesInv(s, 2);
    }

    /** Use a reserved piece: pop the stack; the queue is never touched. */
    method UseReserved() returns (out: Outcome)
      requires Valid()
      modifies Repr()
      ensures Valid()
      ensures Model() == Flow.UseReserved(old(Model())).0 && out == Flow.UseReserved(old(Model())).1
      ensures queue.Contents == old(queue.Contents) && unchanged(gen)
    {
      ghost var s := Model();
      var used := stack.Pop();
      if used.None? {
        out := NothingReserved;
      } else {
        out := Used(used.value);
      }
      StepPreservesInv(s, 3);
    }

    /** One pass of the menu loop for command `op`. */
    method Act(op: int) returns (out: Outcome)
      requires Valid()
      modifies Repr()
      ensures Valid()
      ensures Model() == Step(old(Model()), op).0 && out == Step(old(Model()), op).1
    {
      if op == 1 {
        out := Play();
      } else if op == 2 {
        out := Reserve();
      } else if op == 3 {
        out := UseReserved();
      } else if op == 0 {
        out := Quit;
      } else {
        out := Unknown;
      }
    }

    /**
     * The menu loop: runs the commands in order until exit (0); the end of `ops` stands for
     * the end of the input.
     */
    method Session(ops: seq<int>) returns (outs: seq<Outcome>)
      requires Valid()
      modifies Repr()
      ensures Valid()
      ensures Model() == Run(old(Model()), ops).0 && outs == Run(old(Model()), ops).1
    {
      ghost var s := Model();
      outs := [];
      var i := 0;
      assert ops[0..] == ops && outs + Run(s, ops).1 == Run(s, ops).1;
      while i < |ops|
        invariant 0 <= i <= |ops|
        invariant Valid()
        invariant Run(s, ops) == (Run(Model(), ops[i..]).0, outs + Run(Model(), ops[i..]).1)
      {
        var op := ops[i];
        ghost var done := outs;
        RunAt(Model(), ops, i);
        var out := Act(op);
        outs := outs + [out];
        i := i + 1;
        if op == 0 {
          break;
        }
        assert done + ([out] + Run(Model(), ops[i..]).1) == outs + Run(Model(), ops[i..]).1;
      }
    }
  }

  /**
   * The start-up loop: enqueue QueueCap generated pieces into the empty queue. The source
   * exits with an error if an enqueue fails; that cannot happen, since the queue holds fewer
   * than QueueCap pieces at each enqueue.
   */
  method Fill(q: Queue, g: Generator)
    requires q.Valid() && q.Contents == [] && g.Valid()
    modifies q, q.v, g
    ensures q.Valid() && g.Valid()
    ensures q.Contents == Generated(old(g.Model()), QueueCap)
    ensures g.Model() == Advance(old(g.Model()), QueueCap)
  {
    ghost var g0 := g.Model();
    for i := 0 to QueueCap
      invariant q.Valid() && g.Valid()
      invariant q.Contents == Generated(g0, i)
      invariant g.Model() == Advance(g0, i)
    {
      var p := g.Generate();
      assert p == Advance(g0, i).Current();
      var ok := q.Enqueue(p);
      assert ok;
      GeneratedSnoc(g0, i);
      AdvanceStep(g0, i);
    }
  }
}
