/** The reserve: a bounded LIFO of pieces over an array of StackCap slots. */
module Stacks {
  import opened Pieces

  class Stack {
    const v: array<Piece>
    /** Index of the top piece; -1 when the stack is empty. */
    var top: int

    /** The pieces held, base to top. */
    ghost var Contents: seq<Piece>

    /** The first `top + 1` slots are `Contents`, and `-1 <= top <= StackCap - 1`. */
    ghost predicate Valid()
      reads this, v
    {
      v.Length == StackCap &&
      -1 <= top <= StackCap - 1 &&
      Contents == v[..top + 1]
    }

    /** An empty stack. */
    constructor ()
      ensures Valid() && fresh(v)
      ensures Contents == [] && top == -1
    {
      v := new Piece[StackCap];
      top := -1;
      Contents := [];
    }

    function IsEmpty(): (empty: bool)
      reads this, v
      requires Valid()
      ensures empty <==> Contents == []
    {
      top < 0
    }

    function IsFull(): (full: bool)
      reads this, v
      requires Valid()
      ensures full <==> |Contents| == StackCap
    {
      top >= StackCap - 1
    }

    /** Puts `x` on top; on a full stack reports failure and changes nothing. */
    method Push(x: Piece) returns (ok: bool)
      requires Valid()
      modifies this, v
      ensures Valid()
      ensures ok <==> |old(Contents)| < StackCap
      ensures Contents == if ok then old(Contents) + [x] else old(Contents)
      ensures !ok ==> unchanged(this, v)
    {
      if IsFull() {
        return false;
      }
      top := top + 1;
      v[top] := x;
      Contents := Contents + [x];
      ok := true;
    }

    /** Removes and returns the top piece; on an empty stack returns None and changes nothing. */
    method Pop() returns (r: Option<Piece>)
      requires Valid()
      modifies this
      ensures Valid()
      ensures r == if old(Contents) == [] then None else Some(Last(old(Contents)))
      ensures Contents == if old(Contents) == [] then old(Contents) else old(Contents)[..|old(Contents)| - 1]
      ensures r == None ==> unchanged(this)
    {
      if IsEmpty() {
        return None;
      }
      r := Some(v[top]);
      top := top - 1;
      Contents := Contents[..|Contents| - 1];
    }
  }

  /** A push that succeeds, followed by a pop, yields the pushed piece and restores the stack. */
  method PushThenPop(s: Stack, x: Piece) returns (pushed: bool, popped: Option<Piece>)
    requires s.Valid()
    modifies s, s.v
    ensures s.Valid()
    ensures pushed <==> |old(s.Contents)| < StackCap
    ensures pushed ==> popped == Some(x) && s.Contents == old(s.Contents)
  {
    pushed := s.Push(x);
    popped := s.Pop();
  }
}
