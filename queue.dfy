/** The look-ahead queue: a bounded FIFO of pieces over a ring buffer of QueueCap slots. */
module Queues {
  import opened Pieces

  class Queue {
    /** The ring buffer. */
    const v: array<Piece>
    /** Index of the first piece. */
    var head: int
    /** Index of the next free slot. */
    var tail: int
    /** Number of pieces held. */
    var count: int

    /** The pieces held, head to tail. */
    ghost var Contents: seq<Piece>

    /** The ring buffer read from `head` for `count` slots, wrapping at the end, is `Contents`. */
    ghost predicate Valid()
      reads this, v
    {
      v.Length == QueueCap &&
      0 <= head < QueueCap && 0 <= tail < QueueCap &&
      0 <= count <= QueueCap &&
      tail == (head + count) % QueueCap &&
      |Contents| == count &&
      forall k :: 0 <= k < count ==> Contents[k] == v[(head + k) % QueueCap]
    }

    /** An empty queue, all three indices at zero. */
    constructor ()
      ensures Valid() && fresh(v)
      ensures Contents == []
      ensures head == 0 && tail == 0 && count == 0
    {
      v := new Piece[QueueCap];
      head, tail, count := 0, 0, 0;
      Contents := [];
    }

    function IsFull(): (full: bool)
      reads this, v
      requires Valid()
      ensures full <==> |Contents| == QueueCap
    {
      count == QueueCap
    }

    function IsEmpty(): (empty: bool)
      reads this, v
      requires Valid()
      ensures empty <==> Contents == []
    {
      count == 0
    }

    /** Adds `x` at the tail; on a full queue reports failure and changes nothing. */
    method Enqueue(x: Piece) returns (ok: bool)
      requires Valid()
      modifies this, v
      ensures Valid()
      ensures ok <==> |old(Contents)| < QueueCap
      ensures Contents == if ok then old(Contents) + [x] else old(Contents)
      ensures !ok ==> unchanged(this, v)
    {
      if IsFull() {
        return false;
      }
      v[tail] := x;
      tail := (tail + 1) % QueueCap;
      count := count + 1;
      Contents := Contents + [x];
      ok := true;
    }

    /** The piece at the head, without removing it; None on an empty queue. */
    function Front(): (r: Option<Piece>)
      reads this, v
      requires Valid()
      ensures r == if Contents == [] then None else Some(Contents[0])
    {
      if IsEmpty() then None else Some(v[head])
    }

    /** Removes and returns the piece at the head; on an empty queue returns None and changes nothing. */
    method Dequeue() returns (r: Option<Piece>)
      requires Valid()
      modifies this
      ensures Valid()
      ensures r == old(Front())
      ensures r == if old(Contents) == [] then None else Some(old(Contents)[0])
      ensures Contents == if old(Contents) == [] then old(Contents) else old(Contents)[1..]
      ensures r == None ==> unchanged(this)
    {
      if IsEmpty() {
        return None;
      }
      r := Some(v[head]);
      head := (head + 1) % QueueCap;
      count := count - 1;
      Contents := Contents[1..];
    }
  }
}
