/** Pieces of the falling-block game, the two fixed capacities and the shape alphabet. */
module Pieces {

  /** Slots of the look-ahead queue, which the game keeps full. */
  const QueueCap: nat := 5

  /** Slots of the reserve stack. */
  const StackCap: nat := 3

  /** The seven shape labels, in the order the generator hands them out. */
  const Shapes: seq<char> := ['I', 'O', 'T', 'L', 'J', 'S', 'Z']

  /** A piece is an immutable value: a shape label and a unique id. */
  datatype Piece = Piece(shape: char, id: int)

  datatype Option<T> = None | Some(value: T)

  function Last<T>(s: seq<T>): T
    requires s != []
  {
    s[|s| - 1]
  }

  /** Ids strictly increase from left to right (so they are also pairwise distinct). */
  ghost predicate IdsIncreasing(ps: seq<Piece>) {
    forall i, j :: 0 <= i < j < |ps| ==> ps[i].id < ps[j].id
  }

  /** Every id is below `bound`. */
  ghost predicate IdsBelow(ps: seq<Piece>, bound: int) {
    forall i :: 0 <= i < |ps| ==> ps[i].id < bound
  }

  /** Taking one piece out of an increasing run leaves an increasing run under the same bound. */
  lemma RemoveKeepsOrder(a: seq<Piece>, x: Piece, b: seq<Piece>, bound: int)
    requires IdsIncreasing(a + [x] + b) && IdsBelow(a + [x] + b, bound)
    ensures IdsIncreasing(a + b) && IdsBelow(a + b, bound)
  {
    var whole := a + [x] + b;
    var part := a + b;
    forall i | 0 <= i < |part|
      ensures part[i] == whole[if i < |a| then i else i + 1]
    {
    }
  }

  /** Appending a piece whose id is above every earlier id keeps the run increasing. */
  lemma AppendKeepsOrder(ps: seq<Piece>, x: Piece)
    requires IdsIncreasing(ps) && IdsBelow(ps, x.id)
    ensures IdsIncreasing(ps + [x]) && IdsBelow(ps + [x], x.id + 1)
  {
  }
}
