/** The piece generator: a running id counter and a cursor into the shape alphabet. */
module Generators {
  import opened Pieces

  /** The generator's state as a value. */
  datatype Gen = Gen(nextId: int, cursor: int) {
    predicate Valid() {
      0 <= cursor < |Shapes|
    }

    /** The piece the next generation hands out. */
    function Current(): Piece
      requires Valid()
    {
      Piece(Shapes[cursor], nextId)
    }

    /** The state after one generation. */
    function Next(): (g: Gen)
      requires Valid()
      ensures g.Valid()
    {
      Gen(nextId + 1, (cursor + 1) % |Shapes|)
    }
  }

  /** The state at program start: id 1, first shape. */
  const Start := Gen(1, 0)

  /** The state after `n` generations from `g`. */
  function Advance(g: Gen, n: nat): (a: Gen)
    requires g.Valid()
    ensures a.Valid()
  {
    Gen(g.nextId + n, (g.cursor + n) % |Shapes|)
  }

  /** Advancing `n` steps is one step followed by `n - 1` more. */
  lemma AdvanceNext(g: Gen, n: nat)
    requires g.Valid() && n >= 1
    ensures Advance(g.Next(), n - 1) == Advance(g, n)
  {
    if g.cursor == |Shapes| - 1 {
      assert g.Next().cursor == 0;
      assert (g.cursor + n) % |Shapes| == (n - 1 + |Shapes|) % |Shapes| == (n - 1) % |Shapes|;
    } else {
      assert g.Next().cursor == g.cursor + 1;
    }
  }

  /** Advancing `n` steps and then one more is advancing `n + 1` steps. */
  lemma AdvanceStep(g: Gen, n: nat)
    requires g.Valid()
    ensures Advance(g, n).Next() == Advance(g, n + 1)
  {
    var c := (g.cursor + n) % |Shapes|;
    if c == |Shapes| - 1 {
      assert (g.cursor + n + 1) % |Shapes| == 0;
    } else {
      assert (g.cursor + n + 1) % |Shapes| == c + 1;
    }
  }

  /** The pieces that `n` successive generations from `g` hand out, in order. */
  function Generated(g: Gen, n: nat): (ps: seq<Piece>)
    requires g.Valid()
    ensures |ps| == n
    decreases n
  {
    if n == 0 then [] else [g.Current()] + Generated(g.Next(), n - 1)
  }

  /** The k-th generated piece has shape `Shapes[(cursor + k) % 7]` and id `nextId + k`. */
  lemma {:induction false} GeneratedAt(g: Gen, n: nat, k: nat)
    requires g.Valid() && k < n
    ensures Generated(g, n)[k] == Piece(Shapes[(g.cursor + k) % |Shapes|], g.nextId + k)
    decreases k
  {
    if k > 0 {
      GeneratedAt(g.Next(), n - 1, k - 1);
    }
  }

  /** One more generation appends the piece of the state reached after `n` generations. */
  lemma {:induction false} GeneratedSnoc(g: Gen, n: nat)
    requires g.Valid()
    ensures Generated(g, n + 1) == Generated(g, n) + [Advance(g, n).Current()]
    decreases n
  {
    if n > 0 {
      GeneratedSnoc(g.Next(), n - 1);
      AdvanceNext(g, n);
      calc {
        Generated(g, n + 1);
        [g.Current()] + Generated(g.Next(), n);
        [g.Current()] + (Generated(g.Next(), n - 1) + [Advance(g, n).Current()]);
        ([g.Current()] + Generated(g.Next(), n - 1)) + [Advance(g, n).Current()];
        Generated(g, n) + [Advance(g, n).Current()];
      }
    }
  }

  /** `m` generations followed by `n` more hand out the concatenation of the two runs. */
  lemma {:induction false} GeneratedSplit(g: Gen, m: nat, n: nat)
    requires g.Valid()
    ensures Generated(g, m + n) == Generated(g, m) + Generated(Advance(g, m), n)
    decreases m
  {
    if m > 0 {
      GeneratedSplit(g.Next(), m - 1, n);
      AdvanceNext(g, m);
      calc {
        Generated(g, m + n);
        [g.Current()] + Generated(g.Next(), m - 1 + n);
        [g.Current()] + (Generated(g.Next(), m - 1) + Generated(Advance(g, m), n));
        ([g.Current()] + Generated(g.Next(), m - 1)) + Generated(Advance(g, m), n);
        Generated(g, m) + Generated(Advance(g, m), n);
      }
    }
  }

  /** Every id handed out is strictly greater than every earlier one, and below the next id. */
  lemma IdsStrictlyIncrease(g: Gen, n: nat)
    requires g.Valid()
    ensures IdsIncreasing(Generated(g, n))
    ensures IdsBelow(Generated(g, n), Advance(g, n).nextId)
  {
    forall i | 0 <= i < n
      ensures Generated(g, n)[i].id == g.nextId + i
    {
      GeneratedAt(g, n, i);
    }
  }

  /** Shapes repeat every seven generations. */
  lemma ShapesRepeatEverySeven(g: Gen, n: nat, k: nat)
    requires g.Valid() && k + |Shapes| < n
    ensures Generated(g, n)[k + |Shapes|].shape == Generated(g, n)[k].shape
    ensures Generated(g, n)[k + |Shapes|].id == Generated(g, n)[k].id + |Shapes|
  {
    GeneratedAt(g, n, k);
    GeneratedAt(g, n, k + |Shapes|);
  }

  /** From program start, the first seven pieces are I#1, O#2, T#3, L#4, J#5, S#6, Z#7. */
  lemma FirstSeven()
    ensures Generated(Start, 7) ==
      [Piece('I', 1), Piece('O', 2), Piece('T', 3), Piece('L', 4),
       Piece('J', 5), Piece('S', 6), Piece('Z', 7)]
  {
  }

  /** The generator of the program: the global id counter and the static shape cursor. */
  class Generator {
    var nextId: int
    var cursor: int

    ghost predicate Valid()
      reads this
    {
      0 <= cursor < |Shapes|
    }

    ghost function Model(): Gen
      reads this
    {
      Gen(nextId, cursor)
    }

    /** Ids start at 1 and shapes at 'I'. */
    constructor ()
      ensures Valid() && Model() == Start
    {
      nextId, cursor := 1, 0;
    }

    /** Hands out the current shape with the current id, then advances both. */
    method Generate() returns (p: Piece)
      requires Valid()
      modifies this
      ensures Valid()
      ensures p == Piece(Shapes[old(cursor)], old(nextId))
      ensures nextId == old(nextId) + 1 && cursor == (old(cursor) + 1) % |Shapes|
      ensures p == old(Model()).Current() && Model() == old(Model()).Next()
    {
      p := Piece(Shapes[cursor], nextId);
      nextId := nextId + 1;
      cursor := (cursor + 1) % |Shapes|;
    }
  }
}
