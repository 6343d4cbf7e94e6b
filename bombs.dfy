/** The royal giant's bomb (ClashMate's Bomb and RuneRift's earlier copy, which differ only in
    sound): a four-turn countdown, then the enemies in the 3x3 square around it are removed. */
module Bombs {
  import opened Wrappers
  import opened Grid
  import opened Worlds
  import opened Sweeps
  import Engine

  /** The block c is in the 3x3 square centred on (x, y). */
  predicate InSquare(x: int, y: int, c: Cell)
  {
    Abs(Row(c) - x) <= 1 && Abs(Col(c) - y) <= 1
  }

  /** explode's loop, dx outside and dy inside, visits the offsets of BlastOffsets in order:
      the row with offset dx starts at index 3 * (dx + 1). */
  lemma BlastRow(dx: int)
    requires -1 <= dx <= 1
    ensures BlastOffsets[3 * (dx + 1)] == (dx, -1) && BlastOffsets[3 * (dx + 1) + 1] == (dx, 0)
    ensures BlastOffsets[3 * (dx + 1) + 2] == (dx, 1)
  {
  }

  lemma BlastOffsetAt(dx: int, dy: int)
    requires -1 <= dx <= 1 && -1 <= dy <= 1
    ensures BlastOffsets[3 * (dx + 1) + (dy + 1)] == (dx, dy)
  {
    BlastRow(dx);
  }

  lemma BlastCovers(x: int, y: int, c: Cell)
    ensures Covers(x, y, BlastOffsets, c) <==> InSquare(x, y, c)
  {
    if InSquare(x, y, c) {
      BlockCoordinates(c);
      var dx := Row(c) - x;
      var dy := Col(c) - y;
      var i := 3 * (dx + 1) + (dy + 1);
      BlastOffsetAt(dx, dy);
      assert CellAt(x + BlastOffsets[i].0, y + BlastOffsets[i].1) == Some(c);
    }
  }

  /** explode() for a bomb of one colour on block b. */
  function Blast(w: World, b: Cell, white: bool): (r: World)
    requires Consistent(w)
    ensures Consistent(r) && Extends(w, r) && |r.pieces| == |w.pieces|
  {
    Sweep(w, EnemiesOf(white), Row(b), Col(b), BlastOffsets)
  }

  /** The explosion empties exactly the blocks of the 3x3 square that held an enemy of the
      bomb's colour; every other block keeps its occupant. */
  lemma BlastCells(w: World, b: Cell, white: bool)
    requires Consistent(w)
    ensures forall c: Cell ::
      Blast(w, b, white).cells[c] ==
        if InSquare(Row(b), Col(b), c) && w.cells[c].Some? && w.pieces[w.cells[c].value].white != white
        then None else w.cells[c]
  {
    SweepCells(w, EnemiesOf(white), Row(b), Col(b), BlastOffsets);
    forall c: Cell
      ensures Blast(w, b, white).cells[c] ==
        if InSquare(Row(b), Col(b), c) && w.cells[c].Some? && w.pieces[w.cells[c].value].white != white
        then None else w.cells[c]
    {
      BlastCovers(Row(b), Col(b), c);
    }
  }

  /** No piece of the bomb's own colour is touched, wherever it stands. */
  lemma BlastSparesFriends(w: World, b: Cell, white: bool)
    requires Consistent(w)
    ensures forall q :: 0 <= q < |w.pieces| && w.pieces[q].white == white ==>
      Blast(w, b, white).pieces[q] == w.pieces[q]
  {
    SweepSparesFriends(w, white, Row(b), Col(b), BlastOffsets);
  }

  /** The explosion leaves the turn's bookkeeping alone. */
  lemma BlastKeepsTurn(w: World, b: Cell, white: bool)
    requires Consistent(w)
    ensures SameTurn(w, Blast(w, b, white))
  {
  }

  class Bomb {
    /** The block the bomb sits on. */
    const location: Cell
    const isWhite: bool
    /** Turns left before the explosion. */
    var turnCount: int
    /** Whether the bomb is still in the world, so that Greenfoot still calls its act. */
    var inWorld: bool
    /** How many times progressExplosion has been called. */
    ghost var decrements: nat

    /** The countdown started at 4 and has been lowered once per progressExplosion. */
    ghost predicate Valid()
      reads this
    {
      turnCount == 4 - decrements
    }

    /** A bomb is ready to explode once its countdown has reached 0. */
    predicate Ready()
      reads this
    {
      inWorld && turnCount == 0
    }

    constructor (location: Cell, isWhite: bool)
      ensures Valid() && this.location == location && this.isWhite == isWhite
      ensures turnCount == 4 && inWorld && decrements == 0
    {
      this.location := location;
      this.isWhite := isWhite;
      turnCount := 4;
      inWorld := true;
      decrements := 0;
    }

    /** progressExplosion(): one turn less. */
    method ProgressExplosion()
      requires Valid()
      modifies this
      ensures Valid() && turnCount == old(turnCount) - 1 && decrements == old(decrements) + 1
      ensures inWorld == old(inWorld)
    {
      turnCount := turnCount - 1;
      decrements := decrements + 1;
    }

    /** A bomb is ready to explode exactly after its fourth progressExplosion. */
    lemma ReadyAfterFour()
      requires Valid() && inWorld
      ensures Ready() <==> decrements == 4
    {
    }

    /** explode(): the nested loop over the 3x3 square around the bomb's block, removing the
        enemies, then the bomb leaves the world. The nested loop over dx, then dy, visits the
        offsets in BlastOffsets' order (BlastRow), so it is the board's sweep over them. */
    method Explode(board: Engine.Board)
      requires board.Valid()
      modifies this, board, board.cells
      ensures board.State() == Blast(old(board.State()), location, isWhite) && board.Valid()
      ensures !inWorld && turnCount == old(turnCount) && decrements == old(decrements)
    {
      board.Sweep(EnemiesOf(isWhite), Row(location), Col(location), BlastOffsets);
      inWorld := false;
    }

    /** act(): explode once the countdown is at 0; otherwise nothing. */
    method Act(board: Engine.Board)
      requires Valid() && inWorld && board.Valid()
      modifies this, board, board.cells
      ensures Valid() && board.Valid() && turnCount == old(turnCount)
      ensures old(Ready()) ==> !inWorld && board.State() == Blast(old(board.State()), location, isWhite)
      ensures !old(Ready()) ==> inWorld && board.State() == old(board.State())
    {
      if turnCount == 0 {
        Explode(board);
      }
    }
  }
}
