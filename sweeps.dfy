/** The shape shared by dealSplashDamage, slash and Bomb.explode: visit the blocks at fixed
    offsets from a centre, in order, skip those off the board, and remove the occupant when it
    is a target. spawnSkeletons visits blocks the same way and fills the empty ones. */
module Sweeps {
  import opened Wrappers
  import opened Grid
  import opened Pieces
  import opened Worlds

  /** Which occupants a sweep removes: any piece (slash) or only the enemies of one colour. */
  datatype Targets = AnyPiece | EnemiesOf(white: bool)

  predicate Hits(w: World, targets: Targets, c: Cell)
    requires Consistent(w)
  {
    w.cells[c].Some? && (targets.AnyPiece? || w.pieces[w.cells[c].value].white != targets.white)
  }

  /** dealSplashDamage's and spawnSkeletons's order: below, above, right, left. */
  const CrossOffsets: seq<(int, int)> := [(1, 0), (-1, 0), (0, 1), (0, -1)]

  /** explode's order: dx from -1 to 1, and for each dx, dy from -1 to 1. */
  const BlastOffsets: seq<(int, int)> :=
    [(-1, -1), (-1, 0), (-1, 1), (0, -1), (0, 0), (0, 1), (1, -1), (1, 0), (1, 1)]

  /** slash's order for a row step dir: forward-left, forward, forward-right. */
  function SlashOffsets(dir: int): seq<(int, int)>
  {
    [(dir, -1), (dir, 0), (dir, 1)]
  }

  /** One visited block: getBlock, then removePiece(true) on a target. */
  function SweepAt(w: World, targets: Targets, x: int, y: int): (r: World)
    requires Consistent(w)
    ensures Consistent(r) && Extends(w, r) && |r.pieces| == |w.pieces|
    ensures r.ctx.epTarget == w.ctx.epTarget && r.ctx.epPawn == w.ctx.epPawn
    ensures r.ctx.endTurns == w.ctx.endTurns && r.ctx.bombs == w.ctx.bombs
    ensures r.ctx.selectedPiece == w.ctx.selectedPiece
    ensures r.ctx.promotionMenuActive == w.ctx.promotionMenuActive && r.ctx.promoting == w.ctx.promoting
    ensures r.ctx.gameStarted == w.ctx.gameStarted
    ensures ElixirOf(r, true) == ElixirOf(w, true) && ElixirOf(r, false) == ElixirOf(w, false)
  {
    match CellAt(x, y)
    case None => w
    case Some(c) => if Hits(w, targets, c) then RemoveAt(w, c) else w
  }

  /** The blocks at the offsets from (x, y), visited in order. */
  function Sweep(w: World, targets: Targets, x: int, y: int, offsets: seq<(int, int)>): (r: World)
    requires Consistent(w)
    ensures Consistent(r) && Extends(w, r) && |r.pieces| == |w.pieces|
    ensures r.ctx.epTarget == w.ctx.epTarget && r.ctx.epPawn == w.ctx.epPawn
    ensures r.ctx.endTurns == w.ctx.endTurns && r.ctx.bombs == w.ctx.bombs
    ensures r.ctx.selectedPiece == w.ctx.selectedPiece
    ensures r.ctx.promotionMenuActive == w.ctx.promotionMenuActive && r.ctx.promoting == w.ctx.promoting
    ensures r.ctx.gameStarted == w.ctx.gameStarted
    ensures ElixirOf(r, true) == ElixirOf(w, true) && ElixirOf(r, false) == ElixirOf(w, false)
    decreases |offsets|
  {
    if offsets == [] then w
    else
      var last := offsets[|offsets| - 1];
      SweepAt(Sweep(w, targets, x, y, offsets[..|offsets| - 1]), targets, x + last.0, y + last.1)
  }

  /** A sweep over one more offset is the sweep so far followed by that offset's block. */
  lemma SweepSnoc(w: World, targets: Targets, x: int, y: int, offsets: seq<(int, int)>, i: int)
    requires Consistent(w) && 0 <= i < |offsets|
    ensures Sweep(w, targets, x, y, offsets[..i + 1])
      == SweepAt(Sweep(w, targets, x, y, offsets[..i]), targets, x + offsets[i].0, y + offsets[i].1)
  {
    assert offsets[..i + 1][..i] == offsets[..i];
  }

  /** The block at one of the offsets from (x, y). */
  predicate Covers(x: int, y: int, offsets: seq<(int, int)>, c: Cell)
  {
    exists i :: 0 <= i < |offsets| && CellAt(x + offsets[i].0, y + offsets[i].1) == Some(c)
  }

  /** The blocks covered by a list of offsets are those covered by all but the last, and the
      last one's block. */
  lemma CoversSplit(x: int, y: int, offsets: seq<(int, int)>, c: Cell)
    requires offsets != []
    ensures Covers(x, y, offsets, c) <==>
      Covers(x, y, offsets[..|offsets| - 1], c)
      || CellAt(x + offsets[|offsets| - 1].0, y + offsets[|offsets| - 1].1) == Some(c)
  {
    var n := |offsets| - 1;
    var front := offsets[..n];
    if Covers(x, y, offsets, c) {
      var i :| 0 <= i < |offsets| && CellAt(x + offsets[i].0, y + offsets[i].1) == Some(c);
      if i < n {
        assert front[i] == offsets[i];
        assert Covers(x, y, front, c);
      }
    }
    if Covers(x, y, front, c) {
      var i :| 0 <= i < |front| && CellAt(x + front[i].0, y + front[i].1) == Some(c);
      assert offsets[i] == front[i];
      assert Covers(x, y, offsets, c);
    }
    if CellAt(x + offsets[n].0, y + offsets[n].1) == Some(c) {
      assert Covers(x, y, offsets, c);
    }
  }

  /** A sweep empties exactly the covered blocks whose occupant was a target, and keeps every
      other block's occupant. */
  lemma SweepCells(w: World, targets: Targets, x: int, y: int, offsets: seq<(int, int)>)
    requires Consistent(w)
    ensures forall c: Cell ::
      Sweep(w, targets, x, y, offsets).cells[c] ==
        if Covers(x, y, offsets, c) && Hits(w, targets, c) then None else w.cells[c]
  {
    forall c: Cell
      ensures Sweep(w, targets, x, y, offsets).cells[c] ==
        if Covers(x, y, offsets, c) && Hits(w, targets, c) then None else w.cells[c]
    {
      SweepCell(w, targets, x, y, offsets, c);
    }
  }

  /** One block's slot after a sweep. */
  lemma {:induction false} SweepCell(w: World, targets: Targets, x: int, y: int, offsets: seq<(int, int)>, c: Cell)
    requires Consistent(w)
    ensures Sweep(w, targets, x, y, offsets).cells[c] ==
      if Covers(x, y, offsets, c) && Hits(w, targets, c) then None else w.cells[c]
    decreases |offsets|
  {
    if offsets != [] {
      var front := offsets[..|offsets| - 1];
      var last := offsets[|offsets| - 1];
      var mid := Sweep(w, targets, x, y, front);
      var r := SweepAt(mid, targets, x + last.0, y + last.1);
      assert Sweep(w, targets, x, y, offsets) == r;
      SweepCell(w, targets, x, y, front, c);
      SweepColours(w, targets, x, y, front);
      assert mid.cells[c] == w.cells[c] ==> Hits(mid, targets, c) == Hits(w, targets, c);
      SweepAtCell(mid, targets, x + last.0, y + last.1, c);
      CoversSplit(x, y, offsets, c);
    }
  }

  /** One block's slot after one visited block. */
  lemma SweepAtCell(w: World, targets: Targets, x: int, y: int, c: Cell)
    requires Consistent(w)
    ensures SweepAt(w, targets, x, y).cells[c] ==
      if CellAt(x, y) == Some(c) && Hits(w, targets, c) then None else w.cells[c]
  {
  }

  /** Occupants that survive a sweep keep their colour, so a block's target status can only
      change by the block being emptied. */
  lemma {:induction false} SweepColours(w: World, targets: Targets, x: int, y: int, offsets: seq<(int, int)>)
    requires Consistent(w)
    ensures var r := Sweep(w, targets, x, y, offsets);
      forall c: Cell :: r.cells[c] == w.cells[c] ==> (Hits(r, targets, c) <==> Hits(w, targets, c))
  {
  }

  /** A sweep over an enemy's targets never touches a piece of the spared colour. */
  lemma {:induction false} SweepSparesFriends(w: World, white: bool, x: int, y: int, offsets: seq<(int, int)>)
    requires Consistent(w)
    ensures var r := Sweep(w, EnemiesOf(white), x, y, offsets);
      forall q :: 0 <= q < |w.pieces| && w.pieces[q].white == white ==> r.pieces[q] == w.pieces[q]
    decreases |offsets|
  {
    if offsets != [] {
      SweepSparesFriends(w, white, x, y, offsets[..|offsets| - 1]);
    }
  }

  /** A friendly piece is untouched by a sweep over its enemies. */
  lemma SweepKeepsFriend(w: World, white: bool, x: int, y: int, offsets: seq<(int, int)>, q: PieceId)
    requires Consistent(w) && q < |w.pieces| && w.pieces[q].white == white
    ensures Sweep(w, EnemiesOf(white), x, y, offsets).pieces[q] == w.pieces[q]
  {
    SweepSparesFriends(w, white, x, y, offsets);
  }

  /** A piece whose block is not covered is left exactly as it was. */
  lemma {:induction false} SweepKeepsUncovered(w: World, targets: Targets, x: int, y: int, offsets: seq<(int, int)>, q: PieceId)
    requires Consistent(w) && q < |w.pieces|
    requires w.pieces[q].block.None? || !Covers(x, y, offsets, w.pieces[q].block.value)
    ensures Sweep(w, targets, x, y, offsets).pieces[q] == w.pieces[q]
    decreases |offsets|
  {
    if offsets != [] {
      if w.pieces[q].block.Some? {
        CoversSplit(x, y, offsets, w.pieces[q].block.value);
      }
      SweepKeepsUncovered(w, targets, x, y, offsets[..|offsets| - 1], q);
    }
  }

  /** The cross around (x, y): its four orthogonal neighbours on the board. */
  predicate InCross(x: int, y: int, c: Cell)
  {
    (Row(c) == x && Abs(Col(c) - y) == 1) || (Col(c) == y && Abs(Row(c) - x) == 1)
  }

  lemma CrossCovers(x: int, y: int, c: Cell)
    ensures Covers(x, y, CrossOffsets, c) <==> InCross(x, y, c)
  {
    if InCross(x, y, c) {
      var i := CrossIndex(x, y, c);
    }
    if Covers(x, y, CrossOffsets, c) {
      var i :| 0 <= i < |CrossOffsets| && CellAt(x + CrossOffsets[i].0, y + CrossOffsets[i].1) == Some(c);
      CrossOffsetInCross(x, y, i, c);
    }
  }

  /** A neighbour in the cross is reached by one of the cross offsets. */
  lemma CrossIndex(x: int, y: int, c: Cell) returns (i: int)
    requires InCross(x, y, c)
    ensures 0 <= i < |CrossOffsets| && CellAt(x + CrossOffsets[i].0, y + CrossOffsets[i].1) == Some(c)
  {
    var dx, dy := Row(c) - x, Col(c) - y;
    i := if dx == 1 then 0 else if dx == -1 then 1 else if dy == 1 then 2 else 3;
    LandsAt(x + CrossOffsets[i].0, y + CrossOffsets[i].1, c);
  }

  /** Every cross offset reaches a neighbour in the cross. */
  lemma CrossOffsetInCross(x: int, y: int, i: int, c: Cell)
    requires 0 <= i < |CrossOffsets| && CellAt(x + CrossOffsets[i].0, y + CrossOffsets[i].1) == Some(c)
    ensures InCross(x, y, c)
  {
    var (dx, dy) := CrossOffsets[i];
    assert Row(c) == x + dx && Col(c) == y + dy;
    assert (dx == 0 && Abs(dy) == 1) || (dy == 0 && Abs(dx) == 1);
  }

  /** new Piece(type, block, white) on an empty block: appended to the piece table, placed on
      the block, and not added to a colour list. */
  function Place(w: World, kind: Kind, white: bool, c: Cell): (r: World)
    requires Consistent(w) && w.cells[c].None?
    ensures Consistent(r) && Extends(w, r)
    ensures r.pieces == w.pieces + [NewPiece(kind, white, c)]
    ensures r.cells == w.cells[c := Some(|w.pieces|)]
    ensures r.ctx == w.ctx
  {
    w.(cells := w.cells[c := Some(|w.pieces|)], pieces := w.pieces + [NewPiece(kind, white, c)])
  }

  /** One block of spawnSkeletons: a new skeleton if the block is on the board and empty. */
  function SpawnAt(w: World, white: bool, x: int, y: int): (r: World)
    requires Consistent(w)
    ensures Consistent(r) && Extends(w, r) && r.ctx == w.ctx
    ensures r.pieces[..|w.pieces|] == w.pieces
  {
    match CellAt(x, y)
    case None => w
    case Some(c) => if w.cells[c].None? then Place(w, Skeleton, white, c) else w
  }

  /** The blocks at the offsets, visited in order, each filled with a skeleton if empty. */
  function SpawnAll(w: World, white: bool, x: int, y: int, offsets: seq<(int, int)>): (r: World)
    requires Consistent(w)
    ensures Consistent(r) && Extends(w, r) && r.ctx == w.ctx
    ensures r.pieces[..|w.pieces|] == w.pieces
    decreases |offsets|
  {
    if offsets == [] then w
    else
      var last := offsets[|offsets| - 1];
      var mid := SpawnAll(w, white, x, y, offsets[..|offsets| - 1]);
      var r := SpawnAt(mid, white, x + last.0, y + last.1);
      assert r.pieces[..|w.pieces|] == r.pieces[..|mid.pieces|][..|w.pieces|];
      r
  }

  lemma SpawnAtCells(w: World, white: bool, x: int, y: int)
    requires Consistent(w)
    ensures var r := SpawnAt(w, white, x, y);
      forall c: Cell ::
        if CellAt(x, y) == Some(c) && w.cells[c].None? then
          r.cells[c] == Some(|w.pieces|) && r.pieces[|w.pieces|] == NewPiece(Skeleton, white, c)
        else r.cells[c] == w.cells[c]
  {
  }

  /** Spawning fills exactly the covered empty blocks, each with a fresh skeleton of the
      spawner's colour, and leaves every occupied or uncovered block alone. */
  lemma {:induction false} SpawnCells(w: World, white: bool, x: int, y: int, offsets: seq<(int, int)>)
    requires Consistent(w)
    ensures var r := SpawnAll(w, white, x, y, offsets);
      forall c: Cell ::
        if Covers(x, y, offsets, c) && w.cells[c].None? then
          r.cells[c].Some? && r.cells[c].value >= |w.pieces|
          && r.pieces[r.cells[c].value] == NewPiece(Skeleton, white, c)
        else r.cells[c] == w.cells[c]
    decreases |offsets|
  {
    if offsets != [] {
      var front := offsets[..|offsets| - 1];
      var last := offsets[|offsets| - 1];
      var mid := SpawnAll(w, white, x, y, front);
      var r := SpawnAll(w, white, x, y, offsets);
      SpawnCells(w, white, x, y, front);
      SpawnAtCells(mid, white, x + last.0, y + last.1);
      assert r.pieces[..|mid.pieces|] == mid.pieces;
      forall c: Cell
        ensures if Covers(x, y, offsets, c) && w.cells[c].None? then
            r.cells[c].Some? && r.cells[c].value >= |w.pieces|
            && r.pieces[r.cells[c].value] == NewPiece(Skeleton, white, c)
          else r.cells[c] == w.cells[c]
      {
        CoversSplit(x, y, offsets, c);
        if mid.cells[c].Some? && mid.cells[c].value < |mid.pieces| {
          assert r.pieces[mid.cells[c].value] == mid.pieces[mid.cells[c].value];
        }
      }
    }
  }
}
