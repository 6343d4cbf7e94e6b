/** checkIfMoveIsValid and the line-of-sight test isPathClear. */
module Legality {
  import opened Wrappers
  import opened Grid
  import opened Pieces
  import opened Worlds

  /** The k-th block of the walk from a towards b, one unit step at a time. */
  function Along(a: int, b: int, k: int): int
  {
    if b > a then a + k else if b < a then a - k else a
  }

  /** The number of steps from (x0, y0) to (x1, y1) along a row, column or diagonal. */
  function Steps(x0: int, y0: int, x1: int, y1: int): nat
  {
    if Abs(x1 - x0) >= Abs(y1 - y0) then Abs(x1 - x0) else Abs(y1 - y0)
  }

  /** isPathClear's walk ends: the two blocks share a row, a column or a diagonal. */
  predicate OnLine(x0: int, y0: int, x1: int, y1: int)
  {
    x0 == x1 || y0 == y1 || Abs(x1 - x0) == Abs(y1 - y0)
  }

  /** Every block strictly between the two is empty. */
  predicate PathClear(w: World, x0: int, y0: int, x1: int, y1: int)
    requires |w.cells| == 64
  {
    forall k :: 0 < k < Steps(x0, y0, x1, y1) ==>
      OccupantAt(w, Along(x0, x1, k), Along(y0, y1, k)).None?
  }

  /** The walk really ends at the target, and every block it passes is on the board. */
  lemma WalkStaysOnBoard(x0: int, y0: int, x1: int, y1: int, k: int)
    requires OnBoard(x0, y0) && OnBoard(x1, y1) && OnLine(x0, y0, x1, y1)
    requires 0 <= k <= Steps(x0, y0, x1, y1)
    ensures OnBoard(Along(x0, x1, k), Along(y0, y1, k))
    ensures k == Steps(x0, y0, x1, y1) ==> Along(x0, x1, k) == x1 && Along(y0, y1, k) == y1
    ensures k < Steps(x0, y0, x1, y1) ==> Along(x0, x1, k) != x1 || Along(y0, y1, k) != y1
  {
  }

  /** A knight's jump: (|dx|, |dy|) is (2, 1) or (1, 2). */
  predicate KnightJump(dx: int, dy: int)
  {
    (Abs(dx) == 2 && Abs(dy) == 1) || (Abs(dx) == 1 && Abs(dy) == 2)
  }

  /** The target belongs to the mover's own colour. */
  predicate OwnPieceOn(w: World, p: PieceId, t: Cell)
    requires Consistent(w) && p < |w.pieces|
  {
    w.cells[t].Some? && w.pieces[w.cells[t].value].white == w.pieces[p].white
  }

  /** The castling conditions for a giant on (x, y) heading towards column rookY: the corner
      holds an unmoved dark prince (of either colour) and the row between is empty. */
  predicate CornerReady(w: World, x: int, y: int, rookY: int)
    requires Consistent(w) && OnBoard(x, y) && (rookY == 0 || rookY == 7)
  {
    var corner := CellAt(x, rookY).value;
    w.cells[corner].Some?
    && w.pieces[w.cells[corner].value].kind == DarkPrince
    && !w.pieces[w.cells[corner].value].hasMoved
    && PathClear(w, x, y, x, rookY)
  }

  /** checkIfMoveIsValid(target) for piece p. Whatever the piece's type, a block held by its
      own colour is never a valid target, and so neither is its own block. */
  function IsValidMove(w: World, p: PieceId, t: Cell): (valid: bool)
    requires Consistent(w) && p < |w.pieces| && w.pieces[p].block.Some?
    ensures valid ==> !OwnPieceOn(w, p, t)
    ensures valid ==> t != w.pieces[p].block.value
  {
    var piece := w.pieces[p];
    var o := piece.block.value;
    var x := Row(o);
    var y := Col(o);
    var dx := Row(t) - x;
    var dy := Col(t) - y;
    var dir := Direction(piece.white);
    var target := w.cells[t];
    if OwnPieceOn(w, p, t) then false
    else
      match piece.kind
      case RoyalRecruits =>
        if target.None? then
          if dy != 0 then dx == dir && Abs(dy) == 1 && w.ctx.epTarget == Some(t)
          else if dx == dir then true
          else if !piece.hasMoved && dx == 2 * dir then OccupantAt(w, x + dir, y).None?
          else false
        else (dx == dir && Abs(dy) == 1) || (dx == dir && dy == 0 && piece.abilityUsed)
      case DarkPrince =>
        if dx != 0 && dy != 0 then false else PathClear(w, x, y, Row(t), Col(t))
      case Witch =>
        if dx != 0 && dy != 0 && Abs(dx) != Abs(dy) then false
        else PathClear(w, x, y, Row(t), Col(t))
      case Skeleton =>
        if Abs(dx) > 1 || Abs(dy) > 1 then false
        else if Abs(dy) == Abs(dx) && target.Some? && w.pieces[target.value].white != piece.white then true
        else dy == 0 && dx == dir && target.None?
      case RoyalGiant =>
        if piece.armed then false
        else if !piece.hasMoved && dx == 0 && Abs(dy) == 2 && CornerReady(w, x, y, if dy > 0 then 7 else 0)
        then true
        else Abs(dx) <= 1 && Abs(dy) <= 1
      case Knight =>
        KnightJump(dx, dy)
      case Musketeer =>
        if Abs(dx) != Abs(dy) then false else PathClear(w, x, y, Row(t), Col(t))
  }

  /** The coordinate `k` unit steps from `a` in the direction of the sign of `u`. */
  function Ray(a: int, u: int, k: int): int
  {
    if u > 0 then a + k else if u < 0 then a - k else a
  }

  /** The pieces that use isPathClear: the dark prince, the witch and the musketeer. */
  predicate Slider(kind: Kind)
  {
    kind == DarkPrince || kind == Witch || kind == Musketeer
  }

  /** The unit directions a sliding piece travels in: the dark prince along rows and columns,
      the musketeer along diagonals, the witch along both. */
  predicate SlidesAlong(kind: Kind, ux: int, uy: int)
  {
    -1 <= ux <= 1 && -1 <= uy <= 1 && (ux != 0 || uy != 0)
    && match kind
       case DarkPrince => ux == 0 || uy == 0
       case Musketeer => ux != 0 && uy != 0
       case Witch => true
       case _ => false
  }

  /** Along one of its directions, a sliding piece may move exactly to the blocks before the
      first occupied one, and onto that one when it holds an enemy. */
  lemma SlideAlongRay(w: World, p: PieceId, ux: int, uy: int, n: int)
    requires Consistent(w) && p < |w.pieces| && w.pieces[p].block.Some?
    requires SlidesAlong(w.pieces[p].kind, ux, uy) && n >= 1
    requires var o := w.pieces[p].block.value; OnBoard(Ray(Row(o), ux, n), Ray(Col(o), uy, n))
    ensures var o := w.pieces[p].block.value;
      var t := CellAt(Ray(Row(o), ux, n), Ray(Col(o), uy, n)).value;
      IsValidMove(w, p, t) <==>
        !OwnPieceOn(w, p, t)
        && forall k :: 0 < k < n ==> OccupantAt(w, Ray(Row(o), ux, k), Ray(Col(o), uy, k)).None?
  {
    var o := w.pieces[p].block.value;
    var x, y := Row(o), Col(o);
    var t := CellAt(Ray(x, ux, n), Ray(y, uy, n)).value;
    assert Steps(x, y, Row(t), Col(t)) == n;
    forall k | 0 < k < n
      ensures Along(x, Row(t), k) == Ray(x, ux, k) && Along(y, Col(t), k) == Ray(y, uy, k)
    {
    }
  }

  /** Every valid move of a sliding piece lies along one of its directions: the target is some
      number of unit steps from the piece's block. */
  lemma SlideOnRay(w: World, p: PieceId, t: Cell)
    requires Consistent(w) && p < |w.pieces| && w.pieces[p].block.Some?
    requires Slider(w.pieces[p].kind) && IsValidMove(w, p, t)
    ensures var o := w.pieces[p].block.value;
      var ux, uy := Sign(Row(o), Row(t)), Sign(Col(o), Col(t));
      var n := Steps(Row(o), Col(o), Row(t), Col(t));
      SlidesAlong(w.pieces[p].kind, ux, uy) && n >= 1
      && Row(t) == Ray(Row(o), ux, n) && Col(t) == Ray(Col(o), uy, n)
  {
    var o := w.pieces[p].block.value;
    if Row(t) == Row(o) && Col(t) == Col(o) {
      CoordinatesDetermineCell(t, o);
    }
  }

  /** A sliding piece's verdict depends only on the blocks strictly between and on the colour
      on the target: two boards that agree there give the same answer. */
  lemma SlideIgnoresElsewhere(w: World, w': World, p: PieceId, t: Cell)
    requires Consistent(w) && p < |w.pieces| && w.pieces[p].block.Some?
    requires Consistent(w') && p < |w'.pieces| && w'.pieces[p] == w.pieces[p]
    requires Slider(w.pieces[p].kind)
    requires OwnPieceOn(w, p, t) == OwnPieceOn(w', p, t)
    requires var o := w.pieces[p].block.value;
      forall k :: 0 < k < Steps(Row(o), Col(o), Row(t), Col(t)) ==>
        (OccupantAt(w, Along(Row(o), Row(t), k), Along(Col(o), Col(t), k)).None?
         <==> OccupantAt(w', Along(Row(o), Row(t), k), Along(Col(o), Col(t), k)).None?)
    ensures IsValidMove(w, p, t) == IsValidMove(w', p, t)
  {
  }

  /** A knight's verdict ignores every other block: two boards that agree on the knight and on
      the colour on the target give the same answer. */
  lemma KnightIgnoresOccupancy(w: World, w': World, p: PieceId, t: Cell)
    requires Consistent(w) && p < |w.pieces| && w.pieces[p].block.Some?
    requires Consistent(w') && p < |w'.pieces| && w'.pieces[p] == w.pieces[p]
    requires w.pieces[p].kind == Knight
    requires OwnPieceOn(w, p, t) == OwnPieceOn(w', p, t)
    ensures IsValidMove(w, p, t) == IsValidMove(w', p, t)
  {
  }

  /** A knight always lands on a block of the other shade of the chequerboard. */
  lemma KnightChangesShade(w: World, p: PieceId, t: Cell)
    requires Consistent(w) && p < |w.pieces| && w.pieces[p].block.Some?
    requires w.pieces[p].kind == Knight && IsValidMove(w, p, t)
    ensures var o := w.pieces[p].block.value;
      (Row(t) + Col(t)) % 2 != (Row(o) + Col(o)) % 2
  {
  }

  /** The recruit's moves: forward into an empty block, two forward from an unmoved start over an
      empty block, diagonally forward onto an enemy or onto the en-passant block, and straight
      forward onto an enemy only after its ability was used this turn. */
  lemma RecruitMoves(w: World, p: PieceId, t: Cell)
    requires Consistent(w) && p < |w.pieces| && w.pieces[p].block.Some?
    requires w.pieces[p].kind == RoyalRecruits
    ensures var piece := w.pieces[p];
      var o := piece.block.value;
      var dx := Row(t) - Row(o);
      var dy := Col(t) - Col(o);
      var dir := Direction(piece.white);
      IsValidMove(w, p, t) <==>
        if w.cells[t].None? then
          (dy == 0 && dx == dir)
          || (dy == 0 && dx == 2 * dir && !piece.hasMoved && OccupantAt(w, Row(o) + dir, Col(o)).None?)
          || (dx == dir && Abs(dy) == 1 && w.ctx.epTarget == Some(t))
        else
          !OwnPieceOn(w, p, t)
          && ((dx == dir && Abs(dy) == 1) || (dx == dir && dy == 0 && piece.abilityUsed))
  {
  }

  /** A recruit never moves backwards or sideways. */
  lemma RecruitOnlyAdvances(w: World, p: PieceId, t: Cell)
    requires Consistent(w) && p < |w.pieces| && w.pieces[p].block.Some?
    requires w.pieces[p].kind == RoyalRecruits
    requires IsValidMove(w, p, t)
    ensures var o := w.pieces[p].block.value;
      var d := (Row(t) - Row(o)) * Direction(w.pieces[p].white);
      d == 1 || d == 2
  {
    RecruitMoves(w, p, t);
    var dx := Row(t) - Row(w.pieces[p].block.value);
    var dir := Direction(w.pieces[p].white);
    assert dx == dir || dx == 2 * dir;
    assert dx * dir == if dir == 1 then dx else -dx;
  }

  /** The giant: nothing is valid while its bomb is armed; otherwise any one-block step is, and a
      two-column step along its row is exactly a castle. */
  lemma RoyalGiantMoves(w: World, p: PieceId, t: Cell)
    requires Consistent(w) && p < |w.pieces| && w.pieces[p].block.Some?
    requires w.pieces[p].kind == RoyalGiant
    ensures var piece := w.pieces[p];
      var o := piece.block.value;
      var dx := Row(t) - Row(o);
      var dy := Col(t) - Col(o);
      IsValidMove(w, p, t) <==>
        !piece.armed && !OwnPieceOn(w, p, t)
        && ((Abs(dx) <= 1 && Abs(dy) <= 1)
            || (dx == 0 && Abs(dy) == 2 && !piece.hasMoved
                && CornerReady(w, Row(o), Col(o), if dy > 0 then 7 else 0)))
  {
  }

  /** A valid giant move goes at most one row and two columns. A two-column move is made only
      by an unmoved giant along its row, with the block it passes empty and an unmoved dark
      prince on the corner it heads for. */
  lemma GiantReach(w: World, p: PieceId, t: Cell)
    requires Consistent(w) && p < |w.pieces| && w.pieces[p].block.Some?
    requires w.pieces[p].kind == RoyalGiant && IsValidMove(w, p, t)
    ensures var piece := w.pieces[p];
      var o := piece.block.value;
      var dx := Row(t) - Row(o);
      var dy := Col(t) - Col(o);
      var corner := CellAt(Row(o), if dy > 0 then 7 else 0).value;
      !piece.armed && Abs(dx) <= 1 && Abs(dy) <= 2
      && (Abs(dy) == 2 ==>
            dx == 0 && !piece.hasMoved
            && OccupantAt(w, Row(o), Col(o) + Sign(Col(o), Col(t))).None?
            && w.cells[corner].Some? && w.pieces[w.cells[corner].value].kind == DarkPrince
            && !w.pieces[w.cells[corner].value].hasMoved)
  {
    RoyalGiantMoves(w, p, t);
    var o := w.pieces[p].block.value;
    var dy := Col(t) - Col(o);
    if Abs(dy) == 2 {
      var rookY := if dy > 0 then 7 else 0;
      assert Steps(Row(o), Col(o), Row(o), rookY) >= 2;
      assert Along(Col(o), rookY, 1) == Col(o) + Sign(Col(o), Col(t));
    }
  }

  /** An unarmed giant may step onto any neighbouring block that holds no piece of its own. */
  lemma GiantStepsAnywhere(w: World, p: PieceId, t: Cell)
    requires Consistent(w) && p < |w.pieces| && w.pieces[p].block.Some?
    requires w.pieces[p].kind == RoyalGiant && !w.pieces[p].armed && !OwnPieceOn(w, p, t)
    requires var o := w.pieces[p].block.value; Abs(Row(t) - Row(o)) <= 1 && Abs(Col(t) - Col(o)) <= 1
    ensures IsValidMove(w, p, t)
  {
  }

  /** A skeleton steps one block forward into an empty block or one diagonal block, in any
      direction, onto an enemy. */
  lemma SkeletonMoves(w: World, p: PieceId, t: Cell)
    requires Consistent(w) && p < |w.pieces| && w.pieces[p].block.Some?
    requires w.pieces[p].kind == Skeleton
    ensures var piece := w.pieces[p];
      var o := piece.block.value;
      var dx := Row(t) - Row(o);
      var dy := Col(t) - Col(o);
      IsValidMove(w, p, t) <==>
        (w.cells[t].None? && dy == 0 && dx == Direction(piece.white))
        || (w.cells[t].Some? && !OwnPieceOn(w, p, t) && Abs(dx) == 1 && Abs(dy) == 1)
  {
    var o := w.pieces[p].block.value;
    if w.cells[t].Some? && !OwnPieceOn(w, p, t) && Row(t) == Row(o) && Col(t) == Col(o) {
      CoordinatesDetermineCell(t, o);
    }
  }
}
