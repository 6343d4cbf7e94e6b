/** moveTo (with en passant and the dark prince's charge) and executeCastling. */
module Moves {
  import opened Wrappers
  import opened Grid
  import opened Pieces
  import opened Worlds
  import opened Legality
  import opened Sweeps

  /** The en-passant capture at the start of moveTo: a recruit moving onto the recorded block
      removes the recorded recruit from wherever it stands. */
  function EnPassantCapture(w: World, p: PieceId, t: Cell): (r: World)
    requires Consistent(w) && p < |w.pieces|
    ensures Consistent(r) && Extends(w, r) && |r.pieces| == |w.pieces|
    ensures r.ctx.epTarget == w.ctx.epTarget && r.ctx.epPawn == w.ctx.epPawn
    ensures r.ctx.endTurns == w.ctx.endTurns && r.ctx.bombs == w.ctx.bombs
  {
    if w.pieces[p].kind == RoyalRecruits && w.ctx.epTarget == Some(t) && w.ctx.epPawn.Some?
       && w.pieces[w.ctx.epPawn.value].block.Some?
    then RemoveAt(w, w.pieces[w.ctx.epPawn.value].block.value)
    else w
  }

  /** moveTo's record of a recruit's two-row move: the passed-over block (no block if that is
      off the board) and the recruit become the en-passant opportunity. */
  function RecordTwoStep(w: World, p: PieceId, t: Cell): (r: World)
    requires Consistent(w) && p < |w.pieces|
    ensures Consistent(r) && r.cells == w.cells && r.pieces == w.pieces
    ensures r.ctx.endTurns == w.ctx.endTurns && r.ctx.bombs == w.ctx.bombs
  {
    var piece := w.pieces[p];
    if piece.kind == RoyalRecruits && piece.block.Some? && Abs(Row(t) - Row(piece.block.value)) == 2 then
      var o := piece.block.value;
      w.(ctx := w.ctx.(epTarget := CellAt(Row(o) + Direction(piece.white), Col(o)), epPawn := Some(p)))
    else w
  }

  /** The rest of moveTo on an empty target: leave the old block, disarm a recruit's spear,
      take the target block and mark the piece as moved. */
  function Relocate(w: World, p: PieceId, t: Cell): (r: World)
    requires Consistent(w) && p < |w.pieces| && w.cells[t].None?
    ensures Consistent(r) && Extends(w, r) && |r.pieces| == |w.pieces| && r.ctx == w.ctx
    ensures r.cells == (if w.pieces[p].block.Some? then w.cells[w.pieces[p].block.value := None] else w.cells)[t := Some(p)]
    ensures r.pieces[p] == w.pieces[p].(block := Some(t), hasMoved := true,
      armed := w.pieces[p].armed && w.pieces[p].kind != RoyalRecruits)
    ensures forall q :: 0 <= q < |w.pieces| && q != p ==> r.pieces[q] == w.pieces[q]
  {
    var piece := w.pieces[p];
    var cells := if piece.block.Some? then w.cells[piece.block.value := None] else w.cells;
    var armed := if piece.kind == RoyalRecruits && piece.armed then false else piece.armed;
    var moved := piece.(block := Some(t), hasMoved := true, armed := armed);
    RelocatedStaysConsistent(w, p, t, cells, moved);
    var r := w.(cells := cells[t := Some(p)], pieces := w.pieces[p := moved]);
    assert moved.kind == piece.kind && moved.white == piece.white;
    r
  }

  lemma RelocatedStaysConsistent(w: World, p: PieceId, t: Cell, cells: seq<Option<PieceId>>, moved: Piece)
    requires Consistent(w) && p < |w.pieces| && w.cells[t].None?
    requires cells == if w.pieces[p].block.Some? then w.cells[w.pieces[p].block.value := None] else w.cells
    requires moved.block == Some(t)
    ensures Consistent(w.(cells := cells[t := Some(p)], pieces := w.pieces[p := moved]))
  {
    var r := w.(cells := cells[t := Some(p)], pieces := w.pieces[p := moved]);
    forall d: Cell | r.cells[d].Some?
      ensures r.cells[d].value < |r.pieces| && r.pieces[r.cells[d].value].block == Some(d)
    {
      if d != t {
        assert r.cells[d] == w.cells[d];
        assert w.cells[d] != Some(p);
      }
    }
    forall q | 0 <= q < |r.pieces| && r.pieces[q].block.Some?
      ensures r.cells[r.pieces[q].block.value] == Some(q)
    {
      if q != p {
        var c := w.pieces[q].block.value;
        assert w.cells[c] == Some(q);
        assert c != t;
        assert w.pieces[p].block.Some? ==> w.pieces[p].block.value != c;
      }
    }
  }

  /** dealSplashDamage: remove the enemies on the four orthogonal neighbours, then disarm. */
  function Splash(w: World, p: PieceId): (r: World)
    requires Consistent(w) && p < |w.pieces| && w.pieces[p].block.Some?
    ensures Consistent(r) && Extends(w, r) && |r.pieces| == |w.pieces|
    ensures r.pieces[p] == w.pieces[p].(armed := false)
  {
    var o := w.pieces[p].block.value;
    var swept := Sweep(w, EnemiesOf(w.pieces[p].white), Row(o), Col(o), CrossOffsets);
    SweepKeepsFriend(w, w.pieces[p].white, Row(o), Col(o), CrossOffsets, p);
    FlagUpdateConsistent(swept, p, swept.pieces[p].(armed := false));
    ExtendsTransitive(w, swept, UpdatePiece(swept, p, swept.pieces[p].(armed := false)));
    UpdatePiece(swept, p, swept.pieces[p].(armed := false))
  }

  /** moveTo(target) for piece p. */
  function MoveTo(w: World, p: PieceId, t: Cell): (r: World)
    requires Consistent(w) && p < |w.pieces|
    ensures Consistent(r) && Extends(w, r) && |r.pieces| == |w.pieces|
  {
    var hadPiece := w.cells[t].Some?;
    var w1 := EnPassantCapture(w, p, t);
    var w2 := RemoveAt(w1, t);
    var w3 := RecordTwoStep(w2, p, t);
    var w4 := Relocate(w3, p, t);
    ExtendsTransitive(w, w1, w2);
    assert Extends(w2, w3);
    ExtendsTransitive(w, w2, w3);
    ExtendsTransitive(w, w3, w4);
    if w.pieces[p].kind == DarkPrince && w4.pieces[p].armed && hadPiece then
      var r := Splash(w4, p);
      ExtendsTransitive(w, w4, r);
      r
    else w4
  }

  /** The steps of moveTo before the charge. */
  function MoveToBeforeCharge(w: World, p: PieceId, t: Cell): (r: World)
    requires Consistent(w) && p < |w.pieces|
    ensures Consistent(r)
  {
    Relocate(RecordTwoStep(RemoveAt(EnPassantCapture(w, p, t), t), p, t), p, t)
  }

  lemma MoveToUnfold(w: World, p: PieceId, t: Cell)
    requires Consistent(w) && p < |w.pieces|
    ensures var w4 := MoveToBeforeCharge(w, p, t);
      MoveTo(w, p, t) ==
        if w.pieces[p].kind == DarkPrince && w4.pieces[p].armed && w.cells[t].Some? then Splash(w4, p) else w4
  {
  }

  /** moveTo leaves the turn's bookkeeping alone. */
  lemma MoveToKeepsTurn(w: World, p: PieceId, t: Cell)
    requires Consistent(w) && p < |w.pieces|
    ensures SameTurn(w, MoveTo(w, p, t))
  {
    var w1 := EnPassantCapture(w, p, t);
    var w2 := RemoveAt(w1, t);
    var w3 := RecordTwoStep(w2, p, t);
    var w4 := Relocate(w3, p, t);
    assert SameTurn(w, w1);
    assert SameTurn(w, w4);
    MoveToUnfold(w, p, t);
  }

  /** Piece p still stands on block o, or it is off the board and o is empty. */
  predicate Traced(w: World, p: PieceId, o: Cell)
  {
    |w.cells| == 64 && p < |w.pieces|
    && (w.pieces[p].block == Some(o) || (w.pieces[p].block.None? && w.cells[o].None?))
  }

  lemma RemoveAtTraced(w: World, c: Cell, p: PieceId, o: Cell)
    requires Consistent(w) && Traced(w, p, o)
    ensures Traced(RemoveAt(w, c), p, o)
  {
    if w.pieces[p].block == Some(o) && c != o {
      assert w.cells[c] != Some(p);
    }
  }

  /** The steps of moveTo before the relocation keep the mover as it was or take it off block o. */
  lemma BeforeRelocateTraced(w: World, p: PieceId, t: Cell)
    requires Consistent(w) && p < |w.pieces| && w.pieces[p].block.Some?
    ensures var w3 := RecordTwoStep(RemoveAt(EnPassantCapture(w, p, t), t), p, t);
      Traced(w3, p, w.pieces[p].block.value)
  {
    var o := w.pieces[p].block.value;
    var w1 := EnPassantCapture(w, p, t);
    if w1 != w {
      RemoveAtTraced(w, w.pieces[w.ctx.epPawn.value].block.value, p, o);
    }
    RemoveAtTraced(w1, t, p, o);
  }

  /** Everything moveTo does before the charge leaves the mover on the target and its old block
      empty. */
  lemma BeforeChargePlacesMover(w: World, p: PieceId, t: Cell)
    requires Consistent(w) && p < |w.pieces| && w.pieces[p].block.Some?
    ensures var o := w.pieces[p].block.value;
      var r := MoveToBeforeCharge(w, p, t);
      r.cells[t] == Some(p) && r.pieces[p].block == Some(t) && r.pieces[p].hasMoved
      && r.pieces[p].kind == w.pieces[p].kind && r.pieces[p].white == w.pieces[p].white
      && (o != t ==> r.cells[o].None?)
  {
    BeforeRelocateTraced(w, p, t);
  }

  /** After moveTo the target holds the mover, the mover's block is the target, it has moved,
      and its old block is empty. */
  lemma MoveToPlacesMover(w: World, p: PieceId, t: Cell)
    requires Consistent(w) && p < |w.pieces| && w.pieces[p].block.Some?
    ensures var r := MoveTo(w, p, t);
      r.cells[t] == Some(p) && r.pieces[p].block == Some(t) && r.pieces[p].hasMoved
      && (w.pieces[p].block.value != t ==> r.cells[w.pieces[p].block.value].None?)
  {
    var o := w.pieces[p].block.value;
    var w4 := MoveToBeforeCharge(w, p, t);
    MoveToUnfold(w, p, t);
    BeforeChargePlacesMover(w, p, t);
    if w.pieces[p].kind == DarkPrince && w4.pieces[p].armed && w.cells[t].Some? {
      var white := w4.pieces[p].white;
      SweepCells(w4, EnemiesOf(white), Row(t), Col(t), CrossOffsets);
      SweepKeepsFriend(w4, white, Row(t), Col(t), CrossOffsets, p);
    }
  }

  /** Only a dark prince charging onto an occupied block goes past the steps before the charge. */
  lemma NoCharge(w: World, p: PieceId, t: Cell)
    requires Consistent(w) && p < |w.pieces|
    requires w.pieces[p].kind != DarkPrince || w.cells[t].None?
    ensures MoveTo(w, p, t) == MoveToBeforeCharge(w, p, t)
  {
    MoveToUnfold(w, p, t);
  }

  /** The en-passant capture does not touch the mover unless the recorded recruit is the mover
      itself. */
  lemma EnPassantKeepsMover(w: World, p: PieceId, t: Cell)
    requires Consistent(w) && p < |w.pieces| && w.pieces[p].block.Some?
    requires w.ctx.epTarget != Some(t) || w.ctx.epPawn != Some(p)
    ensures EnPassantCapture(w, p, t).pieces[p] == w.pieces[p]
  {
    if EnPassantCapture(w, p, t) != w {
      assert w.pieces[w.ctx.epPawn.value].block.value != w.pieces[p].block.value;
    }
  }

  /** Emptying a block the piece does not stand on leaves the piece as it was. */
  lemma RemoveAtKeepsOther(w: World, c: Cell, p: PieceId)
    requires Consistent(w) && p < |w.pieces| && w.pieces[p].block.Some? && w.pieces[p].block.value != c
    ensures RemoveAt(w, c).pieces[p] == w.pieces[p]
  {
    assert w.cells[c] != Some(p);
  }

  /** The steps before the relocation record the two-row move of a recruit that is still on its
      block. */
  lemma RecordAfterCaptures(w: World, w2: World, p: PieceId, t: Cell)
    requires Consistent(w) && Consistent(w2) && p < |w.pieces| && p < |w2.pieces|
    requires w.pieces[p].block.Some? && w2.pieces[p] == w.pieces[p]
    requires w.pieces[p].kind == RoyalRecruits && Abs(Row(t) - Row(w.pieces[p].block.value)) == 2
    ensures var o := w.pieces[p].block.value;
      RecordTwoStep(w2, p, t).ctx.epTarget == CellAt(Row(o) + Direction(w.pieces[p].white), Col(o))
      && RecordTwoStep(w2, p, t).ctx.epPawn == Some(p)
  {
  }

  /** A recruit's two-row move records the block it passed over and itself as the en-passant
      opportunity, unless the move's own en-passant capture took the recruit itself. */
  lemma MoveToRecordsTwoStep(w: World, p: PieceId, t: Cell)
    requires Consistent(w) && p < |w.pieces| && w.pieces[p].block.Some?
    requires w.pieces[p].kind == RoyalRecruits
    requires Abs(Row(t) - Row(w.pieces[p].block.value)) == 2
    requires w.ctx.epTarget != Some(t) || w.ctx.epPawn != Some(p)
    ensures var o := w.pieces[p].block.value;
      MoveTo(w, p, t).ctx.epTarget == CellAt(Row(o) + Direction(w.pieces[p].white), Col(o))
      && MoveTo(w, p, t).ctx.epPawn == Some(p)
  {
    var w1 := EnPassantCapture(w, p, t);
    EnPassantKeepsMover(w, p, t);
    var w2 := RemoveAt(w1, t);
    RemoveAtKeepsOther(w1, t, p);
    RecordAfterCaptures(w, w2, p, t);
    NoCharge(w, p, t);
  }

  /** A recruit landing on the recorded en-passant block removes the recorded recruit. */
  lemma MoveToCapturesEnPassant(w: World, p: PieceId, t: Cell)
    requires Consistent(w) && p < |w.pieces| && w.pieces[p].block.Some?
    requires w.pieces[p].kind == RoyalRecruits
    requires w.ctx.epTarget == Some(t) && w.ctx.epPawn.Some? && w.ctx.epPawn.value != p
    requires w.pieces[w.ctx.epPawn.value].block.Some?
    ensures var e := w.ctx.epPawn.value;
      MoveTo(w, p, t).pieces[e].block.None?
      && MoveTo(w, p, t).cells[w.pieces[e].block.value] != Some(e)
  {
    var e := w.ctx.epPawn.value;
    var w1 := EnPassantCapture(w, p, t);
    assert w1.pieces[e].block.None?;
    var w2 := RemoveAt(w1, t);
    assert w2.pieces[e].block.None?;
    MoveToUnfold(w, p, t);
  }

  /** Without a recruit's en passant or two-step, moveTo is removal then relocation. */
  lemma BeforeChargeNonRecruit(w: World, p: PieceId, t: Cell)
    requires Consistent(w) && p < |w.pieces| && w.pieces[p].kind != RoyalRecruits
    ensures MoveToBeforeCharge(w, p, t) == Relocate(RemoveAt(w, t), p, t)
  {
    assert EnPassantCapture(w, p, t) == w;
    var w2 := RemoveAt(w, t);
    assert w2.pieces[p].kind == w.pieces[p].kind;
    assert RecordTwoStep(w2, p, t) == w2;
  }

  /** Writing a value at i, then at j, then again at i is writing at j and then at i. */
  lemma RewriteCell<T>(s: seq<T>, i: int, j: int, a: T, b: T, c: T)
    requires 0 <= i < |s| && 0 <= j < |s| && i != j
    ensures s[i := a][j := b][i := c] == s[j := b][i := c]
  {
  }

  /** Removal at the target followed by relocation onto it. */
  lemma RelocateAfterRemove(w: World, p: PieceId, t: Cell)
    requires Consistent(w) && p < |w.pieces| && w.pieces[p].block.Some?
    requires t != w.pieces[p].block.value
    ensures var r := Relocate(RemoveAt(w, t), p, t);
      r.cells == w.cells[w.pieces[p].block.value := None][t := Some(p)]
      && r.ctx == RemoveAt(w, t).ctx
      && r.pieces[p] == w.pieces[p].(block := Some(t), hasMoved := true,
        armed := w.pieces[p].armed && w.pieces[p].kind != RoyalRecruits)
  {
    var o := w.pieces[p].block.value;
    var w2 := RemoveAt(w, t);
    assert w2.pieces[p] == w.pieces[p] by {
      assert w.cells[t] != Some(p);
    }
    assert w2.cells == w.cells[t := None];
    RewriteCell(w.cells, t, o, None, None, Some(p));
  }

  /** A move that is not a recruit's and not a charge onto an occupied block is removal at the
      target followed by relocation onto it. */
  lemma MoveToPlain(w: World, p: PieceId, t: Cell)
    requires Consistent(w) && p < |w.pieces| && w.pieces[p].block.Some?
    requires t != w.pieces[p].block.value
    requires w.pieces[p].kind != RoyalRecruits
    requires !(w.pieces[p].kind == DarkPrince && w.pieces[p].armed && w.cells[t].Some?)
    ensures var r := MoveTo(w, p, t);
      r.cells == w.cells[w.pieces[p].block.value := None][t := Some(p)]
      && r.ctx == RemoveAt(w, t).ctx
      && r.pieces[p] == w.pieces[p].(block := Some(t), hasMoved := true)
  {
    BeforeChargeNonRecruit(w, p, t);
    MoveToUnfold(w, p, t);
    RelocateAfterRemove(w, p, t);
  }

  /** A charge onto an empty block keeps the dark prince armed. */
  lemma ChargeOntoEmptyStaysArmed(w: World, p: PieceId, t: Cell)
    requires Consistent(w) && p < |w.pieces| && w.pieces[p].block.Some?
    requires t != w.pieces[p].block.value && w.cells[t].None?
    requires w.pieces[p].kind == DarkPrince && w.pieces[p].armed
    ensures MoveTo(w, p, t).pieces[p].armed
  {
    MoveToPlain(w, p, t);
  }

  /** A charge onto an occupied block is the plain move followed by the splash around the
      landing block. */
  lemma ChargeSteps(w: World, p: PieceId, t: Cell)
    requires Consistent(w) && p < |w.pieces| && w.pieces[p].block.Some?
    requires t != w.pieces[p].block.value && w.cells[t].Some?
    requires w.pieces[p].kind == DarkPrince && w.pieces[p].armed
    ensures var w4 := Relocate(RemoveAt(w, t), p, t);
      w4.cells == w.cells[w.pieces[p].block.value := None][t := Some(p)]
      && w4.pieces[p] == w.pieces[p].(block := Some(t), hasMoved := true)
      && Extends(w, w4)
      && MoveTo(w, p, t) == Splash(w4, p)
  {
    BeforeChargeNonRecruit(w, p, t);
    RelocateAfterRemove(w, p, t);
    MoveToUnfold(w, p, t);
  }

  /** A charge onto an occupied block removes exactly the enemies on the landing block's four
      orthogonal neighbours, leaves every other block as it was, and disarms the prince. */
  lemma ChargeSplashes(w: World, p: PieceId, t: Cell)
    requires Consistent(w) && p < |w.pieces| && w.pieces[p].block.Some?
    requires t != w.pieces[p].block.value && w.cells[t].Some?
    requires w.pieces[p].kind == DarkPrince && w.pieces[p].armed
    ensures var r := MoveTo(w, p, t);
      var o := w.pieces[p].block.value;
      !r.pieces[p].armed
      && forall c: Cell :: c != o && c != t ==>
           r.cells[c] == if InCross(Row(t), Col(t), c) && Hits(w, EnemiesOf(w.pieces[p].white), c)
                         then None else w.cells[c]
  {
    var o := w.pieces[p].block.value;
    var white := w.pieces[p].white;
    var w4 := Relocate(RemoveAt(w, t), p, t);
    ChargeSteps(w, p, t);
    SweepCells(w4, EnemiesOf(white), Row(t), Col(t), CrossOffsets);
    forall c: Cell | c != o && c != t
      ensures MoveTo(w, p, t).cells[c] ==
        if InCross(Row(t), Col(t), c) && Hits(w, EnemiesOf(white), c) then None else w.cells[c]
    {
      CrossCovers(Row(t), Col(t), c);
      assert w4.cells[c] == w.cells[c];
      assert Hits(w4, EnemiesOf(white), c) == Hits(w, EnemiesOf(white), c);
    }
  }

  /** A valid two-column move of a royal giant: checkIfMoveIsValid's castling branch. */
  predicate CastleReady(w: World, p: PieceId, t: Cell)
    requires Consistent(w) && p < |w.pieces| && w.pieces[p].block.Some?
  {
    var piece := w.pieces[p];
    var o := piece.block.value;
    var dy := Col(t) - Col(o);
    piece.kind == RoyalGiant && !piece.armed && !piece.hasMoved && !OwnPieceOn(w, p, t)
    && Row(t) == Row(o) && Abs(dy) == 2
    && CornerReady(w, Row(o), Col(o), if dy > 0 then 7 else 0)
  }

  /** A giant's move is ready for castling exactly when it is valid and spans two columns. */
  lemma CastleReadyMeans(w: World, p: PieceId, t: Cell)
    requires Consistent(w) && p < |w.pieces| && w.pieces[p].block.Some?
    requires w.pieces[p].kind == RoyalGiant
    ensures CastleReady(w, p, t) <==> IsValidMove(w, p, t) && Abs(Col(t) - Col(w.pieces[p].block.value)) == 2
  {
    RoyalGiantMoves(w, p, t);
  }

  /** The corner executeCastling takes its partner from: the end of the giant's row on the side
      it moves towards. */
  function CastleCorner(o: Cell, t: Cell): (c: Cell)
    ensures Row(c) == Row(o) && Col(c) == (if Col(t) > Col(o) then 7 else 0)
  {
    BlockCoordinates(o);
    CellAt(Row(o), if Col(t) > Col(o) then 7 else 0).value
  }

  /** The block the corner piece is moved to: beside the target, on the side the giant came from. */
  function CastleLanding(o: Cell, t: Cell): (c: Cell)
    requires Abs(Col(t) - Col(o)) == 2
    ensures Row(c) == Row(o) && Col(c) == (Col(o) + Col(t)) / 2
  {
    BlockCoordinates(o);
    CellAt(Row(o), if Col(t) > Col(o) then Col(t) - 1 else Col(t) + 1).value
  }

  /** executeCastling: the giant moves to the target, then whatever stands on the corner it
      headed for is moved to the block beside the target on the giant's side. */
  function Castle(w: World, p: PieceId, t: Cell): (r: World)
    requires Consistent(w) && p < |w.pieces| && w.pieces[p].block.Some?
    requires CastleReady(w, p, t)
    ensures Consistent(r) && Extends(w, r) && |r.pieces| == |w.pieces|
  {
    var o := w.pieces[p].block.value;
    var w1 := MoveTo(w, p, t);
    CastleLandingEmpty(w, p, t);
    match w1.cells[CastleCorner(o, t)]
    case None => w1
    case Some(rook) =>
      var r := Relocate(w1, rook, CastleLanding(o, t));
      ExtendsTransitive(w, w1, r);
      r
  }

  /** Castling leaves the turn's bookkeeping alone. */
  lemma CastleKeepsTurn(w: World, p: PieceId, t: Cell)
    requires Consistent(w) && p < |w.pieces| && w.pieces[p].block.Some?
    requires CastleReady(w, p, t)
    ensures SameTurn(w, Castle(w, p, t))
  {
    MoveToKeepsTurn(w, p, t);
  }

  /** Before castling, the block the corner piece will land on is empty and is neither the
      giant's block nor its target, and the target is on the giant's row. */
  lemma CastleLandingFree(w: World, p: PieceId, t: Cell)
    requires Consistent(w) && p < |w.pieces| && w.pieces[p].block.Some?
    requires CastleReady(w, p, t)
    ensures var o := w.pieces[p].block.value;
      var landing := CastleLanding(o, t);
      Row(t) == Row(o) && w.cells[landing].None? && landing != t && landing != o
  {
    var o := w.pieces[p].block.value;
    var x := Row(o);
    var y := Col(o);
    var rookY := if Col(t) > y then 7 else 0;
    assert CornerReady(w, x, y, rookY);
    var landing := CastleLanding(o, t);
    assert Along(y, rookY, 1) == Col(landing);
    assert 1 < Steps(x, y, x, rookY);
    assert OccupantAt(w, Along(x, x, 1), Along(y, rookY, 1)).None?;
    BlockCoordinates(landing);
  }

  /** The block the corner piece lands on is empty once the giant has moved, and the giant's
      target is on its own row. */
  lemma CastleLandingEmpty(w: World, p: PieceId, t: Cell)
    requires Consistent(w) && p < |w.pieces| && w.pieces[p].block.Some?
    requires CastleReady(w, p, t)
    ensures var o := w.pieces[p].block.value;
      Row(t) == Row(o) && MoveTo(w, p, t).cells[CastleLanding(o, t)].None?
  {
    CastleLandingFree(w, p, t);
    MoveToPlain(w, p, t);
  }

  /** The unmoved dark prince on the corner a castling move heads for. */
  lemma CastlePartner(w: World, p: PieceId, t: Cell)
    requires Consistent(w) && p < |w.pieces| && w.pieces[p].block.Some?
    requires CastleReady(w, p, t)
    ensures var corner := CastleCorner(w.pieces[p].block.value, t);
      w.cells[corner].Some? && w.cells[corner] != Some(p)
      && w.pieces[w.cells[corner].value].kind == DarkPrince
      && !w.pieces[w.cells[corner].value].hasMoved
  {
    var o := w.pieces[p].block.value;
    var corner := CastleCorner(o, t);
    BlockCoordinates(corner);
    assert CornerReady(w, Row(o), Col(o), Col(corner));
  }

  /** With the corner off the giant's target, castling is the giant's move followed by the
      corner piece's relocation. */
  lemma CastleSteps(w: World, p: PieceId, t: Cell)
    requires Consistent(w) && p < |w.pieces| && w.pieces[p].block.Some?
    requires CastleReady(w, p, t)
    requires CastleCorner(w.pieces[p].block.value, t) != t
    ensures var o := w.pieces[p].block.value;
      var corner := CastleCorner(o, t);
      var w1 := MoveTo(w, p, t);
      w.cells[corner].Some? && w.cells[corner] != Some(p) && corner != o
      && w1.cells[corner] == w.cells[corner]
      && w1.cells[CastleLanding(o, t)].None?
      && Castle(w, p, t) == Relocate(w1, w.cells[corner].value, CastleLanding(o, t))
  {
    var o := w.pieces[p].block.value;
    var corner := CastleCorner(o, t);
    CastlePartner(w, p, t);
    assert corner != o;
    MoveToPlain(w, p, t);
    CastleLandingEmpty(w, p, t);
  }

  /** Castling with the corner piece out of the giant's way: the giant ends on the target, has
      moved, and its old block is empty. */
  lemma CastleMovesGiant(w: World, p: PieceId, t: Cell)
    requires Consistent(w) && p < |w.pieces| && w.pieces[p].block.Some?
    requires CastleReady(w, p, t)
    requires CastleCorner(w.pieces[p].block.value, t) != t
    ensures var o := w.pieces[p].block.value;
      var r := Castle(w, p, t);
      r.cells[t] == Some(p) && r.pieces[p].block == Some(t) && r.pieces[p].hasMoved
      && r.cells[o].None?
  {
    var o := w.pieces[p].block.value;
    var corner := CastleCorner(o, t);
    var landing := CastleLanding(o, t);
    CastleSteps(w, p, t);
    MoveToPlacesMover(w, p, t);
    var w1 := MoveTo(w, p, t);
    var rook := w.cells[corner].value;
    assert w1.pieces[rook].block == Some(corner);
    assert landing != t && landing != o by {
      BlockCoordinates(landing);
      BlockCoordinates(t);
    }
    RelocateElsewhere(w1, rook, landing, t, p);
    RelocateElsewhere(w1, rook, landing, o, p);
  }

  /** Relocating piece q leaves every other block and every other piece alone. */
  lemma RelocateElsewhere(w: World, q: PieceId, t: Cell, c: Cell, p: PieceId)
    requires Consistent(w) && q < |w.pieces| && w.cells[t].None? && p < |w.pieces| && p != q
    requires c != t && (w.pieces[q].block.None? || c != w.pieces[q].block.value)
    ensures Relocate(w, q, t).cells[c] == w.cells[c] && Relocate(w, q, t).pieces[p] == w.pieces[p]
  {
  }

  /** Castling with the corner piece out of the giant's way: the piece on the corner ends on the
      block the giant passed over, has moved, and the corner is empty. */
  lemma CastleMovesPartner(w: World, p: PieceId, t: Cell, rook: PieceId)
    requires Consistent(w) && p < |w.pieces| && w.pieces[p].block.Some?
    requires CastleReady(w, p, t)
    requires CastleCorner(w.pieces[p].block.value, t) != t
    requires w.cells[CastleCorner(w.pieces[p].block.value, t)] == Some(rook)
    ensures var o := w.pieces[p].block.value;
      var passed := CastleLanding(o, t);
      var r := Castle(w, p, t);
      r.cells[passed] == Some(rook) && r.pieces[rook].block == Some(passed) && r.pieces[rook].hasMoved
      && r.cells[CastleCorner(o, t)].None?
  {
    var o := w.pieces[p].block.value;
    var corner := CastleCorner(o, t);
    CastleSteps(w, p, t);
    var w1 := MoveTo(w, p, t);
    assert w1.pieces[rook].block == Some(corner);
  }

  /** The en-passant capture either takes piece q or leaves it on block t. */
  lemma EnPassantSparesTarget(w: World, p: PieceId, t: Cell, q: PieceId)
    requires Consistent(w) && p < |w.pieces| && w.cells[t] == Some(q)
    ensures var w1 := EnPassantCapture(w, p, t);
      w1.pieces[q].block.None? || w1.cells[t] == Some(q)
  {
  }

  /** Everything moveTo does before the charge takes the piece standing on the target. */
  lemma BeforeChargeCaptures(w: World, p: PieceId, t: Cell, q: PieceId)
    requires Consistent(w) && p < |w.pieces| && w.cells[t] == Some(q) && q != p
    ensures MoveToBeforeCharge(w, p, t).pieces[q].block.None?
  {
    EnPassantSparesTarget(w, p, t, q);
    var w1 := EnPassantCapture(w, p, t);
    assert RemoveAt(w1, t).pieces[q].block.None?;
  }

  /** The piece a move lands on is taken off the board. */
  lemma MoveToCaptures(w: World, p: PieceId, t: Cell)
    requires Consistent(w) && p < |w.pieces| && w.cells[t].Some? && w.cells[t] != Some(p)
    ensures MoveTo(w, p, t).pieces[w.cells[t].value].block.None?
  {
    var q := w.cells[t].value;
    BeforeChargeCaptures(w, p, t, q);
    var w4 := MoveToBeforeCharge(w, p, t);
    MoveToUnfold(w, p, t);
    if w.pieces[p].kind == DarkPrince && w4.pieces[p].armed {
      var o := w4.pieces[p].block.value;
      SweepKeepsUncovered(w4, EnemiesOf(w4.pieces[p].white), Row(o), Col(o), CrossOffsets, q);
    }
  }

  /** With the corner on the giant's target, castling is the giant's move followed by the giant's
      own relocation to the block it passed over. */
  lemma CornerCastleSteps(w: World, p: PieceId, t: Cell)
    requires Consistent(w) && p < |w.pieces| && w.pieces[p].block.Some?
    requires CastleReady(w, p, t)
    requires CastleCorner(w.pieces[p].block.value, t) == t
    ensures var w1 := MoveTo(w, p, t);
      w1.cells[t] == Some(p) && w1.pieces[p].block == Some(t)
      && w1.cells[CastleLanding(w.pieces[p].block.value, t)].None?
      && Castle(w, p, t) == Relocate(w1, p, CastleLanding(w.pieces[p].block.value, t))
  {
    MoveToPlacesMover(w, p, t);
    CastleLandingEmpty(w, p, t);
  }

  /** A castling target holding a piece holds an enemy. */
  lemma CastleTargetEnemy(w: World, p: PieceId, t: Cell)
    requires Consistent(w) && p < |w.pieces| && w.pieces[p].block.Some?
    requires CastleReady(w, p, t) && w.cells[t].Some?
    ensures w.cells[t] != Some(p) && w.pieces[w.cells[t].value].white != w.pieces[p].white
  {
  }

  /** Castling towards an enemy dark prince on the target corner: the giant takes the prince and
      is then itself moved back onto the block it passed over. */
  lemma CastleOntoCorner(w: World, p: PieceId, t: Cell)
    requires Consistent(w) && p < |w.pieces| && w.pieces[p].block.Some?
    requires CastleReady(w, p, t)
    requires CastleCorner(w.pieces[p].block.value, t) == t
    ensures w.cells[t].Some? && w.pieces[w.cells[t].value].white != w.pieces[p].white
    ensures var r := Castle(w, p, t);
      var passed := CastleLanding(w.pieces[p].block.value, t);
      r.pieces[w.cells[t].value].block.None?
      && r.cells[passed] == Some(p) && r.pieces[p].block == Some(passed) && r.cells[t].None?
  {
    CastlePartner(w, p, t);
    CastleTargetEnemy(w, p, t);
    MoveToCaptures(w, p, t);
    CornerCastleSteps(w, p, t);
  }
}
