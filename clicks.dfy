/** Piece.move and Piece.act: what one piece does with one mouse click in one frame. */
module Clicks {
  import opened Wrappers
  import opened Grid
  import opened Pieces
  import opened Worlds
  import opened Legality
  import opened Moves
  import opened Abilities

  /** The frame's mouse click: none, on a block, on a colour's ability button, or anywhere
      else off the board. */
  datatype Click = NoClick | OnBlock(block: Cell) | OnButton(white: bool) | OffBoard

  /** The world's selected piece is p exactly when p is selected. */
  predicate SelectionRecorded(w: World, p: PieceId)
    requires p < |w.pieces|
  {
    w.ctx.selectedPiece == if w.pieces[p].selected then Some(p) else None
  }

  /** Clicking the piece's own block toggles its selection, and the world's selected piece with it. */
  function ToggleSelection(w: World, p: PieceId): (r: World)
    requires Consistent(w) && p < |w.pieces|
    ensures Consistent(r) && Extends(w, r)
    ensures r.cells == w.cells && |r.pieces| == |w.pieces| && SameTurn(w, r)
    ensures r.pieces[p] == w.pieces[p].(selected := !w.pieces[p].selected)
    ensures forall q :: 0 <= q < |w.pieces| && q != p ==> r.pieces[q] == w.pieces[q]
    ensures SelectionRecorded(r, p)
  {
    if w.pieces[p].selected then Deselect(w, p).(ctx := w.ctx.(selectedPiece := None))
    else
      FlagUpdateConsistent(w, p, w.pieces[p].(selected := true));
      UpdatePiece(w, p, w.pieces[p].(selected := true)).(ctx := w.ctx.(selectedPiece := Some(p)))
  }

  /** queueRoyalGiantExplosion: disarm and ask the world for a bomb of the giant's colour on t. */
  function QueueExplosion(w: World, p: PieceId, t: Cell): (r: World)
    requires Consistent(w) && p < |w.pieces|
    ensures Consistent(r) && Extends(w, r)
    ensures r.cells == w.cells && |r.pieces| == |w.pieces| && r.pieces[p] == w.pieces[p].(armed := false)
    ensures forall q :: 0 <= q < |w.pieces| && q != p ==> r.pieces[q] == w.pieces[q]
    ensures r.ctx == w.ctx.(bombs := w.ctx.bombs + [BombOrder(t, w.pieces[p].white)])
  {
    FlagUpdateConsistent(w, p, w.pieces[p].(armed := false));
    var w1 := UpdatePiece(w, p, w.pieces[p].(armed := false));
    w1.(ctx := w1.ctx.(bombs := w1.ctx.bombs + [BombOrder(t, w.pieces[p].white)]))
  }

  /** After a plain move: a recruit that reached the far row opens the promotion menu and is
      deselected without ending the turn; any other piece ends its turn. */
  function FinishMove(w: World, p: PieceId): (r: World)
    requires Consistent(w) && p < |w.pieces|
    ensures Consistent(r) && Extends(w, r)
  {
    if CanPromote(w.pieces[p]) then Deselect(ShowPromotionMenu(w, p), p)
    else PieceEndTurn(w, p)
  }

  /** A valid move: castling when a giant moves two columns, otherwise moveTo and its ending. */
  function ValidMove(w: World, p: PieceId, t: Cell): (r: World)
    requires Consistent(w) && p < |w.pieces| && w.pieces[p].block.Some? && IsValidMove(w, p, t)
    ensures Consistent(r) && Extends(w, r)
  {
    if w.pieces[p].kind == RoyalGiant && Abs(Col(t) - Col(w.pieces[p].block.value)) == 2 then
      CastleReadyMeans(w, p, t);
      var castled := Castle(w, p, t);
      var r := PieceEndTurn(castled, p);
      ExtendsTransitive(w, castled, r);
      r
    else
      var moved := MoveTo(w, p, t);
      var r := FinishMove(moved, p);
      ExtendsTransitive(w, moved, r);
      r
  }

  /** The branch of move for a click on another block while the piece is selected. */
  function Command(w: World, p: PieceId, t: Cell): (r: World)
    requires Consistent(w) && p < |w.pieces| && w.pieces[p].block.Some?
    ensures Consistent(r) && Extends(w, r)
    ensures !(w.pieces[p].kind == RoyalGiant && w.pieces[p].armed) && !IsValidMove(w, p, t) ==> r == w
  {
    if w.pieces[p].kind == RoyalGiant && w.pieces[p].armed then
      var q := QueueExplosion(w, p, t);
      var r := PieceEndTurn(q, p);
      ExtendsTransitive(w, q, r);
      r
    else if IsValidMove(w, p, t) then ValidMove(w, p, t)
    else w
  }

  /** move for piece p with the given click, when it is white's turn iff whiteTurn. Nothing
      happens without a click, before the game starts, out of turn, while the promotion menu
      is open, or for a click off the blocks. */
  function Move(w: World, p: PieceId, click: Click, whiteTurn: bool): (r: World)
    requires Consistent(w) && p < |w.pieces| && w.pieces[p].block.Some?
    ensures Consistent(r) && Extends(w, r)
    ensures r != w ==>
      click.OnBlock? && w.ctx.gameStarted && w.pieces[p].white == whiteTurn
      && !w.ctx.promotionMenuActive && (click.block == w.pieces[p].block.value || w.pieces[p].selected)
  {
    var piece := w.pieces[p];
    if click.NoClick? || !w.ctx.gameStarted || piece.white != whiteTurn || w.ctx.promotionMenuActive then w
    else match click
      case OnBlock(t) =>
        if t == piece.block.value then ToggleSelection(w, p)
        else if piece.selected then Command(w, p, t)
        else w
      case _ => w
  }

  /** The condition on which act uses the ability: the piece is selected, its ability is not
      both used and armed, its colour's button was clicked, and the colour can pay. */
  predicate AbilityGate(w: World, p: PieceId, click: Click)
    requires p < |w.pieces|
  {
    var piece := w.pieces[p];
    piece.selected && (!piece.abilityUsed || !piece.armed) && click == OnButton(piece.white)
    && ElixirOf(w, piece.white) >= AbilityCost(piece.kind)
  }

  /** act for piece p: the ability if the gate is open, then move with the same click. */
  function Act(w: World, p: PieceId, click: Click, whiteTurn: bool): (r: World)
    requires Consistent(w) && p < |w.pieces| && w.pieces[p].block.Some?
    ensures Consistent(r) && Extends(w, r)
    ensures !click.OnButton? ==> r == Move(w, p, click, whiteTurn)
    ensures click.OnButton? ==> r == if AbilityGate(w, p, click) then UseAbility(w, p) else w
  {
    var w1 := if AbilityGate(w, p, click) then UseAbility(w, p) else w;
    UseAbilityKeepsPlace(w, p);
    var r := Move(w1, p, click, whiteTurn);
    ExtendsTransitive(w, w1, r);
    r
  }

  /** Selecting and then deselecting (or the reverse) gives back the world one started from. */
  lemma {:induction false} ToggleTwice(w: World, p: PieceId)
    requires Consistent(w) && p < |w.pieces| && SelectionRecorded(w, p)
    ensures ToggleSelection(ToggleSelection(w, p), p) == w
  {
    var r := ToggleSelection(ToggleSelection(w, p), p);
    assert r.pieces == w.pieces;
  }

  /** A click on the piece's own block, in turn, toggles its selection and moves nothing. */
  lemma ClickOwnBlockToggles(w: World, p: PieceId, whiteTurn: bool)
    requires Consistent(w) && p < |w.pieces| && w.pieces[p].block.Some?
    requires w.ctx.gameStarted && w.pieces[p].white == whiteTurn && !w.ctx.promotionMenuActive
    ensures var r := Move(w, p, OnBlock(w.pieces[p].block.value), whiteTurn);
      r.cells == w.cells && SameTurn(w, r) && r.pieces[p].selected == !w.pieces[p].selected
      && SelectionRecorded(r, p)
  {
  }

  /** An armed giant clicking another block while selected queues one bomb of its colour on that
      block, ends its turn, and moves nothing. */
  lemma ArmedGiantQueuesBomb(w: World, p: PieceId, t: Cell, whiteTurn: bool)
    requires Consistent(w) && p < |w.pieces| && w.pieces[p].block.Some?
    requires w.ctx.gameStarted && w.pieces[p].white == whiteTurn && !w.ctx.promotionMenuActive
    requires w.pieces[p].selected && t != w.pieces[p].block.value
    requires w.pieces[p].kind == RoyalGiant && w.pieces[p].armed
    ensures var r := Move(w, p, OnBlock(t), whiteTurn);
      r.cells == w.cells && r.ctx.bombs == w.ctx.bombs + [BombOrder(t, w.pieces[p].white)]
      && r.ctx.endTurns == w.ctx.endTurns + 1
      && !r.pieces[p].armed && !r.pieces[p].selected && !r.pieces[p].abilityUsed
  {
  }

  /** A selected piece that is not an armed giant ignores a click on a block it cannot move to. */
  lemma InvalidTargetIgnored(w: World, p: PieceId, t: Cell, whiteTurn: bool)
    requires Consistent(w) && p < |w.pieces| && w.pieces[p].block.Some?
    requires !(w.pieces[p].kind == RoyalGiant && w.pieces[p].armed)
    requires t != w.pieces[p].block.value && !IsValidMove(w, p, t)
    ensures Move(w, p, OnBlock(t), whiteTurn) == w
  {
  }

  /** A selected piece in turn that is not an armed giant makes the valid move it is asked for. */
  lemma MoveMakesValidMove(w: World, p: PieceId, t: Cell, whiteTurn: bool)
    requires Consistent(w) && p < |w.pieces| && w.pieces[p].block.Some?
    requires w.ctx.gameStarted && w.pieces[p].white == whiteTurn && !w.ctx.promotionMenuActive
    requires w.pieces[p].selected && t != w.pieces[p].block.value
    requires !(w.pieces[p].kind == RoyalGiant && w.pieces[p].armed) && IsValidMove(w, p, t)
    ensures Move(w, p, OnBlock(t), whiteTurn) == ValidMove(w, p, t)
  {
  }

  /** The ending of a plain move: a recruit that can promote opens the menu for itself, stays
      deselected and keeps the turn; any other piece is deselected and ends the turn. */
  lemma FinishMoveEnds(w: World, p: PieceId)
    requires Consistent(w) && p < |w.pieces| && !w.ctx.promotionMenuActive
    ensures var r := FinishMove(w, p);
      r.cells == w.cells && r.pieces[p].block == w.pieces[p].block && !r.pieces[p].selected
      && r.ctx.bombs == w.ctx.bombs
      && (if CanPromote(w.pieces[p])
          then r.ctx.promotionMenuActive && r.ctx.promoting == Some(p) && r.ctx.endTurns == w.ctx.endTurns
          else !r.ctx.promotionMenuActive && r.ctx.endTurns == w.ctx.endTurns + 1)
  {
  }

  /** A valid plain move puts the piece on the target and empties its old block; a recruit that
      can now promote opens the promotion menu for itself without ending the turn, and any other
      piece ends the turn. */
  lemma ValidMovePlaces(w: World, p: PieceId, t: Cell, whiteTurn: bool)
    requires Consistent(w) && p < |w.pieces| && w.pieces[p].block.Some?
    requires w.ctx.gameStarted && w.pieces[p].white == whiteTurn && !w.ctx.promotionMenuActive
    requires w.pieces[p].selected && t != w.pieces[p].block.value
    requires !(w.pieces[p].kind == RoyalGiant && w.pieces[p].armed) && IsValidMove(w, p, t)
    requires !(w.pieces[p].kind == RoyalGiant && Abs(Col(t) - Col(w.pieces[p].block.value)) == 2)
    ensures var r := Move(w, p, OnBlock(t), whiteTurn);
      r.cells[t] == Some(p) && r.pieces[p].block == Some(t) && r.cells[w.pieces[p].block.value].None?
      && !r.pieces[p].selected && r.ctx.bombs == w.ctx.bombs
      && (if CanPromote(r.pieces[p])
          then r.ctx.promotionMenuActive && r.ctx.promoting == Some(p) && r.ctx.endTurns == w.ctx.endTurns
          else !r.ctx.promotionMenuActive && r.ctx.endTurns == w.ctx.endTurns + 1)
  {
    var moved := MoveTo(w, p, t);
    MoveToPlacesMover(w, p, t);
    MoveToKeepsTurn(w, p, t);
    FinishMoveEnds(moved, p);
    MoveMakesValidMove(w, p, t, whiteTurn);
    assert Move(w, p, OnBlock(t), whiteTurn) == FinishMove(moved, p);
  }

  /** A selected giant in turn that is not armed castles when it makes a valid two-column move,
      and that ends the turn. */
  lemma MoveCastles(w: World, p: PieceId, t: Cell, whiteTurn: bool)
    requires Consistent(w) && p < |w.pieces| && w.pieces[p].block.Some?
    requires w.ctx.gameStarted && w.pieces[p].white == whiteTurn && !w.ctx.promotionMenuActive
    requires w.pieces[p].selected && t != w.pieces[p].block.value
    requires CastleReady(w, p, t)
    ensures var r := Move(w, p, OnBlock(t), whiteTurn);
      r.cells == Castle(w, p, t).cells
      && r.pieces[p] == Castle(w, p, t).pieces[p].(abilityUsed := false, selected := false)
      && r.ctx.endTurns == w.ctx.endTurns + 1 && r.ctx.bombs == w.ctx.bombs
  {
    CastleReadyMeans(w, p, t);
    CastleKeepsTurn(w, p, t);
    MoveMakesValidMove(w, p, t, whiteTurn);
  }

  /** Castling towards a corner other than the target puts the giant on the target, empties its
      old block and ends the turn. */
  lemma CastlingEndsTurn(w: World, p: PieceId, t: Cell, whiteTurn: bool)
    requires Consistent(w) && p < |w.pieces| && w.pieces[p].block.Some?
    requires w.ctx.gameStarted && w.pieces[p].white == whiteTurn && !w.ctx.promotionMenuActive
    requires w.pieces[p].selected && t != w.pieces[p].block.value
    requires CastleReady(w, p, t)
    requires CastleCorner(w.pieces[p].block.value, t) != t
    ensures var r := Move(w, p, OnBlock(t), whiteTurn);
      r.cells[t] == Some(p) && r.pieces[p].block == Some(t) && r.cells[w.pieces[p].block.value].None?
      && !r.pieces[p].selected && r.ctx.endTurns == w.ctx.endTurns + 1
  {
    MoveCastles(w, p, t, whiteTurn);
    CastleMovesGiant(w, p, t);
  }

  /** Castling onto the corner itself (possible when the corner holds an enemy prince) captures
      it and leaves the giant on the block it passes, and ends the turn. */
  lemma CastlingOntoCornerEndsTurn(w: World, p: PieceId, t: Cell, whiteTurn: bool)
    requires Consistent(w) && p < |w.pieces| && w.pieces[p].block.Some?
    requires w.ctx.gameStarted && w.pieces[p].white == whiteTurn && !w.ctx.promotionMenuActive
    requires w.pieces[p].selected && t != w.pieces[p].block.value
    requires CastleReady(w, p, t)
    requires CastleCorner(w.pieces[p].block.value, t) == t
    ensures var passed := CastleLanding(w.pieces[p].block.value, t);
      var r := Move(w, p, OnBlock(t), whiteTurn);
      r.cells[passed] == Some(p) && r.pieces[p].block == Some(passed) && r.cells[t].None?
      && !r.pieces[p].selected && r.ctx.endTurns == w.ctx.endTurns + 1
  {
    MoveCastles(w, p, t, whiteTurn);
    CastleOntoCorner(w, p, t);
  }

  /** The ability button never moves a piece: the ability is used when the gate is open, and
      otherwise nothing happens. */
  lemma ButtonOnlyUsesAbility(w: World, p: PieceId, whiteTurn: bool)
    requires Consistent(w) && p < |w.pieces| && w.pieces[p].block.Some?
    requires w.pieces[p].selected && (!w.pieces[p].abilityUsed || !w.pieces[p].armed)
    ensures var click := OnButton(w.pieces[p].white);
      Act(w, p, click, whiteTurn) ==
        if ElixirOf(w, w.pieces[p].white) >= AbilityCost(w.pieces[p].kind) then UseAbility(w, p) else w
  {
  }

  /** An ability the colour cannot pay for, or one already used while armed, is not used. */
  lemma AbilityRefused(w: World, p: PieceId, whiteTurn: bool)
    requires Consistent(w) && p < |w.pieces| && w.pieces[p].block.Some?
    requires ElixirOf(w, w.pieces[p].white) < AbilityCost(w.pieces[p].kind)
             || (w.pieces[p].abilityUsed && w.pieces[p].armed) || !w.pieces[p].selected
    ensures Act(w, p, OnButton(w.pieces[p].white), whiteTurn) == w
  {
  }
}
