/** The board as a value: the blocks' occupants, the piece table, and the state of the
    surrounding GridWorld that the pieces read and write. */
module Worlds {
  import opened Wrappers
  import opened Grid
  import opened Pieces
  import Elixir

  /** A piece is named by its index in the piece table. */
  type PieceId = nat

  /** A GridWorld.addBomb(target, isWhite) request. */
  datatype BombOrder = BombOrder(target: Cell, white: bool)

  /** The GridWorld state the pieces use. GridWorld itself is not part of this model: its
      endTurn is counted, not executed. */
  datatype Context = Context(
    whitePieces: seq<PieceId>,
    blackPieces: seq<PieceId>,
    epTarget: Option<Cell>,
    epPawn: Option<PieceId>,
    whiteElixir: int,
    blackElixir: int,
    bombs: seq<BombOrder>,
    endTurns: nat,
    selectedPiece: Option<PieceId>,
    promotionMenuActive: bool,
    promoting: Option<PieceId>,
    gameStarted: bool)

  datatype World = World(cells: seq<Option<PieceId>>, pieces: seq<Piece>, ctx: Context)

  /** Every block's occupant lists that block as its currentBlock, and every piece that has a
      block is that block's occupant. */
  predicate Consistent(w: World)
  {
    |w.cells| == 64
    && (forall c: Cell :: w.cells[c].Some? ==>
          w.cells[c].value < |w.pieces| && w.pieces[w.cells[c].value].block == Some(c))
    && (forall p :: 0 <= p < |w.pieces| && w.pieces[p].block.Some? ==>
          w.cells[w.pieces[p].block.value] == Some(p))
    && (w.ctx.epPawn.Some? ==> w.ctx.epPawn.value < |w.pieces|)
  }

  /** The occupant of the block at (x, y); no piece off the board. */
  function OccupantAt(w: World, x: int, y: int): Option<PieceId>
    requires |w.cells| == 64
  {
    match CellAt(x, y)
    case None => None
    case Some(c) => w.cells[c]
  }

  /** The second world keeps every piece of the first with its type and colour, and may add more. */
  predicate Extends(w: World, r: World)
  {
    |w.pieces| <= |r.pieces|
    && forall q :: 0 <= q < |w.pieces| ==>
         r.pieces[q].kind == w.pieces[q].kind && r.pieces[q].white == w.pieces[q].white
  }

  lemma ExtendsTransitive(a: World, b: World, c: World)
    requires Extends(a, b) && Extends(b, c)
    ensures Extends(a, c)
  {
  }

  /** java.util.List.remove(Object): drop the first occurrence. */
  function Without(s: seq<PieceId>, x: PieceId): (r: seq<PieceId>)
    ensures x !in s ==> r == s
    ensures x in s ==> |r| == |s| - 1
    ensures multiset(r) == multiset(s) - multiset{x}
  {
    if s == [] then []
    else
      assert s == [s[0]] + s[1..];
      if s[0] == x then s[1..] else [s[0]] + Without(s[1..], x)
  }

  function UpdatePiece(w: World, p: PieceId, q: Piece): World
    requires p < |w.pieces|
  {
    w.(pieces := w.pieces[p := q])
  }

  /** Changing a piece's flags, but not its block, type or colour, keeps the board consistent. */
  lemma FlagUpdateConsistent(w: World, p: PieceId, q: Piece)
    requires Consistent(w) && p < |w.pieces|
    requires q.block == w.pieces[p].block && q.kind == w.pieces[p].kind && q.white == w.pieces[p].white
    ensures Consistent(UpdatePiece(w, p, q)) && Extends(w, UpdatePiece(w, p, q))
  {
  }

  /** The elixir of one colour. */
  function ElixirOf(w: World, white: bool): int
  {
    if white then w.ctx.whiteElixir else w.ctx.blackElixir
  }

  /** GridWorld.removeElixir, taken to call that colour's ElixirBar.removeElixir. */
  function RemoveElixir(w: World, white: bool, amount: int): (r: World)
    ensures ElixirOf(r, !white) == ElixirOf(w, !white)
    ensures ElixirOf(r, white) == Elixir.Clamp(ElixirOf(w, white) - amount)
    ensures r.cells == w.cells && r.pieces == w.pieces && (Consistent(w) ==> Consistent(r))
    ensures r.ctx.whitePieces == w.ctx.whitePieces && r.ctx.blackPieces == w.ctx.blackPieces
  {
    if white then w.(ctx := w.ctx.(whiteElixir := Elixir.Clamp(w.ctx.whiteElixir - amount)))
    else w.(ctx := w.ctx.(blackElixir := Elixir.Clamp(w.ctx.blackElixir - amount)))
  }

  /** The turn's bookkeeping is the same in both worlds: the count of endTurn calls, the bomb
      requests, the promotion menu and the game-started flag. */
  predicate SameTurn(w: World, r: World)
  {
    r.ctx.endTurns == w.ctx.endTurns && r.ctx.bombs == w.ctx.bombs
    && r.ctx.promotionMenuActive == w.ctx.promotionMenuActive && r.ctx.promoting == w.ctx.promoting
    && r.ctx.gameStarted == w.ctx.gameStarted
  }

  /** Block.removePiece(true): empty the block, drop its occupant from the piece lists and the
      world, and clear the occupant's block reference. An empty block is left as it is. */
  function RemoveAt(w: World, c: Cell): (r: World)
    requires Consistent(w)
    ensures Consistent(r) && Extends(w, r) && |r.pieces| == |w.pieces|
    ensures r.cells == w.cells[c := None]
    ensures w.cells[c].None? ==> r == w
    ensures w.cells[c].Some? ==> r.pieces[w.cells[c].value].block.None?
    ensures forall q :: 0 <= q < |w.pieces| && w.cells[c] != Some(q) ==> r.pieces[q] == w.pieces[q]
    ensures r.ctx.epTarget == w.ctx.epTarget && r.ctx.epPawn == w.ctx.epPawn
    ensures r.ctx.endTurns == w.ctx.endTurns && r.ctx.bombs == w.ctx.bombs
    ensures r.ctx.selectedPiece == w.ctx.selectedPiece && SameTurn(w, r)
    ensures ElixirOf(r, true) == ElixirOf(w, true) && ElixirOf(r, false) == ElixirOf(w, false)
  {
    match w.cells[c]
    case None => w
    case Some(p) =>
      RemovedStaysConsistent(w, c, p);
      w.(cells := w.cells[c := None],
         pieces := w.pieces[p := w.pieces[p].(block := None, selected := false)],
         ctx := w.ctx.(whitePieces := Without(w.ctx.whitePieces, p),
                       blackPieces := Without(w.ctx.blackPieces, p)))
  }

  lemma RemovedStaysConsistent(w: World, c: Cell, p: PieceId)
    requires Consistent(w) && w.cells[c] == Some(p)
    ensures Consistent(w.(cells := w.cells[c := None],
                          pieces := w.pieces[p := w.pieces[p].(block := None, selected := false)],
                          ctx := w.ctx.(whitePieces := Without(w.ctx.whitePieces, p),
                                        blackPieces := Without(w.ctx.blackPieces, p))))
  {
    var r := w.(cells := w.cells[c := None],
                pieces := w.pieces[p := w.pieces[p].(block := None, selected := false)]);
    forall d: Cell | r.cells[d].Some?
      ensures r.cells[d].value < |r.pieces| && r.pieces[r.cells[d].value].block == Some(d)
    {
      assert d != c;
      DistinctOccupants(w, c, d);
    }
    forall q | 0 <= q < |r.pieces| && r.pieces[q].block.Some?
      ensures r.cells[r.pieces[q].block.value] == Some(q)
    {
      assert q != p;
    }
    assert Consistent(r);
    RelistedStaysConsistent(r, Without(w.ctx.whitePieces, p), Without(w.ctx.blackPieces, p));
  }

  /** The colour lists play no part in consistency. */
  lemma RelistedStaysConsistent(w: World, white: seq<PieceId>, black: seq<PieceId>)
    requires Consistent(w)
    ensures Consistent(w.(ctx := w.ctx.(whitePieces := white, blackPieces := black)))
  {
  }

  /** A consistent board never holds one piece on two blocks. */
  lemma DistinctOccupants(w: World, c: Cell, d: Cell)
    requires Consistent(w) && w.cells[c].Some? && w.cells[d].Some? && c != d
    ensures w.cells[c] != w.cells[d]
  {
  }

  /** After removePiece the removed piece is in neither colour's list, provided it was listed
      at most once. */
  lemma RemovedPieceUnlisted(w: World, c: Cell)
    requires Consistent(w) && w.cells[c].Some?
    requires multiset(w.ctx.whitePieces)[w.cells[c].value] <= 1
    requires multiset(w.ctx.blackPieces)[w.cells[c].value] <= 1
    ensures w.cells[c].value !in RemoveAt(w, c).ctx.whitePieces
    ensures w.cells[c].value !in RemoveAt(w, c).ctx.blackPieces
  {
    var p := w.cells[c].value;
    var r := RemoveAt(w, c);
    assert multiset(r.ctx.whitePieces)[p] == 0;
    assert multiset(r.ctx.blackPieces)[p] == 0;
  }

  /** GridWorld.endTurn, counted: the counter goes up by one and nothing else changes, so the
      en-passant record, the elixir and the bomb orders are carried over as they are. */
  function WorldEndTurn(w: World): (r: World)
    ensures r == w.(ctx := w.ctx.(endTurns := w.ctx.endTurns + 1))
    ensures r.ctx.endTurns == w.ctx.endTurns + 1
  {
    w.(ctx := w.ctx.(endTurns := w.ctx.endTurns + 1))
  }

  /** Piece.deselect: only the selection flag changes. */
  function Deselect(w: World, p: PieceId): (r: World)
    requires p < |w.pieces|
    ensures r.cells == w.cells && r.ctx == w.ctx && |r.pieces| == |w.pieces|
    ensures (Consistent(w) ==> Consistent(r)) && Extends(w, r)
    ensures !r.pieces[p].selected
    ensures r.pieces[p] == w.pieces[p].(selected := false)
    ensures forall q :: 0 <= q < |w.pieces| && q != p ==> r.pieces[q] == w.pieces[q]
  {
    UpdatePiece(w, p, w.pieces[p].(selected := false))
  }

  /** Piece.endTurn: the world's endTurn, then the ability flag is reset and the piece deselected. */
  function PieceEndTurn(w: World, p: PieceId): (r: World)
    requires p < |w.pieces|
    ensures r.cells == w.cells && |r.pieces| == |w.pieces|
    ensures (Consistent(w) ==> Consistent(r)) && Extends(w, r)
    ensures r.ctx == w.ctx.(endTurns := w.ctx.endTurns + 1)
    ensures r.pieces[p] == w.pieces[p].(abilityUsed := false, selected := false)
    ensures forall q :: 0 <= q < |w.pieces| && q != p ==> r.pieces[q] == w.pieces[q]
  {
    var w1 := WorldEndTurn(w);
    var w2 := UpdatePiece(w1, p, w1.pieces[p].(abilityUsed := false));
    Deselect(w2, p)
  }

  /** GridWorld.showPromotionMenu(recruit), taken to raise the menu flag and remember the
      recruit the menu is for; the board and the pieces are untouched. */
  function ShowPromotionMenu(w: World, p: PieceId): (r: World)
    ensures r.cells == w.cells && r.pieces == w.pieces
    ensures r.ctx.promotionMenuActive && r.ctx.promoting == Some(p)
    ensures r.ctx.(promotionMenuActive := w.ctx.promotionMenuActive, promoting := w.ctx.promoting) == w.ctx
    ensures Consistent(w) ==> Consistent(r)
  {
    w.(ctx := w.ctx.(promotionMenuActive := true, promoting := Some(p)))
  }

  /** Deselecting twice is deselecting once. */
  lemma DeselectIdempotent(w: World, p: PieceId)
    requires p < |w.pieces|
    ensures Deselect(Deselect(w, p), p) == Deselect(w, p)
  {
  }
}
