/** The promotion menu (ClashMate's PromotionMenu and RuneRift's copy): five paid options for a
    recruit on its last row, act's click handling, promoteToType, cancelPromotion and closeMenu.
    The two games differ only in how promoteToType ends the turn. */
module Promotion {
  import opened Wrappers
  import opened Grid
  import opened Pieces
  import opened Worlds
  import Sweeps
  import Elixir
  import Engine

  const KnightCost: int := 2
  const MusketeerCost: int := 3
  const DarkPrinceCost: int := 5
  const WitchCost: int := 6
  const RoyalGiantCost: int := 5

  /** The options in the order the constructor adds them, and their costs. */
  const OptionKinds: seq<Kind> := [Knight, Musketeer, Witch, DarkPrince, RoyalGiant]
  const OptionCosts: seq<int> := [KnightCost, MusketeerCost, WitchCost, DarkPrinceCost, RoyalGiantCost]

  /** ClashMate ends a promotion's turn through the new piece, RuneRift through the world. */
  datatype Game = ClashMate | RuneRift

  /** The piece list of one colour. */
  function Listed(w: World, white: bool): seq<PieceId>
  {
    if white then w.ctx.whitePieces else w.ctx.blackPieces
  }

  /** The world with one colour's piece list replaced. */
  function WithListed(w: World, white: bool, l: seq<PieceId>): (r: World)
    ensures r.cells == w.cells && r.pieces == w.pieces && (Consistent(w) ==> Consistent(r))
    ensures Listed(r, white) == l && Listed(r, !white) == Listed(w, !white)
    ensures ElixirOf(r, true) == ElixirOf(w, true) && ElixirOf(r, false) == ElixirOf(w, false)
    ensures SameTurn(w, r)
  {
    if white then w.(ctx := w.ctx.(whitePieces := l)) else w.(ctx := w.ctx.(blackPieces := l))
  }

  /** The recruit leaves: dropped from its colour's list, its block emptied by setPiece(null),
      and removed from the world, which leaves it without a block. */
  function Retire(w: World, p: PieceId): (r: World)
    requires Consistent(w) && p < |w.pieces| && w.pieces[p].block.Some?
    ensures Consistent(r) && Extends(w, r)
    ensures r.cells == w.cells[w.pieces[p].block.value := None]
    ensures r.pieces == w.pieces[p := w.pieces[p].(block := None)]
    ensures Listed(r, w.pieces[p].white) == Without(Listed(w, w.pieces[p].white), p)
    ensures Listed(r, !w.pieces[p].white) == Listed(w, !w.pieces[p].white)
    ensures ElixirOf(r, true) == ElixirOf(w, true) && ElixirOf(r, false) == ElixirOf(w, false)
    ensures SameTurn(w, r)
  {
    var o := w.pieces[p].block.value;
    var white := w.pieces[p].white;
    var listed := WithListed(w, white, Without(Listed(w, white), p));
    RetiredStaysConsistent(listed, p);
    listed.(cells := listed.cells[o := None], pieces := listed.pieces[p := listed.pieces[p].(block := None)])
  }

  lemma RetiredStaysConsistent(w: World, p: PieceId)
    requires Consistent(w) && p < |w.pieces| && w.pieces[p].block.Some?
    ensures Consistent(w.(cells := w.cells[w.pieces[p].block.value := None],
                          pieces := w.pieces[p := w.pieces[p].(block := None)]))
  {
    var o := w.pieces[p].block.value;
    var r := w.(cells := w.cells[o := None], pieces := w.pieces[p := w.pieces[p].(block := None)]);
    forall d: Cell | r.cells[d].Some?
      ensures r.cells[d].value < |r.pieces| && r.pieces[r.cells[d].value].block == Some(d)
    {
      assert d != o;
      DistinctOccupants(w, o, d);
    }
    forall q | 0 <= q < |r.pieces| && r.pieces[q].block.Some?
      ensures r.cells[r.pieces[q].block.value] == Some(q)
    {
      assert q != p;
    }
  }

  /** closeMenu: the buttons and the menu leave the world and the menu flag is cleared. */
  function CloseMenu(w: World): (r: World)
    ensures r.cells == w.cells && r.pieces == w.pieces && (Consistent(w) ==> Consistent(r))
    ensures !r.ctx.promotionMenuActive && r.ctx.promoting.None?
    ensures r.ctx.(promotionMenuActive := w.ctx.promotionMenuActive, promoting := w.ctx.promoting) == w.ctx
  {
    w.(ctx := w.ctx.(promotionMenuActive := false, promoting := None))
  }

  /** The recruit p is replaced by a new piece of the kind and the recruit's colour: appended
      to the piece table, on the recruit's block and at the end of the colour's list; the recruit
      is off the board and off that list. */
  function Replace(w: World, p: PieceId, kind: Kind): (r: World)
    requires Consistent(w) && p < |w.pieces| && w.pieces[p].block.Some?
    ensures Consistent(r) && Extends(w, r)
    ensures r.cells == w.cells[w.pieces[p].block.value := Some(|w.pieces|)]
    ensures r.pieces == w.pieces[p := w.pieces[p].(block := None)]
                        + [NewPiece(kind, w.pieces[p].white, w.pieces[p].block.value)]
    ensures Listed(r, w.pieces[p].white) == Without(Listed(w, w.pieces[p].white), p) + [|w.pieces|]
    ensures Listed(r, !w.pieces[p].white) == Listed(w, !w.pieces[p].white)
    ensures ElixirOf(r, true) == ElixirOf(w, true) && ElixirOf(r, false) == ElixirOf(w, false)
    ensures SameTurn(w, r)
  {
    var o := w.pieces[p].block.value;
    var white := w.pieces[p].white;
    var retired := Retire(w, p);
    var placed := Sweeps.Place(retired, kind, white, o);
    assert Listed(placed, white) == Listed(retired, white) && Listed(placed, !white) == Listed(retired, !white);
    ExtendsTransitive(w, retired, placed);
    var id: PieceId := |w.pieces|;
    var listed: seq<PieceId> := Listed(placed, white) + [id];
    WithListed(placed, white, listed)
  }

  /** promoteToType(kind, cost) for the recruit p: pay, replace the recruit by the new piece,
      close the menu and end the turn. */
  function Promote(w: World, p: PieceId, kind: Kind, cost: int, game: Game): (r: World)
    requires Consistent(w) && p < |w.pieces| && w.pieces[p].block.Some?
    ensures Consistent(r) && Extends(w, r)
  {
    var paid := RemoveElixir(w, w.pieces[p].white, cost);
    var replaced := Replace(paid, p, kind);
    var closed := CloseMenu(replaced);
    ExtendsTransitive(w, paid, replaced);
    EndPromotionTurn(closed, |w.pieces|, game)
  }

  /** The end of promoteToType: newPiece.endTurn() in ClashMate, gw.endTurn() in RuneRift. */
  function EndPromotionTurn(w: World, id: PieceId, game: Game): (r: World)
    requires id < |w.pieces|
    ensures r.cells == w.cells && (Consistent(w) ==> Consistent(r)) && Extends(w, r)
    ensures r.ctx == w.ctx.(endTurns := w.ctx.endTurns + 1)
  {
    match game
    case ClashMate => PieceEndTurn(w, id)
    case RuneRift => WorldEndTurn(w)
  }

  /** cancelPromotion for the recruit p: it waits to be offered the menu again, the menu
      closes, and the world ends the turn. */
  function Cancel(w: World, p: PieceId): (r: World)
    requires p < |w.pieces|
    ensures (Consistent(w) ==> Consistent(r)) && Extends(w, r)
  {
    var waiting := UpdatePiece(w, p, w.pieces[p].(waitingForPromotion := true));
    WorldEndTurn(CloseMenu(waiting))
  }

  /** Option i is taken when its button was clicked and its cost is within the elixir the menu
      was opened with. */
  predicate Applies(clicked: seq<bool>, costs: seq<int>, available: int, i: int)
    requires 0 <= i < |clicked| <= |costs|
  {
    clicked[i] && costs[i] <= available
  }

  /** The first option act's loop takes, if any. */
  function FirstChosen(clicked: seq<bool>, costs: seq<int>, available: int): (r: Option<nat>)
    requires |clicked| <= |costs|
    ensures r.Some? ==> r.value < |clicked| && Applies(clicked, costs, available, r.value)
    ensures r.Some? ==> forall j :: 0 <= j < r.value ==> !Applies(clicked, costs, available, j)
    ensures r.None? ==> forall j :: 0 <= j < |clicked| ==> !Applies(clicked, costs, available, j)
    decreases |clicked|
  {
    if clicked == [] then None
    else if clicked[0] && costs[0] <= available then Some(0)
    else
      match FirstChosen(clicked[1..], costs[1..], available)
      case None =>
        assert forall j :: 1 <= j < |clicked| ==>
          Applies(clicked, costs, available, j) == Applies(clicked[1..], costs[1..], available, j - 1);
        None
      case Some(i) =>
        assert forall j :: 1 <= j < |clicked| ==>
          Applies(clicked, costs, available, j) == Applies(clicked[1..], costs[1..], available, j - 1);
        Some(i + 1)
  }

  /** act: the first clicked option the snapshot elixir affords is promoted to; otherwise a
      clicked cancel button cancels; otherwise nothing happens. */
  function MenuAct(w: World, p: PieceId, available: int, kinds: seq<Kind>, costs: seq<int>,
                   clicked: seq<bool>, cancel: bool, game: Game): (r: World)
    requires Consistent(w) && p < |w.pieces| && w.pieces[p].block.Some?
    requires |clicked| <= |costs| == |kinds|
    ensures Consistent(r)
  {
    match FirstChosen(clicked, costs, available)
    case Some(i) => Promote(w, p, kinds[i], costs[i], game)
    case None => if cancel then Cancel(w, p) else w
  }

  /** The colour of each option button addedToWorld creates: true (green) when the snapshot
      elixir affords the option, false (red) otherwise. */
  function Shades(costs: seq<int>, available: int): (r: seq<bool>)
    ensures |r| == |costs| && forall i :: 0 <= i < |costs| ==> (r[i] <==> costs[i] <= available)
  {
    seq(|costs|, i requires 0 <= i < |costs| => costs[i] <= available)
  }

  /** Ending the turn through a piece with no ability use and no selection, as ClashMate does,
      is ending it through the world, as RuneRift does. */
  lemma EndTurnsAgree(w: World, id: PieceId)
    requires id < |w.pieces| && !w.pieces[id].abilityUsed && !w.pieces[id].selected
    ensures EndPromotionTurn(w, id, ClashMate) == EndPromotionTurn(w, id, RuneRift)
    ensures EndPromotionTurn(w, id, RuneRift).pieces == w.pieces
  {
    assert w.pieces[id := w.pieces[id].(abilityUsed := false)][id := w.pieces[id].(selected := false)] == w.pieces;
  }

  /** Promotion replaces the recruit by a new piece of the chosen kind and the recruit's colour:
      the new piece is appended to the piece table and stands on the recruit's block; the
      recruit is off the board; no other block or piece changes. */
  lemma PromoteReplaces(w: World, p: PieceId, kind: Kind, cost: int, game: Game)
    requires Consistent(w) && p < |w.pieces| && w.pieces[p].block.Some?
    ensures var o := w.pieces[p].block.value;
      var r := Promote(w, p, kind, cost, game);
      r.cells == w.cells[o := Some(|w.pieces|)]
      && r.pieces == w.pieces[p := w.pieces[p].(block := None)] + [NewPiece(kind, w.pieces[p].white, o)]
  {
    var closed := CloseMenu(Replace(RemoveElixir(w, w.pieces[p].white, cost), p, kind));
    assert closed.pieces[|w.pieces|] == NewPiece(kind, w.pieces[p].white, w.pieces[p].block.value);
    EndTurnsAgree(closed, |w.pieces|);
  }

  /** The new piece takes the recruit's place in its colour's list, at the end; the other
      colour's list is unchanged. */
  lemma PromoteRelists(w: World, p: PieceId, kind: Kind, cost: int, game: Game)
    requires Consistent(w) && p < |w.pieces| && w.pieces[p].block.Some?
    ensures var white := w.pieces[p].white;
      var r := Promote(w, p, kind, cost, game);
      Listed(r, white) == Without(Listed(w, white), p) + [|w.pieces|]
      && Listed(r, !white) == Listed(w, !white)
  {
    var white := w.pieces[p].white;
    var paid := RemoveElixir(w, white, cost);
    var replaced := Replace(paid, p, kind);
    var r := EndPromotionTurn(CloseMenu(replaced), |w.pieces|, game);
    assert r.ctx.whitePieces == replaced.ctx.whitePieces && r.ctx.blackPieces == replaced.ctx.blackPieces;
    assert Listed(paid, white) == Listed(w, white) && Listed(paid, !white) == Listed(w, !white);
  }

  /** Promotion charges the recruit's colour the option's cost, clamped at 0, and leaves the
      other colour's elixir alone; an affordable cost is deducted exactly. */
  lemma PromoteCharges(w: World, p: PieceId, kind: Kind, cost: int, game: Game)
    requires Consistent(w) && p < |w.pieces| && w.pieces[p].block.Some?
    ensures var white := w.pieces[p].white;
      var r := Promote(w, p, kind, cost, game);
      ElixirOf(r, white) == Elixir.Clamp(ElixirOf(w, white) - cost)
      && ElixirOf(r, !white) == ElixirOf(w, !white)
      && (0 <= cost <= ElixirOf(w, white) <= Elixir.MaxElixir ==> ElixirOf(r, white) == ElixirOf(w, white) - cost)
  {
  }

  /** Promotion closes the menu and ends the turn once; the bomb requests and the game flag
      stay. */
  lemma PromoteEndsTurn(w: World, p: PieceId, kind: Kind, cost: int, game: Game)
    requires Consistent(w) && p < |w.pieces| && w.pieces[p].block.Some?
    ensures var r := Promote(w, p, kind, cost, game);
      r.ctx.endTurns == w.ctx.endTurns + 1 && !r.ctx.promotionMenuActive && r.ctx.promoting.None?
      && r.ctx.bombs == w.ctx.bombs && r.ctx.gameStarted == w.ctx.gameStarted
  {
  }

  /** Ending the turn through the new piece (ClashMate) or through the world (RuneRift) leaves
      the same board: the new piece has no ability use or selection to clear. */
  lemma PromoteGamesAgree(w: World, p: PieceId, kind: Kind, cost: int)
    requires Consistent(w) && p < |w.pieces| && w.pieces[p].block.Some?
    ensures Promote(w, p, kind, cost, ClashMate) == Promote(w, p, kind, cost, RuneRift)
  {
    var closed := CloseMenu(Replace(RemoveElixir(w, w.pieces[p].white, cost), p, kind));
    EndTurnsAgree(closed, |w.pieces|);
  }

  /** Cancelling marks the recruit as waiting, spends nothing, moves nothing, closes the menu
      and ends the turn once. */
  lemma CancelWaits(w: World, p: PieceId)
    requires p < |w.pieces|
    ensures var r := Cancel(w, p);
      r.cells == w.cells && r.pieces == w.pieces[p := w.pieces[p].(waitingForPromotion := true)]
      && ElixirOf(r, true) == ElixirOf(w, true) && ElixirOf(r, false) == ElixirOf(w, false)
      && r.ctx.endTurns == w.ctx.endTurns + 1 && !r.ctx.promotionMenuActive
      && r.ctx.whitePieces == w.ctx.whitePieces && r.ctx.blackPieces == w.ctx.blackPieces
  {
  }

  /** act applies the first clicked affordable option and only that one. */
  lemma MenuActPromotesFirst(w: World, p: PieceId, available: int, kinds: seq<Kind>, costs: seq<int>,
                             clicked: seq<bool>, cancel: bool, game: Game, i: nat)
    requires Consistent(w) && p < |w.pieces| && w.pieces[p].block.Some?
    requires |clicked| <= |costs| == |kinds| && i < |clicked|
    requires Applies(clicked, costs, available, i)
    requires forall j :: 0 <= j < i ==> !Applies(clicked, costs, available, j)
    ensures MenuAct(w, p, available, kinds, costs, clicked, cancel, game) == Promote(w, p, kinds[i], costs[i], game)
  {
    FirstChosenIs(clicked, costs, available, i);
  }

  /** The first applicable option is the one act's loop takes. */
  lemma FirstChosenIs(clicked: seq<bool>, costs: seq<int>, available: int, i: nat)
    requires |clicked| <= |costs| && i < |clicked| && Applies(clicked, costs, available, i)
    requires forall j :: 0 <= j < i ==> !Applies(clicked, costs, available, j)
    ensures FirstChosen(clicked, costs, available) == Some(i)
  {
  }

  /** Clicks on options the snapshot elixir does not afford change nothing unless cancel was
      clicked too, in which case the promotion is cancelled. */
  lemma UnaffordableIgnored(w: World, p: PieceId, available: int, kinds: seq<Kind>, costs: seq<int>,
                            clicked: seq<bool>, cancel: bool, game: Game)
    requires Consistent(w) && p < |w.pieces| && w.pieces[p].block.Some?
    requires |clicked| <= |costs| == |kinds|
    requires forall j :: 0 <= j < |clicked| && clicked[j] ==> costs[j] > available
    ensures MenuAct(w, p, available, kinds, costs, clicked, cancel, game) == if cancel then Cancel(w, p) else w
  {
    NoneChosen(clicked, costs, available);
  }

  /** With no affordable option clicked, act's loop takes none. */
  lemma NoneChosen(clicked: seq<bool>, costs: seq<int>, available: int)
    requires |clicked| <= |costs|
    requires forall j :: 0 <= j < |clicked| ==> !Applies(clicked, costs, available, j)
    ensures FirstChosen(clicked, costs, available) == None
  {
  }

  /** A green button is one whose click alone promotes; clicking a red one alone does nothing. */
  lemma ShadeMeansPromotes(w: World, p: PieceId, available: int, kinds: seq<Kind>, costs: seq<int>,
                           game: Game, i: nat)
    requires Consistent(w) && p < |w.pieces| && w.pieces[p].block.Some?
    requires |costs| == |kinds| && i < |costs|
    ensures var clicked := seq(|costs|, j requires 0 <= j < |costs| => j == i);
      MenuAct(w, p, available, kinds, costs, clicked, false, game)
        == if Shades(costs, available)[i] then Promote(w, p, kinds[i], costs[i], game) else w
  {
    var clicked := seq(|costs|, j requires 0 <= j < |costs| => j == i);
    if costs[i] <= available {
      MenuActPromotesFirst(w, p, available, kinds, costs, clicked, false, game, i);
    } else {
      UnaffordableIgnored(w, p, available, kinds, costs, clicked, false, game);
    }
  }

  class PromotionMenu {
    /** The recruit being promoted, its colour and the elixir the menu was opened with. */
    const recruit: PieceId
    const isWhite: bool
    const availableElixir: int
    const game: Game
    var pieceTypes: seq<Kind>
    var costs: seq<int>
    /** The option buttons, by shade: true for green (affordable), false for red. */
    var optionButtons: seq<bool>
    var hasCancelButton: bool
    /** Whether the menu is in the world, so that Greenfoot calls its act. */
    var inWorld: bool

    /** new PromotionMenu(piece, elixir): the five options in order, not yet in a world. */
    constructor (board: Engine.Board, recruit: PieceId, elixir: int, game: Game)
      requires recruit < |board.pieces|
      ensures this.recruit == recruit && isWhite == board.pieces[recruit].white
      ensures availableElixir == elixir && this.game == game
      ensures pieceTypes == OptionKinds && costs == OptionCosts
      ensures optionButtons == [] && !hasCancelButton && !inWorld
    {
      this.recruit := recruit;
      isWhite := board.pieces[recruit].white;
      availableElixir := elixir;
      this.game := game;
      optionButtons := [];
      hasCancelButton := false;
      inWorld := false;
      new;
      pieceTypes := [];
      costs := [];
      pieceTypes := pieceTypes + [Knight];
      costs := costs + [KnightCost];
      pieceTypes := pieceTypes + [Musketeer];
      costs := costs + [MusketeerCost];
      pieceTypes := pieceTypes + [Witch];
      costs := costs + [WitchCost];
      pieceTypes := pieceTypes + [DarkPrince];
      costs := costs + [DarkPrinceCost];
      pieceTypes := pieceTypes + [RoyalGiant];
      costs := costs + [RoyalGiantCost];
    }

    /** addedToWorld: one button per option, shaded by affordability, then the cancel button. */
    method AddedToWorld()
      requires |pieceTypes| == |costs|
      modifies this
      ensures pieceTypes == old(pieceTypes) && costs == old(costs)
      ensures optionButtons == old(optionButtons) + Shades(costs, availableElixir)
      ensures hasCancelButton && inWorld
    {
      ghost var before := optionButtons;
      for i := 0 to |pieceTypes|
        invariant pieceTypes == old(pieceTypes) && costs == old(costs)
        invariant optionButtons == before + Shades(costs[..i], availableElixir)
      {
        var cost := costs[i];
        var green := cost <= availableElixir;
        assert Shades(costs[..i + 1], availableElixir) == Shades(costs[..i], availableElixir) + [green];
        optionButtons := optionButtons + [green];
      }
      assert costs[..|costs|] == costs;
      hasCancelButton := true;
      inWorld := true;
    }

    /** closeMenu on the board. */
    method Close(board: Engine.Board)
      requires board.Valid()
      modifies this, board
      ensures board.State() == CloseMenu(old(board.State())) && !inWorld && board.Valid()
      ensures optionButtons == old(optionButtons) && hasCancelButton == old(hasCancelButton)
      ensures pieceTypes == old(pieceTypes) && costs == old(costs)
    {
      board.ctx := board.ctx.(promotionMenuActive := false, promoting := None);
      inWorld := false;
    }

    /** cancelPromotion. */
    method CancelPromotion(board: Engine.Board)
      requires board.Valid() && recruit < |board.pieces|
      modifies this, board
      ensures board.State() == Cancel(old(board.State()), recruit) && !inWorld && board.Valid()
      ensures optionButtons == old(optionButtons) && hasCancelButton == old(hasCancelButton)
      ensures pieceTypes == old(pieceTypes) && costs == old(costs)
    {
      FlagUpdateConsistent(board.State(), recruit, board.pieces[recruit].(waitingForPromotion := true));
      board.pieces := board.pieces[recruit := board.pieces[recruit].(waitingForPromotion := true)];
      Close(board);
      board.ctx := board.ctx.(endTurns := board.ctx.endTurns + 1);
    }

    /** gw.removeElixir(isWhite, cost). */
    method Pay(board: Engine.Board, cost: int)
      requires board.Valid()
      modifies board
      ensures board.State() == RemoveElixir(old(board.State()), isWhite, cost) && board.Valid()
    {
      if isWhite {
        board.ctx := board.ctx.(whiteElixir := Elixir.Clamp(board.ctx.whiteElixir - cost));
      } else {
        board.ctx := board.ctx.(blackElixir := Elixir.Clamp(board.ctx.blackElixir - cost));
      }
    }

    /** The recruit leaves its colour's list, its block is emptied and it leaves the world. */
    method RetireRecruit(board: Engine.Board)
      requires board.Valid() && recruit < |board.pieces| && board.pieces[recruit].block.Some?
      requires board.pieces[recruit].white == isWhite
      modifies board, board.cells
      ensures board.State() == Retire(old(board.State()), recruit) && board.Valid()
    {
      ghost var w := board.State();
      var o := board.pieces[recruit].block.value;
      if isWhite {
        board.ctx := board.ctx.(whitePieces := Without(board.ctx.whitePieces, recruit));
      } else {
        board.ctx := board.ctx.(blackPieces := Without(board.ctx.blackPieces, recruit));
      }
      board.SetPiece(o, None);
      board.pieces := board.pieces[recruit := board.pieces[recruit].(block := None)];
      assert board.State().ctx == Retire(w, recruit).ctx;
    }

    /** The recruit is replaced by new Piece(kind, block, isWhite), added to its colour's list. */
    method ReplaceRecruit(board: Engine.Board, kind: Kind) returns (id: PieceId)
      requires board.Valid() && recruit < |board.pieces| && board.pieces[recruit].block.Some?
      requires board.pieces[recruit].white == isWhite
      modifies board, board.cells
      ensures board.State() == Replace(old(board.State()), recruit, kind) && board.Valid()
      ensures id == |old(board.pieces)|
    {
      ghost var w := board.State();
      var o := board.pieces[recruit].block.value;
      RetireRecruit(board);
      id := AddPiece(board, kind, o);
    }

    /** new Piece(kind, block, isWhite) on the emptied block o, added to its colour's list. */
    method AddPiece(board: Engine.Board, kind: Kind, o: Cell) returns (id: PieceId)
      requires board.Valid() && board.CurrentPiece(o).None?
      modifies board, board.cells
      ensures board.Valid() && id == |old(board.pieces)|
      ensures board.State() == WithListed(Sweeps.Place(old(board.State()), kind, isWhite, o), isWhite,
                                          Listed(old(board.State()), isWhite) + [id])
    {
      ghost var retired := board.State();
      id := |board.pieces|;
      board.pieces := board.pieces + [NewPiece(kind, isWhite, o)];
      board.SetPiece(o, Some(id));
      ghost var placed := board.State();
      assert placed == Sweeps.Place(retired, kind, isWhite, o);
      if isWhite {
        board.ctx := board.ctx.(whitePieces := board.ctx.whitePieces + [id]);
      } else {
        board.ctx := board.ctx.(blackPieces := board.ctx.blackPieces + [id]);
      }
      assert board.State() == WithListed(placed, isWhite, Listed(placed, isWhite) + [id]);
    }

    /** promoteToType(kind, cost). */
    method PromoteToType(board: Engine.Board, kind: Kind, cost: int)
      requires board.Valid() && recruit < |board.pieces| && board.pieces[recruit].block.Some?
      requires board.pieces[recruit].white == isWhite
      modifies this, board, board.cells
      ensures board.State() == Promote(old(board.State()), recruit, kind, cost, game) && board.Valid()
      ensures !inWorld
      ensures optionButtons == old(optionButtons) && hasCancelButton == old(hasCancelButton)
      ensures pieceTypes == old(pieceTypes) && costs == old(costs)
    {
      ghost var w := board.State();
      Pay(board, cost);
      ghost var paid := board.State();
      assert paid == RemoveElixir(w, w.pieces[recruit].white, cost);
      var id := ReplaceRecruit(board, kind);
      Close(board);
      ghost var closed := board.State();
      assert closed == CloseMenu(Replace(paid, recruit, kind));
      assert id == |w.pieces|;
      assert Promote(w, recruit, kind, cost, game) == EndPromotionTurn(closed, id, game);
      EndTurn(board, id);
    }

    /** The end of promoteToType. */
    method EndTurn(board: Engine.Board, id: PieceId)
      requires board.Valid() && id < |board.pieces|
      modifies board
      ensures board.State() == EndPromotionTurn(old(board.State()), id, game) && board.Valid()
    {
      match game
      case ClashMate =>
        board.EndTurn(id);
      case RuneRift =>
        board.ctx := board.ctx.(endTurns := board.ctx.endTurns + 1);
    }

    /** act: over the option buttons in order, the first clicked one the snapshot elixir
        affords is promoted to and act returns; otherwise a click on cancel cancels. */
    method Act(board: Engine.Board, clicked: seq<bool>, cancelClicked: bool)
      requires inWorld && board.Valid() && recruit < |board.pieces| && board.pieces[recruit].block.Some?
      requires board.pieces[recruit].white == isWhite
      requires |clicked| == |optionButtons| <= |costs| == |pieceTypes|
      modifies this, board, board.cells
      ensures optionButtons == old(optionButtons) && hasCancelButton == old(hasCancelButton)
      ensures pieceTypes == old(pieceTypes) && costs == old(costs)
      ensures board.Valid()
      ensures board.State() == MenuAct(old(board.State()), recruit, availableElixir, pieceTypes, costs,
                                       clicked, hasCancelButton && cancelClicked, game)
      ensures inWorld == (FirstChosen(clicked, costs, availableElixir).None? && !(hasCancelButton && cancelClicked))
    {
      for i := 0 to |optionButtons|
        invariant board.State() == old(board.State()) && inWorld
        invariant optionButtons == old(optionButtons) && hasCancelButton == old(hasCancelButton)
        invariant pieceTypes == old(pieceTypes) && costs == old(costs)
        invariant forall j :: 0 <= j < i ==> !Applies(clicked, costs, availableElixir, j)
      {
        if clicked[i] {
          var cost := costs[i];
          if cost <= availableElixir {
            MenuActPromotesFirst(board.State(), recruit, availableElixir, pieceTypes, costs, clicked,
                                 hasCancelButton && cancelClicked, game, i);
            PromoteToType(board, pieceTypes[i], cost);
            return;
          }
        }
      }
      NoneChosen(clicked, costs, availableElixir);
      if hasCancelButton && cancelClicked {
        CancelPromotion(board);
      }
    }
  }
}
