/** The board as GridWorld holds it: 64 Block objects, each with a mutable piece slot, the
    pieces with their mutable fields, and the world's own bookkeeping. Each method changes the
    board in place the way the Java method does, and is proved to leave it in the state the
    value-level rules compute. */
module Engine {
  import opened Wrappers
  import opened Grid
  import opened Pieces
  import opened Worlds
  import opened Legality
  import Sweeps
  import Moves
  import Abilities
  import Clicks

  /** One more unit step moves the walk by the sign of the direction. */
  lemma AlongStep(a: int, b: int, k: int)
    ensures Along(a, b, k + 1) == Along(a, b, k) + Sign(a, b)
  {
  }

  class Board {
    /** cells[c] is Block c's piece slot, Block.piece. */
    const cells: array<Option<PieceId>>
    /** The fields of every piece, indexed by PieceId. */
    var pieces: seq<Piece>
    /** GridWorld's piece lists, en-passant record, elixir, bomb requests and flags. */
    var ctx: Context

    /** The board as a value. */
    function State(): World
      reads this, cells
    {
      World(cells[..], pieces, ctx)
    }

    /** Every block and every piece agree about where the piece stands. */
    predicate Valid()
      reads this, cells
    {
      Consistent(State())
    }

    constructor (w: World)
      requires Consistent(w)
      ensures State() == w && Valid()
    {
      cells := new Option<PieceId>[64](i requires 0 <= i < 64 => w.cells[i]);
      pieces := w.pieces;
      ctx := w.ctx;
      new;
      assert cells[..] == w.cells;
    }

    /** Block.currentPiece(). */
    function CurrentPiece(c: Cell): Option<PieceId>
      requires cells.Length == 64
      reads cells
    {
      cells[c]
    }

    /** Block.setPiece(q): the block's slot holds q afterwards, and no other block changes. */
    method SetPiece(c: Cell, q: Option<PieceId>)
      requires cells.Length == 64
      modifies cells
      ensures CurrentPiece(c) == q
      ensures forall d: Cell :: d != c ==> CurrentPiece(d) == old(CurrentPiece(d))
      ensures cells[..] == old(cells[..])[c := q]
    {
      cells[c] := q;
    }

    /** Block.removePiece(true) on block c. */
    method RemovePiece(c: Cell)
      requires Valid()
      modifies this, cells
      ensures State() == RemoveAt(old(State()), c) && Valid()
    {
      var occupant := cells[c];
      if occupant.Some? {
        var p := occupant.value;
        SetPiece(c, None);
        pieces := pieces[p := pieces[p].(block := None, selected := false)];
        ctx := ctx.(whitePieces := Without(ctx.whitePieces, p), blackPieces := Without(ctx.blackPieces, p));
      }
    }

    /** isPathClear(x0, y0, x1, y1): walk from the start towards the end one unit step at a
        time and report whether every block before the end is empty. */
    method IsPathClear(x0: int, y0: int, x1: int, y1: int) returns (clear: bool)
      requires Valid() && OnBoard(x0, y0) && OnBoard(x1, y1) && OnLine(x0, y0, x1, y1)
      ensures clear == PathClear(State(), x0, y0, x1, y1)
    {
      var dx := Sign(x0, x1);
      var dy := Sign(y0, y1);
      var x := x0 + dx;
      var y := y0 + dy;
      ghost var k: int := 1;
      ghost var n: int := Steps(x0, y0, x1, y1);
      while x != x1 || y != y1
        invariant 1 <= k && (k <= n || (n == 0 && x == x1 && y == y1))
        invariant x == Along(x0, x1, k) && y == Along(y0, y1, k)
        invariant forall j :: 0 < j < k ==> OccupantAt(State(), Along(x0, x1, j), Along(y0, y1, j)).None?
        decreases n + 1 - k
      {
        WalkStaysOnBoard(x0, y0, x1, y1, k);
        if k == n {
          assert false;
        }
        var c := CellAt(x, y).value;
        if cells[c].Some? {
          assert OccupantAt(State(), Along(x0, x1, k), Along(y0, y1, k)).Some?;
          return false;
        }
        AlongStep(x0, x1, k);
        AlongStep(y0, y1, k);
        x := x + dx;
        y := y + dy;
        k := k + 1;
      }
      if n > 0 {
        WalkStaysOnBoard(x0, y0, x1, y1, k);
      }
      return true;
    }

    /** One visited block of a sweep: getBlock, then removePiece(true) on a target. */
    method SweepAt(targets: Sweeps.Targets, x: int, y: int)
      requires Valid()
      modifies this, cells
      ensures State() == Sweeps.SweepAt(old(State()), targets, x, y) && Valid()
    {
      var c := CellAt(x, y);
      if c.Some? && cells[c.value].Some?
         && (targets.AnyPiece? || pieces[cells[c.value].value].white != targets.white) {
        RemovePiece(c.value);
      }
    }

    /** The blocks at the offsets from (x, y), visited in order. */
    method Sweep(targets: Sweeps.Targets, x: int, y: int, offsets: seq<(int, int)>)
      requires Valid()
      modifies this, cells
      ensures State() == Sweeps.Sweep(old(State()), targets, x, y, offsets) && Valid()
    {
      ghost var w := State();
      for i := 0 to |offsets|
        invariant State() == Sweeps.Sweep(w, targets, x, y, offsets[..i]) && Valid()
      {
        Sweeps.SweepSnoc(w, targets, x, y, offsets, i);
        SweepAt(targets, x + offsets[i].0, y + offsets[i].1);
      }
      assert offsets[..|offsets|] == offsets;
    }

    /** The en-passant capture at the start of moveTo. */
    method EnPassantCapture(p: PieceId, t: Cell)
      requires Valid() && p < |pieces|
      modifies this, cells
      ensures State() == Moves.EnPassantCapture(old(State()), p, t) && Valid()
    {
      if pieces[p].kind == RoyalRecruits && ctx.epTarget == Some(t) && ctx.epPawn.Some?
         && pieces[ctx.epPawn.value].block.Some? {
        RemovePiece(pieces[ctx.epPawn.value].block.value);
      }
    }

    /** moveTo's gw.setEnPassant after a recruit's two-row move. */
    method RecordTwoStep(p: PieceId, t: Cell)
      requires Valid() && p < |pieces|
      modifies this
      ensures State() == Moves.RecordTwoStep(old(State()), p, t) && Valid()
    {
      var piece := pieces[p];
      if piece.kind == RoyalRecruits && piece.block.Some? && Abs(Row(t) - Row(piece.block.value)) == 2 {
        var o := piece.block.value;
        ctx := ctx.(epTarget := CellAt(Row(o) + Direction(piece.white), Col(o)), epPawn := Some(p));
      }
    }

    /** The rest of moveTo on an empty target: the old block's slot is cleared, the recruit's
        spear disarmed, currentBlock and the target's slot set, and hasMoved raised. */
    method Relocate(p: PieceId, t: Cell)
      requires Valid() && p < |pieces| && cells[t].None?
      modifies this, cells
      ensures State() == Moves.Relocate(old(State()), p, t) && Valid()
    {
      var piece := pieces[p];
      if piece.block.Some? {
        SetPiece(piece.block.value, None);
      }
      var armed := if piece.kind == RoyalRecruits && piece.armed then false else piece.armed;
      pieces := pieces[p := piece.(block := Some(t), hasMoved := true, armed := armed)];
      SetPiece(t, Some(p));
    }

    /** dealSplashDamage: the enemies on the four orthogonal neighbours are removed, then the
        charge is disarmed. */
    method Splash(p: PieceId)
      requires Valid() && p < |pieces| && pieces[p].block.Some?
      modifies this, cells
      ensures State() == Moves.Splash(old(State()), p) && Valid()
    {
      var o := pieces[p].block.value;
      ghost var w := State();
      Sweep(Sweeps.EnemiesOf(pieces[p].white), Row(o), Col(o), Sweeps.CrossOffsets);
      Sweeps.SweepKeepsFriend(w, w.pieces[p].white, Row(o), Col(o), Sweeps.CrossOffsets, p);
      ghost var swept := State();
      FlagUpdateConsistent(swept, p, swept.pieces[p].(armed := false));
      pieces := pieces[p := pieces[p].(armed := false)];
      assert State() == UpdatePiece(swept, p, swept.pieces[p].(armed := false));
    }

    /** moveTo(target) for piece p. */
    method MoveTo(p: PieceId, t: Cell)
      requires Valid() && p < |pieces|
      modifies this, cells
      ensures State() == Moves.MoveTo(old(State()), p, t) && Valid()
    {
      ghost var w := State();
      var hadPiece := cells[t].Some?;
      EnPassantCapture(p, t);
      RemovePiece(t);
      RecordTwoStep(p, t);
      Relocate(p, t);
      assert State() == Moves.MoveToBeforeCharge(w, p, t);
      Moves.MoveToUnfold(w, p, t);
      if pieces[p].kind == DarkPrince && pieces[p].armed && hadPiece {
        Splash(p);
      }
    }

    /** executeCastling(target): the giant makes its moveTo, then whatever stands on the corner
        it headed for is moved to the block beside the target on the giant's side. */
    method Castle(p: PieceId, t: Cell)
      requires Valid() && p < |pieces| && pieces[p].block.Some?
      requires Moves.CastleReady(State(), p, t)
      modifies this, cells
      ensures State() == Moves.Castle(old(State()), p, t) && Valid()
    {
      ghost var w := State();
      var o := pieces[p].block.value;
      Moves.CastleLandingEmpty(w, p, t);
      MoveTo(p, t);
      var rook := cells[Moves.CastleCorner(o, t)];
      if rook.Some? {
        Relocate(rook.value, Moves.CastleLanding(o, t));
      }
    }

    /** One block of spawnSkeletons: a new skeleton of the given colour if the block is on the
        board and empty. */
    method SpawnAt(white: bool, x: int, y: int)
      requires Valid()
      modifies this, cells
      ensures State() == Sweeps.SpawnAt(old(State()), white, x, y) && Valid()
    {
      var c := CellAt(x, y);
      if c.Some? && cells[c.value].None? {
        var id := |pieces|;
        pieces := pieces + [NewPiece(Skeleton, white, c.value)];
        SetPiece(c.value, Some(id));
      }
    }

    /** The blocks at the offsets from (x, y), visited in order, each filled if empty. */
    method SpawnAll(white: bool, x: int, y: int, offsets: seq<(int, int)>)
      requires Valid()
      modifies this, cells
      ensures State() == Sweeps.SpawnAll(old(State()), white, x, y, offsets) && Valid()
    {
      ghost var w := State();
      for i := 0 to |offsets|
        invariant State() == Sweeps.SpawnAll(w, white, x, y, offsets[..i]) && Valid()
      {
        assert offsets[..i + 1][..i] == offsets[..i];
        SpawnAt(white, x + offsets[i].0, y + offsets[i].1);
      }
      assert offsets[..|offsets|] == offsets;
    }

    /** snipe, with the scan kept on the board on both sides: walk up the musketeer's column
        until a piece is met, and remove it if it is an enemy. */
    method Snipe(p: PieceId)
      requires Valid() && p < |pieces| && pieces[p].block.Some?
      modifies this, cells
      ensures State() == Abilities.Snipe(old(State()), p) && Valid()
    {
      ghost var w := State();
      var o := pieces[p].block.value;
      BlockCoordinates(o);
      var y := Col(o);
      var step := Direction(pieces[p].white);
      var cx := Row(o) + step;
      while 0 <= cx < 8
        invariant -1 <= cx <= 8 && (step > 0 ==> 0 <= cx) && (step < 0 ==> cx < 8)
        invariant Abilities.SnipeTarget(w, p) == Abilities.FirstOccupied(w, y, cx, step)
        decreases if step > 0 then 8 - cx else cx + 1
      {
        var c := CellAt(cx, y).value;
        if cells[c].Some? {
          if pieces[cells[c].value].white != pieces[p].white {
            RemovePiece(c);
          }
          return;
        }
        cx := cx + step;
      }
    }

    /** The first half of useAbility: abilityUsed is raised and the cost taken from the
        colour's elixir. */
    method PayFor(p: PieceId)
      requires Valid() && p < |pieces|
      modifies this
      ensures State() == Abilities.PayFor(old(State()), p) && Valid()
    {
      var piece := pieces[p];
      ghost var w := State();
      FlagUpdateConsistent(w, p, piece.(abilityUsed := true));
      pieces := pieces[p := piece.(abilityUsed := true)];
      var cost := AbilityCost(piece.kind);
      if piece.white {
        ctx := ctx.(whiteElixir := Elixir.Clamp(ctx.whiteElixir - cost));
      } else {
        ctx := ctx.(blackElixir := Elixir.Clamp(ctx.blackElixir - cost));
      }
    }

    /** abilityState = 1. */
    method Arm(p: PieceId)
      requires Valid() && p < |pieces|
      modifies this
      ensures State() == Abilities.Arm(old(State()), p) && Valid()
    {
      FlagUpdateConsistent(State(), p, pieces[p].(armed := true));
      pieces := pieces[p := pieces[p].(armed := true)];
    }

    /** Piece.deselect(). */
    method Deselect(p: PieceId)
      requires Valid() && p < |pieces|
      modifies this
      ensures State() == Worlds.Deselect(old(State()), p) && Valid()
    {
      FlagUpdateConsistent(State(), p, pieces[p].(selected := false));
      pieces := pieces[p := pieces[p].(selected := false)];
    }

    /** Piece.endTurn(): the world's endTurn, then abilityUsed cleared and the piece
        deselected. */
    method EndTurn(p: PieceId)
      requires Valid() && p < |pieces|
      modifies this
      ensures State() == PieceEndTurn(old(State()), p) && Valid()
    {
      ctx := ctx.(endTurns := ctx.endTurns + 1);
      FlagUpdateConsistent(State(), p, pieces[p].(abilityUsed := false));
      pieces := pieces[p := pieces[p].(abilityUsed := false)];
      Deselect(p);
    }

    /** useAbility() for piece p. */
    method UseAbility(p: PieceId)
      requires Valid() && p < |pieces| && pieces[p].block.Some?
      modifies this, cells
      ensures State() == Abilities.UseAbility(old(State()), p) && Valid()
    {
      var piece := pieces[p];
      var o := piece.block.value;
      PayFor(p);
      match piece.kind {
        case Knight =>
          Sweep(Sweeps.AnyPiece, Row(o), Col(o), Sweeps.SlashOffsets(Direction(piece.white)));
          EndTurn(p);
        case Witch =>
          SpawnAll(piece.white, Row(o), Col(o), Sweeps.CrossOffsets);
          EndTurn(p);
        case Musketeer =>
          Snipe(p);
          EndTurn(p);
        case RoyalRecruits =>
          if piece.waitingForPromotion && CanPromote(piece) {
            ctx := ctx.(promotionMenuActive := true, promoting := Some(p));
          } else {
            Arm(p);
          }
        case DarkPrince => Arm(p);
        case RoyalGiant => Arm(p);
        case Skeleton =>
      }
    }

    /** queueRoyalGiantExplosion(target): disarm, and gw.addBomb(target, isWhite). */
    method QueueExplosion(p: PieceId, t: Cell)
      requires Valid() && p < |pieces|
      modifies this
      ensures State() == Clicks.QueueExplosion(old(State()), p, t) && Valid()
    {
      FlagUpdateConsistent(State(), p, pieces[p].(armed := false));
      pieces := pieces[p := pieces[p].(armed := false)];
      ctx := ctx.(bombs := ctx.bombs + [BombOrder(t, pieces[p].white)]);
    }

    /** move()'s click on the piece's own block: deselect, or select and become the world's
        selected piece. */
    method ToggleSelection(p: PieceId)
      requires Valid() && p < |pieces|
      modifies this
      ensures State() == Clicks.ToggleSelection(old(State()), p) && Valid()
    {
      if pieces[p].selected {
        Deselect(p);
        ctx := ctx.(selectedPiece := None);
      } else {
        ctx := ctx.(selectedPiece := Some(p));
        FlagUpdateConsistent(State(), p, pieces[p].(selected := true));
        pieces := pieces[p := pieces[p].(selected := true)];
      }
    }

    /** After a plain move: showPromotionMenu and deselect for a recruit that can promote,
        endTurn for any other piece. */
    method FinishMove(p: PieceId)
      requires Valid() && p < |pieces|
      modifies this
      ensures State() == Clicks.FinishMove(old(State()), p) && Valid()
    {
      if CanPromote(pieces[p]) {
        ctx := ctx.(promotionMenuActive := true, promoting := Some(p));
        Deselect(p);
      } else {
        EndTurn(p);
      }
    }

    /** A valid move: castling and endTurn when a giant moves two columns, otherwise moveTo and
        its ending. */
    method ValidMove(p: PieceId, t: Cell)
      requires Valid() && p < |pieces| && pieces[p].block.Some? && IsValidMove(State(), p, t)
      modifies this, cells
      ensures State() == Clicks.ValidMove(old(State()), p, t) && Valid()
    {
      ghost var w := State();
      if pieces[p].kind == RoyalGiant && Abs(Col(t) - Col(pieces[p].block.value)) == 2 {
        Moves.CastleReadyMeans(w, p, t);
        assert Clicks.ValidMove(w, p, t) == PieceEndTurn(Moves.Castle(w, p, t), p);
        Castle(p, t);
        EndTurn(p);
      } else {
        assert Clicks.ValidMove(w, p, t) == Clicks.FinishMove(Moves.MoveTo(w, p, t), p);
        MoveTo(p, t);
        FinishMove(p);
      }
    }

    /** move()'s click on another block while the piece is selected. */
    method Command(p: PieceId, t: Cell)
      requires Valid() && p < |pieces| && pieces[p].block.Some?
      modifies this, cells
      ensures State() == Clicks.Command(old(State()), p, t) && Valid()
    {
      if pieces[p].kind == RoyalGiant && pieces[p].armed {
        QueueExplosion(p, t);
        EndTurn(p);
      } else {
        var valid := IsValidMove(State(), p, t);
        if valid {
          ValidMove(p, t);
        }
      }
    }

    /** move() for piece p with this frame's click, when it is white's turn iff whiteTurn. */
    method Move(p: PieceId, click: Clicks.Click, whiteTurn: bool)
      requires Valid() && p < |pieces| && pieces[p].block.Some?
      modifies this, cells
      ensures State() == Clicks.Move(old(State()), p, click, whiteTurn) && Valid()
    {
      if click.NoClick? || !ctx.gameStarted || pieces[p].white != whiteTurn || ctx.promotionMenuActive {
        return;
      }
      if click.OnBlock? {
        if click.block == pieces[p].block.value {
          ToggleSelection(p);
        } else if pieces[p].selected {
          Command(p, click.block);
        }
      }
    }

    /** act() for piece p: useAbility if the piece is selected, its ability is not both used
        and armed, its colour's button was clicked and the colour can pay; then move(). */
    method Act(p: PieceId, click: Clicks.Click, whiteTurn: bool)
      requires Valid() && p < |pieces| && pieces[p].block.Some?
      modifies this, cells
      ensures State() == Clicks.Act(old(State()), p, click, whiteTurn) && Valid()
    {
      ghost var w := State();
      var piece := pieces[p];
      var elixir := if piece.white then ctx.whiteElixir else ctx.blackElixir;
      if piece.selected && (!piece.abilityUsed || !piece.armed) && click == Clicks.OnButton(piece.white)
         && elixir >= AbilityCost(piece.kind) {
        UseAbility(p);
      }
      Abilities.UseAbilityKeepsPlace(w, p);
      Move(p, click, whiteTurn);
    }
  }
}
