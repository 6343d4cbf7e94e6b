/** The abilities a piece can pay for: the knight's slash, the witch's skeletons, the musketeer's
    snipe, and useAbility, which charges the cost and dispatches on the piece type. */
module Abilities {
  import opened Wrappers
  import opened Grid
  import opened Pieces
  import opened Worlds
  import opened Sweeps
  import Elixir

  /** slash: the three blocks one row ahead (the front-left, front and front-right blocks) lose
      whatever stands on them, friend or enemy. */
  function Slash(w: World, x: int, y: int, dir: int): (r: World)
    requires Consistent(w)
    ensures Consistent(r) && Extends(w, r) && |r.pieces| == |w.pieces|
  {
    Sweep(w, AnyPiece, x, y, SlashOffsets(dir))
  }

  /** The three blocks one row ahead of (x, y). */
  predicate InFront(x: int, y: int, dir: int, c: Cell)
  {
    Row(c) == x + dir && Abs(Col(c) - y) <= 1
  }

  lemma SlashCovers(x: int, y: int, dir: int, c: Cell)
    ensures Covers(x, y, SlashOffsets(dir), c) <==> InFront(x, y, dir, c)
  {
    var offsets := SlashOffsets(dir);
    if InFront(x, y, dir, c) {
      BlockCoordinates(c);
      if Col(c) == y - 1 { assert CellAt(x + offsets[0].0, y + offsets[0].1) == Some(c); }
      else if Col(c) == y { assert CellAt(x + offsets[1].0, y + offsets[1].1) == Some(c); }
      else { assert CellAt(x + offsets[2].0, y + offsets[2].1) == Some(c); }
    }
  }

  /** The slash empties exactly the three blocks ahead and leaves every other block alone. */
  lemma SlashCells(w: World, x: int, y: int, dir: int)
    requires Consistent(w)
    ensures forall c: Cell ::
      Slash(w, x, y, dir).cells[c] == if InFront(x, y, dir, c) then None else w.cells[c]
  {
    SweepCells(w, AnyPiece, x, y, SlashOffsets(dir));
    forall c: Cell
      ensures Slash(w, x, y, dir).cells[c] == if InFront(x, y, dir, c) then None else w.cells[c]
    {
      SlashCovers(x, y, dir, c);
    }
  }

  /** spawnSkeletons for the witch p: a skeleton of its colour on each empty orthogonal
      neighbour. */
  function SpawnSkeletons(w: World, p: PieceId): (r: World)
    requires Consistent(w) && p < |w.pieces| && w.pieces[p].block.Some?
    ensures Consistent(r) && Extends(w, r) && r.ctx == w.ctx
    ensures r.pieces[..|w.pieces|] == w.pieces
  {
    var o := w.pieces[p].block.value;
    SpawnAll(w, w.pieces[p].white, Row(o), Col(o), CrossOffsets)
  }

  /** The witch fills exactly the empty blocks of its cross, each with a fresh, unmoved skeleton
      of its own colour, and leaves every other block alone. */
  lemma SpawnSkeletonsCells(w: World, p: PieceId)
    requires Consistent(w) && p < |w.pieces| && w.pieces[p].block.Some?
    ensures var o := w.pieces[p].block.value;
      var r := SpawnSkeletons(w, p);
      forall c: Cell ::
        if InCross(Row(o), Col(o), c) && w.cells[c].None? then
          r.cells[c].Some? && r.cells[c].value >= |w.pieces|
          && r.pieces[r.cells[c].value] == NewPiece(Skeleton, w.pieces[p].white, c)
        else r.cells[c] == w.cells[c]
  {
    var o := w.pieces[p].block.value;
    SpawnCells(w, w.pieces[p].white, Row(o), Col(o), CrossOffsets);
    forall c: Cell
      ensures Covers(Row(o), Col(o), CrossOffsets, c) == InCross(Row(o), Col(o), c)
    {
      CrossCovers(Row(o), Col(o), c);
    }
  }

  /** Row k lies strictly between rows a and b. */
  predicate Between(a: int, b: int, k: int)
  {
    (a < k < b) || (b < k < a)
  }

  /** Row k is at or beyond row cx, scanning with the given step. */
  predicate Ahead(cx: int, step: int, k: int)
  {
    if step > 0 then cx <= k else k <= cx
  }

  /** The first occupied block of column y met when scanning rows cx, cx + step, ... while they
      are on the board; none if the scan leaves the board first. */
  function FirstOccupied(w: World, y: int, cx: int, step: int): (r: Option<Cell>)
    requires |w.cells| == 64 && 0 <= y < 8 && (step == -1 || step == 1)
    requires step > 0 ==> 0 <= cx
    requires step < 0 ==> cx < 8
    ensures r.Some? ==>
      w.cells[r.value].Some? && Col(r.value) == y && Ahead(cx, step, Row(r.value))
      && forall k :: Between(cx - step, Row(r.value), k) ==> OccupantAt(w, k, y).None?
    ensures r.None? ==> forall k :: 0 <= k < 8 && Ahead(cx, step, k) ==> OccupantAt(w, k, y).None?
    decreases if step > 0 then 8 - cx else cx + 1
  {
    if cx < 0 || cx >= 8 then None
    else if OccupantAt(w, cx, y).Some? then CellAt(cx, y)
    else FirstOccupied(w, y, cx + step, step)
  }

  /** The scan reads nothing but the blocks. */
  lemma {:induction false} FirstOccupiedReadsCells(w: World, v: World, y: int, cx: int, step: int)
    requires |w.cells| == 64 && 0 <= y < 8 && (step == -1 || step == 1)
    requires step > 0 ==> 0 <= cx
    requires step < 0 ==> cx < 8
    requires v.cells == w.cells
    ensures FirstOccupied(w, y, cx, step) == FirstOccupied(v, y, cx, step)
    decreases if step > 0 then 8 - cx else cx + 1
  {
    if 0 <= cx < 8 && OccupantAt(w, cx, y).None? {
      FirstOccupiedReadsCells(w, v, y, cx + step, step);
    }
  }

  /** The block the musketeer p's shot stops at: the first occupied block ahead in its column. */
  function SnipeTarget(w: World, p: PieceId): Option<Cell>
    requires Consistent(w) && p < |w.pieces| && w.pieces[p].block.Some?
  {
    var o := w.pieces[p].block.value;
    var step := Direction(w.pieces[p].white);
    BlockCoordinates(o);
    FirstOccupied(w, Col(o), Row(o) + step, step)
  }

  /** snipe, with the scan kept on the board on both sides: the first piece ahead in the
      musketeer's column is removed if it is an enemy; a friend stops the shot. */
  function Snipe(w: World, p: PieceId): (r: World)
    requires Consistent(w) && p < |w.pieces| && w.pieces[p].block.Some?
    ensures Consistent(r) && Extends(w, r) && |r.pieces| == |w.pieces|
  {
    match SnipeTarget(w, p)
    case None => w
    case Some(c) => if w.pieces[w.cells[c].value].white != w.pieces[p].white then RemoveAt(w, c) else w
  }

  /** The snipe changes at most one block: an enemy in the musketeer's column, ahead of it, with
      every block between them empty. Such an enemy, if the first piece ahead, is removed. */
  lemma SnipeHitsFirstEnemy(w: World, p: PieceId)
    requires Consistent(w) && p < |w.pieces| && w.pieces[p].block.Some?
    ensures var o := w.pieces[p].block.value;
      var r := Snipe(w, p);
      forall c: Cell :: r.cells[c] != w.cells[c] ==>
        r.cells[c].None? && w.cells[c].Some? && w.pieces[w.cells[c].value].white != w.pieces[p].white
        && Col(c) == Col(o) && Ahead(Row(o) + Direction(w.pieces[p].white), Direction(w.pieces[p].white), Row(c))
        && forall k :: Between(Row(o), Row(c), k) ==> OccupantAt(w, k, Col(o)).None?
    ensures var o := w.pieces[p].block.value;
      forall c: Cell :: SnipeTarget(w, p) == Some(c) && w.pieces[w.cells[c].value].white != w.pieces[p].white
        ==> Snipe(w, p).cells[c].None?
  {
  }

  /** With nothing ahead in its column, or a friend first in line, the snipe changes nothing. */
  lemma SnipeMisses(w: World, p: PieceId)
    requires Consistent(w) && p < |w.pieces| && w.pieces[p].block.Some?
    requires SnipeTarget(w, p).None?
      || w.pieces[w.cells[SnipeTarget(w, p).value].value].white == w.pieces[p].white
    ensures Snipe(w, p) == w
  {
  }

  /** The scan of snipe as written: it only stops at the far edge (cx < CELLS_TALL), so a scan
      towards row 0 that finds nothing asks for the block at row -1, gets no block, and fails. */
  function ScanAsWritten(w: World, y: int, cx: int, step: int): (r: Result<Option<Cell>, string>)
    requires |w.cells| == 64 && 0 <= y < 8 && (step == -1 || step == 1)
    ensures r.Ok? && r.value.Some? ==> w.cells[r.value.value].Some?
    decreases if step > 0 then 8 - cx else cx + 1
  {
    if cx >= 8 then Ok(None)
    else if cx < 0 then Err("no block at this row")
    else if OccupantAt(w, cx, y).Some? then Ok(CellAt(cx, y))
    else ScanAsWritten(w, y, cx + step, step)
  }

  /** snipe exactly as written, with the failed block lookup as an error. */
  function SnipeAsWritten(w: World, p: PieceId): Result<World, string>
    requires Consistent(w) && p < |w.pieces| && w.pieces[p].block.Some?
  {
    var o := w.pieces[p].block.value;
    var step := Direction(w.pieces[p].white);
    BlockCoordinates(o);
    match ScanAsWritten(w, Col(o), Row(o) + step, step)
    case Err(e) => Err(e)
    case Ok(None) => Ok(w)
    case Ok(Some(c)) => Ok(if w.pieces[w.cells[c].value].white != w.pieces[p].white then RemoveAt(w, c) else w)
  }

  /** The scan as written agrees with the bounded scan, except that it fails where the bounded
      scan runs off row 0 without finding a piece. */
  lemma {:induction false} ScanAsWrittenAgrees(w: World, y: int, cx: int, step: int)
    requires |w.cells| == 64 && 0 <= y < 8 && (step == -1 || step == 1)
    requires step > 0 ==> 0 <= cx
    requires step < 0 ==> cx < 8
    ensures ScanAsWritten(w, y, cx, step).Err? <==> step == -1 && FirstOccupied(w, y, cx, step).None?
    ensures ScanAsWritten(w, y, cx, step).Ok? ==> ScanAsWritten(w, y, cx, step).value == FirstOccupied(w, y, cx, step)
    decreases if step > 0 then 8 - cx else cx + 1
  {
    if 0 <= cx < 8 && OccupantAt(w, cx, y).None? {
      ScanAsWrittenAgrees(w, y, cx + step, step);
    }
  }

  /** snipe as written fails exactly for a white musketeer with nothing ahead in its column, and
      otherwise does what the bounded snipe does. */
  lemma SnipeAsWrittenFails(w: World, p: PieceId)
    requires Consistent(w) && p < |w.pieces| && w.pieces[p].block.Some?
    ensures SnipeAsWritten(w, p).Err? <==> w.pieces[p].white && SnipeTarget(w, p).None?
    ensures SnipeAsWritten(w, p).Ok? ==> SnipeAsWritten(w, p).value == Snipe(w, p)
  {
    var o := w.pieces[p].block.value;
    var step := Direction(w.pieces[p].white);
    BlockCoordinates(o);
    ScanAsWrittenAgrees(w, Col(o), Row(o) + step, step);
  }

  /** A white musketeer on row 6, column 3 of an otherwise empty board. */
  function LoneMusketeer(): World
  {
    World(seq(64, (i: int) => if i == 51 then Some(0) else None),
          [Piece(Musketeer, true, Some(51), true, false, false, false, false)],
          Context([0], [], None, None, 3, 0, [], 0, Some(0), false, None, true))
  }

  /** The lone white musketeer's snipe as written runs past row 0 and fails; the bounded snipe
      leaves the board as it is. */
  lemma LoneMusketeerSnipeFails()
    ensures Consistent(LoneMusketeer())
    ensures SnipeAsWritten(LoneMusketeer(), 0).Err?
    ensures Snipe(LoneMusketeer(), 0) == LoneMusketeer()
  {
    var w := LoneMusketeer();
    assert Row(51) == 6 && Col(51) == 3;
    forall c: Cell | w.cells[c].Some?
      ensures w.cells[c].value < |w.pieces| && w.pieces[w.cells[c].value].block == Some(c)
    {
      assert c == 51;
    }
    assert Consistent(w);
    assert OccupantAt(w, 5, 3).None? && OccupantAt(w, 4, 3).None? && OccupantAt(w, 3, 3).None?;
    assert OccupantAt(w, 2, 3).None? && OccupantAt(w, 1, 3).None? && OccupantAt(w, 0, 3).None?;
  }

  /** The start of useAbility: abilityUsed is set and the cost is charged to p's colour. */
  function PayFor(w: World, p: PieceId): (r: World)
    requires Consistent(w) && p < |w.pieces|
    ensures Consistent(r) && Extends(w, r) && r.cells == w.cells
    ensures r.pieces == w.pieces[p := w.pieces[p].(abilityUsed := true)]
  {
    FlagUpdateConsistent(w, p, w.pieces[p].(abilityUsed := true));
    var w1 := UpdatePiece(w, p, w.pieces[p].(abilityUsed := true));
    RemoveElixir(w1, w.pieces[p].white, AbilityCost(w.pieces[p].kind))
  }

  /** abilityState = 1: the piece's ability waits for its next move or target. */
  function Arm(w: World, p: PieceId): (r: World)
    requires Consistent(w) && p < |w.pieces|
    ensures Consistent(r) && Extends(w, r)
  {
    FlagUpdateConsistent(w, p, w.pieces[p].(armed := true));
    UpdatePiece(w, p, w.pieces[p].(armed := true))
  }

  /** useAbility for piece p: mark the ability used, charge its cost to p's colour, then act by
      type. The knight slashes, the witch spawns and the musketeer snipes, each ending the turn;
      the dark prince and the royal giant arm; a recruit waiting on its last row reopens the
      promotion menu and any other recruit arms its spear; a skeleton does nothing more. */
  function UseAbility(w: World, p: PieceId): (r: World)
    requires Consistent(w) && p < |w.pieces| && w.pieces[p].block.Some?
    ensures Consistent(r) && Extends(w, r)
  {
    var piece := w.pieces[p];
    var o := piece.block.value;
    var paid := PayFor(w, p);
    var done := match piece.kind
      case Knight => Slash(paid, Row(o), Col(o), Direction(piece.white))
      case Witch => SpawnSkeletons(paid, p)
      case Musketeer => Snipe(paid, p)
      case RoyalRecruits =>
        if piece.waitingForPromotion && CanPromote(piece) then ShowPromotionMenu(paid, p) else Arm(paid, p)
      case DarkPrince => Arm(paid, p)
      case RoyalGiant => Arm(paid, p)
      case Skeleton => paid;
    ExtendsTransitive(w, paid, done);
    if piece.kind in {Knight, Witch, Musketeer} then
      ExtendsTransitive(w, done, PieceEndTurn(done, p));
      PieceEndTurn(done, p)
    else done
  }

  /** No ability takes its own user off its block. */
  lemma UseAbilityKeepsPlace(w: World, p: PieceId)
    requires Consistent(w) && p < |w.pieces| && w.pieces[p].block.Some?
    ensures p < |UseAbility(w, p).pieces| && UseAbility(w, p).pieces[p].block == w.pieces[p].block
  {
    var paid := PayFor(w, p);
    match w.pieces[p].kind {
      case Knight => SlashSparesUser(paid, p);
      case Musketeer => SnipeSparesUser(paid, p);
      case Witch =>
        var spawned := SpawnSkeletons(paid, p);
        assert spawned.pieces[p] == spawned.pieces[..|paid.pieces|][p];
      case _ =>
    }
  }

  /** The slash covers the knight's own row and column only off its block. */
  lemma SlashSparesUser(w: World, p: PieceId)
    requires Consistent(w) && p < |w.pieces| && w.pieces[p].block.Some?
    ensures var o := w.pieces[p].block.value;
      Slash(w, Row(o), Col(o), Direction(w.pieces[p].white)).pieces[p].block == w.pieces[p].block
  {
    var o := w.pieces[p].block.value;
    var dir := Direction(w.pieces[p].white);
    SlashCovers(Row(o), Col(o), dir, o);
    SweepKeepsUncovered(w, AnyPiece, Row(o), Col(o), SlashOffsets(dir), p);
  }

  /** The musketeer never targets its own block. */
  lemma SnipeSparesUser(w: World, p: PieceId)
    requires Consistent(w) && p < |w.pieces| && w.pieces[p].block.Some?
    ensures Snipe(w, p).pieces[p].block == w.pieces[p].block
  {
    match SnipeTarget(w, p) {
      case None =>
      case Some(c) =>
        BlockCoordinates(w.pieces[p].block.value);
        assert c != w.pieces[p].block.value;
        assert w.cells[c] != Some(p);
    }
  }

  /** useAbility charges exactly the cost to the piece's colour, saturating at 0, and never
      touches the other colour's elixir. */
  lemma UseAbilityCharges(w: World, p: PieceId)
    requires Consistent(w) && p < |w.pieces| && w.pieces[p].block.Some?
    ensures var white := w.pieces[p].white;
      ElixirOf(UseAbility(w, p), white) == Elixir.Clamp(ElixirOf(w, white) - AbilityCost(w.pieces[p].kind))
      && ElixirOf(UseAbility(w, p), !white) == ElixirOf(w, !white)
  {
  }

  /** The knight, the witch and the musketeer end the turn, which clears the ability flag and
      the selection; every other type keeps the turn with its ability marked as used. */
  lemma UseAbilityEndsTurn(w: World, p: PieceId)
    requires Consistent(w) && p < |w.pieces| && w.pieces[p].block.Some?
    ensures var r := UseAbility(w, p);
      var ends := w.pieces[p].kind in {Knight, Witch, Musketeer};
      r.ctx.endTurns == w.ctx.endTurns + (if ends then 1 else 0)
      && (ends ==> !r.pieces[p].abilityUsed && !r.pieces[p].selected)
      && (!ends ==> r.pieces[p].abilityUsed)
  {
  }

  /** The dark prince, the royal giant and a recruit that is not reopening the promotion menu
      arm their ability and change nothing on the board. */
  lemma UseAbilityArms(w: World, p: PieceId)
    requires Consistent(w) && p < |w.pieces| && w.pieces[p].block.Some?
    requires var piece := w.pieces[p];
      piece.kind in {DarkPrince, RoyalGiant}
      || (piece.kind == RoyalRecruits && !(piece.waitingForPromotion && CanPromote(piece)))
    ensures var r := UseAbility(w, p);
      r.cells == w.cells && r.pieces == w.pieces[p := w.pieces[p].(abilityUsed := true, armed := true)]
      && r.ctx.promotionMenuActive == w.ctx.promotionMenuActive
  {
  }

  /** A recruit that declined promotion and still stands on its last row reopens the menu
      instead of arming. */
  lemma UseAbilityReopensMenu(w: World, p: PieceId)
    requires Consistent(w) && p < |w.pieces| && w.pieces[p].block.Some?
    requires w.pieces[p].kind == RoyalRecruits && w.pieces[p].waitingForPromotion && CanPromote(w.pieces[p])
    ensures var r := UseAbility(w, p);
      r.ctx.promotionMenuActive && r.ctx.promoting == Some(p)
      && r.cells == w.cells && r.pieces == w.pieces[p := w.pieces[p].(abilityUsed := true)]
  {
  }

  /** The knight's slash empties the three blocks ahead of it and nothing else. */
  lemma UseAbilityKnightSlashes(w: World, p: PieceId)
    requires Consistent(w) && p < |w.pieces| && w.pieces[p].block.Some?
    requires w.pieces[p].kind == Knight
    ensures var o := w.pieces[p].block.value;
      forall c: Cell :: UseAbility(w, p).cells[c] ==
        if InFront(Row(o), Col(o), Direction(w.pieces[p].white), c) then None else w.cells[c]
  {
    var o := w.pieces[p].block.value;
    SlashCells(PayFor(w, p), Row(o), Col(o), Direction(w.pieces[p].white));
  }

  /** The witch's spawn fills the empty blocks of its cross with skeletons of its colour and
      leaves every other block alone. */
  lemma UseAbilityWitchSpawns(w: World, p: PieceId)
    requires Consistent(w) && p < |w.pieces| && w.pieces[p].block.Some?
    requires w.pieces[p].kind == Witch
    ensures var o := w.pieces[p].block.value;
      var r := UseAbility(w, p);
      forall c: Cell ::
        if InCross(Row(o), Col(o), c) && w.cells[c].None? then
          r.cells[c].Some? && r.cells[c].value >= |w.pieces|
          && r.pieces[r.cells[c].value] == NewPiece(Skeleton, w.pieces[p].white, c)
        else r.cells[c] == w.cells[c]
  {
    var paid := PayFor(w, p);
    SpawnSkeletonsCells(paid, p);
    var spawned := SpawnSkeletons(paid, p);
    assert |spawned.pieces| >= |w.pieces|;
    forall c: Cell | spawned.cells[c].Some? && spawned.cells[c].value >= |w.pieces|
      ensures UseAbility(w, p).pieces[spawned.cells[c].value] == spawned.pieces[spawned.cells[c].value]
    {
    }
  }

  /** Paying for the snipe does not change where the shot stops or what it removes. */
  lemma SnipeAfterPaying(w: World, p: PieceId)
    requires Consistent(w) && p < |w.pieces| && w.pieces[p].block.Some?
    ensures SnipeTarget(PayFor(w, p), p) == SnipeTarget(w, p)
    ensures Snipe(PayFor(w, p), p).cells == Snipe(w, p).cells
  {
    var paid := PayFor(w, p);
    var o := w.pieces[p].block.value;
    var step := Direction(w.pieces[p].white);
    BlockCoordinates(o);
    FirstOccupiedReadsCells(w, paid, Col(o), Row(o) + step, step);
  }

  /** The musketeer's snipe removes the first piece ahead in its column if that is an enemy, and
      otherwise leaves the board alone. */
  lemma UseAbilityMusketeerSnipes(w: World, p: PieceId)
    requires Consistent(w) && p < |w.pieces| && w.pieces[p].block.Some?
    requires w.pieces[p].kind == Musketeer
    ensures var r := UseAbility(w, p);
      match SnipeTarget(w, p)
      case None => r.cells == w.cells
      case Some(c) =>
        r.cells == if w.pieces[w.cells[c].value].white != w.pieces[p].white then w.cells[c := None] else w.cells
  {
    SnipeAfterPaying(w, p);
    assert UseAbility(w, p).cells == Snipe(PayFor(w, p), p).cells;
  }
}
