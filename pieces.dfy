/** Piece types, ability costs and the per-piece state a Piece object carries. */
module Pieces {
  import opened Wrappers
  import opened Grid
  import Elixir

  datatype Kind = DarkPrince | Knight | Musketeer | RoyalGiant | Skeleton | Witch | RoyalRecruits

  /** setAbilityCost: the elixir the ability costs. */
  function AbilityCost(kind: Kind): (cost: int)
    ensures 0 <= cost <= Elixir.MaxElixir
    ensures cost == 0 <==> kind == Skeleton
    ensures kind == Musketeer ==> cost == 3
    ensures kind == Witch ==> cost == 4
    ensures kind == RoyalGiant <==> cost == 8
  {
    match kind
    case DarkPrince => 5
    case Knight => 3
    case Musketeer => 3
    case RoyalGiant => 8
    case Witch => 4
    case RoyalRecruits => 1
    case Skeleton => 0
  }

  /** The row step forward: white moves towards row 0, black towards row 7. */
  function Direction(white: bool): (dir: int)
    ensures dir == -1 || dir == 1
  {
    if white then -1 else 1
  }

  /** A Piece object's fields; `armed` is abilityState == 1 and `block` is currentBlock. */
  datatype Piece = Piece(
    kind: Kind,
    white: bool,
    block: Option<Cell>,
    selected: bool,
    hasMoved: bool,
    abilityUsed: bool,
    armed: bool,
    waitingForPromotion: bool)

  /** The state `new Piece(kind, block, white)` leaves behind: on its block, unmoved, idle. */
  function NewPiece(kind: Kind, white: bool, c: Cell): (p: Piece)
    ensures p.kind == kind && p.white == white && p.block == Some(c)
    ensures !p.hasMoved && !p.selected && !p.abilityUsed && !p.armed && !p.waitingForPromotion
  {
    Piece(kind, white, Some(c), false, false, false, false, false)
  }

  /** canPromote: a recruit standing on the last row before the edge in its direction of travel. */
  function CanPromote(p: Piece): (promote: bool)
    ensures promote <==>
      p.kind == RoyalRecruits && p.block.Some?
      && OnBoard(Row(p.block.value), Col(p.block.value))
      && !OnBoard(Row(p.block.value) + Direction(p.white), Col(p.block.value))
  {
    if p.kind != RoyalRecruits then false
    else if p.block.None? then false
    else
      var row := Row(p.block.value);
      (p.white && row == 0) || (!p.white && row == 7)
  }
}
