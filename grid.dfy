/** The 8x8 board's geometry: a Block's board coordinates and GridWorld.getBlock. */
module Grid {
  import opened Wrappers

  const CellsTall := 8
  const CellsWide := 8

  /** A block, identified by its index 8 * x + y, where x is getBoardX and y is getBoardY. */
  type Cell = c: int | 0 <= c < 64

  predicate OnBoard(x: int, y: int)
  {
    0 <= x < 8 && 0 <= y < 8
  }

  /** getBoardX: the block's row. */
  function Row(c: Cell): int { c / 8 }

  /** getBoardY: the block's column. */
  function Col(c: Cell): int { c % 8 }

  /** getBlock(x, y): the block at those coordinates, or no block off the board. */
  function CellAt(x: int, y: int): (c: Option<Cell>)
    ensures c.Some? <==> OnBoard(x, y)
    ensures c.Some? ==> Row(c.value) == x && Col(c.value) == y
  {
    if OnBoard(x, y) then Some(8 * x + y) else None
  }

  /** A block's coordinates are on the board, and getBlock at them finds that block again. */
  lemma BlockCoordinates(c: Cell)
    ensures OnBoard(Row(c), Col(c))
    ensures CellAt(Row(c), Col(c)) == Some(c)
  {
  }

  /** getBlock(a, b) finds block c exactly when c's coordinates are (a, b). */
  lemma LandsAt(a: int, b: int, c: Cell)
    ensures CellAt(a, b) == Some(c) <==> Row(c) == a && Col(c) == b
  {
    BlockCoordinates(c);
  }

  /** Distinct blocks have distinct coordinates. */
  lemma CoordinatesDetermineCell(c: Cell, d: Cell)
    requires Row(c) == Row(d) && Col(c) == Col(d)
    ensures c == d
  {
    BlockCoordinates(c);
    BlockCoordinates(d);
  }

  function Abs(n: int): nat { if n < 0 then -n else n }

  /** Integer.compare(b, a): the unit step from a towards b. */
  function Sign(a: int, b: int): int
  {
    if b > a then 1 else if b < a then -1 else 0
  }
}
