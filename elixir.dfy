/** ClashMate's ElixirBar: a per-colour resource counter bounded to [0, 10]. */
module Elixir {

  const MaxElixir: int := 10

  function Min(a: int, b: int): int { if a <= b then a else b }
  function Max(a: int, b: int): int { if a >= b then a else b }

  /** The value that setElixir stores for a requested amount. */
  function Clamp(amount: int): (r: int)
    ensures 0 <= r <= MaxElixir
    ensures 0 <= amount <= MaxElixir ==> r == amount
    ensures amount < 0 ==> r == 0
    ensures amount > MaxElixir ==> r == MaxElixir
  {
    Max(0, Min(amount, MaxElixir))
  }

  class ElixirBar {
    const maxElixir: int
    var currentElixir: int

    ghost predicate Valid()
      reads this
    {
      maxElixir == MaxElixir && 0 <= currentElixir <= maxElixir
    }

    constructor ()
      ensures Valid() && currentElixir == 0
    {
      maxElixir := MaxElixir;
      currentElixir := 0;
    }

    method SetElixir(amount: int)
      requires Valid()
      modifies this
      ensures Valid() && currentElixir == Clamp(amount)
    {
      currentElixir := Max(0, Min(amount, maxElixir));
    }

    method AddElixir(amount: int)
      requires Valid()
      modifies this
      ensures Valid() && currentElixir == Clamp(old(currentElixir) + amount)
    {
      SetElixir(currentElixir + amount);
    }

    method RemoveElixir(amount: int)
      requires Valid()
      modifies this
      ensures Valid() && currentElixir == Clamp(old(currentElixir) - amount)
    {
      SetElixir(currentElixir - amount);
    }

    function GetElixir(): int
      reads this
    {
      currentElixir
    }

    function IsFull(): (full: bool)
      reads this
      requires Valid()
      ensures full <==> GetElixir() == MaxElixir
    {
      currentElixir >= maxElixir
    }

    function IsEmpty(): (empty: bool)
      reads this
      requires Valid()
      ensures empty <==> GetElixir() == 0
    {
      currentElixir <= 0
    }
  }

  function Dist(a: int, b: int): nat { if a >= b then a - b else b - a }

  /** setElixir stores the amount in [0, 10] nearest to the one requested. */
  lemma ClampIsNearest(amount: int, u: int)
    requires 0 <= u <= MaxElixir
    ensures Dist(Clamp(amount), amount) <= Dist(u, amount)
  {
  }

  /** Removing what was just added restores the bar exactly when the addition stayed within the
      maximum; elixir gained beyond the maximum is lost. */
  lemma AddThenRemove(current: int, amount: int)
    requires 0 <= current <= MaxElixir && amount >= 0
    ensures current + amount <= MaxElixir ==> Clamp(Clamp(current + amount) - amount) == current
    ensures current + amount > MaxElixir && current > 0 ==> Clamp(Clamp(current + amount) - amount) < current
  {
  }

  /** Adding back what was just removed restores the bar exactly when the removal stayed above
      zero; a removal beyond zero is not owed back. */
  lemma RemoveThenAdd(current: int, amount: int)
    requires 0 <= current <= MaxElixir && amount >= 0
    ensures current - amount >= 0 ==> Clamp(Clamp(current - amount) + amount) == current
    ensures current - amount < 0 && current < MaxElixir ==> Clamp(Clamp(current - amount) + amount) > current
  {
  }

  /** One call to addElixir or removeElixir. */
  datatype Change = Add(amount: int) | Remove(amount: int)

  function Apply(current: int, change: Change): int
  {
    match change
    case Add(n) => Clamp(current + n)
    case Remove(n) => Clamp(current - n)
  }

  /** The bar's value after a sequence of additions and removals: it never leaves [0, 10]. */
  function ApplyAll(current: int, changes: seq<Change>): (r: int)
    requires 0 <= current <= MaxElixir
    ensures 0 <= r <= MaxElixir
    ensures changes == [] ==> r == current
    decreases |changes|
  {
    if changes == [] then current
    else ApplyAll(Apply(current, changes[0]), changes[1..])
  }
}
