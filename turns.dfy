/** RuneRift's TurnManager: a two-entry queue of player names whose head has the turn. */
module Turns {

  const White: string := "WHITE"
  const Black: string := "BLACK"

  /** The queue after `poll` then `add` of the polled entry. */
  function Rotate(q: seq<string>): seq<string>
    requires q != []
    ensures |Rotate(q)| == |q|
  {
    q[1..] + [q[0]]
  }

  /** The queue after `n` calls of nextTurn. */
  function RotatedTimes(q: seq<string>, n: nat): (r: seq<string>)
    requires q != []
    ensures |r| == |q|
    decreases n
  {
    if n == 0 then q else RotatedTimes(Rotate(q), n - 1)
  }

  /** The queue always holds exactly the two colours, one each. */
  ghost predicate WellFormedQueue(q: seq<string>)
  {
    q == [White, Black] || q == [Black, White]
  }

  /** After n turns from the initial queue, WHITE has the turn exactly when n is even. */
  lemma {:induction false} TurnParity(n: nat)
    ensures RotatedTimes([White, Black], n) == if n % 2 == 0 then [White, Black] else [Black, White]
  {
    if n > 0 {
      RotatedFromBlack(n - 1);
    }
  }

  lemma {:induction false} RotatedFromBlack(n: nat)
    ensures RotatedTimes([Black, White], n) == if n % 2 == 0 then [Black, White] else [White, Black]
  {
    if n > 0 {
      TurnParity(n - 1);
    }
  }

  /** Every rotation of a well-formed queue is well formed and hands the turn to the other colour. */
  lemma RotateAlternates(q: seq<string>)
    requires WellFormedQueue(q)
    ensures WellFormedQueue(Rotate(q))
    ensures Rotate(q)[0] != q[0]
  {
  }

  /** Exactly one colour has the turn. */
  lemma ExactlyOneHasTurn(tm: TurnManager)
    requires tm.Valid()
    ensures tm.IsPlayerTurn(White) != tm.IsPlayerTurn(Black)
  {
  }

  class TurnManager {
    var turnQueue: seq<string>
    var currentPlayer: string

    ghost predicate Valid()
      reads this
    {
      WellFormedQueue(turnQueue) && currentPlayer == turnQueue[0]
    }

    constructor ()
      ensures Valid() && turnQueue == [White, Black] && currentPlayer == White
    {
      turnQueue := [White, Black];
      new;
      currentPlayer := turnQueue[0];
    }

    function GetCurrentPlayer(): string
      reads this
    {
      currentPlayer
    }

    /** Exactly one of the two colours has the turn, and it is the queue head. */
    function IsPlayerTurn(player: string): (mine: bool)
      reads this
      requires Valid()
      ensures mine <==> player == turnQueue[0]
      ensures mine ==> player == White || player == Black
    {
      currentPlayer == player
    }

    method NextTurn()
      requires Valid()
      modifies this
      ensures Valid()
      ensures turnQueue == Rotate(old(turnQueue))
      ensures currentPlayer != old(currentPlayer)
    {
      var player := turnQueue[0];
      turnQueue := turnQueue[1..];
      turnQueue := turnQueue + [player];
      currentPlayer := turnQueue[0];
    }
  }

  /** The (n+1)-th call of nextTurn rotates the queue left by the first n calls. */
  lemma {:induction false} RotatedTimesStep(q: seq<string>, n: nat)
    requires q != []
    ensures RotatedTimes(q, n + 1) == Rotate(RotatedTimes(q, n))
    decreases n
  {
    if n > 0 {
      RotatedTimesStep(Rotate(q), n - 1);
    }
  }
}
