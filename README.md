# ClashMate rule engine in Dafny

This project models the rule engine of ClashMate, a two-colour chess variant built on Greenfoot, and the parts of its RuneRift predecessor that share that logic. It covers:

- the 8x8 board of `Block`s, each holding at most one `Piece`;
- per-type move legality (`checkIfMoveIsValid`) and the line-of-sight walk (`isPathClear`);
- moving (`moveTo`), which covers capture, en passant and the dark prince's charge with its splash damage;
- castling (`executeCastling`);
- the paid abilities: the knight's slash, the witch's skeletons, the musketeer's snipe, and arming the dark prince, the royal giant and the recruit;
- `useAbility` and the per-frame click handling of `act` and `move`;
- promotion (`canPromote` and the paid promotion menu);
- the royal giant's four-turn bomb and its 3x3 blast;
- RuneRift's two-colour turn queue;
- the 0–10 elixir bar;
- both games' settings records and their `key=value` file lines;
- RuneRift's per-player game clock.

How the files fit together:

- **Value level.** The board is a value `Worlds.World`:
  - the 64 block slots (block `8 * x + y` holds its piece's index, or nothing);
  - the piece table, holding each `Piece` object's fields;
  - a `Context` for the state of the `GridWorld` that the pieces read and write.

  `Worlds.Consistent` says that every block's occupant has that block as its `currentBlock`, and that every piece with a block is that block's occupant. Every rule is a function on worlds that keeps this invariant. The modules `Moves`, `Abilities`, `Sweeps`, `Clicks`, `Bombs` and `Promotion` prove what those functions do.
- **Imperative level.** `Engine.Board` is the mutable board:
  - an `array` of 64 slots;
  - the piece fields;
  - the world's bookkeeping.

  Each of its methods follows the Java method's steps (`setPiece`, `removePiece`, the `isPathClear` and `snipe` loops, the sweeps of `dealSplashDamage`, `slash`, `spawnSkeletons` and `explode`). Each method is proved to leave the board in exactly the state the value-level rule computes, with the consistency invariant kept.
- **Small classes.** `Bombs.Bomb`, `Promotion.PromotionMenu`, `Turns.TurnManager`, `Elixir.ElixirBar`, `ClashSettings.GameSettings`, `RuneSettings.GameSettings` and `Timer.GameTimer` are classes with the Java fields. Their methods are specified against pure functions, and those functions carry the lemmas.

The file `PromotionMenu` exists in both games. The two copies differ only in how `promoteToType` ends the turn: ClashMate calls the new piece's `endTurn`, RuneRift calls the world's. `Promotion.Game` selects between the two, and `Promotion.PromoteGamesAgree` proves both give the same board. The two `Bomb` files differ only in sound, so one model serves both.

## Model

| member | source | states |
|---|---|---|
| Grid.CellAt | ClashMate/Piece.java:725-737 | getBlock finds a block exactly for on-board coordinates, and the block found has those coordinates |
| Pieces.AbilityCost | ClashMate/Piece.java:84-95 | every ability costs between 0 and the elixir maximum of 10; only the skeleton's is free, the musketeer's is 3, the witch's 4, and only the giant's costs 8 |
| Pieces.NewPiece | ClashMate/Piece.java:64-79 | a new piece stands on its block with its type and colour, unmoved, unselected, with no ability used or armed and not waiting for promotion |
| Pieces.CanPromote | ClashMate/Piece.java:860-867 | a piece can promote exactly when it is a recruit on a block and one more step forward would leave the board (row 0 for white, row 7 for black) |
| Worlds.Without | ClashMate/Piece.java:834-839 | removing a piece from a colour list drops one occurrence: an absent piece leaves the list as it is, a present one shortens it by one, and the multiset loses exactly that piece |
| Worlds.RemoveAt | ClashMate/Block.java:73-89 | removePiece(true) empties the block and clears its occupant's block reference. It leaves every other piece, the turn bookkeeping and the elixir as they were, keeps the board consistent, and changes nothing on an empty block |
| Worlds.RemovedPieceUnlisted | ClashMate/Block.java:73-89 | a removed piece is no longer in either colour's list, provided it appeared at most once |
| Worlds.DistinctOccupants | ClashMate/Block.java:57-67 | on a consistent board no piece occupies two blocks |
| Worlds.RemoveElixir | ClashMate/ElixirBar.java:49-52 | removing elixir from one colour subtracts the amount saturating at 0, and leaves the other colour, the blocks and the pieces alone |
| Worlds.Deselect | ClashMate/Piece.java:656-660 | deselect clears only the piece's selected flag |
| Worlds.DeselectIdempotent | ClashMate/Piece.java:656-660 | deselecting twice is deselecting once |
| Worlds.WorldEndTurn | ClashMate/Piece.java:586 | the world's endTurn is counted exactly once and changes nothing else; the en-passant record, the elixir and the bomb orders carry over (see "## Left out") |
| Worlds.PieceEndTurn | ClashMate/Piece.java:585-593 | Piece.endTurn counts one world endTurn, clears the piece's ability flag and selection, and changes no block and no other piece |
| Worlds.ShowPromotionMenu | ClashMate/Piece.java:506-509 | showPromotionMenu raises the menu flag for the recruit and changes no block, no piece and nothing else in the world |
| Sweeps.SweepAt | ClashMate/Piece.java:726-729 | one visited block of a sweep keeps the board consistent, adds no piece, and leaves the en-passant record, turn count, bombs, selection, menu and elixir alone |
| Sweeps.Sweep | ClashMate/Piece.java:725-738 | a sweep over a list of offsets keeps the same bookkeeping as one visited block |
| Sweeps.SweepCells | ClashMate/Piece.java:184-217 | a sweep empties exactly the covered blocks whose occupant is a target, and every other block keeps its occupant |
| Sweeps.SweepSparesFriends | ClashMate/Bomb.java:70-79 | a sweep over one colour's enemies leaves every piece of that colour exactly as it was |
| Sweeps.SweepKeepsFriend | ClashMate/Piece.java:191-195 | a piece of the spared colour is untouched by a sweep over its enemies |
| Sweeps.SweepKeepsUncovered | ClashMate/Piece.java:184-217 | a piece whose block no offset reaches is left exactly as it was |
| Sweeps.CrossCovers | ClashMate/Piece.java:190-213 | the cross offsets reach exactly the on-board orthogonal neighbours |
| Sweeps.Place | ClashMate/Piece.java:64-79 | a new piece on an empty block is appended to the piece table and occupies that block. Nothing else changes, and no colour list gains it |
| Sweeps.SpawnAt | ClashMate/Piece.java:229-233 | one block of spawnSkeletons keeps every existing piece and the world's bookkeeping |
| Sweeps.SpawnAtCells | ClashMate/Piece.java:229-233 | a skeleton of the spawner's colour appears exactly on an on-board empty block; every other block is unchanged |
| Sweeps.SpawnAll | ClashMate/Piece.java:223-249 | spawning over a list of offsets keeps every existing piece and the world's bookkeeping |
| Sweeps.SpawnCells | ClashMate/Piece.java:223-249 | spawning fills exactly the covered empty blocks, each with a fresh unmoved skeleton of the spawner's colour, and leaves every other block's occupant alone |
| Legality.WalkStaysOnBoard | ClashMate/Piece.java:385-402 | isPathClear's walk stays on the board and reaches the target exactly at its last step |
| Legality.IsValidMove | ClashMate/Piece.java:255-359 | checkIfMoveIsValid: for every piece type, a valid target never holds a piece of the mover's colour and is never the mover's own block; the lemmas below characterise each type |
| Legality.PathClear | ClashMate/Piece.java:385-402 | the specification isPathClear's loop is proved against (`Engine.Board.IsPathClear`): every block strictly between the two is empty |
| Legality.KnightIgnoresOccupancy | ClashMate/Piece.java:350-352 | two boards that agree on the knight and on the target's colour give the same verdict, whatever stands elsewhere |
| Legality.KnightChangesShade | ClashMate/Piece.java:350-352 | a knight always lands on a block of the other shade of the chequerboard |
| Legality.SlideAlongRay | ClashMate/Piece.java:306-312 | along each of its directions (rows and columns for the dark prince, diagonals for the musketeer at ClashMate/Piece.java:354-356, both for the witch), a sliding piece may move exactly to the blocks before the first occupied one, and onto that one when it holds an enemy |
| Legality.SlideOnRay | ClashMate/Piece.java:306-312 | every valid move of a sliding piece is some number of unit steps along one of its directions, so the ray lemma covers all of them |
| Legality.SlideIgnoresElsewhere | ClashMate/Piece.java:306-312 | a sliding piece's verdict depends only on the blocks strictly between and on the colour on the target |
| Legality.RecruitMoves | ClashMate/Piece.java:279-304 | on an empty target, a recruit's move is valid exactly for: one forward; two forward if unmoved over an empty block; diagonally forward onto the en-passant block. On an occupied target it is valid exactly for diagonally forward onto an enemy, or straight forward onto an enemy while its ability is used this turn |
| Legality.RecruitOnlyAdvances | ClashMate/Piece.java:279-304 | a valid recruit move advances one or two rows in its direction, never backwards or sideways |
| Legality.GiantReach | ClashMate/Piece.java:324-348 | a valid giant move goes at most one row and two columns; a two-column move is made only by an unmoved giant along its row, with the passed block empty and an unmoved dark prince on the corner it heads for |
| Legality.GiantStepsAnywhere | ClashMate/Piece.java:344-345 | an unarmed giant may step onto any neighbouring block that holds no piece of its own, moved or not |
| Legality.SkeletonMoves | ClashMate/Piece.java:314-322 | a skeleton's move is valid exactly for one forward onto an empty block, or one diagonal block in any direction onto an enemy |
| Moves.EnPassantCapture | ClashMate/Piece.java:119-128 | the en-passant step keeps the board consistent and adds no piece. It keeps the en-passant record and turn bookkeeping |
| Moves.RecordTwoStep | ClashMate/Piece.java:133-142 | recording a two-row move changes neither blocks nor pieces nor the turn count |
| Moves.Relocate | ClashMate/Piece.java:144-168 | the mover leaves its old block and occupies the empty target, its block becomes the target, it has moved, and a recruit's spear is disarmed. Every other piece and the world's bookkeeping are unchanged |
| Moves.Splash | ClashMate/Piece.java:184-217 | dealSplashDamage keeps the board consistent and leaves the prince itself only disarmed |
| Moves.MoveTo | ClashMate/Piece.java:115-178 | moveTo keeps the board consistent and adds no piece |
| Moves.MoveToKeepsTurn | ClashMate/Piece.java:115-178 | moveTo neither ends the turn, nor queues a bomb, nor touches the promotion menu or the game flag |
| Moves.MoveToPlacesMover | ClashMate/Piece.java:159-168 | after moveTo the target holds the mover, the mover's block is the target, it has moved, and its old block is empty |
| Moves.MoveToCaptures | ClashMate/Piece.java:130-131 | whatever stood on the target is off the board after the move |
| Moves.NoCharge | ClashMate/Piece.java:171-174 | only a dark prince moving onto an occupied block can trigger the splash |
| Moves.MoveToRecordsTwoStep | ClashMate/Piece.java:133-142 | a recruit's two-row move records the block it passed over and itself as the en-passant opportunity |
| Moves.MoveToCapturesEnPassant | ClashMate/Piece.java:119-128 | a recruit landing on the recorded en-passant block takes the recorded recruit off the board |
| Moves.MoveToPlain | ClashMate/Piece.java:115-168 | a move that is neither a recruit's nor a charge onto an occupied block frees the old block and occupies the target. The mover gets block := target and hasMoved := true, and the world's bookkeeping is that of the removal on the target |
| Moves.ChargeOntoEmptyStaysArmed | ClashMate/Piece.java:171-174 | an armed dark prince moving onto an empty block stays armed |
| Moves.ChargeSteps | ClashMate/Piece.java:165-174 | a charge onto an occupied block is the plain move followed by the splash around the landing block |
| Moves.ChargeSplashes | ClashMate/Piece.java:184-217 | a charge onto an occupied block disarms the prince and removes exactly the enemies on the landing block's four orthogonal neighbours. Every other block away from the move keeps its occupant |
| Moves.CastleReadyMeans | ClashMate/Piece.java:324-348 | a giant's move is ready for castling exactly when it is valid and spans two columns |
| Moves.CastleCorner | ClashMate/Piece.java:530 | the partner is taken from the end of the giant's row in the direction it moves |
| Moves.CastleLanding | ClashMate/Piece.java:531 | the partner lands on the giant's row, on the block between the giant's origin and its target |
| Moves.Castle | ClashMate/Piece.java:522-556 | executeCastling keeps the board consistent and adds no piece |
| Moves.CastleKeepsTurn | ClashMate/Piece.java:522-556 | castling itself neither ends the turn nor queues a bomb |
| Moves.CastleLandingFree | ClashMate/Piece.java:336-346 | before castling, the target is on the giant's row, and the partner's landing block is empty and is neither the giant's block nor its target |
| Moves.CastleLandingEmpty | ClashMate/Piece.java:534-537 | after the giant's moveTo, the partner's landing block is still empty |
| Moves.CastlePartner | ClashMate/Piece.java:336-346 | the corner a castling heads for holds an unmoved dark prince that is not the giant |
| Moves.CastleSteps | ClashMate/Piece.java:534-555 | with the corner away from the target, castling is the giant's moveTo followed by moving the corner piece onto the landing block |
| Moves.CastleMovesGiant | ClashMate/Piece.java:534 | castling puts the giant on its target with hasMoved set and empties its old block |
| Moves.CastleMovesPartner | ClashMate/Piece.java:540-555 | the corner piece ends on the block the giant passed over with hasMoved set, and the corner is empty |
| Moves.CornerCastleSteps | ClashMate/Piece.java:534-555 | when the target is the corner itself, castling is the giant's moveTo followed by the giant's own move to the block it passed over |
| Moves.CastleTargetEnemy | ClashMate/Piece.java:258-261 | an occupied castling target holds an enemy |
| Moves.CastleOntoCorner | ClashMate/Piece.java:536-555 | castling onto a corner holding an enemy dark prince takes the prince, leaves the giant on the block it passed over, and leaves the corner empty |
| Abilities.Slash | ClashMate/Piece.java:725-738 | the slash keeps the board consistent and adds no piece |
| Abilities.SlashCovers | ClashMate/Piece.java:725-738 | the slash's offsets reach exactly the three blocks one row ahead |
| Abilities.SlashCells | ClashMate/Piece.java:725-738 | the slash empties exactly the front-left, front and front-right blocks, friend or enemy, and leaves every other block alone |
| Abilities.SpawnSkeletons | ClashMate/Piece.java:223-249 | spawnSkeletons keeps the board consistent and every existing piece |
| Abilities.SpawnSkeletonsCells | ClashMate/Piece.java:223-249 | the witch fills exactly the empty blocks of its cross, each with a fresh, unmoved skeleton of its colour, and leaves every other block alone |
| Abilities.FirstOccupied | ClashMate/Piece.java:418-431 | the scan stops at the first occupied block ahead in the column, with every block before it empty. With no result, every block ahead is empty |
| Abilities.FirstOccupiedReadsCells | ClashMate/Piece.java:418-431 | the scan depends on the blocks only |
| Abilities.Snipe | ClashMate/Piece.java:408-432 | the bounded snipe keeps the board consistent and adds no piece |
| Abilities.SnipeHitsFirstEnemy | ClashMate/Piece.java:408-432 | at most one block changes: an enemy in the musketeer's column, ahead, with every block between empty. The first piece ahead, if an enemy, is removed |
| Abilities.SnipeMisses | ClashMate/Piece.java:424-428 | with nothing ahead, or a friend first in line, the snipe changes nothing |
| Abilities.ScanAsWritten | ClashMate/Piece.java:421-431 | the scan as written only returns occupied blocks when it succeeds |
| Abilities.ScanAsWrittenAgrees | ClashMate/Piece.java:421-431 | the scan as written fails exactly where a scan towards row 0 finds nothing, and otherwise agrees with the bounded scan |
| Abilities.SnipeAsWrittenFails | ClashMate/Piece.java:408-432 | snipe as written fails exactly for a white musketeer with nothing ahead in its column, and otherwise equals the bounded snipe |
| Abilities.LoneMusketeerSnipeFails | ClashMate/Piece.java:421-423 | a lone white musketeer on row 6 makes snipe as written fail, while the bounded snipe leaves the board as it is |
| Abilities.PayFor | ClashMate/Piece.java:744-747 | useAbility's start marks the ability used, charges the cost, and changes no block |
| Abilities.Arm | ClashMate/Piece.java:763 | arming keeps the board consistent |
| Abilities.UseAbility | ClashMate/Piece.java:743-820 | useAbility keeps the board consistent and every existing piece |
| Abilities.UseAbilityKeepsPlace | ClashMate/Piece.java:743-820 | no ability takes its own user off its block |
| Abilities.SlashSparesUser | ClashMate/Piece.java:725-738 | the slash never reaches the knight's own block |
| Abilities.SnipeSparesUser | ClashMate/Piece.java:408-432 | the snipe never removes the musketeer itself |
| Abilities.UseAbilityCharges | ClashMate/Piece.java:747 | useAbility takes exactly the ability's cost from the user's colour, saturating at 0, and never from the other colour |
| Abilities.UseAbilityEndsTurn | ClashMate/Piece.java:754-799 | the knight, the witch and the musketeer end the turn once, clearing their ability flag and selection. Every other type keeps the turn with its ability marked used |
| Abilities.UseAbilityArms | ClashMate/Piece.java:762-815 | the dark prince, the giant, and a recruit not reopening the menu arm, with no block changed and the menu untouched |
| Abilities.UseAbilityReopensMenu | ClashMate/Piece.java:808-812 | a recruit waiting for promotion on its last row reopens the menu for itself instead of arming |
| Abilities.UseAbilityKnightSlashes | ClashMate/Piece.java:755-760 | the knight's ability empties exactly the three blocks ahead of it |
| Abilities.UseAbilityWitchSpawns | ClashMate/Piece.java:769-775 | the witch's ability fills exactly the empty blocks of its cross with skeletons of its colour |
| Abilities.SnipeAfterPaying | ClashMate/Piece.java:744-747 | paying for the snipe changes neither where the shot stops nor what it removes |
| Abilities.UseAbilityMusketeerSnipes | ClashMate/Piece.java:777-799 | the musketeer removes the first piece ahead in its column if it is an enemy, and otherwise changes no block |
| Clicks.ToggleSelection | ClashMate/Piece.java:469-486 | a click on the piece's own block flips its selection and records the world's selected piece accordingly; nothing else changes |
| Clicks.QueueExplosion | ClashMate/Piece.java:570-580 | the armed giant disarms and one bomb order of its colour is appended for the target; nothing else changes |
| Clicks.FinishMove | ClashMate/Piece.java:506-512 | ending a plain move keeps the board consistent |
| Clicks.ValidMove | ClashMate/Piece.java:496-513 | a valid move keeps the board consistent |
| Clicks.Command | ClashMate/Piece.java:488-515 | a click on another block that is not a valid move, by a piece that is not an armed giant, changes nothing |
| Clicks.Move | ClashMate/Piece.java:437-516 | move changes the board only for a block click, once the game has started, in the piece's turn, without the promotion menu open, and on its own block or while selected |
| Clicks.AbilityGate | ClashMate/Piece.java:877-880 | act's gate: selected, ability not both used and armed, own button clicked, and the colour can pay; `ButtonOnlyUsesAbility` and `AbilityRefused` use it |
| Clicks.Act | ClashMate/Piece.java:872-885 | act uses the ability when the ability button is clicked and the gate holds, and otherwise does what move does |
| Clicks.ToggleTwice | ClashMate/Piece.java:469-486 | selecting and deselecting in either order restores the world |
| Clicks.ClickOwnBlockToggles | ClashMate/Piece.java:469-486 | a click on its own block in turn flips the selection and moves nothing |
| Clicks.ArmedGiantQueuesBomb | ClashMate/Piece.java:490-494 | a selected armed giant clicking another block queues one bomb there and ends the turn. It is disarmed and deselected, and no block changes |
| Clicks.InvalidTargetIgnored | ClashMate/Piece.java:495-496 | a selected piece that is not an armed giant ignores clicks on blocks it cannot move to |
| Clicks.MoveMakesValidMove | ClashMate/Piece.java:496-513 | a selected piece in turn makes the valid move it is asked for |
| Clicks.FinishMoveEnds | ClashMate/Piece.java:506-512 | a recruit that can promote opens the menu for itself, is deselected and keeps the turn; any other piece is deselected and ends the turn |
| Clicks.ValidMovePlaces | ClashMate/Piece.java:503-513 | a valid plain move puts the piece on the target and empties its old block. The piece is then deselected, and either it opens the promotion menu or the turn ends |
| Clicks.MoveCastles | ClashMate/Piece.java:498-501 | a valid two-column giant move castles and ends the turn |
| Clicks.CastlingEndsTurn | ClashMate/Piece.java:498-501 | castling towards a distant corner leaves the giant on the target with its old block empty, deselected, with the turn ended |
| Clicks.CastlingOntoCornerEndsTurn | ClashMate/Piece.java:498-501 | castling onto the corner holding an enemy prince leaves the giant on the block it passed over, the corner empty, and the turn ended |
| Clicks.ButtonOnlyUsesAbility | ClashMate/Piece.java:877-880 | the ability button never moves a piece: the ability is used exactly when the colour can pay |
| Clicks.AbilityRefused | ClashMate/Piece.java:877-880 | an unselected piece, one whose colour cannot pay, or one already used and armed, does not use its ability |
| Engine.Board.SetPiece | ClashMate/Block.java:57-67 | after setPiece(q) the block's currentPiece is q, and no other block changes |
| Engine.Board.RemovePiece | ClashMate/Block.java:73-89 | removePiece(true) in place produces exactly the value-level removal and keeps the board consistent |
| Engine.Board.IsPathClear | ClashMate/Piece.java:385-402 | the loop reports true exactly when every block strictly between start and end is empty |
| Engine.Board.SweepAt | ClashMate/Piece.java:726-729 | one visited block in place is the value-level step |
| Engine.Board.Sweep | ClashMate/Piece.java:725-738 | the loop over the offsets is the value-level sweep |
| Engine.Board.EnPassantCapture | ClashMate/Piece.java:119-128 | in place, the value-level en-passant step |
| Engine.Board.RecordTwoStep | ClashMate/Piece.java:133-142 | in place, the value-level two-step record |
| Engine.Board.Relocate | ClashMate/Piece.java:144-168 | in place, the value-level relocation |
| Engine.Board.Splash | ClashMate/Piece.java:184-217 | in place, the value-level splash |
| Engine.Board.MoveTo | ClashMate/Piece.java:115-178 | in place, the value-level moveTo |
| Engine.Board.Castle | ClashMate/Piece.java:522-556 | in place, the value-level castling |
| Engine.Board.SpawnAt | ClashMate/Piece.java:229-233 | in place, one block of spawnSkeletons |
| Engine.Board.SpawnAll | ClashMate/Piece.java:223-249 | the loop over the cross is the value-level spawn |
| Engine.Board.Snipe | ClashMate/Piece.java:408-432 | the bounded scan loop is the value-level snipe |
| Engine.Board.PayFor | ClashMate/Piece.java:744-747 | in place, the value-level payment |
| Engine.Board.Arm | ClashMate/Piece.java:763 | in place, arming |
| Engine.Board.Deselect | ClashMate/Piece.java:656-660 | in place, deselect |
| Engine.Board.EndTurn | ClashMate/Piece.java:585-593 | in place, Piece.endTurn |
| Engine.Board.UseAbility | ClashMate/Piece.java:743-820 | in place, the value-level useAbility |
| Engine.Board.QueueExplosion | ClashMate/Piece.java:570-580 | in place, queueRoyalGiantExplosion |
| Engine.Board.ToggleSelection | ClashMate/Piece.java:469-486 | in place, the own-block click |
| Engine.Board.FinishMove | ClashMate/Piece.java:506-512 | in place, the end of a plain move |
| Engine.Board.ValidMove | ClashMate/Piece.java:496-513 | in place, castling or moveTo with its ending |
| Engine.Board.Command | ClashMate/Piece.java:488-515 | in place, the click on another block |
| Engine.Board.Move | ClashMate/Piece.java:437-516 | in place, move for one click |
| Engine.Board.Act | ClashMate/Piece.java:872-885 | in place, act for one click |
| Bombs.BlastCovers | ClashMate/Bomb.java:70-72 | explode's offsets reach exactly the on-board blocks of the 3x3 square |
| Bombs.Blast | ClashMate/Bomb.java:64-86 | the explosion keeps the board consistent and adds no piece |
| Bombs.BlastCells | ClashMate/Bomb.java:64-86 | the explosion empties exactly the blocks of the 3x3 square holding an enemy of the bomb's colour; every other block keeps its occupant |
| Bombs.BlastSparesFriends | RuneRiftMain/Bomb.java:47-56 | no piece of the bomb's colour is touched, wherever it stands |
| Bombs.BlastKeepsTurn | ClashMate/Bomb.java:64-86 | the explosion does not touch the turn's bookkeeping |
| Bombs.Bomb.constructor | ClashMate/Bomb.java:22-29 | a new bomb has a countdown of 4, is in the world, and remembers its block and colour |
| Bombs.Bomb.ProgressExplosion | ClashMate/Bomb.java:56-59 | progressExplosion lowers the countdown by exactly one |
| Bombs.Bomb.ReadyAfterFour | ClashMate/Bomb.java:49 | a bomb in the world is ready exactly after its fourth progressExplosion |
| Bombs.Bomb.Explode | ClashMate/Bomb.java:64-86 | the nested loop is the value-level blast, and the bomb leaves the world |
| Bombs.Bomb.Act | RuneRiftMain/Bomb.java:29-34 | act explodes and removes the bomb exactly when the countdown is 0, so it cannot fire twice; otherwise nothing changes |
| Turns.Rotate | RuneRiftMain/TurnManager.java:38-43 | poll-then-add keeps the queue's length |
| Turns.RotatedTimes | RuneRiftMain/TurnManager.java:38-43 | n calls of nextTurn keep the queue's length; `TurnParity` gives the queue after them |
| Turns.TurnParity | RuneRiftMain/TurnManager.java:38-43 | after n calls of nextTurn from the initial queue, WHITE has the turn exactly when n is even |
| Turns.RotateAlternates | RuneRiftMain/TurnManager.java:38-43 | every rotation keeps the queue holding WHITE and BLACK once each and hands the turn to the other colour |
| Turns.ExactlyOneHasTurn | RuneRiftMain/TurnManager.java:30-33 | exactly one of the two colours has the turn |
| Turns.TurnManager.constructor | RuneRiftMain/TurnManager.java:10-17 | the queue starts WHITE, BLACK and WHITE is the current player |
| Turns.TurnManager.IsPlayerTurn | RuneRiftMain/TurnManager.java:30-33 | isPlayerTurn holds exactly for the queue head, which is WHITE or BLACK |
| Turns.TurnManager.NextTurn | RuneRiftMain/TurnManager.java:38-43 | nextTurn rotates the queue, keeps it well formed, and changes the current player |
| Elixir.Clamp | ClashMate/ElixirBar.java:28-32 | the stored value is always in [0, 10], equals an in-range request, and saturates at either end |
| Elixir.ElixirBar.constructor | ClashMate/ElixirBar.java:18-21 | the bar starts at 0 with maximum 10 |
| Elixir.ElixirBar.SetElixir | ClashMate/ElixirBar.java:28-32 | setElixir stores the clamped amount |
| Elixir.ElixirBar.AddElixir | ClashMate/ElixirBar.java:39-42 | addElixir stores the clamped sum |
| Elixir.ElixirBar.RemoveElixir | ClashMate/ElixirBar.java:49-52 | removeElixir stores the clamped difference |
| Elixir.ElixirBar.IsFull | ClashMate/ElixirBar.java:69-72 | isFull holds exactly at 10 |
| Elixir.ElixirBar.IsEmpty | ClashMate/ElixirBar.java:79-82 | isEmpty holds exactly at 0 |
| Elixir.ClampIsNearest | ClashMate/ElixirBar.java:28-32 | setElixir stores the value in [0, 10] nearest to the one requested |
| Elixir.AddThenRemove | ClashMate/ElixirBar.java:39-52 | removing what was just added restores the bar exactly when the addition stayed within 10; elixir gained beyond the maximum is lost |
| Elixir.RemoveThenAdd | ClashMate/ElixirBar.java:39-52 | adding back what was just removed restores the bar exactly when the removal stayed above 0; a removal below zero is not owed back |
| Elixir.ApplyAll | ClashMate/ElixirBar.java:28-52 | any sequence of additions and removals keeps the value in [0, 10] |
| Promotion.WithListed | ClashMate/PromotionMenu.java:206-208 | replacing one colour's list changes nothing else |
| Promotion.Retire | ClashMate/PromotionMenu.java:193-200 | the recruit leaves its colour's list and its block, keeping the board consistent and the other list, the elixir and the turn bookkeeping |
| Promotion.CloseMenu | ClashMate/PromotionMenu.java:219-233 | closing clears the menu flag and the recruit it was for, and nothing else |
| Promotion.Replace | ClashMate/PromotionMenu.java:193-208 | the new piece of the chosen kind and the recruit's colour is appended to the table, stands on the recruit's block and ends the colour's list, while the recruit is off the board and off the list |
| Promotion.Promote | ClashMate/PromotionMenu.java:186-213 | promoteToType keeps the board consistent |
| Promotion.EndPromotionTurn | RuneRiftMain/PromotionMenu.java:185-186 | both ways of ending the turn count one endTurn and change no block |
| Promotion.Cancel | ClashMate/PromotionMenu.java:167-178 | cancelPromotion keeps the board consistent |
| Promotion.Applies | ClashMate/PromotionMenu.java:147-151 | an option is taken when its button was clicked and its cost is within the elixir the menu was opened with |
| Promotion.FirstChosen | ClashMate/PromotionMenu.java:144-156 | act's loop takes the first clicked option the snapshot elixir affords, or none if no clicked option is affordable |
| Promotion.MenuAct | ClashMate/PromotionMenu.java:141-162 | the menu's act keeps the board consistent |
| Promotion.Shades | ClashMate/PromotionMenu.java:100-136 | each option button is green exactly when the snapshot elixir affords it |
| Promotion.EndTurnsAgree | RuneRiftMain/PromotionMenu.java:185-186 | ending the turn through an idle new piece equals ending it through the world |
| Promotion.PromoteReplaces | ClashMate/PromotionMenu.java:193-208 | promotion puts a new piece of the chosen kind and colour on the recruit's block and takes the recruit off the board; no other block or piece changes |
| Promotion.PromoteRelists | ClashMate/PromotionMenu.java:195-208 | the new piece replaces the recruit in its colour's list, at the end, and the other list is unchanged |
| Promotion.PromoteCharges | ClashMate/PromotionMenu.java:191 | promotion deducts the option's cost from the recruit's colour (exactly, when affordable) and leaves the other colour alone |
| Promotion.PromoteEndsTurn | ClashMate/PromotionMenu.java:211-212 | promotion closes the menu and ends the turn once, keeping the bombs and the game flag |
| Promotion.PromoteGamesAgree | RuneRiftMain/PromotionMenu.java:154-187 | ClashMate's and RuneRift's promoteToType leave the same board |
| Promotion.CancelWaits | RuneRiftMain/PromotionMenu.java:141-152 | cancelling marks the recruit as waiting, spends nothing, moves nothing, keeps the lists, closes the menu and ends the turn once |
| Promotion.MenuActPromotesFirst | ClashMate/PromotionMenu.java:144-156 | act promotes to the first clicked affordable option and only that one |
| Promotion.FirstChosenIs | ClashMate/PromotionMenu.java:144-156 | the first applicable option is the one the loop takes |
| Promotion.UnaffordableIgnored | RuneRiftMain/PromotionMenu.java:127-131 | clicks on unaffordable options change nothing; only a cancel click then has an effect |
| Promotion.NoneChosen | ClashMate/PromotionMenu.java:144-156 | with no applicable option the loop takes none |
| Promotion.ShadeMeansPromotes | ClashMate/PromotionMenu.java:100-156 | clicking a green button alone promotes to its option; clicking a red one alone does nothing |
| Promotion.PromotionMenu.constructor | ClashMate/PromotionMenu.java:38-67 | the options are knight 2, musketeer 3, witch 6, dark prince 5, royal giant 5, in that order |
| Promotion.PromotionMenu.AddedToWorld | ClashMate/PromotionMenu.java:100-136 | one button per option shaded by affordability is added, then the cancel button |
| Promotion.PromotionMenu.Close | ClashMate/PromotionMenu.java:219-233 | closeMenu clears the menu flag and removes the menu from the world |
| Promotion.PromotionMenu.CancelPromotion | ClashMate/PromotionMenu.java:167-178 | in place, the value-level cancellation |
| Promotion.PromotionMenu.Pay | ClashMate/PromotionMenu.java:191 | in place, the elixir deduction |
| Promotion.PromotionMenu.RetireRecruit | ClashMate/PromotionMenu.java:193-200 | in place, the recruit's removal |
| Promotion.PromotionMenu.ReplaceRecruit | ClashMate/PromotionMenu.java:193-208 | in place, the value-level replacement, returning the new piece |
| Promotion.PromotionMenu.AddPiece | ClashMate/PromotionMenu.java:203-208 | the new piece is placed on the emptied block and appended to its colour's list |
| Promotion.PromotionMenu.PromoteToType | ClashMate/PromotionMenu.java:186-213 | in place, the value-level promotion; the menu leaves the world |
| Promotion.PromotionMenu.EndTurn | ClashMate/PromotionMenu.java:212 | in place, the game's way of ending the turn |
| Promotion.PromotionMenu.Act | ClashMate/PromotionMenu.java:141-162 | the button loop is the value-level menu act, and the menu stays in the world exactly when nothing was chosen or cancelled |
| SettingsFormat.ClampTo | ClashMate/GameSettings.java:117-128 | the clamp lies in the range, keeps in-range values, and saturates at either end |
| SettingsFormat.ClampIsNearest | ClashMate/GameSettings.java:117-160 | each clamping setter stores the in-range value nearest to the one requested |
| SettingsFormat.KeyValue | ClashMate/GameSettings.java:206-210 | a line has a key and value exactly when split("=") cuts it into two parts |
| SettingsFormat.KeyValueOfLine | ClashMate/GameSettings.java:172-177 | a line printed by save is read back as its key and value |
| Text.NatToString | ClashMate/GameSettings.java:172 | the decimal text of a number is non-empty, all digits, without a leading zero |
| Text.DecimalValueOfNatToString | ClashMate/GameSettings.java:172 | reading a number's decimal text gives the number back |
| Text.ParseInt | ClashMate/GameSettings.java:215 | Integer.parseInt over ASCII digits either fails or yields a 32-bit value |
| Text.ParseIntOfIntToString | ClashMate/GameSettings.java:215 | parsing a non-negative int's text gives it back |
| Text.ParseBoolean | ClashMate/GameSettings.java:221 | parseBoolean yields true only for four-letter text |
| Text.ParseBooleanOfBoolToString | ClashMate/GameSettings.java:221 | parsing a boolean's text gives it back |
| Text.TrimNoSpace | ClashMate/GameSettings.java:209-210 | trim leaves text without blank characters unchanged |
| Text.Trim | ClashMate/GameSettings.java:209-210 | String.trim on the key and the value; `Text.TrimIsSlice` states what it keeps |
| Text.TrimIsSlice | ClashMate/GameSettings.java:209-210 | trim keeps a slice that neither starts nor ends with a character up to U+0020, and drops only such characters on either side |
| Text.Fields | ClashMate/GameSettings.java:206 | splitting yields at least one field |
| Text.JoinFields | ClashMate/GameSettings.java:206 | no field holds the separator, and the fields joined with it give back the line |
| Text.SplitOn | ClashMate/GameSettings.java:206 | line.split("="): a line without "=" is its own single part, the empty line included |
| Text.SplitOnFields | ClashMate/GameSettings.java:206 | when the line holds "=", split gives its fields up to the last non-empty one, every later field is empty, and no part holds "=" |
| Text.FieldsOfJoin | ClashMate/GameSettings.java:206 | fields of key, separator, value are exactly key and value when neither holds the separator |
| Text.SplitOfJoin | ClashMate/GameSettings.java:206-207 | split("=") of a printed line gives exactly its key and non-empty value |
| ClashSettings.DefaultsInRange | ClashMate/GameSettings.java:14-21 | the defaults 1, 10, white, 100, 80, 100 lie within the setters' ranges |
| ClashSettings.ApplyLine | ClashMate/GameSettings.java:206-232 | one line of load's loop fails exactly when it splits into an integer key and a value parseInt rejects, and otherwise keeps every field in range |
| ClashSettings.ApplyPair | ClashMate/GameSettings.java:212-232 | the switch on the key fails exactly for an integer key with a value parseInt rejects, and keeps every field in range |
| ClashSettings.ApplyLines | ClashMate/GameSettings.java:204-235 | the loop over the lines, stopping at the first number-format error; `ApplyLinesInRange` and `SaveLoadRoundTrip` state its properties |
| ClashSettings.LoadLines | ClashMate/GameSettings.java:192-246 | load on an existing file; `AbortResetsGameFields` and `SaveLoadRoundTrip` state its result |
| ClashSettings.SaveLines | ClashMate/GameSettings.java:168-185 | the six lines save prints; the `Saved*` lemmas and `SaveLoadRoundTrip` state that load reads them back |
| ClashSettings.IgnoredLines | ClashMate/GameSettings.java:206-232 | lines that do not split into two parts, and lines with unknown keys, change nothing |
| ClashSettings.ApplyLinesInRange | ClashMate/GameSettings.java:212-232 | reading lines keeps every field within its setter's range |
| ClashSettings.AbortResetsGameFields | ClashMate/GameSettings.java:237-245 | a number-format error makes load fail and resets multiplier, time and side to their defaults, keeping the volumes already read |
| ClashSettings.ReadIntLine | ClashMate/GameSettings.java:214-231 | an integer line save wrote is dispatched on its key with its value parsed back |
| ClashSettings.SavedElixirMultiplier | ClashMate/GameSettings.java:172 | save's multiplier line restores the multiplier |
| ClashSettings.SavedTimeMinutes | ClashMate/GameSettings.java:173 | save's time line restores the time |
| ClashSettings.SavedIsWhiteSide | ClashMate/GameSettings.java:174 | save's side line restores the side |
| ClashSettings.SavedMasterVolume | ClashMate/GameSettings.java:175 | save's master-volume line restores it |
| ClashSettings.SavedMusicVolume | ClashMate/GameSettings.java:176 | save's music-volume line restores it |
| ClashSettings.SavedSfxVolume | ClashMate/GameSettings.java:177 | save's effects-volume line restores it |
| ClashSettings.SaveLoadRoundTrip | ClashMate/GameSettings.java:168-246 | loading what save wrote succeeds and restores every field, whatever the settings were before |
| ClashSettings.GameSettings.constructor | ClashMate/GameSettings.java:29-32 | the defaults, then load of the file if there is one |
| ClashSettings.GameSettings.GetTimeSeconds | ClashMate/GameSettings.java:75-78 | the time in seconds is timeMinutes * 60, between 60 and 1800 |
| ClashSettings.GameSettings.SetElixirMultiplier | ClashMate/GameSettings.java:117-120 | the multiplier becomes the request clamped to [1, 3]; nothing else changes |
| ClashSettings.GameSettings.SetTimeMinutes | ClashMate/GameSettings.java:125-128 | the time becomes the request clamped to [1, 30]; nothing else changes |
| ClashSettings.GameSettings.SetWhiteSide | ClashMate/GameSettings.java:133-136 | only the side changes |
| ClashSettings.GameSettings.SetMasterVolume | ClashMate/GameSettings.java:141-144 | the master volume becomes the request clamped to [0, 100] |
| ClashSettings.GameSettings.SetMusicVolume | ClashMate/GameSettings.java:149-152 | the music volume becomes the request clamped to [0, 100] |
| ClashSettings.GameSettings.SetSfxVolume | ClashMate/GameSettings.java:157-160 | the effects volume becomes the request clamped to [0, 100] |
| ClashSettings.GameSettings.Load | ClashMate/GameSettings.java:192-246 | a missing file changes nothing and reports false; otherwise the settings and the result are those of reading the lines |
| ClashSettings.GameSettings.ReadLine | ClashMate/GameSettings.java:206-232 | one line is applied as the line rules say, or reports the parse failure with nothing changed |
| ClashSettings.GameSettings.Recover | ClashMate/GameSettings.java:237-245 | the catch block resets multiplier, time and side and reports false |
| RuneSettings.FailedLoadIsDefaults | RuneRiftMain/GameSettings.java:173-181 | load fails exactly on a parse error, and then every field is back at its default |
| RuneSettings.ApplyLine | RuneRiftMain/GameSettings.java:151-168 | one line of load's loop fails exactly when it splits into the multiplier or time key and a value parseInt rejects, and otherwise keeps every field in range |
| RuneSettings.ApplyPair | RuneRiftMain/GameSettings.java:157-168 | the switch on the key fails exactly for the multiplier or time key with a value parseInt rejects, and keeps every field in range |
| RuneSettings.ApplyLines | RuneRiftMain/GameSettings.java:149-170 | the loop over the lines, stopping at the first number-format error; `ApplyLinesInRange` and `SaveLoadRoundTrip` state its properties |
| RuneSettings.LoadLines | RuneRiftMain/GameSettings.java:137-182 | load on an existing file; `FailedLoadIsDefaults` and `SaveLoadRoundTrip` state its result |
| RuneSettings.SaveLines | RuneRiftMain/GameSettings.java:116-130 | the three lines save prints; `SaveLoadRoundTrip` states that load reads them back |
| RuneSettings.VolumeLinesIgnored | RuneRiftMain/GameSettings.java:157-168 | the volume lines ClashMate writes are ignored |
| RuneSettings.ApplyLinesInRange | RuneRiftMain/GameSettings.java:157-168 | reading lines keeps every field within its setter's range |
| RuneSettings.SavedElixirMultiplier | RuneRiftMain/GameSettings.java:120 | save's multiplier line restores the multiplier |
| RuneSettings.SavedTimeMinutes | RuneRiftMain/GameSettings.java:121 | save's time line restores the time |
| RuneSettings.SavedIsWhiteSide | RuneRiftMain/GameSettings.java:122 | save's side line restores the side |
| RuneSettings.SaveLoadRoundTrip | RuneRiftMain/GameSettings.java:116-182 | loading what save wrote succeeds and restores every field |
| RuneSettings.GameSettings.constructor | RuneRiftMain/GameSettings.java:25-28 | the defaults, then load of the file if there is one |
| RuneSettings.GameSettings.GetTimeSeconds | RuneRiftMain/GameSettings.java:71-74 | the time in seconds is timeMinutes * 60, between 60 and 1800 |
| RuneSettings.GameSettings.SetElixirMultiplier | RuneRiftMain/GameSettings.java:89-92 | the multiplier becomes the request clamped to [1, 3] |
| RuneSettings.GameSettings.SetTimeMinutes | RuneRiftMain/GameSettings.java:97-100 | the time becomes the request clamped to [1, 30] |
| RuneSettings.GameSettings.SetWhiteSide | RuneRiftMain/GameSettings.java:105-108 | only the side changes |
| RuneSettings.GameSettings.Load | RuneRiftMain/GameSettings.java:137-182 | a missing file changes nothing and reports false; otherwise the settings and result are those of reading the lines |
| RuneSettings.GameSettings.ReadLine | RuneRiftMain/GameSettings.java:151-168 | one line is applied as the line rules say, or reports the parse failure with nothing changed |
| RuneSettings.GameSettings.Recover | RuneRiftMain/GameSettings.java:173-181 | the catch block restores all three defaults and reports false |
| Timer.Tick | RuneRiftMain/GameTimer.java:17-44 | one call of act keeps the activity flag, takes at most one second off and never goes below zero, restarts the frame count when it does, and keeps the frame count within a second |
| Timer.TimesOut | RuneRiftMain/GameTimer.java:32-41 | checkTimeOut is reached only on the call that takes the last second off |
| Timer.InactiveIsFrozen | RuneRiftMain/GameTimer.java:19-22 | an inactive timer changes nothing, however many frames pass |
| Timer.FramesWithinSecond | RuneRiftMain/GameTimer.java:25-28 | frames short of a second only advance the frame counter |
| Timer.SixtyFramesOneSecond | RuneRiftMain/GameTimer.java:25-35 | sixty frames from the start of a second take exactly one second off, never below zero, and reset the frame counter |
| Timer.TicksSplit | RuneRiftMain/GameTimer.java:17-44 | m + n frames are m frames followed by n frames |
| Timer.TimeoutExactlyAtZero | RuneRiftMain/GameTimer.java:28-42 | the time never goes below zero, and the timeout check runs exactly when the time reaches zero from a positive value |
| Timer.Winner | RuneRiftMain/GameTimer.java:97 | the reported winner is the other player |
| Timer.FormatTime | RuneRiftMain/GameTimer.java:79-84 | for a non-negative time the colon stands third from the end; `FormatTimeFields` reads the fields back |
| Timer.FormatTimeFields | RuneRiftMain/GameTimer.java:79-84 | for a non-negative time the text is minutes, a colon and two seconds digits, and reading them back gives the time |
| Timer.GameTimer.constructor | RuneRiftMain/GameTimer.java:10-15 | a new timer holds the starting time, no frames, and is inactive |
| Timer.GameTimer.Act | RuneRiftMain/GameTimer.java:17-44 | act advances the clock by one frame and announces the other player exactly when the time runs out |
| Timer.GameTimer.SetActive | RuneRiftMain/GameTimer.java:49-53 | only the active flag changes |

## Left out

- Rendering, highlighting, hit boxes, images, effects and sound are not modelled. They are Greenfoot presentation only.
- ClashMate's `GridWorld` is not part of this model. Its behaviour enters as assumptions:
  - `getBlock` gives no block off the board, which is `Grid.CellAt`;
  - `endTurn` is counted in `Context.endTurns` and does nothing else (see `Worlds.WorldEndTurn` below);
  - `addBomb` appends a bomb order;
  - `setEnPassant` stores the recorded block and recruit;
  - `setSelectedPiece` records the selected piece;
  - `showPromotionMenu` raises the menu flag for the recruit;
  - `removeElixir` calls that colour's `ElixirBar.removeElixir`;
  - `removePieceFromList` removes the piece from both colour lists.
- `Worlds.WorldEndTurn`: the model's endTurn only counts. Whatever `GridWorld.endTurn` does besides is absent, because `GridWorld` is not part of this model. In particular:
  - the en-passant record is never cleared, so `Legality.IsValidMove` lets a recruit take en passant onto a block recorded any number of turns earlier;
  - no elixir income is credited, so the elixir facts of `Abilities.UseAbilityCharges`, `Promotion.PromoteCharges` and `Promotion.CancelWaits` hold across the end of the turn only in this model;
  - the bomb orders and the game-started flag are carried over unchanged, as `Promotion.PromoteEndsTurn` states;
  - timers and the end of the game are not modelled.
- `Text.ParseInt` accepts only the ASCII digits '0' to '9'. Java's `Integer.parseInt` reads digits with `Character.digit`, so it also accepts other Unicode decimal digits. A hand-edited line such as `timeMinutes=` followed by fullwidth digits sets the time in Java, but aborts `load` here.
- Greenfoot's `addObject`/`removeObject` are modelled as having a block or not: a piece in the world is one with a block.
- The mouse is an explicit input, `Clicks.Click`:
  - a click on a block;
  - a click on a colour's ability button;
  - a click elsewhere.

  The turn (`isMyTurn`, via the unseen turn manager of ClashMate) is a boolean input.
- `Clicks.Move`: selecting a piece does not deselect the previously selected piece. The Java code does not either; the world may do so, and the world is not part of this model.
- `Sweeps.Place`: the `Piece` constructor's own `moveTo` onto its starting block is modelled by its net effect on an empty block (occupied, unmoved, idle). Every caller in the core passes an empty block.
- Skeletons created by the witch are not added to a colour list, because `spawnSkeletons` does not add them.
- `Promotion.Retire`: the replaced recruit keeps a stale `currentBlock` in Java after `removeObject`. Here it has no block, which is what "not in the world" means in this model.
- `Promotion.CloseMenu` also forgets which recruit the menu was for. That field stands in for the unseen world's reference to the menu.
- `Promotion.MenuAct` checks affordability against the elixir snapshot the menu was opened with, and deducts from the current elixir, as the Java code does. The model does not show that the two agree.
- `formatTypeName` and the button colours are modelled only as the affordability shades, `Promotion.Shades`.
- File I/O in `save`/`load` is modelled as sequences of lines; a missing file is `None`. An `IOException` during reading is not modelled; only `NumberFormatException` is.
- `ClashSettings.GameSettings.ReadLine` and `RuneSettings.GameSettings.ReadLine` are one iteration of `load`'s loop, split out as a method.
- `Bombs.Bomb.Explode`: the nested `dx`/`dy` loop is the board's sweep over `BlastOffsets`, which lists the offsets in the nested loop's order (`Bombs.BlastRow`). It is not written as two nested loops.
- The bomb's label, the RuneRift pieces, blocks and world (image-only stubs) and every menu or screen world are not modelled.
- `Timer.GameTimer.Act`: `checkTimeOut`'s `Greenfoot.stop` and end screen are foreign calls. The model only returns the winner it would announce.
- `Abilities.Snipe` uses the two-sided scan bound of the snipe animation (ClashMate/Piece.java:782). The one-sided bound as written is `Abilities.SnipeAsWritten`; see Findings.

## Where the code and the game's own description differ

The model follows the code in each case:

- **Musketeer cost.** It is 3 (ClashMate/Piece.java:88); the help text says 2 (RuneRiftMain/DescriptionBox.java:148).
- **Witch cost.** It is 4 (ClashMate/Piece.java:90); the help text says 3 (RuneRiftMain/DescriptionBox.java:161).
- **Skeleton captures.** A skeleton captures on any diagonal, backwards included (ClashMate/Piece.java:314-322, `Legality.SkeletonMoves`). The skeleton's help text says it captures only on the forward diagonals, and that it may step two blocks from its starting block (RuneRiftMain/DescriptionBox.java:198-204). The code gives the skeleton no two-block step.
- **Recruit forward capture.** It is gated on `abilityUsed` (ClashMate/Piece.java:303), and that flag is reset only by `endTurn` (ClashMate/Piece.java:589). So the capture stays available for the rest of the turn, not for one move (`Legality.RecruitMoves`).
- **Castling partner colour.** Castling does not check the corner dark prince's colour. Pointed at an enemy prince on the corner itself, the giant takes it and then moves itself to the block it passed (`Moves.CastleOntoCorner`, `Clicks.CastlingOntoCornerEndsTurn`).

## Findings

| source | as written | input that shows it | evidently intended | confidence | as-written member | corrected member |
|---|---|---|---|---|---|---|
| ClashMate/Piece.java:421-423 | the snipe scan stops only at the far edge (`cx < CELLS_TALL`), so a white musketeer's scan that finds nothing asks for `getBlock(-1, y)`, gets null and calls `currentPiece()` on it | a white musketeer on row 6, column 3 of an otherwise empty board uses its ability | the scan should also stop at row 0 (`cx >= 0`), as the animation's scan of the same column does at ClashMate/Piece.java:782 | not executed | Abilities.LoneMusketeerSnipeFails | Abilities.SnipeHitsFirstEnemy |
