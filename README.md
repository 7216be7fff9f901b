# Ludo turn engines in Dafny

This project models the two text-mode Ludo games of the repository and proves
their rules.

- **`ludo_full.py`** is the four-token game (modules `FullBoard` and `LudoFull`).
  - Each of 2 to 4 players has four tokens.
  - A token is described by its *step*: -1 in the yard, 0..51 on the shared
    52-square track, and 52..57 in the player's home column, 57 being the
    finish.
  - A token leaves the yard on a 6 for the player's start square.
  - It may not land on a square off the safe squares that holds one of its
    player's tokens or two tokens.
  - It captures a lone opponent there.
  - The player rolls again after a 6 or a capture.
  - A player whose four tokens are finished wins.
- **`ludo.py`** is the one-token game (module `LudoSimple`).
  - Each player's single token leaves the yard on a 6.
  - It runs one lap and finishes with the exact roll to step 52.
  - It captures the first opponent (in seating order) on the square it reaches.
  - The player rolls again on a 6, unless the token finishes.
- **`TurnOrder`** is the turn-advance rule both game loops share (the seat
  passes on cyclically unless the player rolls again).
- **`Collections`** and **`Options`** are small generic helpers.

Both games keep their state in a class. It has the start squares as
constants, the token steps as a `seq` field its methods reassign, and the
current seat.

Each method is proved against a function on the board:
- the full game's methods against `IsValidMove`, `OccupantsAt` and `Move`;
- the one-token game's methods against `Turn`.

The rules are proved about those functions as lemmas.

The board invariant is `NoStackOffSafe`: two tokens share a square only on a
safe square. Every legal move keeps it (`MovePreservesNoStackOffSafe`).
Because of this, the game's test for "two or more tokens on the square" never
rejects a move on a board that play can reach.

The safe squares are built once, by the constructor. It states
`safePositions == SafePositions(starts)`, and the field is a constant.
`Valid()` keeps only the consequence the methods need: every start square is
safe.

## Model

| member | source | states |
|---|---|---|
| `TurnOrder.NextIndex` | ludo_full.py:351-352 | The next seat is a seat. It is the same seat after an extra turn. Otherwise it is the following seat, and seat 0 after the last. |
| `TurnOrder.AfterPassesRotates` | ludo.py:192-193 | `k` passes within one round move `k` seats round the table, wrapping after the last seat. |
| `TurnOrder.FullRoundReturns` | ludo_full.py:351-352 | As many passes as there are players bring play back to the same seat. |
| `TurnOrder.EverySeatGetsATurn` | ludo.py:192-193 | From any seat, every seat is reached within one round of passes. |
| `FullBoard.AbsolutePosition` | ludo_full.py:53-73 | A token has no track square exactly when it is in the yard (step < 0) or in the home column (step >= 52). Otherwise its square is on the track, `step` squares past its start square, modulo 52. |
| `FullBoard.SamePositionSameStep` | ludo_full.py:65-73 | Two tokens of one player on the same track square have the same step. |
| `FullBoard.ActiveTokens` | ludo_full.py:96-98 | Lists exactly the indices of the tokens that have not finished, in increasing order. |
| `FullBoard.NoActiveTokensIffAllFinished` | ludo_full.py:91-98 | A player has no active token exactly when all its tokens are finished (`all_finished`). |
| `FullBoard.SecondSafeSquares` | ludo_full.py:120 | Entry `i` is a square of the track (0..51) that lies 8 squares after start square `i` going round the board: it differs from the start by 8 modulo 52. |
| `FullBoard.SafePositions` | ludo_full.py:118-121 | A square is safe exactly when it is some player's start square or the square 8 past one. |
| `FullBoard.StandardRosters` | ludo_full.py:361 | The setup roster of 2, 3 or 4 players has start squares 0, 13, 26, 39 in seat order. |
| `FullBoard.StandardSafePositions` | ludo_full.py:118-121 | With that roster the safe squares are {0, 8, 13, 21}, then 26, 34 and 39, 47 for three and four players. |
| `FullBoard.OccupantsAt` | ludo_full.py:126-137 | A token is listed for a square exactly when it is on the track on that square. The list is in scanning order: by player, then by token, each token once. |
| `FullBoard.OffTrackTokensHaveNoSquare` | ludo_full.py:134-136 | Tokens in the yard or the home column are listed for no square. |
| `FullBoard.AtMostOneOccupant` | ludo_full.py:193-195 | A square's list has at most one entry exactly when no two different tokens stand on it. |
| `LudoFull.ValidTokensBelowMembers` | ludo_full.py:148-200 | The list of valid tokens holds exactly the tokens that may move, each once, in increasing order. |
| `LudoFull.YardAndFinishRules` | ludo_full.py:150-168 | A finished token never moves. A token in the yard may move exactly on a 6 when no other token of its player is at step 0, its start square. |
| `LudoFull.TrackRules` | ludo_full.py:169-200 | Track cases: overshooting step 57 is never allowed. Landing in the home column or on a safe square always is. Any other square is allowed exactly when no token of the mover is at that step and at most one token stands there. |
| `LudoFull.OwnTokenOnSquare` | ludo_full.py:184-187 | One of the player's tokens stands on the square `d` steps past its start exactly when one of its tokens is at step `d`. |
| `LudoFull.ValidMoveRules` | ludo_full.py:148-200 | A legal move never moves a finished token, leaves the yard only on a 6, and ends on a valid step (0..57). |
| `LudoFull.MoveEffects` | ludo_full.py:203-252 | A legal move: the board stays well formed and the mover reaches its destination. The captured token, if any, is an opponent's that stood on the destination, a track square off the safe squares. Every other token keeps its step. The player rolls again exactly after leaving the yard, rolling a 6 or capturing. |
| `LudoFull.MoveKeepsWellFormed` | ludo_full.py:203-247 | A legal move keeps every step within the yard, the track and the home column. |
| `LudoFull.MoveSparesBystanders` | ludo_full.py:215-247 | Any move puts the mover at its destination (step 0 out of the yard, otherwise `roll` further). Every other token keeps its step unless it is the captured one, which goes to the yard. |
| `LudoFull.MoveCaptureAndExtraTurn` | ludo_full.py:226-252 | Only an opponent's token on a destination off the safe squares is captured. The extra turn is granted exactly for leaving the yard, a 6 or a capture. |
| `LudoFull.CaptureRule` | ludo_full.py:226-236 | A legal move onto a track square off the safe squares where another token stands captures that token. That token is an opponent's, it goes to the yard, and the player rolls again whatever the roll. |
| `LudoFull.NoCaptureRule` | ludo_full.py:215-247 | Leaving the yard, landing on a safe square or entering the home column captures nothing and leaves every other token in place. The extra turn is then granted for leaving the yard or a 6. |
| `LudoFull.OnlyMoverCanFinish` | ludo_full.py:347-349 | A move never completes another player's set of finished tokens. |
| `LudoFull.NoStackOffSafeBoundsOccupants` | ludo_full.py:193-195 | On a board without stacks off the safe squares, every other square holds at most one token. |
| `LudoFull.BystanderStaysPut` | ludo_full.py:215-247 | After a legal move, a token other than the mover that stands on a square stood there before and was not captured. |
| `LudoFull.MovePreservesNoStackOffSafe` | ludo_full.py:188-236 | Every legal move keeps the invariant that tokens share a square only on safe squares. |
| `LudoFull.MoverLandsSafelyOrAlone` | ludo_full.py:176-236 | After a legal move, the mover shares its square with an uncaptured token only on a safe square. |
| `LudoFull.ListedValidTokens` | ludo_full.py:307-332 | For the increasing list of valid tokens: it is empty exactly when no token may move, and it has two or more entries exactly when the player has to choose. |
| `LudoFull.LudoGameFull.constructor` | ludo_full.py:112-121 | A new game has its safe squares built from the start squares, every token in the yard and seat 0 to play. The board satisfies the stacking invariant. |
| `LudoFull.LudoGameFull.GetBoardOccupants` | ludo_full.py:126-137 | The nested loops build a map with exactly the occupied squares as keys. Each key maps to `OccupantsAt` of that square. |
| `LudoFull.LudoGameFull.GetValidTokensForRoll` | ludo_full.py:139-200 | Returns exactly the tokens that may move for the roll, in increasing order. |
| `LudoFull.LudoGameFull.TokenCanMove` | ludo_full.py:149-198 | The examination of one token, including the inner loop with `break` that looks for a blocking token on the start square. It answers exactly `IsValidMove`. |
| `LudoFull.LudoGameFull.MoveToken` | ludo_full.py:203-252 | The new board and the extra-turn answer are those of `Move`. The current seat is unchanged. |
| `LudoFull.LudoGameFull.PlayTurn` | ludo_full.py:300-352 | One pass of the game loop:<br>• An invalid choice is rejected, with nothing changed, exactly when several tokens may move.<br>• The token moved is valid and is the chosen one when there was a choice.<br>• No token moves exactly when none may.<br>• The game is won exactly when the mover's tokens are all finished, and the seat then stays.<br>• Otherwise the seat advances by `NextIndex`. The extra turn is the move's, or a 6 when nothing moved.<br>• The board stays valid and keeps the stacking invariant. |
| `LudoSimple.AbsolutePositionRange` | ludo.py:80-93 | A token has a square (not -1) exactly when it is on the board. That square is on the track, `step` squares past the start, modulo 52. |
| `LudoSimple.FirstCapture` | ludo.py:157-163 | The captured player is the first in seating order whose on-board token stands on the mover's square. When there is none, no player's token does. |
| `LudoSimple.MoverRule` | ludo.py:127-154 | A finished token stays. A token in the yard leaves it exactly on a 6, for step 0. A token on the track moves `roll` on, or stays put when that overshoots step 52. |
| `LudoSimple.CaptureRule` | ludo.py:152-163 | Every other token keeps its step except at most one. That one is captured and goes to the yard; it stood on the track on the mover's new square and is the first such in seating order. Only a move along the track captures, and it captures whenever such a token exists. |
| `LudoSimple.ExtraTurnRule` | ludo.py:127-166 | The player rolls again exactly on a 6, unless the token was finished or this roll finishes it. A capture earns nothing. |
| `LudoSimple.TurnKeepsWellFormed` | ludo.py:135-163 | A turn keeps every step within -1..52. |
| `LudoSimple.FinishRule` | ludo.py:143-163 | A finished token stays finished and no other player finishes on this turn. The mover finishes only by the exact roll, and that ends its turn. |
| `LudoSimple.LudoGame.constructor` | ludo.py:61-68 | A new game has every token in the yard (step -1) and seat 0 to play. |
| `LudoSimple.LudoGame.PlayTurn` | ludo.py:120-166 | The loop over the other players with `continue` and `break` yields the board and the extra-turn answer of `Turn`. The current seat is unchanged. |
| `LudoSimple.LudoGame.PlayRound` | ludo.py:184-193 | One pass of the game loop: the board is that of `Turn`. The game is over exactly when the mover's token has finished, and the seat then stays. Otherwise the seat advances by `NextIndex`. |

## Left out

- Printing, `print_board`, `__repr__`, names and colours: output only.
- Reading input: the token choice is a parameter of `PlayTurn`. `input()`'s re-prompt loop is one call that returns `ChoiceRejected` and changes nothing.
- `roll_die` and `random`: the roll is a parameter. The game loops require 1..6, as the die gives.
- `setup_game`, `setup_full_game` and `main`, which ask for 2 to 4 players. Their roster, start squares 0, 13, 26 and 39, is the precondition of both constructors.
- `home_entry` and `turn_history`: computed or recorded but never read by the rules.
- The unbounded `while True` game loops: each is modelled by one pass (`PlayTurn`, `PlayRound`), and termination of a whole game is not claimed.
- Token and player objects: a player's tokens are a row of the step matrix. The game owns every token and never shares one between players, so no aliasing is lost.
- The `board_length` and `home_length` constructor parameters are fixed at 52 and 6, the values setup passes.
- LudoFull.LudoGameFull.MoveToken: stated for any token index, like the code, which trusts its caller to pass a valid token. That a valid move keeps the board well formed is proved separately (`MoveKeepsWellFormed`), and `PlayTurn` moves only valid tokens.
- LudoFull.LudoGameFull.GetValidTokensForRoll: the token range is the player's token list, which is four tokens on every board the game builds.
