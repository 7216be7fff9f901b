/**
 * The one-token game: every player has a single token that leaves the yard
 * on a 6, runs one lap of the 52-square track and finishes on an exact roll.
 * A token landing on an opponent's token sends it back to the yard; there
 * are no safe squares and no home column.
 *
 * The turn is stated as a function on the board (Turn); the game object
 * holds the board and its methods are proved against that function.
 */
module LudoSimple {
  import opened Options
  import FullBoard
  import TurnOrder

  /** The squares of the circular track; a token that has gone this many steps has finished. */
  const BOARD_LENGTH: int := FullBoard.BOARD_LENGTH
  /** The step of a token in the yard. */
  const YARD_STEP: int := FullBoard.YARD_STEP
  /** The roll that lets the token leave the yard and grants another roll. */
  const SIX: int := 6

  // ---------------------------------------------------------------------
  // One token

  /** The steps a token can have: in the yard, on the track, or finished. */
  predicate ValidStep(step: int)
  {
    YARD_STEP <= step <= BOARD_LENGTH
  }

  /** The token has completed its lap. */
  predicate IsFinished(step: int)
  {
    step == BOARD_LENGTH
  }

  /** The token is on the track: out of the yard and not finished. */
  predicate OnBoard(step: int)
  {
    0 <= step < BOARD_LENGTH
  }

  /**
   * The track square of a token of the player starting on square `start`,
   * or -1 for a token in the yard or finished.
   */
  function AbsolutePosition(step: int, start: int): int
  {
    if step < 0 || IsFinished(step) then -1 else (start + step) % BOARD_LENGTH
  }

  /**
   * A token of a valid step has a square exactly when it is on the track,
   * and that square is on the track, `step` squares past the start square.
   */
  lemma AbsolutePositionRange(step: int, start: int)
    requires ValidStep(step)
    ensures AbsolutePosition(step, start) != -1 <==> OnBoard(step)
    ensures OnBoard(step) ==>
      0 <= AbsolutePosition(step, start) < BOARD_LENGTH &&
      (start + step - AbsolutePosition(step, start)) % BOARD_LENGTH == 0
  {
  }

  // ---------------------------------------------------------------------
  // The board and one turn

  /** Every player has a start square on the track and a token with a valid step. */
  predicate WellFormed(starts: seq<int>, steps: seq<int>)
  {
    && FullBoard.StartsOnTrack(starts)
    && |steps| == |starts|
    && (forall q :: 0 <= q < |steps| ==> ValidStep(steps[q]))
  }

  /** Player `p`'s token, now on the track, meets the token of player `q`, which is on the track too. */
  predicate Captures(starts: seq<int>, steps: seq<int>, p: nat, q: nat)
    requires |steps| == |starts| && p < |steps| && q < |steps|
  {
    q != p && OnBoard(steps[q]) &&
    AbsolutePosition(steps[q], starts[q]) == AbsolutePosition(steps[p], starts[p])
  }

  /** The first player from `from` on, in seating order, whose token player `p`'s token meets. */
  function FirstCapture(starts: seq<int>, steps: seq<int>, p: nat, from: nat): (victim: Option<nat>)
    requires |steps| == |starts| && p < |steps| && from <= |steps|
    ensures victim.Some? ==>
      && from <= victim.value < |steps|
      && Captures(starts, steps, p, victim.value)
      && (forall q :: from <= q < victim.value ==> !Captures(starts, steps, p, q))
    ensures victim.None? ==> forall q :: from <= q < |steps| ==> !Captures(starts, steps, p, q)
    decreases |steps| - from
  {
    if from == |steps| then None
    else if Captures(starts, steps, p, from) then Some(from)
    else FirstCapture(starts, steps, p, from + 1)
  }

  /** What a turn produced: the new board, whether the player rolls again, and the player captured. */
  datatype TurnResult = TurnResult(steps: seq<int>, extraTurn: bool, captured: Option<nat>)

  /** The turn of player `p` for `roll`. */
  function Turn(starts: seq<int>, steps: seq<int>, p: nat, roll: int): TurnResult
    requires |steps| == |starts| && p < |steps|
  {
    var step := steps[p];
    if IsFinished(step) then TurnResult(steps, false, None)
    else if step < 0 then
      if roll == SIX then TurnResult(steps[p := 0], true, None)
      else TurnResult(steps, false, None)
    else
      var proposedStep := step + roll;
      if proposedStep > BOARD_LENGTH then TurnResult(steps, roll == SIX, None)
      else if proposedStep == BOARD_LENGTH then TurnResult(steps[p := BOARD_LENGTH], false, None)
      else
        var moved := steps[p := proposedStep];
        var victim := FirstCapture(starts, moved, p, 0);
        var after := if victim.Some? then moved[victim.value := YARD_STEP] else moved;
        TurnResult(after, roll == SIX, victim)
  }

  // ---------------------------------------------------------------------
  // What a turn does

  /**
   * The moving token: a finished token stays finished; a token in the yard
   * leaves it exactly on a 6, for step 0; a token on the track moves on by
   * `roll` unless that overshoots the finish, in which case it stays put.
   */
  lemma MoverRule(starts: seq<int>, steps: seq<int>, p: nat, roll: int)
    requires WellFormed(starts, steps) && p < |steps| && 1 <= roll <= SIX
    ensures var after := Turn(starts, steps, p, roll).steps[p];
      && (IsFinished(steps[p]) ==> after == steps[p])
      && (steps[p] < 0 ==> after == (if roll == SIX then 0 else YARD_STEP))
      && (OnBoard(steps[p]) && steps[p] + roll > BOARD_LENGTH ==> after == steps[p])
      && (OnBoard(steps[p]) && steps[p] + roll <= BOARD_LENGTH ==> after == steps[p] + roll)
  {
    var r := Turn(starts, steps, p, roll);
    if OnBoard(steps[p]) && steps[p] + roll < BOARD_LENGTH && r.captured.Some? {
      assert r.captured.value != p;
    }
  }

  /**
   * Every token other than the mover keeps its step, except at most one:
   * the captured one, which stood on the track on the square the mover
   * reached, goes back to the yard; it is the first such token in seating
   * order. Only a move along the track (not leaving the yard, not
   * finishing, not overshooting) captures.
   */
  lemma CaptureRule(starts: seq<int>, steps: seq<int>, p: nat, roll: int)
    requires WellFormed(starts, steps) && p < |steps| && 1 <= roll <= SIX
    ensures var r := Turn(starts, steps, p, roll);
      |r.steps| == |steps| &&
      forall q :: 0 <= q < |steps| && q != p ==>
        r.steps[q] == if r.captured == Some(q) then YARD_STEP else steps[q]
    ensures var r := Turn(starts, steps, p, roll);
      r.captured.Some? ==>
        var v := r.captured.value;
        && v != p && v < |steps|
        && OnBoard(steps[p]) && steps[p] + roll < BOARD_LENGTH
        && OnBoard(steps[v])
        && AbsolutePosition(steps[v], starts[v]) == AbsolutePosition(r.steps[p], starts[p])
        && (forall q :: 0 <= q < v && q != p && OnBoard(steps[q]) ==>
              AbsolutePosition(steps[q], starts[q]) != AbsolutePosition(r.steps[p], starts[p]))
    ensures var r := Turn(starts, steps, p, roll);
      OnBoard(steps[p]) && steps[p] + roll < BOARD_LENGTH && r.captured.None? ==>
        forall q :: 0 <= q < |steps| && q != p && OnBoard(steps[q]) ==>
          AbsolutePosition(steps[q], starts[q]) != AbsolutePosition(r.steps[p], starts[p])
  {
    var r := Turn(starts, steps, p, roll);
    if OnBoard(steps[p]) && steps[p] + roll < BOARD_LENGTH {
      var moved := steps[p := steps[p] + roll];
      assert r.captured == FirstCapture(starts, moved, p, 0);
      assert r.steps[p] == moved[p];
      forall q | 0 <= q < |steps| && q != p
        ensures Captures(starts, moved, p, q) <==>
          OnBoard(steps[q]) && AbsolutePosition(steps[q], starts[q]) == AbsolutePosition(r.steps[p], starts[p])
      {
        assert moved[q] == steps[q];
      }
    }
  }

  /**
   * The player rolls again exactly on a 6, unless the token was already
   * finished or this roll finishes it; a capture earns nothing extra.
   */
  lemma ExtraTurnRule(starts: seq<int>, steps: seq<int>, p: nat, roll: int)
    requires WellFormed(starts, steps) && p < |steps| && 1 <= roll <= SIX
    ensures Turn(starts, steps, p, roll).extraTurn <==>
      roll == SIX && !IsFinished(steps[p]) && steps[p] + roll != BOARD_LENGTH
  {
  }

  /** A turn keeps every step valid: no token passes the finish. */
  lemma TurnKeepsWellFormed(starts: seq<int>, steps: seq<int>, p: nat, roll: int)
    requires WellFormed(starts, steps) && p < |steps| && 1 <= roll <= SIX
    ensures WellFormed(starts, Turn(starts, steps, p, roll).steps)
  {
    MoverRule(starts, steps, p, roll);
    CaptureRule(starts, steps, p, roll);
    var r := Turn(starts, steps, p, roll);
    forall q | 0 <= q < |r.steps| ensures ValidStep(r.steps[q]) {
      if q != p {
        assert r.steps[q] == YARD_STEP || r.steps[q] == steps[q];
      }
    }
  }

  /**
   * A finished token stays finished, no other player finishes on this turn,
   * and the mover finishes only with the exact roll, which ends its turn.
   */
  lemma FinishRule(starts: seq<int>, steps: seq<int>, p: nat, roll: int)
    requires WellFormed(starts, steps) && p < |steps| && 1 <= roll <= SIX
    ensures var r := Turn(starts, steps, p, roll);
      forall q :: 0 <= q < |steps| ==> IsFinished(steps[q]) ==> IsFinished(r.steps[q])
    ensures var r := Turn(starts, steps, p, roll);
      forall q :: 0 <= q < |steps| && q != p ==> IsFinished(r.steps[q]) ==> IsFinished(steps[q])
    ensures var r := Turn(starts, steps, p, roll);
      IsFinished(r.steps[p]) && !IsFinished(steps[p]) ==> steps[p] + roll == BOARD_LENGTH && !r.extraTurn
  {
    MoverRule(starts, steps, p, roll);
    CaptureRule(starts, steps, p, roll);
    var r := Turn(starts, steps, p, roll);
    forall q | 0 <= q < |steps| && q != p && IsFinished(steps[q]) ensures IsFinished(r.steps[q]) {
      assert r.captured != Some(q);
    }
  }

  // ---------------------------------------------------------------------
  // The game object

  /** A game of two to four players with one token each. */
  class LudoGame {
    /** The start square of each player. */
    const starts: seq<int>
    /** `steps[q]` is the step of player `q`'s token. */
    var steps: seq<int>
    var currentIndex: nat

    /** A well-formed board whose current player is one of the players. */
    ghost predicate Valid()
      reads this
    {
      WellFormed(starts, steps) && currentIndex < |starts|
    }

    /** A new game: every token in the yard, the first player to roll. */
    constructor(startIndices: seq<int>)
      requires FullBoard.StandardStarts(startIndices)
      ensures Valid()
      ensures starts == startIndices && currentIndex == 0
      ensures |steps| == |startIndices| && forall q :: 0 <= q < |steps| ==> steps[q] == YARD_STEP
    {
      starts := startIndices;
      steps := seq(|startIndices|, _ => YARD_STEP);
      currentIndex := 0;
    }

    /**
     * The turn of player `playerIndex`, who rolled `roll`. The result tells
     * whether the player rolls again.
     */
    method PlayTurn(playerIndex: nat, roll: int) returns (extraTurn: bool)
      requires |steps| == |starts| && playerIndex < |steps|
      modifies this
      ensures steps == Turn(starts, old(steps), playerIndex, roll).steps
      ensures extraTurn == Turn(starts, old(steps), playerIndex, roll).extraTurn
      ensures currentIndex == old(currentIndex)
    {
      var step := steps[playerIndex];
      if IsFinished(step) {
        return false;
      }
      if step < 0 {
        if roll == SIX {
          steps := steps[playerIndex := 0];
        } else {
          return false;
        }
      } else {
        var proposedStep := step + roll;
        if proposedStep > BOARD_LENGTH {
          // overshooting the finish: the token stays where it is
        } else if proposedStep == BOARD_LENGTH {
          steps := steps[playerIndex := BOARD_LENGTH];
          return false;
        } else {
          steps := steps[playerIndex := proposedStep];
          ghost var moved := steps;
          var other := 0;
          while other < |steps|
            invariant 0 <= other <= |steps| && steps == moved
            invariant FirstCapture(starts, moved, playerIndex, 0) == FirstCapture(starts, moved, playerIndex, other)
          {
            if other == playerIndex || !OnBoard(steps[other]) {
              other := other + 1;
              continue;
            }
            if AbsolutePosition(steps[other], starts[other]) == AbsolutePosition(steps[playerIndex], starts[playerIndex]) {
              steps := steps[other := YARD_STEP];
              break;
            }
            other := other + 1;
          }
        }
      }
      extraTurn := roll == SIX;
    }

    /**
     * One pass of the game loop: the current player takes a turn with
     * `roll`; the game is over when that player's token has finished, and
     * otherwise the turn passes on unless the player rolls again.
     */
    method PlayRound(roll: int) returns (gameOver: bool)
      requires Valid() && 1 <= roll <= SIX
      modifies this
      ensures Valid()
      ensures steps == Turn(starts, old(steps), old(currentIndex), roll).steps
      ensures gameOver <==> IsFinished(steps[old(currentIndex)])
      ensures gameOver ==> currentIndex == old(currentIndex)
      ensures !gameOver ==>
        currentIndex == TurnOrder.NextIndex(old(currentIndex), |starts|, Turn(starts, old(steps), old(currentIndex), roll).extraTurn)
    {
      var player := currentIndex;
      TurnKeepsWellFormed(starts, steps, player, roll);
      var extraTurn := PlayTurn(player, roll);
      if IsFinished(steps[player]) {
        return true;
      }
      if !extraTurn {
        currentIndex := (currentIndex + 1) % |starts|;
      }
      gameOver := false;
    }
  }
}
