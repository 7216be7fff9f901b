/**
 * Turn engine of the four-token game: which tokens may move for a roll,
 * what a move does (leaving the yard, capturing, safe squares, the home
 * column, finishing), and whether the player rolls again.
 *
 * The rules are stated as functions on the board (FullBoard); the game
 * object holds the board and its methods are proved against those functions.
 */
module LudoFull {
  import opened Options
  import opened FullBoard
  import TurnOrder

  /** The roll that lets a token leave the yard and grants another roll. */
  const SIX: int := 6

  // ---------------------------------------------------------------------
  // Legal moves

  /** The track square reached `dest` steps past the start square `start`. */
  function TrackSquare(start: int, dest: int): (pos: int)
    ensures 0 <= pos < BOARD_LENGTH
  {
    (start + dest) % BOARD_LENGTH
  }

  /**
   * Token `u` of player `p` keeps token `t` from leaving the yard: it is
   * another token of the same player and stands on the player's start square.
   */
  predicate BlocksYardExit(starts: seq<int>, steps: seq<seq<int>>, p: nat, t: nat, u: nat)
    requires |steps| == |starts| && p < |steps| && u < |steps[p]|
  {
    u != t && !InYard(steps[p][u]) && !InHome(steps[p][u]) &&
    AbsolutePosition(steps[p][u], starts[p]) == Some(starts[p])
  }

  predicate YardExitBlocked(starts: seq<int>, steps: seq<seq<int>>, p: nat, t: nat)
    requires |steps| == |starts| && p < |steps|
  {
    exists u :: 0 <= u < |steps[p]| && BlocksYardExit(starts, steps, p, t, u)
  }

  /** Some token of the occupant list belongs to player `p`. */
  predicate HasOwnOccupant(occ: seq<TokenRef>, p: nat)
  {
    exists k :: 0 <= k < |occ| && occ[k].player == p
  }

  /** Some token of `tokens` is at step `dest`. */
  predicate HasTokenAtStep(tokens: seq<int>, dest: int)
  {
    exists u :: 0 <= u < |tokens| && tokens[u] == dest
  }

  /**
   * Token `t` of player `p` may be moved for `roll`, where `safe` is the set
   * of safe squares of the game (see SafePositions).
   */
  predicate IsValidMove(starts: seq<int>, safe: set<int>, steps: seq<seq<int>>, p: nat, t: nat, roll: int)
    requires |steps| == |starts| && p < |steps| && t < |steps[p]|
  {
    var step := steps[p][t];
    if IsFinished(step) then false
    else if InYard(step) then roll == SIX && !YardExitBlocked(starts, steps, p, t)
    else
      var dest := Destination(step, roll);
      if dest > FINISH_STEP then false
      else if dest >= HOME_ENTRY then true
      else
        var destAbs := TrackSquare(starts[p], dest);
        if destAbs in safe then true
        else
          var occ := OccupantsAt(starts, steps, destAbs);
          !HasOwnOccupant(occ, p) && |occ| <= 1
  }

  /** The indices below `n` of the tokens of player `p` that may be moved for `roll`, in token order. */
  function ValidTokensBelow(starts: seq<int>, safe: set<int>, steps: seq<seq<int>>, p: nat, roll: int, n: nat): seq<nat>
    requires |steps| == |starts| && p < |steps| && n <= |steps[p]|
  {
    if n == 0 then []
    else
      ValidTokensBelow(starts, safe, steps, p, roll, n - 1)
        + (if IsValidMove(starts, safe, steps, p, n - 1, roll) then [n - 1] else [])
  }

  /** ValidTokensBelow lists exactly the valid tokens below `n`, each once and in increasing order. */
  lemma {:induction false} ValidTokensBelowMembers(starts: seq<int>, safe: set<int>, steps: seq<seq<int>>, p: nat, roll: int, n: nat)
    requires |steps| == |starts| && p < |steps| && n <= |steps[p]|
    ensures forall t: nat :: t in ValidTokensBelow(starts, safe, steps, p, roll, n) <==> t < n && IsValidMove(starts, safe, steps, p, t, roll)
    ensures forall i, j :: 0 <= i < j < |ValidTokensBelow(starts, safe, steps, p, roll, n)| ==>
      ValidTokensBelow(starts, safe, steps, p, roll, n)[i] < ValidTokensBelow(starts, safe, steps, p, roll, n)[j]
  {
    if n > 0 {
      ValidTokensBelowMembers(starts, safe, steps, p, roll, n - 1);
      var earlier := ValidTokensBelow(starts, safe, steps, p, roll, n - 1);
      assert forall i :: 0 <= i < |earlier| ==> earlier[i] < n - 1 by {
        forall i | 0 <= i < |earlier| ensures earlier[i] < n - 1 {
          assert earlier[i] in earlier;
        }
      }
    }
  }

  /**
   * The rule for finished tokens and for tokens in the yard, in terms of steps:
   * a finished token never moves, and a token in the yard moves exactly on a 6
   * when no other token of its player is at step 0 (on the start square).
   */
  lemma YardAndFinishRules(starts: seq<int>, safe: set<int>, steps: seq<seq<int>>, p: nat, t: nat, roll: int)
    requires WellFormed(starts, steps) && p < |steps| && t < TOKENS_PER_PLAYER
    ensures IsFinished(steps[p][t]) ==> !IsValidMove(starts, safe, steps, p, t, roll)
    ensures InYard(steps[p][t]) ==>
      (IsValidMove(starts, safe, steps, p, t, roll) <==>
        roll == SIX && forall u :: 0 <= u < TOKENS_PER_PLAYER && u != t ==> steps[p][u] != 0)
  {
    var start := starts[p];
    assert AbsolutePosition(0, start) == Some(start);
    forall u | 0 <= u < TOKENS_PER_PLAYER
      ensures BlocksYardExit(starts, steps, p, t, u) <==> u != t && steps[p][u] == 0
    {
      if BlocksYardExit(starts, steps, p, t, u) {
        SamePositionSameStep(steps[p][u], 0, start);
      }
    }
  }

  /**
   * The rule for tokens on the track, in terms of steps: overshooting the
   * finish is never allowed, the home column and safe squares always are, and
   * any other track square is allowed exactly when no token of the mover is at
   * that step and at most one token stands there.
   */
  lemma TrackRules(starts: seq<int>, safe: set<int>, steps: seq<seq<int>>, p: nat, t: nat, roll: int)
    requires WellFormed(starts, steps) && p < |steps| && t < TOKENS_PER_PLAYER && 1 <= roll <= SIX
    requires !InYard(steps[p][t]) && !IsFinished(steps[p][t])
    ensures Destination(steps[p][t], roll) > FINISH_STEP ==> !IsValidMove(starts, safe, steps, p, t, roll)
    ensures HOME_ENTRY <= Destination(steps[p][t], roll) <= FINISH_STEP ==> IsValidMove(starts, safe, steps, p, t, roll)
    ensures Destination(steps[p][t], roll) < HOME_ENTRY && TrackSquare(starts[p], Destination(steps[p][t], roll)) in safe ==>
      IsValidMove(starts, safe, steps, p, t, roll)
    ensures Destination(steps[p][t], roll) < HOME_ENTRY && TrackSquare(starts[p], Destination(steps[p][t], roll)) !in safe ==>
      (IsValidMove(starts, safe, steps, p, t, roll) <==>
        !HasTokenAtStep(steps[p], Destination(steps[p][t], roll)) &&
        AtMostOneOn(starts, steps, TrackSquare(starts[p], Destination(steps[p][t], roll))))
  {
    if Destination(steps[p][t], roll) < HOME_ENTRY && TrackSquare(starts[p], Destination(steps[p][t], roll)) !in safe {
      AtMostOneOccupant(starts, steps, TrackSquare(starts[p], Destination(steps[p][t], roll)));
      OwnTokenOnSquare(starts, steps, p, Destination(steps[p][t], roll));
    }
  }

  /** An own token stands on the track square `dest` steps past the start exactly when it is at step `dest`. */
  lemma OwnTokenOnSquare(starts: seq<int>, steps: seq<seq<int>>, p: nat, dest: int)
    requires WellFormed(starts, steps) && p < |steps| && 0 <= dest < HOME_ENTRY
    ensures HasOwnOccupant(OccupantsAt(starts, steps, TrackSquare(starts[p], dest)), p) <==> HasTokenAtStep(steps[p], dest)
  {
    var destAbs := TrackSquare(starts[p], dest);
    var occ := OccupantsAt(starts, steps, destAbs);
    assert AbsolutePosition(dest, starts[p]) == Some(destAbs);
    if HasOwnOccupant(occ, p) {
      var k :| 0 <= k < |occ| && occ[k].player == p;
      assert occ[k] in occ;
      SamePositionSameStep(dest, steps[p][occ[k].token], starts[p]);
    }
    if HasTokenAtStep(steps[p], dest) {
      var u :| 0 <= u < TOKENS_PER_PLAYER && steps[p][u] == dest;
      assert OnSquare(starts, steps, TokenRef(p, u), destAbs);
      var k :| 0 <= k < |occ| && occ[k] == TokenRef(p, u);
    }
  }

  /**
   * The legal-move rule case by case, in the order the engine examines a token:
   * finished, in the yard, overshooting, entering the home column, landing on a
   * safe square, landing on another track square. It only unfolds `IsValidMove`
   * for `TokenCanMove`, whose branches follow these cases; the rules themselves
   * are stated independently by `YardAndFinishRules` and `TrackRules`.
   */
  lemma ValidMoveCases(starts: seq<int>, safe: set<int>, steps: seq<seq<int>>, p: nat, t: nat, roll: int)
    requires |steps| == |starts| && p < |steps| && t < |steps[p]|
    ensures IsFinished(steps[p][t]) ==> !IsValidMove(starts, safe, steps, p, t, roll)
    ensures !IsFinished(steps[p][t]) && InYard(steps[p][t]) ==>
      (IsValidMove(starts, safe, steps, p, t, roll) <==> roll == SIX && !YardExitBlocked(starts, steps, p, t))
    ensures !IsFinished(steps[p][t]) && !InYard(steps[p][t]) && Destination(steps[p][t], roll) > FINISH_STEP ==>
      !IsValidMove(starts, safe, steps, p, t, roll)
    ensures !IsFinished(steps[p][t]) && !InYard(steps[p][t]) && HOME_ENTRY <= Destination(steps[p][t], roll) <= FINISH_STEP ==>
      IsValidMove(starts, safe, steps, p, t, roll)
    ensures (!IsFinished(steps[p][t]) && !InYard(steps[p][t]) && Destination(steps[p][t], roll) < HOME_ENTRY &&
             TrackSquare(starts[p], Destination(steps[p][t], roll)) in safe) ==>
      IsValidMove(starts, safe, steps, p, t, roll)
    ensures (!IsFinished(steps[p][t]) && !InYard(steps[p][t]) && Destination(steps[p][t], roll) < HOME_ENTRY &&
             TrackSquare(starts[p], Destination(steps[p][t], roll)) !in safe) ==>
      (IsValidMove(starts, safe, steps, p, t, roll) <==>
        var occ := OccupantsAt(starts, steps, TrackSquare(starts[p], Destination(steps[p][t], roll)));
        !HasOwnOccupant(occ, p) && |occ| <= 1)
  {
  }

  /** All the rules of legal moves together, for any token and any roll of the die. */
  lemma ValidMoveRules(starts: seq<int>, safe: set<int>, steps: seq<seq<int>>, p: nat, t: nat, roll: int)
    requires WellFormed(starts, steps) && p < |steps| && t < TOKENS_PER_PLAYER && 1 <= roll <= SIX
    ensures IsValidMove(starts, safe, steps, p, t, roll) ==> !IsFinished(steps[p][t])
    ensures IsValidMove(starts, safe, steps, p, t, roll) && InYard(steps[p][t]) ==> roll == SIX
    ensures IsValidMove(starts, safe, steps, p, t, roll) ==> ValidStep(Destination(steps[p][t], roll))
  {
    YardAndFinishRules(starts, safe, steps, p, t, roll);
    if !InYard(steps[p][t]) && !IsFinished(steps[p][t]) {
      TrackRules(starts, safe, steps, p, t, roll);
    }
  }

  // ---------------------------------------------------------------------
  // Applying a move

  /** What a move produced: the new board, whether the player rolls again, and the token captured. */
  datatype MoveResult = MoveResult(steps: seq<seq<int>>, extraTurn: bool, captured: Option<TokenRef>)

  /** The board with the step of token `r` replaced by `v`. */
  function SetStep(steps: seq<seq<int>>, r: TokenRef, v: int): seq<seq<int>>
    requires r.player < |steps| && r.token < |steps[r.player]|
  {
    steps[r.player := steps[r.player][r.token := v]]
  }


  /** The step a token moves to: step 0 out of the yard, otherwise `roll` steps on. */
  function Destination(step: int, roll: int): int
  {
    if InYard(step) then 0 else step + roll
  }

  /** The effect of moving token `t` of player `p` by `roll`. */
  function Move(starts: seq<int>, safe: set<int>, steps: seq<seq<int>>, p: nat, t: nat, roll: int): MoveResult
    requires |steps| == |starts| && p < |steps| && t < |steps[p]|
  {
    var mover := TokenRef(p, t);
    var step := steps[p][t];
    if InYard(step) then MoveResult(SetStep(steps, mover, 0), true, None)
    else
      var dest := Destination(step, roll);
      if dest < HOME_ENTRY then
        var destAbs := TrackSquare(starts[p], dest);
        if destAbs in safe then
          MoveResult(SetStep(steps, mover, dest), roll == SIX, None)
        else
          var occ := OccupantsAt(starts, steps, destAbs);
          if |occ| == 1 && occ[0].player != p then
            assert occ[0] in occ;
            MoveResult(SetStep(SetStep(steps, occ[0], YARD_STEP), mover, dest), true, Some(occ[0]))
          else
            MoveResult(SetStep(steps, mover, dest), roll == SIX, None)
      else
        MoveResult(SetStep(steps, mover, dest), roll == SIX, None)
  }

  /**
   * What a legal move does: the mover reaches its destination, the captured
   * token (if any) is an opponent's token that stood on the destination and
   * goes back to the yard, every other token keeps its step, and the player
   * rolls again exactly after leaving the yard, rolling a 6 or capturing.
   * The board stays well formed, so no step ever passes the finish.
   */
  lemma MoveEffects(starts: seq<int>, safe: set<int>, steps: seq<seq<int>>, p: nat, t: nat, roll: int)
    requires WellFormed(starts, steps) && p < |steps| && t < TOKENS_PER_PLAYER && 1 <= roll <= SIX
    requires IsValidMove(starts, safe, steps, p, t, roll)
    ensures var m := Move(starts, safe, steps, p, t, roll);
      WellFormed(starts, m.steps) && m.steps[p][t] == Destination(steps[p][t], roll)
    ensures var m := Move(starts, safe, steps, p, t, roll);
      forall q, u :: 0 <= q < |steps| && 0 <= u < TOKENS_PER_PLAYER && TokenRef(q, u) != TokenRef(p, t) ==>
        m.steps[q][u] == if m.captured == Some(TokenRef(q, u)) then YARD_STEP else steps[q][u]
    ensures var m := Move(starts, safe, steps, p, t, roll);
      m.captured.Some? ==>
        var dest := Destination(steps[p][t], roll);
        m.captured.value.player != p && !InYard(steps[p][t]) && dest < HOME_ENTRY &&
        TrackSquare(starts[p], dest) !in safe && OnSquare(starts, steps, m.captured.value, TrackSquare(starts[p], dest))
    ensures var m := Move(starts, safe, steps, p, t, roll);
      m.extraTurn <==> InYard(steps[p][t]) || roll == SIX || m.captured.Some?
  {
    MoveKeepsWellFormed(starts, safe, steps, p, t, roll);
    MoveSparesBystanders(starts, safe, steps, p, t, roll);
    MoveCaptureAndExtraTurn(starts, safe, steps, p, t, roll);
  }

  /** A legal move keeps every step within the yard, the track and the home column. */
  lemma MoveKeepsWellFormed(starts: seq<int>, safe: set<int>, steps: seq<seq<int>>, p: nat, t: nat, roll: int)
    requires WellFormed(starts, steps) && p < |steps| && t < TOKENS_PER_PLAYER && 1 <= roll <= SIX
    requires IsValidMove(starts, safe, steps, p, t, roll)
    ensures WellFormed(starts, Move(starts, safe, steps, p, t, roll).steps)
  {
    ValidMoveRules(starts, safe, steps, p, t, roll);
    MoveSparesBystanders(starts, safe, steps, p, t, roll);
    var m := Move(starts, safe, steps, p, t, roll);
    forall q, u | 0 <= q < |m.steps| && 0 <= u < |m.steps[q]| ensures ValidStep(m.steps[q][u]) {
      assert TokenRef(q, u) == TokenRef(p, t) ==> m.steps[q][u] == Destination(steps[p][t], roll);
    }
  }

  /** The mover reaches its destination; every other token keeps its step unless it is the one captured. */
  lemma MoveSparesBystanders(starts: seq<int>, safe: set<int>, steps: seq<seq<int>>, p: nat, t: nat, roll: int)
    requires |steps| == |starts| && p < |steps| && t < |steps[p]|
    ensures var m := Move(starts, safe, steps, p, t, roll);
      |m.steps| == |steps| && forall q :: 0 <= q < |steps| ==> |m.steps[q]| == |steps[q]|
    ensures Move(starts, safe, steps, p, t, roll).steps[p][t] == Destination(steps[p][t], roll)
    ensures var m := Move(starts, safe, steps, p, t, roll);
      forall q, u :: 0 <= q < |steps| && 0 <= u < |steps[q]| && TokenRef(q, u) != TokenRef(p, t) ==>
        m.steps[q][u] == if m.captured == Some(TokenRef(q, u)) then YARD_STEP else steps[q][u]
  {
    var m := Move(starts, safe, steps, p, t, roll);
    forall q, u | 0 <= q < |steps| && 0 <= u < |steps[q]| && TokenRef(q, u) != TokenRef(p, t)
      ensures m.steps[q][u] == if m.captured == Some(TokenRef(q, u)) then YARD_STEP else steps[q][u]
    {
      if m.captured.Some? {
        var occ := OccupantsAt(starts, steps, TrackSquare(starts[p], Destination(steps[p][t], roll)));
        assert occ[0] in occ;
      }
    }
  }

  /**
   * Only an opponent's token standing on a destination square of the track off
   * the safe squares is captured, and the player rolls again exactly after
   * leaving the yard, rolling a 6 or capturing.
   */
  lemma MoveCaptureAndExtraTurn(starts: seq<int>, safe: set<int>, steps: seq<seq<int>>, p: nat, t: nat, roll: int)
    requires WellFormed(starts, steps) && p < |steps| && t < TOKENS_PER_PLAYER && 1 <= roll <= SIX
    requires IsValidMove(starts, safe, steps, p, t, roll)
    ensures var m := Move(starts, safe, steps, p, t, roll);
      m.captured.Some? ==>
        var dest := Destination(steps[p][t], roll);
        m.captured.value.player != p && !InYard(steps[p][t]) && dest < HOME_ENTRY &&
        TrackSquare(starts[p], dest) !in safe && OnSquare(starts, steps, m.captured.value, TrackSquare(starts[p], dest))
    ensures var m := Move(starts, safe, steps, p, t, roll);
      m.extraTurn <==> InYard(steps[p][t]) || roll == SIX || m.captured.Some?
  {
    var m := Move(starts, safe, steps, p, t, roll);
    if m.captured.Some? {
      var occ := OccupantsAt(starts, steps, TrackSquare(starts[p], Destination(steps[p][t], roll)));
      assert occ[0] in occ;
    }
  }

  /**
   * Capture: when a legal move ends on a square of the track off the safe
   * squares where another token stands, that token is an opponent's; it is
   * sent back to the yard and the player rolls again, whatever the roll was.
   */
  lemma CaptureRule(starts: seq<int>, safe: set<int>, steps: seq<seq<int>>, p: nat, t: nat, roll: int, victim: TokenRef)
    requires WellFormed(starts, steps) && p < |steps| && t < TOKENS_PER_PLAYER && 1 <= roll <= SIX
    requires IsValidMove(starts, safe, steps, p, t, roll)
    requires !InYard(steps[p][t]) && Destination(steps[p][t], roll) < HOME_ENTRY
    requires TrackSquare(starts[p], Destination(steps[p][t], roll)) !in safe
    requires victim != TokenRef(p, t) && OnSquare(starts, steps, victim, TrackSquare(starts[p], Destination(steps[p][t], roll)))
    ensures victim.player != p
    ensures var m := Move(starts, safe, steps, p, t, roll);
      m.captured == Some(victim) && m.steps[victim.player][victim.token] == YARD_STEP &&
      m.steps[p][t] == Destination(steps[p][t], roll) && m.extraTurn
  {
    var destAbs := TrackSquare(starts[p], Destination(steps[p][t], roll));
    var occ := OccupantsAt(starts, steps, destAbs);
    assert victim in occ;
    assert |occ| == 1 && occ[0] == victim;
    assert occ[0].player != p;
    MoveEffects(starts, safe, steps, p, t, roll);
  }

  /**
   * Leaving the yard, moving onto a safe square or into the home column never
   * captures: every token but the mover keeps its step.
   */
  lemma NoCaptureRule(starts: seq<int>, safe: set<int>, steps: seq<seq<int>>, p: nat, t: nat, roll: int)
    requires WellFormed(starts, steps) && p < |steps| && t < TOKENS_PER_PLAYER && 1 <= roll <= SIX
    requires IsValidMove(starts, safe, steps, p, t, roll)
    requires InYard(steps[p][t]) || Destination(steps[p][t], roll) >= HOME_ENTRY ||
             TrackSquare(starts[p], Destination(steps[p][t], roll)) in safe
    ensures var m := Move(starts, safe, steps, p, t, roll);
      m.captured == None && (m.extraTurn <==> InYard(steps[p][t]) || roll == SIX)
    ensures var m := Move(starts, safe, steps, p, t, roll);
      forall q, u :: 0 <= q < |steps| && 0 <= u < TOKENS_PER_PLAYER && TokenRef(q, u) != TokenRef(p, t) ==>
        m.steps[q][u] == steps[q][u]
  {
    MoveEffects(starts, safe, steps, p, t, roll);
  }

  /** A move never completes another player's set of tokens: only the mover can win by it. */
  lemma OnlyMoverCanFinish(starts: seq<int>, safe: set<int>, steps: seq<seq<int>>, p: nat, t: nat, roll: int, q: nat)
    requires WellFormed(starts, steps) && p < |steps| && t < TOKENS_PER_PLAYER && 1 <= roll <= SIX
    requires IsValidMove(starts, safe, steps, p, t, roll)
    requires q < |steps| && q != p
    ensures AllFinished(Move(starts, safe, steps, p, t, roll).steps[q]) ==> AllFinished(steps[q])
  {
    MoveEffects(starts, safe, steps, p, t, roll);
    var m := Move(starts, safe, steps, p, t, roll);
    if AllFinished(m.steps[q]) {
      forall u | 0 <= u < TOKENS_PER_PLAYER ensures IsFinished(steps[q][u]) {
        assert IsFinished(m.steps[q][u]);
      }
    }
  }

  // ---------------------------------------------------------------------
  // The invariant of reachable boards

  /** Two different tokens share a track square only on a safe square. */
  ghost predicate NoStackOffSafe(starts: seq<int>, safe: set<int>, steps: seq<seq<int>>)
    requires |steps| == |starts|
  {
    forall a, b, pos ::
      a != b && OnSquare(starts, steps, a, pos) && OnSquare(starts, steps, b, pos) ==> pos in safe
  }

  /** On a board with no stack off the safe squares, every other square holds at most one token. */
  lemma NoStackOffSafeBoundsOccupants(starts: seq<int>, safe: set<int>, steps: seq<seq<int>>, pos: int)
    requires |steps| == |starts| && NoStackOffSafe(starts, safe, steps) && pos !in safe
    ensures |OccupantsAt(starts, steps, pos)| <= 1
  {
    AtMostOneOccupant(starts, steps, pos);
  }

  /** A token other than the mover that stands on a square after a move stood there before, uncaptured. */
  lemma BystanderStaysPut(starts: seq<int>, safe: set<int>, steps: seq<seq<int>>, p: nat, t: nat, roll: int, r: TokenRef, pos: int)
    requires WellFormed(starts, steps) && p < |steps| && t < TOKENS_PER_PLAYER && 1 <= roll <= SIX
    requires IsValidMove(starts, safe, steps, p, t, roll)
    requires r != TokenRef(p, t) && OnSquare(starts, Move(starts, safe, steps, p, t, roll).steps, r, pos)
    ensures OnSquare(starts, steps, r, pos)
    ensures Move(starts, safe, steps, p, t, roll).captured != Some(r)
  {
    MoveEffects(starts, safe, steps, p, t, roll);
    assert TokenRef(r.player, r.token) == r;
  }

  /**
   * Every legal move keeps the invariant: a board where no two tokens share a
   * square off the safe squares stays so. Hence the check that a square off
   * the safe squares holds two tokens never rejects a move on a reachable board.
   */
  lemma MovePreservesNoStackOffSafe(starts: seq<int>, safe: set<int>, steps: seq<seq<int>>, p: nat, t: nat, roll: int)
    requires WellFormed(starts, steps) && p < |steps| && t < TOKENS_PER_PLAYER && 1 <= roll <= SIX
    requires starts[p] in safe
    requires NoStackOffSafe(starts, safe, steps) && IsValidMove(starts, safe, steps, p, t, roll)
    ensures NoStackOffSafe(starts, safe, Move(starts, safe, steps, p, t, roll).steps)
  {
    var m := Move(starts, safe, steps, p, t, roll);
    var mover := TokenRef(p, t);
    MoveEffects(starts, safe, steps, p, t, roll);
    forall a, b, pos | a != b && OnSquare(starts, m.steps, a, pos) && OnSquare(starts, m.steps, b, pos)
      ensures pos in safe
    {
      if a != mover && b != mover {
        BystanderStaysPut(starts, safe, steps, p, t, roll, a, pos);
        BystanderStaysPut(starts, safe, steps, p, t, roll, b, pos);
      } else {
        var other := if a == mover then b else a;
        BystanderStaysPut(starts, safe, steps, p, t, roll, other, pos);
        MoverLandsSafelyOrAlone(starts, safe, steps, p, t, roll, other, pos);
      }
    }
  }

  /** The square the mover lands on is safe, or no token that was not captured stood there before. */
  lemma MoverLandsSafelyOrAlone(starts: seq<int>, safe: set<int>, steps: seq<seq<int>>, p: nat, t: nat, roll: int, other: TokenRef, pos: int)
    requires WellFormed(starts, steps) && p < |steps| && t < TOKENS_PER_PLAYER && 1 <= roll <= SIX
    requires starts[p] in safe && IsValidMove(starts, safe, steps, p, t, roll)
    requires OnSquare(starts, Move(starts, safe, steps, p, t, roll).steps, TokenRef(p, t), pos)
    requires other != TokenRef(p, t) && OnSquare(starts, steps, other, pos)
    requires Move(starts, safe, steps, p, t, roll).captured != Some(other)
    ensures pos in safe
  {
    MoveSparesBystanders(starts, safe, steps, p, t, roll);
    assert AbsolutePosition(Destination(steps[p][t], roll), starts[p]) == Some(pos);
    if InYard(steps[p][t]) {
      assert pos == starts[p];
    } else if pos !in safe {
      CaptureRule(starts, safe, steps, p, t, roll, other);
    }
  }

  // ---------------------------------------------------------------------
  // The game object

  /** At least two different tokens of player `p` may be moved for `roll`. */
  ghost predicate SeveralValid(starts: seq<int>, safe: set<int>, steps: seq<seq<int>>, p: nat, roll: int)
    requires |steps| == |starts| && p < |steps|
  {
    exists a, b :: 0 <= a < b < |steps[p]| &&
      IsValidMove(starts, safe, steps, p, a, roll) && IsValidMove(starts, safe, steps, p, b, roll)
  }

  /** No token of player `p` may be moved for `roll`. */
  ghost predicate NoneValid(starts: seq<int>, safe: set<int>, steps: seq<seq<int>>, p: nat, roll: int)
    requires |steps| == |starts| && p < |steps|
  {
    forall t :: 0 <= t < |steps[p]| ==> !IsValidMove(starts, safe, steps, p, t, roll)
  }

  /**
   * For the list of valid tokens in increasing order: it is empty exactly
   * when no token may move, and it has two or more entries exactly when
   * several tokens may move (when the player has to choose).
   */
  lemma ListedValidTokens(starts: seq<int>, safe: set<int>, steps: seq<seq<int>>, p: nat, roll: int, valid: seq<nat>)
    requires |steps| == |starts| && p < |steps|
    requires forall t: nat :: t in valid <==> t < |steps[p]| && IsValidMove(starts, safe, steps, p, t, roll)
    requires forall i, j :: 0 <= i < j < |valid| ==> valid[i] < valid[j]
    ensures |valid| == 0 <==> NoneValid(starts, safe, steps, p, roll)
    ensures 2 <= |valid| <==> SeveralValid(starts, safe, steps, p, roll)
  {
    if !NoneValid(starts, safe, steps, p, roll) {
      var t :| 0 <= t < |steps[p]| && IsValidMove(starts, safe, steps, p, t, roll);
      assert t in valid;
    }
    if 1 <= |valid| {
      assert valid[0] in valid;
    }
    if 2 <= |valid| {
      assert valid[1] in valid;
    }
    if SeveralValid(starts, safe, steps, p, roll) {
      var a, b :| 0 <= a < b < |steps[p]| &&
        IsValidMove(starts, safe, steps, p, a, roll) && IsValidMove(starts, safe, steps, p, b, roll);
      assert a in valid && b in valid;
    }
  }

  /** How a turn of the game loop ended. */
  datatype TurnStatus =
    | ChoiceRejected            // several tokens could move and the chosen one is not among them
    | Won                       // the player's four tokens are all finished
    | Continue(extraTurn: bool) // the game goes on; `extraTurn` tells whether the same player rolls again

  /** A game of two to four players with four tokens each. */
  class LudoGameFull {
    /** The start square of each player. */
    const starts: seq<int>
    /** The safe squares: every start square and the square eight ahead of it. */
    const safePositions: set<int>
    /** `steps[p][t]` is the step of token `t` of player `p`. */
    var steps: seq<seq<int>>
    var currentPlayerIndex: nat

    /**
     * A well-formed board whose current player is one of the players;
     * every start square is safe (the constructor builds the whole safe set).
     */
    ghost predicate Valid()
      reads this
    {
      && WellFormed(starts, steps)
      && (forall p :: 0 <= p < |starts| ==> starts[p] in safePositions)
      && currentPlayerIndex < |starts|
    }

    /** The invariant of every reachable board: tokens share a track square only on a safe square. */
    ghost predicate StacksOnlyOnSafeSquares()
      reads this
    {
      |steps| == |starts| && NoStackOffSafe(starts, safePositions, steps)
    }

    /** A new game: every token in the yard, the first player to roll. */
    constructor(startIndices: seq<int>)
      requires StandardStarts(startIndices)
      ensures Valid() && StacksOnlyOnSafeSquares()
      ensures starts == startIndices && safePositions == SafePositions(startIndices) && currentPlayerIndex == 0
      ensures forall p, t :: 0 <= p < |steps| && 0 <= t < |steps[p]| ==> steps[p][t] == YARD_STEP
    {
      starts := startIndices;
      safePositions := SafePositions(startIndices);
      steps := seq(|startIndices|, _ => [YARD_STEP, YARD_STEP, YARD_STEP, YARD_STEP]);
      currentPlayerIndex := 0;
      new;
      assert forall r: TokenRef, pos :: !OnSquare(starts, steps, r, pos);
    }

    /**
     * The map from each occupied track square to the tokens standing there,
     * listed player by player and token by token.
     */
    method GetBoardOccupants() returns (occupants: map<int, seq<TokenRef>>)
      requires |steps| == |starts|
      ensures forall pos :: pos in occupants ==> occupants[pos] == OccupantsAt(starts, steps, pos)
      ensures forall pos :: pos !in occupants ==> OccupantsAt(starts, steps, pos) == []
      ensures forall pos :: pos in occupants ==> occupants[pos] != []
    {
      occupants := map[];
      var pIndex := 0;
      while pIndex < |steps|
        invariant 0 <= pIndex <= |steps|
        invariant ScannedPlayers(occupants, starts, steps, pIndex)
      {
        var tokens := steps[pIndex];
        var tIndex := 0;
        ScanStartsPlayer(occupants, starts, steps, pIndex);
        while tIndex < |tokens|
          invariant 0 <= tIndex <= |tokens|
          invariant ScannedTokens(occupants, starts, steps, pIndex, tIndex)
        {
          var absPos := AbsolutePosition(tokens[tIndex], starts[pIndex]);
          ghost var before := occupants;
          if absPos.Some? {
            var here := if absPos.value in occupants then occupants[absPos.value] else [];
            occupants := occupants[absPos.value := here + [TokenRef(pIndex, tIndex)]];
          }
          var next := tIndex + 1;
          ScanAddsToken(before, occupants, starts, steps, pIndex, tIndex, next);
          tIndex := next;
        }
        ScanFinishesPlayer(occupants, starts, steps, pIndex, pIndex + 1);
        pIndex := pIndex + 1;
      }
      ScanComplete(occupants, starts, steps);
    }

    /** The tokens of player `playerIndex` that may be moved for `roll`, in token order. */
    method GetValidTokensForRoll(playerIndex: nat, roll: int) returns (valid: seq<nat>)
      requires |steps| == |starts| && playerIndex < |starts|
      ensures forall t: nat :: t in valid <==> t < |steps[playerIndex]| && IsValidMove(starts, safePositions, steps, playerIndex, t, roll)
      ensures forall i, j :: 0 <= i < j < |valid| ==> valid[i] < valid[j]
    {
      var occupants := GetBoardOccupants();
      assert OccupancyMap(occupants, starts, steps);
      valid := [];
      var idx := 0;
      while idx < |steps[playerIndex]|
        invariant 0 <= idx <= |steps[playerIndex]|
        invariant OccupancyMap(occupants, starts, steps)
        invariant valid == ValidTokensBelow(starts, safePositions, steps, playerIndex, roll, idx)
      {
        var canMove := TokenCanMove(occupants, playerIndex, idx, roll);
        if canMove {
          valid := valid + [idx];
        }
        idx := idx + 1;
      }
      ValidTokensBelowMembers(starts, safePositions, steps, playerIndex, roll, idx);
    }

    /**
     * The examination of one token for `roll`, given the occupants of the
     * board: a finished token never moves; a token in the yard needs a 6 and
     * a start square free of its player's other tokens; otherwise the token
     * must not overshoot the finish, and on a track square off the safe
     * squares it must find no token of its player and at most one token.
     */
    method TokenCanMove(occupants: map<int, seq<TokenRef>>, playerIndex: nat, idx: nat, roll: int) returns (canMove: bool)
      requires |steps| == |starts| && playerIndex < |starts| && idx < |steps[playerIndex]|
      requires OccupancyMap(occupants, starts, steps)
      ensures canMove == IsValidMove(starts, safePositions, steps, playerIndex, idx, roll)
    {
      ValidMoveCases(starts, safePositions, steps, playerIndex, idx, roll);
      var tokens := steps[playerIndex];
      var start := starts[playerIndex];
      var step := tokens[idx];
      canMove := false;
      if IsFinished(step) {
        // a finished token stays where it is
      } else if InYard(step) {
        if roll == SIX {
          var blocked := false;
          var otherIdx := 0;
          while otherIdx < |tokens|
            invariant 0 <= otherIdx <= |tokens|
            invariant !blocked
            invariant forall u :: 0 <= u < otherIdx ==> !BlocksYardExit(starts, steps, playerIndex, idx, u)
          {
            var other := tokens[otherIdx];
            if otherIdx != idx && !InYard(other) && !InHome(other) && AbsolutePosition(other, start) == Some(start) {
              assert BlocksYardExit(starts, steps, playerIndex, idx, otherIdx);
              blocked := true;
              break;
            }
            otherIdx := otherIdx + 1;
          }
          canMove := !blocked;
        }
      } else {
        var destStep := Destination(step, roll);
        if destStep > FINISH_STEP {
          // overshooting the finish is not allowed
        } else if destStep < HOME_ENTRY {
          var destAbs := TrackSquare(start, destStep);
          if destAbs in safePositions {
            canMove := true;
          } else {
            var occ := if destAbs in occupants then occupants[destAbs] else [];
            assert occ == OccupantsAt(starts, steps, destAbs);
            var blockedBySelf := HasOwnOccupant(occ, playerIndex);
            canMove := !blockedBySelf && |occ| <= 1;
          }
        } else {
          canMove := true;
        }
      }
    }

    /**
     * Move token `tokenIndex` of player `playerIndex` by `roll`. A token leaves the yard for step 0; a
     * token ending on a track square off the safe squares captures the lone
     * opponent's token standing there. The result tells whether the player
     * rolls again: after leaving the yard, rolling a 6 or capturing.
     * Like the game, the method trusts its caller to pick a token the rules
     * let move (see MoveKeepsWellFormed for what that guarantees).
     */
    method MoveToken(playerIndex: nat, tokenIndex: nat, roll: int) returns (extraTurn: bool)
      requires |steps| == |starts| && playerIndex < |starts| && tokenIndex < |steps[playerIndex]|
      modifies this
      ensures steps == Move(starts, safePositions, old(steps), playerIndex, tokenIndex, roll).steps
      ensures extraTurn == Move(starts, safePositions, old(steps), playerIndex, tokenIndex, roll).extraTurn
      ensures currentPlayerIndex == old(currentPlayerIndex)
    {
      var occupants := GetBoardOccupants();
      assert OccupancyMap(occupants, starts, steps);
      extraTurn := false;
      var captureOccurred := false;
      var board := steps;
      var step := board[playerIndex][tokenIndex];
      if InYard(step) {
        board := board[playerIndex := board[playerIndex][tokenIndex := 0]];
        extraTurn := true;
      } else {
        var destStep := Destination(step, roll);
        if destStep < HOME_ENTRY {
          var destAbs := TrackSquare(starts[playerIndex], destStep);
          if destAbs in safePositions {
            board := board[playerIndex := board[playerIndex][tokenIndex := destStep]];
          } else {
            var occ := if destAbs in occupants then occupants[destAbs] else [];
            assert occ == OccupantsAt(starts, steps, destAbs);
            if |occ| > 0 && |occ| == 1 && occ[0].player != playerIndex {
              var victim := occ[0];
              assert victim in occ;
              board := board[victim.player := board[victim.player][victim.token := YARD_STEP]];
              captureOccurred := true;
            }
            board := board[playerIndex := board[playerIndex][tokenIndex := destStep]];
          }
        } else {
          board := board[playerIndex := board[playerIndex][tokenIndex := destStep]];
        }
      }
      if roll == SIX || captureOccurred {
        extraTurn := true;
      }
      steps := board;
    }

    /**
     * One pass of the game loop for the current player, who rolled `roll`
     * and, when several tokens may move, picks token `choice`. With no
     * token to move the player rolls again exactly on a 6; with one the
     * token moves without asking; with several an invalid choice is rejected
     * and nothing changes (the game asks again). After a move the player
     * wins when all four tokens are finished; otherwise the turn passes on
     * unless the player earned another roll.
     */
    method PlayTurn(roll: int, choice: int) returns (status: TurnStatus, moved: Option<nat>)
      requires Valid() && 1 <= roll <= SIX
      modifies this
      ensures Valid()
      ensures old(StacksOnlyOnSafeSquares()) ==> StacksOnlyOnSafeSquares()
      ensures status == ChoiceRejected <==>
        old(SeveralValid(starts, safePositions, steps, currentPlayerIndex, roll)) &&
        !(0 <= choice < TOKENS_PER_PLAYER && old(IsValidMove(starts, safePositions, steps, currentPlayerIndex, choice as nat, roll)))
      ensures status == ChoiceRejected ==>
        moved == None && steps == old(steps) && currentPlayerIndex == old(currentPlayerIndex)
      ensures status != ChoiceRejected ==>
        (moved == None <==> old(NoneValid(starts, safePositions, steps, currentPlayerIndex, roll)))
      ensures moved == None ==> steps == old(steps)
      ensures moved.Some? ==>
        && moved.value < TOKENS_PER_PLAYER
        && old(IsValidMove(starts, safePositions, steps, currentPlayerIndex, moved.value, roll))
        && steps == Move(starts, safePositions, old(steps), old(currentPlayerIndex), moved.value, roll).steps
      ensures moved.Some? && old(SeveralValid(starts, safePositions, steps, currentPlayerIndex, roll)) ==>
        moved.value == choice
      ensures status == Won <==> status != ChoiceRejected && AllFinished(steps[old(currentPlayerIndex)])
      ensures status == Won ==> currentPlayerIndex == old(currentPlayerIndex)
      ensures status.Continue? ==>
        currentPlayerIndex == TurnOrder.NextIndex(old(currentPlayerIndex), |starts|, status.extraTurn)
      ensures status.Continue? && moved.Some? ==>
        status.extraTurn == Move(starts, safePositions, old(steps), old(currentPlayerIndex), moved.value, roll).extraTurn
      ensures status.Continue? && moved.None? ==> status.extraTurn == (roll == SIX)
    {
      var p := currentPlayerIndex;
      var validTokens := GetValidTokensForRoll(p, roll);
      ListedValidTokens(starts, safePositions, steps, p, roll, validTokens);
      var extraTurn := false;
      moved := None;
      if |validTokens| == 0 {
        extraTurn := roll == SIX;
      } else {
        var chosen: nat;
        if |validTokens| == 1 {
          chosen := validTokens[0];
          assert chosen in validTokens;
        } else if 0 <= choice && choice as nat in validTokens {
          chosen := choice as nat;
        } else {
          status := ChoiceRejected;
          return;
        }
        MoveKeepsWellFormed(starts, safePositions, steps, p, chosen, roll);
        if StacksOnlyOnSafeSquares() {
          MovePreservesNoStackOffSafe(starts, safePositions, steps, p, chosen, roll);
        }
        extraTurn := MoveToken(p, chosen, roll);
        moved := Some(chosen);
      }
      if AllFinished(steps[p]) {
        status := Won;
        return;
      }
      if !extraTurn {
        currentPlayerIndex := (currentPlayerIndex + 1) % |starts|;
      }
      status := Continue(extraTurn);
    }
  }
}
