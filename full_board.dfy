/**
 * Board and token model of the four-token game: what a token's step means,
 * where a token stands on the shared 52-square track, which squares are safe,
 * and which tokens stand on each square.
 *
 * A token is described by its step alone:
 *   -1       in the yard,
 *   0..51    on the shared track, that many squares past its player's start square,
 *   52..57   in its player's home column, 57 being the finish.
 */
module FullBoard {
  import opened Options
  import Collections

  const BOARD_LENGTH: int := 52
  const HOME_LENGTH: int := 6
  /** The first step of the home column; smaller steps are on the shared track. */
  const HOME_ENTRY: int := 52
  /** The last square of the home column. */
  const FINISH_STEP: int := 51 + HOME_LENGTH
  const YARD_STEP: int := -1
  const TOKENS_PER_PLAYER: int := 4
  /** Start squares are spaced this far apart: 0, 13, 26, 39. */
  const START_SPACING: int := 13
  /** The second safe square of each player lies this far past its start square. */
  const SAFE_OFFSET: int := 8

  /** A token named by its owner's seat and its index among that player's tokens. */
  datatype TokenRef = TokenRef(player: nat, token: nat)

  predicate InYard(step: int) { step < 0 }

  predicate InHome(step: int) { step >= HOME_ENTRY }

  predicate IsFinished(step: int) { step == FINISH_STEP }

  /** The steps a token can have: the yard, the track, the home column. */
  predicate ValidStep(step: int) { step == YARD_STEP || 0 <= step <= FINISH_STEP }

  /**
   * The square of the shared track a token stands on, or None when it is in
   * the yard or in the home column.
   */
  function AbsolutePosition(step: int, startIndex: int): (pos: Option<int>)
    ensures pos.None? <==> InYard(step) || InHome(step)
    ensures pos.Some? ==> 0 <= pos.value < BOARD_LENGTH
    ensures pos.Some? ==> (startIndex + step - pos.value) % BOARD_LENGTH == 0
  {
    if step < 0 || step >= HOME_ENTRY then None else Some((startIndex + step) % BOARD_LENGTH)
  }

  /** Two tokens of one player stand on the same track square only if they have the same step. */
  lemma SamePositionSameStep(s1: int, s2: int, startIndex: int)
    requires AbsolutePosition(s1, startIndex).Some?
    requires AbsolutePosition(s1, startIndex) == AbsolutePosition(s2, startIndex)
    ensures s1 == s2
  {
    var a, b := startIndex + s1, startIndex + s2;
    assert a == BOARD_LENGTH * (a / BOARD_LENGTH) + a % BOARD_LENGTH;
    assert b == BOARD_LENGTH * (b / BOARD_LENGTH) + b % BOARD_LENGTH;
    var d := a / BOARD_LENGTH - b / BOARD_LENGTH;
    assert s1 - s2 == BOARD_LENGTH * d;
  }

  // ---------------------------------------------------------------------
  // Players

  /** Every token of the player has reached the finish. */
  predicate AllFinished(tokens: seq<int>)
  {
    forall t :: 0 <= t < |tokens| ==> IsFinished(tokens[t])
  }

  /** The indices below `n` of the tokens that have not finished, in increasing order. */
  function ActiveTokensBelow(tokens: seq<int>, n: nat): (active: seq<nat>)
    requires n <= |tokens|
    ensures forall i :: i in active <==> 0 <= i < n && !IsFinished(tokens[i])
    ensures forall j, k :: 0 <= j < k < |active| ==> active[j] < active[k]
    decreases n
  {
    if n == 0 then []
    else
      var earlier := ActiveTokensBelow(tokens, n - 1);
      assert forall j :: 0 <= j < |earlier| ==> earlier[j] in earlier;
      earlier + (if IsFinished(tokens[n - 1]) then [] else [n - 1])
  }

  /** The indices of the tokens still in play or in the yard, in increasing order. */
  function ActiveTokens(tokens: seq<int>): (active: seq<nat>)
    ensures forall i :: i in active <==> 0 <= i < |tokens| && !IsFinished(tokens[i])
    ensures forall j, k :: 0 <= j < k < |active| ==> active[j] < active[k]
  {
    ActiveTokensBelow(tokens, |tokens|)
  }

  /** A player has no active token exactly when all its tokens have finished. */
  lemma NoActiveTokensIffAllFinished(tokens: seq<int>)
    ensures ActiveTokens(tokens) == [] <==> AllFinished(tokens)
  {
    var active := ActiveTokens(tokens);
    if active != [] {
      assert active[0] in active;
    }
  }

  // ---------------------------------------------------------------------
  // The roster and the safe squares

  /** Every start square is a square of the track. */
  predicate StartsOnTrack(starts: seq<int>)
  {
    forall p :: 0 <= p < |starts| ==> 0 <= starts[p] < BOARD_LENGTH
  }

  /** The start squares handed out at setup: 2 to 4 seats at 0, 13, 26, 39. */
  predicate StandardStarts(starts: seq<int>)
  {
    2 <= |starts| <= 4 && forall p :: 0 <= p < |starts| ==> starts[p] == START_SPACING * p
  }

  /**
   * For each start square, the square eight past it on the track: a square of
   * the track that lies `SAFE_OFFSET` squares after the start, going round.
   */
  function SecondSafeSquares(starts: seq<int>): (ahead: seq<int>)
    ensures |ahead| == |starts|
    ensures forall i :: 0 <= i < |starts| ==>
      0 <= ahead[i] < BOARD_LENGTH && (ahead[i] - starts[i]) % BOARD_LENGTH == SAFE_OFFSET
  {
    seq(|starts|, i requires 0 <= i < |starts| => (starts[i] + SAFE_OFFSET) % BOARD_LENGTH)
  }

  /** The safe squares: every player's start square and the square eight past it, and no other. */
  function SafePositions(starts: seq<int>): (safe: set<int>)
    ensures forall x :: x in safe <==>
      exists p :: 0 <= p < |starts| && (x == starts[p] || x == (starts[p] + SAFE_OFFSET) % BOARD_LENGTH)
  {
    var all := starts + SecondSafeSquares(starts);
    assert forall x :: x in all <==>
      exists p :: 0 <= p < |starts| && (x == starts[p] || x == (starts[p] + SAFE_OFFSET) % BOARD_LENGTH)
    by {
      forall x
        ensures x in all <==>
          exists p :: 0 <= p < |starts| && (x == starts[p] || x == (starts[p] + SAFE_OFFSET) % BOARD_LENGTH)
      {
        if x in all {
          var k :| 0 <= k < |all| && all[k] == x;
          if k >= |starts| {
            assert x == (starts[k - |starts|] + SAFE_OFFSET) % BOARD_LENGTH;
          }
        }
        if exists p :: 0 <= p < |starts| && (x == starts[p] || x == (starts[p] + SAFE_OFFSET) % BOARD_LENGTH) {
          var p :| 0 <= p < |starts| && (x == starts[p] || x == (starts[p] + SAFE_OFFSET) % BOARD_LENGTH);
          if x == starts[p] {
            assert all[p] == x;
          } else {
            assert all[|starts| + p] == x;
          }
        }
      }
    }
    set x | x in all
  }

  /** The standard rosters of two, three and four seats, written out. */
  lemma StandardRosters(starts: seq<int>)
    requires StandardStarts(starts)
    ensures |starts| == 2 ==> starts == [0, 13]
    ensures |starts| == 3 ==> starts == [0, 13, 26]
    ensures |starts| == 4 ==> starts == [0, 13, 26, 39]
  {
  }

  /** With the standard roster the safe squares are the start squares and the squares 8 past them. */
  lemma StandardSafePositions(starts: seq<int>)
    requires StandardStarts(starts)
    ensures |starts| == 2 ==> SafePositions(starts) == {0, 8, 13, 21}
    ensures |starts| == 3 ==> SafePositions(starts) == {0, 8, 13, 21, 26, 34}
    ensures |starts| == 4 ==> SafePositions(starts) == {0, 8, 13, 21, 26, 34, 39, 47}
  {
    StandardRosters(starts);
    if |starts| == 2 {
      assert starts + SecondSafeSquares(starts) == [0, 13, 8, 21];
    } else if |starts| == 3 {
      assert starts + SecondSafeSquares(starts) == [0, 13, 26, 8, 21, 34];
    } else {
      assert starts + SecondSafeSquares(starts) == [0, 13, 26, 39, 8, 21, 34, 47];
    }
  }

  // ---------------------------------------------------------------------
  // The whole board

  /** A board: start squares on the track and, for every player, four steps in range. */
  predicate WellFormed(starts: seq<int>, steps: seq<seq<int>>)
  {
    && StartsOnTrack(starts)
    && |steps| == |starts|
    && (forall p :: 0 <= p < |steps| ==> |steps[p]| == TOKENS_PER_PLAYER)
    && (forall p, t :: 0 <= p < |steps| && 0 <= t < |steps[p]| ==> ValidStep(steps[p][t]))
  }

  /** The token `r` exists and stands on track square `pos`. */
  predicate OnSquare(starts: seq<int>, steps: seq<seq<int>>, r: TokenRef, pos: int)
    requires |steps| == |starts|
  {
    r.player < |steps| && r.token < |steps[r.player]| &&
    AbsolutePosition(steps[r.player][r.token], starts[r.player]) == Some(pos)
  }

  /** The order in which the board is scanned: by player, then by token. */
  predicate ScannedBefore(a: TokenRef, b: TokenRef)
  {
    a.player < b.player || (a.player == b.player && a.token < b.token)
  }

  /** The first `t` tokens of player `p` that stand on square `pos`, in token order. */
  function PlayerOccupants(p: nat, start: int, tokens: seq<int>, pos: int, t: nat): seq<TokenRef>
    requires t <= |tokens|
    decreases t
  {
    if t == 0 then []
    else
      PlayerOccupants(p, start, tokens, pos, t - 1) +
      (if AbsolutePosition(tokens[t - 1], start) == Some(pos) then [TokenRef(p, t - 1)] else [])
  }

  /**
   * PlayerOccupants lists tokens of player `p` below `t` standing on `pos`,
   * every such token, in increasing token order.
   */
  lemma {:induction false} PlayerOccupantsMembers(p: nat, start: int, tokens: seq<int>, pos: int, t: nat)
    requires t <= |tokens|
    ensures forall i :: 0 <= i < |PlayerOccupants(p, start, tokens, pos, t)| ==>
      var r := PlayerOccupants(p, start, tokens, pos, t)[i];
      r.player == p && r.token < t && AbsolutePosition(tokens[r.token], start) == Some(pos)
    ensures forall u :: 0 <= u < t && AbsolutePosition(tokens[u], start) == Some(pos) ==>
      TokenRef(p, u) in PlayerOccupants(p, start, tokens, pos, t)
    ensures forall i, j :: 0 <= i < j < |PlayerOccupants(p, start, tokens, pos, t)| ==>
      PlayerOccupants(p, start, tokens, pos, t)[i].token < PlayerOccupants(p, start, tokens, pos, t)[j].token
    decreases t
  {
    if t > 0 {
      PlayerOccupantsMembers(p, start, tokens, pos, t - 1);
    }
  }

  /** Scanning one more token of player `p` adds it to the list when it stands on `pos`. */
  lemma PlayerOccupantsGrow(p: nat, start: int, tokens: seq<int>, pos: int, t: nat, next: nat)
    requires next == t + 1 && next <= |tokens|
    ensures PlayerOccupants(p, start, tokens, pos, next) ==
      PlayerOccupants(p, start, tokens, pos, t) +
      (if AbsolutePosition(tokens[t], start) == Some(pos) then [TokenRef(p, t)] else [])
  {
  }

  /** The tokens of the first `n` players that stand on square `pos`, in scan order. */
  function OccupantsBelow(starts: seq<int>, steps: seq<seq<int>>, pos: int, n: nat): (occ: seq<TokenRef>)
    requires |steps| == |starts| && n <= |steps|
    ensures forall i :: 0 <= i < |occ| ==> occ[i].player < n && OnSquare(starts, steps, occ[i], pos)
    ensures forall q, u :: 0 <= q < n && 0 <= u < |steps[q]| && OnSquare(starts, steps, TokenRef(q, u), pos) ==>
      TokenRef(q, u) in occ
    ensures forall i, j :: 0 <= i < j < |occ| ==> ScannedBefore(occ[i], occ[j])
    decreases n
  {
    if n == 0 then []
    else
      var earlier := OccupantsBelow(starts, steps, pos, n - 1);
      var mine := PlayerOccupants(n - 1, starts[n - 1], steps[n - 1], pos, |steps[n - 1]|);
      PlayerOccupantsMembers(n - 1, starts[n - 1], steps[n - 1], pos, |steps[n - 1]|);
      assert forall i :: 0 <= i < |mine| ==> OnSquare(starts, steps, mine[i], pos);
      earlier + mine
  }

  /**
   * The tokens standing on track square `pos`: exactly those whose absolute
   * position is `pos`, each once, in scan order.
   */
  function OccupantsAt(starts: seq<int>, steps: seq<seq<int>>, pos: int): (occ: seq<TokenRef>)
    requires |steps| == |starts|
    ensures forall r :: r in occ <==> OnSquare(starts, steps, r, pos)
    ensures forall i, j :: 0 <= i < j < |occ| ==> ScannedBefore(occ[i], occ[j])
  {
    var occ := OccupantsBelow(starts, steps, pos, |steps|);
    assert forall r :: OnSquare(starts, steps, r, pos) ==> r in occ by {
      forall r | OnSquare(starts, steps, r, pos) ensures r in occ {
        assert TokenRef(r.player, r.token) == r;
      }
    }
    occ
  }

  /** Tokens in the yard or the home column stand on no square. */
  lemma OffTrackTokensHaveNoSquare(starts: seq<int>, steps: seq<seq<int>>, r: TokenRef, pos: int)
    requires |steps| == |starts| && r.player < |steps| && r.token < |steps[r.player]|
    requires InYard(steps[r.player][r.token]) || InHome(steps[r.player][r.token])
    ensures r !in OccupantsAt(starts, steps, pos)
  {
  }

  /** No two different tokens stand on square `pos`. */
  ghost predicate AtMostOneOn(starts: seq<int>, steps: seq<seq<int>>, pos: int)
    requires |steps| == |starts|
  {
    forall a, b :: OnSquare(starts, steps, a, pos) && OnSquare(starts, steps, b, pos) ==> a == b
  }

  /** A square's occupant list has at most one entry exactly when no two different tokens stand there. */
  lemma AtMostOneOccupant(starts: seq<int>, steps: seq<seq<int>>, pos: int)
    requires |steps| == |starts|
    ensures |OccupantsAt(starts, steps, pos)| <= 1 <==> AtMostOneOn(starts, steps, pos)
  {
    var occ := OccupantsAt(starts, steps, pos);
    if |occ| > 1 {
      assert ScannedBefore(occ[0], occ[1]);
      assert occ[0] in occ && occ[1] in occ;
    }
  }

  // ---------------------------------------------------------------------
  // Scanning the board into a map of occupants

  /** `m` lists, for every square, the tokens of the first `n` players standing there. */
  ghost predicate ScannedPlayers(m: map<int, seq<TokenRef>>, starts: seq<int>, steps: seq<seq<int>>, n: nat)
    requires |steps| == |starts| && n <= |steps|
  {
    forall pos :: Collections.HoldsListAt(m, pos, OccupantsBelow(starts, steps, pos, n))
  }

  /** `m` lists, for every square, the tokens scanned before token `t` of player `p` standing there. */
  ghost predicate ScannedTokens(m: map<int, seq<TokenRef>>, starts: seq<int>, steps: seq<seq<int>>, p: nat, t: nat)
    requires |steps| == |starts| && p < |steps| && t <= |steps[p]|
  {
    forall pos :: Collections.HoldsListAt(m, pos,
      OccupantsBelow(starts, steps, pos, p) + PlayerOccupants(p, starts[p], steps[p], pos, t))
  }

  /** Starting on a player's tokens: nothing of that player is scanned yet. */
  lemma ScanStartsPlayer(m: map<int, seq<TokenRef>>, starts: seq<int>, steps: seq<seq<int>>, p: nat)
    requires |steps| == |starts| && p < |steps|
    requires ScannedPlayers(m, starts, steps, p)
    ensures ScannedTokens(m, starts, steps, p, 0)
  {
  }

  /** Scanning token `t` of player `p`: a token on the track is appended to the list of its square. */
  lemma ScanAddsToken(before: map<int, seq<TokenRef>>, after: map<int, seq<TokenRef>>,
                      starts: seq<int>, steps: seq<seq<int>>, p: nat, t: nat, next: nat)
    requires |steps| == |starts| && p < |steps| && next == t + 1 && next <= |steps[p]|
    requires ScannedTokens(before, starts, steps, p, t)
    requires var a := AbsolutePosition(steps[p][t], starts[p]);
      after == if a.Some? then before[a.value := (if a.value in before then before[a.value] else []) + [TokenRef(p, t)]]
               else before
    ensures ScannedTokens(after, starts, steps, p, next)
  {
    var a := AbsolutePosition(steps[p][t], starts[p]);
    forall pos
      ensures Collections.HoldsListAt(after, pos,
        OccupantsBelow(starts, steps, pos, p) + PlayerOccupants(p, starts[p], steps[p], pos, next))
    {
      PlayerOccupantsGrow(p, starts[p], steps[p], pos, t, next);
      Collections.AppendToListAt(before, after, a.Some?, if a.Some? then a.value else 0, TokenRef(p, t), pos,
        OccupantsBelow(starts, steps, pos, p), PlayerOccupants(p, starts[p], steps[p], pos, t),
        PlayerOccupants(p, starts[p], steps[p], pos, next));
    }
  }

  /** Finishing a player's tokens: the first `p + 1` players are scanned. */
  lemma ScanFinishesPlayer(m: map<int, seq<TokenRef>>, starts: seq<int>, steps: seq<seq<int>>, p: nat, next: nat)
    requires |steps| == |starts| && p < |steps| && next == p + 1
    requires ScannedTokens(m, starts, steps, p, |steps[p]|)
    ensures ScannedPlayers(m, starts, steps, next)
  {
    forall pos ensures Collections.HoldsListAt(m, pos, OccupantsBelow(starts, steps, pos, next)) {
      assert OccupantsBelow(starts, steps, pos, next) ==
        OccupantsBelow(starts, steps, pos, p) + PlayerOccupants(p, starts[p], steps[p], pos, |steps[p]|);
    }
  }

  /**
   * `m` maps exactly the occupied track squares, each to the tokens standing
   * there in scanning order.
   */
  ghost predicate OccupancyMap(m: map<int, seq<TokenRef>>, starts: seq<int>, steps: seq<seq<int>>)
    requires |steps| == |starts|
  {
    && (forall pos :: pos in m ==> m[pos] == OccupantsAt(starts, steps, pos))
    && (forall pos :: pos !in m ==> OccupantsAt(starts, steps, pos) == [])
    && (forall pos :: pos in m ==> m[pos] != [])
  }

  /** A map that lists the tokens of all players lists exactly the occupants of every square. */
  lemma ScanComplete(m: map<int, seq<TokenRef>>, starts: seq<int>, steps: seq<seq<int>>)
    requires |steps| == |starts| && ScannedPlayers(m, starts, steps, |steps|)
    ensures forall pos :: pos in m ==> m[pos] == OccupantsAt(starts, steps, pos)
    ensures forall pos :: pos !in m ==> OccupantsAt(starts, steps, pos) == []
    ensures forall pos :: pos in m ==> m[pos] != []
  {
    forall pos ensures pos !in m ==> OccupantsAt(starts, steps, pos) == [] {
      assert Collections.HoldsListAt(m, pos, OccupantsBelow(starts, steps, pos, |steps|));
    }
  }
}
