/**
 * The turn-advance rule shared by both game loops: after a turn that grants
 * no extra turn, play passes to the next seat, wrapping round after the last.
 */
module TurnOrder {

  /** The seat that acts after seat `current` of `n` when the turn ends. */
  function NextIndex(current: nat, n: nat, extraTurn: bool): (next: nat)
    requires current < n
    ensures next < n
    ensures extraTurn ==> next == current
    ensures !extraTurn && current + 1 < n ==> next == current + 1
    ensures !extraTurn && current + 1 == n ==> next == 0
  {
    if extraTurn then current else (current + 1) % n
  }

  /** The seat that acts after `k` consecutive turns without an extra turn. */
  function AfterPasses(current: nat, n: nat, k: nat): (seat: nat)
    requires current < n
    ensures seat < n
    decreases k
  {
    if k == 0 then current else NextIndex(AfterPasses(current, n, k - 1), n, false)
  }

  /** Within one round, passing the turn `k` times moves `k` seats round the table. */
  lemma {:induction false} AfterPassesRotates(current: nat, n: nat, k: nat)
    requires current < n && k <= n
    ensures AfterPasses(current, n, k) == if current + k < n then current + k else current + k - n
    decreases k
  {
    if k > 0 {
      AfterPassesRotates(current, n, k - 1);
    }
  }

  /** A full round of passes comes back to the same seat. */
  lemma FullRoundReturns(current: nat, n: nat)
    requires current < n
    ensures AfterPasses(current, n, n) == current
  {
    AfterPassesRotates(current, n, n);
  }

  /** Every seat gets a turn within `n` passes, starting from any seat. */
  lemma EverySeatGetsATurn(current: nat, n: nat, target: nat)
    requires current < n && target < n
    ensures exists k: nat :: k < n && AfterPasses(current, n, k) == target
  {
    var k: nat := if current <= target then target - current else n - current + target;
    AfterPassesRotates(current, n, k);
  }
}
