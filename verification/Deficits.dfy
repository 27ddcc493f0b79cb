/** How the deficit runs down, and what that says about challenge blocks. */
module Deficits {
  import opened Ledger
  import opened PotIterations
  import opened HeaderChain
  import opened HeaderRules

  lemma DeficitRule(c: Constants, chain: seq<Record>, n: nat, i: nat)
    requires ValidUpTo(c, chain, n) && i < n
    ensures chain[i].deficit == CalculateDeficit(c, PrevDeficit(chain, i), chain[i].overflow, |chain[i].slots|)
  {
    assert StructuralAt(c, chain, n, i);
  }

  lemma {:induction false} DeficitRange(c: Constants, chain: seq<Record>, n: nat, i: nat)
    requires Sane(c) && ValidUpTo(c, chain, n) && i < n
    ensures chain[i].deficit <= c.minBlocks
  {
    DeficitRule(c, chain, n, i);
    if i > 0 { DeficitRange(c, chain, n, i - 1); }
  }

  /** Below the maximum the deficit goes down by one with every block until it is paid off. */
  lemma {:induction false} PayOff(c: Constants, chain: seq<Record>, n: nat, i: nat, k: nat)
    requires ValidUpTo(c, chain, n) && i + k < n && k <= chain[i].deficit < c.minBlocks
    ensures chain[i + k].deficit == chain[i].deficit - k
  {
    if k > 0 {
      PayOff(c, chain, n, i, k - 1);
      DeficitRule(c, chain, n, i + k);
    }
  }

  lemma {:induction false} StaysZero(c: Constants, chain: seq<Record>, n: nat, i: nat, j: nat)
    requires Sane(c) && ValidUpTo(c, chain, n) && i <= j < n && chain[i].deficit == 0
    requires forall k :: i < k <= j ==> !First(chain, k)
    ensures chain[j].deficit == 0
  {
    if i < j {
      StaysZero(c, chain, n, i, j - 1);
      DeficitRule(c, chain, n, j);
      assert !First(chain, j);
    }
  }

  /** Challenge blocks are at least MIN_BLOCKS_PER_CHALLENGE_BLOCK heights apart. */
  lemma ChallengesApart(c: Constants, chain: seq<Record>, n: nat, i: nat, j: nat)
    requires Sane(c) && ValidUpTo(c, chain, n) && i < j < n && IsChallenge(c, chain[i]) && IsChallenge(c, chain[j])
    ensures j - i >= c.minBlocks
  {
    if j - i < c.minBlocks { PayOff(c, chain, n, i, j - i); }
  }

  /** A sub-slot has at most one challenge block. */
  lemma {:induction false} OneChallengePerSlot(c: Constants, chain: seq<Record>, n: nat, i: nat, j: nat)
    requires Sane(c) && ValidUpTo(c, chain, n) && i < n && j < n && SlotFirst(chain, i) == SlotFirst(chain, j)
    requires IsChallenge(c, chain[i]) && IsChallenge(c, chain[j])
    ensures i == j
  {
    if i != j {
      var a, b := if i < j then i else j, if i < j then j else i;
      ChallengesApart(c, chain, n, a, b);
      PayOff(c, chain, n, a, c.minBlocks - 1);
      StaysZero(c, chain, n, a + c.minBlocks - 1, b);
    }
  }
}
