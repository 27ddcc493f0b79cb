/** The walk-backs along the infused challenge chain always end where the code expects. */
module InfusedChallenge {
  import opened Ledger
  import opened PotIterations
  import opened HeaderChain
  import opened HeaderRules
  import opened Deficits

  lemma SlotRule(c: Constants, chain: seq<Record>, n: nat, i: nat, k: nat)
    requires ValidUpTo(c, chain, n) && i < n && k < |chain[i].slots|
    ensures SlotIccOk(c, chain, i, k) && SlotDeficitOk(c, chain, i, k)
  {
    assert StructuralAt(c, chain, n, i);
    assert SlotOk(c, chain, i, k);
  }

  lemma IccPresence(c: Constants, chain: seq<Record>, n: nat, i: nat)
    requires ValidUpTo(c, chain, n) && i < n
    ensures chain[i].iccIp <==> i > 0 && chain[i].deficit < c.minBlocks - 1
  {
    assert StructuralAt(c, chain, n, i);
  }

  /** The slots finished before block `i`, up to `k`, pass their checks. */
  ghost predicate SlotsPass(c: Constants, chain: seq<Record>, i: nat, k: nat)
    requires i < |chain| && k <= |chain[i].slots|
  {
    forall m :: 0 <= m < k ==> SlotIccOk(c, chain, i, m) && SlotDeficitOk(c, chain, i, m)
  }

  lemma AllSlotsPass(c: Constants, chain: seq<Record>, n: nat, i: nat)
    requires ValidUpTo(c, chain, n) && i < n
    ensures SlotsPass(c, chain, i, |chain[i].slots|)
  {
    forall m | 0 <= m < |chain[i].slots| ensures SlotIccOk(c, chain, i, m) && SlotDeficitOk(c, chain, i, m) {
      SlotRule(c, chain, n, i, m);
    }
  }

  /** While a deficit is being paid off, every finished slot carries an infused challenge slot. */
  lemma {:induction false} SlotsHaveIcc(c: Constants, chain: seq<Record>, i: nat, k: nat)
    requires 0 < i < |chain| && k < |chain[i].slots| && SlotsPass(c, chain, i, k + 1) &&
      0 < chain[i - 1].deficit < c.minBlocks
    ensures chain[i].slots[k].icc.Some?
  {
    assert SlotIccOk(c, chain, i, k);
    if k > 0 {
      assert SlotDeficitOk(c, chain, i, k - 1);
      SlotsHaveIcc(c, chain, i, k - 1);
    }
  }

  lemma {:induction false} StaysMax(c: Constants, chain: seq<Record>, n: nat, s: nat, j: nat)
    requires Sane(c) && ValidUpTo(c, chain, n) && s <= j < n && chain[s].deficit == c.minBlocks
    requires forall k :: s < k <= j ==> !IsChallenge(c, chain[k]) && !First(chain, k)
    ensures chain[j].deficit == c.minBlocks
  {
    if s < j {
      StaysMax(c, chain, n, s, j - 1);
      DeficitRule(c, chain, n, j);
      assert !IsChallenge(c, chain[j]) && !First(chain, j);
    }
  }

  /** With a deficit below the maximum, a slot without a challenge block so far began while a deficit was
      being paid off. */
  lemma StopBelow(c: Constants, chain: seq<Record>, n: nat, j: nat)
    requires Sane(c) && ValidUpTo(c, chain, n) && j < n && chain[j].deficit < c.minBlocks
    ensures var s := IccStop(c, chain, j); IsChallenge(c, chain[s]) || (0 < s && 0 < chain[s - 1].deficit < c.minBlocks)
  {
    var s := IccStop(c, chain, j);
    DeficitRule(c, chain, n, s);
    DeficitRange(c, chain, n, s);
    if chain[s].deficit == c.minBlocks { StaysMax(c, chain, n, s, j); }
  }

  lemma {:induction false} IccHashesLast(slots: seq<SubSlot>)
    requires slots != [] && forall k :: 0 <= k < |slots| ==> slots[k].icc.Some?
    ensures var list := IccHashes(slots); list != [] && list[|list| - 1] == slots[|slots| - 1].icc.value.hash
  {
    if |slots| > 1 {
      IccHashesLast(slots[1..]);
      assert slots[1..][|slots| - 2] == slots[|slots| - 1];
    }
  }

  /** The walk-back stops at a challenge block of the slot, or at the slot's first block, whose list of
      infused slots is not empty and ends with the slot finished last. */
  lemma WalkBackStops(c: Constants, chain: seq<Record>, n: nat, j: nat)
    requires Sane(c) && ValidUpTo(c, chain, n) && j < n && chain[j].deficit < c.minBlocks
    ensures var s := IccStop(c, chain, j); var slots := chain[s].slots; var list := IccHashes(slots);
      IsChallenge(c, chain[s]) ||
      (slots != [] && slots[|slots| - 1].icc.Some? && list != [] &&
       list[|list| - 1] == slots[|slots| - 1].icc.value.hash)
  {
    StopBelow(c, chain, n, j);
    var s := IccStop(c, chain, j);
    if !IsChallenge(c, chain[s]) {
      AllSlotsPass(c, chain, n, s);
      forall k | 0 <= k < |chain[s].slots| ensures chain[s].slots[k].icc.Some? { SlotsHaveIcc(c, chain, s, k); }
      IccHashesLast(chain[s].slots);
    }
  }

  /** No look-up for a finished slot raises; for the first one the VDF has an input, the default one after a challenge
      block and the previous block's output otherwise. */
  lemma SlotIccNeverRaises(c: Constants, chain: seq<Record>, i: nat, k: nat)
    requires Sane(c) && ValidUpTo(c, chain, i) && 0 < i < |chain| && k < |chain[i].slots| && SlotsPass(c, chain, i, k)
    ensures !SlotIcc(c, chain, i, k).Raises?
    ensures k == 0 && SlotIcc(c, chain, i, k).Needs? ==> IsChallenge(c, chain[i - 1]) || chain[i - 1].iccIp
  {
    if chain[i - 1].deficit < c.minBlocks {
      IccPresence(c, chain, i, i - 1);
      DeficitRule(c, chain, i, 0);
      if k == 0 {
        WalkBackStops(c, chain, i, i - 1);
      } else {
        assert SlotDeficitOk(c, chain, i, k - 1);
        if chain[i - 1].deficit > 0 { SlotsHaveIcc(c, chain, i, k - 1); }
      }
    }
  }

  /** Nor does the check of the infused challenge at the infusion point. */
  lemma InfusedNeverRaises(c: Constants, chain: seq<Record>, i: nat)
    requires Sane(c) && ValidUpTo(c, chain, i) && i < |chain| && SlotsPass(c, chain, i, |chain[i].slots|)
    requires chain[i].deficit == CalculateDeficit(c, PrevDeficit(chain, i), chain[i].overflow, |chain[i].slots|)
    requires chain[i].iccIp ==> chain[i].deficit < c.minBlocks - 1
    ensures InfusedOk(c, chain, i)
  {
    if chain[i].iccIp && i > 0 {
      DeficitRange(c, chain, i, i - 1);
      if chain[i].slots == [] {
        WalkBackStops(c, chain, i, i - 1);
        IccPresence(c, chain, i, i - 1);
        DeficitRule(c, chain, i, 0);
      } else {
        SlotsHaveIcc(c, chain, i, |chain[i].slots| - 1);
      }
    }
  }
}
