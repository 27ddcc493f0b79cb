/** When a header block is accepted on top of its ancestors, check by check. */
module HeaderRules {
  import opened Ledger
  import opened PotIterations
  import opened HeaderChain
  import opened EpochRules

  /** The deficit of a block: how many more blocks until the next challenge block can be made. */
  function CalculateDeficit(c: Constants, prev: Option<nat>, overflow: bool, finishedSlots: nat): int {
    if prev.None? then c.minBlocks - 1
    else if prev.value == c.minBlocks then
      if overflow && finishedSlots == 0 then c.minBlocks else c.minBlocks - 1
    else if prev.value == 0 then
      if finishedSlots == 0 then 0
      else if finishedSlots == 1 && overflow then c.minBlocks
      else c.minBlocks - 1
    else prev.value - 1
  }

  function PrevDeficit(chain: seq<Record>, i: nat): Option<nat>
    requires i < |chain|
  {
    if i == 0 then None else Some(chain[i - 1].deficit)
  }

  // ---- the finished slots ----

  predicate SlotChallengeOk(chain: seq<Record>, i: nat, k: nat)
    requires i < |chain| && k < |chain[i].slots|
  {
    chain[i].slots[k].ccVdf.challenge ==
      if k > 0 then chain[i].slots[k - 1].ccHash
      else if i == 0 then GENESIS_CHALLENGE
      else LastEnd(chain[SlotFirst(chain, i - 1)]).cc
  }

  predicate SlotIccOk(c: Constants, chain: seq<Record>, i: nat, k: nat)
    requires i < |chain| && k < |chain[i].slots|
  {
    var s := chain[i].slots[k];
    if i == 0 then s.icc.None?
    else match SlotIcc(c, chain, i, k)
      case Raises => false
      case NoIcc => s.icc.None? && s.ccIcc.None? && s.rcIcc.None?
      case Needs(vdf) =>
        && s.icc.Some? && s.icc.value.vdf == vdf && s.rcIcc == Some(s.icc.value.hash)
        && s.ccIcc == if s.rcDeficit == c.minBlocks then Some(s.icc.value.hash) else None
  }

  ghost predicate SlotParamsOk(c: Constants, chain: seq<Record>, i: nat, k: nat)
    requires i < |chain| && k < |chain[i].slots|
  {
    var s := chain[i].slots[k];
    && (k > 0 ==> s.summary.None?)
    && if i > 0 && CanFinishEpoch(c, chain, i - 1) && s.summary.Some?
       then s.newSsi == Some(chain[i].ssi) && s.newDifficulty.Some? && s.newDifficulty.value == Difficulty(chain, i)
       else s.newSsi.None? && s.newDifficulty.None?
  }

  predicate SlotVdfOk(c: Constants, chain: seq<Record>, i: nat, k: nat)
    requires i < |chain| && k < |chain[i].slots|
  {
    var r, s := chain[i], chain[i].slots[k];
    && s.ccHash == s.rcCcHash
    && s.rcVdf == (if k > 0 then Vdf(r.slots[k - 1].rcHash, r.ssi)
                   else if i == 0 then Vdf(GENESIS_CHALLENGE, r.ssi)
                   else Vdf(chain[i - 1].rcInfusion, chain[i - 1].ssi - chain[i - 1].ipIters))
    && s.ccVdf.iters == if i == 0 then c.ssiStarting else if k == 0 then chain[i - 1].ssi else r.ssi
  }

  predicate SlotDeficitOk(c: Constants, chain: seq<Record>, i: nat, k: nat)
    requires i < |chain| && k < |chain[i].slots|
  {
    chain[i].slots[k].rcDeficit == if i == 0 || chain[i - 1].deficit == 0 then c.minBlocks else chain[i - 1].deficit
  }

  ghost predicate SlotOk(c: Constants, chain: seq<Record>, i: nat, k: nat)
    requires i < |chain| && k < |chain[i].slots|
  {
    && SlotChallengeOk(chain, i, k) && SlotIccOk(c, chain, i, k) && SlotParamsOk(c, chain, i, k)
    && SlotVdfOk(c, chain, i, k) && SlotDeficitOk(c, chain, i, k)
  }

  // ---- the block ----

  /** The last block at or before `j` with a summary, or -1. */
  function LastSummary(chain: seq<Record>, j: int): (s: int)
    requires j < |chain|
    ensures -1 <= s && (s >= 0 ==> s <= j && HasSummary(chain[s]))
    ensures forall k :: s < k <= j ==> !HasSummary(chain[k])
    decreases if j < 0 then 0 else j + 1
  {
    if j < 0 then -1 else if HasSummary(chain[j]) then j else LastSummary(chain, j - 1)
  }

  /** The code takes a summary included this early for the first one, which has no predecessor. */
  predicate TakenAsFirst(c: Constants, i: nat) {
    c.subEpoch > 0 && (i + c.maxSlotBlocks) / c.subEpoch <= 1
  }

  /** A summary can be made: its predecessor is found, and the predecessor's offset in its window fits
      into a byte. */
  predicate CanMakeSummary(c: Constants, chain: seq<Record>, i: nat)
    requires i <= |chain|
  {
    var s := LastSummary(chain, i - 2);
    c.subEpoch > 0 && (TakenAsFirst(c, i) || (s >= 0 && s % c.subEpoch < 256))
  }

  ghost predicate SummaryOk(c: Constants, chain: seq<Record>, i: nat)
    requires i < |chain|
  {
    && (HasSummary(chain[i]) <==> i > 0 && chain[i].slots != [] && CanFinishSubEpoch(c, chain, i - 1))
    && (HasSummary(chain[i]) ==> CanMakeSummary(c, chain, i))
  }

  predicate SlotSizeOk(c: Constants, chain: seq<Record>, i: nat)
    requires i < |chain|
  {
    !First(chain, i) ==> i - SlotFirst(chain, i - 1) + 1 <= c.maxSlotBlocks
  }

  ghost predicate ParamsOk(c: Constants, chain: seq<Record>, i: nat)
    requires i < |chain|
  {
    var r := chain[i];
    if i == 0 then r.ssi == c.ssiStarting && r.weight == c.difficultyStarting
    else
      && NextSsi(c, chain, i - 1, r.slots != []) == Some(r.ssi)
      && NextDifficulty(c, chain, i - 1, r.slots != []) == Some(Difficulty(chain, i))
  }

  predicate SignagePointOk(c: Constants, chain: seq<Record>, i: nat)
    requires i < |chain|
  {
    var r := chain[i];
    var vdf := SignagePointVdf(chain, i, r.slots, r.overflow, r.spTotal, SpIters(c, r.ssi, r.spIndex));
    && BlockChallenge(chain, i, r.slots, r.overflow, false) == Some(r.posChallenge)
    && vdf.Some?
    && r.ccSp == (if r.spIndex == 0 then None else Some(Vdf(vdf.value.cc, SpIters(c, r.ssi, r.spIndex))))
    && r.rcSp == (if r.spIndex == 0 then None else Some(Vdf(vdf.value.rc, vdf.value.iters)))
  }

  /** Total iterations at the start of the block's slot, from the block before. */
  function ExpectedStart(chain: seq<Record>, i: nat): int
    requires i < |chain|
  {
    var r, n := chain[i], |chain[i].slots|;
    if i == 0 then r.ssi * n
    else
      var prev := chain[i - 1];
      if n > 0 then prev.totalIters + prev.ssi - prev.ipIters + r.ssi * (n - 1) else prev.totalIters - prev.ipIters
  }

  predicate ItersOk(c: Constants, chain: seq<Record>, i: nat)
    requires i < |chain|
  {
    var r := chain[i];
    && IterationsOk(c, r.ssi, r.spIndex, r.required) && r.overflow == IsOverflow(c, r.spIndex)
    && r.ipIters == IpIters(c, r.ssi, r.spIndex, r.required)
    && r.spTotal == RecordTotals(c, r.totalIters, r.overflow, r.ssi, r.spIndex, r.required).0 >= 0
    && r.totalIters == ExpectedStart(chain, i) + r.ipIters
    && (!First(chain, i) ==> chain[i - 1].totalIters <= r.totalIters)
  }

  ghost predicate EpochOverflowOk(c: Constants, chain: seq<Record>, i: nat)
    requires i < |chain|
  {
    i > 0 && chain[i].overflow && |chain[i].slots| == 1 ==> !CanFinishEpoch(c, chain, i - 1)
  }

  predicate TxOk(chain: seq<Record>, i: nat)
    requires i < |chain|
  {
    var r, t := chain[i], LastTxAt(chain, i - 1);
    if i == 0 then IsTx(r)
    else
      && t >= 0 && (IsTx(r) <==> r.spTotal > chain[t].totalIters)
      && (IsTx(r) ==> r.timestamp.value > chain[t].timestamp.value)
  }

  /** The infused challenge VDF at the infusion point can be checked: its challenge is found, and so is
      its input where that is the previous block's output. */
  predicate InfusedOk(c: Constants, chain: seq<Record>, i: nat)
    requires i < |chain|
  {
    chain[i].iccIp && i > 0 ==>
      && IpIccChallenge(c, chain, i).Some?
      && (chain[i].slots == [] ==> IsChallenge(c, chain[i - 1]) || chain[i - 1].iccIp)
  }

  /** All checks but those that follow VDFs back to where they start. */
  ghost predicate Structural(c: Constants, chain: seq<Record>, i: nat)
    requires i < |chain|
  {
    && chain[i].height == i && chain[i].authentic
    && chain[i].deficit == CalculateDeficit(c, PrevDeficit(chain, i), chain[i].overflow, |chain[i].slots|)
    && (chain[i].iccIp <==> i > 0 && chain[i].deficit < c.minBlocks - 1)
    && ParamsOk(c, chain, i) && ItersOk(c, chain, i)
    && (forall k :: 0 <= k < |chain[i].slots| ==> SlotOk(c, chain, i, k))
    && SummaryOk(c, chain, i) && SlotSizeOk(c, chain, i)
    && EpochOverflowOk(c, chain, i) && TxOk(chain, i)
  }

  ghost predicate Accepted(c: Constants, chain: seq<Record>, i: nat)
    requires i < |chain|
  {
    Structural(c, chain, i) && SignagePointOk(c, chain, i) && InfusedOk(c, chain, i)
  }

  /** The first `n` blocks pass the structural checks on top of the ones before them. */
  ghost predicate ValidUpTo(c: Constants, chain: seq<Record>, n: nat) {
    n <= |chain| && forall i :: StructuralAt(c, chain, n, i)
  }

  ghost predicate StructuralAt(c: Constants, chain: seq<Record>, n: nat, i: nat) {
    i < n && i < |chain| ==> Structural(c, chain, i)
  }

  lemma ExtendValid(c: Constants, chain: seq<Record>, i: nat)
    requires i < |chain| && ValidUpTo(c, chain, i) && Structural(c, chain, i)
    ensures ValidUpTo(c, chain, i + 1)
  {
    var n := i + 1;
    forall k: nat ensures StructuralAt(c, chain, n, k) {
      assert StructuralAt(c, chain, i, k);
    }
  }

  ghost predicate ValidHeaders(c: Constants, chain: seq<Record>) {
    forall i :: AcceptedAt(c, chain, i)
  }

  ghost predicate AcceptedAt(c: Constants, chain: seq<Record>, i: nat) {
    i < |chain| ==> Accepted(c, chain, i)
  }

  lemma AcceptedIsStructural(c: Constants, chain: seq<Record>)
    requires ValidHeaders(c, chain)
    ensures ValidUpTo(c, chain, |chain|)
  {
    forall i: nat ensures StructuralAt(c, chain, |chain|, i) { assert AcceptedAt(c, chain, i); }
  }

  /** A first block with the default constants: signage point 0 of the first slot, one iteration required. */
  function FirstRecord(): Record {
    var ip := 3 * 0x20_0000 + 1;
    Record(0, 0, 1, ip, 0, 1, 0x800_0000, ip, 0, 15, false, Some(0), [], GENESIS_CHALLENGE, None, None,
           false, 0, 0, true)
  }

  lemma FirstRecordAccepted()
    ensures ValidHeaders(DEFAULT_CONSTANTS, [FirstRecord()])
  {
    var c, r := DEFAULT_CONSTANTS, FirstRecord();
    assert Interval(c, r.ssi) == 0x20_0000;
    assert Accepted(c, [r], 0);
  }
}
