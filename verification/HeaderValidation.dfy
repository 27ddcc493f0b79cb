/** Validation of a header block: the last record of `chain`, on top of all others. Every walk-back ends, and no
    assertion of the code on what is looked up fails. */
module HeaderValidation {
  import opened Ledger
  import opened PotIterations
  import opened HeaderChain
  import opened EpochRules
  import opened HeaderRules
  import opened Slots
  import opened TxSpacing
  import opened InfusedChallenge
  import opened DifficultyAdjustment
  import opened SignagePointCode

  // ---- finished slots ----

  method BackToIccStop(c: Constants, chain: seq<Record>, j: nat) returns (s: nat)
    requires j < |chain|
    ensures s == IccStop(c, chain, j)
  {
    s := j;
    while !IsChallenge(c, chain[s]) && !First(chain, s)
      invariant s <= j && IccStop(c, chain, s) == IccStop(c, chain, j)
      decreases s
    {
      s := s - 1;
    }
  }

  method CollectIccHashes(slots: seq<SubSlot>) returns (list: seq<Hash>)
    ensures list == IccHashes(slots)
  {
    list := [];
    for k := 0 to |slots|
      invariant list + IccHashes(slots[k..]) == IccHashes(slots)
    {
      assert slots[k..][1..] == slots[k + 1..];
      if slots[k].icc.Some? { list := list + [slots[k].icc.value.hash]; }
    }
    assert slots[|slots|..] == [];
  }

  /** The infused challenge VDF the slot has to carry, if any. The look-ups of the code succeed. */
  method ExpectedSlotIcc(c: Constants, chain: seq<Record>, i: nat, k: nat) returns (vdf: Option<Vdf>)
    requires Sane(c) && ValidUpTo(c, chain, i) && 0 < i < |chain| && k < |chain[i].slots| && SlotsPass(c, chain, i, k)
    ensures SlotIcc(c, chain, i, k) == if vdf.None? then NoIcc else Needs(vdf.value)
  {
    SlotIccNeverRaises(c, chain, i, k);
    var prev := chain[i - 1];
    if prev.deficit >= c.minBlocks { return None; }
    if k > 0 {
      var before := chain[i].slots[k - 1];
      if before.rcDeficit >= c.minBlocks { return None; }
      return Some(Vdf(before.icc.value.hash, prev.ssi));
    }
    var curr := BackToIccStop(c, chain, i - 1);
    if IsChallenge(c, chain[curr]) {
      return Some(Vdf(chain[curr].challengeInfo, prev.ssi - chain[curr].ipIters));
    }
    var list := CollectIccHashes(chain[curr].slots);
    return Some(Vdf(list[|list| - 1], prev.ssi));
  }

  method CheckSlotIcc(c: Constants, chain: seq<Record>, i: nat, k: nat) returns (ok: bool)
    requires Sane(c) && ValidUpTo(c, chain, i) && i < |chain| && k < |chain[i].slots| && SlotsPass(c, chain, i, k)
    ensures ok <==> SlotIccOk(c, chain, i, k)
  {
    var s := chain[i].slots[k];
    if i == 0 { return s.icc.None?; }
    var vdf := ExpectedSlotIcc(c, chain, i, k);
    if s.icc.None? != vdf.None? { return false; }
    if s.icc.None? { return s.ccIcc.None? && s.rcIcc.None?; }
    if s.icc.value.vdf != vdf.value { return false; }
    if s.rcDeficit == c.minBlocks {
      if s.ccIcc != Some(s.icc.value.hash) { return false; }
    } else {
      if s.ccIcc.Some? { return false; }
    }
    return s.rcIcc == Some(s.icc.value.hash);
  }

  method CheckSlotChallenge(chain: seq<Record>, i: nat, k: nat) returns (ok: bool)
    requires i < |chain| && k < |chain[i].slots|
    ensures ok <==> SlotChallengeOk(chain, i, k)
  {
    var before := GENESIS_CHALLENGE;
    if k > 0 {
      before := chain[i].slots[k - 1].ccHash;
    } else if i > 0 {
      var f := BackToSlotFirst(chain, i - 1);
      before := LastEnd(chain[f]).cc;
    }
    return chain[i].slots[k].ccVdf.challenge == before;
  }

  method CheckSlot(c: Constants, chain: seq<Record>, i: nat, k: nat, epoch: bool) returns (ok: bool)
    requires Sane(c) && ValidUpTo(c, chain, i) && i < |chain| && k < |chain[i].slots| && SlotsPass(c, chain, i, k)
    requires epoch <==> i > 0 && CanFinishEpoch(c, chain, i - 1)
    ensures ok <==> SlotOk(c, chain, i, k)
  {
    var r, s := chain[i], chain[i].slots[k];
    ok := CheckSlotChallenge(chain, i, k);
    if !ok { return; }
    var icc := CheckSlotIcc(c, chain, i, k);
    if !icc { return false; }
    if k != 0 && s.summary.Some? { return false; }
    if epoch && s.summary.Some? {
      if s.newSsi != Some(r.ssi) { return false; }
      if s.newDifficulty.None? || s.newDifficulty.value != Difficulty(chain, i) { return false; }
    } else {
      if s.newSsi.Some? || s.newDifficulty.Some? { return false; }
    }
    return SlotVdfOk(c, chain, i, k) && SlotDeficitOk(c, chain, i, k);
  }

  lemma SlotPasses(c: Constants, chain: seq<Record>, i: nat, k: nat)
    requires i < |chain| && k < |chain[i].slots| && SlotsPass(c, chain, i, k) && SlotOk(c, chain, i, k)
    ensures SlotsPass(c, chain, i, k + 1)
  {
  }

  method CheckSlots(c: Constants, chain: seq<Record>, i: nat, epoch: bool) returns (ok: bool)
    requires Sane(c) && ValidUpTo(c, chain, i) && i < |chain|
    requires epoch <==> i > 0 && CanFinishEpoch(c, chain, i - 1)
    ensures ok <==> forall k :: 0 <= k < |chain[i].slots| ==> SlotOk(c, chain, i, k)
    ensures ok ==> SlotsPass(c, chain, i, |chain[i].slots|)
  {
    for k := 0 to |chain[i].slots|
      invariant SlotsPass(c, chain, i, k)
      invariant forall m :: 0 <= m < k ==> SlotOk(c, chain, i, m)
    {
      var pass := CheckSlot(c, chain, i, k, epoch);
      if !pass { return false; }
      SlotPasses(c, chain, i, k);
    }
    return true;
  }

  // ---- the summary ----

  /** Looks for the previous summary from two blocks below. */
  method MakeSummary(c: Constants, chain: seq<Record>, i: nat) returns (ok: bool)
    requires Sane(c) && i < |chain|
    ensures ok <==> CanMakeSummary(c, chain, i)
  {
    if TakenAsFirst(c, i) { return true; }
    var curr := i - 2;
    while curr >= 0 && !HasSummary(chain[curr])
      invariant curr < i - 1 && (curr >= 0 ==> LastSummary(chain, i - 2) == LastSummary(chain, curr))
      invariant curr < 0 ==> LastSummary(chain, i - 2) < 0
      decreases curr
    {
      curr := curr - 1;
    }
    return curr >= 0 && curr % c.subEpoch < 256;
  }

  method CheckSummary(c: Constants, chain: seq<Record>, i: nat, subEpoch: bool) returns (ok: bool)
    requires Sane(c) && i < |chain|
    requires subEpoch <==> i > 0 && chain[i].slots != [] && CanFinishSubEpoch(c, chain, i - 1)
    ensures ok <==> SummaryOk(c, chain, i)
  {
    if HasSummary(chain[i]) {
      if !subEpoch { return false; }
      ok := MakeSummary(c, chain, i);
    } else {
      ok := !subEpoch;
    }
  }

  method CheckSlotSize(c: Constants, chain: seq<Record>, i: nat) returns (ok: bool)
    requires Sane(c) && i < |chain|
    ensures ok <==> SlotSizeOk(c, chain, i)
  {
    if First(chain, i) { return true; }
    var blocks, curr := 2, i - 1;
    while !First(chain, curr)
      invariant 0 <= curr < i && blocks == i - curr + 1 && SlotFirst(chain, curr) == SlotFirst(chain, i - 1)
      decreases curr
    {
      blocks := blocks + 1;
      curr := curr - 1;
    }
    return blocks <= c.maxSlotBlocks;
  }

  // ---- iterations and transaction blocks ----

  /** Adds up the iterations step by step, as the code does. */
  method CheckIters(c: Constants, chain: seq<Record>, i: nat) returns (ok: bool)
    requires Sane(c) && ValidUpTo(c, chain, i) && i < |chain| && SlotLengthsOk(c, chain, i)
    ensures ok <==> ItersRight(c, chain, i)
  {
    ItersExact(c, chain, i);
    var r := chain[i];
    if r.spIndex >= c.numSps || r.ssi % c.numSps != 0 { return false; }
    if r.required == 0 || r.required >= r.ssi / c.numSps { return false; }
    if r.overflow != IsOverflow(c, r.spIndex) { return false; }
    var ip := IpIters(c, r.ssi, r.spIndex, r.required);
    var total: int := r.ssi * |r.slots|;
    if i > 0 {
      total := chain[i - 1].totalIters;
      if r.slots != [] {
        total := total + chain[i - 1].ssi - chain[i - 1].ipIters;
        total := total + r.ssi * (|r.slots| - 1);
      } else {
        total := total - chain[i - 1].ipIters;
      }
    }
    total := total + ip;
    if r.ipIters != ip || r.totalIters != total { return false; }
    var spTotal := total - ip + SpIters(c, r.ssi, r.spIndex) - if r.overflow then r.ssi else 0;
    if r.spTotal != spTotal || spTotal < 0 { return false; }
    return First(chain, i) || chain[i - 1].totalIters <= r.totalIters;
  }

  /** Walks back to the last transaction block; block 0 is one. */
  method CheckTx(c: Constants, chain: seq<Record>, i: nat) returns (ok: bool)
    requires Sane(c) && ValidUpTo(c, chain, i) && i < |chain|
    ensures ok <==> TxOk(chain, i)
  {
    var r := chain[i];
    if i == 0 { return IsTx(r); }
    TxRule(c, chain, i, 0);
    var curr := i - 1;
    while !IsTx(chain[curr])
      invariant 0 <= curr < i && LastTxAt(chain, i - 1) == LastTxAt(chain, curr)
      decreases curr
    {
      curr := curr - 1;
    }
    if (r.spTotal > chain[curr].totalIters) != IsTx(r) { return false; }
    return IsTx(r) ==> r.timestamp.value > chain[curr].timestamp.value;
  }

  lemma ItersStated(c: Constants, chain: seq<Record>, i: nat)
    requires Sane(c) && ValidUpTo(c, chain, i) && i < |chain| && ParamsOk(c, chain, i)
    requires forall k :: 0 <= k < |chain[i].slots| ==> SlotOk(c, chain, i, k)
    ensures SlotLengthsOk(c, chain, i) && (ItersOk(c, chain, i) <==> ItersRight(c, chain, i))
  {
    forall k | 0 <= k < |chain[i].slots| ensures SlotVdfOk(c, chain, i, k) { assert SlotOk(c, chain, i, k); }
    ItersExact(c, chain, i);
  }

  // ---- the whole header ----

  /** The index serves the look-up of the previous epoch, where one is made: for a new slot at an epoch's end. */
  ghost predicate IndexServes(c: Constants, chain: seq<Record>, index: Index, i: nat)
    requires i < |chain|
  {
    i > 0 && chain[i].slots != [] && CanFinishEpoch(c, chain, i - 1) ==> EpochFollowed(c, chain, index, i - 1)
  }

  method CheckParams(c: Constants, chain: seq<Record>, index: Index, i: nat) returns (ok: bool)
    requires Sane(c) && ValidUpTo(c, chain, i) && i < |chain| && IndexServes(c, chain, index, i)
    ensures ok <==> ParamsOk(c, chain, i)
  {
    var r := chain[i];
    if i == 0 { return r.ssi == c.ssiStarting && r.weight == c.difficultyStarting; }
    var ssi, difficulty := NextParams(c, chain, index, i - 1, r.slots != [], i);
    return r.ssi == ssi && r.weight == chain[i - 1].weight + difficulty;
  }

  method CheckSignagePoint(c: Constants, chain: seq<Record>, i: nat) returns (ok: bool)
    requires i < |chain|
    ensures ok <==> SignagePointOk(c, chain, i)
  {
    var r := chain[i];
    var spIters := SpIters(c, r.ssi, r.spIndex);
    var challenge := GetBlockChallenge(chain, i, r.slots, r.overflow, false);
    if challenge != Some(r.posChallenge) { return false; }
    var v := GetSignagePointVdfInfo(chain, i, r.slots, r.overflow, r.spTotal, spIters);
    if v.None? { return false; }
    if r.spIndex == 0 { return r.ccSp.None? && r.rcSp.None?; }
    return r.ccSp == Some(Vdf(v.value.cc, spIters)) && r.rcSp == Some(Vdf(v.value.rc, v.value.iters));
  }

  /** Deficit, presence of the infused challenge VDF, and size of the slot. */
  method CheckDeficit(c: Constants, chain: seq<Record>, i: nat) returns (ok: bool)
    requires Sane(c) && i < |chain|
    ensures ok <==>
      && chain[i].deficit == CalculateDeficit(c, PrevDeficit(chain, i), chain[i].overflow, |chain[i].slots|)
      && (chain[i].iccIp <==> i > 0 && chain[i].deficit < c.minBlocks - 1)
  {
    var r := chain[i];
    var prev := if i == 0 then None else Some(chain[i - 1].deficit);
    if r.deficit != CalculateDeficit(c, prev, r.overflow, |r.slots|) { return false; }
    return if i == 0 then !r.iccIp else r.iccIp == (r.deficit < c.minBlocks - 1);
  }

  /** The structural checks. Whether a sub-epoch or epoch can end is only asked for a new slot. */
  method CheckStructure(c: Constants, chain: seq<Record>, index: Index, i: nat) returns (ok: bool)
    requires Sane(c) && ValidUpTo(c, chain, i) && i < |chain| && IndexServes(c, chain, index, i)
    ensures ok <==> Structural(c, chain, i)
    ensures ok ==> SlotsPass(c, chain, i, |chain[i].slots|)
  {
    var r := chain[i];
    if r.height != i || !r.authentic { return false; }
    var subEpoch, epoch := false, false;
    if i > 0 && r.slots != [] {
      subEpoch, epoch := CanFinishSubAndFullEpoch(c, chain, i - 1);
    }
    ok := CheckParams(c, chain, index, i);
    if !ok { return; }
    ok := CheckDeficit(c, chain, i);
    if !ok { return; }
    ok := CheckAllSlots(c, chain, i, epoch);
    if !ok { return; }
    ok := CheckSummary(c, chain, i, subEpoch);
    if !ok { return; }
    ok := CheckSlotSize(c, chain, i);
    if !ok { return; }
    ItersStated(c, chain, i);
    ok := CheckIters(c, chain, i);
    if !ok { return; }
    if r.overflow && epoch && |r.slots| < 2 { return false; }
    ok := CheckTx(c, chain, i);
  }

  method CheckAllSlots(c: Constants, chain: seq<Record>, i: nat, epoch: bool) returns (ok: bool)
    requires Sane(c) && ValidUpTo(c, chain, i) && i < |chain|
    requires chain[i].slots != [] ==> (epoch <==> i > 0 && CanFinishEpoch(c, chain, i - 1))
    ensures ok <==> forall k :: 0 <= k < |chain[i].slots| ==> SlotOk(c, chain, i, k)
    ensures ok ==> SlotsPass(c, chain, i, |chain[i].slots|)
  {
    if |chain[i].slots| == 0 { return true; }
    ok := CheckSlots(c, chain, i, epoch);
  }

  /** The code's verdict is the acceptance rule; an accepted block extends the valid chain. The look-ups along the
      infused challenge chain need no check of their own. */
  method ValidateHeader(c: Constants, chain: seq<Record>, index: Index) returns (ok: bool)
    requires Sane(c) && chain != [] && ValidUpTo(c, chain, |chain| - 1) && IndexServes(c, chain, index, |chain| - 1)
    ensures ok <==> Accepted(c, chain, |chain| - 1)
    ensures ok ==> ValidUpTo(c, chain, |chain|)
  {
    var i := |chain| - 1;
    ok := CheckStructure(c, chain, index, i);
    if !ok { return; }
    InfusedNeverRaises(c, chain, i);
    ok := CheckSignagePoint(c, chain, i);
    ExtendValid(c, chain, i);
  }
}
