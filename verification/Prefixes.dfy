/** What the rules say about a block depends on the blocks up to it alone. */
module Prefixes {
  import opened Ledger
  import opened PotIterations
  import opened HeaderChain
  import opened EpochRules
  import opened HeaderRules

  /** The two chains have the first `n` blocks in common. */
  ghost predicate Same(a: seq<Record>, b: seq<Record>, n: nat) {
    n <= |a| && n <= |b| && forall k :: SameAt(a, b, n, k)
  }

  ghost predicate SameAt(a: seq<Record>, b: seq<Record>, n: nat, k: nat)
    requires n <= |a| && n <= |b|
  {
    k < n ==> a[k] == b[k]
  }

  lemma Shorter(a: seq<Record>, b: seq<Record>, n: nat, m: nat)
    requires Same(a, b, n) && m <= n
    ensures Same(a, b, m)
  {
    forall k: nat ensures SameAt(a, b, m, k) { assert SameAt(a, b, n, k); }
  }

  // ---- walking back ----

  lemma {:induction false} SlotFirstSame(a: seq<Record>, b: seq<Record>, n: nat, i: nat)
    requires Same(a, b, n) && i < n
    ensures SlotFirst(a, i) == SlotFirst(b, i)
  {
    assert SameAt(a, b, n, i);
    if !First(a, i) { SlotFirstSame(a, b, n, i - 1); }
  }

  lemma {:induction false} IccStopSame(c: Constants, a: seq<Record>, b: seq<Record>, n: nat, j: nat)
    requires Same(a, b, n) && j < n
    ensures IccStop(c, a, j) == IccStop(c, b, j)
  {
    assert SameAt(a, b, n, j);
    if !IsChallenge(c, a[j]) && !First(a, j) { IccStopSame(c, a, b, n, j - 1); }
  }

  lemma {:induction false} LastTxSame(a: seq<Record>, b: seq<Record>, n: nat, j: int)
    requires Same(a, b, n) && j < n
    ensures LastTxAt(a, j) == LastTxAt(b, j)
    decreases if j < 0 then 0 else j + 1
  {
    assert j >= 0 ==> SameAt(a, b, n, j);
    if j >= 0 && !IsTx(a[j]) { LastTxSame(a, b, n, j - 1); }
  }

  lemma {:induction false} LastSummarySame(a: seq<Record>, b: seq<Record>, n: nat, j: int)
    requires Same(a, b, n) && j < n
    ensures LastSummary(a, j) == LastSummary(b, j)
    decreases if j < 0 then 0 else j + 1
  {
    assert j >= 0 ==> SameAt(a, b, n, j);
    if j >= 0 && !HasSummary(a[j]) { LastSummarySame(a, b, n, j - 1); }
  }

  lemma {:induction false} FirstSummarySame(a: seq<Record>, b: seq<Record>, n: nat, low: nat, high: int)
    requires Same(a, b, n) && high < n
    ensures FirstSummary(a, low, high) == FirstSummary(b, low, high)
    decreases if low > high then 0 else high - low + 1
  {
    assert low <= high ==> SameAt(a, b, n, low);
    if low <= high && !HasSummary(a[low]) { FirstSummarySame(a, b, n, low + 1, high); }
  }

  lemma {:induction false} LastNotAfterSame(a: seq<Record>, b: seq<Record>, n: nat, j: int, sp: int)
    requires Same(a, b, n) && j < n
    ensures LastNotAfter(a, j, sp) == LastNotAfter(b, j, sp)
    decreases if j < 0 then 0 else j + 1
  {
    assert j >= 0 ==> SameAt(a, b, n, j);
    if j >= 0 && !(IsTx(a[j]) && a[j].totalIters <= sp) { LastNotAfterSame(a, b, n, j - 1, sp); }
  }

  lemma {:induction false} AllEndsSame(a: seq<Record>, b: seq<Record>, n: nat, j: int)
    requires Same(a, b, n) && j < n
    ensures AllEnds(a, j) == AllEnds(b, j)
    decreases if j < 0 then 0 else j + 1
  {
    assert j >= 0 ==> SameAt(a, b, n, j);
    if j >= 0 { AllEndsSame(a, b, n, j - 1); }
  }

  lemma {:induction false} WalkToSpSame(a: seq<Record>, b: seq<Record>, n: nat, j: nat, sp: int)
    requires Same(a, b, n) && j < n
    ensures WalkToSp(a, j, sp) == WalkToSp(b, j, sp)
  {
    assert SameAt(a, b, n, j);
    if !First(a, j) && a[j].totalIters > sp { WalkToSpSame(a, b, n, j - 1, sp); }
  }

  lemma {:induction false} TwoEndsStopSame(a: seq<Record>, b: seq<Record>, n: nat, j: nat, have: nat)
    requires Same(a, b, n) && j < n
    ensures TwoEndsStop(a, j, have) == TwoEndsStop(b, j, have)
  {
    assert SameAt(a, b, n, j);
    var now := have + if First(a, j) then |Ends(a[j])| else 0;
    if now < 2 && j > 0 { TwoEndsStopSame(a, b, n, j - 1, now); }
  }

  lemma {:induction false} LastBeforeSame(a: seq<Record>, b: seq<Record>, n: nat, j: int, low: nat, sp: int)
    requires Same(a, b, n) && j < n
    ensures LastBefore(a, j, low, sp) == LastBefore(b, j, low, sp)
    decreases if j < 0 then 0 else j + 1
  {
    assert j >= 0 ==> SameAt(a, b, n, j);
    if j >= low && a[j].totalIters >= sp { LastBeforeSame(a, b, n, j - 1, low, sp); }
  }

  // ---- epochs and parameters ----

  lemma CanFinishSame(c: Constants, a: seq<Record>, b: seq<Record>, n: nat, h: nat)
    requires Same(a, b, n) && h < n
    ensures CanFinishSubEpoch(c, a, h) <==> CanFinishSubEpoch(c, b, h)
    ensures CanFinishEpoch(c, a, h) <==> CanFinishEpoch(c, b, h)
  {
    assert SameAt(a, b, n, h);
    forall j: nat | j < h ensures a[j] == b[j] { assert SameAt(a, b, n, j); }
    assert forall j :: 0 <= j < h ==> (HasSummary(a[j]) <==> HasSummary(b[j]));
  }

  lemma SecondTxSame(a: seq<Record>, b: seq<Record>, n: nat, j: int)
    requires Same(a, b, n) && j < n
    ensures SecondTx(a, j) == SecondTx(b, j)
  {
    LastTxSame(a, b, n, j);
    if LastTxAt(a, j) > 0 { LastTxSame(a, b, n, LastTxAt(a, j) - 1); }
  }

  lemma BlockBeforeSame(c: Constants, a: seq<Record>, b: seq<Record>, n: nat, h: nat, mark: int)
    requires Same(a, b, n) && h < n
    ensures BlockBefore(c, a, h, mark) == BlockBefore(c, b, h, mark)
  {
    var high := mark + 2 * c.maxSlotBlocks + c.minBlocks + 1;
    if mark > 0 && high < h {
      FirstSummarySame(a, b, n, mark, high);
      SecondTxSame(a, b, n, FirstSummary(a, mark, high) - 1);
    }
  }

  lemma BlockBeforeBelow(c: Constants, a: seq<Record>, h: nat, mark: int)
    requires h < |a|
    ensures BlockBefore(c, a, h, mark).Some? ==> BlockBefore(c, a, h, mark).value <= h
  {
  }

  lemma PreviousEpochSame(c: Constants, a: seq<Record>, b: seq<Record>, n: nat, h: nat)
    requires Same(a, b, n) && h < n
    ensures PreviousEpochBlock(c, a, h) == PreviousEpochBlock(c, b, h)
    ensures PreviousEpochBlock(c, a, h).Some? ==> PreviousEpochBlock(c, a, h).value <= h
  {
    forall mark ensures BlockBefore(c, a, h, mark) == BlockBefore(c, b, h, mark) {
      BlockBeforeSame(c, a, b, n, h, mark);
    }
    forall mark ensures BlockBefore(c, a, h, mark).Some? ==> BlockBefore(c, a, h, mark).value <= h {
      BlockBeforeBelow(c, a, h, mark);
    }
  }

  lemma ComparableSame(c: Constants, a: seq<Record>, b: seq<Record>, n: nat, p: nat, q: int)
    requires Same(a, b, n) && p < n && q < n
    ensures Comparable(a, p, q) <==> Comparable(b, p, q)
    ensures Comparable(a, p, q) ==> PreciseSsi(c, a, p, q) == PreciseSsi(c, b, p, q)
    ensures Comparable(a, p, q) ==> PreciseDifficulty(c, a, p, q) == PreciseDifficulty(c, b, p, q)
  {
    assert SameAt(a, b, n, p) && (q >= 0 ==> SameAt(a, b, n, q));
  }

  lemma DifficultySame(a: seq<Record>, b: seq<Record>, n: nat, i: nat)
    requires Same(a, b, n) && i < n
    ensures Difficulty(a, i) == Difficulty(b, i)
  {
    assert SameAt(a, b, n, i) && (i > 0 ==> SameAt(a, b, n, i - 1));
  }

  lemma {:induction false} MeasuredSame(c: Constants, a: seq<Record>, b: seq<Record>, n: nat, h: nat)
    requires Same(a, b, n) && h < n
    ensures var p, q := PreviousEpochBlock(c, a, h), LastNotAfter(a, h - 1, a[h].spTotal);
      && p == PreviousEpochBlock(c, b, h) && q == LastNotAfter(b, h - 1, b[h].spTotal)
      && (p.Some? ==> p.value <= h) && (q >= 0 ==> SameAt(a, b, n, q))
  {
    assert SameAt(a, b, n, h);
    PreviousEpochSame(c, a, b, n, h);
    LastNotAfterSame(a, b, n, h - 1, a[h].spTotal);
  }

  lemma AdjustedSsiSame(c: Constants, a: seq<Record>, b: seq<Record>, n: nat, h: nat)
    requires Same(a, b, n) && h < n
    ensures AdjustedSsi(c, a, h) == AdjustedSsi(c, b, h)
  {
    MeasuredSame(c, a, b, n, h);
    var p, q := PreviousEpochBlock(c, a, h), LastNotAfter(a, h - 1, a[h].spTotal);
    if p.Some? { ComparableSame(c, a, b, n, p.value, q); }
  }

  lemma AdjustedDifficultySame(c: Constants, a: seq<Record>, b: seq<Record>, n: nat, h: nat)
    requires Same(a, b, n) && h < n
    ensures AdjustedDifficulty(c, a, h) == AdjustedDifficulty(c, b, h)
  {
    MeasuredSame(c, a, b, n, h);
    var p, q := PreviousEpochBlock(c, a, h), LastNotAfter(a, h - 1, a[h].spTotal);
    if p.Some? { ComparableSame(c, a, b, n, p.value, q); }
    if h > 0 { DifficultySame(a, b, n, h - 1); }
  }

  lemma NextSame(c: Constants, a: seq<Record>, b: seq<Record>, n: nat, h: nat, newSlot: bool)
    requires Same(a, b, n) && h < n
    ensures NextSsi(c, a, h, newSlot) == NextSsi(c, b, h, newSlot)
    ensures NextDifficulty(c, a, h, newSlot) == NextDifficulty(c, b, h, newSlot)
  {
    assert SameAt(a, b, n, h);
    CanFinishSame(c, a, b, n, h);
    AdjustedSsiSame(c, a, b, n, h);
    AdjustedDifficultySame(c, a, b, n, h);
    DifficultySame(a, b, n, h);
  }

  lemma FirstSlotIccSame(c: Constants, a: seq<Record>, b: seq<Record>, n: nat, h: nat)
    requires Same(a, b, n) && h < n
    ensures FirstSlotIcc(c, a, h) == FirstSlotIcc(c, b, h)
  {
    assert SameAt(a, b, n, h);
    assert SameAt(a, b, n, IccStop(c, a, h));
    IccStopSame(c, a, b, n, h);
  }

  lemma ChallengeSame(a: seq<Record>, b: seq<Record>, n: nat, slots: seq<SubSlot>, overflow: bool, skip: bool)
    requires Same(a, b, n)
    ensures BlockChallenge(a, n, slots, overflow, skip) == BlockChallenge(b, n, slots, overflow, skip)
  {
    AllEndsSame(a, b, n, n - 1);
  }

  lemma VdfWalkSame(a: seq<Record>, b: seq<Record>, n: nat, slots: seq<SubSlot>, overflow: bool, sp: int, spIters: int)
    requires Same(a, b, n) && n > 0 && if overflow then |slots| == 1 else slots == []
    ensures SignagePointVdf(a, n, slots, overflow, sp, spIters) == SignagePointVdf(b, n, slots, overflow, sp, spIters)
  {
    WalkToSpSame(a, b, n, n - 1, sp);
    var s := WalkToSp(a, n - 1, sp);
    SlotFirstSame(a, b, n, s);
    assert SameAt(a, b, n, s) && SameAt(a, b, n, SlotFirst(a, s));
  }

  lemma VdfSearchSame(a: seq<Record>, b: seq<Record>, n: nat, sp: int, spIters: int)
    requires Same(a, b, n) && n > 0
    ensures SignagePointVdf(a, n, [], true, sp, spIters) == SignagePointVdf(b, n, [], true, sp, spIters)
  {
    AllEndsSame(a, b, n, n - 1);
    TwoEndsStopSame(a, b, n, n - 1, 0);
    var low := TwoEndsStop(a, n - 1, 0);
    LastBeforeSame(a, b, n, n - 1, low, sp);
    assert LastBefore(a, n - 1, low, sp) >= 0 ==> SameAt(a, b, n, LastBefore(a, n - 1, low, sp));
  }

  lemma VdfSame(a: seq<Record>, b: seq<Record>, n: nat, slots: seq<SubSlot>, overflow: bool, sp: int, spIters: int)
    requires Same(a, b, n)
    ensures SignagePointVdf(a, n, slots, overflow, sp, spIters) == SignagePointVdf(b, n, slots, overflow, sp, spIters)
  {
    if n > 0 && (if overflow then |slots| == 1 else slots == []) {
      VdfWalkSame(a, b, n, slots, overflow, sp, spIters);
    } else if n > 0 && slots == [] {
      VdfSearchSame(a, b, n, sp, spIters);
    }
  }

  // ---- the rules ----

  lemma SlotIccSame(c: Constants, a: seq<Record>, b: seq<Record>, n: nat, i: nat, k: nat)
    requires Same(a, b, n) && i < n && a[i] == b[i] && k < |a[i].slots|
    ensures SlotIccOk(c, a, i, k) <==> SlotIccOk(c, b, i, k)
  {
    assert SameAt(a, b, n, i) && (i > 0 ==> SameAt(a, b, n, i - 1));
    if i > 0 { FirstSlotIccSame(c, a, b, n, i - 1); }
  }

  lemma SlotChallengeSame(a: seq<Record>, b: seq<Record>, n: nat, i: nat, k: nat)
    requires Same(a, b, n) && i < n && a[i] == b[i] && k < |a[i].slots|
    ensures SlotChallengeOk(a, i, k) <==> SlotChallengeOk(b, i, k)
  {
    assert SameAt(a, b, n, i) && (i > 0 ==> SameAt(a, b, n, i - 1));
    if i > 0 {
      SlotFirstSame(a, b, n, i - 1);
      assert SameAt(a, b, n, SlotFirst(a, i - 1));
    }
  }

  lemma SlotParamsSame(c: Constants, a: seq<Record>, b: seq<Record>, n: nat, i: nat, k: nat)
    requires Same(a, b, n) && i < n && a[i] == b[i] && k < |a[i].slots|
    ensures SlotParamsOk(c, a, i, k) <==> SlotParamsOk(c, b, i, k)
  {
    if i > 0 { CanFinishSame(c, a, b, n, i - 1); }
    DifficultySame(a, b, n, i);
  }

  lemma SlotVdfSame(c: Constants, a: seq<Record>, b: seq<Record>, n: nat, i: nat, k: nat)
    requires Same(a, b, n) && i < n && a[i] == b[i] && k < |a[i].slots|
    ensures SlotVdfOk(c, a, i, k) <==> SlotVdfOk(c, b, i, k)
    ensures SlotDeficitOk(c, a, i, k) <==> SlotDeficitOk(c, b, i, k)
  {
    if i > 0 { assert SameAt(a, b, n, i - 1); }
  }

  lemma SlotSame(c: Constants, a: seq<Record>, b: seq<Record>, n: nat, i: nat, k: nat)
    requires Same(a, b, n) && i < n && a[i] == b[i] && k < |a[i].slots|
    ensures SlotOk(c, a, i, k) <==> SlotOk(c, b, i, k)
  {
    SlotChallengeSame(a, b, n, i, k);
    SlotIccSame(c, a, b, n, i, k);
    SlotParamsSame(c, a, b, n, i, k);
    SlotVdfSame(c, a, b, n, i, k);
  }

  lemma SlotsSame(c: Constants, a: seq<Record>, b: seq<Record>, n: nat, i: nat)
    requires Same(a, b, n) && i < n
    ensures (forall k :: 0 <= k < |a[i].slots| ==> SlotOk(c, a, i, k))
       <==> (forall k :: 0 <= k < |b[i].slots| ==> SlotOk(c, b, i, k))
  {
    assert SameAt(a, b, n, i) && (i > 0 ==> SameAt(a, b, n, i - 1));
    forall k | 0 <= k < |a[i].slots| ensures SlotOk(c, a, i, k) <==> SlotOk(c, b, i, k) { SlotSame(c, a, b, n, i, k); }
  }

  lemma SummarySame(c: Constants, a: seq<Record>, b: seq<Record>, n: nat, i: nat)
    requires Same(a, b, n) && i < n
    ensures SummaryOk(c, a, i) <==> SummaryOk(c, b, i)
  {
    assert SameAt(a, b, n, i) && (i > 0 ==> SameAt(a, b, n, i - 1));
    if i > 0 { CanFinishSame(c, a, b, n, i - 1); }
    LastSummarySame(a, b, n, i - 2);
  }

  lemma ParamsSame(c: Constants, a: seq<Record>, b: seq<Record>, n: nat, i: nat)
    requires Same(a, b, n) && i < n
    ensures ParamsOk(c, a, i) <==> ParamsOk(c, b, i)
  {
    assert SameAt(a, b, n, i) && (i > 0 ==> SameAt(a, b, n, i - 1));
    if i > 0 { NextSame(c, a, b, n, i - 1, a[i].slots != []); }
    DifficultySame(a, b, n, i);
  }

  lemma TxSame(a: seq<Record>, b: seq<Record>, n: nat, i: nat)
    requires Same(a, b, n) && i < n
    ensures TxOk(a, i) <==> TxOk(b, i)
  {
    assert SameAt(a, b, n, i);
    LastTxSame(a, b, n, i - 1);
    assert LastTxAt(a, i - 1) >= 0 ==> SameAt(a, b, n, LastTxAt(a, i - 1));
  }

  lemma ItersSame(c: Constants, a: seq<Record>, b: seq<Record>, n: nat, i: nat)
    requires Same(a, b, n) && i < n
    ensures ItersOk(c, a, i) <==> ItersOk(c, b, i)
  {
    assert SameAt(a, b, n, i) && (i > 0 ==> SameAt(a, b, n, i - 1));
  }

  lemma RestSame(c: Constants, a: seq<Record>, b: seq<Record>, n: nat, i: nat)
    requires Same(a, b, n) && i < n
    ensures SlotSizeOk(c, a, i) <==> SlotSizeOk(c, b, i)
    ensures EpochOverflowOk(c, a, i) <==> EpochOverflowOk(c, b, i)
  {
    assert SameAt(a, b, n, i);
    if i > 0 {
      SlotFirstSame(a, b, n, i - 1);
      CanFinishSame(c, a, b, n, i - 1);
    }
  }

  lemma StructuralSame(c: Constants, a: seq<Record>, b: seq<Record>, n: nat, i: nat)
    requires Same(a, b, n) && i < n
    ensures Structural(c, a, i) <==> Structural(c, b, i)
  {
    assert SameAt(a, b, n, i) && (i > 0 ==> SameAt(a, b, n, i - 1));
    SlotsSame(c, a, b, n, i);
    SummarySame(c, a, b, n, i);
    ParamsSame(c, a, b, n, i);
    RestSame(c, a, b, n, i);
    TxSame(a, b, n, i);
    ItersSame(c, a, b, n, i);
  }

  lemma ValidSame(c: Constants, a: seq<Record>, b: seq<Record>, n: nat)
    requires Same(a, b, n) && ValidUpTo(c, a, n)
    ensures ValidUpTo(c, b, n)
  {
    forall i: nat ensures StructuralAt(c, b, n, i) {
      assert StructuralAt(c, a, n, i);
      if i < n { StructuralSame(c, a, b, n, i); }
    }
  }

  lemma PointSame(c: Constants, a: seq<Record>, b: seq<Record>, n: nat, i: nat)
    requires Same(a, b, n) && i < n
    ensures SignagePointOk(c, a, i) <==> SignagePointOk(c, b, i)
  {
    assert SameAt(a, b, n, i) && (i > 0 ==> SameAt(a, b, n, i - 1));
    var r := a[i];
    Shorter(a, b, n, i);
    ChallengeSame(a, b, i, r.slots, r.overflow, false);
    VdfSame(a, b, i, r.slots, r.overflow, r.spTotal, SpIters(c, r.ssi, r.spIndex));
  }

  lemma InfusedSame(c: Constants, a: seq<Record>, b: seq<Record>, n: nat, i: nat)
    requires Same(a, b, n) && i < n
    ensures InfusedOk(c, a, i) <==> InfusedOk(c, b, i)
  {
    assert SameAt(a, b, n, i) && (i > 0 ==> SameAt(a, b, n, i - 1));
    if i > 0 {
      IccStopSame(c, a, b, n, i - 1);
      assert SameAt(a, b, n, IccStop(c, a, i - 1));
    }
  }

  /** A block is accepted or not whatever comes after it. */
  lemma AcceptedSame(c: Constants, a: seq<Record>, b: seq<Record>, n: nat, i: nat)
    requires Same(a, b, n) && i < n
    ensures Accepted(c, a, i) <==> Accepted(c, b, i)
  {
    StructuralSame(c, a, b, n, i);
    PointSame(c, a, b, n, i);
    InfusedSame(c, a, b, n, i);
  }
}
