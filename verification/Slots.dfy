/** Slots in accepted chains: where they start, which blocks overflow, and when their length changes. */
module Slots {
  import opened Ledger
  import opened SignificantBits
  import opened PotIterations
  import opened HeaderChain
  import opened EpochRules
  import opened HeaderRules

  /** The iteration formulas, for one accepted block. */
  ghost predicate IterFacts(c: Constants, r: Record) {
    var sp := SpIters(c, r.ssi, r.spIndex);
    && 0 < r.ipIters < r.ssi && 0 <= sp < r.ssi && 0 < r.required && 0 < Interval(c, r.ssi)
    && r.spTotal == Start(r) + sp - (if r.overflow then r.ssi else 0)
    && r.totalIters - r.spTotal == c.extra * Interval(c, r.ssi) + r.required
    && (if r.overflow then r.ipIters < c.extra * Interval(c, r.ssi) &&
          sp > 0 else r.ipIters > c.extra * Interval(c, r.ssi))
    && 0 <= r.spTotal
  }

  lemma BlockIters(c: Constants, chain: seq<Record>, n: nat, i: nat)
    requires Sane(c) && ValidUpTo(c, chain, n) && i < n
    ensures IterFacts(c, chain[i])
  {
    assert StructuralAt(c, chain, n, i);
    Formulas(c, chain[i].ssi, chain[i].spIndex, chain[i].required);
  }

  lemma IpInSlot(c: Constants, chain: seq<Record>, n: nat, i: nat)
    requires Sane(c) && ValidUpTo(c, chain, n) && i < n
    ensures 0 < chain[i].ipIters < chain[i].ssi
  {
    BlockIters(c, chain, n, i);
  }

  lemma StartRule(c: Constants, chain: seq<Record>, n: nat, i: nat)
    requires ValidUpTo(c, chain, n) && i < n
    ensures Start(chain[i]) == ExpectedStart(chain, i)
    ensures !First(chain, i) ==> chain[i - 1].totalIters <= chain[i].totalIters
  {
    assert StructuralAt(c, chain, n, i);
  }

  lemma SsiRule(c: Constants, chain: seq<Record>, n: nat, i: nat)
    requires ValidUpTo(c, chain, n) && 0 < i < n
    ensures NextSsi(c, chain, i - 1, chain[i].slots != []) == Some(chain[i].ssi)
  {
    assert StructuralAt(c, chain, n, i);
  }

  lemma EpochOverflowRule(c: Constants, chain: seq<Record>, n: nat, i: nat)
    requires ValidUpTo(c, chain, n) && i < n
    ensures EpochOverflowOk(c, chain, i)
  {
    assert StructuralAt(c, chain, n, i);
  }

  lemma {:induction false} FirstEpochSsi(c: Constants, chain: seq<Record>, n: nat, i: nat)
    requires ValidUpTo(c, chain, n) && i < n && i < c.epoch
    ensures chain[i].ssi == c.ssiStarting
  {
    if i == 0 {
      assert StructuralAt(c, chain, n, 0);
    } else {
      SsiRule(c, chain, n, i);
      FirstEpochSsi(c, chain, n, i - 1);
    }
  }

  /** The length of a slot changes only with the first slot of a new epoch. */
  lemma SsiChange(c: Constants, chain: seq<Record>, n: nat, i: nat)
    requires ValidUpTo(c, chain, n) && 0 < i < n && chain[i].ssi != chain[i - 1].ssi
    ensures chain[i].slots != [] && CanFinishEpoch(c, chain, i - 1)
  {
    SsiRule(c, chain, n, i);
    if i < c.epoch {
      FirstEpochSsi(c, chain, n, i);
      FirstEpochSsi(c, chain, n, i - 1);
    }
  }

  /** How block `i` follows block `i - 1`. */
  ghost predicate SlotStep(chain: seq<Record>, i: nat)
    requires 0 < i < |chain|
  {
    var r, prev := chain[i], chain[i - 1];
    if r.slots == [] then Start(r) == Start(prev) && r.ssi == prev.ssi && prev.totalIters <= r.totalIters
    else
      && (|r.slots| == 1 ==> Start(r) == Start(prev) + prev.ssi)
      && (|r.slots| > 1 ==> Start(r) >= Start(prev) + prev.ssi + r.ssi)
      && prev.totalIters < Start(prev) + prev.ssi
  }

  /** Empty slots take whole slots of time. */
  lemma EmptySlots(chain: seq<Record>, i: nat)
    requires 0 < i < |chain| && chain[i].slots != []
    ensures var prev := chain[i - 1];
      && (|chain[i].slots| == 1 ==> ExpectedStart(chain, i) == Start(prev) + prev.ssi)
      && (|chain[i].slots| > 1 ==> ExpectedStart(chain, i) >= Start(prev) + prev.ssi + chain[i].ssi)
  {
    MulSign(|chain[i].slots| - 1, chain[i].ssi);
  }

  lemma SlotSteps(c: Constants, chain: seq<Record>, n: nat, i: nat)
    requires Sane(c) && ValidUpTo(c, chain, n) && 0 < i < n
    ensures SlotStep(chain, i)
  {
    StartRule(c, chain, n, i);
    if chain[i].slots == [] {
      if chain[i].ssi != chain[i - 1].ssi { SsiChange(c, chain, n, i); }
    } else {
      IpInSlot(c, chain, n, i - 1);
      EmptySlots(chain, i);
    }
  }

  lemma {:induction false} StartNonNegative(c: Constants, chain: seq<Record>, n: nat, i: nat)
    requires Sane(c) && ValidUpTo(c, chain, n) && i < n
    ensures 0 <= Start(chain[i])
  {
    if i == 0 {
      StartRule(c, chain, n, 0);
      MulLe(0, |chain[0].slots|, chain[0].ssi);
    } else {
      SlotSteps(c, chain, n, i);
      StartNonNegative(c, chain, n, i - 1);
    }
  }

  /** Blocks of one slot share its start and its length, and come in order. */
  lemma {:induction false} SameSlot(c: Constants, chain: seq<Record>, n: nat, f: nat, i: nat)
    requires Sane(c) && ValidUpTo(c, chain, n) && f <= i < n && forall k :: f < k <= i ==> !First(chain, k)
    ensures Start(chain[f]) == Start(chain[i]) && chain[f].ssi == chain[i].ssi
    ensures chain[f].totalIters <= chain[i].totalIters
  {
    if f < i {
      SameSlot(c, chain, n, f, i - 1);
      SlotSteps(c, chain, n, i);
      assert !First(chain, i);
    }
  }

  /** Everything infused before a slot lies before its start. */
  lemma {:induction false} EarlierSlot(c: Constants, chain: seq<Record>, n: nat, j: nat, f: nat)
    requires Sane(c) && ValidUpTo(c, chain, n) && j < f < n && First(chain, f)
    ensures Start(chain[j]) + chain[j].ssi <= Start(chain[f]) && chain[j].totalIters < Start(chain[f])
  {
    SlotSteps(c, chain, n, f);
    var g := SlotFirst(chain, f - 1);
    BlockIters(c, chain, n, f - 1);
    if g <= j {
      SameSlot(c, chain, n, j, f - 1);
    } else {
      SameSlot(c, chain, n, g, f - 1);
      EarlierSlot(c, chain, n, j, g);
    }
  }

  /** Total iterations never decrease along a chain. */
  lemma Ordered(c: Constants, chain: seq<Record>, n: nat, j: nat, i: nat)
    requires Sane(c) && ValidUpTo(c, chain, n) && j <= i < n
    ensures chain[j].totalIters <= chain[i].totalIters
  {
    var f := SlotFirst(chain, i);
    if f <= j {
      SameSlot(c, chain, n, j, i);
    } else {
      EarlierSlot(c, chain, n, j, f);
      SameSlot(c, chain, n, f, i);
      BlockIters(c, chain, n, f);
    }
  }

  /** In a slot all overflow blocks come before all others. */
  lemma {:induction false} OverflowsFirst(c: Constants, chain: seq<Record>, n: nat, j: nat, i: nat)
    requires Sane(c) && ValidUpTo(c, chain, n) && j <= i < n && SlotFirst(chain, j) == SlotFirst(chain, i)
    ensures chain[i].overflow ==> chain[j].overflow
  {
    SameSlot(c, chain, n, j, i);
    BlockIters(c, chain, n, j);
    BlockIters(c, chain, n, i);
  }

  /** No block at all overflows into the first slot of a new epoch, though only the first block of the slot
      is checked for it. */
  lemma {:induction false} NoOverflowInNewEpoch(c: Constants, chain: seq<Record>, n: nat, i: nat)
    requires Sane(c) && ValidUpTo(c, chain, n) && i < n
    ensures var f := SlotFirst(chain, i);
      f > 0 && |chain[f].slots| == 1 && CanFinishEpoch(c, chain, f - 1) ==> !chain[i].overflow
  {
    var f := SlotFirst(chain, i);
    OverflowsFirst(c, chain, n, f, i);
    EpochOverflowRule(c, chain, n, f);
  }

  /** The slot before that of an overflow block has the same length: it is the slot of the block before, or
      it is empty. */
  lemma SlotBeforeOverflow(c: Constants, chain: seq<Record>, n: nat, i: nat)
    requires Sane(c) && ValidUpTo(c, chain, n) && i < n && chain[i].overflow
    ensures var f := SlotFirst(chain, i); var low := Start(chain[i]) - chain[i].ssi;
      && 0 <= low < chain[i].spTotal < Start(chain[i])
      && (f > 0 && |chain[f].slots| == 1 ==> low == Start(chain[f - 1]) && chain[i].ssi == chain[f - 1].ssi)
      && (f > 0 && |chain[f].slots| > 1 ==> low >= Start(chain[f - 1]) + chain[f - 1].ssi)
      && (f == 0 ==> |chain[0].slots| >= 1)
  {
    var f := SlotFirst(chain, i);
    BlockIters(c, chain, n, i);
    SameSlot(c, chain, n, f, i);
    if f == 0 {
      StartRule(c, chain, n, 0);
      MulSign(|chain[0].slots|, chain[0].ssi);
    } else {
      SlotSteps(c, chain, n, f);
      NoOverflowInNewEpoch(c, chain, n, i);
      if |chain[f].slots| == 1 {
        if chain[f].ssi != chain[f - 1].ssi { SsiChange(c, chain, n, f); }
      }
      StartNonNegative(c, chain, n, f - 1);
    }
  }

  // ---- counted from the first slot on ----

  /** Iterations of finished slots, as their challenge chain VDFs give them. */
  function SlotIters(slots: seq<SubSlot>): int {
    if slots == [] then 0 else SlotIters(slots[..|slots| - 1]) + slots[|slots| - 1].ccVdf.iters
  }

  /** Iterations of all slots finished up to block `i`. */
  function TotalSlotIters(chain: seq<Record>, i: nat): int
    requires i < |chain|
  {
    SlotIters(chain[i].slots) + if i == 0 then 0 else TotalSlotIters(chain, i - 1)
  }

  lemma {:induction false} SlotItersSum(slots: seq<SubSlot>, first: int, rest: int)
    requires forall k :: 0 <= k < |slots| ==> slots[k].ccVdf.iters == if k == 0 then first else rest
    ensures SlotIters(slots) == if slots == [] then 0 else first + rest * (|slots| - 1)
  {
    if |slots| > 1 {
      SlotItersSum(slots[..|slots| - 1], first, rest);
      assert rest * (|slots| - 1) == rest * (|slots| - 2) + rest;
    }
  }

  /** The finished slots of block `i` have the lengths they should have. */
  ghost predicate SlotLengthsOk(c: Constants, chain: seq<Record>, i: nat)
    requires i < |chain|
  {
    && (i == 0 ==> chain[0].ssi == c.ssiStarting)
    && forall k :: 0 <= k < |chain[i].slots| ==> SlotVdfOk(c, chain, i, k)
  }

  lemma LengthsRule(c: Constants, chain: seq<Record>, n: nat, i: nat)
    requires ValidUpTo(c, chain, n) && i < n
    ensures SlotLengthsOk(c, chain, i)
  {
    assert StructuralAt(c, chain, n, i);
    forall k | 0 <= k < |chain[i].slots| ensures SlotVdfOk(c, chain, i, k) { assert SlotOk(c, chain, i, k); }
  }

  /** A block's slot starts where the finished slots end. */
  lemma {:induction false} StartIsSum(c: Constants, chain: seq<Record>, i: nat)
    requires ValidUpTo(c, chain, i) && i < |chain| && SlotLengthsOk(c, chain, i)
    ensures ExpectedStart(chain, i) == TotalSlotIters(chain, i)
  {
    var r := chain[i];
    if i == 0 {
      forall k | 0 <= k < |r.slots| ensures r.slots[k].ccVdf.iters == r.ssi { assert SlotVdfOk(c, chain, i, k); }
      SlotItersSum(r.slots, r.ssi, r.ssi);
      assert r.slots != [] ==> r.ssi * |r.slots| == r.ssi + r.ssi * (|r.slots| - 1);
    } else {
      LengthsRule(c, chain, i, i - 1);
      PrefixValid(c, chain, i, i - 1);
      StartIsSum(c, chain, i - 1);
      StartRule(c, chain, i, i - 1);
      forall k | 0 <= k < |r.slots| ensures r.slots[k].ccVdf.iters == if k == 0 then chain[i - 1].ssi else r.ssi {
        assert SlotVdfOk(c, chain, i, k);
      }
      SlotItersSum(r.slots, chain[i - 1].ssi, r.ssi);
    }
  }

  lemma PrefixValid(c: Constants, chain: seq<Record>, n: nat, m: nat)
    requires ValidUpTo(c, chain, n) && m <= n
    ensures ValidUpTo(c, chain, m)
  {
    forall i: nat ensures StructuralAt(c, chain, m, i) { assert StructuralAt(c, chain, n, i); }
  }

  /** What the iteration counts of a block have to be: the infusion point is the given number of iterations past all
      finished slots, the signage point is the extra intervals and the required iterations before it, and it is in
      the slot before exactly for an overflow block. */
  ghost predicate ItersRight(c: Constants, chain: seq<Record>, i: nat)
    requires i < |chain|
  {
    var r, start := chain[i], TotalSlotIters(chain, i);
    && c.numSps > 0 && r.ssi % c.numSps == 0 && r.spIndex < c.numSps && 0 < r.required < Interval(c, r.ssi)
    && r.totalIters == start + r.ipIters && 0 < r.ipIters < r.ssi
    && r.totalIters - r.spTotal == c.extra * Interval(c, r.ssi) + r.required && 0 <= r.spTotal
    && r.spTotal - start == SpIters(c, r.ssi, r.spIndex) - (if r.overflow then r.ssi else 0)
    && (r.overflow <==> r.spTotal < start)
    && (!First(chain, i) ==> chain[i - 1].totalIters <= r.totalIters)
  }

  lemma ItersExact(c: Constants, chain: seq<Record>, i: nat)
    requires Sane(c) && ValidUpTo(c, chain, i) && i < |chain| && SlotLengthsOk(c, chain, i)
    ensures ItersOk(c, chain, i) <==> ItersRight(c, chain, i)
  {
    var r := chain[i];
    StartIsSum(c, chain, i);
    if IterationsOk(c, r.ssi, r.spIndex, r.required) { Formulas(c, r.ssi, r.spIndex, r.required); }
  }
}
