/** The adjustments at the end of an epoch never fail on an accepted chain, and what they yield. */
module Adjustments {
  import opened Ledger
  import opened SignificantBits
  import opened PotIterations
  import opened HeaderChain
  import opened EpochRules
  import opened HeaderRules
  import opened Slots
  import opened TxSpacing
  import opened SubEpochs

  // ---- the epoch boundaries ----

  lemma MultipleBelow(a: nat, b: nat, m: nat)
    requires m > 0 && a % m == 0 && b % m == 0 && a < b
    ensures a + m <= b && (b - m) % m == 0
  {
    var x, y := a / m, b / m;
    assert a == x * m && b == y * m;
    if y <= x { MulLe(y, x, m); }
    MulLe(x + 1, y, m);
    Quotient(b - m, m, y - 1, 0);
  }

  lemma MultipleOfMultiple(a: nat, m: nat, p: nat)
    requires m > 0 && p > 0 && a % m == 0 && m % p == 0
    ensures a % p == 0
  {
    var x, y := a / m, m / p;
    assert a == x * m && m == y * p;
    assert a == x * y * p;
    Quotient(a, p, x * y, 0);
  }

  /** The code's guess at the epoch boundary is right. */
  lemma BoundaryGuess(c: Constants, h: nat, w: nat)
    requires Sane(c) && w % c.epoch == 0 && w >= c.epoch
    requires w - 1 <= h <= w + 2 * c.maxSlotBlocks + c.minBlocks - 2
    ensures var next := HeightInNextEpoch(c, h);
      next - next % c.epoch == w && next - w < 5 * c.maxSlotBlocks
  {
    var next := HeightInNextEpoch(c, h);
    Quotient(next, c.epoch, w / c.epoch, next - w);
  }

  lemma {:induction false} FirstSummaryFurther(chain: seq<Record>, low: nat, high: int, far: int)
    requires high <= far < |chain| && FirstSummary(chain, low, high) >= 0
    ensures FirstSummary(chain, low, far) == FirstSummary(chain, low, high)
    decreases high - low
  {
    if !HasSummary(chain[low]) { FirstSummaryFurther(chain, low + 1, high, far); }
  }

  lemma SecondTxExists(c: Constants, chain: seq<Record>, n: nat, j: nat)
    requires Sane(c) && ValidUpTo(c, chain, n) && 2 * c.maxSlotBlocks <= j < n
    ensures 0 <= SecondTx(chain, j) < j && IsTx(chain[SecondTx(chain, j)])
  {
    TxSoon(c, chain, n, j);
    TxSoon(c, chain, n, LastTxAt(chain, j) - 1);
  }

  /** An epoch boundary other than the first is also a sub-epoch boundary other than the first. */
  lemma EpochIsSubEpoch(c: Constants, mark: nat)
    requires Sane(c) && mark % c.epoch == 0 && mark > 0
    ensures mark % c.subEpoch == 0 && mark >= c.subEpoch && mark >= c.epoch
  {
    assert Divides(c, WholeSubEpochs);
    MultipleOfMultiple(mark, c.epoch, c.subEpoch);
    PositiveMultiple(mark, c.epoch);
    PositiveMultiple(mark, c.subEpoch);
  }

  /** The search for the previous epoch's last blocks stays within the blocks it fetched and ends at a
      transaction block close to the boundary. */
  lemma PreviousEpochFound(c: Constants, chain: seq<Record>, n: nat, h: nat, w: nat)
    requires Sane(c) && ValidUpTo(c, chain, n) && h < n && w % c.epoch == 0 && w >= c.epoch
    requires w - 1 <= h <= w + 2 * c.maxSlotBlocks + c.minBlocks - 2
    ensures var p := PreviousEpochBlock(c, chain, h);
      p.Some? && p.value <= w - c.epoch + 2 * c.maxSlotBlocks + c.minBlocks && p.value < h && IsTx(chain[p.value])
  {
    BoundaryGuess(c, h, w);
    TxRule(c, chain, n, 0);
    var mark := w - c.epoch;
    if mark > 0 {
      MultipleBelow(0, w, c.epoch);
      EpochIsSubEpoch(c, mark);
      var near := mark + 2 * c.maxSlotBlocks + c.minBlocks - 1;
      SummaryInTime(c, chain, n, mark);
      FirstSummaryFurther(chain, mark, near, near + 2);
      SecondTxExists(c, chain, n, FirstSummary(chain, mark, near) - 1);
    }
  }

  // ---- the epoch in between ----

  lemma SameBoundary(c: Constants, m: nat, w: nat, i: nat, h: nat)
    requires Sane(c) && m % c.epoch == 0 && w % c.epoch == 0 && w <= h + 1
    requires m <= i <= h <= w + 2 * c.maxSlotBlocks + c.minBlocks
    requires h - 4 * c.maxSlotBlocks < i < m + 2 * c.maxSlotBlocks + c.minBlocks
    ensures m == w
  {
    if w < m { MultipleBelow(w, m, c.epoch); }
    if m < w { MultipleBelow(m, w, c.epoch); }
  }

  lemma EpochEndAt(c: Constants, chain: seq<Record>, n: nat, h: nat) returns (w: nat)
    requires Sane(c) && ValidUpTo(c, chain, n) && h < n && CanFinishEpoch(c, chain, h)
    ensures w % c.epoch == 0 && w >= c.epoch && w - 1 <= h <= w + 2 * c.maxSlotBlocks + c.minBlocks - 2
    ensures NoSummary(chain, w, h) && !HasSummary(chain[h])
  {
    w := WindowStart(c, h + 1);
    EpochEnd(c, chain, n, h);
  }

  lemma EpochStartSummary(c: Constants, chain: seq<Record>, n: nat, i: nat)
    requires ValidUpTo(c, chain, n) && 0 < i < n && chain[i].slots != [] && CanFinishEpoch(c, chain, i - 1)
    ensures HasSummary(chain[i])
  {
    SummaryRule(c, chain, n, i);
  }

  /** Shortly before the end of an epoch no epoch starts. */
  lemma NoEpochBetween(c: Constants, chain: seq<Record>, n: nat, h: nat, i: nat)
    requires Sane(c) && ValidUpTo(c, chain, n) && h < n && CanFinishEpoch(c, chain, h)
    requires 0 < i <= h && h - 4 * c.maxSlotBlocks < i
    ensures !(chain[i].slots != [] && CanFinishEpoch(c, chain, i - 1))
  {
    if chain[i].slots != [] && CanFinishEpoch(c, chain, i - 1) {
      EpochStartSummary(c, chain, n, i);
      var w := EpochEndAt(c, chain, n, h);
      var m := EpochEndAt(c, chain, n, i - 1);
      SameBoundary(c, m, w, i, h);
    }
  }

  lemma {:induction false} SsiConstant(c: Constants, chain: seq<Record>, n: nat, h: nat, j: nat)
    requires Sane(c) && ValidUpTo(c, chain, n) && h < n && CanFinishEpoch(c, chain, h)
    requires 0 < j <= h && h - 4 * c.maxSlotBlocks < j
    ensures chain[j].ssi == chain[h].ssi
    decreases h - j
  {
    if j < h {
      SsiConstant(c, chain, n, h, j + 1);
      NoEpochBetween(c, chain, n, h, j + 1);
      if chain[j + 1].ssi != chain[j].ssi { SsiChange(c, chain, n, j + 1); }
    }
  }

  // ---- clamping and rounding ----

  lemma ClampBounds(c: Constants, precise: nat, now: nat, least: nat)
    requires c.maxFactor >= 1 && 1 <= least <= now
    ensures least <= Clamp(c, precise, now, least) <= c.maxFactor * now
    ensures now / c.maxFactor <= Clamp(c, precise, now, least)
  {
    MulLe(1, c.maxFactor, now);
    assert now / c.maxFactor <= now by { DivLe(now, c.maxFactor); }
  }

  lemma DivLe(x: nat, m: nat)
    requires m >= 1
    ensures x / m <= x
  {
    MulLe(1, m, x / m);
  }

  /** How far one adjustment can go: `before` at most times the factor, and at least divided by it, less one part in
      2^(bits - 1) for truncation and less than `unit` for rounding to a multiple. */
  ghost predicate Adjusted(c: Constants, before: nat, after: nat, unit: nat)
    requires c.maxFactor >= 1 && c.significantBits >= 1
  {
    && 0 < after <= c.maxFactor * before && CountBits(after) <= c.significantBits
    && before / c.maxFactor * (Pow2(c.significantBits - 1) - 1) <= (after + unit) * Pow2(c.significantBits - 1)
  }

  lemma LossBound(low: nat, x: nat, y: nat, z: nat, p: nat)
    requires low <= x && (x - y) * p <= x && y <= z && p >= 1
    ensures low * (p - 1) <= z * p
  {
    MulLe(low, x, p - 1);
    MulLe(y, z, p);
    assert x * (p - 1) == x * p - x && (x - y) * p == x * p - y * p;
  }

  lemma RoundLoss(c: Constants, before: nat, x: nat, y: nat, z: nat, unit: nat)
    requires c.maxFactor >= 1 && c.significantBits >= 1
    requires x <= c.maxFactor * before && before / c.maxFactor <= x && (x - y) * Pow2(c.significantBits - 1) <= x
    requires 0 < z <= y <= x && y <= z + unit && CountBits(z) <= c.significantBits
    ensures Adjusted(c, before, z, unit)
  {
    LossBound(before / c.maxFactor, x, y, z + unit, Pow2(c.significantBits - 1));
  }

  lemma TruncatedMultiple(c: Constants, x: nat) returns (y: nat, z: nat)
    requires Sane(c) && c.numSps <= x
    ensures RoundedSsi(c, x) == Some(z) && z % c.numSps == 0 && CountBits(z) <= c.significantBits
    ensures 0 < z <= y <= x && y <= z + c.numSps && (x - y) * Pow2(c.significantBits - 1) <= x
  {
    assert Divides(c, PowerOfTwo);
    var k :| c.numSps == Pow2(k);
    TruncateToMultiple(x, c.significantBits, k);
    TruncateKeeps(x, c.significantBits);
    y := Truncate(x, c.significantBits);
    z := Floor(y, c.numSps);
  }

  lemma RoundedSsiOk(c: Constants, x: nat, before: nat)
    requires Sane(c) && c.numSps <= x <= c.maxFactor * before && before / c.maxFactor <= x
    ensures var z := RoundedSsi(c, x);
      z.Some? && z.value % c.numSps == 0 && Adjusted(c, before, z.value, c.numSps)
  {
    var y, z := TruncatedMultiple(c, x);
    RoundLoss(c, before, x, y, z, c.numSps);
  }

  lemma RoundedDifficultyOk(c: Constants, x: nat, before: nat)
    requires Sane(c) && 1 <= x <= c.maxFactor * before && before / c.maxFactor <= x
    ensures var z := RoundedDifficulty(c, x); z.Some? && Adjusted(c, before, z.value, 0)
  {
    TruncateKeeps(x, c.significantBits);
    var y := Truncate(x, c.significantBits);
    LossBound(before / c.maxFactor, x, y, y, Pow2(c.significantBits - 1));
  }

  // ---- weight ----

  lemma DifficultyRule(c: Constants, chain: seq<Record>, n: nat, i: nat)
    requires ValidUpTo(c, chain, n) && 0 < i < n
    ensures NextDifficulty(c, chain, i - 1, chain[i].slots != []) == Some(Difficulty(chain, i))
  {
    assert StructuralAt(c, chain, n, i);
  }

  lemma StartingDifficulty(c: Constants, chain: seq<Record>, n: nat)
    requires ValidUpTo(c, chain, n) && n > 0
    ensures Difficulty(chain, 0) == c.difficultyStarting
  {
    assert StructuralAt(c, chain, n, 0);
  }

  lemma AdjustedDifficultyPositive(c: Constants, chain: seq<Record>, h: nat)
    requires Sane(c) && 0 < h < |chain| && Difficulty(chain, h - 1) >= 1 && AdjustedDifficulty(c, chain, h).Some?
    ensures AdjustedDifficulty(c, chain, h).value >= 1
  {
    var now := Difficulty(chain, h - 1);
    var p := PreviousEpochBlock(c, chain, h).value;
    var q := LastNotAfter(chain, h - 1, chain[h].spTotal);
    ClampBounds(c, PreciseDifficulty(c, chain, p, q), now, 1);
    RoundedDifficultyOk(c, Clamp(c, PreciseDifficulty(c, chain, p, q), now, 1), now);
  }

  lemma NextDifficultyPositive(c: Constants, chain: seq<Record>, h: nat, newSlot: bool)
    requires Sane(c) && h < |chain| && Difficulty(chain, h) >= 1 && (h > 0 ==> Difficulty(chain, h - 1) >= 1)
    requires NextDifficulty(c, chain, h, newSlot).Some?
    ensures NextDifficulty(c, chain, h, newSlot).value >= 1
  {
    if newSlot && CanFinishEpoch(c, chain, h) && AdjustedDifficulty(c, chain, h).Some? {
      AdjustedDifficultyPositive(c, chain, h);
    }
  }

  /** Every block adds at least 1 to the weight. */
  lemma {:induction false} DifficultyPositive(c: Constants, chain: seq<Record>, n: nat, i: nat)
    requires Sane(c) && ValidUpTo(c, chain, n) && i < n
    ensures Difficulty(chain, i) >= 1
    decreases i
  {
    if i == 0 {
      StartingDifficulty(c, chain, n);
    } else {
      DifficultyPositive(c, chain, n, i - 1);
      if i > 1 { DifficultyPositive(c, chain, n, i - 2); }
      DifficultyRule(c, chain, n, i);
      NextDifficultyPositive(c, chain, i - 1, chain[i].slots != []);
    }
  }

  lemma {:induction false} WeightIncreases(c: Constants, chain: seq<Record>, n: nat, j: nat, i: nat)
    requires Sane(c) && ValidUpTo(c, chain, n) && j < i < n
    ensures chain[j].weight < chain[i].weight
  {
    DifficultyPositive(c, chain, n, i);
    if j < i - 1 { WeightIncreases(c, chain, n, j, i - 1); }
  }

  // ---- the adjustments ----

  /** The two blocks compared are defined, and the later one is later in height, time and iterations. */
  lemma {:induction false} AdjustmentDefined(c: Constants, chain: seq<Record>, n: nat, h: nat)
    requires Sane(c) && ValidUpTo(c, chain, n) && h < n && CanFinishEpoch(c, chain, h)
    ensures var p := PreviousEpochBlock(c, chain, h); var q := LastNotAfter(chain, h - 1, chain[h].spTotal);
      p.Some? && p.value < q && h - 4 * c.maxSlotBlocks < q < h && Comparable(chain, p.value, q)
  {
    var w := EpochEndAt(c, chain, n, h);
    PreviousEpochFound(c, chain, n, h, w);
    LastNotAfterRecent(c, chain, n, h);
    var p, q := PreviousEpochBlock(c, chain, h).value, LastNotAfter(chain, h - 1, chain[h].spTotal);
    TimesIncrease(c, chain, n, p, q);
    Ordered(c, chain, n, p, q);
    WeightIncreases(c, chain, n, p, q);
  }

  lemma SsiFacts(c: Constants, chain: seq<Record>, n: nat, i: nat)
    requires Sane(c) && ValidUpTo(c, chain, n) && i < n
    ensures chain[i].ssi % c.numSps == 0 && chain[i].ssi >= c.numSps
  {
    assert StructuralAt(c, chain, n, i);
    IpInSlot(c, chain, n, i);
    PositiveMultiple(chain[i].ssi, c.numSps);
  }

  /** At the end of an epoch the slot length is adjusted without fail, measured against the current one. */
  lemma AdjustedSsiOk(c: Constants, chain: seq<Record>, n: nat, h: nat)
    requires Sane(c) && ValidUpTo(c, chain, n) && h < n && CanFinishEpoch(c, chain, h)
    ensures var z := AdjustedSsi(c, chain, h);
      z.Some? && z.value % c.numSps == 0 && Adjusted(c, chain[h].ssi, z.value, c.numSps)
  {
    AdjustmentDefined(c, chain, n, h);
    var p, q := PreviousEpochBlock(c, chain, h).value, LastNotAfter(chain, h - 1, chain[h].spTotal);
    SsiConstant(c, chain, n, h, q);
    SsiFacts(c, chain, n, q);
    ClampBounds(c, PreciseSsi(c, chain, p, q), chain[q].ssi, c.numSps);
    RoundedSsiOk(c, Clamp(c, PreciseSsi(c, chain, p, q), chain[q].ssi, c.numSps), chain[q].ssi);
  }

  lemma {:induction false} FirstEpochDifficulty(c: Constants, chain: seq<Record>, n: nat, i: nat)
    requires ValidUpTo(c, chain, n) && i < n && i < c.epoch - 3 * c.maxSlotBlocks
    ensures Difficulty(chain, i) == c.difficultyStarting
  {
    if i == 0 {
      StartingDifficulty(c, chain, n);
    } else {
      DifficultyRule(c, chain, n, i);
      FirstEpochDifficulty(c, chain, n, i - 1);
    }
  }

  /** The difficulty changes only with the first slot of a new epoch. */
  lemma DifficultyChange(c: Constants, chain: seq<Record>, n: nat, i: nat)
    requires ValidUpTo(c, chain, n) && 0 < i < n && Difficulty(chain, i) != Difficulty(chain, i - 1)
    ensures chain[i].slots != [] && CanFinishEpoch(c, chain, i - 1)
  {
    DifficultyRule(c, chain, n, i);
    if i < c.epoch - 3 * c.maxSlotBlocks {
      FirstEpochDifficulty(c, chain, n, i);
      FirstEpochDifficulty(c, chain, n, i - 1);
    }
  }

  /** Throughout the first epoch the weight follows the height: no block is harder than another. */
  lemma {:induction false} FirstEpochWeight(c: Constants, chain: seq<Record>, n: nat, i: nat)
    requires Sane(c) && ValidUpTo(c, chain, n) && i < n && i < c.epoch
    ensures Difficulty(chain, i) == c.difficultyStarting && chain[i].weight == c.difficultyStarting * (i + 1)
  {
    if i == 0 {
      StartingDifficulty(c, chain, n);
    } else {
      FirstEpochWeight(c, chain, n, i - 1);
      if Difficulty(chain, i) != Difficulty(chain, i - 1) {
        DifficultyChange(c, chain, n, i);
        EpochEnd(c, chain, n, i - 1);
      }
    }
  }

  lemma AdjustedDifficultyOk(c: Constants, chain: seq<Record>, n: nat, h: nat)
    requires Sane(c) && ValidUpTo(c, chain, n) && h < n && CanFinishEpoch(c, chain, h)
    ensures var z := AdjustedDifficulty(c, chain, h);
      z.Some? && Difficulty(chain, h) >= 1 && Adjusted(c, Difficulty(chain, h), z.value, 0)
  {
    AdjustmentDefined(c, chain, n, h);
    DifficultyPositive(c, chain, n, h - 1);
    NoEpochBetween(c, chain, n, h, h);
    if Difficulty(chain, h) != Difficulty(chain, h - 1) { DifficultyChange(c, chain, n, h); }
    var now := Difficulty(chain, h - 1);
    var p, q := PreviousEpochBlock(c, chain, h).value, LastNotAfter(chain, h - 1, chain[h].spTotal);
    ClampBounds(c, PreciseDifficulty(c, chain, p, q), now, 1);
    RoundedDifficultyOk(c, Clamp(c, PreciseDifficulty(c, chain, p, q), now, 1), now);
  }

  /** On an accepted chain the parameters of the next block are always defined, and differ from the current
      ones only by an adjustment at an epoch's end. */
  lemma NextParamsDefined(c: Constants, chain: seq<Record>, n: nat, h: nat, newSlot: bool)
    requires Sane(c) && ValidUpTo(c, chain, n) && h < n
    ensures var s, d := NextSsi(c, chain, h, newSlot), NextDifficulty(c, chain, h, newSlot);
      && s.Some? && d.Some? && d.value >= 1 && Difficulty(chain, h) >= 1
      && (s.value == chain[h].ssi || (s.value % c.numSps == 0 && Adjusted(c, chain[h].ssi, s.value, c.numSps)))
      && (d.value == Difficulty(chain, h) || Adjusted(c, Difficulty(chain, h), d.value, 0))
  {
    DifficultyPositive(c, chain, n, h);
    if h < c.epoch { FirstEpochSsi(c, chain, n, h); }
    if h < c.epoch - 3 * c.maxSlotBlocks { FirstEpochDifficulty(c, chain, n, h); }
    if CanFinishEpoch(c, chain, h) {
      AdjustedSsiOk(c, chain, n, h);
      AdjustedDifficultyOk(c, chain, n, h);
    }
  }

  /** Over all epochs: the slot length is a positive multiple of the number of signage points, the difficulty is
      at least 1, and both have few significant bits. */
  lemma {:induction false} ParamsInvariant(c: Constants, chain: seq<Record>, n: nat, i: nat)
    requires Sane(c) && ValidUpTo(c, chain, n) && i < n
    ensures chain[i].ssi > 0 && chain[i].ssi % c.numSps == 0 && CountBits(chain[i].ssi) <= c.significantBits
    ensures Difficulty(chain, i) >= 1 && CountBits(Difficulty(chain, i)) <= c.significantBits
  {
    SsiFacts(c, chain, n, i);
    DifficultyPositive(c, chain, n, i);
    if i == 0 {
      StartingDifficulty(c, chain, n);
      FirstEpochSsi(c, chain, n, 0);
      assert Divides(c, StartingBits);
    } else {
      ParamsInvariant(c, chain, n, i - 1);
      SsiRule(c, chain, n, i);
      DifficultyRule(c, chain, n, i);
      NextParamsDefined(c, chain, n, i - 1, chain[i].slots != []);
    }
  }
}
