/** Consensus constants, and the iteration counts of signage and infusion points within a sub-slot. */
module PotIterations {
  import opened SignificantBits

  datatype Constants = Constants(
    minBlocks: nat,        // MIN_BLOCKS_PER_CHALLENGE_BLOCK
    maxSlotBlocks: nat,    // MAX_SUB_SLOT_BLOCKS
    numSps: nat,           // NUM_SPS_SUB_SLOT
    extra: nat,            // NUM_SP_INTERVALS_EXTRA
    subEpoch: nat,         // SUB_EPOCH_BLOCKS
    epoch: nat,            // EPOCH_BLOCKS
    ssiStarting: nat,      // SUB_SLOT_ITERS_STARTING
    difficultyStarting: nat,
    significantBits: nat,
    maxFactor: nat,        // DIFFICULTY_CHANGE_MAX_FACTOR
    slotTime: nat,         // SUB_SLOT_TIME_TARGET
    slotBlocks: nat)       // SLOT_BLOCKS_TARGET

  /** What the constants have to satisfy: the epoch is long compared with a sub-slot, and the starting
      values are such as an adjustment could yield. */
  ghost predicate Sane(c: Constants) {
    && c.minBlocks >= 2 && c.maxSlotBlocks > 2 * c.minBlocks + 2
    && 0 < c.extra < c.numSps
    && c.subEpoch > 2 * c.maxSlotBlocks + c.minBlocks
    && c.epoch > 6 * c.maxSlotBlocks + 2 * c.minBlocks
    && c.ssiStarting > 0 && c.difficultyStarting > 0
    && c.significantBits >= 1 && c.maxFactor >= 1 && c.slotBlocks >= 1
    && forall rule :: Divides(c, rule)
  }

  datatype Rule = PowerOfTwo | WholeSubEpochs | StartingSsi | StartingBits

  ghost predicate Divides(c: Constants, rule: Rule)
    requires c.numSps > 0 && c.subEpoch > 0
  {
    match rule
    case PowerOfTwo => exists k :: c.numSps == Pow2(k)
    case WholeSubEpochs => c.epoch % c.subEpoch == 0
    case StartingSsi => c.ssiStarting % c.numSps == 0
    case StartingBits =>
      CountBits(c.ssiStarting) <= c.significantBits && CountBits(c.difficultyStarting) <= c.significantBits
  }

  const DEFAULT_CONSTANTS := Constants(16, 128, 64, 3, 384, 4608, 0x800_0000, 1, 8, 3, 600, 32)

  lemma DefaultsAreSane()
    ensures Sane(DEFAULT_CONSTANTS)
  {
    assert Pow2(3) == 8;
    Pow2Add(3, 3);
    Pow2Add(6, 3); Pow2Add(9, 9); Pow2Add(18, 9);
    OneBit(27);
    OneBit(0);
  }

  lemma {:induction false} OneBit(n: nat)
    ensures CountBits(Pow2(n)) == 1 && LowestBit(Pow2(n)) == n
  {
    if n > 0 { OneBit(n - 1); }
  }

  // ---- the formulas ----

  predicate IsOverflow(c: Constants, index: nat) { index >= c.numSps - c.extra }

  /** None of the checks in the formulas raises. */
  predicate IterationsOk(c: Constants, ssi: nat, index: nat, required: nat) {
    && 0 < c.numSps && ssi % c.numSps == 0 && index < c.numSps
    && 0 < required < ssi / c.numSps
  }

  function Interval(c: Constants, ssi: nat): nat {
    if c.numSps == 0 then 0 else ssi / c.numSps
  }

  function SpIters(c: Constants, ssi: nat, index: nat): nat {
    Interval(c, ssi) * index
  }

  /** 0 where the code would raise. */
  function IpIters(c: Constants, ssi: nat, index: nat, required: nat): nat {
    if IterationsOk(c, ssi, index, required) && ssi > 0 then
      (SpIters(c, ssi, index) + c.extra * Interval(c, ssi) + required) % ssi
    else
      0
  }

  // ---- what they mean ----

  lemma SumAgainstSlot(interval: nat, num: nat, extra: nat, index: nat, required: nat)
    requires 0 < extra < num && index < num && 0 < required < interval
    ensures var sp := interval * index; var sum := sp + extra * interval + required; var ssi := interval * num;
      && sp < ssi
      && (index + extra < num ==> extra * interval < sum < ssi)
      && (index + extra >= num ==> 0 < sum - ssi < extra * interval && sum - ssi < ssi && sum - ssi < sp && 0 < sp)
  {
    var d := index + extra - num;
    assert interval * index + extra * interval - interval * num == d * interval;
    MulLe(0, index, interval);
    MulLe(index, num - 1, interval);
    if d < 0 {
      MulLe(d, -1, interval);
    } else {
      MulLe(0, d, interval);
      MulLe(d, extra - 1, interval);
      MulLe(extra, num - 1, interval);
      MulLe(1, index, interval);
    }
  }

  /** Index-based overflow is exactly the wrap-around of the sum, and exactly sp > ip. Overflow infusion
      points lie below the extra intervals, the others above. */
  lemma Formulas(c: Constants, ssi: nat, index: nat, required: nat)
    requires 0 < c.extra < c.numSps && IterationsOk(c, ssi, index, required)
    ensures var sp := SpIters(c, ssi, index); var ip := IpIters(c, ssi, index, required);
      var wait := c.extra * Interval(c, ssi) + required;
      && (IsOverflow(c, index) <==> sp + wait >= ssi)
      && (IsOverflow(c, index) <==> sp > ip)
      && sp < ssi && 0 < ip < ssi
      && ip == sp + wait - (if IsOverflow(c, index) then ssi else 0)
      && (if IsOverflow(c, index) then ip < c.extra * Interval(c, ssi) && sp > 0 else ip > c.extra * Interval(c, ssi))
  {
    var interval := ssi / c.numSps;
    assert ssi == interval * c.numSps;
    SumAgainstSlot(interval, c.numSps, c.extra, index, required);
    var sum := interval * index + c.extra * interval + required;
    if IsOverflow(c, index) {
      Quotient(sum, ssi, 1, sum - ssi);
    } else {
      Quotient(sum, ssi, 0, sum);
    }
  }

  /** An infusion point is never on a signage point of the same slot. */
  lemma InfusionBetweenSps(c: Constants, ssi: nat, index: nat, required: nat, other: nat)
    requires 0 < c.extra < c.numSps && IterationsOk(c, ssi, index, required)
    ensures IpIters(c, ssi, index, required) != SpIters(c, ssi, other)
  {
    Formulas(c, ssi, index, required);
    var interval := ssi / c.numSps;
    assert ssi == interval * c.numSps;
    var d := index + c.extra - other - (if IsOverflow(c, index) then c.numSps else 0);
    assert IpIters(c, ssi, index, required) - SpIters(c, ssi, other) == d * interval + required by {
      assert interval * index + c.extra * interval - interval * other == (index + c.extra - other) * interval;
      assert (index + c.extra - other - c.numSps) * interval ==
          (index + c.extra - other) * interval - interval * c.numSps;
    }
    MulSign(d, interval);
  }

  // ---- three ways to the same totals ----

  /** The creator knows the start of the slot that holds the signage point. */
  function CreatorTotals(c: Constants, spSlotStart: nat, ssi: nat, index: nat, required: nat): (int, int) {
    var sp, ip := SpIters(c, ssi, index), IpIters(c, ssi, index, required);
    (spSlotStart + sp, spSlotStart + ip + (if sp > ip then ssi else 0))
  }

  /** The validator knows the start of the slot that holds the infusion point. */
  function ValidatorTotals(c: Constants, ipSlotStart: int, ssi: nat, index: nat, required: nat): (int, int) {
    var sp, ip := SpIters(c, ssi, index), IpIters(c, ssi, index, required);
    var total := ipSlotStart + ip;
    (total - ip + sp - (if IsOverflow(c, index) then ssi else 0), total)
  }

  /** A block record knows the total at the infusion point. */
  function RecordTotals(c: Constants, total: int, overflow: bool, ssi: nat, index: nat, required: nat): (int, int) {
    var ip := IpIters(c, ssi, index, required);
    ((if overflow then total - ip - ssi else total - ip) + SpIters(c, ssi, index), total)
  }

  lemma TotalsAgree(c: Constants, spSlotStart: nat, ssi: nat, index: nat, required: nat)
    requires 0 < c.extra < c.numSps && IterationsOk(c, ssi, index, required)
    ensures var made := CreatorTotals(c, spSlotStart, ssi, index, required);
      && made == ValidatorTotals(c, spSlotStart + (if IsOverflow(c, index) then ssi else 0), ssi, index, required)
      && made == RecordTotals(c, made.1, IsOverflow(c, index), ssi, index, required)
      && made.1 - made.0 == c.extra * Interval(c, ssi) + required
  {
    Formulas(c, ssi, index, required);
  }
}
