/** Sub-slot iterations and difficulty expected of the block after `h`. None where the code would raise. */
module EpochRules {
  import opened Ledger
  import opened SignificantBits
  import opened PotIterations
  import opened HeaderChain

  function Difficulty(chain: seq<Record>, i: nat): int
    requires i < |chain|
  {
    if i == 0 then chain[0].weight else chain[i].weight - chain[i - 1].weight
  }

  /** The first block from `low` to `high` with a summary, or -1. */
  function FirstSummary(chain: seq<Record>, low: nat, high: int): (s: int)
    requires high < |chain|
    ensures s == -1 && high >= 0 ==> NoSummary(chain, low, high + 1)
    ensures s >= -1
    ensures s != -1 ==> low <= s <= high && HasSummary(chain[s]) && NoSummary(chain, low, s)
    decreases if low > high then 0 else high - low + 1
  {
    if low > high then -1 else if HasSummary(chain[low]) then low else FirstSummary(chain, low + 1, high)
  }

  /** The second transaction block at or before `j`, counting back, or -1. */
  function SecondTx(chain: seq<Record>, j: int): int
    requires j < |chain|
  {
    var t := LastTxAt(chain, j);
    if t <= 0 then -1 else LastTxAt(chain, t - 1)
  }

  /** The height the code takes as surely in the next epoch, for the block below `h`. */
  function HeightInNextEpoch(c: Constants, h: nat): nat {
    h + 2 * c.maxSlotBlocks + c.minBlocks + 4
  }

  /** The second to last transaction block of the epoch before the one that begins at `mark`, or block 0. */
  function BlockBefore(c: Constants, chain: seq<Record>, h: nat, mark: int): Option<nat>
    requires h < |chain|
  {
    var high := mark + 2 * c.maxSlotBlocks + c.minBlocks + 1;
    if mark < 0 then None
    else if mark == 0 then Some(0)
    else if mark < c.maxSlotBlocks + 1 || high >= h then None
    else
      var s := FirstSummary(chain, mark, high);
      if s < 0 then None
      else
        var t := SecondTx(chain, s - 1);
        if t < 0 then None else Some(t)
  }

  /** The second to last transaction block of the previous epoch, or block 0 in the first epoch. */
  function PreviousEpochBlock(c: Constants, chain: seq<Record>, h: nat): Option<nat>
    requires h < |chain|
  {
    var next := HeightInNextEpoch(c, h);
    if c.epoch == 0 || next % c.epoch >= 5 * c.maxSlotBlocks then None
    else BlockBefore(c, chain, h, next - next % c.epoch - c.epoch)
  }

  /** The last transaction block at or before `j` that is not after the signage point, or -1. */
  function LastNotAfter(chain: seq<Record>, j: int, sp: int): (q: int)
    requires j < |chain|
    ensures -1 <= q && (j >= -1 ==> q <= j)
    ensures q >= 0 ==> q <= j && IsTx(chain[q]) && chain[q].totalIters <= sp
    ensures forall k :: q < k <= j && IsTx(chain[k]) ==> chain[k].totalIters > sp
    decreases if j < 0 then 0 else j + 1
  {
    if j < 0 then -1
    else if IsTx(chain[j]) && chain[j].totalIters <= sp then j
    else LastNotAfter(chain, j - 1, sp)
  }

  function Min(a: int, b: int): int { if a < b then a else b }
  function Max(a: int, b: int): int { if a < b then b else a }

  /** The precise value, changed by at most the factor and not below `least`. */
  function Clamp(c: Constants, precise: int, now: nat, least: nat): int {
    if precise >= now then Min(precise, c.maxFactor * now)
    else Max(least, Max(precise, if c.maxFactor == 0 then 0 else now / c.maxFactor))
  }

  /** The two blocks an adjustment compares; the second is later in time. */
  predicate Comparable(chain: seq<Record>, p: int, q: int) {
    && 0 <= p < |chain| && 0 <= q < |chain|
    && chain[p].timestamp.Some? && chain[q].timestamp.Some?
    && chain[p].timestamp.value < chain[q].timestamp.value
    && chain[p].totalIters <= chain[q].totalIters && chain[p].weight <= chain[q].weight
  }

  function EpochTime(chain: seq<Record>, p: nat, q: nat): nat
    requires Comparable(chain, p, q)
  {
    chain[q].timestamp.value - chain[p].timestamp.value
  }

  function Ratio(a: int, b: int): nat {
    if a < 0 || b <= 0 then 0 else a / b
  }

  function PreciseSsi(c: Constants, chain: seq<Record>, p: nat, q: nat): nat
    requires Comparable(chain, p, q)
  {
    Ratio(c.slotTime * (chain[q].totalIters - chain[p].totalIters), EpochTime(chain, p, q))
  }

  function RoundedSsi(c: Constants, x: int): Option<nat> {
    if x < 0 then None
    else
      var y := Truncate(x, c.significantBits);
      var z := Floor(y, c.numSps);
      if CountBits(z) <= c.significantBits then Some(z) else None
  }

  function PreciseDifficulty(c: Constants, chain: seq<Record>, p: nat, q: nat): nat
    requires Comparable(chain, p, q)
  {
    Ratio((chain[q].weight - chain[p].weight) * c.slotTime, c.slotBlocks * EpochTime(chain, p, q))
  }

  function RoundedDifficulty(c: Constants, x: int): Option<nat> {
    if x < 0 then None
    else
      var z := Truncate(x, c.significantBits);
      if CountBits(z) <= c.significantBits then Some(z) else None
  }

  function AdjustedSsi(c: Constants, chain: seq<Record>, h: nat): Option<nat>
    requires h < |chain|
  {
    var p := PreviousEpochBlock(c, chain, h);
    var q := LastNotAfter(chain, h - 1, chain[h].spTotal);
    if p.None? || !Comparable(chain, p.value, q) then None
    else RoundedSsi(c, Clamp(c, PreciseSsi(c, chain, p.value, q), chain[q].ssi, c.numSps))
  }

  function AdjustedDifficulty(c: Constants, chain: seq<Record>, h: nat): Option<nat>
    requires h < |chain|
  {
    var p := PreviousEpochBlock(c, chain, h);
    var q := LastNotAfter(chain, h - 1, chain[h].spTotal);
    if p.None? || !Comparable(chain, p.value, q) || c.slotBlocks == 0 || h == 0 then None
    else
      var now := Difficulty(chain, h - 1);
      if now < 0 then None else RoundedDifficulty(c, Clamp(c, PreciseDifficulty(c, chain, p.value, q), now, 1))
  }

  ghost function NextSsi(c: Constants, chain: seq<Record>, h: nat, newSlot: bool): Option<nat>
    requires h < |chain|
  {
    if HasSummary(chain[h]) then Some(chain[h].ssi)
    else if h + 1 < c.epoch then Some(c.ssiStarting)
    else if newSlot && CanFinishEpoch(c, chain, h) then AdjustedSsi(c, chain, h)
    else Some(chain[h].ssi)
  }

  ghost function NextDifficulty(c: Constants, chain: seq<Record>, h: nat, newSlot: bool): Option<int>
    requires h < |chain|
  {
    if HasSummary(chain[h]) then Some(Difficulty(chain, h))
    else if h + 1 < c.epoch - 3 * c.maxSlotBlocks then Some(c.difficultyStarting)
    else if newSlot && CanFinishEpoch(c, chain, h) then AdjustedDifficulty(c, chain, h)
    else Some(Difficulty(chain, h))
  }
}
