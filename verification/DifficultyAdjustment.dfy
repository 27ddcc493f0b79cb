/** The code that decides when a sub-epoch or an epoch can end, and computes the next parameters. */
module DifficultyAdjustment {
  import opened Ledger
  import opened SignificantBits
  import opened PotIterations
  import opened HeaderChain
  import opened EpochRules
  import opened HeaderRules
  import opened Slots
  import opened TxSpacing
  import opened SubEpochs
  import opened Adjustments

  lemma OnlyStart(w: nat, x: nat, m: nat)
    requires m > 0 && w % m == 0 && w <= x < w + m
    ensures x % m == x - w
  {
    Quotient(x, m, w / m, x - w);
  }

  /** Walks back to the start of the window. */
  method SummarySince(c: Constants, chain: seq<Record>, from: nat, ghost w: nat) returns (found: bool)
    requires c.subEpoch > 0 && from < |chain| && w % c.subEpoch == 0 && w <= from < w + c.subEpoch
    ensures found <==> !NoSummary(chain, w, from + 1)
  {
    var curr := from;
    OnlyStart(w, curr, c.subEpoch);
    while curr % c.subEpoch > 0
      invariant w <= curr <= from && curr % c.subEpoch == curr - w && NoSummary(chain, curr + 1, from + 1)
      decreases curr
    {
      if HasSummary(chain[curr]) {
        return true;
      }
      curr := curr - 1;
      OnlyStart(w, curr, c.subEpoch);
    }
    found := HasSummary(chain[curr]);
  }

  lemma WindowBefore(c: Constants, h: nat)
    requires c.subEpoch > 0
    ensures (h + 1) % c.subEpoch > 1 ==> h > 0 && WindowStart(c, h - 1) == WindowStart(c, h + 1)
    ensures (h + 1) % c.subEpoch <= 1 ==> WindowStart(c, h + 1) >= h
  {
    WindowBounds(c, h + 1);
    if (h + 1) % c.subEpoch > 1 { WindowOf(c, WindowStart(c, h + 1), h - 1); }
  }

  method CanFinishSubAndFullEpoch(c: Constants, chain: seq<Record>, h: nat) returns (subEpoch: bool, epoch: bool)
    requires Sane(c) && h < |chain|
    ensures subEpoch <==> CanFinishSubEpoch(c, chain, h)
    ensures epoch <==> CanFinishEpoch(c, chain, h)
  {
    if h + 1 < c.subEpoch { return false, false; }
    if chain[h].deficit > 0 { return false, false; }
    if HasSummary(chain[h]) { return false, false; }
    WindowBefore(c, h);
    if (h + 1) % c.subEpoch > 1 {
      WindowBounds(c, h - 1);
      var found := SummarySince(c, chain, h - 1, WindowStart(c, h - 1));
      if found { return false, false; }
    }
    return true, CanBeFirstInEpoch(c, h + 1);
  }

  // ---- fetching by height ----

  /** The records that the node's height index names. */
  type Index = map<nat, Record>

  /** The index names block `j` of the chain. */
  predicate Named(chain: seq<Record>, index: Index, j: nat)
    requires j < |chain|
  {
    j in index && index[j].hash == chain[j].hash
  }

  /** The heights `target` to `target + count - 1` can be read from the index for an ancestor search from block `j`:
      it names the chain's own blocks there, or does not name block `j`. */
  ghost predicate Followed(chain: seq<Record>, index: Index, j: nat, target: nat, count: nat)
    requires j < |chain|
  {
    Named(chain, index, j) ==> forall h :: target <= h < target + count ==> ReadsOwn(chain, index, h)
  }

  ghost predicate ReadsOwn(chain: seq<Record>, index: Index, h: nat) {
    h < |chain| ==> h in index && index[h] == chain[h]
  }

  method ReadIndex(index: Index, target: nat, count: nat) returns (r: Option<seq<Record>>)
    ensures r.Some? <==> forall h :: target <= h < target + count ==> h in index
    ensures r.Some? ==> |r.value| == count && forall i :: 0 <= i < count ==> r.value[i] == index[target + i]
  {
    var list := [];
    for h := target to target + count
      invariant |list| == h - target && forall k :: target <= k < h ==> k in index
      invariant forall i :: 0 <= i < h - target ==> list[i] == index[target + i]
    {
      if h !in index { return None; }
      list := list + [index[h]];
    }
    r := Some(list);
  }

  method ReadChain(chain: seq<Record>, j: nat, target: nat, count: nat) returns (r: seq<Record>)
    requires target + count <= j + 1 <= |chain|
    ensures r == chain[target..target + count]
  {
    var curr, found := j, [];
    ghost var high := target + count;
    while curr >= target
      invariant curr <= j && (curr == j || target <= curr + 1)
      invariant |found| == if curr + 1 < high then high - (curr + 1) else 0
      invariant forall k :: 0 <= k < |found| ==> found[k] == chain[high - 1 - k]
      decreases curr
    {
      if curr < target + count { found := found + [chain[curr]]; }
      if curr == 0 { break; }
      curr := curr - 1;
    }
    r := seq(|found|, k requires 0 <= k < |found| => found[|found| - 1 - k]);
  }

  lemma ReadExact(chain: seq<Record>, index: Index, target: nat, count: nat, r: Option<seq<Record>>)
    requires target + count <= |chain|
    requires r.Some? <==> forall h :: target <= h < target + count ==> h in index
    requires r.Some? ==> |r.value| == count && forall i :: 0 <= i < count ==> r.value[i] == index[target + i]
    ensures r == Some(chain[target..target + count]) <==>
      forall h :: target <= h < target + count ==> ReadsOwn(chain, index, h)
  {
    if r == Some(chain[target..target + count]) {
      forall h | target <= h < target + count ensures ReadsOwn(chain, index, h) {
        assert r.value[h - target] == index[target + (h - target)];
      }
    }
    if forall h :: target <= h < target + count ==> ReadsOwn(chain, index, h) {
      forall h | target <= h < target + count ensures h in index { assert ReadsOwn(chain, index, h); }
      forall i | 0 <= i < count ensures r.value[i] == chain[target + i] { assert ReadsOwn(chain, index, target + i); }
      assert r.value == chain[target..target + count];
    }
  }

  /** Ancestors of block `j` by height, through the index if it names that block, and else parent by parent. */
  method RecordsAtHeight(chain: seq<Record>, index: Index, j: nat, target: nat, count: nat)
    returns (r: Option<seq<Record>>)
    requires target + count <= j + 1 <= |chain|
    ensures r == Some(chain[target..target + count]) <==> Followed(chain, index, j, target, count)
  {
    if j in index && index[j].hash == chain[j].hash {
      r := ReadIndex(index, target, count);
      ReadExact(chain, index, target, count, r);
    } else {
      var list := ReadChain(chain, j, target, count);
      r := Some(list);
    }
  }

  /** The block before the first summary at or above `mark`. Blocks are read from the fetched part of the chain,
      which starts at height `low`; the first round reads the same block again, as the code does. */
  method BeforeSummary(fetched: seq<Record>, low: nat, mark: nat, ghost high: nat, ghost chain: seq<Record>)
    returns (curr: nat)
    requires low < mark <= high < |chain| && FirstSummary(chain, mark, high) >= 0 && fetched == chain[low..high + 1]
    ensures curr == FirstSummary(chain, mark, high) - 1
  {
    ghost var s := FirstSummary(chain, mark, high);
    curr := mark - 1;
    var next, index := mark, mark - low;
    while !HasSummary(fetched[next - low])
      invariant mark <= next <= s
      invariant if index == mark - low then next == mark && curr == mark - 1
                else index == next + 1 - low && (curr == next - 1 || (curr == next == mark && !HasSummary(chain[mark])))
      decreases s + 1 - index
    {
      curr := next;
      next := low + index;
      index := index + 1;
    }
  }

  /** The second transaction block at or before `j`. */
  method BackToSecondTx(chain: seq<Record>, j: nat) returns (curr: nat)
    requires j < |chain| && SecondTx(chain, j) >= 0
    ensures curr == SecondTx(chain, j)
  {
    ghost var last := LastTxAt(chain, j);
    curr := j;
    var found := if IsTx(chain[curr]) then 1 else 0;
    while found < 2
      invariant curr <= j && found <= 2
      invariant found == 0 ==> last == LastTxAt(chain, curr) && !IsTx(chain[curr])
      invariant found == 1 ==> curr == last || (curr < last && !IsTx(chain[curr]))
      invariant found == 1 && curr < last ==> LastTxAt(chain, last - 1) == LastTxAt(chain, curr)
      invariant found == 2 ==> curr == SecondTx(chain, j)
      decreases curr
    {
      curr := curr - 1;
      if IsTx(chain[curr]) {
        found := found + 1;
      }
    }
  }

  /** Where the code takes the previous epoch to have begun, for an adjustment after block `h`. */
  function Mark(c: Constants, h: nat): int
    requires c.epoch > 0
  {
    var next := HeightInNextEpoch(c, h);
    next - next % c.epoch - c.epoch
  }

  /** The last height fetched around the boundary. */
  function High(c: Constants, mark: nat): nat { mark + 2 * c.maxSlotBlocks + c.minBlocks + 1 }

  /** The heights around the boundary can be read from the index, from block `j` on. */
  ghost predicate MarkFollowed(c: Constants, chain: seq<Record>, index: Index, j: nat, mark: int)
    requires j < |chain|
  {
    if mark <= c.maxSlotBlocks then Followed(chain, index, j, 0, 1)
    else Followed(chain, index, j, mark - c.maxSlotBlocks - 1, 3 * c.maxSlotBlocks + c.minBlocks + 3)
  }

  /** The heights an adjustment after block `h` reads, from the block below, can be read from the index. */
  ghost predicate EpochFollowed(c: Constants, chain: seq<Record>, index: Index, h: nat)
    requires h < |chain|
  {
    0 < h && 0 < c.epoch ==> MarkFollowed(c, chain, index, h - 1, Mark(c, h))
  }

  /** What there is to find around the boundary, below block `h`. */
  ghost predicate MarkOk(c: Constants, chain: seq<Record>, h: nat, mark: int)
    requires h < |chain|
  {
    && 0 < h && 0 <= mark
    && (mark > 0 ==>
          && mark > c.maxSlotBlocks && High(c, mark) < h && FirstSummary(chain, mark, High(c, mark)) >= 0
          && SecondTx(chain, FirstSummary(chain, mark, High(c, mark)) - 1) >= 0)
  }

  ghost function BlockAtMark(c: Constants, chain: seq<Record>, h: nat, mark: int): int
    requires h < |chain| && MarkOk(c, chain, h, mark)
  {
    if mark == 0 then 0 else SecondTx(chain, FirstSummary(chain, mark, High(c, mark)) - 1)
  }

  lemma MarkFacts(c: Constants, chain: seq<Record>, n: nat, h: nat)
    requires Sane(c) && ValidUpTo(c, chain, n) && h < n && CanFinishEpoch(c, chain, h)
    ensures MarkOk(c, chain, h, Mark(c, h)) && HeightInNextEpoch(c, h) - (Mark(c, h) + c.epoch) < 5 * c.maxSlotBlocks
    ensures PreviousEpochBlock(c, chain, h) == Some(BlockAtMark(c, chain, h, Mark(c, h)))
  {
    var w := EpochEndAt(c, chain, n, h);
    PreviousEpochFound(c, chain, n, h, w);
    BoundaryGuess(c, h, w);
  }

  /** Reads around the boundary, finds where the summary is included, and goes back from there. */
  method SecondTxBefore(c: Constants, chain: seq<Record>, index: Index, h: nat, mark: nat, ghost n: nat)
    returns (p: nat)
    requires ValidUpTo(c, chain, n) && h < n && MarkOk(c, chain, h, mark) && MarkFollowed(c, chain, index, h - 1, mark)
    ensures p == BlockAtMark(c, chain, h, mark)
  {
    if mark == 0 {
      var first := RecordsAtHeight(chain, index, h - 1, 0, 1);
      assert StructuralAt(c, chain, n, 0);
      return first.value[0].height;
    }
    var low, count := mark - c.maxSlotBlocks - 1, 3 * c.maxSlotBlocks + c.minBlocks + 3;
    var fetched := RecordsAtHeight(chain, index, h - 1, low, count);
    var curr := BeforeSummary(fetched.value, low, mark, low + count - 1, chain);
    p := BackToSecondTx(chain, curr);
  }

  method SecondToLastTransactionBlock(c: Constants, chain: seq<Record>, index: Index, h: nat, ghost n: nat)
    returns (p: nat)
    requires Sane(c) && ValidUpTo(c, chain, n) && h < n && CanFinishEpoch(c, chain, h)
    requires EpochFollowed(c, chain, index, h)
    ensures PreviousEpochBlock(c, chain, h) == Some(p)
  {
    MarkFacts(c, chain, n, h);
    assert HeightInNextEpoch(c, h) - (Mark(c, h) + c.epoch) < 5 * c.maxSlotBlocks;
    p := SecondTxBefore(c, chain, index, h, Mark(c, h), n);
  }

  method LastTxNotAfter(chain: seq<Record>, j: nat, sp: int) returns (q: nat)
    requires j < |chain| && LastNotAfter(chain, j, sp) >= 0
    ensures q == LastNotAfter(chain, j, sp)
  {
    q := j;
    while chain[q].totalIters > sp || !IsTx(chain[q])
      invariant q <= j && LastNotAfter(chain, j, sp) == LastNotAfter(chain, q, sp)
      decreases q
    {
      q := q - 1;
    }
  }

  /** The adjusted slot length and difficulty; none of the code's checks fails. */
  method AdjustSsi(c: Constants, chain: seq<Record>, index: Index, h: nat, ghost n: nat) returns (ssi: nat)
    requires Sane(c) && ValidUpTo(c, chain, n) && h < n && CanFinishEpoch(c, chain, h)
    requires EpochFollowed(c, chain, index, h)
    ensures AdjustedSsi(c, chain, h) == Some(ssi)
  {
    AdjustmentDefined(c, chain, n, h);
    AdjustedSsiOk(c, chain, n, h);
    var p := SecondToLastTransactionBlock(c, chain, index, h, n);
    var q := LastTxNotAfter(chain, h - 1, chain[h].spTotal);
    var precise := PreciseSsi(c, chain, p, q);
    var now := chain[q].ssi;
    var clamped :=
      if precise >= now then Min(precise, c.maxFactor * now) else Max(c.numSps, Max(precise, now / c.maxFactor));
    ssi := Truncate(clamped, c.significantBits);
    ssi := Floor(ssi, c.numSps);
    var bits := CountSignificantBits(ssi);
    assert bits <= c.significantBits;
  }

  method AdjustDifficulty(c: Constants, chain: seq<Record>, index: Index, h: nat, ghost n: nat)
    returns (difficulty: nat)
    requires Sane(c) && ValidUpTo(c, chain, n) && h < n && CanFinishEpoch(c, chain, h)
    requires EpochFollowed(c, chain, index, h)
    ensures AdjustedDifficulty(c, chain, h) == Some(difficulty)
  {
    AdjustmentDefined(c, chain, n, h);
    AdjustedDifficultyOk(c, chain, n, h);
    DifficultyPositive(c, chain, n, h - 1);
    var p := SecondToLastTransactionBlock(c, chain, index, h, n);
    var q := LastTxNotAfter(chain, h - 1, chain[h].spTotal);
    var precise := PreciseDifficulty(c, chain, p, q);
    var now := Difficulty(chain, h - 1);
    var clamped := if precise >= now then Min(precise, c.maxFactor * now) else Max(1, Max(precise, now / c.maxFactor));
    difficulty := Truncate(clamped, c.significantBits);
    var bits := CountSignificantBits(difficulty);
    assert bits <= c.significantBits;
  }

  /** Slot length and difficulty of the block after `h`. */
  method NextParams(c: Constants, chain: seq<Record>, index: Index, h: nat, newSlot: bool, ghost n: nat)
    returns (ssi: nat, difficulty: int)
    requires Sane(c) && ValidUpTo(c, chain, n) && h < n
    requires newSlot && CanFinishEpoch(c, chain, h) ==> EpochFollowed(c, chain, index, h)
    ensures NextSsi(c, chain, h, newSlot) == Some(ssi)
    ensures NextDifficulty(c, chain, h, newSlot) == Some(difficulty)
  {
    ssi, difficulty := chain[h].ssi, Difficulty(chain, h);
    if HasSummary(chain[h]) { return; }
    var _, epoch := CanFinishSubAndFullEpoch(c, chain, h);
    if h + 1 < c.epoch - 3 * c.maxSlotBlocks {
      difficulty := c.difficultyStarting;
    } else if newSlot && epoch {
      difficulty := AdjustDifficulty(c, chain, index, h, n);
    }
    if h + 1 < c.epoch {
      ssi := c.ssiStarting;
    } else if newSlot && epoch {
      ssi := AdjustSsi(c, chain, index, h, n);
    }
  }
}
