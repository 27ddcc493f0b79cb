/** Chains built block by block from a first one, known by what the next block depends on. */
module Growth {
  import opened Ledger
  import opened SignificantBits
  import opened PotIterations
  import opened HeaderChain
  import opened EpochRules
  import opened HeaderRules
  import opened Prefixes
  import opened Slots
  import opened SubEpochs
  import opened Adjustments
  import opened Extension

  /** The end of a chain: its length, the number of blocks in its last slot, the last deficit, the last block with a
      summary or -1, and whether the last block overflows. */
  datatype Tip = Tip(length: nat, size: nat, deficit: nat, summary: int, overflow: bool)

  /** Timestamps run no faster than heights. */
  ghost predicate Paced(chain: seq<Record>) {
    forall i :: PacedAt(chain, i)
  }

  ghost predicate PacedAt(chain: seq<Record>, i: nat) {
    i < |chain| && IsTx(chain[i]) ==> chain[i].timestamp.value <= i
  }

  /** The accepted chain ends so; to be unfolded only where it is needed. */
  ghost predicate At(c: Constants, chain: seq<Record>, tip: Tip) {
    forall use :: AtFor(c, chain, tip, use)
  }

  ghost predicate AtFor(c: Constants, chain: seq<Record>, tip: Tip, use: bool) {
    && ValidHeaders(c, chain) && Paced(chain) && |chain| == tip.length > 0 && chain[0].slots == []
    && tip.size == tip.length - SlotFirst(chain, tip.length - 1) && tip.deficit == chain[tip.length - 1].deficit
    && tip.summary == LastSummary(chain, tip.length - 1) && tip.overflow == chain[tip.length - 1].overflow
  }

  /** A summary comes with a new slot. */
  predicate Due(c: Constants, tip: Tip) {
    && tip.length >= c.subEpoch && tip.deficit == 0 && tip.summary < WindowStart(c, tip.length)
    && tip.summary != tip.length - 1
  }

  lemma DueExact(c: Constants, chain: seq<Record>, tip: Tip)
    requires c.subEpoch > 0 && AtFor(c, chain, tip, true)
    ensures CanFinishSubEpoch(c, chain, tip.length - 1) <==> Due(c, tip)
  {
    WindowBounds(c, tip.length);
    if tip.summary >= WindowStart(c, tip.length) { assert HasSummary(chain[tip.summary]); }
  }

  /** The search for the summary before finds none that is needed, or one whose offset fits into a byte. */
  predicate Makeable(c: Constants, tip: Tip) {
    TakenAsFirst(c, tip.length) || (c.subEpoch > 0 && 0 <= tip.summary && tip.summary % c.subEpoch < 256)
  }

  lemma MakeableExact(c: Constants, chain: seq<Record>, tip: Tip)
    requires AtFor(c, chain, tip, true) && tip.summary != tip.length - 1 && c.subEpoch > 0
    ensures CanMakeSummary(c, chain, tip.length) <==> Makeable(c, tip)
  {
  }

  /** Which blocks can follow in the first epoch. */
  predicate Allowed(c: Constants, tip: Tip, newSlot: bool, overflow: bool) {
    && (if newSlot then Due(c, tip) ==> Makeable(c, tip) else tip.size < c.maxSlotBlocks)
    && (overflow && !newSlot ==> tip.overflow)
  }

  function Next(c: Constants, tip: Tip, newSlot: bool, overflow: bool): Tip {
    var deficit := CalculateDeficit(c, Some(tip.deficit), overflow, if newSlot then 1 else 0);
    Tip(tip.length + 1, if newSlot then 1 else tip.size + 1, if deficit < 0 then 0 else deficit,
        if newSlot && Due(c, tip) then tip.length else tip.summary, overflow)
  }

  lemma WayInFirstEpoch(c: Constants, chain: seq<Record>, tip: Tip, newSlot: bool, overflow: bool) returns (way: Way)
    requires Sane(c) && 2 * c.numSps <= c.ssiStarting && AtFor(c, chain, tip, true) && tip.length < c.epoch
    requires Allowed(c, tip, newSlot, overflow)
    ensures Ready(c, chain, way) && way.newSlot == newSlot && way.overflow == overflow
  {
    var n := tip.length;
    AcceptedIsStructural(c, chain);
    NextParamsDefined(c, chain, n, n - 1, newSlot);
    FirstEpochSsi(c, chain, n, n - 1);
    DueExact(c, chain, tip);
    if Due(c, tip) { MakeableExact(c, chain, tip); }
    if CanFinishEpoch(c, chain, n - 1) { EpochEnd(c, chain, n, n - 1); }
    way := Way(newSlot, overflow, c.ssiStarting, NextDifficulty(c, chain, n - 1, newSlot).value);
  }

  lemma {:induction false} NextPaced(chain: seq<Record>, r: Record)
    requires Paced(chain) && chain != []
    requires var t := LastTxAt(chain, |chain| - 1);
      IsTx(r) ==> 0 <= t && r.timestamp.value == chain[t].timestamp.value + 1
    ensures Paced(chain + [r])
  {
    var e, t := chain + [r], LastTxAt(chain, |chain| - 1);
    if t >= 0 { assert PacedAt(chain, t); }
    forall i: nat ensures PacedAt(e, i) { assert PacedAt(chain, i); }
  }

  /** What the new end is. */
  lemma NextTip(c: Constants, chain: seq<Record>, tip: Tip, r: Record)
    requires c.subEpoch > 0 && AtFor(c, chain, tip, true) && Accepted(c, chain + [r], |chain|) && |r.slots| <= 1
    requires Paced(chain + [r])
    ensures At(c, chain + [r], Next(c, tip, r.slots != [], r.overflow))
  {
    var e, n := chain + [r], |chain|;
    Appended(chain, r);
    HeadersNext(c, chain, r);
    SlotFirstSame(chain, e, n, n - 1);
    LastSummarySame(chain, e, n, n - 1);
    CanFinishSame(c, chain, e, n, n - 1);
    DueExact(c, chain, tip);
  }

  lemma Grow(c: Constants, chain: seq<Record>, tip: Tip, newSlot: bool, overflow: bool) returns (e: seq<Record>)
    requires Sane(c) && 2 * c.numSps <= c.ssiStarting && At(c, chain, tip) && tip.length < c.epoch
    requires Allowed(c, tip, newSlot, overflow)
    ensures At(c, e, Next(c, tip, newSlot, overflow))
  {
    assert AtFor(c, chain, tip, true);
    AcceptedIsStructural(c, chain);
    var way := WayInFirstEpoch(c, chain, tip, newSlot, overflow);
    var r := DraftAccepted(c, chain, way);
    e := chain + [r];
    NextPaced(chain, r);
    NextTip(c, chain, tip, r);
  }

  // ---- whole slots ----

  function Less(deficit: nat, count: nat): nat { if deficit < count then 0 else deficit - count }

  /** Room in the first epoch. */
  predicate Fits(c: Constants, tip: Tip, count: nat) {
    2 * c.numSps <= c.ssiStarting && tip.length + count <= c.epoch
  }

  /** More blocks in the same slot, none of which overflows. */
  lemma {:induction false} Fill(c: Constants, chain: seq<Record>, tip: Tip, count: nat) returns (e: seq<Record>)
    requires Sane(c) && At(c, chain, tip) && Fits(c, tip, count) && tip.size + count <= c.maxSlotBlocks
    requires tip.deficit < c.minBlocks && !tip.overflow
    ensures At(c, e, Tip(tip.length + count, tip.size + count, Less(tip.deficit, count), tip.summary, false))
  {
    if count == 0 {
      e := chain;
    } else {
      e := Fill(c, chain, tip, count - 1);
      var last := Tip(tip.length + count - 1, tip.size + count - 1, Less(tip.deficit, count - 1), tip.summary, false);
      e := Grow(c, e, last, false, false);
    }
  }

  /** More blocks in the same slot, all of which overflow. */
  lemma {:induction false} FillOverflow(c: Constants, chain: seq<Record>, tip: Tip, count: nat) returns (e: seq<Record>)
    requires Sane(c) && At(c, chain, tip) && Fits(c, tip, count) && tip.size + count <= c.maxSlotBlocks
    requires tip.deficit == c.minBlocks && tip.overflow
    ensures At(c, e, Tip(tip.length + count, tip.size + count, c.minBlocks, tip.summary, true))
  {
    if count == 0 {
      e := chain;
    } else {
      e := FillOverflow(c, chain, tip, count - 1);
      e := Grow(c, e, Tip(tip.length + count - 1, tip.size + count - 1, c.minBlocks, tip.summary, true), false, true);
    }
  }

  function FirstDeficit(c: Constants, deficit: nat): int {
    if deficit == 0 || deficit == c.minBlocks then c.minBlocks - 1 else deficit - 1
  }

  /** A new slot of blocks that do not overflow; its first block brings the summary, if one is due. */
  lemma AddSlot(c: Constants, chain: seq<Record>, tip: Tip, count: nat) returns (e: seq<Record>)
    requires Sane(c) && At(c, chain, tip) && Fits(c, tip, count) && 0 < count <= c.maxSlotBlocks
    requires tip.deficit <= c.minBlocks && (Due(c, tip) ==> Makeable(c, tip))
    ensures At(c, e, Tip(tip.length + count, count, Less(FirstDeficit(c, tip.deficit), count - 1),
                         if Due(c, tip) then tip.length else tip.summary, false))
  {
    e := Grow(c, chain, tip, true, false);
    e := Fill(c, e, Next(c, tip, true, false), count - 1);
  }

  /** A new slot of overflow blocks after a deficit paid off, while no summary is due. */
  lemma AddOverflowSlot(c: Constants, chain: seq<Record>, tip: Tip, count: nat) returns (e: seq<Record>)
    requires Sane(c) && At(c, chain, tip) && Fits(c, tip, count) && 0 < count <= c.maxSlotBlocks
    requires tip.deficit == 0 && !Due(c, tip)
    ensures At(c, e, Tip(tip.length + count, count, c.minBlocks, tip.summary, true))
  {
    e := Grow(c, chain, tip, true, true);
    e := FillOverflow(c, e, Next(c, tip, true, true), count - 1);
  }

  /** A full slot, with a summary due that cannot be made: no block can follow. */
  lemma {:induction false} NoWayOn(c: Constants, chain: seq<Record>, tip: Tip)
    requires Sane(c) && At(c, chain, tip) && tip.size >= c.maxSlotBlocks && Due(c, tip) && !Makeable(c, tip)
    ensures |chain| == tip.length && ValidHeaders(c, chain) && LastSummary(chain, |chain| - 1) == tip.summary
    ensures CanFinishSubEpoch(c, chain, |chain| - 1) && !CanMakeSummary(c, chain, |chain|)
    ensures !exists r :: ValidHeaders(c, chain + [r])
  {
    assert AtFor(c, chain, tip, true);
    DueExact(c, chain, tip);
    MakeableExact(c, chain, tip);
    ExtendsExact(c, chain);
  }
}
