/** Chains at which the search for the previous summary and the look-back for a challenge fail. */
module HeaderExamples {
  import opened Ledger
  import opened SignificantBits
  import opened PotIterations
  import opened HeaderChain
  import opened EpochRules
  import opened HeaderRules
  import opened Prefixes
  import opened Slots
  import opened SignagePoints
  import opened SubEpochs
  import opened Adjustments
  import opened Extension
  import opened Growth

  // ---- a challenge that is not found ----

  const DEFAULT_SSI: nat := 0x800_0000
  const DEFAULT_INTERVAL: nat := 0x20_0000

  /** A first block infused in the second slot, with its signage point in the first. */
  function LateFirst(): Record {
    var slot := SubSlot(Vdf(GENESIS_CHALLENGE, DEFAULT_SSI), 1, None, None, None, None, None,
                        Vdf(GENESIS_CHALLENGE, DEFAULT_SSI), 1, None, 16, 1);
    Record(0, 0, 1, DEFAULT_SSI + 1, 61, 1, DEFAULT_SSI, 1, 61 * DEFAULT_INTERVAL, 15, true, Some(0), [slot],
           GENESIS_CHALLENGE, Some(Vdf(GENESIS_CHALLENGE, 61 * DEFAULT_INTERVAL)),
           Some(Vdf(GENESIS_CHALLENGE, 61 * DEFAULT_INTERVAL)), false, 0, 0, true)
  }

  /** A block after it in the same slot, from the same signage point. */
  function LateSecond(): Record {
    Record(1, 1, 2, DEFAULT_SSI + 2, 61, 2, DEFAULT_SSI, 2, 61 * DEFAULT_INTERVAL, 14, true, None, [],
           0, None, None, true, 0, 0, true)
  }

  lemma DefaultInterval()
    ensures Interval(DEFAULT_CONSTANTS, DEFAULT_SSI) == DEFAULT_INTERVAL && DEFAULT_SSI == 64 * DEFAULT_INTERVAL
  {
  }

  /** The default constants allow it: an accepted first block, and a second one for which no challenge is found. */
  lemma ChallengeMissingExample()
    ensures ValidHeaders(DEFAULT_CONSTANTS, [LateFirst()])
    ensures ValidUpTo(DEFAULT_CONSTANTS, [LateFirst(), LateSecond()], 2)
    ensures BlockChallenge([LateFirst(), LateSecond()], 1, [], true, false).None?
  {
    var c, chain := DEFAULT_CONSTANTS, [LateFirst(), LateSecond()];
    DefaultInterval();
    assert Structural(c, [LateFirst()], 0);
    assert Accepted(c, [LateFirst()], 0);
    assert Structural(c, chain, 0);
    assert Structural(c, chain, 1);
    NewestTwoEnds(chain, 0);
  }

  // ---- summaries that cannot be made ----

  lemma FirstTip()
    ensures Sane(DEFAULT_CONSTANTS) && At(DEFAULT_CONSTANTS, [FirstRecord()], Tip(1, 1, 15, -1, false))
  {
    DefaultsAreSane();
    FirstRecordAccepted();
    assert PacedAt([FirstRecord()], 0);
  }

  /** The first slot, full. */
  lemma FullFirstSlot() returns (e: seq<Record>)
    ensures At(DEFAULT_CONSTANTS, e, Tip(128, 128, 0, -1, false))
  {
    FirstTip();
    e := Fill(DEFAULT_CONSTANTS, [FirstRecord()], Tip(1, 1, 15, -1, false), 127);
  }

  /** Three slots over which the deficit is paid off late: a full one of overflow blocks, one of a single block, and a
      full one. The first begins just before a window, the last ends 256 blocks into it. */
  lemma SlowSlots(c: Constants, chain: seq<Record>, n: nat, size: nat, summary: int) returns (e: seq<Record>)
    requires c == DEFAULT_CONSTANTS && At(c, chain, Tip(n, size, 0, summary, false))
    requires n + 257 <= c.epoch && (n + 1) % c.subEpoch == 0 && (n >= c.subEpoch ==> summary == n + 1 - c.subEpoch)
    ensures At(c, e, Tip(n + 257, 128, 0, summary, false))
  {
    DefaultsAreSane();
    var tip := Tip(n, size, 0, summary, false);
    NotDueBefore(c, tip);
    e := AddOverflowSlot(c, chain, tip, 128);
    e := AddSlot(c, e, Tip(n + 128, 128, 16, summary, true), 1);
    e := AddSlot(c, e, Tip(n + 129, 1, 15, summary, false), 128);
  }

  /** At the end of a window whose summary came with its first block, no further one is due. */
  lemma NotDueBefore(c: Constants, tip: Tip)
    requires c == DEFAULT_CONSTANTS && (tip.length + 1) % c.subEpoch == 0
    requires tip.length >= c.subEpoch ==> tip.summary == tip.length + 1 - c.subEpoch
    ensures !Due(c, tip)
  {
    if tip.length >= c.subEpoch {
      var low := tip.length + 1 - c.subEpoch;
      Quotient(low, c.subEpoch, (tip.length + 1) / c.subEpoch - 1, 0);
      WindowOf(c, low, tip.length);
    }
  }

  /** An accepted chain of 640 blocks that no block can follow: its slot is full, a summary is due with the next slot,
      and the search for the summary before it fails. */
  lemma DeadEnd() returns (chain: seq<Record>)
    ensures ValidHeaders(DEFAULT_CONSTANTS, chain) && |chain| == 640
    ensures !exists r :: ValidHeaders(DEFAULT_CONSTANTS, chain + [r])
    ensures CanFinishSubEpoch(DEFAULT_CONSTANTS, chain, 639) && LastSummary(chain, 639) == -1
  {
    var c := DEFAULT_CONSTANTS;
    FirstTip();
    chain := FullFirstSlot();
    chain := AddSlot(c, chain, Tip(128, 128, 0, -1, false), 128);
    chain := AddSlot(c, chain, Tip(256, 128, 0, -1, false), 127);
    chain := SlowSlots(c, chain, 383, 127, -1);
    NoWayOn(c, chain, Tip(640, 128, 0, -1, false));
  }

  /** An accepted chain of 1152 blocks that no block can follow: the summary before the one that is due is found, but
      lies 256 blocks into its window, which does not fit into a byte. */
  lemma DeadEndByte() returns (chain: seq<Record>)
    ensures ValidHeaders(DEFAULT_CONSTANTS, chain) && |chain| == 1152
    ensures !exists r :: ValidHeaders(DEFAULT_CONSTANTS, chain + [r])
    ensures CanFinishSubEpoch(DEFAULT_CONSTANTS, chain, 1151) && LastSummary(chain, 1151) == 768 + 256
  {
    var c := DEFAULT_CONSTANTS;
    FirstTip();
    chain := ThreeWindows();
    chain := AddSlot(c, chain, Tip(1024, 128, 0, 384, false), 128);
    NoWayOn(c, chain, Tip(1152, 128, 0, 1024, false));
  }

  lemma ThreeWindows() returns (chain: seq<Record>)
    ensures At(DEFAULT_CONSTANTS, chain, Tip(1024, 128, 0, 384, false))
  {
    var c := DEFAULT_CONSTANTS;
    FirstTip();
    chain := FullFirstSlot();
    chain := AddSlot(c, chain, Tip(128, 128, 0, -1, false), 128);
    chain := AddSlot(c, chain, Tip(256, 128, 0, -1, false), 128);
    chain := AddSlot(c, chain, Tip(384, 128, 0, -1, false), 128);
    chain := AddSlot(c, chain, Tip(512, 128, 0, 384, false), 128);
    chain := AddSlot(c, chain, Tip(640, 128, 0, 384, false), 127);
    chain := SlowSlots(c, chain, 767, 127, 384);
  }

  // ---- a shorter chain that is heavier ----

  lemma SameDifficulty(c: Constants, chain: seq<Record>, n: nat, h: nat)
    requires ValidUpTo(c, chain, n) && h < n
    ensures NextDifficulty(c, chain, h, false) == Some(Difficulty(chain, h))
  {
    if h + 1 < c.epoch - 3 * c.maxSlotBlocks { FirstEpochDifficulty(c, chain, n, h); }
  }

  lemma AddBlock(c: Constants, chain: seq<Record>, way: Way) returns (r: Record)
    requires Ready(c, chain, way) && !way.overflow && ValidHeaders(c, chain)
    ensures ValidHeaders(c, chain + [r]) && (r.slots != [] <==> way.newSlot)
    ensures r.weight == chain[|chain| - 1].weight + way.difficulty
  {
    r := DraftAccepted(c, chain, way);
    HeadersNext(c, chain, r);
  }

  lemma NextInSlot(c: Constants, chain: seq<Record>) returns (way: Way)
    requires Sane(c) && chain != [] && ValidHeaders(c, chain) && SlotRoom(c, chain)
    ensures Ready(c, chain, way) && !way.newSlot && !way.overflow && way.difficulty == Difficulty(chain, |chain| - 1)
  {
    AcceptedIsStructural(c, chain);
    way := WayOn(c, chain, false);
    SameDifficulty(c, chain, |chain|, |chain| - 1);
  }

  /** A block more in the same slot: as hard as the one before. */
  lemma AddToSlot(c: Constants, chain: seq<Record>) returns (r: Record)
    requires Sane(c) && chain != [] && ValidHeaders(c, chain) && SlotRoom(c, chain)
    ensures ValidHeaders(c, chain + [r]) && SlotFirst(chain + [r], |chain|) == SlotFirst(chain, |chain| - 1)
    ensures r.weight == chain[|chain| - 1].weight + Difficulty(chain, |chain| - 1)
  {
    var way := NextInSlot(c, chain);
    r := AddBlock(c, chain, way);
    StaysInSlot(chain, r);
  }

  lemma {:induction false} StaysInSlot(chain: seq<Record>, r: Record)
    requires chain != [] && r.slots == []
    ensures SlotFirst(chain + [r], |chain|) == SlotFirst(chain, |chain| - 1)
  {
    Appended(chain, r);
    SlotFirstSame(chain, chain + [r], |chain|, |chain| - 1);
  }

  /** Two ways on from a chain: three blocks in the last slot, or one that begins a new slot. */
  ghost predicate Fork(c: Constants, chain: seq<Record>, a: seq<Record>, b: Record) {
    chain != [] && |a| == 3 && ValidHeaders(c, chain + a) && ValidHeaders(c, chain + [b])
  }

  /** At the end of an epoch, three blocks of the old difficulty `d` weigh `3 * d`, and one of the new slot as much as
      the adjustment says, which is up to the factor times `d`. */
  lemma TwoWaysOn(c: Constants, chain: seq<Record>) returns (a: seq<Record>, b: Record)
    requires Sane(c) && chain != [] && ValidHeaders(c, chain) && SlotPossible(c, chain)
    requires |chain| - SlotFirst(chain, |chain| - 1) + 3 <= c.maxSlotBlocks
    ensures Fork(c, chain, a, b)
    ensures var w, d := chain[|chain| - 1].weight, Difficulty(chain, |chain| - 1);
      && a[0].weight == w + d && a[1].weight == w + 2 * d && a[2].weight == w + 3 * d
      && NextDifficulty(c, chain, |chain| - 1, true) == Some(b.weight - w)
  {
    var low := AddToSlot(c, chain);
    var high := AddToSlot(c, chain + [low]);
    var last := AddToSlot(c, chain + [low] + [high]);
    a := [low, high, last];
    assert chain + [low] + [high] + [last] == chain + a;
    AcceptedIsStructural(c, chain);
    var way := WayOn(c, chain, true);
    b := AddBlock(c, chain, way);
  }

  // An epoch of slots of 16 blocks, which is as many as it takes to pay off a deficit.

  function EpochTip(k: nat): Tip
    requires k > 0
  {
    Tip(16 * k, 16, 0, if k <= 24 then -1 else 384 * ((k - 1) / 24), false)
  }

  lemma EpochTipNext(c: Constants, k: nat)
    requires c == DEFAULT_CONSTANTS && 0 < k < 288
    ensures Due(c, EpochTip(k)) ==> Makeable(c, EpochTip(k)) && EpochTip(k + 1).summary == 16 * k
    ensures !Due(c, EpochTip(k)) ==> EpochTip(k + 1).summary == EpochTip(k).summary
  {
  }

  lemma {:induction false} EvenEpoch(c: Constants, k: nat) returns (e: seq<Record>)
    requires c == DEFAULT_CONSTANTS && 0 < k <= 288
    ensures At(c, e, EpochTip(k))
  {
    FirstTip();
    if k == 1 {
      e := Fill(c, [FirstRecord()], Tip(1, 1, 15, -1, false), 15);
    } else {
      e := EvenEpoch(c, k - 1);
      EpochTipNext(c, k - 1);
      e := AddSlot(c, e, EpochTip(k - 1), 16);
    }
  }

  lemma FastEpoch(blocks: nat, time: nat)
    requires 0 < time <= blocks
    ensures Ratio(blocks * 600, 32 * time) >= 3
  {
    AtLeast(blocks * 600, 32 * time, 3);
  }

  lemma ThreeIsShort()
    ensures RoundedDifficulty(DEFAULT_CONSTANTS, 3) == Some(3)
  {
    assert BitLength(3) == 1 + BitLength(1) && BitLength(1) == 1 + BitLength(0);
  }

  /** If the timestamps of the first epoch run no faster than its heights, it was far too fast. */
  lemma Threefold(c: Constants, chain: seq<Record>)
    requires c == DEFAULT_CONSTANTS && Sane(c) && ValidUpTo(c, chain, |chain|) && Paced(chain)
    requires |chain| == c.epoch && CanFinishEpoch(c, chain, c.epoch - 1)
    ensures AdjustedDifficulty(c, chain, c.epoch - 1) == Some(3) && Difficulty(chain, c.epoch - 1) == 1
  {
    var n, h := |chain|, |chain| - 1;
    AdjustmentDefined(c, chain, n, h);
    var q := LastNotAfter(chain, h - 1, chain[h].spTotal);
    FirstEpochWeight(c, chain, n, 0);
    FirstEpochWeight(c, chain, n, q);
    FirstEpochWeight(c, chain, n, h);
    FirstEpochWeight(c, chain, n, h - 1);
    assert PreviousEpochBlock(c, chain, h) == Some(0);
    assert PacedAt(chain, q);
    FastEpoch(q, EpochTime(chain, 0, q));
    ThreeIsShort();
  }

  /** The next slot is long enough. */
  lemma LongSlot(c: Constants, chain: seq<Record>)
    requires c == DEFAULT_CONSTANTS && Sane(c) && ValidUpTo(c, chain, |chain|) && |chain| == c.epoch
    ensures var ssi := NextSsi(c, chain, c.epoch - 1, true); ssi.Some? && 2 * c.numSps <= ssi.value
  {
    NextParamsDefined(c, chain, |chain|, |chain| - 1, true);
    FirstEpochSsi(c, chain, |chain|, |chain| - 1);
    assert Pow2(3) == 8;
    Pow2Add(3, 4);
  }

  lemma EpochEndReached() returns (chain: seq<Record>)
    ensures Sane(DEFAULT_CONSTANTS) && ValidHeaders(DEFAULT_CONSTANTS, chain) && |chain| == 4608
    ensures SlotPossible(DEFAULT_CONSTANTS, chain) && SlotFirst(chain, 4607) == 4592
    ensures NextDifficulty(DEFAULT_CONSTANTS, chain, 4607, true) == Some(3) && Difficulty(chain, 4607) == 1
  {
    var c := DEFAULT_CONSTANTS;
    DefaultsAreSane();
    chain := EvenEpoch(c, 288);
    EpochEnds(c, chain);
    Threefold(c, chain);
    LongSlot(c, chain);
  }

  lemma {:induction false} EpochEnds(c: Constants, chain: seq<Record>)
    requires c == DEFAULT_CONSTANTS && Sane(c) && At(c, chain, EpochTip(288))
    ensures ValidHeaders(c, chain) && ValidUpTo(c, chain, |chain|) && Paced(chain) && |chain| == c.epoch
    ensures CanFinishEpoch(c, chain, c.epoch - 1) && CanMakeSummary(c, chain, c.epoch)
    ensures SlotFirst(chain, c.epoch - 1) == c.epoch - 16
  {
    var tip := EpochTip(288);
    assert AtFor(c, chain, tip, true);
    AcceptedIsStructural(c, chain);
    DueExact(c, chain, tip);
    MakeableExact(c, chain, tip);
  }

  /** With the default constants: two accepted chains that part at the end of the first epoch, of which the one with a
      single block after the fork outweighs the other after two blocks, and equals it after three. */
  lemma ShorterHeavier() returns (chain: seq<Record>, a: seq<Record>, b: Record)
    ensures |chain| == DEFAULT_CONSTANTS.epoch && Fork(DEFAULT_CONSTANTS, chain, a, b)
    ensures var w := chain[|chain| - 1].weight;
      a[0].weight == w + 1 && a[1].weight == w + 2 && a[2].weight == w + 3 && b.weight == w + 3
  {
    chain := EpochEndReached();
    a, b := TwoWaysOn(DEFAULT_CONSTANTS, chain);
  }
}
