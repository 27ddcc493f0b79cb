/** Where sub-epoch summaries fall in accepted chains: at most one in each window of SUB_EPOCH_BLOCKS heights,
    none in the first, and in every later window one soon after its start. */
module SubEpochs {
  import opened Ledger
  import opened SignificantBits
  import opened PotIterations
  import opened HeaderChain
  import opened EpochRules
  import opened HeaderRules
  import opened Slots
  import opened TxSpacing
  import opened Deficits

  lemma SummaryRule(c: Constants, chain: seq<Record>, n: nat, i: nat)
    requires ValidUpTo(c, chain, n) && i < n
    ensures SummaryOk(c, chain, i)
  {
    assert StructuralAt(c, chain, n, i);
  }

  /** `s` starts the window of `i` exactly if it is a multiple of the window length at most that far below. */
  lemma WindowOf(c: Constants, s: nat, i: nat)
    requires c.subEpoch > 0 && s <= i < s + c.subEpoch
    ensures WindowStart(c, i) == s <==> s % c.subEpoch == 0
  {
    if s % c.subEpoch == 0 {
      Quotient(i, c.subEpoch, s / c.subEpoch, i - s);
    } else {
      var q := i / c.subEpoch;
      if i - i % c.subEpoch == s { Quotient(s, c.subEpoch, q, 0); }
    }
  }

  lemma WindowBounds(c: Constants, i: nat)
    requires c.subEpoch > 0
    ensures var s := WindowStart(c, i); s <= i < s + c.subEpoch && s % c.subEpoch == 0
  {
    WindowOf(c, WindowStart(c, i), i);
  }

  lemma AtMostOneSummary(c: Constants, chain: seq<Record>, n: nat, a: nat, b: nat)
    requires Sane(c) && ValidUpTo(c, chain, n) && a < n && b < n && WindowStart(c, a) == WindowStart(c, b)
    requires HasSummary(chain[a]) && HasSummary(chain[b])
    ensures a == b
  {
    WindowBounds(c, a);
    WindowBounds(c, b);
    SummaryRule(c, chain, n, a);
    SummaryRule(c, chain, n, b);
  }

  lemma NoneInFirstWindow(c: Constants, chain: seq<Record>, n: nat, i: nat)
    requires Sane(c) && ValidUpTo(c, chain, n) && i < n && i < c.subEpoch
    ensures !HasSummary(chain[i])
  {
    SummaryRule(c, chain, n, i);
  }

  /** A summary has to come with the first new slot once the deficit is paid off. */
  lemma SummaryForced(c: Constants, chain: seq<Record>, n: nat, s: nat, i: nat)
    requires Sane(c) && ValidUpTo(c, chain, n) && i < n && c.subEpoch <= s < i < s + c.subEpoch && s % c.subEpoch == 0
    requires First(chain, i) && chain[i - 1].deficit == 0 && NoSummary(chain, s, i)
    ensures HasSummary(chain[i])
  {
    SummaryRule(c, chain, n, i);
    WindowOf(c, s, i);
  }

  lemma NextSlot(c: Constants, chain: seq<Record>, n: nat, j: nat) returns (f: nat)
    requires Sane(c) && ValidUpTo(c, chain, n) && j + c.maxSlotBlocks < n
    ensures j < f <= j + c.maxSlotBlocks && First(chain, f) && forall k :: j < k < f ==> !First(chain, k)
  {
    SlotSize(c, chain, n, j + c.maxSlotBlocks);
    var last := SlotFirst(chain, j + c.maxSlotBlocks);
    f := j + 1;
    while !First(chain, f)
      invariant j < f <= last && forall k :: j < k < f ==> !First(chain, k)
      decreases last - f
    {
      f := f + 1;
    }
  }

  /** At the start of a new slot the deficit is below the maximum unless the block has just reset it. */
  lemma DeficitAtSlot(c: Constants, chain: seq<Record>, n: nat, f: nat)
    requires Sane(c) && ValidUpTo(c, chain, n) && 0 < f < n && First(chain, f) && chain[f - 1].deficit > 0
    ensures chain[f].deficit < c.minBlocks
  {
    DeficitRange(c, chain, n, f - 1);
    DeficitRule(c, chain, n, f);
  }

  /** A summary is included at most 2 * MAX_SUB_SLOT_BLOCKS + MIN_BLOCKS_PER_CHALLENGE_BLOCK - 1 blocks past
      the start of every window but the first. */
  lemma SummaryInTime(c: Constants, chain: seq<Record>, n: nat, s: nat)
    requires Sane(c) && ValidUpTo(c, chain, n) && c.subEpoch <= s && s % c.subEpoch == 0
    requires s + 2 * c.maxSlotBlocks + c.minBlocks - 1 < n
    ensures FirstSummary(chain, s, s + 2 * c.maxSlotBlocks + c.minBlocks - 1) >= 0
  {
    if FirstSummary(chain, s, s + 2 * c.maxSlotBlocks + c.minBlocks - 1) < 0 {
      var f := NextSlot(c, chain, n, s);
      if chain[f - 1].deficit > 0 {
        DeficitAtSlot(c, chain, n, f);
        var g := f + chain[f].deficit;
        PayOff(c, chain, n, f, chain[f].deficit);
        f := NextSlot(c, chain, n, g);
        StaysZero(c, chain, n, g, f - 1);
      }
      SummaryForced(c, chain, n, s, f);
    }
  }

  lemma PositiveMultiple(w: nat, m: nat)
    requires m > 0 && w > 0 && w % m == 0
    ensures w >= m
  {
  }

  lemma LaterWindow(c: Constants, i: nat)
    requires c.subEpoch > 0 && i >= c.subEpoch
    ensures WindowStart(c, i) >= c.subEpoch
  {
    WindowBounds(c, i);
    PositiveMultiple(WindowStart(c, i), c.subEpoch);
  }

  /** The latest block after which a window still waits for its summary. */
  lemma WindowWaits(c: Constants, chain: seq<Record>, n: nat, h: nat, w: nat)
    requires Sane(c) && ValidUpTo(c, chain, n) && h < n && c.subEpoch <= w && w % c.subEpoch == 0
    requires NoSummary(chain, w, h) && !HasSummary(chain[h])
    ensures h <= w + 2 * c.maxSlotBlocks + c.minBlocks - 2
  {
    if h >= w + 2 * c.maxSlotBlocks + c.minBlocks - 1 { SummaryInTime(c, chain, n, w); }
  }

  /** Where an epoch can end. */
  lemma EpochEnd(c: Constants, chain: seq<Record>, n: nat, h: nat)
    requires Sane(c) && ValidUpTo(c, chain, n) && h < n && CanFinishEpoch(c, chain, h)
    ensures var w := WindowStart(c, h + 1);
      && w % c.epoch == 0 && w >= c.epoch && w % c.subEpoch == 0
      && w - 1 <= h <= w + 2 * c.maxSlotBlocks + c.minBlocks - 2
  {
    WindowBounds(c, h + 1);
    LaterWindow(c, h + 1);
    PositiveMultiple(WindowStart(c, h + 1), c.epoch);
    WindowWaits(c, chain, n, h, WindowStart(c, h + 1));
  }

  lemma WindowBelow(c: Constants, w: nat)
    requires c.subEpoch > 0 && w % c.subEpoch == 0 && w > c.subEpoch
    ensures (w - c.subEpoch) % c.subEpoch == 0 && w - c.subEpoch >= c.subEpoch
  {
    Quotient(w - c.subEpoch, c.subEpoch, w / c.subEpoch - 1, 0);
    PositiveMultiple(w - c.subEpoch, c.subEpoch);
  }

  lemma {:induction false} LastSummaryAtLeast(chain: seq<Record>, j: int, s: nat)
    requires s <= j < |chain| && HasSummary(chain[s])
    ensures LastSummary(chain, j) >= s
  {
  }

  lemma TakenAsFirstExact(c: Constants, i: nat)
    requires c.subEpoch > 0
    ensures TakenAsFirst(c, i) <==> i + c.maxSlotBlocks < 2 * c.subEpoch
  {
    var x := i + c.maxSlotBlocks;
    var q := x / c.subEpoch;
    assert x == q * c.subEpoch + x % c.subEpoch;
    if q <= 1 { MulLe(q, 1, c.subEpoch); } else { MulLe(2, q, c.subEpoch); }
  }

  /** The search for the summary before a new one finds it, or is not needed, in all cases but one: a first
      summary that comes less than MAX_SUB_SLOT_BLOCKS before the end of its window. */
  lemma {:induction false} PreviousSummaryExact(c: Constants, chain: seq<Record>, i: nat)
    requires Sane(c) && ValidUpTo(c, chain, i) && 0 < i <= |chain| && CanFinishSubEpoch(c, chain, i - 1)
    ensures TakenAsFirst(c, i) || LastSummary(chain, i - 2) >= 0
       <==> !(2 * c.subEpoch - c.maxSlotBlocks <= i < 2 * c.subEpoch)
  {
    TakenAsFirstExact(c, i);
    WindowBounds(c, i);
    var w := WindowStart(c, i);
    if i >= 2 * c.subEpoch {
      WindowBelow(c, w);
      var s := w - c.subEpoch;
      SummaryInTime(c, chain, i, s);
      LastSummaryAtLeast(chain, i - 2, FirstSummary(chain, s, s + 2 * c.maxSlotBlocks + c.minBlocks - 1));
    } else {
      WindowOf(c, c.subEpoch, i);
      forall j | 0 <= j < c.subEpoch ensures !HasSummary(chain[j]) { NoneInFirstWindow(c, chain, i, j); }
    }
  }

  /** A window that has a summary in time has no later one. */
  lemma OnlySummary(c: Constants, chain: seq<Record>, n: nat, low: nat, s: nat)
    requires Sane(c) && ValidUpTo(c, chain, n) && c.subEpoch <= low && low % c.subEpoch == 0
    requires low + 2 * c.maxSlotBlocks + c.minBlocks - 1 < n && low <= s < low + c.subEpoch && s < n
    requires HasSummary(chain[s])
    ensures s <= low + 2 * c.maxSlotBlocks + c.minBlocks - 1
  {
    SummaryInTime(c, chain, n, low);
    var f := FirstSummary(chain, low, low + 2 * c.maxSlotBlocks + c.minBlocks - 1);
    WindowOf(c, low, f);
    WindowOf(c, low, s);
    AtMostOneSummary(c, chain, n, f, s);
  }

  /** The last summary before a window that has none yet lies in the window below. */
  lemma {:induction false} InWindowBelow(c: Constants, chain: seq<Record>, i: nat, w: nat, low: nat)
    requires Sane(c) && ValidUpTo(c, chain, i) && w == low + c.subEpoch && w <= i <= |chain|
    requires NoSummary(chain, w, i - 1) && c.subEpoch <= low && low % c.subEpoch == 0
    ensures low <= LastSummary(chain, i - 2) < w
  {
    SummaryInTime(c, chain, i, low);
    LastSummaryAtLeast(chain, i - 2, FirstSummary(chain, low, low + 2 * c.maxSlotBlocks + c.minBlocks - 1));
  }

  lemma Offset(low: nat, s: nat, m: nat)
    requires m > 0 && low % m == 0 && low <= s < low + m
    ensures s % m == s - low
  {
    Quotient(s, m, low / m, s - low);
  }

  /** The summary before a new one is that of the window before; so its offset in that window is bounded. */
  lemma {:induction false} PreviousOffset(c: Constants, chain: seq<Record>, i: nat)
    requires Sane(c) && ValidUpTo(c, chain, i) && 2 * c.subEpoch <= i <= |chain| && CanFinishSubEpoch(c, chain, i - 1)
    ensures var s := LastSummary(chain, i - 2); s >= 0 && s % c.subEpoch <= 2 * c.maxSlotBlocks + c.minBlocks - 1
  {
    WindowBounds(c, i);
    var w := WindowStart(c, i);
    WindowBelow(c, w);
    var low, s := w - c.subEpoch, LastSummary(chain, i - 2);
    InWindowBelow(c, chain, i, w, low);
    OnlySummary(c, chain, i, low, s);
    Offset(low, s, c.subEpoch);
  }

  /** When a summary can be made: not for a first one that comes too late, nor after one whose offset in its window does
      not fit into a byte. That cannot happen if MAX_SUB_SLOT_BLOCKS and MIN_BLOCKS_PER_CHALLENGE_BLOCK are small. */
  lemma {:induction false} SummaryMadeExact(c: Constants, chain: seq<Record>, i: nat)
    requires Sane(c) && ValidUpTo(c, chain, i) && 0 < i <= |chain| && CanFinishSubEpoch(c, chain, i - 1)
    ensures CanMakeSummary(c, chain, i) <==>
      && !(2 * c.subEpoch - c.maxSlotBlocks <= i < 2 * c.subEpoch)
      && (2 * c.subEpoch <= i ==> LastSummary(chain, i - 2) % c.subEpoch < 256)
    ensures 2 * c.maxSlotBlocks + c.minBlocks - 1 < 256 ==>
      (CanMakeSummary(c, chain, i) <==> !(2 * c.subEpoch - c.maxSlotBlocks <= i < 2 * c.subEpoch))
  {
    PreviousSummaryExact(c, chain, i);
    TakenAsFirstExact(c, i);
    if 2 * c.subEpoch <= i { PreviousOffset(c, chain, i); }
  }
}
