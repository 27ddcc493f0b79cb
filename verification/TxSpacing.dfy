/** Transaction blocks in accepted chains are spread out in iterations and close in height. */
module TxSpacing {
  import opened Ledger
  import opened PotIterations
  import opened HeaderChain
  import opened EpochRules
  import opened HeaderRules
  import opened Slots

  lemma TxRule(c: Constants, chain: seq<Record>, n: nat, i: nat)
    requires ValidUpTo(c, chain, n) && i < n
    ensures TxOk(chain, i)
  {
    assert StructuralAt(c, chain, n, i);
  }

  lemma {:induction false} SlotSize(c: Constants, chain: seq<Record>, n: nat, i: nat)
    requires Sane(c) && ValidUpTo(c, chain, n) && i < n
    ensures i - SlotFirst(chain, i) + 1 <= c.maxSlotBlocks
  {
    assert StructuralAt(c, chain, n, i);
  }

  lemma StartOrdered(c: Constants, chain: seq<Record>, n: nat, g: nat, i: nat)
    requires Sane(c) && ValidUpTo(c, chain, n) && g <= i < n && First(chain, g)
    ensures Start(chain[g]) <= Start(chain[i])
  {
    var f := SlotFirst(chain, i);
    SameSlot(c, chain, n, f, i);
    if g < f { EarlierSlot(c, chain, n, g, f); }
  }

  /** A signage point comes after every block that is two slots with blocks back. */
  lemma {:induction false} SpAfterTwoSlots(c: Constants, chain: seq<Record>, n: nat, j: nat, g: nat, i: nat)
    requires Sane(c) && ValidUpTo(c, chain, n) && i < n && j < g < SlotFirst(chain, i) && First(chain, g)
    ensures chain[i].spTotal > chain[j].totalIters
  {
    var f := SlotFirst(chain, i);
    EarlierSlot(c, chain, n, j, g);
    StartOrdered(c, chain, n, g, f - 1);
    IpInSlot(c, chain, n, f - 1);
    if chain[i].overflow {
      SlotBeforeOverflow(c, chain, n, i);
    } else {
      BlockIters(c, chain, n, i);
      StartOrdered(c, chain, n, g, i);
    }
  }

  /** Consecutive transaction blocks are more than the extra signage intervals apart. */
  lemma TxFarApart(c: Constants, chain: seq<Record>, n: nat, j: nat, i: nat)
    requires Sane(c) && ValidUpTo(c, chain, n) && j < i < n && IsTx(chain[j]) && IsTx(chain[i])
    ensures chain[i].totalIters - chain[j].totalIters > c.extra * Interval(c, chain[i].ssi)
  {
    TxRule(c, chain, n, i);
    BlockIters(c, chain, n, i);
    Ordered(c, chain, n, j, LastTxAt(chain, i - 1));
  }

  /** Some block among the last 2 * MAX_SUB_SLOT_BLOCKS up to any height is a transaction block. So the walk
      back to one is bounded, and consecutive ones are at most that many heights apart. */
  lemma {:induction false} TxSoon(c: Constants, chain: seq<Record>, n: nat, i: nat)
    requires Sane(c) && ValidUpTo(c, chain, n) && i < n
    ensures 0 <= LastTxAt(chain, i) && i - LastTxAt(chain, i) < 2 * c.maxSlotBlocks
  {
    TxRule(c, chain, n, 0);
    var t := LastTxAt(chain, i);
    if i - t >= 2 * c.maxSlotBlocks {
      var f := SlotFirst(chain, i);
      SlotSize(c, chain, n, i);
      var g := SlotFirst(chain, f - 1);
      SlotSize(c, chain, n, f - 1);
      TxRule(c, chain, n, i);
      SpAfterTwoSlots(c, chain, n, t, g, i);
    }
  }

  lemma TxClose(c: Constants, chain: seq<Record>, n: nat, i: nat)
    requires Sane(c) && ValidUpTo(c, chain, n) && 0 < i < n && IsTx(chain[i])
    ensures var j := LastTxAt(chain, i - 1); 0 <= j && IsTx(chain[j]) && i - j <= 2 * c.maxSlotBlocks
  {
    TxSoon(c, chain, n, i - 1);
  }

  lemma {:induction false} TimesIncrease(c: Constants, chain: seq<Record>, n: nat, j: nat, i: nat)
    requires ValidUpTo(c, chain, n) && j < i < n && IsTx(chain[j]) && IsTx(chain[i])
    ensures chain[j].timestamp.value < chain[i].timestamp.value
    decreases i
  {
    TxRule(c, chain, n, i);
    var t := LastTxAt(chain, i - 1);
    if j < t { TimesIncrease(c, chain, n, j, t); }
  }

  /** The transaction block that an adjustment measures up to is recent. */
  lemma {:induction false} LastNotAfterRecent(c: Constants, chain: seq<Record>, n: nat, h: nat)
    requires Sane(c) && ValidUpTo(c, chain, n) && 2 * c.maxSlotBlocks <= h < n
    ensures h - 4 * c.maxSlotBlocks < LastNotAfter(chain, h - 1, chain[h].spTotal) &&
      0 <= LastNotAfter(chain, h - 1, chain[h].spTotal)
  {
    var f := SlotFirst(chain, h);
    SlotSize(c, chain, n, h);
    var g := SlotFirst(chain, f - 1);
    SlotSize(c, chain, n, f - 1);
    TxSoon(c, chain, n, g - 1);
    SpAfterTwoSlots(c, chain, n, LastTxAt(chain, g - 1), g, h);
  }
}
